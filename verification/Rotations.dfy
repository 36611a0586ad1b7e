/** Merging a keeping with its own re-keeping after lock changes: what of it is
    proof against rotations (docs/DESIGN.md:201-212) and what is not. */
module Rotations {
  import opened Terms
  import opened Commons
  import opened Keyring
  import opened Snapshots
  import opened Reading
  import opened Rekeeping
  import opened Mergers
  import M = Merge
  import L = MergeLaws

  /** One working tree, kept at `s` and, after nothing that moved it to other
      closes, again at `s'`; both keepings are still there at `end`. */
  ghost predicate Rekept(s: State, s': State, end: State, dir: Node, c: CipherId, c': CipherId) {
    && Inv(s) && Inv(s') && Inv(end) && Later(s, s') && Later(s', end) && s'.closemap == s.closemap
    && dir.Dir? && Distinct(dir)
    && KeptCommit(end, ANY, c, dir) && CommitIn(c).value.tree == EntryOf(s, dir, []).cipher
    && KeptCommit(end, ANY, c', dir) && CommitIn(c').value.tree == EntryOf(s', dir, []).cipher
  }

  /** Two keepings of a tree are like that, whatever else is done after each. */
  lemma KeepingTwice(
    s: State, s': State, end: State, dir: Node, message: string, message': string, now: nat, now': nat)
    requires Inv(s) && Inv(s') && Inv(end) && dir.Dir? && Distinct(dir) && s'.closemap == s.closemap
    requires Keep(s, dir, message, now).outcome.Ok? && Keep(s', dir, message', now').outcome.Ok?
    requires Later(Keep(s, dir, message, now).state, s') && Later(Keep(s', dir, message', now').state, end)
    ensures var k, k' := Keep(s, dir, message, now), Keep(s', dir, message', now');
            Rekept(s, s', end, dir, k.outcome.value, k'.outcome.value)
  {
    var k, k' := Keep(s, dir, message, now), Keep(s', dir, message', now');
    KeepKeeps(s, dir, message, now);
    KeepKeeps(s', dir, message', now');
    KeepSucceedsIff(s, dir, message, now);
    KeepSucceedsIff(s', dir, message', now');
    LaterIsTransitive(s, k.state, s');
    LaterIsTransitive(s', k'.state, end);
    LaterIsTransitive(k.state, s', end);
    KeptCommitLater(k.state, end, Sealable(s, now), k.outcome.value, dir);
    KeptCommitLater(k'.state, end, Sealable(s', now'), k'.outcome.value, dir);
  }

  // ---- what the two keepings list -----------------------------------------------------------

  /** The listing of a whole folder. */
  ghost function ListingOf(s: State, dir: Node, rel: seq<string>): Tree
    requires Inv(s) && dir.Dir?
  {
    Tree(Listing(s, dir, |dir.kids|, rel))
  }

  /** What a keeping lists at a path. */
  ghost function Placed(s: State, node: Option<Node>, rel: seq<string>): Option<TreeEntry>
    requires Inv(s)
  {
    if node.None? then None else Some(EntryOf(s, node.value, rel))
  }

  /** Everything below an entry is stored. */
  ghost predicate Stocked(s: State, end: State, node: Node, rel: seq<string>)
    requires Inv(s)
  {
    KeptAs(end.objects, end.closes, ANY, EntryOf(s, node, rel).cipher, node)
  }

  lemma KidPlaced(s: State, end: State, dir: Node, rel: seq<string>, name: string)
    requires Inv(s) && dir.Dir? && Distinct(dir) && Stocked(s, end, dir, rel)
    ensures M.Lookup(ListingOf(s, dir, rel), name) == Placed(s, KidAt(dir.kids, name), rel + [name])
    ensures KidAt(dir.kids, name).Some? ==>
              Stocked(s, end, KidAt(dir.kids, name).value, rel + [name]) && Distinct(KidAt(dir.kids, name).value)
  {
    var e := EntryOf(s, dir, rel);
    assert EntriesAt(e.cipher) == Listing(s, dir, |dir.kids|, rel);
    ChildIsKept(end.objects, end.closes, ANY, e.cipher, dir, name);
    if KidAt(dir.kids, name).Some? {
      var i := KidIndex(dir.kids, name);
      ListingAt(s, dir, |dir.kids|, rel, i);
      assert DistinctKid(dir.kids, i);
    }
  }

  /** A kept folder opens for whoever holds its label; a file never opens as one. */
  lemma FolderOpens(s: State, end: State, dir: Node, rel: seq<string>, who: string, now: nat)
    requires Inv(s) && Inv(end) && dir.Dir? && Stocked(s, end, dir, rel)
    ensures var e := EntryOf(s, dir, rel);
            SourceOf(end, who, now)(e.cipher) ==
            if HoldsOf(end, who, e.cipher.envelope, Shape, now) then Some(ListingOf(s, dir, rel)) else None
  {
    OpensIff(end, who, EntryOf(s, dir, rel).cipher, TreeKind, TreeText(ListingOf(s, dir, rel)), Shape, now);
  }

  lemma FileNeverOpens(s: State, end: State, file: Node, rel: seq<string>, who: string, now: nat)
    requires Inv(s) && Inv(end) && file.File? && Stocked(s, end, file, rel)
    ensures SourceOf(end, who, now)(EntryOf(s, file, rel).cipher).None?
  {
    OpensIff(end, who, EntryOf(s, file, rel).cipher, Blob, file.text, Shape, now);
  }

  lemma EntryIsOf(s: State, node: Node, rel: seq<string>)
    requires Inv(s)
    ensures var o := EntryOf(s, node, rel).cipher.envelope;
            o.close == RecordAt(s, rel).id && o.epoch == RecordAt(s, rel).epoch
  {
  }

  lemma HoldsOlder(s: State, who: string, close: CloseId, epoch: nat, epoch': nat, now: nat)
    requires Holds(s, who, close, Shape, epoch', now) && epoch <= epoch'
    ensures Holds(s, who, close, Shape, epoch, now)
  {
    var g :| g in GrantsOf(s, who) && Gives(g, s.closes[close], Shape, epoch', now);
    assert Gives(g, s.closes[close], Shape, epoch, now);
  }

  /** Whoever opens a re-keyed folder opens it as it was before, too. */
  lemma OpensBeforeToo(s: State, s': State, end: State, dir: Node, rel: seq<string>, who: string, now: nat)
    requires Inv(s) && Inv(s') && Inv(end) && Later(s, s') && s'.closemap == s.closemap && dir.Dir?
    requires Stocked(s, end, dir, rel) && Stocked(s', end, dir, rel)
    requires SourceOf(end, who, now)(EntryOf(s', dir, rel).cipher).Some?
    ensures SourceOf(end, who, now)(EntryOf(s', dir, rel).cipher) == Some(ListingOf(s', dir, rel))
    ensures SourceOf(end, who, now)(EntryOf(s, dir, rel).cipher) == Some(ListingOf(s, dir, rel))
  {
    FolderOpens(s, end, dir, rel, who, now);
    FolderOpens(s', end, dir, rel, who, now);
    EntryIsOf(s, dir, rel);
    EntryIsOf(s', dir, rel);
    RecordsGrew(s, s', rel);
    HoldsOlder(end, who, RecordAt(s, rel).id, RecordAt(s, rel).epoch, RecordAt(s', rel).epoch, now);
  }

  /** A folder kept at both states and still stored. */
  ghost predicate KeptTwice(s: State, s': State, end: State, dir: Node, rel: seq<string>) {
    && Inv(s) && Inv(s') && Inv(end) && Later(s, s') && s'.closemap == s.closemap
    && dir.Dir? && Distinct(dir) && Stocked(s, end, dir, rel) && Stocked(s', end, dir, rel)
  }

  /** One step down, where the merge goes into both sides. */
  lemma StepDown(
    s: State, s': State, end: State, dir: Node, rel: seq<string>, who: string, now: nat, name: string,
    t: Option<TreeEntry>)
    requires KeptTwice(s, s', end, dir, rel)
    requires M.BothOpen(SourceOf(end, who, now), M.Lookup(ListingOf(s', dir, rel), name), t)
    ensures KidAt(dir.kids, name).Some?
    ensures var src, kid := SourceOf(end, who, now), KidAt(dir.kids, name).value;
            && KeptTwice(s, s', end, kid, rel + [name])
            && M.Load(src, M.Lookup(ListingOf(s, dir, rel), name)) == Some(ListingOf(s, kid, rel + [name]))
            && M.Load(src, M.Lookup(ListingOf(s', dir, rel), name)) == Some(ListingOf(s', kid, rel + [name]))
  {
    KidPlaced(s, end, dir, rel, name);
    KidPlaced(s', end, dir, rel, name);
    var kid := KidAt(dir.kids, name).value;
    if kid.File? {
      FileNeverOpens(s', end, kid, rel + [name], who, now);
    } else {
      OpensBeforeToo(s, s', end, kid, rel + [name], who, now);
    }
  }

  lemma NodeBelow(dir: Node, path: seq<string>)
    requires dir.Dir? && |path| > 0
    ensures |path| == 1 ==> NodeAt(dir, path) == KidAt(dir.kids, path[0])
    ensures NodeAt(dir, path) ==
            match KidAt(dir.kids, path[0]) case None => None case Some(kid) => NodeAt(kid, path[1..])
  {
  }

  /** One of the two keepings lists at a path what was kept there. */
  ghost predicate Found(s: State, src: M.Source, dir: Node, rel: seq<string>, path: seq<string>)
    requires Inv(s) && dir.Dir? && |path| > 0
  {
    L.At(src, Some(ListingOf(s, dir, rel)), path) == Placed(s, NodeAt(dir, path), rel + path)
  }

  lemma FoundHere(s: State, end: State, src: M.Source, dir: Node, rel: seq<string>, path: seq<string>)
    requires Inv(s) && dir.Dir? && Distinct(dir) && Stocked(s, end, dir, rel) && |path| == 1
    ensures Found(s, src, dir, rel, path)
    ensures NodeAt(dir, path).Some? ==> Distinct(NodeAt(dir, path).value)
  {
    KidPlaced(s, end, dir, rel, path[0]);
    NodeBelow(dir, path);
    assert path == [path[0]];
  }

  lemma FoundBelow(s: State, src: M.Source, dir: Node, rel: seq<string>, path: seq<string>)
    requires Inv(s) && dir.Dir? && |path| > 1 && KidAt(dir.kids, path[0]).Some?
    requires var kid := KidAt(dir.kids, path[0]).value;
             && kid.Dir?
             && M.Load(src, M.Lookup(ListingOf(s, dir, rel), path[0])) == Some(ListingOf(s, kid, rel + [path[0]]))
             && Found(s, src, kid, rel + [path[0]], path[1..])
    ensures Found(s, src, dir, rel, path)
  {
    assert rel + path == rel + [path[0]] + path[1..];
    NodeBelow(dir, path);
    L.AtBelow(src, Some(ListingOf(s, dir, rel)), path);
  }

  lemma ReachedDown(src: M.Source, base: Tree, ours: Tree, theirs: Tree, path: seq<string>)
    requires |path| > 1 && L.ReachedBy(src, Some(base), ours, theirs, path)
    ensures M.BothOpen(src, M.Lookup(ours, path[0]), M.Lookup(theirs, path[0]))
    ensures L.ReachedBy(src, M.Load(src, M.Lookup(base, path[0])), M.Load(src, M.Lookup(ours, path[0])).value,
                        M.Load(src, M.Lookup(theirs, path[0])).value, path[1..])
  {
    assert path[..1] == [path[0]];
    assert L.DivergesAt(src, Some(base), ours, theirs, path[..1]) && L.OpensAt(src, ours, theirs, path[..1]);
    L.ReachedStep(src, Some(base), ours, theirs, path);
  }

  /** As far as the merge goes down, it finds in both keepings what was kept. */
  lemma {:induction false} FoundAsKept(
    s: State, s': State, end: State, dir: Node, rel: seq<string>, theirs: Tree, who: string, now: nat,
    path: seq<string>)
    requires KeptTwice(s, s', end, dir, rel) && |path| > 0
    requires L.ReachedBy(SourceOf(end, who, now), Some(ListingOf(s, dir, rel)), ListingOf(s', dir, rel), theirs, path)
    ensures Found(s, SourceOf(end, who, now), dir, rel, path) && Found(s', SourceOf(end, who, now), dir, rel, path)
    ensures NodeAt(dir, path).Some? ==> Distinct(NodeAt(dir, path).value)
    decreases |path|
  {
    var src, name := SourceOf(end, who, now), path[0];
    if |path| == 1 {
      FoundHere(s, end, src, dir, rel, path);
      FoundHere(s', end, src, dir, rel, path);
    } else {
      ReachedDown(src, ListingOf(s, dir, rel), ListingOf(s', dir, rel), theirs, path);
      StepDown(s, s', end, dir, rel, who, now, name, M.Lookup(theirs, name));
      var kid := KidAt(dir.kids, name).value;
      FoundAsKept(s, s', end, kid, rel + [name], M.Load(src, M.Lookup(theirs, name)).value, who, now, path[1..]);
      FoundBelow(s, src, dir, rel, path);
      FoundBelow(s', src, dir, rel, path);
      NodeBelow(dir, path);
    }
  }

  // ---- where such a merge is in conflict --------------------------------------------------------

  /** The folder kept at a path has a new plain id although nothing in it was
      edited: something below came under another lock. */
  ghost predicate Rekeyed(s: State, s': State, node: Option<Node>, rel: seq<string>)
    requires Inv(s) && Inv(s')
  {
    node.Some? && !Undisturbed(s, s', node.value, rel)
  }

  lemma RekeyedDiffers(s: State, s': State, node: Option<Node>, rel: seq<string>)
    requires Inv(s) && Inv(s') && Later(s, s') && s'.closemap == s.closemap
    requires node.Some? ==> Distinct(node.value)
    ensures M.SameOpt(Placed(s', node, rel), Placed(s, node, rel)) <==> !Rekeyed(s, s', node, rel)
  {
    if node.Some? {
      RekeepingIff(s, s', node.value, rel);
    }
  }

  lemma RekeptIsKeptTwice(s: State, s': State, end: State, dir: Node, c: CipherId, c': CipherId)
    requires Rekept(s, s', end, dir, c, c')
    ensures KeptTwice(s, s', end, dir, [])
    ensures TreeOf(c) == ListingOf(s, dir, []) && TreeOf(c') == ListingOf(s', dir, [])
  {
  }

  /** What stands at a path of a merge over a keeping whose one side is its
      re-keeping. */
  ghost function RekeyedConflict(
    s: State, s': State, src: M.Source, node: Option<Node>, t: Option<TreeEntry>, path: seq<string>)
    : Option<M.MergedEntry>
    requires Inv(s) && Inv(s')
  {
    var b, o := Placed(s, node, path), Placed(s', node, path);
    if Rekeyed(s, s', node, path) && !M.SameOpt(t, b) && !M.SameOpt(t, o) && !M.BothOpen(src, o, t)
    then Some(M.Conflict(b, o, t, M.BothDrawers(o, t))) else None
  }

  lemma ConflictAmong(s: State, s': State, src: M.Source, node: Option<Node>, t: Option<TreeEntry>, path: seq<string>)
    requires Inv(s) && Inv(s')
    requires M.SameOpt(Placed(s', node, path), Placed(s, node, path)) <==> !Rekeyed(s, s', node, path)
    ensures var b, o := Placed(s, node, path), Placed(s', node, path);
            RekeyedConflict(s, s', src, node, t, path) ==
            if L.Diverges(b, o, t) && !M.BothOpen(src, o, t)
            then Some(M.Conflict(b, o, t, M.BothDrawers(o, t))) else None
  {
  }

  lemma FoundAtTop(s: State, src: M.Source, dir: Node, path: seq<string>)
    requires Inv(s) && dir.Dir? && |path| > 0 && Found(s, src, dir, [], path)
    ensures L.At(src, Some(ListingOf(s, dir, [])), path) == Placed(s, NodeAt(dir, path), path)
  {
    assert [] + path == path;
  }

  lemma ListingsConflict(
    s: State, s': State, end: State, dir: Node, theirs: Tree, who: string, now: nat, path: seq<string>)
    requires KeptTwice(s, s', end, dir, []) && |path| > 0 && M.WellFounded(SourceOf(end, who, now))
    ensures var src, base, ours := SourceOf(end, who, now), ListingOf(s, dir, []), ListingOf(s', dir, []);
            M.ConflictAt(M.ThreeWay(src, Some(base), ours, theirs), path) ==
            if L.ReachedBy(src, Some(base), ours, theirs, path)
            then RekeyedConflict(s, s', src, NodeAt(dir, path), L.At(src, Some(theirs), path), path) else None
  {
    var src, base, ours := SourceOf(end, who, now), ListingOf(s, dir, []), ListingOf(s', dir, []);
    L.ConflictIff(src, Some(base), ours, theirs, path);
    if L.ReachedBy(src, Some(base), ours, theirs, path) {
      FoundAsKept(s, s', end, dir, [], theirs, who, now, path);
      FoundAtTop(s, src, dir, path);
      FoundAtTop(s', src, dir, path);
      RekeyedDiffers(s, s', NodeAt(dir, path), path);
      ConflictAmong(s, s', src, NodeAt(dir, path), L.At(src, Some(theirs), path), path);
    }
  }

  /** Merging a tree, over a keeping, with the re-keeping of it after lock changes:
      a conflict stands exactly where everything above was gone into and theirs
      changed a folder in which a lock was changed, unless theirs is a folder of the
      same close and the merger opens both. It is sealed exactly if theirs is one. */
  lemma RekeyingConflictsIff(
    s: State, s': State, end: State, dir: Node, c: CipherId, c': CipherId, theirs: Tree, who: string, now: nat,
    path: seq<string>)
    requires Rekept(s, s', end, dir, c, c') && |path| > 0
    ensures var src := SourceOf(end, who, now);
            && M.WellFounded(src)
            && M.ConflictAt(M.ThreeWay(src, Some(TreeOf(c)), TreeOf(c'), theirs), path) ==
               if L.ReachedBy(src, Some(TreeOf(c)), TreeOf(c'), theirs, path)
               then RekeyedConflict(s, s', src, NodeAt(dir, path), L.At(src, Some(theirs), path), path) else None
  {
    PersonsMergeEnds(end, who, now);
    RekeptIsKeptTwice(s, s', end, dir, c, c');
    ListingsConflict(s, s', end, dir, theirs, who, now, path);
  }

  /** Whoever opens every re-keyed folder on both sides, where theirs still has a
      folder of its close, merges without a conflict ... */
  lemma OpenersMergeClean(
    s: State, s': State, end: State, dir: Node, c: CipherId, c': CipherId, theirs: Tree, who: string, now: nat)
    requires Rekept(s, s', end, dir, c, c')
    requires forall path: seq<string> :: |path| > 0 && Rekeyed(s, s', NodeAt(dir, path), path) ==>
               M.BothOpen(SourceOf(end, who, now), Placed(s', NodeAt(dir, path), path),
                          L.At(SourceOf(end, who, now), Some(theirs), path))
    ensures M.WellFounded(SourceOf(end, who, now))
    ensures var m := M.ThreeWay(SourceOf(end, who, now), Some(TreeOf(c)), TreeOf(c'), theirs);
            forall path: seq<string> :: |path| > 0 ==> M.ConflictAt(m, path).None?
  {
    PersonsMergeEnds(end, who, now);
    var src := SourceOf(end, who, now);
    var m := M.ThreeWay(src, Some(TreeOf(c)), TreeOf(c'), theirs);
    forall path: seq<string> | |path| > 0 ensures M.ConflictAt(m, path).None? {
      RekeyingConflictsIff(s, s', end, dir, c, c', theirs, who, now, path);
    }
  }

  lemma KidStocked(s: State, end: State, dir: Node, rel: seq<string>, name: string, at: seq<string>)
    requires Inv(s) && dir.Dir? && Distinct(dir) && Stocked(s, end, dir, rel) && at == rel + [name]
    requires KidAt(dir.kids, name).Some?
    ensures Stocked(s, end, KidAt(dir.kids, name).value, at)
  {
    KidPlaced(s, end, dir, rel, name);
  }

  lemma TopKidOpens(s: State, end: State, dir: Node, name: string, kid: Node, who: string, now: nat)
    requires Inv(s) && Inv(end) && dir.Dir? && Distinct(dir) && Stocked(s, end, dir, [])
    requires KidAt(dir.kids, name) == Some(kid) && kid.Dir?
    ensures var e := EntryOf(s, kid, [name]);
            SourceOf(end, who, now)(e.cipher).Some? <==> HoldsOf(end, who, e.cipher.envelope, Shape, now)
  {
    KidStocked(s, end, dir, [], name, [name]);
    FolderOpens(s, end, kid, [name], who, now);
  }

  /** ... and whoever does not hold the label of a re-keyed folder at the top gets
      a sealed conflict there, if theirs changed the folder as well. */
  lemma OthersGetSealed(
    s: State, s': State, end: State, dir: Node, c: CipherId, c': CipherId, theirs: Tree, who: string, now: nat,
    name: string)
    requires Rekept(s, s', end, dir, c, c') && Rekeyed(s, s', NodeAt(dir, [name]), [name])
    requires var b, o := Placed(s, NodeAt(dir, [name]), [name]), Placed(s', NodeAt(dir, [name]), [name]);
             var t := M.Lookup(theirs, name);
             && M.BothDrawers(o, t) && !M.SameOpt(t, b) && !M.SameOpt(t, o)
             && !HoldsOf(end, who, o.value.cipher.envelope, Shape, now)
    ensures M.WellFounded(SourceOf(end, who, now))
    ensures var m := M.ThreeWay(SourceOf(end, who, now), Some(TreeOf(c)), TreeOf(c'), theirs);
            M.ConflictAt(m, [name]) ==
            Some(M.Conflict(Placed(s, NodeAt(dir, [name]), [name]), Placed(s', NodeAt(dir, [name]), [name]),
                            M.Lookup(theirs, name), true))
  {
    RekeptIsKeptTwice(s, s', end, dir, c, c');
    RekeyingConflictsIff(s, s', end, dir, c, c', theirs, who, now, [name]);
    NodeBelow(dir, [name]);
    TopKidOpens(s', end, dir, name, NodeAt(dir, [name]).value, who, now);
  }

  // ---- and what it holds elsewhere ----------------------------------------------------------------

  lemma FullStep(s: State, end: State, dir: Node, rel: seq<string>, name: string)
    requires Inv(s) && Inv(end) && dir.Dir? && Distinct(dir) && Stocked(s, end, dir, rel) && NoListings(dir)
    ensures var full, kid := ListingsOf(end.objects), KidAt(dir.kids, name);
            M.Load(full, M.Lookup(ListingOf(s, dir, rel), name)) ==
            if kid.Some? && kid.value.Dir? then Some(ListingOf(s, kid.value, rel + [name])) else None
    ensures KidAt(dir.kids, name).Some? ==>
              var kid := KidAt(dir.kids, name).value;
              Distinct(kid) && NoListings(kid) && Stocked(s, end, kid, rel + [name])
  {
    KidPlaced(s, end, dir, rel, name);
    KidKeepsNoListings(dir.kids, name);
    if KidAt(dir.kids, name).Some? {
      var kid := KidAt(dir.kids, name).value;
      KeptFolderLoads(end, ANY, EntryOf(s, kid, rel + [name]).cipher, kid);
    }
  }

  lemma NothingFound(s: State, src: M.Source, dir: Node, rel: seq<string>, path: seq<string>)
    requires Inv(s) && dir.Dir? && |path| > 1
    requires KidAt(dir.kids, path[0]).None? || KidAt(dir.kids, path[0]).value.File?
    requires M.Load(src, M.Lookup(ListingOf(s, dir, rel), path[0])).None?
    ensures Found(s, src, dir, rel, path) && NodeAt(dir, path).None?
  {
    NodeBelow(dir, path);
    L.AtBelow(src, Some(ListingOf(s, dir, rel)), path);
    L.NothingAtNothing(src, path[1..]);
  }

  /** Whoever opened everything would find all that was kept. */
  lemma {:induction false} FullyFound(s: State, end: State, dir: Node, rel: seq<string>, path: seq<string>)
    requires Inv(s) && Inv(end) && dir.Dir? && Distinct(dir) && Stocked(s, end, dir, rel) && NoListings(dir)
    requires |path| > 0
    ensures Found(s, ListingsOf(end.objects), dir, rel, path)
    ensures NodeAt(dir, path).Some? ==> Distinct(NodeAt(dir, path).value)
    decreases |path|
  {
    var full := ListingsOf(end.objects);
    if |path| == 1 {
      FoundHere(s, end, full, dir, rel, path);
    } else {
      FullStep(s, end, dir, rel, path[0]);
      if KidAt(dir.kids, path[0]).Some? && KidAt(dir.kids, path[0]).value.Dir? {
        FullyFound(s, end, KidAt(dir.kids, path[0]).value, rel + [path[0]], path[1..]);
        FoundBelow(s, full, dir, rel, path);
        NodeBelow(dir, path);
      } else {
        NothingFound(s, full, dir, rel, path);
      }
    }
  }

  lemma LeafIsTheSame(s: State, s': State, node: Option<Node>, rel: seq<string>)
    requires Inv(s) && Inv(s') && Later(s, s') && s'.closemap == s.closemap
    requires node.Some? ==> Distinct(node.value)
    ensures M.SameOpt(L.Leaf(Placed(s', node, rel)), L.Leaf(Placed(s, node, rel)))
  {
    if node.Some? {
      RekeepingIff(s, s', node.value, rel);
    }
  }

  /** So the leaves of the two keepings are the same. */
  lemma LeavesAreTheSame(s: State, s': State, end: State, dir: Node, rel: seq<string>, path: seq<string>)
    requires KeptTwice(s, s', end, dir, rel) && NoListings(dir) && |path| > 0
    ensures var full := ListingsOf(end.objects);
            M.SameOpt(L.LeafAt(full, Some(ListingOf(s', dir, rel)), path),
                      L.LeafAt(full, Some(ListingOf(s, dir, rel)), path))
  {
    FullyFound(s, end, dir, rel, path);
    FullyFound(s', end, dir, rel, path);
    LeafIsTheSame(s, s', NodeAt(dir, path), rel + path);
  }

  lemma SeenBelow(
    src: M.Source, full: M.Source, base: Tree, ours: Tree, theirs: Tree, path: seq<string>, below: Option<Tree>)
    requires |path| > 1 && L.Extends(src, full)
    requires below.Some? && M.Load(src, M.Lookup(base, path[0])) == below
    requires M.BothOpen(src, M.Lookup(ours, path[0]), M.Lookup(theirs, path[0]))
    requires L.SeenLeaf(src, full, below, M.Load(src, M.Lookup(ours, path[0])).value,
                        M.Load(src, M.Lookup(theirs, path[0])).value, path[1..]) == L.LeafAt(full, below, path[1..])
    ensures L.SeenLeaf(src, full, Some(base), ours, theirs, path) == L.LeafAt(full, Some(base), path)
  {
    L.AtBelow(full, Some(base), path);
  }

  /** The merge sees the base wherever it goes into ours. */
  lemma {:induction false} BaseIsSeen(
    s: State, s': State, end: State, dir: Node, rel: seq<string>, theirs: Tree, who: string, now: nat,
    path: seq<string>)
    requires KeptTwice(s, s', end, dir, rel) && |path| > 0
    ensures var src, full, base := SourceOf(end, who, now), ListingsOf(end.objects), ListingOf(s, dir, rel);
            L.SeenLeaf(src, full, Some(base), ListingOf(s', dir, rel), theirs, path) == L.LeafAt(full, Some(base), path)
    decreases |path|
  {
    var src, base, ours := SourceOf(end, who, now), ListingOf(s, dir, rel), ListingOf(s', dir, rel);
    var o, t := M.Lookup(ours, path[0]), M.Lookup(theirs, path[0]);
    if |path| > 1 && M.BothOpen(src, o, t) {
      StepDown(s, s', end, dir, rel, who, now, path[0], t);
      var kid := KidAt(dir.kids, path[0]).value;
      BaseIsSeen(s, s', end, kid, rel + [path[0]], M.Load(src, t).value, who, now, path[1..]);
      SourceIsOfListings(end, who, now);
      SeenBelow(src, ListingsOf(end.objects), base, ours, theirs, path, M.Load(src, M.Lookup(base, path[0])));
    }
  }

  lemma UnchangedSettles(b: Option<TreeEntry>, o: Option<TreeEntry>, t: Option<TreeEntry>, m: Option<TreeEntry>)
    requires M.SameOpt(o, b) && L.Naive(b, o, t).Pick? && M.SameOpt(m, L.Naive(b, o, t).entry)
    ensures M.SameOpt(m, t)
  {
  }

  lemma ListingsKeepTheirs(
    s: State, s': State, end: State, dir: Node, theirs: Tree, who: string, now: nat, path: seq<string>)
    requires KeptTwice(s, s', end, dir, []) && NoListings(dir) && |path| > 0
    requires L.EntriesIn(Some(ListingOf(s, dir, [])), Family(end))
    requires L.EntriesIn(Some(ListingOf(s', dir, [])), Family(end)) && L.EntriesIn(Some(theirs), Family(end))
    requires M.WellFounded(SourceOf(end, who, now))
    requires var base, ours := ListingOf(s, dir, []), ListingOf(s', dir, []);
             !L.UnderConflict(M.ThreeWay(SourceOf(end, who, now), Some(base), ours, theirs), path)
    ensures var src, full := SourceOf(end, who, now), ListingsOf(end.objects);
            var m := M.ThreeWay(src, Some(ListingOf(s, dir, [])), ListingOf(s', dir, []), theirs);
            M.SameOpt(L.MergedLeafAt(full, m, path), L.LeafAt(full, Some(theirs), path))
  {
    var src, full := SourceOf(end, who, now), ListingsOf(end.objects);
    var base, ours := ListingOf(s, dir, []), ListingOf(s', dir, []);
    SourceIsOfListings(end, who, now);
    CommonsIsCoherent(end);
    L.MergeRefinesSeen(src, full, Family(end), Some(base), ours, theirs, path);
    BaseIsSeen(s, s', end, dir, [], theirs, who, now, path);
    LeavesAreTheSame(s, s', end, dir, [], path);
    UnchangedSettles(L.LeafAt(full, Some(base), path), L.LeafAt(full, Some(ours), path),
                     L.LeafAt(full, Some(theirs), path),
                     L.MergedLeafAt(full, M.ThreeWay(src, Some(base), ours, theirs), path));
  }

  /** Whoever merges, at every path not under a conflict the merge holds theirs: a
      lock change on one side takes nothing from the other. */
  lemma RekeyingKeepsTheirs(
    s: State, s': State, end: State, dir: Node, c: CipherId, c': CipherId, theirs: Tree, who: string, now: nat,
    path: seq<string>)
    requires Rekept(s, s', end, dir, c, c') && NoListings(dir) && |path| > 0
    requires L.EntriesIn(Some(theirs), Family(end))
    requires M.WellFounded(SourceOf(end, who, now))
    requires !L.UnderConflict(M.ThreeWay(SourceOf(end, who, now), Some(TreeOf(c)), TreeOf(c'), theirs), path)
    ensures var src, full := SourceOf(end, who, now), ListingsOf(end.objects);
            M.SameOpt(L.MergedLeafAt(full, M.ThreeWay(src, Some(TreeOf(c)), TreeOf(c'), theirs), path),
                      L.LeafAt(full, Some(theirs), path))
  {
    RekeptIsKeptTwice(s, s', end, dir, c, c');
    KeptTreeIsListed(end, c, dir);
    KeptTreeIsListed(end, c', dir);
    ListingsKeepTheirs(s, s', end, dir, theirs, who, now, path);
  }
}
