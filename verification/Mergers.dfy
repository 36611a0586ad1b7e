/** Merging with the keys of a person: what the merge laws say of the trees that
    someone can open in a commons. */
module Mergers {
  import opened Terms
  import opened Closes
  import opened Seals
  import opened Commons
  import opened Keyring
  import opened Locks
  import opened Snapshots
  import opened Reading
  import M = Merge
  import L = MergeLaws

  /** The trees that someone can load and open. */
  function SourceOf(s: State, who: string, now: nat): M.Source {
    (c: CipherId) => if c in s.objects then OpenTree(s, who, s.objects[c], now) else None
  }

  /** Every such source is content-addressed, so every merge over it ends. */
  lemma PersonsMergeEnds(s: State, who: string, now: nat)
    requires Addressed(s.objects)
    ensures L.ContentAddressed(SourceOf(s, who, now)) && M.WellFounded(SourceOf(s, who, now))
  {
    L.ContentAddressedIsWellFounded(SourceOf(s, who, now));
  }

  // ---- gaining keys ---------------------------------------------------------------------

  lemma HoldsLater(s: State, s': State, who: string, close: CloseId, facet: Facet, epoch: nat, now: nat)
    requires Later(s, s') && Holds(s, who, close, facet, epoch, now)
    ensures Holds(s', who, close, facet, epoch, now)
  {
    var g :| g in GrantsOf(s, who) && Gives(g, s.closes[close], facet, epoch, now);
    LiveNeedsOnlySteward(g, s.closes[close], s'.closes[close], now);
    assert g in GrantsOf(s', who) && Gives(g, s'.closes[close], facet, epoch, now);
  }

  lemma KeyLookupLater(s: State, s': State, who: string, close: CloseId, facet: Facet, epoch: nat, now: nat)
    requires Inv(s) && Inv(s') && Later(s, s') && close in s.closes
    requires FacetKeyFor(s, who, s.closes[close], facet, epoch, now).Some?
    ensures FacetKeyFor(s', who, s'.closes[close], facet, epoch, now)
         == FacetKeyFor(s, who, s.closes[close], facet, epoch, now)
  {
    KeyLookupIsExact(s, who, close, facet, epoch, now);
    KeyLookupIsExact(s', who, close, facet, epoch, now);
    HoldsLater(s, s', who, close, facet, epoch, now);
    GrewKeepsKeys(s.closes[close], s'.closes[close], epoch);
  }

  /** Whatever is done in a commons, whoever could open a tree still opens the
      same tree, as long as their grants live. */
  lemma SourcesOnlyExtend(s: State, s': State, who: string, now: nat)
    requires Inv(s) && Inv(s') && Later(s, s')
    ensures L.Extends(SourceOf(s, who, now), SourceOf(s', who, now))
  {
    forall c: CipherId | SourceOf(s, who, now)(c).Some? ensures SourceOf(s', who, now)(c) == SourceOf(s, who, now)(c) {
      var o := s.objects[c];
      KeyLookupLater(s, s', who, o.close, Shape, o.epoch, now);
    }
  }

  /** Being granted more, or anything else that happens, only sharpens someone's
      merge exactly if no base entry they come to see makes a difference; so it
      always does if there is no base, or they saw all that is below it before. */
  lemma GrantsOnlySharpen(s: State, s': State, who: string, now: nat, base: Option<Tree>, ours: Tree, theirs: Tree)
    requires Inv(s) && Inv(s') && Later(s, s')
    ensures M.WellFounded(SourceOf(s, who, now)) && M.WellFounded(SourceOf(s', who, now))
    ensures var src, src' := SourceOf(s, who, now), SourceOf(s', who, now);
            && (L.Sharpens(M.ThreeWay(src, base, ours, theirs), M.ThreeWay(src', base, ours, theirs))
                <==> L.Harmless(src, src', base, base, ours, theirs))
            && (base.None? || L.AgreeBelow(src, src', base) ==> L.Harmless(src, src', base, base, ours, theirs))
  {
    var src, src' := SourceOf(s, who, now), SourceOf(s', who, now);
    PersonsMergeEnds(s, who, now);
    PersonsMergeEnds(s', who, now);
    SourcesOnlyExtend(s, s', who, now);
    L.KeysOnlySharpen(src, src', base, ours, theirs);
    if base.None? || L.AgreeBelow(src, src', base) {
      L.AgreedBaseSharpens(src, src', base, ours, theirs);
    }
  }

  // ---- the trees of a commons are coherent ---------------------------------------------------

  /** The entry tells the truth about a file or a folder of the store, and so does
      every entry below it; and no file is itself the encoding of a listing. */
  ghost predicate WellListed(s: State, e: TreeEntry)
    decreases e.cipher
  {
    var text := e.cipher.envelope.contentCt.text;
    && Fits(e)
    && (e.kind == Blob || e.kind == TreeKind)
    && StoredAs(s.objects, s.closes, e.cipher, e.kind, text)
    && (e.kind == TreeKind <==> text.TreeText?)
    && (text.TreeText? ==> forall name :: name in text.tree.entries ==> WellListed(s, text.tree.entries[name]))
  }

  ghost function Family(s: State): iset<TreeEntry> {
    iset e | WellListed(s, e)
  }

  /** Every listing of the store, whoever can or cannot open it. */
  function ListingsOf(objects: Objects): M.Source {
    (c: CipherId) =>
      if c in objects && objects[c].contentCt.text.TreeText? then Some(objects[c].contentCt.text.tree) else None
  }

  lemma SourceIsOfListings(s: State, who: string, now: nat)
    ensures L.Extends(SourceOf(s, who, now), ListingsOf(s.objects))
  {
  }

  lemma SameIsSameText(s: State, e: TreeEntry, f: TreeEntry)
    requires WellListed(s, e) && WellListed(s, f)
    ensures M.Same(e, f) <==> e.close == f.close && e.cipher.envelope.contentCt.text == f.cipher.envelope.contentCt.text
  {
    var o, p := e.cipher.envelope, f.cipher.envelope;
    var card :| SealedUnder(o, s.closes[o.close], card, o.contentCt.text);
    var card' :| SealedUnder(p, s.closes[p.close], card', p.contentCt.text);
    PlainIdIsIdentity(o, s.closes[o.close], card, o.contentCt.text, p, s.closes[p.close], card', p.contentCt.text);
  }

  /** Among the entries of a commons exactly the folders are listings, and equal
      plain id and close mean the same kind and the same listing. */
  lemma CommonsIsCoherent(s: State)
    requires Inv(s)
    ensures L.Coherent(ListingsOf(s.objects), Family(s))
  {
    var full, family := ListingsOf(s.objects), Family(s);
    forall e, f | e in family && f in family && M.Same(e, f)
      ensures e.kind == f.kind && full(e.cipher) == full(f.cipher)
    {
      SameIsSameText(s, e, f);
      assert s.closes[e.close].id == e.close && s.closes[f.close].id == f.close;
    }
  }

  /** No file of the working tree is the encoding of a listing. */
  ghost predicate NoListings(node: Node) {
    match node
    case File(text, _, _) => !text.TreeText?
    case Dir(kids) => forall i: nat :: i < |kids| ==> NoListings(kids[i].node)
  }

  lemma {:induction false} KeptIsListed(s: State, also: Condition, e: TreeEntry, node: Node)
    requires KeptAs(s.objects, s.closes, also, e.cipher, node) && Fits(e) && NoListings(node)
    ensures WellListed(s, e)
    decreases node
  {
    if node.Dir? {
      var entries := EntriesAt(e.cipher);
      forall name | name in entries ensures WellListed(s, entries[name]) {
        assert name in KeptNames(node.kids, |node.kids|);
        var i: nat :| i < |node.kids| && !Skipped(node.kids[i].name) && node.kids[i].name == name;
        assert ListsKid(s.objects, s.closes, also, entries, node.kids[i]);
        KeptIsListed(s, also, entries[name], node.kids[i].node);
      }
    }
  }

  /** The tree that a commit keeps. */
  function TreeOf(c: CipherId): Tree {
    if CommitIn(c).Some? then Tree(EntriesAt(CommitIn(c).value.tree)) else Tree(map[])
  }

  lemma KeptTreeIsListed(s: State, c: CipherId, root: Node)
    requires KeptCommit(s, ANY, c, root) && root.Dir? && NoListings(root)
    ensures L.EntriesIn(Some(TreeOf(c)), Family(s))
  {
    var tree := CommitIn(c).value.tree;
    forall name | name in EntriesAt(tree) ensures WellListed(s, EntriesAt(tree)[name]) {
      assert name in KeptNames(root.kids, |root.kids|);
      var i: nat :| i < |root.kids| && !Skipped(root.kids[i].name) && root.kids[i].name == name;
      assert ListsKid(s.objects, s.closes, ANY, EntriesAt(tree), root.kids[i]);
      KeptIsListed(s, ANY, EntriesAt(tree)[name], root.kids[i].node);
    }
  }

  // ---- leaves are files -------------------------------------------------------------------------

  /** What the leaf of a tree holds. */
  function TextOf(e: Option<TreeEntry>): Option<Text> {
    if e.None? then None else Some(e.value.cipher.envelope.contentCt.text)
  }

  lemma KeptFolderLoads(s: State, also: Condition, c: CipherId, node: Node)
    requires Inv(s) && KeptAs(s.objects, s.closes, also, c, node) && NoListings(node)
    ensures ListingsOf(s.objects)(c) == if node.Dir? then Some(Tree(EntriesAt(c))) else None
  {
  }

  lemma {:induction false} KidKeepsNoListings(kids: seq<Kid>, name: string)
    requires forall i: nat :: i < |kids| ==> NoListings(kids[i].node)
    ensures KidAt(kids, name).Some? ==> NoListings(KidAt(kids, name).value)
  {
    if kids != [] && !Skipped(name) && kids[0].name != name {
      KidKeepsNoListings(kids[1..], name);
    }
  }

  /** One step down to a leaf. */
  lemma LeafBelow(full: M.Source, entries: map<string, TreeEntry>, path: seq<string>)
    requires |path| > 1
    ensures L.LeafAt(full, Some(Tree(entries)), path) ==
            if path[0] in entries then L.LeafAt(full, full(entries[path[0]].cipher), path[1..]) else None
  {
    L.NothingAtNothing(full, path[1..]);
  }

  lemma KeptEntryFits(s: State, c: CipherId, dir: Node, name: string)
    requires dir.Dir? && KeptAs(s.objects, s.closes, ANY, c, dir) && name in EntriesAt(c)
    ensures Fits(EntriesAt(c)[name])
  {
    assert name in KeptNames(dir.kids, |dir.kids|);
    var i: nat :| i < |dir.kids| && !Skipped(dir.kids[i].name) && dir.kids[i].name == name;
    assert ListsKid(s.objects, s.closes, ANY, EntriesAt(c), dir.kids[i]);
  }

  /** What a kept folder lists under a name is the child kept there. */
  lemma KidListed(s: State, c: CipherId, dir: Node, name: string)
    requires Inv(s) && dir.Dir? && KeptAs(s.objects, s.closes, ANY, c, dir) && NoListings(dir)
    ensures name in EntriesAt(c) <==> KidAt(dir.kids, name).Some?
    ensures name in EntriesAt(c) ==>
              var e, kid := EntriesAt(c)[name], KidAt(dir.kids, name).value;
              && KeptAs(s.objects, s.closes, ANY, e.cipher, kid) && NoListings(kid) && Fits(e)
              && ListingsOf(s.objects)(e.cipher) == if kid.Dir? then Some(Tree(EntriesAt(e.cipher))) else None
  {
    ChildIsKept(s.objects, s.closes, ANY, c, dir, name);
    KidKeepsNoListings(dir.kids, name);
    if name in EntriesAt(c) {
      KeptEntryFits(s, c, dir, name);
      KeptFolderLoads(s, ANY, EntriesAt(c)[name].cipher, KidAt(dir.kids, name).value);
    }
  }

  lemma LeafHere(s: State, e: TreeEntry, node: Node)
    requires KeptAs(s.objects, s.closes, ANY, e.cipher, node) && Fits(e)
    ensures TextOf(L.Leaf(Some(e))) == FileAt(node, [])
  {
  }

  lemma FileBelow(dir: Node, path: seq<string>)
    requires dir.Dir? && path != []
    ensures FileAt(dir, path) ==
            match KidAt(dir.kids, path[0]) case None => None case Some(kid) => FileAt(kid, path[1..])
    ensures |path| > 1 ==> forall text, kind, size :: FileAt(File(text, kind, size), path[1..]) == None
  {
  }

  /** The leaves of a kept folder's listing are exactly the files kept under it. */
  lemma {:induction false} LeafIsFile(s: State, c: CipherId, dir: Node, path: seq<string>)
    requires Inv(s) && dir.Dir? && KeptAs(s.objects, s.closes, ANY, c, dir) && NoListings(dir) && |path| > 0
    ensures TextOf(L.LeafAt(ListingsOf(s.objects), Some(Tree(EntriesAt(c))), path)) == FileAt(dir, path)
    decreases |path|
  {
    var name, entries, full := path[0], EntriesAt(c), ListingsOf(s.objects);
    KidListed(s, c, dir, name);
    FileBelow(dir, path);
    if |path| == 1 {
      assert path[1..] == [];
      if name in entries {
        LeafHere(s, entries[name], KidAt(dir.kids, name).value);
      }
    } else {
      LeafBelow(full, entries, path);
      L.NothingAtNothing(full, path[1..]);
      if name in entries && KidAt(dir.kids, name).value.Dir? {
        LeafIsFile(s, entries[name].cipher, KidAt(dir.kids, name).value, path[1..]);
      }
    }
  }

  // ---- merging keepings merges their files ---------------------------------------------------------

  /** Path-by-path three-way on files. */
  function NaiveFile(b: Option<Text>, o: Option<Text>, t: Option<Text>): L.Verdict<Text> {
    if o == t then L.Pick(o) else if o == b then L.Pick(t) else if t == b then L.Pick(o) else L.Clash
  }

  ghost predicate SameTexts(e: Option<TreeEntry>, f: Option<TreeEntry>) {
    M.SameOpt(e, f) ==> TextOf(e) == TextOf(f)
  }

  lemma InFamilySameTexts(s: State, e: Option<TreeEntry>, f: Option<TreeEntry>)
    requires L.In(e, Family(s)) && L.In(f, Family(s))
    ensures SameTexts(e, f)
  {
    if M.SameOpt(e, f) && e.Some? {
      SameIsSameText(s, e.value, f.value);
    }
  }

  /** What is picked among entries is what is picked among their texts. */
  lemma PicksTheText(
    seen: Option<TreeEntry>, o: Option<TreeEntry>, t: Option<TreeEntry>, m: Option<TreeEntry>)
    requires SameTexts(o, t) && SameTexts(o, seen) && SameTexts(t, seen) && SameTexts(m, o) && SameTexts(m, t)
    requires L.Naive(seen, o, t).Pick? && M.SameOpt(m, L.Naive(seen, o, t).entry)
    ensures NaiveFile(TextOf(seen), TextOf(o), TextOf(t)) == L.Pick(TextOf(m))
  {
  }

  lemma UnseenFileSettles(seen: Option<Text>, b: Option<Text>, o: Option<Text>, t: Option<Text>, m: Option<Text>)
    requires seen == b || seen == None
    requires NaiveFile(seen, o, t) == L.Pick(m)
    ensures NaiveFile(b, o, t) == L.Pick(m) <==> seen == b || o == t
  {
  }

  /** The base's file at a path, as far as someone's merge of three keepings sees it. */
  function SeenFile(
    s: State, who: string, now: nat, base: CipherId, ours: CipherId, theirs: CipherId, path: seq<string>): Option<Text>
    requires |path| > 0
  {
    var src := SourceOf(s, who, now);
    TextOf(L.SeenLeaf(src, ListingsOf(s.objects), Some(TreeOf(base)), TreeOf(ours), TreeOf(theirs), path))
  }

  /** Merging three keepings with one's own keys, however few: at every path not
      under a conflict the merge holds the file that the naive rule picks among
      those kept there, the base's as far as it is seen. That is what the rule picks
      among all three exactly if the base's file is in sight or the others agree. */
  lemma KeepingsMergeNaively(
    s: State, who: string, now: nat, base: CipherId, ours: CipherId, theirs: CipherId, b: Node, o: Node, t: Node,
    path: seq<string>)
    requires Inv(s) && |path| > 0
    requires KeptCommit(s, ANY, base, b) && KeptCommit(s, ANY, ours, o) && KeptCommit(s, ANY, theirs, t)
    requires b.Dir? && o.Dir? && t.Dir? && NoListings(b) && NoListings(o) && NoListings(t)
    ensures M.WellFounded(SourceOf(s, who, now))
    ensures var m := M.ThreeWay(SourceOf(s, who, now), Some(TreeOf(base)), TreeOf(ours), TreeOf(theirs));
            var seen := SeenFile(s, who, now, base, ours, theirs, path);
            var file := TextOf(L.MergedLeafAt(ListingsOf(s.objects), m, path));
            && seen in {FileAt(b, path), None}
            && (!L.UnderConflict(m, path) ==>
                && NaiveFile(seen, FileAt(o, path), FileAt(t, path)) == L.Pick(file)
                && (NaiveFile(FileAt(b, path), FileAt(o, path), FileAt(t, path)) == L.Pick(file) <==>
                    seen == FileAt(b, path) || FileAt(o, path) == FileAt(t, path)))
  {
    var src, full, family := SourceOf(s, who, now), ListingsOf(s.objects), Family(s);
    PersonsMergeEnds(s, who, now);
    SourceIsOfListings(s, who, now);
    CommonsIsCoherent(s);
    KeptTreeIsListed(s, base, b);
    KeptTreeIsListed(s, ours, o);
    KeptTreeIsListed(s, theirs, t);
    LeafIsFile(s, CommitIn(base).value.tree, b, path);
    LeafIsFile(s, CommitIn(ours).value.tree, o, path);
    LeafIsFile(s, CommitIn(theirs).value.tree, t, path);
    L.SeenLeafIs(src, full, Some(TreeOf(base)), TreeOf(ours), TreeOf(theirs), path);
    var m := M.ThreeWay(src, Some(TreeOf(base)), TreeOf(ours), TreeOf(theirs));
    if !L.UnderConflict(m, path) {
      FilesMergeNaively(s, src, full, Some(TreeOf(base)), TreeOf(ours), TreeOf(theirs), path);
      UnseenFileSettles(SeenFile(s, who, now, base, ours, theirs, path), FileAt(b, path), FileAt(o, path),
                        FileAt(t, path), TextOf(L.MergedLeafAt(full, m, path)));
    }
  }

  lemma LeavesAreIn(
    src: M.Source, full: M.Source, family: iset<TreeEntry>, base: Option<Tree>, ours: Tree, theirs: Tree,
    path: seq<string>)
    requires M.WellFounded(src) && L.Extends(src, full) && L.Coherent(full, family)
    requires L.EntriesIn(base, family) && L.EntriesIn(Some(ours), family) && L.EntriesIn(Some(theirs), family)
    requires |path| > 0
    ensures L.In(L.SeenLeaf(src, full, base, ours, theirs, path), family)
    ensures L.In(L.LeafAt(full, Some(ours), path), family) && L.In(L.LeafAt(full, Some(theirs), path), family)
    ensures L.In(L.MergedLeafAt(full, M.ThreeWay(src, base, ours, theirs), path), family)
  {
    L.SeenLeafIs(src, full, base, ours, theirs, path);
    L.MergedLeafIsIn(src, full, family, base, ours, theirs, path);
    L.AtIsIn(full, family, base, path);
    L.AtIsIn(full, family, Some(ours), path);
    L.AtIsIn(full, family, Some(theirs), path);
  }

  /** What is picked among entries of a commons is what is picked among their texts. */
  lemma PicksTheirText(
    s: State, seen: Option<TreeEntry>, o: Option<TreeEntry>, t: Option<TreeEntry>, m: Option<TreeEntry>)
    requires L.In(seen, Family(s)) && L.In(o, Family(s)) && L.In(t, Family(s)) && L.In(m, Family(s))
    requires L.Naive(seen, o, t).Pick? && M.SameOpt(m, L.Naive(seen, o, t).entry)
    ensures NaiveFile(TextOf(seen), TextOf(o), TextOf(t)) == L.Pick(TextOf(m))
  {
    InFamilySameTexts(s, o, t);
    InFamilySameTexts(s, o, seen);
    InFamilySameTexts(s, t, seen);
    InFamilySameTexts(s, m, o);
    InFamilySameTexts(s, m, t);
    PicksTheText(seen, o, t, m);
  }

  /** The naive rule on the texts of leaves. */
  lemma FilesMergeNaively(
    s: State, src: M.Source, full: M.Source, base: Option<Tree>, ours: Tree, theirs: Tree, path: seq<string>)
    requires M.WellFounded(src) && L.Extends(src, full) && L.Coherent(full, Family(s))
    requires L.EntriesIn(base, Family(s)) && L.EntriesIn(Some(ours), Family(s)) && L.EntriesIn(Some(theirs), Family(s))
    requires |path| > 0 && !L.UnderConflict(M.ThreeWay(src, base, ours, theirs), path)
    ensures NaiveFile(TextOf(L.SeenLeaf(src, full, base, ours, theirs, path)),
                      TextOf(L.LeafAt(full, Some(ours), path)), TextOf(L.LeafAt(full, Some(theirs), path)))
         == L.Pick(TextOf(L.MergedLeafAt(full, M.ThreeWay(src, base, ours, theirs), path)))
  {
    var family := Family(s);
    L.MergeRefinesSeen(src, full, family, base, ours, theirs, path);
    LeavesAreIn(src, full, family, base, ours, theirs, path);
    PicksTheirText(s, L.SeenLeaf(src, full, base, ours, theirs, path), L.LeafAt(full, Some(ours), path),
                   L.LeafAt(full, Some(theirs), path),
                   L.MergedLeafAt(full, M.ThreeWay(src, base, ours, theirs), path));
  }
}
