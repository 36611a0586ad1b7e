/** What the three-way merge means: it refines the naive path-by-path rule, is
    symmetric, has unit laws, and only gains from keys. */
module MergeLaws {
  import opened Terms
  import opened Merge

  function MergedLookup(m: MergedTree, name: string): Option<MergedEntry> {
    if name in m.entries then Some(m.entries[name]) else None
  }

  lemma ThreeWayAt(src: Source, base: Option<Tree>, ours: Tree, theirs: Tree, name: string)
    requires WellFounded(src)
    ensures MergedLookup(ThreeWay(src, base, ours, theirs), name) == Outcome(src, base, ours, theirs, name)
  {
  }

  // ---- paths through trees ----------------------------------------------------------

  /** The entry at a path of names, opening every tree on the way. */
  function At(src: Source, t: Option<Tree>, path: seq<string>): Option<TreeEntry>
    requires |path| > 0
    decreases |path|
  {
    var e := LookupOpt(t, path[0]);
    if |path| == 1 then e else At(src, Load(src, e), path[1..])
  }

  lemma {:induction false} NothingAtNothing(src: Source, path: seq<string>)
    requires |path| > 0
    ensures At(src, None, path) == None
    decreases |path|
  {
    if |path| > 1 {
      NothingAtNothing(src, path[1..]);
    }
  }

  /** The leaf at a path: an entry that is not a tree. */
  function Leaf(e: Option<TreeEntry>): Option<TreeEntry> {
    if e.Some? && e.value.kind != TreeKind then e else None
  }

  function LeafAt(src: Source, t: Option<Tree>, path: seq<string>): Option<TreeEntry>
    requires |path| > 0
  {
    Leaf(At(src, t, path))
  }

  /** The leaf that a merge holds at a path. */
  function MergedLeafAt(src: Source, m: MergedTree, path: seq<string>): Option<TreeEntry>
    requires |path| > 0
    decreases |path|
  {
    match MergedLookup(m, path[0])
    case None => None
    case Some(Take(e)) => if |path| == 1 then Leaf(Some(e)) else LeafAt(src, src(e.cipher), path[1..])
    case Some(Subtree(t)) => if |path| == 1 then None else MergedLeafAt(src, t, path[1..])
    case Some(Conflict(_, _, _, _)) => None
  }

  /** A conflict is reported at the path or above it. */
  predicate UnderConflict(m: MergedTree, path: seq<string>)
    requires |path| > 0
    decreases |path|
  {
    match MergedLookup(m, path[0])
    case None => false
    case Some(Take(_)) => false
    case Some(Subtree(t)) => |path| > 1 && UnderConflict(t, path[1..])
    case Some(Conflict(_, _, _, _)) => true
  }

  // ---- refinement of the naive rule -----------------------------------------------------

  datatype Verdict<+T> = Pick(entry: Option<T>) | Clash

  /** Path-by-path three-way: equal sides give that, one side equal to the base
      gives the other. */
  function Naive(b: Option<TreeEntry>, o: Option<TreeEntry>, t: Option<TreeEntry>): Verdict<TreeEntry> {
    if SameOpt(o, t) then Pick(o)
    else if SameOpt(o, b) then Pick(t)
    else if SameOpt(t, b) then Pick(o)
    else Clash
  }

  /** `family` is closed under opening; in it, exactly the trees open, and equal
      (plain, close) means the same kind and the same tree. */
  ghost predicate Coherent(src: Source, family: iset<TreeEntry>) {
    && (forall e :: e in family ==> (e.kind == TreeKind <==> src(e.cipher).Some?))
    && (forall e :: e in family ==> EntriesIn(src(e.cipher), family))
    && (forall e, f :: e in family && f in family && Same(e, f) ==> e.kind == f.kind && src(e.cipher) == src(f.cipher))
  }

  ghost predicate EntriesIn(t: Option<Tree>, family: iset<TreeEntry>) {
    t.Some? ==> forall name :: name in t.value.entries ==> t.value.entries[name] in family
  }

  ghost predicate In(e: Option<TreeEntry>, family: iset<TreeEntry>) {
    e.Some? ==> e.value in family
  }

  /** Below equal entries the leaves are equal. */
  lemma SameBelow(src: Source, family: iset<TreeEntry>, e: Option<TreeEntry>, f: Option<TreeEntry>)
    requires Coherent(src, family) && In(e, family) && In(f, family) && SameOpt(e, f)
    ensures SameOpt(Leaf(e), Leaf(f))
    ensures Load(src, e) == Load(src, f)
  {
  }

  lemma SameOptIsReflexive(e: Option<TreeEntry>)
    ensures SameOpt(e, e)
  {
  }

  // ---- exactly where conflicts are ---------------------------------------------------------

  /** All three pairs differ: base and ours, base and theirs, ours and theirs. */
  predicate Diverges(b: Option<TreeEntry>, o: Option<TreeEntry>, t: Option<TreeEntry>) {
    !SameOpt(o, t) && !SameOpt(o, b) && !SameOpt(t, b)
  }

  predicate DivergesAt(src: Source, base: Option<Tree>, ours: Tree, theirs: Tree, path: seq<string>)
    requires |path| > 0
  {
    Diverges(At(src, base, path), At(src, Some(ours), path), At(src, Some(theirs), path))
  }

  predicate OpensAt(src: Source, ours: Tree, theirs: Tree, path: seq<string>)
    requires |path| > 0
  {
    BothOpen(src, At(src, Some(ours), path), At(src, Some(theirs), path))
  }

  /** Every proper prefix of the path diverges and is opened on both sides. */
  ghost predicate ReachedBy(src: Source, base: Option<Tree>, ours: Tree, theirs: Tree, path: seq<string>) {
    forall k :: 1 <= k < |path| ==>
      DivergesAt(src, base, ours, theirs, path[..k]) && OpensAt(src, ours, theirs, path[..k])
  }

  /** A path holds a conflict exactly when it diverges three ways, is not a
      drawer the merger can open on both sides, and everything above it is. The
      conflict shows the three entries found there and is sealed exactly when
      it is a drawer of one close on both sides. */
  lemma {:induction false} ConflictIff(
    src: Source, base: Option<Tree>, ours: Tree, theirs: Tree, path: seq<string>)
    requires WellFounded(src) && |path| > 0
    ensures var b, o, t := At(src, base, path), At(src, Some(ours), path), At(src, Some(theirs), path);
            ConflictAt(ThreeWay(src, base, ours, theirs), path) ==
            if && ReachedBy(src, base, ours, theirs, path)
               && DivergesAt(src, base, ours, theirs, path)
               && !OpensAt(src, ours, theirs, path)
            then Some(Conflict(b, o, t, BothDrawers(o, t)))
            else None
    decreases |path|
  {
    var name, rest := path[0], path[1..];
    var b, o, t := LookupOpt(base, name), Lookup(ours, name), Lookup(theirs, name);
    ThreeWayAt(src, base, ours, theirs, name);
    if |path| > 1 {
      assert path[..1] == [name];
      if Diverges(b, o, t) && BothOpen(src, o, t) {
        var bt, ot, tt := Load(src, b), Load(src, o).value, Load(src, t).value;
        ConflictIff(src, bt, ot, tt, rest);
        ReachedStep(src, base, ours, theirs, path);
      } else {
        assert !ReachedBy(src, base, ours, theirs, path) by {
          assert !(DivergesAt(src, base, ours, theirs, path[..1]) && OpensAt(src, ours, theirs, path[..1]));
        }
      }
    }
  }

  lemma ReachedStep(src: Source, base: Option<Tree>, ours: Tree, theirs: Tree, path: seq<string>)
    requires |path| > 1 && OpensAt(src, ours, theirs, path[..1]) && DivergesAt(src, base, ours, theirs, path[..1])
    ensures var b, o, t := LookupOpt(base, path[0]), Lookup(ours, path[0]), Lookup(theirs, path[0]);
            ReachedBy(src, base, ours, theirs, path)
            <==> ReachedBy(src, Load(src, b), Load(src, o).value, Load(src, t).value, path[1..])
  {
    var b, o, t := LookupOpt(base, path[0]), Lookup(ours, path[0]), Lookup(theirs, path[0]);
    var bt, ot, tt := Load(src, b), Load(src, o).value, Load(src, t).value;
    var rest := path[1..];
    forall k | 1 <= k < |rest|
      ensures DivergesAt(src, bt, ot, tt, rest[..k]) == DivergesAt(src, base, ours, theirs, path[..k + 1])
      ensures OpensAt(src, ot, tt, rest[..k]) == OpensAt(src, ours, theirs, path[..k + 1])
    {
      assert path[..k + 1][1..] == rest[..k];
    }
    if ReachedBy(src, bt, ot, tt, rest) {
      forall k | 1 <= k < |path|
        ensures DivergesAt(src, base, ours, theirs, path[..k]) && OpensAt(src, ours, theirs, path[..k])
      {
        if k > 1 {
          assert rest[..k - 1] == path[..k][1..];
        }
      }
    }
  }

  /** What the merge compares and when it goes on: entries are the same by plain id
      and close, and it goes into both sides exactly if both are folders, of one
      close, and both open. */
  lemma ComparesAndOpens(src: Source, o: Option<TreeEntry>, t: Option<TreeEntry>)
    ensures SameOpt(o, t) <==>
            (o.None? && t.None?)
            || (o.Some? && t.Some? && o.value.plain == t.value.plain && o.value.close == t.value.close)
    ensures BothDrawers(o, t) <==>
            && o.Some? && t.Some? && o.value.close == t.value.close
            && o.value.kind == TreeKind && t.value.kind == TreeKind
    ensures BothOpen(src, o, t) <==>
            BothDrawers(o, t) && src(o.value.cipher).Some? && src(t.value.cipher).Some?
  {
  }

  /** What a merge holds at a path, entry for entry. */
  function MergedAt(m: MergedTree, path: seq<string>): Option<MergedEntry>
    requires |path| > 0
    decreases |path|
  {
    match MergedLookup(m, path[0])
    case Some(Subtree(t)) => if |path| == 1 then Some(Subtree(t)) else MergedAt(t, path[1..])
    case e => if |path| == 1 then e else None
  }

  /** Where the merge gets to: the entry of ours where both sides are the same or
      theirs is the base's, that of theirs where ours is the base's, whole and with
      its own address; the merge of both where they open; a conflict elsewhere. */
  lemma {:induction false} MergedIs(src: Source, base: Option<Tree>, ours: Tree, theirs: Tree, path: seq<string>)
    requires WellFounded(src) && |path| > 0 && ReachedBy(src, base, ours, theirs, path)
    ensures var b, o, t := At(src, base, path), At(src, Some(ours), path), At(src, Some(theirs), path);
            var merged := MergedAt(ThreeWay(src, base, ours, theirs), path);
            if SameOpt(o, t) then merged == TakeOpt(o)
            else if SameOpt(o, b) then merged == TakeOpt(t)
            else if SameOpt(t, b) then merged == TakeOpt(o)
            else if BothOpen(src, o, t) then
              merged == Some(Subtree(ThreeWay(src, Load(src, b), Load(src, o).value, Load(src, t).value)))
            else merged == Some(Conflict(b, o, t, BothDrawers(o, t)))
    decreases |path|
  {
    var name := path[0];
    ThreeWayAt(src, base, ours, theirs, name);
    if |path| > 1 {
      var b, o, t := LookupOpt(base, name), Lookup(ours, name), Lookup(theirs, name);
      assert path[..1] == [name];
      assert DivergesAt(src, base, ours, theirs, path[..1]) && OpensAt(src, ours, theirs, path[..1]);
      ReachedStep(src, base, ours, theirs, path);
      MergedIs(src, Load(src, b), Load(src, o).value, Load(src, t).value, path[1..]);
    }
  }

  // ---- symmetry ---------------------------------------------------------------------------

  /** `m'` is the mirror image of `m`: takes equal up to `Same`, conflicts with
      their sides exchanged, at every depth. */
  ghost predicate Mirrors(m: MergedTree, m': MergedTree)
    decreases m
  {
    && m.entries.Keys == m'.entries.Keys
    && forall name :: name in m.entries ==> MirrorsEntry(m.entries[name], m'.entries[name])
  }

  ghost predicate MirrorsEntry(e: MergedEntry, e': MergedEntry)
    decreases e
  {
    match (e, e')
    case (Take(x), Take(y)) => Same(x, y)
    case (Subtree(t), Subtree(t')) => Mirrors(t, t')
    case (Conflict(b, o, t, s), Conflict(b', o', t', s')) => b == b' && o == t' && t == o' && s == s'
    case _ => false
  }

  /** Exchanging ours and theirs mirrors the merge. */
  lemma {:induction false} MergeIsSymmetric(src: Source, base: Option<Tree>, ours: Tree, theirs: Tree)
    requires WellFounded(src)
    ensures Mirrors(ThreeWay(src, base, ours, theirs), ThreeWay(src, base, theirs, ours))
    decreases Height(src, ours)
  {
    var m, m' := ThreeWay(src, base, ours, theirs), ThreeWay(src, base, theirs, ours);
    forall name: string
      ensures name in m.entries <==> name in m'.entries
      ensures name in m.entries ==> MirrorsEntry(m.entries[name], m'.entries[name])
    {
      ThreeWayAt(src, base, ours, theirs, name);
      ThreeWayAt(src, base, theirs, ours, name);
      var b, o, t := LookupOpt(base, name), Lookup(ours, name), Lookup(theirs, name);
      if Diverges(b, o, t) && BothOpen(src, o, t) {
        HeightFalls(src, ours, name);
        MergeIsSymmetric(src, Load(src, b), Load(src, o).value, Load(src, t).value);
      }
    }
  }

  // ---- unit laws ----------------------------------------------------------------------------

  /** The merge is `t`, taken whole: no conflict and nothing opened. */
  ghost predicate Takes(m: MergedTree, t: Tree) {
    && m.entries.Keys == t.entries.Keys
    && forall name :: name in m.entries ==> m.entries[name].Take? && Same(m.entries[name].entry, t.entries[name])
  }

  /** Entry by entry the same, whatever their kinds, ciphers and cards. */
  ghost predicate SameTree(a: Tree, b: Tree) {
    forall name: string :: SameOpt(Lookup(a, name), Lookup(b, name))
  }

  /** At no name do all three pairs differ. */
  ghost predicate Settled(base: Option<Tree>, ours: Tree, theirs: Tree) {
    forall name: string :: !Diverges(LookupOpt(base, name), Lookup(ours, name), Lookup(theirs, name))
  }

  /** What a settled merge takes at a name. */
  function Taken(base: Option<Tree>, ours: Tree, theirs: Tree, name: string): Option<TreeEntry> {
    var o := Lookup(ours, name);
    if SameOpt(o, Lookup(theirs, name)) || !SameOpt(o, LookupOpt(base, name)) then o else Lookup(theirs, name)
  }

  lemma SettledTakes(src: Source, base: Option<Tree>, ours: Tree, theirs: Tree, name: string)
    requires WellFounded(src) && Settled(base, ours, theirs)
    ensures MergedLookup(ThreeWay(src, base, ours, theirs), name) == TakeOpt(Taken(base, ours, theirs, name))
  {
    ThreeWayAt(src, base, ours, theirs, name);
    assert !Diverges(LookupOpt(base, name), Lookup(ours, name), Lookup(theirs, name));
  }

  /** A settled merge opens no tree: it is the same for every source. */
  lemma SettledIgnoresKeys(src: Source, src': Source, base: Option<Tree>, ours: Tree, theirs: Tree)
    requires WellFounded(src) && WellFounded(src') && Settled(base, ours, theirs)
    ensures ThreeWay(src, base, ours, theirs) == ThreeWay(src', base, ours, theirs)
  {
    var m, m' := ThreeWay(src, base, ours, theirs), ThreeWay(src', base, ours, theirs);
    forall name: string ensures MergedLookup(m, name) == MergedLookup(m', name) {
      SettledTakes(src, base, ours, theirs, name);
      SettledTakes(src', base, ours, theirs, name);
    }
    forall name: string ensures name in m.entries <==> name in m'.entries {
      assert MergedLookup(m, name) == MergedLookup(m', name);
    }
    forall name | name in m.entries ensures m.entries[name] == m'.entries[name] {
      assert MergedLookup(m, name) == MergedLookup(m', name);
    }
    assert m.entries == m'.entries;
  }

  lemma SettledTakesWhole(src: Source, base: Option<Tree>, ours: Tree, theirs: Tree, whole: Tree)
    requires WellFounded(src) && Settled(base, ours, theirs)
    requires forall name: string :: SameOpt(Taken(base, ours, theirs, name), Lookup(whole, name))
    ensures Takes(ThreeWay(src, base, ours, theirs), whole)
  {
    var m := ThreeWay(src, base, ours, theirs);
    forall name: string
      ensures name in m.entries <==> name in whole.entries
      ensures name in m.entries ==> m.entries[name].Take? && Same(m.entries[name].entry, whole.entries[name])
    {
      SettledTakes(src, base, ours, theirs, name);
      assert SameOpt(Taken(base, ours, theirs, name), Lookup(whole, name));
    }
  }

  lemma UnitsSettle(base: Option<Tree>, ours: Tree, theirs: Tree)
    requires (base.Some? && (SameTree(ours, base.value) || SameTree(theirs, base.value))) || SameTree(ours, theirs)
    ensures Settled(base, ours, theirs)
  {
  }

  lemma TakenIsTheirs(base: Tree, ours: Tree, theirs: Tree)
    requires SameTree(ours, base)
    ensures forall name: string :: SameOpt(Taken(Some(base), ours, theirs, name), Lookup(theirs, name))
  {
  }

  lemma TakenIsOurs(base: Tree, ours: Tree, theirs: Tree)
    requires SameTree(theirs, base)
    ensures forall name: string :: SameOpt(Taken(Some(base), ours, theirs, name), Lookup(ours, name))
  {
    forall name: string ensures SameOpt(Taken(Some(base), ours, theirs, name), Lookup(ours, name)) {
      assert SameOpt(Lookup(theirs, name), Lookup(base, name));
    }
  }

  /** A merge whose one side is the base is the other side, taken whole, no
      matter which trees can be opened. */
  lemma MergeUnits(src: Source, src': Source, base: Tree, changed: Tree, same: Tree)
    requires WellFounded(src) && WellFounded(src') && SameTree(same, base)
    ensures Takes(ThreeWay(src, Some(base), same, changed), changed)
    ensures Takes(ThreeWay(src, Some(base), changed, same), changed)
    ensures ThreeWay(src, Some(base), same, changed) == ThreeWay(src', Some(base), same, changed)
    ensures ThreeWay(src, Some(base), changed, same) == ThreeWay(src', Some(base), changed, same)
  {
    UnitsSettle(Some(base), same, changed);
    UnitsSettle(Some(base), changed, same);
    TakenIsTheirs(base, same, changed);
    TakenIsOurs(base, changed, same);
    SettledTakesWhole(src, Some(base), same, changed, changed);
    SettledTakesWhole(src, Some(base), changed, same, changed);
    SettledIgnoresKeys(src, src', Some(base), same, changed);
    SettledIgnoresKeys(src, src', Some(base), changed, same);
  }

  /** A merge of two sides that agree is either of them, whatever the base. */
  lemma MergeOfEquals(src: Source, src': Source, base: Option<Tree>, ours: Tree, theirs: Tree)
    requires WellFounded(src) && WellFounded(src') && SameTree(ours, theirs)
    ensures Takes(ThreeWay(src, base, ours, theirs), ours)
    ensures Takes(ThreeWay(src, base, ours, theirs), theirs)
    ensures ThreeWay(src, base, ours, theirs) == ThreeWay(src', base, ours, theirs)
  {
    UnitsSettle(base, ours, theirs);
    SettledTakesWhole(src, base, ours, theirs, ours);
    SettledTakesWhole(src, base, ours, theirs, theirs);
    SettledIgnoresKeys(src, src', base, ours, theirs);
  }

  // ---- gaining keys -----------------------------------------------------------------------

  /** `src'` opens everything `src` opens, to the same tree. */
  ghost predicate Extends(src: Source, src': Source) {
    forall c: CipherId :: src(c).Some? ==> src'(c) == src(c)
  }

  /** `m'` keeps every take and every unsealed conflict of `m` at every depth;
      only sealed conflicts may have become subtrees. */
  ghost predicate Sharpens(m: MergedTree, m': MergedTree)
    decreases m
  {
    && m.entries.Keys == m'.entries.Keys
    && forall name :: name in m.entries ==> SharpensEntry(m.entries[name], m'.entries[name])
  }

  ghost predicate SharpensEntry(e: MergedEntry, e': MergedEntry)
    decreases e
  {
    match e
    case Take(_) => e' == e
    case Subtree(t) => e'.Subtree? && Sharpens(t, e'.tree)
    case Conflict(_, _, _, isSealed) => e' == e || (isSealed && e'.Subtree?)
  }

  /** Where the merge over `src` looks at a base entry, that of `src'` is the same
      or makes no difference: the sides agree, or they are a drawer that `src'`
      opens on both sides and finds changed on both since its base. */
  ghost predicate HarmlessAt(
    src: Source, src': Source, base: Option<Tree>, base': Option<Tree>, ours: Tree, theirs: Tree, path: seq<string>)
    requires |path| > 0
  {
    var o, t := At(src, Some(ours), path), At(src, Some(theirs), path);
    || SameOpt(o, t)
    || At(src, base, path) == At(src', base', path)
    || (BothOpen(src', o, t) && Diverges(At(src', base', path), o, t))
  }

  ghost predicate Harmless(
    src: Source, src': Source, base: Option<Tree>, base': Option<Tree>, ours: Tree, theirs: Tree)
  {
    forall path: seq<string> :: |path| > 0 && ReachedBy(src, base, ours, theirs, path) ==>
      HarmlessAt(src, src', base, base', ours, theirs, path)
  }

  ghost predicate HarmlessFrom(
    src: Source, src': Source, base: Option<Tree>, base': Option<Tree>, ours: Tree, theirs: Tree, name: string)
  {
    forall path: seq<string> :: |path| > 0 && path[0] == name && ReachedBy(src, base, ours, theirs, path) ==>
      HarmlessAt(src, src', base, base', ours, theirs, path)
  }

  lemma HarmlessByName(
    src: Source, src': Source, base: Option<Tree>, base': Option<Tree>, ours: Tree, theirs: Tree)
    ensures Harmless(src, src', base, base', ours, theirs)
       <==> forall name: string :: HarmlessFrom(src, src', base, base', ours, theirs, name)
  {
    if forall name: string :: HarmlessFrom(src, src', base, base', ours, theirs, name) {
      forall path: seq<string> | |path| > 0 && ReachedBy(src, base, ours, theirs, path)
        ensures HarmlessAt(src, src', base, base', ours, theirs, path)
      {
        assert HarmlessFrom(src, src', base, base', ours, theirs, path[0]);
      }
    }
  }

  /** Paths go on below a name only where both sides diverge and open. */
  lemma HarmlessHere(
    src: Source, src': Source, base: Option<Tree>, base': Option<Tree>, ours: Tree, theirs: Tree, name: string)
    requires !(DivergesAt(src, base, ours, theirs, [name]) && OpensAt(src, ours, theirs, [name]))
    ensures HarmlessFrom(src, src', base, base', ours, theirs, name)
       <==> HarmlessAt(src, src', base, base', ours, theirs, [name])
  {
    assert ReachedBy(src, base, ours, theirs, [name]);
    forall path: seq<string> | |path| > 1 && path[0] == name
      ensures !ReachedBy(src, base, ours, theirs, path)
    {
      assert path[..1] == [name];
    }
    assert forall path: seq<string> :: |path| == 1 && path[0] == name ==> path == [name];
  }

  lemma AtBelow(src: Source, t: Option<Tree>, path: seq<string>)
    requires |path| > 1
    ensures At(src, t, path) == At(src, Load(src, LookupOpt(t, path[0])), path[1..])
  {
  }

  /** Looking below a name is looking from what stands there. */
  lemma HarmlessOneDown(
    src: Source, src': Source, base: Option<Tree>, base': Option<Tree>, ours: Tree, theirs: Tree, name: string,
    rest: seq<string>)
    requires DivergesAt(src, base, ours, theirs, [name]) && OpensAt(src, ours, theirs, [name]) && |rest| > 0
    ensures var bt, bt' := Load(src, LookupOpt(base, name)), Load(src', LookupOpt(base', name));
            var ot, tt := Load(src, Lookup(ours, name)).value, Load(src, Lookup(theirs, name)).value;
            && (ReachedBy(src, base, ours, theirs, [name] + rest) <==> ReachedBy(src, bt, ot, tt, rest))
            && (HarmlessAt(src, src', base, base', ours, theirs, [name] + rest)
                <==> HarmlessAt(src, src', bt, bt', ot, tt, rest))
  {
    var path := [name] + rest;
    assert path[..1] == [name] && path[1..] == rest;
    ReachedStep(src, base, ours, theirs, path);
    AtBelow(src, base, path);
    AtBelow(src', base', path);
    AtBelow(src, Some(ours), path);
    AtBelow(src, Some(theirs), path);
  }

  lemma HarmlessBelow(
    src: Source, src': Source, base: Option<Tree>, base': Option<Tree>, ours: Tree, theirs: Tree, name: string)
    requires DivergesAt(src, base, ours, theirs, [name]) && OpensAt(src, ours, theirs, [name])
    ensures HarmlessFrom(src, src', base, base', ours, theirs, name) <==>
            && HarmlessAt(src, src', base, base', ours, theirs, [name])
            && Harmless(src, src', Load(src, LookupOpt(base, name)), Load(src', LookupOpt(base', name)),
                        Load(src, Lookup(ours, name)).value, Load(src, Lookup(theirs, name)).value)
  {
    var bt, bt' := Load(src, LookupOpt(base, name)), Load(src', LookupOpt(base', name));
    var ot, tt := Load(src, Lookup(ours, name)).value, Load(src, Lookup(theirs, name)).value;
    assert ReachedBy(src, base, ours, theirs, [name]);
    forall rest: seq<string> | |rest| > 0
      ensures ReachedBy(src, base, ours, theirs, [name] + rest) <==> ReachedBy(src, bt, ot, tt, rest)
      ensures HarmlessAt(src, src', base, base', ours, theirs, [name] + rest)
         <==> HarmlessAt(src, src', bt, bt', ot, tt, rest)
    {
      HarmlessOneDown(src, src', base, base', ours, theirs, name, rest);
    }
    if HarmlessFrom(src, src', base, base', ours, theirs, name) {
      forall rest: seq<string> | |rest| > 0 && ReachedBy(src, bt, ot, tt, rest)
        ensures HarmlessAt(src, src', bt, bt', ot, tt, rest)
      {
        assert ([name] + rest)[0] == name;
      }
    }
    if HarmlessAt(src, src', base, base', ours, theirs, [name]) && Harmless(src, src', bt, bt', ot, tt) {
      forall path: seq<string> | |path| > 0 && path[0] == name && ReachedBy(src, base, ours, theirs, path)
        ensures HarmlessAt(src, src', base, base', ours, theirs, path)
      {
        if |path| == 1 {
          assert path == [name];
        } else {
          assert path == [name] + path[1..];
        }
      }
    }
  }

  /** `m'` sharpens `m` as far as one name is concerned. */
  ghost predicate SharpensName(m: MergedTree, m': MergedTree, name: string) {
    && (name in m.entries <==> name in m'.entries)
    && (name in m.entries ==> SharpensEntry(m.entries[name], m'.entries[name]))
  }

  /** The same for one name, where the merge over `src` does not go further down. */
  lemma SharpensNameIff(
    src: Source, src': Source, base: Option<Tree>, base': Option<Tree>, ours: Tree, theirs: Tree, name: string)
    requires WellFounded(src) && WellFounded(src') && Extends(src, src') && (base.Some? ==> base' == base)
    requires !(DivergesAt(src, base, ours, theirs, [name]) && OpensAt(src, ours, theirs, [name]))
    ensures SharpensName(ThreeWay(src, base, ours, theirs), ThreeWay(src', base', ours, theirs), name)
       <==> HarmlessAt(src, src', base, base', ours, theirs, [name])
  {
    ThreeWayAt(src, base, ours, theirs, name);
    ThreeWayAt(src', base', ours, theirs, name);
  }

  /** ... and where it does. */
  lemma SharpensDrawerIff(
    src: Source, src': Source, base: Option<Tree>, base': Option<Tree>, ours: Tree, theirs: Tree, name: string)
    requires WellFounded(src) && WellFounded(src') && Extends(src, src') && (base.Some? ==> base' == base)
    requires DivergesAt(src, base, ours, theirs, [name]) && OpensAt(src, ours, theirs, [name])
    ensures SharpensName(ThreeWay(src, base, ours, theirs), ThreeWay(src', base', ours, theirs), name) <==>
            && HarmlessAt(src, src', base, base', ours, theirs, [name])
            && var ot, tt := Load(src, Lookup(ours, name)).value, Load(src, Lookup(theirs, name)).value;
               Sharpens(ThreeWay(src, Load(src, LookupOpt(base, name)), ot, tt),
                        ThreeWay(src', Load(src', LookupOpt(base', name)), ot, tt))
  {
    ThreeWayAt(src, base, ours, theirs, name);
    ThreeWayAt(src', base', ours, theirs, name);
  }

  /** One merge sharpens another, over a source that opens more and on a base that
      is there if the other's is, exactly if no base entry it looks at makes a
      difference. */
  lemma {:induction false} SharpensIff(
    src: Source, src': Source, base: Option<Tree>, base': Option<Tree>, ours: Tree, theirs: Tree)
    requires WellFounded(src) && WellFounded(src') && Extends(src, src') && (base.Some? ==> base' == base)
    ensures Sharpens(ThreeWay(src, base, ours, theirs), ThreeWay(src', base', ours, theirs))
       <==> Harmless(src, src', base, base', ours, theirs)
    decreases Height(src, ours)
  {
    var m, m' := ThreeWay(src, base, ours, theirs), ThreeWay(src', base', ours, theirs);
    forall name: string
      ensures SharpensName(m, m', name) <==> HarmlessFrom(src, src', base, base', ours, theirs, name)
    {
      if DivergesAt(src, base, ours, theirs, [name]) && OpensAt(src, ours, theirs, [name]) {
        HeightFalls(src, ours, name);
        SharpensDrawerIff(src, src', base, base', ours, theirs, name);
        HarmlessBelow(src, src', base, base', ours, theirs, name);
        SharpensIff(src, src', Load(src, LookupOpt(base, name)), Load(src', LookupOpt(base', name)),
                    Load(src, Lookup(ours, name)).value, Load(src, Lookup(theirs, name)).value);
      } else {
        SharpensNameIff(src, src', base, base', ours, theirs, name);
        HarmlessHere(src, src', base, base', ours, theirs, name);
      }
    }
    HarmlessByName(src, src', base, base', ours, theirs);
    SharpensByName(m, m');
  }

  lemma SharpensByName(m: MergedTree, m': MergedTree)
    ensures Sharpens(m, m') <==> forall name: string :: SharpensName(m, m', name)
  {
    if forall name: string :: SharpensName(m, m', name) {
      forall name: string ensures name in m.entries <==> name in m'.entries {
        assert SharpensName(m, m', name);
      }
      forall name | name in m.entries ensures SharpensEntry(m.entries[name], m'.entries[name]) {
        assert SharpensName(m, m', name);
      }
    }
  }

  /** Gaining keys only sharpens a merge exactly if every base entry that the
      merge with fewer keys looks at stays the same or makes no difference. */
  lemma KeysOnlySharpen(src: Source, src': Source, base: Option<Tree>, ours: Tree, theirs: Tree)
    requires WellFounded(src) && WellFounded(src') && Extends(src, src')
    ensures Sharpens(ThreeWay(src, base, ours, theirs), ThreeWay(src', base, ours, theirs))
       <==> Harmless(src, src', base, base, ours, theirs)
  {
    SharpensIff(src, src', base, base, ours, theirs);
  }

  /** Both sources find the same entries below `base`. */
  ghost predicate AgreeBelow(src: Source, src': Source, base: Option<Tree>) {
    forall path: seq<string> :: |path| > 0 ==> At(src, base, path) == At(src', base, path)
  }

  /** So gaining keys only sharpens every merge on a base whose entries were in
      sight before, and every merge without a base. */
  lemma AgreedBaseSharpens(src: Source, src': Source, base: Option<Tree>, ours: Tree, theirs: Tree)
    requires WellFounded(src) && WellFounded(src') && Extends(src, src')
    requires base.None? || AgreeBelow(src, src', base)
    ensures Sharpens(ThreeWay(src, base, ours, theirs), ThreeWay(src', base, ours, theirs))
  {
    KeysOnlySharpen(src, src', base, ours, theirs);
    forall path: seq<string> | |path| > 0 ensures At(src, base, path) == At(src', base, path) {
      if base.None? {
        NothingAtNothing(src, path);
        NothingAtNothing(src', path);
      }
    }
  }

  // ---- refinement, whatever the merger can open ------------------------------------------------

  /** The base's leaf as far as the merge gets to see it: nothing below a base
      folder that it goes into on both sides and cannot open. */
  function SeenLeaf(src: Source, full: Source, base: Option<Tree>, ours: Tree, theirs: Tree, path: seq<string>)
    : Option<TreeEntry>
    requires |path| > 0
    decreases |path|
  {
    var b, o, t := LookupOpt(base, path[0]), Lookup(ours, path[0]), Lookup(theirs, path[0]);
    if |path| > 1 && Diverges(b, o, t) && BothOpen(src, o, t) then
      SeenLeaf(src, full, Load(src, b), Load(src, o).value, Load(src, t).value, path[1..])
    else
      LeafAt(full, base, path)
  }

  lemma {:induction false} SeenLeafIs(
    src: Source, full: Source, base: Option<Tree>, ours: Tree, theirs: Tree, path: seq<string>)
    requires Extends(src, full) && |path| > 0
    ensures SeenLeaf(src, full, base, ours, theirs, path) in {LeafAt(full, base, path), None}
    decreases |path|
  {
    var b, o, t := LookupOpt(base, path[0]), Lookup(ours, path[0]), Lookup(theirs, path[0]);
    if |path| > 1 && Diverges(b, o, t) && BothOpen(src, o, t) {
      SeenLeafIs(src, full, Load(src, b), Load(src, o).value, Load(src, t).value, path[1..]);
      NothingAtNothing(full, path[1..]);
    }
  }

  lemma SettledBy(b: Option<TreeEntry>, o: Option<TreeEntry>, t: Option<TreeEntry>)
    ensures SameOpt(o, b) ==> Naive(b, o, t).Pick? && SameOpt(t, Naive(b, o, t).entry)
    ensures SameOpt(t, b) ==> Naive(b, o, t).Pick? && SameOpt(o, Naive(b, o, t).entry)
  {
  }

  /** For a merger who opens any part of the trees: at every path not under a
      conflict the merge holds, up to `Same`, exactly what the naive rule picks for
      the leaves there, the base's as far as it is seen. The merge compares whole
      subtrees by hash, opens only what both sides changed, and works around what
      it cannot open. */
  lemma {:induction false} MergeRefinesSeen(
    src: Source, full: Source, family: iset<TreeEntry>, base: Option<Tree>, ours: Tree, theirs: Tree, path: seq<string>)
    requires WellFounded(src) && Extends(src, full) && Coherent(full, family)
    requires EntriesIn(base, family) && EntriesIn(Some(ours), family) && EntriesIn(Some(theirs), family)
    requires |path| > 0 && !UnderConflict(ThreeWay(src, base, ours, theirs), path)
    ensures var seen := SeenLeaf(src, full, base, ours, theirs, path);
            var verdict := Naive(seen, LeafAt(full, Some(ours), path), LeafAt(full, Some(theirs), path));
            && verdict.Pick?
            && SameOpt(MergedLeafAt(full, ThreeWay(src, base, ours, theirs), path), verdict.entry)
    decreases |path|
  {
    var name := path[0];
    var b, o, t := LookupOpt(base, name), Lookup(ours, name), Lookup(theirs, name);
    ThreeWayAt(src, base, ours, theirs, name);
    if |path| > 1 {
      NothingAtNothing(full, path[1..]);
    }
    if SameOpt(o, t) {
      SameBelow(full, family, o, t);
      SameOptIsReflexive(LeafAt(full, Some(ours), path));
    } else if SameOpt(o, b) {
      SameBelow(full, family, o, b);
      SettledBy(LeafAt(full, base, path), LeafAt(full, Some(ours), path), LeafAt(full, Some(theirs), path));
    } else if SameOpt(t, b) {
      SameBelow(full, family, t, b);
      SettledBy(LeafAt(full, base, path), LeafAt(full, Some(ours), path), LeafAt(full, Some(theirs), path));
    } else if BothOpen(src, o, t) {
      if |path| > 1 {
        MergeRefinesSeen(src, full, family, Load(src, b), Load(src, o).value, Load(src, t).value, path[1..]);
      }
    }
  }

  lemma {:induction false} AtIsIn(full: Source, family: iset<TreeEntry>, t: Option<Tree>, path: seq<string>)
    requires Coherent(full, family) && EntriesIn(t, family) && |path| > 0
    ensures In(At(full, t, path), family)
    decreases |path|
  {
    if |path| > 1 {
      AtIsIn(full, family, Load(full, LookupOpt(t, path[0])), path[1..]);
    }
  }

  /** A merge makes up no leaves. */
  lemma {:induction false} MergedLeafIsIn(
    src: Source, full: Source, family: iset<TreeEntry>, base: Option<Tree>, ours: Tree, theirs: Tree, path: seq<string>)
    requires WellFounded(src) && Extends(src, full) && Coherent(full, family)
    requires EntriesIn(base, family) && EntriesIn(Some(ours), family) && EntriesIn(Some(theirs), family)
    requires |path| > 0
    ensures In(MergedLeafAt(full, ThreeWay(src, base, ours, theirs), path), family)
    decreases |path|
  {
    var name := path[0];
    var b, o, t := LookupOpt(base, name), Lookup(ours, name), Lookup(theirs, name);
    ThreeWayAt(src, base, ours, theirs, name);
    AtIsIn(full, family, Some(ours), path);
    AtIsIn(full, family, Some(theirs), path);
    if |path| > 1 && Diverges(b, o, t) && BothOpen(src, o, t) {
      MergedLeafIsIn(src, full, family, Load(src, b), Load(src, o).value, Load(src, t).value, path[1..]);
    }
  }

  /** Two bases, one of them perhaps unseen, settle two leaves alike exactly if they
      are the same or the leaves agree. */
  lemma UnseenBaseSettles(
    seen: Option<TreeEntry>, b: Option<TreeEntry>, o: Option<TreeEntry>, t: Option<TreeEntry>, m: Option<TreeEntry>)
    requires seen == b || seen == None
    requires Naive(seen, o, t).Pick? && SameOpt(m, Naive(seen, o, t).entry)
    ensures Naive(b, o, t).Pick? && SameOpt(m, Naive(b, o, t).entry) <==> SameOpt(seen, b) || SameOpt(o, t)
  {
  }

  /** So the merge refines the naive rule itself at a path exactly if the base's
      leaf there is in the merge's sight, or the two sides agree on theirs. */
  lemma MergeRefinesNaive(
    src: Source, full: Source, family: iset<TreeEntry>, base: Option<Tree>, ours: Tree, theirs: Tree, path: seq<string>)
    requires WellFounded(src) && Extends(src, full) && Coherent(full, family)
    requires EntriesIn(base, family) && EntriesIn(Some(ours), family) && EntriesIn(Some(theirs), family)
    requires |path| > 0 && !UnderConflict(ThreeWay(src, base, ours, theirs), path)
    ensures var b, o, t := LeafAt(full, base, path), LeafAt(full, Some(ours), path), LeafAt(full, Some(theirs), path);
            && Naive(b, o, t).Pick?
            && SameOpt(MergedLeafAt(full, ThreeWay(src, base, ours, theirs), path), Naive(b, o, t).entry)
            <==> SameOpt(SeenLeaf(src, full, base, ours, theirs, path), b) || SameOpt(o, t)
  {
    MergeRefinesSeen(src, full, family, base, ours, theirs, path);
    SeenLeafIs(src, full, base, ours, theirs, path);
    UnseenBaseSettles(SeenLeaf(src, full, base, ours, theirs, path), LeafAt(full, base, path),
                      LeafAt(full, Some(ours), path), LeafAt(full, Some(theirs), path),
                      MergedLeafAt(full, ThreeWay(src, base, ours, theirs), path));
  }

  // ---- every real store can be merged over ------------------------------------------------------

  /** What a content-addressed store opens at an address is what the address
      hashes: a wrong or missing key opens nothing, never something else. */
  ghost predicate ContentAddressed(src: Source) {
    forall c: CipherId :: src(c).Some? ==> c.envelope.contentCt.text == TreeText(src(c).value)
  }

  ghost function MaxOf(s: set<nat>): (m: nat)
    ensures forall x :: x in s ==> x <= m
  {
    if s == {} then 0
    else
      var x :| x in s;
      var m := MaxOf(s - {x});
      assert forall y :: y in s ==> y == x || y in s - {x};
      if x < m then m else x
  }

  ghost function Depth(src: Source, t: Tree): (d: nat)
    requires ContentAddressed(src)
    ensures forall name :: name in t.entries && src(t.entries[name].cipher).Some?
              ==> Depth(src, src(t.entries[name].cipher).value) < d
    decreases t
  {
    var depths := set name | name in t.entries && src(t.entries[name].cipher).Some?
                    :: Depth(src, src(t.entries[name].cipher).value);
    assert forall name :: name in t.entries && src(t.entries[name].cipher).Some?
             ==> Depth(src, src(t.entries[name].cipher).value) in depths;
    1 + MaxOf(depths)
  }

  /** The merge terminates over every content-addressed source, whatever keys it
      holds: an address cannot contain itself. */
  lemma ContentAddressedIsWellFounded(src: Source)
    requires ContentAddressed(src)
    ensures WellFounded(src)
  {
    var rank: Tree -> nat := t => Depth(src, t);
    forall t: Tree, name: string ensures FallsAt(src, rank, t, name) {
      assert rank(t) == Depth(src, t);
    }
    assert Ranked(src, rank);
  }

  // ---- why the base must agree ----------------------------------------------------------------

  /** A folder that both sides changed and both sources open, holding a file that
      theirs deleted and ours left alone; only `src'` opens the base's folder. */
  ghost predicate DeletedUnseen(
    src: Source, src': Source, base: Tree, ours: Tree, theirs: Tree, folder: string, file: string)
  {
    && folder in base.entries && folder in ours.entries && folder in theirs.entries
    && var b, o, t := Lookup(base, folder), Lookup(ours, folder), Lookup(theirs, folder);
       && Diverges(b, o, t) && BothOpen(src, o, t) && Load(src, o) == Load(src', o) && Load(src, t) == Load(src', t)
       && Load(src, b).None? && Load(src', b).Some?
       && Lookup(Load(src, o).value, file).Some? && Lookup(Load(src, t).value, file).None?
       && SameOpt(Lookup(Load(src, o).value, file), Lookup(Load(src', b).value, file))
  }

  /** A base that cannot be opened is merged as no base, so a file that one side
      deleted comes back; with the key of the base folder the same merge drops it. */
  lemma DeletionComesBack(
    src: Source, src': Source, base: Tree, ours: Tree, theirs: Tree, folder: string, file: string)
    requires WellFounded(src) && WellFounded(src') && DeletedUnseen(src, src', base, ours, theirs, folder, file)
    ensures var m, m' := ThreeWay(src, Some(base), ours, theirs), ThreeWay(src', Some(base), ours, theirs);
            var kept := Lookup(Load(src, Lookup(ours, folder)).value, file).value;
            && folder in m.entries && m.entries[folder].Subtree? && file in m.entries[folder].tree.entries
            && m.entries[folder].tree.entries[file] == Take(kept)
            && folder in m'.entries && m'.entries[folder].Subtree? && file !in m'.entries[folder].tree.entries
            && !Sharpens(m, m')
  {
    var b, o, t := Lookup(base, folder), Lookup(ours, folder), Lookup(theirs, folder);
    var bt, ot, tt := Load(src', b), Load(src, o).value, Load(src, t).value;
    ThreeWayAt(src, Some(base), ours, theirs, folder);
    ThreeWayAt(src', Some(base), ours, theirs, folder);
    ThreeWayAt(src, None, ot, tt, file);
    ThreeWayAt(src', bt, ot, tt, file);
    assert file in ThreeWay(src, None, ot, tt).entries && file !in ThreeWay(src', bt, ot, tt).entries;
    var m, m' := ThreeWay(src, Some(base), ours, theirs), ThreeWay(src', Some(base), ours, theirs);
    assert MergedLookup(m, folder) == Some(Subtree(ThreeWay(src, None, ot, tt)));
    assert MergedLookup(m', folder) == Some(Subtree(ThreeWay(src', bt, ot, tt)));
    assert folder in m.entries && !SharpensEntry(m.entries[folder], m'.entries[folder]);
  }
}
