/** Merging two trees over a third when only some of their folders can be opened
    (crates/cc-dag/src/merge.rs). */
module Merge {
  import opened Terms
  import Paths

  /** A partial loader of trees: what is sealed and what is missing look the same. */
  type Source = CipherId -> Option<Tree>

  datatype MergedEntry =
    | Take(entry: TreeEntry)
    | Subtree(tree: MergedTree)
    | Conflict(base: Option<TreeEntry>, ours: Option<TreeEntry>, theirs: Option<TreeEntry>, isSealed: bool)

  datatype MergedTree = MergedTree(entries: map<string, MergedEntry>)

  predicate Same(a: TreeEntry, b: TreeEntry) {
    a.plain == b.plain && a.close == b.close
  }

  predicate SameOpt(a: Option<TreeEntry>, b: Option<TreeEntry>) {
    match (a, b)
    case (None, None) => true
    case (Some(x), Some(y)) => Same(x, y)
    case _ => false
  }

  function Lookup(t: Tree, name: string): Option<TreeEntry> {
    if name in t.entries then Some(t.entries[name]) else None
  }

  function LookupOpt(t: Option<Tree>, name: string): Option<TreeEntry> {
    if t.None? then None else Lookup(t.value, name)
  }

  function Load(src: Source, e: Option<TreeEntry>): Option<Tree> {
    if e.None? then None else src(e.value.cipher)
  }

  function TakeOpt(e: Option<TreeEntry>): Option<MergedEntry> {
    if e.None? then None else Some(Take(e.value))
  }

  // ---- termination --------------------------------------------------------------

  ghost predicate FallsAt(src: Source, rank: Tree -> nat, t: Tree, name: string) {
    var sub := Load(src, Lookup(t, name));
    sub.Some? ==> rank(sub.value) < rank(t)
  }

  /** `rank` falls from every tree to each subtree that `src` opens in it. */
  ghost predicate Ranked(src: Source, rank: Tree -> nat) {
    forall t: Tree, name: string :: FallsAt(src, rank, t, name)
  }

  ghost predicate WellFounded(src: Source) {
    exists rank: Tree -> nat :: Ranked(src, rank)
  }

  ghost function RankOf(src: Source): Tree -> nat
    requires WellFounded(src)
    ensures Ranked(src, RankOf(src))
  {
    var rank: Tree -> nat :| Ranked(src, rank);
    rank
  }

  ghost function Height(src: Source, t: Tree): nat
    requires WellFounded(src)
  {
    RankOf(src)(t) + 1
  }

  ghost function HeightBelow(src: Source, e: Option<TreeEntry>): nat
    requires WellFounded(src)
  {
    if Load(src, e).Some? then Height(src, Load(src, e).value) else 0
  }

  lemma HeightFalls(src: Source, t: Tree, name: string)
    requires WellFounded(src)
    ensures HeightBelow(src, Lookup(t, name)) < Height(src, t)
  {
    assert FallsAt(src, RankOf(src), t, name);
  }

  // ---- the merge, as a function -----------------------------------------------------

  ghost function Names(base: Option<Tree>, ours: Tree, theirs: Tree): set<string> {
    (if base.Some? then base.value.entries.Keys else {}) + ours.entries.Keys + theirs.entries.Keys
  }

  ghost function ThreeWay(src: Source, base: Option<Tree>, ours: Tree, theirs: Tree): MergedTree
    requires WellFounded(src)
    decreases Height(src, ours), 1
  {
    MergedTree(map name | name in Names(base, ours, theirs) && Outcome(src, base, ours, theirs, name).Some?
                 :: Outcome(src, base, ours, theirs, name).value)
  }

  ghost function Outcome(src: Source, base: Option<Tree>, ours: Tree, theirs: Tree, name: string)
    : Option<MergedEntry>
    requires WellFounded(src)
    decreases Height(src, ours), 0
  {
    var b, o, t := LookupOpt(base, name), Lookup(ours, name), Lookup(theirs, name);
    if SameOpt(o, t) then TakeOpt(o)
    else if SameOpt(o, b) then TakeOpt(t)
    else if SameOpt(t, b) then TakeOpt(o)
    else
      HeightFalls(src, ours, name);
      Some(Diverged(src, b, o, t))
  }

  /** Two trees of the same close: a drawer both sides changed. */
  predicate BothDrawers(o: Option<TreeEntry>, t: Option<TreeEntry>) {
    o.Some? && t.Some? && o.value.kind == TreeKind && t.value.kind == TreeKind && o.value.close == t.value.close
  }

  predicate BothOpen(src: Source, o: Option<TreeEntry>, t: Option<TreeEntry>) {
    BothDrawers(o, t) && Load(src, o).Some? && Load(src, t).Some?
  }

  ghost function Diverged(src: Source, base: Option<TreeEntry>, ours: Option<TreeEntry>, theirs: Option<TreeEntry>)
    : MergedEntry
    requires WellFounded(src)
    decreases HeightBelow(src, ours), 2
  {
    if BothOpen(src, ours, theirs) then
      Subtree(ThreeWay(src, Load(src, base), Load(src, ours).value, Load(src, theirs).value))
    else
      Conflict(base, ours, theirs, BothDrawers(ours, theirs))
  }

  /** The merge restricted to some names. */
  ghost function Collected(src: Source, base: Option<Tree>, ours: Tree, theirs: Tree, names: set<string>)
    : map<string, MergedEntry>
    requires WellFounded(src)
  {
    map name | name in names && Outcome(src, base, ours, theirs, name).Some?
      :: Outcome(src, base, ours, theirs, name).value
  }

  lemma CollectedStep(
    src: Source, base: Option<Tree>, ours: Tree, theirs: Tree, all: set<string>, names: set<string>, name: string)
    requires WellFounded(src)
    requires name in names && names <= all
    ensures Collected(src, base, ours, theirs, all - (names - {name})) ==
            var sofar := Collected(src, base, ours, theirs, all - names);
            var outcome := Outcome(src, base, ours, theirs, name);
            if outcome.Some? then sofar[name := outcome.value] else sofar
  {
    assert all - (names - {name}) == (all - names) + {name};
  }

  /** Nothing is collected from no names, and from all of them the merge. */
  lemma CollectedEnds(src: Source, base: Option<Tree>, ours: Tree, theirs: Tree, all: set<string>)
    requires WellFounded(src) && all == Names(base, ours, theirs)
    ensures Collected(src, base, ours, theirs, all - all) == map[]
    ensures ThreeWay(src, base, ours, theirs) == MergedTree(Collected(src, base, ours, theirs, all - {}))
  {
    assert all - {} == all;
  }

  // ---- the merge, as the loop of the source ---------------------------------------------

  method CollectNames(base: Option<Tree>, ours: Tree, theirs: Tree) returns (names: set<string>)
    ensures names == Names(base, ours, theirs)
  {
    names := {};
    if base.Some? {
      names := names + base.value.entries.Keys;
    }
    names := names + ours.entries.Keys;
    names := names + theirs.entries.Keys;
  }

  /** Terminates for every source on which some rank falls from tree to subtree. */
  method MergeTrees(src: Source, base: Option<Tree>, ours: Tree, theirs: Tree) returns (merged: MergedTree)
    requires WellFounded(src)
    ensures merged == ThreeWay(src, base, ours, theirs)
    decreases Height(src, ours), 1
  {
    var names := CollectNames(base, ours, theirs);
    ghost var all := names;
    var entries: map<string, MergedEntry> := map[];
    CollectedEnds(src, base, ours, theirs, all);
    while names != {}
      invariant names <= all
      invariant entries == Collected(src, base, ours, theirs, all - names)
      decreases |names|
    {
      var name :| name in names;
      var outcome := MergeName(src, base, ours, theirs, name);
      if outcome.Some? {
        entries := entries[name := outcome.value];
      }
      CollectedStep(src, base, ours, theirs, all, names, name);
      names := names - {name};
    }
    merged := MergedTree(entries);
  }

  method MergeName(src: Source, base: Option<Tree>, ours: Tree, theirs: Tree, name: string)
    returns (outcome: Option<MergedEntry>)
    requires WellFounded(src)
    ensures outcome == Outcome(src, base, ours, theirs, name)
    decreases Height(src, ours), 0
  {
    var b, o, t := LookupOpt(base, name), Lookup(ours, name), Lookup(theirs, name);
    if SameOpt(o, t) {
      // The same on both sides, or gone from both.
      outcome := TakeOpt(o);
    } else if SameOpt(o, b) {
      // Ours is the base: theirs stands.
      outcome := TakeOpt(t);
    } else if SameOpt(t, b) {
      // Theirs is the base: ours stands.
      outcome := TakeOpt(o);
    } else {
      HeightFalls(src, ours, name);
      var entry := MergeDiverged(src, b, o, t);
      outcome := Some(entry);
    }
  }

  method MergeDiverged(
    src: Source, base: Option<TreeEntry>, ours: Option<TreeEntry>, theirs: Option<TreeEntry>)
    returns (entry: MergedEntry)
    requires WellFounded(src)
    ensures entry == Diverged(src, base, ours, theirs)
    decreases HeightBelow(src, ours), 2
  {
    if ours.Some? && theirs.Some? {
      var o, t := ours.value, theirs.value;
      if o.kind == TreeKind && t.kind == TreeKind && o.close == t.close {
        var ot, tt := src(o.cipher), src(t.cipher);
        if ot.Some? && tt.Some? {
          var bt := Load(src, base);
          var tree := MergeTrees(src, bt, ot.value, tt.value);
          return Subtree(tree);
        }
        return Conflict(base, ours, theirs, true);
      }
    }
    return Conflict(base, ours, theirs, false);
  }

  // ---- reporting conflicts -----------------------------------------------------------------

  /** The conflict reported at exactly this path of names, if any. */
  ghost function ConflictAt(m: MergedTree, path: seq<string>): (entry: Option<MergedEntry>)
    requires |path| > 0
    ensures entry.Some? ==> entry.value.Conflict?
    decreases |path|
  {
    if path[0] !in m.entries then None
    else match m.entries[path[0]]
      case Take(_) => None
      case Subtree(t) => if |path| == 1 then None else ConflictAt(t, path[1..])
      case Conflict(_, _, _, _) => if |path| == 1 then Some(m.entries[path[0]]) else None
  }

  function Extend(prefix: string, name: string): string {
    if prefix == "" then name else prefix + "/" + name
  }

  function Joined(prefix: string, path: seq<string>): string
    decreases |path|
  {
    if path == [] then prefix else Joined(Extend(prefix, path[0]), path[1..])
  }

  // ---- the order of names and paths ----

  /** The order in which names are kept: by character, the shorter first. */
  predicate Less(a: string, b: string) {
    if b == "" then false
    else if a == "" then true
    else a[0] < b[0] || (a[0] == b[0] && Less(a[1..], b[1..]))
  }

  lemma {:induction false} LessIsTotal(a: string, b: string)
    ensures Less(a, b) || a == b || Less(b, a)
    ensures !(Less(a, b) && Less(b, a)) && !Less(a, a)
  {
    if a != "" {
      LessIsTotal(a[1..], a[1..]);
      if b != "" {
        LessIsTotal(a[1..], b[1..]);
        assert a == [a[0]] + a[1..] && b == [b[0]] + b[1..];
      }
    }
  }

  lemma {:induction false} LessIsTransitive(a: string, b: string, c: string)
    requires Less(a, b) && Less(b, c)
    ensures Less(a, c)
  {
    if a != "" && a[0] == b[0] && b[0] == c[0] {
      LessIsTransitive(a[1..], b[1..], c[1..]);
    }
  }

  ghost predicate IsLeast(name: string, names: set<string>) {
    name in names && forall other :: other in names && other != name ==> Less(name, other)
  }

  lemma {:induction false} HasLeast(names: set<string>) returns (least: string)
    requires names != {}
    ensures IsLeast(least, names)
  {
    var name :| name in names;
    var rest := names - {name};
    least := name;
    if rest == {} {
      assert names == {name};
    } else {
      var other := HasLeast(rest);
      LessIsTotal(name, other);
      if Less(other, name) {
        least := other;
      } else {
        forall x | x in names && x != name ensures Less(name, x) {
          if x != other {
            LessIsTransitive(name, other, x);
          }
        }
      }
    }
  }

  ghost predicate AllLess(earlier: set<string>, later: set<string>) {
    forall a, b :: a in earlier && b in later ==> Less(a, b)
  }

  lemma LeastGoesNext(seen: set<string>, names: set<string>, name: string)
    requires AllLess(seen, names) && IsLeast(name, names)
    ensures AllLess(seen, {name}) && AllLess(seen + {name}, names - {name})
  {
  }

  /** Names are compared from the first; only paths that part at some name compare. */
  predicate PathLess(p: seq<string>, q: seq<string>) {
    p != [] && q != [] && if p[0] == q[0] then PathLess(p[1..], q[1..]) else Less(p[0], q[0])
  }

  ghost predicate Ascending(paths: seq<seq<string>>) {
    forall i, j :: 0 <= i < j < |paths| ==> PathLess(paths[i], paths[j])
  }

  lemma {:induction false} PathLessIsStrict(p: seq<string>)
    ensures !PathLess(p, p)
  {
    if p != [] {
      PathLessIsStrict(p[1..]);
    }
  }

  /** So ascending paths are all different. */
  lemma AscendingIsDistinct(paths: seq<seq<string>>, i: nat, j: nat)
    requires Ascending(paths) && i < j < |paths|
    ensures paths[i] != paths[j]
  {
    PathLessIsStrict(paths[i]);
  }

  // ---- reporting conflicts, in order ----

  function LineOf(m: MergedTree, prefix: string, path: seq<string>): (string, bool)
    requires |path| > 0
  {
    (Joined(prefix, path), SealedAt(m, path))
  }

  /** Whether the conflict at a path is sealed. */
  predicate SealedAt(m: MergedTree, path: seq<string>)
    requires |path| > 0
    decreases |path|
  {
    path[0] in m.entries &&
    match m.entries[path[0]]
    case Take(_) => false
    case Subtree(t) => |path| > 1 && SealedAt(t, path[1..])
    case Conflict(_, _, _, isSealed) => |path| == 1 && isSealed
  }

  lemma {:induction false} SealedAtIs(m: MergedTree, path: seq<string>)
    requires |path| > 0
    ensures SealedAt(m, path) <==> ConflictAt(m, path).Some? && ConflictAt(m, path).value.isSealed
    decreases |path|
  {
    if path[0] in m.entries && m.entries[path[0]].Subtree? && |path| > 1 {
      SealedAtIs(m.entries[path[0]].tree, path[1..]);
    }
  }

  /** The lines report, in order and each once, the conflicts at `paths`. */
  ghost predicate Lists(m: MergedTree, prefix: string, lines: seq<(string, bool)>, paths: seq<seq<string>>) {
    && |lines| == |paths|
    && Ascending(paths)
    && (forall p :: p in paths ==> |p| > 0 && ConflictAt(m, p).Some?)
    && forall i :: 0 <= i < |paths| ==> lines[i] == LineOf(m, prefix, paths[i])
  }

  /** ... and these are all that start with one of the names. */
  ghost predicate Reports(
    m: MergedTree, names: set<string>, prefix: string, lines: seq<(string, bool)>, paths: seq<seq<string>>)
  {
    && Lists(m, prefix, lines, paths)
    && forall p: seq<string> :: p in paths <==> |p| > 0 && p[0] in names && ConflictAt(m, p).Some?
  }

  ghost function Under(name: string, paths: seq<seq<string>>): seq<seq<string>> {
    seq(|paths|, i requires 0 <= i < |paths| => [name] + paths[i])
  }

  lemma UnderHas(name: string, paths: seq<seq<string>>, p: seq<string>)
    ensures p in Under(name, paths) <==> |p| > 0 && p[0] == name && p[1..] in paths
  {
    if p in Under(name, paths) {
      var i :| 0 <= i < |paths| && Under(name, paths)[i] == p;
      assert p[1..] == paths[i];
    }
    if |p| > 0 && p[0] == name && p[1..] in paths {
      var i :| 0 <= i < |paths| && paths[i] == p[1..];
      assert Under(name, paths)[i] == [name] + p[1..] == p;
    }
  }

  lemma SubtreeReports(
    m: MergedTree, name: string, prefix: string, lines: seq<(string, bool)>, paths: seq<seq<string>>)
    requires name in m.entries && m.entries[name].Subtree?
    requires var t := m.entries[name].tree; Reports(t, t.entries.Keys, Extend(prefix, name), lines, paths)
    ensures Reports(m, {name}, prefix, lines, Under(name, paths))
  {
    var t, under := m.entries[name].tree, Under(name, paths);
    forall i, j | 0 <= i < j < |under| ensures PathLess(under[i], under[j]) {
      assert under[i][1..] == paths[i] && under[j][1..] == paths[j];
      assert PathLess(paths[i], paths[j]);
    }
    forall i | 0 <= i < |under| ensures lines[i] == LineOf(m, prefix, under[i]) {
      assert under[i][1..] == paths[i] && paths[i] in paths;
    }
    forall p: seq<string>
      ensures p in under <==> |p| > 0 && p[0] in {name} && ConflictAt(m, p).Some?
    {
      UnderHas(name, paths, p);
      if |p| > 1 && p[0] == name {
        assert p[1..] in paths <==> p[1] in t.entries.Keys && ConflictAt(t, p[1..]).Some?;
      }
    }
  }

  lemma TakeReports(m: MergedTree, name: string, prefix: string)
    requires name in m.entries && m.entries[name].Take?
    ensures Reports(m, {name}, prefix, [], [])
  {
  }

  lemma ConflictReports(m: MergedTree, name: string, prefix: string)
    requires name in m.entries && m.entries[name].Conflict?
    ensures Reports(m, {name}, prefix, [(Extend(prefix, name), m.entries[name].isSealed)], [[name]])
  {
    assert [name][1..] == [] && Joined(prefix, [name]) == Joined(Extend(prefix, name), []);
    forall p: seq<string>
      ensures p in [[name]] <==> |p| > 0 && p[0] in {name} && ConflictAt(m, p).Some?
    {
      if |p| == 1 && p[0] == name {
        assert p == [name];
      }
    }
  }

  lemma AscendingAppend(paths: seq<seq<string>>, further: seq<seq<string>>)
    requires Ascending(paths) && Ascending(further)
    requires forall p, q :: p in paths && q in further ==> PathLess(p, q)
    ensures Ascending(paths + further)
  {
    var all := paths + further;
    forall i, j | 0 <= i < j < |all| ensures PathLess(all[i], all[j]) {
      if j < |paths| {
        assert PathLess(paths[i], paths[j]);
      } else if i >= |paths| {
        assert PathLess(further[i - |paths|], further[j - |paths|]);
      } else {
        assert paths[i] in paths && further[j - |paths|] in further;
      }
    }
  }

  lemma ListsAppend(
    m: MergedTree, prefix: string, lines: seq<(string, bool)>, paths: seq<seq<string>>, more: seq<(string, bool)>,
    further: seq<seq<string>>)
    requires Lists(m, prefix, lines, paths) && Lists(m, prefix, more, further) && Ascending(paths + further)
    ensures Lists(m, prefix, lines + more, paths + further)
  {
    var all := paths + further;
    forall i | 0 <= i < |all| ensures (lines + more)[i] == LineOf(m, prefix, all[i]) {
      if i < |paths| {
        assert all[i] == paths[i] && (lines + more)[i] == lines[i];
      } else {
        assert all[i] == further[i - |paths|] && (lines + more)[i] == more[i - |paths|];
      }
    }
  }

  /** Reports for later names go behind. */
  lemma ReportsAppend(
    m: MergedTree, seen: set<string>, name: string, prefix: string, lines: seq<(string, bool)>,
    paths: seq<seq<string>>, more: seq<(string, bool)>, further: seq<seq<string>>)
    requires Reports(m, seen, prefix, lines, paths) && Reports(m, {name}, prefix, more, further)
    requires name !in seen && AllLess(seen, {name})
    ensures Reports(m, seen + {name}, prefix, lines + more, paths + further)
  {
    forall p, q | p in paths && q in further ensures PathLess(p, q) {
      assert p[0] in seen && q[0] == name;
    }
    AscendingAppend(paths, further);
    ListsAppend(m, prefix, lines, paths, more, further);
    forall p: seq<string>
      ensures p in paths + further <==> |p| > 0 && p[0] in seen + {name} && ConflictAt(m, p).Some?
    {
    }
  }

  lemma DropSplits<T>(was: seq<T>, out: seq<T>, before: nat)
    requires before <= |was| && was <= out
    ensures out[before..] == was[before..] + out[|was|..]
  {
  }

  lemma WalkStep(
    m: MergedTree, seen: set<string>, name: string, prefix: string, before: nat, was: seq<(string, bool)>,
    out: seq<(string, bool)>, paths: seq<seq<string>>, further: seq<seq<string>>)
    requires before <= |was| && was <= out
    requires Reports(m, seen, prefix, was[before..], paths) && Reports(m, {name}, prefix, out[|was|..], further)
    requires name !in seen && AllLess(seen, {name})
    ensures Reports(m, seen + {name}, prefix, out[before..], paths + further)
  {
    DropSplits(was, out, before);
    ReportsAppend(m, seen, name, prefix, was[before..], paths, out[|was|..], further);
  }

  /** Pushes every conflict below `m`, by name, with whether it is sealed. */
  method Walk(m: MergedTree, prefix: string, before: seq<(string, bool)>)
    returns (out: seq<(string, bool)>, ghost paths: seq<seq<string>>)
    ensures before <= out && Reports(m, m.entries.Keys, prefix, out[|before|..], paths)
    decreases m, 1
  {
    out, paths := before, [];
    var names := m.entries.Keys;
    ghost var seen: set<string> := {};
    while names != {}
      invariant names + seen == m.entries.Keys && names !! seen && AllLess(seen, names)
      invariant before <= out && Reports(m, seen, prefix, out[|before|..], paths)
      decreases |names|
    {
      ghost var least := HasLeast(names);
      var name :| name in names && forall other :: other in names && other != name ==> Less(name, other);
      LeastGoesNext(seen, names, name);
      ghost var was, further := out, [];
      out, further := WalkEntry(m, name, prefix, out);
      WalkStep(m, seen, name, prefix, |before|, was, out, paths, further);
      names, seen, paths := names - {name}, seen + {name}, paths + further;
    }
    assert seen == m.entries.Keys;
  }

  method WalkEntry(m: MergedTree, name: string, prefix: string, before: seq<(string, bool)>)
    returns (out: seq<(string, bool)>, ghost paths: seq<seq<string>>)
    requires name in m.entries
    ensures before <= out && Reports(m, {name}, prefix, out[|before|..], paths)
    decreases m, 0
  {
    var path := Extend(prefix, name);
    match m.entries[name] {
      case Take(_) =>
        out, paths := before, [];
        TakeReports(m, name, prefix);
      case Subtree(t) =>
        ghost var below;
        out, below := Walk(t, path, before);
        paths := Under(name, below);
        SubtreeReports(m, name, prefix, out[|before|..], below);
      case Conflict(_, _, _, isSealed) =>
        out, paths := before + [(path, isSealed)], [[name]];
        ConflictReports(m, name, prefix);
    }
  }

  predicate AllNamed(path: seq<string>) {
    forall name :: name in path ==> name != ""
  }

  /** Entering names one by one spells the path joined with slashes, as long as no
      name is empty. */
  lemma {:induction false} JoinedIs(prefix: string, path: seq<string>)
    requires AllNamed(path)
    ensures Joined("", path) == Paths.Join(path)
    ensures prefix != "" ==> Joined(prefix, path) == if path == [] then prefix else prefix + "/" + Paths.Join(path)
    decreases |path|
  {
    if path != [] {
      assert path[0] in path && forall name :: name in path[1..] ==> name in path;
      JoinedIs(path[0], path[1..]);
      if prefix != "" {
        JoinedIs(prefix + "/" + path[0], path[1..]);
      }
    }
  }

  /** A line tells the path, joined with slashes, and whether it is sealed. */
  ghost predicate Tells(m: MergedTree, line: (string, bool), path: seq<string>) {
    && |path| > 0 && ConflictAt(m, path).Some? && line.1 == ConflictAt(m, path).value.isSealed
    && (AllNamed(path) ==> line.0 == Paths.Join(path))
  }

  lemma LineTells(m: MergedTree, path: seq<string>)
    requires |path| > 0 && ConflictAt(m, path).Some?
    ensures Tells(m, LineOf(m, "", path), path)
  {
    SealedAtIs(m, path);
    if AllNamed(path) {
      JoinedIs("", path);
    }
  }

  /** The lines tell of the conflicts at exactly the paths that hold one. */
  ghost predicate ReportsAll(m: MergedTree, lines: seq<(string, bool)>) {
    exists paths :: TellsAll(m, lines, paths) && Ascending(paths) && Distinct(paths) && HoldConflicts(m, paths)
  }

  ghost predicate TellsAll(m: MergedTree, lines: seq<(string, bool)>, paths: seq<seq<string>>) {
    |lines| == |paths| && forall i :: 0 <= i < |lines| ==> Tells(m, lines[i], paths[i])
  }

  ghost predicate Distinct(paths: seq<seq<string>>) {
    forall i, j :: 0 <= i < j < |paths| ==> paths[i] != paths[j]
  }

  ghost predicate HoldConflicts(m: MergedTree, paths: seq<seq<string>>) {
    forall p: seq<string> :: p in paths <==> |p| > 0 && ConflictAt(m, p).Some?
  }

  /** Every conflict at any depth, each once, in the order of their paths. */
  method Conflicts(m: MergedTree) returns (out: seq<(string, bool)>)
    ensures ReportsAll(m, out)
  {
    ghost var paths;
    out, paths := Walk(m, "", []);
    assert out[0..] == out;
    assert Lists(m, "", out, paths) && HoldConflicts(m, paths);
    forall i, j | 0 <= i < j < |paths| ensures paths[i] != paths[j] {
      AscendingIsDistinct(paths, i, j);
    }
    forall i | 0 <= i < |out| ensures Tells(m, out[i], paths[i]) {
      assert paths[i] in paths;
      LineTells(m, paths[i]);
    }
    assert TellsAll(m, out, paths) && Distinct(paths);
  }

  /** A merge is clean exactly when no path at all holds a conflict. */
  method IsClean(m: MergedTree) returns (clean: bool)
    ensures clean <==> forall path: seq<string> :: |path| > 0 ==> ConflictAt(m, path).None?
  {
    var out := Conflicts(m);
    ghost var paths :| TellsAll(m, out, paths) && HoldConflicts(m, paths);
    clean := out == [];
    assert out != [] ==> paths[0] in paths;
  }
}
