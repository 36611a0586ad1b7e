/** How far a close reaches (`governing` of crates/close/src/repo.rs): a path is
    governed from the nearest protected path above it, name by name. */
module Boundaries {
  import opened Terms
  import opened Paths
  import opened Commons
  import opened Upkeep
  import opened Runs
  import opened Freezing

  // ---- prefixes of strings and of paths -----------------------------------------------------

  lemma FirstAndRest<T>(p: seq<T>, more: seq<T>)
    requires p != []
    ensures [p[0]] + (p[1..] + more) == p + more
  {
  }

  lemma JoinOne(p: seq<string>, rest: string)
    requires |p| > 1
    ensures Join(p) + "/" + rest == p[0] + "/" + (Join(p[1..]) + "/" + rest)
  {
  }

  lemma {:induction false} SplitBelow(p: seq<string>, rest: string)
    requires Clean(p) && p != []
    ensures Split(Join(p) + "/" + rest) == p + Split(rest)
  {
    assert GoodSegment(p[0]);
    FirstAndRest(p, Split(rest));
    if |p| == 1 {
      SplitOfPiece(p[0], rest);
    } else {
      SplitBelow(p[1..], rest);
      SplitOfPiece(p[0], Join(p[1..]) + "/" + rest);
      JoinOne(p, rest);
    }
  }

  lemma {:induction false} JoinBelow(p: seq<string>, q: seq<string>)
    requires p != [] && p <= q && p != q
    ensures Join(q) == Join(p) + "/" + Join(q[|p|..])
  {
    if |p| == 1 {
      assert q[1..] == q[|p|..];
    } else {
      JoinBelow(p[1..], q[1..]);
      assert q[1..][|p[1..]|..] == q[|p|..];
    }
  }

  lemma JoinIsInjective(p: seq<string>, q: seq<string>)
    requires Clean(p) && Clean(q) && Join(p) == Join(q)
    ensures p == q
  {
    JoinIsEmpty(p);
    JoinIsEmpty(q);
    if p != [] && q != [] {
      SplitOfJoin(p);
      SplitOfJoin(q);
    }
  }

  /** A mapped path is above another, as strings are compared, exactly if its names
      are the first names of the other: `vault` is above `vault/plan`, not above
      `vault2`. */
  lemma MatchesIff(p: seq<string>, q: seq<string>)
    requires Clean(p) && Clean(q)
    ensures Matches(Join(p), Join(q)) <==> p <= q
  {
    JoinIsEmpty(p);
    JoinIsEmpty(q);
    if p <= q {
      if p != [] && p != q {
        JoinBelow(p, q);
      }
    }
    if Matches(Join(p), Join(q)) && p != [] {
      if Join(q) == Join(p) {
        JoinIsInjective(p, q);
      } else {
        var rest := Join(q)[|Join(p)| + 1..];
        assert Join(q) == Join(p) + "/" + rest;
        SplitBelow(p, rest);
        SplitOfJoin(q);
      }
    }
  }

  /** Above one path, more names are more characters. */
  lemma LongerIsLonger(p: seq<string>, p': seq<string>)
    requires Clean(p) && Clean(p') && p <= p'
    ensures |Join(p)| <= |Join(p')| && (|Join(p)| == |Join(p')| <==> p == p')
  {
    JoinIsEmpty(p');
    if p != [] && p != p' {
      JoinBelow(p, p');
    }
  }

  // ---- the nearest mapping governs ------------------------------------------------------------

  /** The path a mapping was made for. */
  function PathOf(m: Mapping): seq<string> {
    if m.prefix == "" then [] else Split(m.prefix)
  }

  /** Every mapping is of a clean path. */
  ghost predicate ClearMap(closemap: seq<Mapping>) {
    forall m :: m in closemap ==> Clean(PathOf(m))
  }

  lemma PrefixIsPath(m: Mapping)
    ensures Join(PathOf(m)) == m.prefix
  {
    JoinOfSplit(m.prefix);
  }

  /** The mapping is above the path with the most names, the last made among equals. */
  ghost predicate Nearest(closemap: seq<Mapping>, path: seq<string>, i: nat) {
    && i < |closemap| && PathOf(closemap[i]) <= path
    && forall j :: 0 <= j < |closemap| && PathOf(closemap[j]) <= path ==> NoNearer(closemap, i, j)
  }

  ghost predicate NoNearer(closemap: seq<Mapping>, i: nat, j: nat)
    requires i < |closemap| && j < |closemap|
  {
    var p, p' := PathOf(closemap[i]), PathOf(closemap[j]);
    |p'| < |p| || (|p'| == |p| && j <= i)
  }

  lemma OneAbove(a: seq<string>, b: seq<string>, path: seq<string>)
    requires a <= path && b <= path && |a| <= |b|
    ensures a <= b
  {
    assert a == path[..|a|] && b == path[..|b|];
  }

  /** Names and characters rank two mappings above a path alike. */
  lemma RanksAlike(closemap: seq<Mapping>, path: seq<string>, i: nat, j: nat)
    requires ClearMap(closemap) && i < |closemap| && j < |closemap|
    requires PathOf(closemap[i]) <= path && PathOf(closemap[j]) <= path
    ensures var a, b := closemap[i].prefix, closemap[j].prefix;
            NoNearer(closemap, i, j) <==> |b| < |a| || (|b| == |a| && j <= i)
  {
    var p, p' := PathOf(closemap[i]), PathOf(closemap[j]);
    PrefixIsPath(closemap[i]);
    PrefixIsPath(closemap[j]);
    assert closemap[i] in closemap && closemap[j] in closemap;
    if |p| <= |p'| {
      OneAbove(p, p', path);
      LongerIsLonger(p, p');
    } else {
      OneAbove(p', p, path);
      LongerIsLonger(p', p);
    }
  }

  lemma AboveIff(closemap: seq<Mapping>, path: seq<string>, j: nat)
    requires ClearMap(closemap) && Clean(path) && j < |closemap|
    ensures Matches(closemap[j].prefix, Join(path)) <==> PathOf(closemap[j]) <= path
  {
    PrefixIsPath(closemap[j]);
    assert closemap[j] in closemap;
    MatchesIff(PathOf(closemap[j]), path);
  }

  /** The mapping that governs a path is the nearest one, and nothing governs it
      exactly if no mapping is above it. */
  lemma NearestGoverns(closemap: seq<Mapping>, path: seq<string>) returns (i: nat)
    requires ClearMap(closemap) && Clean(path)
    ensures match Governing(closemap, Join(path))
            case None => forall j :: 0 <= j < |closemap| ==> !(PathOf(closemap[j]) <= path)
            case Some(close) => Nearest(closemap, path, i) && closemap[i].close == close
  {
    i := 0;
    forall j | 0 <= j < |closemap|
      ensures Matches(closemap[j].prefix, Join(path)) <==> PathOf(closemap[j]) <= path
    {
      AboveIff(closemap, path, j);
    }
    BestMappingIsLongest(closemap, Join(path), |closemap|);
    var best := BestMapping(closemap, Join(path), |closemap|);
    if best.Some? {
      i := best.value;
      forall j | 0 <= j < |closemap| && PathOf(closemap[j]) <= path ensures NoNearer(closemap, i, j) {
        RanksAlike(closemap, path, i, j);
      }
    }
  }

  lemma NearestIsUnique(closemap: seq<Mapping>, path: seq<string>, i: nat, j: nat)
    requires Nearest(closemap, path, i) && Nearest(closemap, path, j)
    ensures i == j
  {
    assert NoNearer(closemap, i, j) && NoNearer(closemap, j, i);
  }

  // ---- over runs -----------------------------------------------------------------------------------

  lemma ProtectMapsClearly(s: State, path: string, title: Option<string>, seed: Key, eph: nat)
    requires ClearMap(s.closemap) && Protect(s, path, title, seed, eph).Ok?
    ensures ClearMap(Protect(s, path, title, seed, eph).value.closemap)
  {
    var rel, m := Join(Segments(path)), Protect(s, path, title, seed, eph).value.closemap;
    JoinIsEmpty(Segments(path));
    SplitOfJoin(Segments(path));
    assert PathOf(m[|s.closemap|]) == Segments(path);
  }

  /** Only protecting a path makes mappings. */
  lemma OnlyProtectMaps(s: State, op: Op)
    requires Allowed(s, op) && !op.ProtectPath?
    ensures Apply(s, op).closemap == s.closemap
  {
    if op.SharePath? {
      ShareMapsNothing(s, op);
    } else if op.ChangeLock? {
      RotateMapsNothing(s, op);
    } else if op.MoveCell? {
      MoveIsAside(s, op);
    } else {
      RestIsAside(s, op);
    }
  }

  lemma ShareMapsNothing(s: State, op: Op)
    requires op.SharePath?
    ensures Apply(s, op).closemap == s.closemap
  {
  }

  lemma RotateMapsNothing(s: State, op: Op)
    requires op.ChangeLock?
    ensures Apply(s, op).closemap == s.closemap
  {
  }

  lemma StepMapsClearly(s: State, op: Op)
    requires ClearMap(s.closemap) && Allowed(s, op)
    ensures ClearMap(Apply(s, op).closemap)
  {
    if op.ProtectPath? {
      if Protect(s, op.path, op.title, op.seed, op.eph).Ok? {
        ProtectMapsClearly(s, op.path, op.title, op.seed, op.eph);
      }
    } else {
      OnlyProtectMaps(s, op);
    }
  }

  lemma {:induction false} RunMapsClearly(s: State, ops: seq<Op>)
    requires Good(s) && ClearMap(s.closemap) && Legal(s, ops)
    ensures ClearMap(Run(s, ops).closemap)
    decreases |ops|
  {
    if ops != [] {
      StepMapsClearly(s, ops[0]);
      StepKeeps(s, ops[0]);
      RunMapsClearly(Apply(s, ops[0]), ops[1..]);
    }
  }

  /** After any run from a fresh commons, every path is governed by exactly one
      mapping: of those whose names begin the path the one with the most names, the
      last made among equals. */
  lemma PathsHaveOneGovernor(me: string, sign: nat, dh: nat, seed: Key, eph: nat, ops: seq<Op>, path: seq<string>)
    returns (i: nat)
    requires Legal(Init(me, sign, dh, seed, eph), ops) && Clean(path)
    ensures var closemap := Run(Init(me, sign, dh, seed, eph), ops).closemap;
            && Nearest(closemap, path, i) && Governing(closemap, Join(path)) == Some(closemap[i].close)
            && forall j: nat :: Nearest(closemap, path, j) ==> j == i
  {
    var s0 := Init(me, sign, dh, seed, eph);
    var closemap := Run(s0, ops).closemap;
    InitIsGood(me, sign, dh, seed, eph);
    RunMapsClearly(s0, ops);
    RunKeeps(s0, ops);
    i := NearestGoverns(closemap, path);
    GoverningIsKnown(Run(s0, ops), Join(path));
    forall j: nat | Nearest(closemap, path, j) ensures j == i {
      NearestIsUnique(closemap, path, j, i);
    }
  }
}
