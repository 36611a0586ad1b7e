/** A cell's journal over whole runs is the replay of its moves. */
module Journals {
  import opened Terms
  import opened Paths
  import opened Cells
  import opened Commons
  import opened Keyring
  import opened Upkeep
  import opened Reading
  import opened Signposts
  import opened Moves
  import opened Runs

  function Values(trail: seq<Entry>): (values: seq<Value>)
    ensures |values| == |trail|
  {
    seq(|trail|, i requires 0 <= i < |trail| => trail[i].1.body.value)
  }

  /** The values a cell takes, from `start` on, as each batch of slots is pinned
      on top of the value before. */
  ghost predicate Replays(start: Value, values: seq<Value>, moves: seq<seq<Slot>>)
    decreases |values|
  {
    && |values| == |moves|
    && (values != [] ==>
        PinsOnTop(start, moves[0], values[0]) && Replays(values[0], values[1..], moves[1..]))
  }

  function LastOf(start: Value, values: seq<Value>): Value {
    if values == [] then start else values[|values| - 1]
  }

  /** There is one such replay. */
  lemma {:induction false} ReplayIsUnique(start: Value, values: seq<Value>, values': seq<Value>, moves: seq<seq<Slot>>)
    requires Replays(start, values, moves) && Replays(start, values', moves)
    ensures values == values'
    decreases |values|
  {
    if values != [] {
      PinsAreUnique(start, moves[0], values[0], values'[0]);
      ReplayIsUnique(values[0], values[1..], values'[1..], moves[1..]);
      assert values == [values[0]] + values[1..];
    }
  }

  /** What an operation pins on a cell: its slots if it is a move of that cell
      that is not refused. */
  ghost function MovesIn(s: State, op: Op, decl: CellDecl): seq<seq<Slot>> {
    if op.MoveCell? && Point(s, op.who, op.path, op.slots, op.reason, op.now).Ok?
       && FindCell(s.cells, Segments(op.path)) == Some(decl)
    then [op.slots] else []
  }

  ghost function MovesOf(s: State, ops: seq<Op>, decl: CellDecl): seq<seq<Slot>>
    requires Legal(s, ops)
    decreases |ops|
  {
    if ops == [] then [] else MovesIn(s, ops[0], decl) + MovesOf(Apply(s, ops[0]), ops[1..], decl)
  }

  /** The cell stands, or could still be declared. */
  ghost predicate Declarable(s: State, decl: CellDecl) {
    decl in s.cells || (Clean(decl.path) && FindCell(s.cells, decl.path).None?)
  }

  lemma SameRefSameTrail(s: State, s': State, decl: CellDecl)
    requires Get(s'.refs, CellRef(decl.Id())) == Get(s.refs, CellRef(decl.Id()))
    ensures TrailOf(s', decl) == TrailOf(s, decl)
  {
  }

  lemma MoveOfAnother(s: State, s': State, moved: CellDecl, c: CipherId, t: Transition, decl: CellDecl)
    requires Inv(s) && moved in s.cells && MovedOn(s, s', moved, c, t)
    requires Declarable(s, decl) && decl != moved
    ensures TrailOf(s', decl) == TrailOf(s, decl)
  {
    if decl !in s.cells {
      FindCellIs(s.cells, decl.path);
      CellIdIsInjective(decl, moved);
      SameRefSameTrail(s, s', decl);
    }
  }

  /** The trail of `decl` took exactly the values of these moves. */
  ghost predicate Took(s: State, s': State, decl: CellDecl, moves: seq<seq<Slot>>) {
    var values, values' := Values(TrailOf(s, decl)), Values(TrailOf(s', decl));
    values <= values' && Replays(LastOf(map[], values), values'[|values|..], moves)
  }

  lemma TookNothing(s: State, s': State, decl: CellDecl)
    requires TrailOf(s', decl) == TrailOf(s, decl)
    ensures Took(s, s', decl, [])
  {
  }

  lemma LastOfValues(trail: seq<Entry>)
    ensures LastValue(trail) == LastOf(map[], Values(trail))
  {
  }

  lemma TookOne(s: State, s': State, decl: CellDecl, e: Entry, slots: seq<Slot>)
    requires TrailOf(s', decl) == TrailOf(s, decl) + [e]
    requires PinsOnTop(LastValue(TrailOf(s, decl)), slots, e.1.body.value)
    ensures Took(s, s', decl, [slots])
  {
    var values := Values(TrailOf(s, decl));
    LastOfValues(TrailOf(s, decl));
    assert Values(TrailOf(s', decl)) == values + [e.1.body.value];
    assert [e.1.body.value][1..] == [] && [slots][1..] == [];
  }

  lemma MoveTook(s: State, who: string, path: string, slots: seq<Slot>, reason: string, now: nat, decl: CellDecl)
    requires Good(s) && Declarable(s, decl) && Point(s, who, path, slots, reason, now).Ok?
    ensures Took(s, Point(s, who, path, slots, reason, now).value.state, decl,
                 if FindCell(s.cells, Segments(path)) == Some(decl) then [slots] else [])
  {
    var moved := Point(s, who, path, slots, reason, now).value;
    var named := PointExtendsJournal(s, who, path, slots, reason, now);
    if named == decl {
      TookOne(s, moved.state, decl, (moved.cipher, moved.move), slots);
    } else {
      MoveOfAnother(s, moved.state, named, moved.cipher, moved.move, decl);
      TookNothing(s, moved.state, decl);
    }
  }

  lemma KeepStepTook(s: State, op: Op, decl: CellDecl)
    requires Good(s) && op.KeepTree? && Allowed(s, op)
    ensures Took(s, Apply(s, op), decl, [])
  {
    KeepKeeps(s, op.root, op.message, op.now);
    SameRefSameTrail(s, Apply(s, op), decl);
    TookNothing(s, Apply(s, op), decl);
  }

  lemma ReflessTook(s: State, op: Op, decl: CellDecl)
    requires Good(s) && Allowed(s, op) && Refless(op)
    ensures Took(s, Apply(s, op), decl, [])
  {
    ReflessStepKeeps(s, op);
    SameRefSameTrail(s, Apply(s, op), decl);
    TookNothing(s, Apply(s, op), decl);
  }

  lemma MoveStepTook(s: State, op: Op, decl: CellDecl)
    requires Good(s) && op.MoveCell? && Declarable(s, decl)
    ensures Took(s, Apply(s, op), decl, MovesIn(s, op, decl))
  {
    var moved := Point(s, op.who, op.path, op.slots, op.reason, op.now);
    if moved.Ok? {
      MoveTook(s, op.who, op.path, op.slots, op.reason, op.now, decl);
      assert Apply(s, op) == moved.value.state;
    } else {
      TookNothing(s, s, decl);
    }
  }

  lemma StepTook(s: State, op: Op, decl: CellDecl)
    requires Good(s) && Allowed(s, op) && Declarable(s, decl)
    ensures Took(s, Apply(s, op), decl, MovesIn(s, op, decl))
  {
    if op.MoveCell? {
      MoveStepTook(s, op, decl);
    } else if op.KeepTree? {
      KeepStepTook(s, op, decl);
    } else {
      ReflessTook(s, op, decl);
    }
  }

  lemma {:induction false} ReplaysCompose(
    start: Value, xs: seq<Value>, ys: seq<Value>, a: seq<seq<Slot>>, b: seq<seq<Slot>>)
    requires Replays(start, xs, a) && Replays(LastOf(start, xs), ys, b)
    ensures Replays(start, xs + ys, a + b)
    decreases |xs|
  {
    if xs == [] {
      assert xs + ys == ys && a + b == b;
    } else {
      assert (xs + ys)[1..] == xs[1..] + ys && (a + b)[1..] == a[1..] + b;
      ReplaysCompose(xs[0], xs[1..], ys, a[1..], b);
    }
  }

  lemma SuffixesAdd(v: seq<Value>, w: seq<Value>, x: seq<Value>)
    requires v <= w <= x
    ensures v <= x && x[|v|..] == w[|v|..] + x[|w|..]
    ensures LastOf(map[], w) == LastOf(LastOf(map[], v), w[|v|..])
  {
  }

  lemma TookComposes(s: State, t: State, u: State, decl: CellDecl, a: seq<seq<Slot>>, b: seq<seq<Slot>>)
    requires Took(s, t, decl, a) && Took(t, u, decl, b)
    ensures Took(s, u, decl, a + b)
  {
    var v, w, x := Values(TrailOf(s, decl)), Values(TrailOf(t, decl)), Values(TrailOf(u, decl));
    SuffixesAdd(v, w, x);
    ReplaysCompose(LastOf(map[], v), w[|v|..], x[|w|..], a, b);
  }

  /** A declared cell was declarable all along. */
  lemma DeclaredWasDeclarable(s: State, s': State, decl: CellDecl)
    requires Inv(s) && Inv(s') && Later(s, s') && decl in s'.cells
    ensures Declarable(s, decl)
  {
    FindCellIs(s.cells, decl.path);
    var found := FindCell(s.cells, decl.path);
    if found.Some? {
      var i: nat :| i < |s'.cells| && s'.cells[i] == decl;
      var j: nat :| j < |s.cells| && s.cells[j] == found.value;
      assert s'.cells[j] == found.value;
    }
  }

  lemma {:induction false} RunTook(s: State, ops: seq<Op>, decl: CellDecl)
    requires Good(s) && Legal(s, ops) && decl in Run(s, ops).cells
    ensures Took(s, Run(s, ops), decl, MovesOf(s, ops, decl))
    decreases |ops|
  {
    if ops == [] {
      TookNothing(s, s, decl);
    } else {
      var next := Apply(s, ops[0]);
      StepKeeps(s, ops[0]);
      RunKeeps(s, ops);
      DeclaredWasDeclarable(s, Run(s, ops), decl);
      StepTook(s, ops[0], decl);
      RunTook(next, ops[1..], decl);
      TookComposes(s, next, Run(s, ops), decl, MovesIn(s, ops[0], decl), MovesOf(next, ops[1..], decl));
    }
  }

  /** The head ref is only a cache. After any run from a fresh commons, whoever
      moved and whatever locks were changed, following `prev` links from a
      cell's ref through the store yields a journal that folds to the move at
      the ref, has one entry for each move of the cell that was not refused, and
      each value is the one before with that move's slots pinned on top. */
  lemma JournalIsReplay(me: string, sign: nat, dh: nat, seed: Key, eph: nat, ops: seq<Op>, decl: CellDecl)
    requires Legal(Init(me, sign, dh, seed, eph), ops)
    requires decl in Run(Init(me, sign, dh, seed, eph), ops).cells
    ensures var s := Run(Init(me, sign, dh, seed, eph), ops);
            var trail := TrailOf(s, decl);
            && Good(s) && decl.close in s.closes
            && Replays(map[], Values(trail), MovesOf(Init(me, sign, dh, seed, eph), ops, decl))
            && FoldOf(s.closes[decl.close], decl, trail)
               == Ok(if trail == [] then None else Some(trail[|trail| - 1].1))
            && (trail == [] <==> CellRef(decl.Id()) !in s.refs)
            && (trail != [] ==> trail[|trail| - 1].0 == s.refs[CellRef(decl.Id())])
  {
    var s0 := Init(me, sign, dh, seed, eph);
    var s := Run(s0, ops);
    InitIsGood(me, sign, dh, seed, eph);
    RunKeeps(s0, ops);
    RunTook(s0, ops, decl);
    assert Values(TrailOf(s, decl))[0..] == Values(TrailOf(s, decl));
    TrailIsFolded(s, decl);
  }

  lemma TrailIsFolded(s: State, decl: CellDecl)
    requires Good(s) && decl in s.cells
    ensures var trail := TrailOf(s, decl);
            && decl.close in s.closes
            && FoldOf(s.closes[decl.close], decl, trail)
               == Ok(if trail == [] then None else Some(trail[|trail| - 1].1))
            && (trail == [] <==> CellRef(decl.Id()) !in s.refs)
            && (trail != [] ==> trail[|trail| - 1].0 == s.refs[CellRef(decl.Id())])
  {
    assert CellOk(s, decl);
    if CellRef(decl.Id()) in s.refs {
      HeadIsCache(s, decl);
      TrailFolds(s, decl, s.refs[CellRef(decl.Id())]);
    }
  }

  /** Forward-only over whole runs: a slot once pinned stays pinned, and the pin
      of a guarded slot after any move is, after every later move, the same
      commit or an ancestor of the commit pinned then. */
  lemma PinsOnlyMoveForward(
    me: string, sign: nat, dh: nat, seed: Key, eph: nat, ops: seq<Op>, decl: CellDecl, i: nat, j: nat, slot: string)
    requires Legal(Init(me, sign, dh, seed, eph), ops)
    requires decl in Run(Init(me, sign, dh, seed, eph), ops).cells
    requires var values := Values(TrailOf(Run(Init(me, sign, dh, seed, eph), ops), decl));
             i <= j < |values| && slot in values[i]
    ensures var s := Run(Init(me, sign, dh, seed, eph), ops);
            var values := Values(TrailOf(s, decl));
            && slot in values[j]
            && (slot in decl.forwardOnly ==> Descends(s.objects, values[i][slot].commit, values[j][slot].commit))
  {
    var s := Run(Init(me, sign, dh, seed, eph), ops);
    JournalIsReplay(me, sign, dh, seed, eph, ops, decl);
    var trail := TrailOf(s, decl);
    assert Values(trail)[i] == trail[i].1.body.value && Values(trail)[j] == trail[j].1.body.value;
    GuardedSlotsOnlyMoveForward(s, decl, i, j, slot);
  }
}
