/** The designation plane over runs: every cell's head ref caches a journal that
    folds, and guarded slots only move forward. */
module Signposts {
  import opened Terms
  import opened Closes
  import opened Grants
  import opened Paths
  import opened Cells
  import opened Ancestry
  import opened Commons
  import opened Keyring
  import opened Upkeep
  import opened Snapshots
  import opened Reading
  import opened History

  // ---- what the store says ------------------------------------------------------------

  function MoveIn(c: CipherId): (t: Option<Transition>)
    ensures t.Some? ==> t.value < c
  {
    if c.envelope.contentCt.text.TransitionText? then Some(c.envelope.contentCt.text.transition) else None
  }

  function PrevOf(c: CipherId): (p: Option<CipherId>)
    ensures p.Some? ==> p.value < c
  {
    if MoveIn(c).None? then None else MoveIn(c).value.body.prev
  }

  function ValueAt(c: CipherId): Value {
    if MoveIn(c).None? then map[] else MoveIn(c).value.body.value
  }

  /** The true parents of commits: what the stored envelopes seal. */
  ghost function TrueParents(objects: Objects): Reader {
    (c: CipherId) => if c in objects && CommitIn(c).Some? then Some(ParentsIn(c)) else None
  }

  /** `pinned` is `newer` or one of its ancestors through stored commits. */
  ghost predicate Descends(objects: Objects, pinned: CipherId, newer: CipherId) {
    Ancestor(TrueParents(objects), pinned, newer)
  }

  // ---- one move after another -----------------------------------------------------------

  /** No slot vanishes, and every guarded slot stays or moves to a descendant. */
  ghost predicate Forward(objects: Objects, decl: CellDecl, before: Value, after: Value) {
    && before.Keys <= after.Keys
    && forall slot :: slot in decl.forwardOnly && slot in before ==>
         Descends(objects, before[slot].commit, after[slot].commit)
  }

  /** The move stored at `c` verifies and follows on the one before it. */
  ghost predicate MoveOk(s: State, decl: CellDecl, c: CipherId)
    requires decl.close in s.closes
  {
    && MoveIn(c).Some? && c.envelope.close == decl.close
    && StoredAs(s.objects, s.closes, c, TransitionKind, TransitionText(MoveIn(c).value))
    && VerifyMove(MoveIn(c).value, s.closes[decl.close], decl).Ok?
    && match PrevOf(c)
       case None => MoveIn(c).value.body.seqNo == 0
       case Some(p) =>
         && MoveIn(p).Some?
         && MoveIn(c).value.body.seqNo == MoveIn(p).value.body.seqNo + 1
         && Forward(s.objects, decl, ValueAt(p), ValueAt(c))
  }

  /** ... and so does every move before it. */
  ghost predicate JournalOk(s: State, decl: CellDecl, c: CipherId)
    requires decl.close in s.closes
    decreases c
  {
    MoveOk(s, decl, c) && (PrevOf(c).Some? ==> JournalOk(s, decl, PrevOf(c).value))
  }

  /** The moves found by following `prev` links from `c`, oldest first. */
  function Trail(c: CipherId): (trail: seq<Entry>)
    requires MoveIn(c).Some?
    decreases c
  {
    var last := [(c, MoveIn(c).value)];
    if PrevOf(c).Some? && MoveIn(PrevOf(c).value).Some? then Trail(PrevOf(c).value) + last else last
  }

  ghost predicate CellOk(s: State, decl: CellDecl)
    requires decl.close in s.closes
  {
    CellRef(decl.Id()) in s.refs ==> JournalOk(s, decl, s.refs[CellRef(decl.Id())])
  }

  /** Every ref of the designation plane belongs to a declared cell, and every
      cell's ref stands at the end of a good journal. */
  ghost predicate SignpostsOk(s: State)
    requires Inv(s)
  {
    && (forall id :: CellRef(id) in s.refs ==> exists d :: d in s.cells && d.Id() == id)
    && (forall d :: d in s.cells ==> CellOk(s, d))
  }

  // ---- the head ref is only a cache --------------------------------------------------------

  lemma {:induction false} TrailFolds(s: State, decl: CellDecl, c: CipherId)
    requires decl.close in s.closes && JournalOk(s, decl, c)
    ensures var trail := Trail(c);
            && |trail| > 0
            && MoveIn(c).value.body.seqNo == |trail| - 1
            && trail[|trail| - 1] == (c, MoveIn(c).value)
            && Folds(s.closes[decl.close], decl, trail)
    decreases c
  {
    var r, trail := s.closes[decl.close], Trail(c);
    if PrevOf(c).Some? {
      var p := PrevOf(c).value;
      TrailFolds(s, decl, p);
      var shorter := Trail(p);
      assert trail == shorter + [(c, MoveIn(c).value)];
      forall k: nat | k < |trail| ensures GoodMove(r, decl, trail, k) {
        if k < |shorter| {
          assert GoodMove(r, decl, shorter, k);
        }
      }
    } else {
      assert GoodMove(r, decl, trail, 0);
    }
  }

  /** Following `prev` links from the cell's ref through the store yields a
      journal that folds, and its fold is the move at the ref. */
  lemma HeadIsCache(s: State, decl: CellDecl)
    requires Inv(s) && SignpostsOk(s) && decl in s.cells && CellRef(decl.Id()) in s.refs
    ensures var c := s.refs[CellRef(decl.Id())];
            && MoveIn(c).Some?
            && FoldOf(s.closes[decl.close], decl, Trail(c)) == Ok(Some(MoveIn(c).value))
            && forall e :: e in Trail(c) ==> Addresses(e)
  {
    var c := s.refs[CellRef(decl.Id())];
    assert CellOk(s, decl);
    TrailFolds(s, decl, c);
    FoldIff(s.closes[decl.close], decl, Trail(c));
    TrailAddresses(c);
  }

  lemma {:induction false} TrailAddresses(c: CipherId)
    requires MoveIn(c).Some?
    ensures forall e :: e in Trail(c) ==> Addresses(e)
    decreases c
  {
    if PrevOf(c).Some? && MoveIn(PrevOf(c).value).Some? {
      TrailAddresses(PrevOf(c).value);
    }
  }

  // ---- forward only ---------------------------------------------------------------------------

  lemma ForwardIsTransitive(objects: Objects, decl: CellDecl, a: Value, b: Value, c: Value)
    requires Forward(objects, decl, a, b) && Forward(objects, decl, b, c)
    ensures Forward(objects, decl, a, c)
  {
    forall slot | slot in decl.forwardOnly && slot in a ensures Descends(objects, a[slot].commit, c[slot].commit) {
      AncestorIsTransitive(TrueParents(objects), a[slot].commit, b[slot].commit, c[slot].commit);
    }
  }

  lemma ForwardIsReflexive(objects: Objects, decl: CellDecl, a: Value)
    ensures Forward(objects, decl, a, a)
  {
    forall slot | slot in decl.forwardOnly && slot in a ensures Descends(objects, a[slot].commit, a[slot].commit) {
      AncestorIsReflexive(TrueParents(objects), a[slot].commit);
    }
  }

  lemma {:induction false} TrailMovesForward(s: State, decl: CellDecl, c: CipherId, i: nat, j: nat)
    requires decl.close in s.closes && JournalOk(s, decl, c) && i <= j < |Trail(c)|
    ensures Forward(s.objects, decl, Trail(c)[i].1.body.value, Trail(c)[j].1.body.value)
    decreases c
  {
    var trail := Trail(c);
    if i == j {
      ForwardIsReflexive(s.objects, decl, trail[i].1.body.value);
    } else {
      var p := PrevOf(c).value;
      var shorter := Trail(p);
      assert trail == shorter + [(c, MoveIn(c).value)];
      if j < |shorter| {
        TrailMovesForward(s, decl, p, i, j);
      } else {
        TrailFolds(s, decl, p);
        TrailMovesForward(s, decl, p, i, |shorter| - 1);
        ForwardIsTransitive(s.objects, decl, trail[i].1.body.value, ValueAt(p), ValueAt(c));
      }
    }
  }

  /** Over a cell's whole journal no slot ever vanishes, and the pin of a guarded
      slot at any move is the pin of any later move or an ancestor of it. */
  lemma GuardedSlotsOnlyMoveForward(s: State, decl: CellDecl, i: nat, j: nat, slot: string)
    requires Inv(s) && SignpostsOk(s) && decl in s.cells && CellRef(decl.Id()) in s.refs
    requires MoveIn(s.refs[CellRef(decl.Id())]).Some?
    requires i <= j < |Trail(s.refs[CellRef(decl.Id())])|
    requires slot in Trail(s.refs[CellRef(decl.Id())])[i].1.body.value
    ensures var trail := Trail(s.refs[CellRef(decl.Id())]);
            && slot in trail[j].1.body.value
            && (slot in decl.forwardOnly ==>
                Descends(s.objects, trail[i].1.body.value[slot].commit, trail[j].1.body.value[slot].commit))
  {
    assert CellOk(s, decl);
    TrailMovesForward(s, decl, s.refs[CellRef(decl.Id())], i, j);
  }

  // ---- journals survive everything else ----------------------------------------------------------

  lemma VerifyMoveLater(t: Transition, r: CloseRecord, r': CloseRecord, decl: CellDecl)
    requires r.steward == r'.steward
    ensures VerifyMove(t, r, decl) == VerifyMove(t, r', decl)
  {
    VerifyNeedsOnlySteward(t.body.grant, r, r', t.body.when);
  }

  lemma ForwardLater(objects: Objects, objects': Objects, decl: CellDecl, before: Value, after: Value)
    requires Forward(objects, decl, before, after) && ObjectsGrew(objects, objects')
    ensures Forward(objects', decl, before, after)
  {
    forall slot | slot in decl.forwardOnly && slot in before
      ensures Descends(objects', before[slot].commit, after[slot].commit)
    {
      AncestorWidens(TrueParents(objects), TrueParents(objects'), before[slot].commit, after[slot].commit);
    }
  }

  lemma MoveOkLater(s: State, s': State, decl: CellDecl, c: CipherId)
    requires Later(s, s') && decl.close in s.closes && MoveOk(s, decl, c)
    ensures decl.close in s'.closes && MoveOk(s', decl, c)
  {
    StoredLater(s.objects, s.closes, s'.objects, s'.closes, c, TransitionKind, TransitionText(MoveIn(c).value));
    VerifyMoveLater(MoveIn(c).value, s.closes[decl.close], s'.closes[decl.close], decl);
    if PrevOf(c).Some? {
      ForwardLater(s.objects, s'.objects, decl, ValueAt(PrevOf(c).value), ValueAt(c));
    }
  }

  lemma {:induction false} JournalOkLater(s: State, s': State, decl: CellDecl, c: CipherId)
    requires Later(s, s') && decl.close in s.closes && JournalOk(s, decl, c)
    ensures decl.close in s'.closes && JournalOk(s', decl, c)
    decreases c
  {
    MoveOkLater(s, s', decl, c);
    if PrevOf(c).Some? {
      JournalOkLater(s, s', decl, PrevOf(c).value);
    }
  }

  ghost predicate SameCellRefs(s: State, s': State) {
    forall id :: Get(s'.refs, CellRef(id)) == Get(s.refs, CellRef(id))
  }

  /** Any step that leaves the cell refs alone, and declares at most cells that
      have no ref, keeps every journal. */
  lemma SignpostsLater(s: State, s': State)
    requires Inv(s) && Inv(s') && Later(s, s') && SignpostsOk(s) && SameCellRefs(s, s')
    requires forall d :: d in s'.cells ==> d in s.cells || CellRef(d.Id()) !in s.refs
    ensures SignpostsOk(s')
  {
    forall id | CellRef(id) in s'.refs ensures exists d :: d in s'.cells && d.Id() == id {
      assert Get(s'.refs, CellRef(id)) == Get(s.refs, CellRef(id));
      var d :| d in s.cells && d.Id() == id;
      assert d in s'.cells;
    }
    forall d | d in s'.cells ensures CellOk(s', d) {
      assert Get(s'.refs, CellRef(d.Id())) == Get(s.refs, CellRef(d.Id()));
      if CellRef(d.Id()) in s.refs {
        assert CellOk(s, d);
        JournalOkLater(s, s', d, s.refs[CellRef(d.Id())]);
      }
    }
  }

  /** A cell on a path where none stands has an identity no ref has yet. */
  lemma NewCellIsUnset(s: State, decl: CellDecl)
    requires Inv(s) && SignpostsOk(s) && Clean(decl.path) && FindCell(s.cells, decl.path).None?
    ensures CellRef(decl.Id()) !in s.refs
  {
    FindCellIs(s.cells, decl.path);
    if CellRef(decl.Id()) in s.refs {
      var d :| d in s.cells && d.Id() == decl.Id();
      CellIdIsInjective(d, decl);
    }
  }

  /** So declaring a cell never mistakes a ref for its head. */
  lemma CellNewKeepsSignposts(s: State, path: string, kind: string, forwardOnly: seq<string>)
    requires Inv(s) && SignpostsOk(s) && CellNew(s, path, kind, forwardOnly).Ok?
    ensures var s' := CellNew(s, path, kind, forwardOnly).value; Inv(s') && SignpostsOk(s')
  {
    var s' := CellNew(s, path, kind, forwardOnly).value;
    CellNewKeeps(s, path, kind, forwardOnly);
    NewCellIsUnset(s, s'.cells[|s.cells|]);
    SignpostsLater(s, s');
  }

  // ---- a move keeps journals ------------------------------------------------------------------------

  /** What someone reads of a commit's parents is true. */
  lemma ReaderIsTrue(s: State, who: string, now: nat, c: CipherId)
    requires Inv(s)
    ensures forall p :: p in ParentsOf(ReaderOf(s, who, now), c) ==> p in ParentsOf(TrueParents(s.objects), c)
  {
    var commit := CommitAt(s, who, c, now);
    if commit.Ok? {
      assert s.objects[c] == c.envelope;
      assert CommitIn(c) == Some(commit.value);
    }
  }

  function NamesOf(slots: seq<Slot>): set<string> {
    set i | 0 <= i < |slots| :: slots[i].name
  }

  /** No later slot has the name of the `i`th. */
  ghost predicate LastNamed(slots: seq<Slot>, i: nat)
    requires i < |slots|
  {
    forall j :: i < j < |slots| ==> slots[j].name != slots[i].name
  }

  /** What pinning slots on a value means: each named slot holds the last pin given
      to that name, every other slot what it held. */
  ghost predicate PinsOnTop(before: Value, slots: seq<Slot>, after: Value) {
    && after.Keys == before.Keys + NamesOf(slots)
    && (forall name :: name in before && name !in NamesOf(slots) ==> after[name] == before[name])
    && (forall i :: 0 <= i < |slots| && LastNamed(slots, i) ==>
          after[slots[i].name] == Pin(slots[i].commit, slots[i].note))
  }

  lemma {:induction false} PinnedIs(value: Value, slots: seq<Slot>)
    ensures PinsOnTop(value, slots, Pinned(value, slots))
    decreases |slots|
  {
    if slots != [] {
      var first, rest := slots[0], slots[1..];
      PinnedIs(value[first.name := Pin(first.commit, first.note)], rest);
      assert NamesOf(slots) == {first.name} + NamesOf(rest);
      forall i | 0 <= i < |slots| && LastNamed(slots, i)
        ensures Pinned(value, slots)[slots[i].name] == Pin(slots[i].commit, slots[i].note)
      {
        if i > 0 {
          LaterIsLast(slots, i);
        } else {
          FirstIsOnly(slots);
        }
      }
    }
  }

  lemma LaterIsLast(slots: seq<Slot>, i: nat)
    requires 0 < i < |slots| && LastNamed(slots, i)
    ensures slots[1..][i - 1] == slots[i] && LastNamed(slots[1..], i - 1)
  {
    forall j | i - 1 < j < |slots[1..]| ensures slots[1..][j].name != slots[i].name {
      assert slots[1..][j] == slots[j + 1];
    }
  }

  lemma FirstIsOnly(slots: seq<Slot>)
    requires slots != [] && LastNamed(slots, 0)
    ensures slots[0].name !in NamesOf(slots[1..])
  {
    forall j | 0 <= j < |slots[1..]| ensures slots[1..][j].name != slots[0].name {
      assert slots[1..][j] == slots[j + 1];
    }
  }

  lemma {:induction false} NameHasLast(slots: seq<Slot>, i: nat) returns (last: nat)
    requires i < |slots|
    ensures i <= last < |slots| && slots[last].name == slots[i].name && LastNamed(slots, last)
    decreases |slots| - i
  {
    last := i;
    if !LastNamed(slots, i) {
      var j :| i < j < |slots| && slots[j].name == slots[i].name;
      last := NameHasLast(slots, j);
    }
  }

  /** So only one value is that. */
  lemma PinsAreUnique(before: Value, slots: seq<Slot>, after: Value, after': Value)
    requires PinsOnTop(before, slots, after) && PinsOnTop(before, slots, after')
    ensures after == after'
  {
    forall name | name in after ensures after[name] == after'[name] {
      if name in NamesOf(slots) {
        var i :| 0 <= i < |slots| && slots[i].name == name;
        var last := NameHasLast(slots, i);
      }
    }
  }

  /** A value that passes the guard, for whoever moves, really moves forward. */
  lemma GuardMeansForward(s: State, who: string, now: nat, decl: CellDecl, before: Value, slots: seq<Slot>)
    requires Inv(s)
    requires CheckForwardOf(decl, Some(before), Pinned(before, slots), OracleOf(s, who, now)).Ok?
    ensures Forward(s.objects, decl, before, Pinned(before, slots))
  {
    var after := Pinned(before, slots);
    var read := ReaderOf(s, who, now);
    PinnedIs(before, slots);
    NoneBackwardIff(decl.forwardOnly, before, after, OracleOf(s, who, now));
    forall slot | slot in decl.forwardOnly && slot in before
      ensures Descends(s.objects, before[slot].commit, after[slot].commit)
    {
      var was, will := before[slot].commit, after[slot].commit;
      assert MovesForward(before, after, slot, OracleOf(s, who, now));
      if was == will {
        AncestorIsReflexive(TrueParents(s.objects), was);
      } else {
        assert IsDescendantOf(read, was, will);
        DescendantIsSound(read, was, will);
        forall c, p | p in ParentsOf(read, c) ensures p in ParentsOf(TrueParents(s.objects), c) {
          ReaderIsTrue(s, who, now, c);
        }
        AncestorWidens(read, TrueParents(s.objects), was, will);
      }
    }
  }

  /** The head someone opens is the move stored at the cell's ref. */
  lemma CellHeadIs(s: State, who: string, decl: CellDecl, now: nat)
    requires Inv(s) && SignpostsOk(s) && decl in s.cells && CellHead(s, who, decl, now).Ok?
    ensures var head := CellHead(s, who, decl, now).value;
            && (head.None? <==> CellRef(decl.Id()) !in s.refs)
            && (head.Some? ==> head.value.0 == s.refs[CellRef(decl.Id())] && MoveIn(head.value.0) == Some(head.value.1))
  {
    assert CellOk(s, decl);
  }

  /** A verified move linked to the head, going forward from it. */
  ghost predicate Continues(s: State, decl: CellDecl, head: Option<Entry>, t: Transition)
    requires decl.close in s.closes
  {
    && VerifyMove(t, s.closes[decl.close], decl).Ok? && CheckLink(t, Tip(head)).Ok?
    && (head.Some? ==>
        && MoveIn(head.value.0) == Some(head.value.1)
        && JournalOk(s, decl, head.value.0)
        && Forward(s.objects, decl, head.value.1.body.value, t.body.value))
  }

  lemma ContinuesLater(s: State, s': State, decl: CellDecl, head: Option<Entry>, t: Transition)
    requires Later(s, s') && decl.close in s.closes && Continues(s, decl, head, t)
    ensures decl.close in s'.closes && Continues(s', decl, head, t)
  {
    VerifyMoveLater(t, s.closes[decl.close], s'.closes[decl.close], decl);
    if head.Some? {
      JournalOkLater(s, s', decl, head.value.0);
      ForwardLater(s.objects, s'.objects, decl, head.value.1.body.value, t.body.value);
    }
  }

  /** Storing such a move extends the journal. */
  lemma StoringExtendsJournal(s: State, decl: CellDecl, head: Option<Entry>, c: CipherId, t: Transition)
    requires decl.close in s.closes && Continues(s, decl, head, t)
    requires MoveIn(c) == Some(t) && StoredAs(s.objects, s.closes, c, TransitionKind, TransitionText(t))
    requires c.envelope.close == decl.close
    ensures JournalOk(s, decl, c)
    ensures Trail(c) == (if head.Some? then Trail(head.value.0) else []) + [(c, t)]
  {
    assert PrevOf(c) == if head.Some? then Some(head.value.0) else None;
    assert MoveOk(s, decl, c);
  }
}
