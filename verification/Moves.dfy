/** Moving a signpost (crates/close/src/repo.rs `point`) extends its journal by
    exactly one good move and touches no other signpost. */
module Moves {
  import opened Terms
  import opened Closes
  import opened Seals
  import opened Paths
  import opened Cells
  import opened Commons
  import opened Keyring
  import opened Upkeep
  import opened Snapshots
  import opened Signposts

  /** Everything `point` checks before it writes. */
  ghost predicate Checked(
    s: State, who: string, decl: CellDecl, slots: seq<Slot>, now: nat, head: Option<Entry>, t: Transition)
    requires decl.close in s.closes
  {
    && CellHead(s, who, decl, now) == Ok(head)
    && t.body.value == Pinned(ValueOr(head), slots)
    && CheckForwardOf(decl, HeadValue(head), t.body.value, OracleOf(s, who, now)).Ok?
    && CheckLink(t, Tip(head)).Ok?
    && VerifyMove(t, s.closes[decl.close], decl).Ok?
    && who in s.people && t.body.mover == s.people[who].Public() && t.body.when == now
  }

  lemma CurrentKeyIs(s: State, who: string, close: CloseId, now: nat)
    requires Inv(s) && close in s.closes && CurrentContentKey(s, who, s.closes[close], now).Some?
    ensures CurrentContentKey(s, who, s.closes[close], now) == Some(TrueKey(s.closes[close], s.closes[close].epoch))
  {
    KeyLookupIsExact(s, who, close, Content, s.closes[close].epoch, now);
  }

  /** A move made on a head links to it. */
  lemma MadeMoveLinks(
    decl: CellDecl, head: Option<Entry>, value: Value, mover: Identity, grant: Grant, now: nat, reason: string)
    ensures var t := MakeTransition(decl, Tip(head), value, mover, grant, now, reason);
            && CheckLink(t, Tip(head)).Ok?
            && t.body.value == value && t.body.mover == mover.Public() && t.body.when == now && t.body.reason == reason
  {
  }

  lemma PointMakes(s: State, who: string, path: string, slots: seq<Slot>, reason: string, now: nat)
    returns (decl: CellDecl, head: Option<Entry>, mover: Identity, grant: Grant, key: Key)
    requires Point(s, who, path, slots, reason, now).Ok?
    ensures FindCell(s.cells, Segments(path)) == Some(decl) && decl.close in s.closes
    ensures CellHead(s, who, decl, now) == Ok(head) && who in s.people && mover == s.people[who]
    ensures CurrentContentKey(s, who, s.closes[decl.close], now) == Some(key)
    ensures var moved := Point(s, who, path, slots, reason, now).value;
            var value := Pinned(ValueOr(head), slots);
            && CheckForwardOf(decl, HeadValue(head), value, OracleOf(s, who, now)).Ok?
            && moved.move == MakeTransition(decl, Tip(head), value, mover, grant, now, reason)
            && VerifyMove(moved.move, s.closes[decl.close], decl).Ok?
            && Append(s, s.closes[decl.close], key, decl, moved.move) == Ok(moved)
  {
    decl := FindCell(s.cells, Segments(path)).value;
    var r := s.closes[decl.close];
    head, mover := CellHead(s, who, decl, now).value, s.people[who];
    grant := FirstMover(GrantsOf(s, who), r, decl, now).value;
    key := CurrentContentKey(s, who, r, now).value;
  }

  lemma PointChecks(s: State, who: string, path: string, slots: seq<Slot>, reason: string, now: nat)
    returns (decl: CellDecl, head: Option<Entry>)
    requires Inv(s) && Point(s, who, path, slots, reason, now).Ok?
    ensures FindCell(s.cells, Segments(path)) == Some(decl) && decl in s.cells && decl.close in s.closes
    ensures var moved := Point(s, who, path, slots, reason, now).value;
            var r := s.closes[decl.close];
            && Checked(s, who, decl, slots, now, head, moved.move) && moved.move.body.reason == reason
            && Append(s, r, TrueKey(r, r.epoch), decl, moved.move) == Ok(moved)
  {
    var mover, grant, key;
    decl, head, mover, grant, key := PointMakes(s, who, path, slots, reason, now);
    FindCellIs(s.cells, Segments(path));
    CurrentKeyIs(s, who, decl.close, now);
    MadeMoveLinks(decl, head, Pinned(ValueOr(head), slots), mover, grant, now, reason);
  }

  lemma AppendStores(s: State, decl: CellDecl, t: Transition)
    requires Inv(s) && decl.close in s.closes
    ensures var r := s.closes[decl.close];
            var moved := Append(s, r, TrueKey(r, r.epoch), decl, t);
            && moved.Ok?
            && moved.value.move == t && MoveIn(moved.value.cipher) == Some(t)
            && moved.value.cipher.envelope.close == decl.close
            && StoredAs(moved.value.state.objects, s.closes, moved.value.cipher, TransitionKind, TransitionText(t))
            && Stores(s.objects, moved.value.state.objects)
            && moved.value.state == s.(objects := moved.value.state.objects,
                                       refs := s.refs[CellRef(decl.Id()) := moved.value.cipher])
  {
    var r := s.closes[decl.close];
    var card := TransitionCard(t.body.seqNo, t.body.mover.name);
    SealWithTrueKey(r, r.epoch, TransitionKind, card, TransitionText(t));
    var o := Seal(r, TrueKey(r, r.epoch), r.epoch, TransitionKind, card, TransitionText(t)).value;
    assert SealedUnder(o, r, card, TransitionText(t));
  }

  lemma CheckedContinues(
    s: State, who: string, decl: CellDecl, slots: seq<Slot>, now: nat, head: Option<Entry>, t: Transition)
    requires Inv(s) && SignpostsOk(s) && decl in s.cells && Checked(s, who, decl, slots, now, head, t)
    ensures Continues(s, decl, head, t)
    ensures head.None? <==> CellRef(decl.Id()) !in s.refs
    ensures head.Some? ==> head.value.0 == s.refs[CellRef(decl.Id())]
  {
    CellHeadIs(s, who, decl, now);
    assert CellOk(s, decl);
    if head.Some? {
      GuardMeansForward(s, who, now, decl, head.value.1.body.value, slots);
    }
  }

  /** The trail of a cell: empty before its first move. */
  function TrailOf(s: State, decl: CellDecl): seq<Entry> {
    if CellRef(decl.Id()) in s.refs && MoveIn(s.refs[CellRef(decl.Id())]).Some?
    then Trail(s.refs[CellRef(decl.Id())]) else []
  }

  ghost predicate MovedOn(s: State, s': State, decl: CellDecl, c: CipherId, t: Transition) {
    && s' == s.(objects := s'.objects, refs := s.refs[CellRef(decl.Id()) := c])
    && TrailOf(s', decl) == TrailOf(s, decl) + [(c, t)]
    && forall d :: d in s.cells && d != decl ==> TrailOf(s', d) == TrailOf(s, d)
  }

  lemma OtherCellsDiffer(s: State, decl: CellDecl, d: CellDecl)
    requires Inv(s) && decl in s.cells && d in s.cells && d != decl
    ensures d.Id() != decl.Id()
  {
    CellIdIsInjective(d, decl);
    var i: nat :| i < |s.cells| && s.cells[i] == decl;
    var j: nat :| j < |s.cells| && s.cells[j] == d;
  }

  lemma OthersStay(s: State, s': State, decl: CellDecl, c: CipherId)
    requires Inv(s) && decl in s.cells && s'.refs == s.refs[CellRef(decl.Id()) := c]
    ensures forall d :: d in s.cells && d != decl ==>
              Get(s'.refs, CellRef(d.Id())) == Get(s.refs, CellRef(d.Id())) && TrailOf(s', d) == TrailOf(s, d)
  {
    forall d | d in s.cells && d != decl
      ensures Get(s'.refs, CellRef(d.Id())) == Get(s.refs, CellRef(d.Id())) && TrailOf(s', d) == TrailOf(s, d)
    {
      OtherCellsDiffer(s, decl, d);
    }
  }

  lemma ExtendedSignpostsOk(s: State, s': State, decl: CellDecl, c: CipherId)
    requires Inv(s) && Inv(s') && Later(s, s') && SignpostsOk(s) && decl in s.cells
    requires s' == s.(objects := s'.objects, refs := s.refs[CellRef(decl.Id()) := c])
    requires decl.close in s'.closes && JournalOk(s', decl, c)
    ensures SignpostsOk(s')
  {
    OthersStay(s, s', decl, c);
    forall d | d in s'.cells ensures CellOk(s', d) {
      if d != decl {
        assert CellOk(s, d);
        assert Get(s'.refs, CellRef(d.Id())) == Get(s.refs, CellRef(d.Id()));
        if CellRef(d.Id()) in s.refs {
          JournalOkLater(s, s', d, s.refs[CellRef(d.Id())]);
        }
      }
    }
    forall id | CellRef(id) in s'.refs ensures exists d :: d in s'.cells && d.Id() == id {
      if id != decl.Id() {
        assert CellRef(id) in s.refs;
      }
    }
  }

  function LastValue(trail: seq<Entry>): Value {
    if trail == [] then map[] else trail[|trail| - 1].1.body.value
  }

  /** The journal of `decl` grew by one verified, linked, forward move, in which
      each given slot holds the last pin given to its name and every other slot
      what it held; every other cell's journal is untouched. */
  ghost predicate Extended(s: State, moved: Moved, decl: CellDecl, slots: seq<Slot>) {
    && Inv(moved.state) && Later(s, moved.state) && SignpostsOk(moved.state)
    && MovedOn(s, moved.state, decl, moved.cipher, moved.move)
    && PinsOnTop(LastValue(TrailOf(s, decl)), slots, moved.move.body.value)
  }

  lemma HeadValueIsLast(s: State, decl: CellDecl, head: Option<Entry>)
    requires Inv(s) && decl.close in s.closes
    requires head.None? <==> CellRef(decl.Id()) !in s.refs
    requires head.Some? ==> head.value.0 == s.refs[CellRef(decl.Id())] && MoveIn(head.value.0) == Some(head.value.1)
    requires head.Some? ==> JournalOk(s, decl, head.value.0)
    ensures TrailOf(s, decl) == if head.Some? then Trail(head.value.0) else []
    ensures ValueOr(head) == LastValue(TrailOf(s, decl))
  {
    if head.Some? {
      TrailFolds(s, decl, head.value.0);
    }
  }

  /** Storing a checked move as the head extends the journal. */
  lemma StoredMoveExtends(
    s: State, decl: CellDecl, slots: seq<Slot>, head: Option<Entry>, moved: Moved)
    requires Inv(s) && SignpostsOk(s) && decl in s.cells && Continues(s, decl, head, moved.move)
    requires head.None? <==> CellRef(decl.Id()) !in s.refs
    requires head.Some? ==> head.value.0 == s.refs[CellRef(decl.Id())]
    requires moved.move.body.value == Pinned(ValueOr(head), slots)
    requires StoredAs(moved.state.objects, s.closes, moved.cipher, TransitionKind, TransitionText(moved.move))
    requires MoveIn(moved.cipher) == Some(moved.move) && moved.cipher.envelope.close == decl.close
    requires Stores(s.objects, moved.state.objects)
    requires moved.state == s.(objects := moved.state.objects, refs := s.refs[CellRef(decl.Id()) := moved.cipher])
    ensures Extended(s, moved, decl, slots)
  {
    var s' := moved.state;
    PinnedIs(ValueOr(head), slots);
    HeadValueIsLast(s, decl, head);
    StoreGrowthKeeps(s, s');
    ContinuesLater(s, s', decl, head, moved.move);
    StoringExtendsJournal(s', decl, head, moved.cipher, moved.move);
    ExtendedSignpostsOk(s, s', decl, moved.cipher);
    OthersStay(s, s', decl, moved.cipher);
  }

  lemma CheckedExtends(
    s: State, who: string, decl: CellDecl, slots: seq<Slot>, now: nat, head: Option<Entry>, moved: Moved)
    requires Inv(s) && SignpostsOk(s) && decl in s.cells && Checked(s, who, decl, slots, now, head, moved.move)
    requires var r := s.closes[decl.close]; Append(s, r, TrueKey(r, r.epoch), decl, moved.move) == Ok(moved)
    ensures Extended(s, moved, decl, slots)
  {
    CheckedContinues(s, who, decl, slots, now, head, moved.move);
    AppendStores(s, decl, moved.move);
    StoredMoveExtends(s, decl, slots, head, moved);
  }

  /** Every successful move, by anyone, extends the journal of the cell it names,
      and says who moved it, when and why. */
  lemma PointExtendsJournal(s: State, who: string, path: string, slots: seq<Slot>, reason: string, now: nat)
    returns (decl: CellDecl)
    requires Inv(s) && SignpostsOk(s) && Point(s, who, path, slots, reason, now).Ok?
    ensures FindCell(s.cells, Segments(path)) == Some(decl) && decl in s.cells
    ensures Extended(s, Point(s, who, path, slots, reason, now).value, decl, slots)
    ensures var b := Point(s, who, path, slots, reason, now).value.move.body;
            who in s.people && b.mover == s.people[who].Public() && b.when == now && b.reason == reason
  {
    var head: Option<Entry>;
    decl, head := PointChecks(s, who, path, slots, reason, now);
    CheckedExtends(s, who, decl, slots, now, head, Point(s, who, path, slots, reason, now).value);
  }
}
