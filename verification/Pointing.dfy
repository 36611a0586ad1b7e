/** When a signpost moves, and what stops it (`point` of crates/close/src/repo.rs). */
module Pointing {
  import opened Terms
  import opened Closes
  import opened Grants
  import opened Paths
  import opened Cells
  import opened Ancestry
  import opened Commons
  import opened Keyring
  import opened Upkeep
  import opened Snapshots
  import opened History
  import opened Signposts
  import opened Moves

  // ---- authority -----------------------------------------------------------------------------

  /** A grant to move this signpost: of its close, with the right to point (the
      second bit), over its path, and authentic now. */
  ghost predicate MovesIt(g: Grant, r: CloseRecord, decl: CellDecl, now: nat) {
    && g.body.close == decl.close && g.body.powers & 2 != 0 && g.body.prefix <= decl.path
    && Authentic(Lineage(g), r.steward, now)
  }

  lemma MayMoveIff(g: Grant, r: CloseRecord, decl: CellDecl, now: nat)
    ensures MayMove(g, r, decl, now) <==> MovesIt(g, r, decl, now)
  {
    RightsAreBits(g.body.powers);
    VerifyIff(g, r, now);
  }

  lemma {:induction false} FirstMoverIs(gs: seq<Grant>, r: CloseRecord, decl: CellDecl, now: nat)
    ensures match FirstMover(gs, r, decl, now)
            case None => forall g :: g in gs ==> !MovesIt(g, r, decl, now)
            case Some(g) => g in gs && MovesIt(g, r, decl, now)
  {
    if gs != [] {
      MayMoveIff(gs[0], r, decl, now);
      FirstMoverIs(gs[1..], r, decl, now);
      assert forall g :: g in gs <==> g == gs[0] || g in gs[1..];
    }
  }

  ghost predicate SomeMovesIt(gs: seq<Grant>, r: CloseRecord, decl: CellDecl, now: nat) {
    exists g :: g in gs && MovesIt(g, r, decl, now)
  }

  /** A move made with such a grant of the mover's verifies. */
  lemma MadeMoveVerifies(
    r: CloseRecord, decl: CellDecl, head: Option<Entry>, value: Value, mover: Identity, g: Grant, now: nat,
    reason: string)
    requires MovesIt(g, r, decl, now) && g.body.holder == mover.Public()
    ensures VerifyMove(MakeTransition(decl, Tip(head), value, mover, g, now, reason), r, decl).Ok?
  {
    VerifyMoveIff(MakeTransition(decl, Tip(head), value, mover, g, now, reason), r, decl);
  }

  // ---- the head -------------------------------------------------------------------------------

  lemma ContentReachesBack(s: State, who: string, close: CloseId, epoch: nat, epoch': nat, now: nat)
    requires Holds(s, who, close, Content, epoch', now) && epoch <= epoch'
    ensures Holds(s, who, close, Content, epoch, now)
  {
    var g :| g in GrantsOf(s, who) && Gives(g, s.closes[close], Content, epoch', now);
    assert Gives(g, s.closes[close], Content, epoch, now);
  }

  lemma HeadIsAtMost(s: State, c: CipherId, close: CloseId, text: Text)
    requires Inv(s) && StoredAs(s.objects, s.closes, c, TransitionKind, text) && c.envelope.close == close
    ensures c.envelope.epoch <= s.closes[close].epoch
  {
    assert Sound(s.closes[close]);
  }

  /** Whoever holds the current content key opens the move a signpost stands at,
      whatever lock it was sealed under. */
  lemma HeadOpens(s: State, who: string, decl: CellDecl, now: nat)
    requires Inv(s) && SignpostsOk(s) && decl in s.cells
    requires Holds(s, who, decl.close, Content, s.closes[decl.close].epoch, now)
    ensures CellHead(s, who, decl, now).Ok?
  {
    if CellRef(decl.Id()) in s.refs {
      var c := s.refs[CellRef(decl.Id())];
      assert CellOk(s, decl);
      var text := TransitionText(MoveIn(c).value);
      HeadIsAtMost(s, c, decl.close, text);
      ContentReachesBack(s, who, decl.close, c.envelope.epoch, s.closes[decl.close].epoch, now);
      OpensIff(s, who, c, TransitionKind, text, Content, now);
    }
  }

  // ---- the guard ---------------------------------------------------------------------------------

  /** The commit that a slot is to be pinned to is the one it is pinned to, or the
      mover sees that it descends from that. */
  ghost predicate GoesOn(read: Reader, before: Value, slot: Slot) {
    slot.name in before ==>
      before[slot.name].commit == slot.commit || IsDescendantOf(read, before[slot.name].commit, slot.commit)
  }

  /** Every guarded slot goes on from where it is pinned to the last pin given. */
  ghost predicate MayGo(read: Reader, guarded: seq<string>, before: Value, slots: seq<Slot>) {
    forall i :: 0 <= i < |slots| && LastNamed(slots, i) && slots[i].name in guarded ==> GoesOn(read, before, slots[i])
  }

  lemma GuardIff(read: Reader, decl: CellDecl, before: Value, slots: seq<Slot>, oracle: Oracle)
    requires forall a, n :: oracle(a, n) == IsDescendantOf(read, a, n)
    ensures CheckForwardOf(decl, Some(before), Pinned(before, slots), oracle).Ok?
       <==> MayGo(read, decl.forwardOnly, before, slots)
  {
    var after := Pinned(before, slots);
    PinnedIs(before, slots);
    NoneBackwardIff(decl.forwardOnly, before, after, oracle);
    if MayGo(read, decl.forwardOnly, before, slots) {
      forall slot | slot in decl.forwardOnly ensures MovesForward(before, after, slot, oracle) {
        if slot in before && slot in NamesOf(slots) {
          var i :| 0 <= i < |slots| && slots[i].name == slot;
          var last := NameHasLast(slots, i);
          assert GoesOn(read, before, slots[last]);
        }
      }
    }
    if forall slot :: slot in decl.forwardOnly ==> MovesForward(before, after, slot, oracle) {
      forall i | 0 <= i < |slots| && LastNamed(slots, i) && slots[i].name in decl.forwardOnly
        ensures GoesOn(read, before, slots[i])
      {
        assert MovesForward(before, after, slots[i].name, oracle);
      }
    }
  }

  // ---- the whole move ------------------------------------------------------------------------------

  lemma StandsThere(s: State, decl: CellDecl)
    requires Inv(s) && decl in s.cells
    ensures FindCell(s.cells, decl.path) == Some(decl)
  {
    FindCellIs(s.cells, decl.path);
    var i: nat :| i < |s.cells| && s.cells[i] == decl;
    var j: nat :| j < |s.cells| && s.cells[j] == FindCell(s.cells, decl.path).value;
  }

  /** The head that is opened stands for the whole journal. */
  lemma HeadStandsFor(s: State, who: string, decl: CellDecl, now: nat)
    requires Inv(s) && SignpostsOk(s) && decl in s.cells && CellHead(s, who, decl, now).Ok?
    ensures var head := CellHead(s, who, decl, now).value;
            ValueOr(head) == LastValue(TrailOf(s, decl)) && (head.None? ==> TrailOf(s, decl) == [])
  {
    CellHeadIs(s, who, decl, now);
    assert CellOk(s, decl);
    HeadValueIsLast(s, decl, CellHead(s, who, decl, now).value);
  }

  /** What the guard says of a move on the head that is opened. */
  lemma HeadGuardIff(s: State, who: string, decl: CellDecl, slots: seq<Slot>, now: nat, head: Option<Entry>)
    ensures CheckForwardOf(decl, HeadValue(head), Pinned(ValueOr(head), slots), OracleOf(s, who, now)).Ok?
       <==> MayGo(ReaderOf(s, who, now), decl.forwardOnly, ValueOr(head), slots)
  {
    if head.Some? {
      GuardIff(ReaderOf(s, who, now), decl, ValueOr(head), slots, OracleOf(s, who, now));
    }
  }

  /** With authority and key, the guard decides. */
  lemma GuardDecides(
    s: State, who: string, decl: CellDecl, slots: seq<Slot>, reason: string, now: nat, grant: Grant,
    head: Option<Entry>)
    requires Inv(s) && who in s.people && decl.close in s.closes
    requires grant in GrantsOf(s, who) && MovesIt(grant, s.closes[decl.close], decl, now)
    ensures var r, value := s.closes[decl.close], Pinned(ValueOr(head), slots);
            var t := MakeTransition(decl, Tip(head), value, s.people[who], grant, now, reason);
            && VerifyMove(t, r, decl).Ok?
            && Append(s, r, TrueKey(r, r.epoch), decl, t).Ok?
  {
    var t := MakeTransition(decl, Tip(head), Pinned(ValueOr(head), slots), s.people[who], grant, now, reason);
    assert GrantOk(s, who, grant);
    MadeMoveVerifies(s.closes[decl.close], decl, head, t.body.value, s.people[who], grant, now, reason);
    AppendStores(s, decl, t);
  }

  lemma PointAfterKey(
    s: State, who: string, path: string, slots: seq<Slot>, reason: string, now: nat, decl: CellDecl)
    requires Inv(s) && SignpostsOk(s) && decl in s.cells && decl.path == Segments(path) && who in s.people
    requires SomeMovesIt(GrantsOf(s, who), s.closes[decl.close], decl, now)
    requires Holds(s, who, decl.close, Content, s.closes[decl.close].epoch, now)
    ensures CellHead(s, who, decl, now).Ok?
    ensures var p, head := Point(s, who, path, slots, reason, now), CellHead(s, who, decl, now).value;
            if MayGo(ReaderOf(s, who, now), decl.forwardOnly, ValueOr(head), slots) then p.Ok?
            else p.Err? && p.error.CellRefused? && p.error.cellError.NotForward?
  {
    var r := s.closes[decl.close];
    StandsThere(s, decl);
    FirstMoverIs(GrantsOf(s, who), r, decl, now);
    KeyLookupIsExact(s, who, decl.close, Content, r.epoch, now);
    HeadOpens(s, who, decl, now);
    var head := CellHead(s, who, decl, now).value;
    HeadGuardIff(s, who, decl, slots, now, head);
    GuardDecides(s, who, decl, slots, reason, now, FirstMover(GrantsOf(s, who), r, decl, now).value, head);
  }

  /** Exactly when a signpost moves: for someone known who has a grant to move it
      and the current content key of its close, if every guarded slot goes on from
      where it is pinned. Otherwise the first of these that fails is the refusal. */
  lemma PointIff(s: State, who: string, path: string, slots: seq<Slot>, reason: string, now: nat, decl: CellDecl)
    requires Inv(s) && SignpostsOk(s) && decl in s.cells && decl.path == Segments(path)
    ensures var p, r := Point(s, who, path, slots, reason, now), s.closes[decl.close];
            if who !in s.people then p == Err(NoSuchPerson)
            else if !SomeMovesIt(GrantsOf(s, who), r, decl, now) then p == Err(MayNotMove)
            else if !Holds(s, who, decl.close, Content, r.epoch, now) then p == Err(NoCurrentKey)
            else if !MayGo(ReaderOf(s, who, now), decl.forwardOnly, LastValue(TrailOf(s, decl)), slots) then
              p.Err? && p.error.CellRefused? && p.error.cellError.NotForward?
            else p.Ok?
  {
    var r := s.closes[decl.close];
    StandsThere(s, decl);
    if who in s.people {
      FirstMoverIs(GrantsOf(s, who), r, decl, now);
      KeyLookupIsExact(s, who, decl.close, Content, r.epoch, now);
      if SomeMovesIt(GrantsOf(s, who), r, decl, now) && Holds(s, who, decl.close, Content, r.epoch, now) {
        PointAfterKey(s, who, path, slots, reason, now, decl);
        HeadStandsFor(s, who, decl, now);
      }
    }
  }

  /** Nothing moves where no signpost stands. */
  lemma PointNowhere(s: State, who: string, path: string, slots: seq<Slot>, reason: string, now: nat)
    requires forall d :: d in s.cells ==> d.path != Segments(path)
    ensures Point(s, who, path, slots, reason, now) == Err(NoSuchCell)
  {
    FindCellIs(s.cells, Segments(path));
  }

  // ---- the guard on the line of keepings -----------------------------------------------------------

  /** The keeping to be pinned is the one pinned before, or comes at most 10,000
      after it with all after that one, up to and with itself, readable to the mover. */
  ghost predicate GoesOnLine(s: State, who: string, now: nat, before: Value, slot: Slot) {
    slot.name in before ==>
      exists distance: nat :: FoundAt(s, who, now, before[slot.name].commit, slot.commit, distance)
  }

  ghost predicate MayGoOnLine(
    s: State, who: string, now: nat, guarded: seq<string>, before: Value, slots: seq<Slot>)
  {
    forall i :: 0 <= i < |slots| && LastNamed(slots, i) && slots[i].name in guarded ==>
      GoesOnLine(s, who, now, before, slots[i])
  }

  /** What the guard asks of moves to keepings. */
  lemma MayGoIff(s: State, who: string, now: nat, guarded: seq<string>, before: Value, slots: seq<Slot>)
    requires Inv(s) && forall i :: 0 <= i < |slots| ==> KeptLine(s, slots[i].commit)
    ensures MayGo(ReaderOf(s, who, now), guarded, before, slots) <==> MayGoOnLine(s, who, now, guarded, before, slots)
  {
    forall i | 0 <= i < |slots|
      ensures GoesOn(ReaderOf(s, who, now), before, slots[i]) <==> GoesOnLine(s, who, now, before, slots[i])
    {
      if slots[i].name in before {
        var was, will := before[slots[i].name].commit, slots[i].commit;
        KeptDescendantIff(s, who, now, was, will);
        if was == will {
          assert FoundAt(s, who, now, was, will, 0);
        }
      }
    }
  }
}
