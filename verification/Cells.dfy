/** Signposts: cells that stand where the last entry of a chained, signed journal
    puts them (crates/cc-cell/src/lib.rs). */
module Cells {
  import opened Terms
  import opened Closes
  import opened Grants
  import opened Seals
  import opened Paths

  datatype CellError =
    | Core(error: Error)
    | BadMoveSignature
    | NotAuthorized(why: string)
    | BadSeq(expected: nat, found: nat)
    | BadPrev
    | NotForward(slot: string)

  datatype CellDecl = CellDecl(path: seq<string>, close: CloseId, kind: string, forwardOnly: seq<string>) {
    function Id(): CellId {
      CellId(close, Spelled(path))
    }
  }

  /** A signpost's identity tells its close and its path. */
  lemma CellIdIsInjective(d: CellDecl, d': CellDecl)
    requires Clean(d.path) && Clean(d'.path)
    ensures d.Id() == d'.Id() <==> d.close == d'.close && d.path == d'.path
  {
    if d.Id() == d'.Id() {
      SpellingIsInjective(d.path, d'.path);
    }
  }

  function MakeTransition(
    decl: CellDecl, head: Option<(CipherId, nat)>, value: Value, mover: Identity, grant: Grant,
    when: nat, reason: string): Transition
  {
    var prev := if head.Some? then Some(head.value.0) else None;
    var seqNo := if head.Some? then head.value.1 + 1 else 0;
    var body := TransitionBody(decl.Id(), seqNo, prev, value, mover.Public(), when, reason, grant);
    Transition(body, TransitionSig(mover.VerifyingKey(), body))
  }

  function VerifyMove(t: Transition, r: CloseRecord, decl: CellDecl): Result<(), CellError> {
    var b := t.body;
    var g := b.grant;
    if t.sig != TransitionSig(b.mover.sign, b) then Err(BadMoveSignature)
    else if b.cell != decl.Id() then Err(NotAuthorized("grant is for a different cell"))
    else if g.body.close != decl.close then Err(NotAuthorized("grant is for a different close"))
    else if g.body.holder.sign != b.mover.sign then Err(NotAuthorized("mover is not the grant's holder"))
    else if !HasPowers(g.body.powers, SET) then Err(NotAuthorized("grant carries no point power"))
    else if !Covers(g, decl.path) then Err(NotAuthorized("grant does not cover this path"))
    else if Verify(g, r, b.when).Err? then Err(NotAuthorized("grant chain does not verify at that time"))
    else Ok(())
  }

  /** A move verifies exactly if the mover signed it, it names this cell, and the
      grant it carries is the mover's, of the cell's close, with the right to point
      (the second bit), over this path, and authentic when the move was made. */
  lemma VerifyMoveIff(t: Transition, r: CloseRecord, decl: CellDecl)
    ensures var b, g := t.body, t.body.grant;
            VerifyMove(t, r, decl).Ok? <==>
            && t.sig == TransitionSig(b.mover.sign, b)
            && b.cell == CellId(decl.close, Spelled(decl.path))
            && g.body.close == decl.close && g.body.holder.sign == b.mover.sign
            && g.body.powers & 2 != 0
            && g.body.prefix <= decl.path
            && Authentic(Lineage(g), r.steward, b.when)
  {
    RightsAreBits(t.body.grant.body.powers);
    VerifyIff(t.body.grant, r, t.body.when);
  }

  function CheckLink(t: Transition, head: Option<(CipherId, nat)>): Result<(), CellError> {
    match (head, t.body.prev)
    case (None, None) => if t.body.seqNo == 0 then Ok(()) else Err(BadSeq(0, t.body.seqNo))
    case (Some((cipher, seqNo)), Some(prev)) =>
      if prev != cipher then Err(BadPrev)
      else if t.body.seqNo != seqNo + 1 then Err(BadSeq(seqNo + 1, t.body.seqNo))
      else Ok(())
    case _ => Err(BadPrev)
  }

  function Decimal(n: nat): string {
    (if n < 10 then "" else Decimal(n / 10)) + [['0', '1', '2', '3', '4', '5', '6', '7', '8', '9'][n % 10]]
  }

  /** The label of a move names its number and its mover, not where it points. */
  function TransitionCard(seqNo: nat, mover: string): ShapeCard {
    ShapeCard("signpost moved", "cell/transition", "\U{2014}", "move #" + Decimal(seqNo) + " by " + mover)
  }

  function SealTransition(r: CloseRecord, contentKey: Key, epoch: nat, t: Transition): Result<SealedObject, Error> {
    Seal(r, contentKey, epoch, TransitionKind, TransitionCard(t.body.seqNo, t.body.mover.name), TransitionText(t))
  }

  function OpenTransition(o: SealedObject, contentKey: Key): Result<Transition, Error> {
    var text :- OpenPayload(o, contentKey);
    if text.TransitionText? then Ok(text.transition) else Err(Sealed)
  }

  // ---- the forward-only guard --------------------------------------------------------

  type Oracle = (CipherId, CipherId) -> bool

  predicate MovesForward(head: Value, next: Value, slot: string, isDescendant: Oracle) {
    slot in head && slot in next ==>
      head[slot].commit == next[slot].commit || isDescendant(head[slot].commit, next[slot].commit)
  }

  /** The guard passes exactly when every guarded slot that is pinned on both
      sides stays put or moves to a descendant; a refusal names the first that
      does not. */
  method CheckForward(decl: CellDecl, head: Option<Value>, next: Value, isDescendant: Oracle)
    returns (result: Result<(), CellError>)
    ensures result.Ok? <==> head.Some? ==>
              forall slot :: slot in decl.forwardOnly ==> MovesForward(head.value, next, slot, isDescendant)
    ensures result == CheckForwardOf(decl, head, next, isDescendant)
  {
    if head.None? {
      return Ok(());
    }
    for i := 0 to |decl.forwardOnly|
      invariant forall k :: 0 <= k < i ==> MovesForward(head.value, next, decl.forwardOnly[k], isDescendant)
      invariant FirstBackward(decl.forwardOnly, head.value, next, isDescendant)
             == FirstBackward(decl.forwardOnly[i..], head.value, next, isDescendant)
    {
      var slot := decl.forwardOnly[i];
      if slot in head.value && slot in next {
        var was, will := head.value[slot].commit, next[slot].commit;
        if was != will && !isDescendant(was, will) {
          return Err(NotForward(slot));
        }
      }
    }
    return Ok(());
  }

  function FirstBackward(slots: seq<string>, head: Value, next: Value, isDescendant: Oracle): Option<string> {
    if slots == [] then None
    else if !MovesForward(head, next, slots[0], isDescendant) then Some(slots[0])
    else FirstBackward(slots[1..], head, next, isDescendant)
  }

  function CheckForwardOf(decl: CellDecl, head: Option<Value>, next: Value, isDescendant: Oracle)
    : Result<(), CellError>
  {
    if head.None? then Ok(())
    else match FirstBackward(decl.forwardOnly, head.value, next, isDescendant)
      case None => Ok(())
      case Some(slot) => Err(NotForward(slot))
  }

  lemma {:induction false} NoneBackwardIff(slots: seq<string>, head: Value, next: Value, isDescendant: Oracle)
    ensures FirstBackward(slots, head, next, isDescendant).None? <==>
            forall slot :: slot in slots ==> MovesForward(head, next, slot, isDescendant)
  {
    if slots != [] {
      NoneBackwardIff(slots[1..], head, next, isDescendant);
      assert forall slot :: slot in slots <==> slot == slots[0] || slot in slots[1..];
    }
  }

  /** The slot that is named is the first that does not move forward. */
  lemma {:induction false} FirstBackwardIs(slots: seq<string>, head: Value, next: Value, isDescendant: Oracle)
    returns (i: nat)
    requires FirstBackward(slots, head, next, isDescendant).Some?
    ensures i < |slots| && FirstBackward(slots, head, next, isDescendant) == Some(slots[i])
    ensures !MovesForward(head, next, slots[i], isDescendant)
    ensures forall j :: 0 <= j < i ==> MovesForward(head, next, slots[j], isDescendant)
  {
    i := 0;
    if MovesForward(head, next, slots[0], isDescendant) {
      i := FirstBackwardIs(slots[1..], head, next, isDescendant);
      i := i + 1;
    }
  }

  // ---- folding a journal --------------------------------------------------------------

  type Entry = (CipherId, Transition)

  function Tip(head: Option<Entry>): Option<(CipherId, nat)> {
    if head.Some? then Some((head.value.0, head.value.1.body.seqNo)) else None
  }

  function FoldFrom(r: CloseRecord, decl: CellDecl, head: Option<Entry>, journal: seq<Entry>)
    : Result<Option<Transition>, CellError>
    decreases |journal|
  {
    if journal == [] then Ok(if head.Some? then Some(head.value.1) else None)
    else
      var _ :- VerifyMove(journal[0].1, r, decl);
      var _ :- CheckLink(journal[0].1, Tip(head));
      FoldFrom(r, decl, Some(journal[0]), journal[1..])
  }

  function FoldOf(r: CloseRecord, decl: CellDecl, journal: seq<Entry>): Result<Option<Transition>, CellError> {
    FoldFrom(r, decl, None, journal)
  }

  method Fold(r: CloseRecord, decl: CellDecl, journal: seq<Entry>)
    returns (result: Result<Option<Transition>, CellError>)
    ensures result == FoldOf(r, decl, journal)
  {
    var head: Option<Entry> := None;
    for i := 0 to |journal|
      invariant FoldOf(r, decl, journal) == FoldFrom(r, decl, head, journal[i..])
    {
      var (cipher, t) := journal[i];
      var verified := VerifyMove(t, r, decl);
      if verified.Err? {
        return Err(verified.error);
      }
      var linked := CheckLink(t, Tip(head));
      if linked.Err? {
        return Err(linked.error);
      }
      head := Some(journal[i]);
      assert journal[i..][1..] == journal[i + 1..];
    }
    return Ok(if head.Some? then Some(head.value.1) else None);
  }

  /** Entry `k` stands at position `k` and names the address before it. */
  ghost predicate InPlace(journal: seq<Entry>, k: nat)
    requires k < |journal|
  {
    && journal[k].1.body.seqNo == k
    && journal[k].1.body.prev == if k == 0 then None else Some(journal[k - 1].0)
  }

  ghost predicate GoodMove(r: CloseRecord, decl: CellDecl, journal: seq<Entry>, k: nat)
    requires k < |journal|
  {
    VerifyMove(journal[k].1, r, decl).Ok? && InPlace(journal, k)
  }

  ghost predicate Folds(r: CloseRecord, decl: CellDecl, journal: seq<Entry>) {
    forall k: nat :: k < |journal| ==> GoodMove(r, decl, journal, k)
  }

  lemma LinksIff(journal: seq<Entry>, k: nat)
    requires k < |journal| && (k > 0 ==> InPlace(journal, k - 1))
    ensures CheckLink(journal[k].1, Tip(if k == 0 then None else Some(journal[k - 1]))).Ok? <==> InPlace(journal, k)
  {
  }

  function HeadAt(journal: seq<Entry>, k: nat): Option<Entry>
    requires k <= |journal|
  {
    if k == 0 then None else Some(journal[k - 1])
  }

  lemma FoldStep(r: CloseRecord, decl: CellDecl, journal: seq<Entry>, k: nat)
    requires k < |journal| && (k > 0 ==> InPlace(journal, k - 1))
    ensures GoodMove(r, decl, journal, k) ==>
              FoldFrom(r, decl, HeadAt(journal, k), journal[k..])
              == FoldFrom(r, decl, HeadAt(journal, k + 1), journal[k + 1..])
    ensures !GoodMove(r, decl, journal, k) ==> FoldFrom(r, decl, HeadAt(journal, k), journal[k..]).Err?
  {
    assert journal[k..][0] == journal[k] && journal[k..][1..] == journal[k + 1..];
    LinksIff(journal, k);
  }

  lemma FoldEnds(r: CloseRecord, decl: CellDecl, journal: seq<Entry>)
    ensures FoldFrom(r, decl, HeadAt(journal, |journal|), journal[|journal|..])
         == Ok(if journal == [] then None else Some(journal[|journal| - 1].1))
  {
  }

  /** The moves from the `k`th on are good. */
  ghost predicate GoodFrom(r: CloseRecord, decl: CellDecl, journal: seq<Entry>, k: nat)
    requires k <= |journal|
    decreases |journal| - k
  {
    k == |journal| || (GoodMove(r, decl, journal, k) && GoodFrom(r, decl, journal, k + 1))
  }

  lemma {:induction false} GoodFromAll(r: CloseRecord, decl: CellDecl, journal: seq<Entry>, k: nat)
    requires k <= |journal|
    ensures GoodFrom(r, decl, journal, k) <==> forall i: nat :: k <= i < |journal| ==> GoodMove(r, decl, journal, i)
    decreases |journal| - k
  {
    if k < |journal| {
      GoodFromAll(r, decl, journal, k + 1);
    }
  }

  lemma {:induction false} FoldFromIff(r: CloseRecord, decl: CellDecl, journal: seq<Entry>, k: nat)
    requires k <= |journal| && (k > 0 ==> InPlace(journal, k - 1))
    ensures FoldFrom(r, decl, HeadAt(journal, k), journal[k..]).Ok? <==> GoodFrom(r, decl, journal, k)
    ensures GoodFrom(r, decl, journal, k) ==>
            FoldFrom(r, decl, HeadAt(journal, k), journal[k..])
            == Ok(if journal == [] then None else Some(journal[|journal| - 1].1))
    decreases |journal| - k
  {
    if k == |journal| {
      FoldEnds(r, decl, journal);
    } else {
      FoldStep(r, decl, journal, k);
      if GoodMove(r, decl, journal, k) {
        FoldFromIff(r, decl, journal, k + 1);
      }
    }
  }

  /** A journal folds exactly when every move verifies, stands at its own
      position and names the address before it; its value is then the last move. */
  lemma FoldIff(r: CloseRecord, decl: CellDecl, journal: seq<Entry>)
    ensures FoldOf(r, decl, journal).Ok? <==> Folds(r, decl, journal)
    ensures Folds(r, decl, journal) ==>
            FoldOf(r, decl, journal) == Ok(if journal == [] then None else Some(journal[|journal| - 1].1))
  {
    assert journal[0..] == journal;
    GoodFromAll(r, decl, journal, 0);
    FoldFromIff(r, decl, journal, 0);
  }

  function RefusalOf(r: CloseRecord, decl: CellDecl, journal: seq<Entry>, k: nat): CellError
    requires k < |journal|
  {
    var t := journal[k].1;
    if VerifyMove(t, r, decl).Err? then VerifyMove(t, r, decl).error
    else if t.body.prev != (if k == 0 then None else Some(journal[k - 1].0)) then BadPrev
    else BadSeq(k, t.body.seqNo)
  }

  lemma RefusedHere(r: CloseRecord, decl: CellDecl, journal: seq<Entry>, k: nat)
    requires k < |journal| && !GoodMove(r, decl, journal, k) && (k > 0 ==> InPlace(journal, k - 1))
    ensures FoldFrom(r, decl, HeadAt(journal, k), journal[k..]) == Err(RefusalOf(r, decl, journal, k))
  {
    assert journal[k..][0] == journal[k];
  }

  /** A journal that does not fold is refused for its first bad move: if that does
      not verify for the reason it does not, and if it does for not naming the
      address before it, or else for its number. */
  lemma {:induction false} FoldRefuses(r: CloseRecord, decl: CellDecl, journal: seq<Entry>, k: nat, bad: nat)
    requires k <= bad < |journal| && !GoodMove(r, decl, journal, bad) && (k > 0 ==> InPlace(journal, k - 1))
    requires forall i: nat :: k <= i < bad ==> GoodMove(r, decl, journal, i)
    ensures FoldFrom(r, decl, HeadAt(journal, k), journal[k..]) == Err(RefusalOf(r, decl, journal, bad))
    decreases bad - k
  {
    if k == bad {
      RefusedHere(r, decl, journal, k);
    } else {
      assert GoodMove(r, decl, journal, k);
      FoldStep(r, decl, journal, k);
      FoldRefuses(r, decl, journal, k + 1, bad);
    }
  }

  /** The address is that of an envelope that seals the move. */
  ghost predicate Addresses(e: Entry) {
    e.0.envelope.contentCt.text == TransitionText(e.1)
  }

  /** Journals are tamper-evident: two that fold and end at the same address are
      the same journal from the first move on. */
  lemma JournalsAreTamperEvident(
    r: CloseRecord, decl: CellDecl, r': CloseRecord, decl': CellDecl, j: seq<Entry>, j': seq<Entry>)
    requires FoldOf(r, decl, j).Ok? && FoldOf(r', decl', j').Ok?
    requires forall e :: e in j ==> Addresses(e)
    requires forall e :: e in j' ==> Addresses(e)
    requires |j| > 0 && |j'| > 0 && j[|j| - 1].0 == j'[|j'| - 1].0
    ensures j == j'
  {
    FoldIff(r, decl, j);
    FoldIff(r', decl', j');
    var n := |j|;
    assert j[n - 1] in j && j'[|j'| - 1] in j';
    assert Addresses(j[n - 1]) && Addresses(j'[|j'| - 1]);
    assert GoodMove(r, decl, j, n - 1) && GoodMove(r', decl', j', |j'| - 1);
    SamePrefix(r, decl, r', decl', j, j', n);
    assert j[..n] == j && j'[..n] == j';
  }

  lemma {:induction false} SamePrefix(
    r: CloseRecord, decl: CellDecl, r': CloseRecord, decl': CellDecl, j: seq<Entry>, j': seq<Entry>, n: nat)
    requires Folds(r, decl, j) && Folds(r', decl', j')
    requires forall e :: e in j ==> Addresses(e)
    requires forall e :: e in j' ==> Addresses(e)
    requires n <= |j| && n <= |j'|
    requires n > 0 ==> j[n - 1].0 == j'[n - 1].0
    ensures j[..n] == j'[..n]
  {
    if n > 0 {
      assert j[n - 1] in j && j'[n - 1] in j';
      assert Addresses(j[n - 1]) && Addresses(j'[n - 1]);
      assert GoodMove(r, decl, j, n - 1) && GoodMove(r', decl', j', n - 1);
      SamePrefix(r, decl, r', decl', j, j', n - 1);
      assert j[..n] == j[..n - 1] + [j[n - 1]] && j'[..n] == j'[..n - 1] + [j'[n - 1]];
    }
  }

  /** At most one ordering of a set of moves folds. */
  lemma OneOrderingFolds(r: CloseRecord, decl: CellDecl, j: seq<Entry>, j': seq<Entry>)
    requires FoldOf(r, decl, j).Ok? && FoldOf(r, decl, j').Ok?
    requires forall e :: e in j <==> e in j'
    ensures j == j'
  {
    FoldIff(r, decl, j);
    FoldIff(r, decl, j');
    EachInPlace(r, decl, j, j');
    EachInPlace(r, decl, j', j);
  }

  lemma EachInPlace(r: CloseRecord, decl: CellDecl, j: seq<Entry>, j': seq<Entry>)
    requires Folds(r, decl, j) && Folds(r, decl, j')
    requires forall e :: e in j ==> e in j'
    ensures |j| <= |j'| && forall k :: 0 <= k < |j| ==> j[k] == j'[k]
  {
    forall k: nat | k < |j| ensures k < |j'| && j[k] == j'[k] {
      assert j[k] in j';
      var i: nat :| i < |j'| && j'[i] == j[k];
      assert GoodMove(r, decl, j, k) && GoodMove(r, decl, j', i);
    }
    assert |j| > 0 ==> j[|j| - 1] in j' && |j| - 1 < |j'|;
  }
}
