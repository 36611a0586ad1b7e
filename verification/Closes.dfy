/** Closes, their epoch chain, and the one-way ladder from content to shape
    (crates/cc-core/src/close.rs). */
module Closes {
  import opened Terms

  datatype Silhouette = OpenOutline | CountedOutline | DarkOutline

  /** One epoch's keys, each sealed under the next epoch's key of its lane. */
  datatype EpochLink = EpochLink(content: Box, shape: Box)

  /** What is published about a close. */
  datatype CloseRecord = CloseRecord(
    id: CloseId, name: string, silhouette: Silhouette, steward: VerifyKey, epoch: nat, chain: seq<EpochLink>)

  /** The public records of many closes. */
  type Records = map<CloseId, CloseRecord>

  // ---- facet keys --------------------------------------------------------------

  function ShapeOf(content: Key, close: CloseId): Key {
    Derived(ForShape, content, OfClose(close))
  }

  function FacetKey(content: Key, close: CloseId, facet: Facet): Option<Key> {
    match facet
    case Content => Some(content)
    case Shape => Some(ShapeOf(content, close))
    case Presence => None
  }

  function LowerFacetKey(key: Key, have: Facet, want: Facet, close: CloseId): Option<Key> {
    if !want.AtMost(have) then None
    else match (have, want)
      case (Content, w) => FacetKey(key, close, w)
      case (Shape, Shape) => Some(key)
      case _ => None
  }

  function ObjectKey(facetKey: Key, plain: PlainId): Key {
    Derived(ForObject, facetKey, OfPlain(plain))
  }

  /** Lowering in two steps is lowering in one. */
  lemma LoweringComposes(content: Key, middle: Facet, low: Facet, close: CloseId)
    requires low.AtMost(middle) && middle != Presence
    ensures LowerFacetKey(LowerFacetKey(content, Content, middle, close).value, middle, low, close)
         == LowerFacetKey(content, Content, low, close)
  {
  }

  // ---- founding and rotating ---------------------------------------------------

  function FirstKey(id: CloseId): Key {
    Derived(ForEpoch0, id.seed, OfClose(id))
  }

  function Found(name: string, silhouette: Silhouette, steward: VerifyKey, seed: Key): (CloseRecord, Key) {
    var id := CloseId(steward, seed, name);
    (CloseRecord(id, name, silhouette, steward, 0, []), FirstKey(id))
  }

  function LinkOf(id: CloseId, epoch: nat, newer: Key, older: Key): EpochLink {
    EpochLink(
      Box(newer, ChainAad(id, epoch, Content), KeyText(older)),
      Box(ShapeOf(newer, id), ChainAad(id, epoch, Shape), KeyText(ShapeOf(older, id))))
  }

  function NextKey(id: CloseId, minted: Key): Key {
    Derived(ForRotation, minted, OfClose(id))
  }

  /** The record after the lock is changed by someone presenting `current`. */
  function Rotated(r: CloseRecord, current: Key, minted: Key): CloseRecord {
    r.(chain := r.chain + [LinkOf(r.id, r.epoch, NextKey(r.id, minted), current)], epoch := r.epoch + 1)
  }

  // ---- walking back --------------------------------------------------------------

  function Walk(r: CloseRecord, key: Key, have: nat, want: nat, lane: Facet): Result<Key, Error>
    decreases have
  {
    if want > have then Err(EpochUnreachable(have, want))
    else if have == want then Ok(key)
    else if have > |r.chain| then Err(EpochUnreachable(have, want))
    else if lane == Presence then Err(NoKey)
    else
      var link := r.chain[have - 1];
      var older :- OpenKey(key, ChainAad(r.id, have - 1, lane), if lane == Content then link.content else link.shape);
      Walk(r, older, have - 1, want, lane)
  }

  function BindingKey(r: CloseRecord, key: Key, have: nat): Result<Key, Error> {
    var first :- Walk(r, key, have, 0, Content);
    Ok(Derived(ForBinding, first, OfClose(r.id)))
  }

  /** A record held for change: `rotate` updates it in place. */
  class LiveRecord {
    const id: CloseId
    const name: string
    const silhouette: Silhouette
    const steward: VerifyKey
    var epoch: nat
    var chain: seq<EpochLink>

    function View(): CloseRecord
      reads this
    {
      CloseRecord(id, name, silhouette, steward, epoch, chain)
    }

    constructor Load(r: CloseRecord)
      ensures View() == r
    {
      id, name, silhouette, steward := r.id, r.name, r.silhouette, r.steward;
      epoch, chain := r.epoch, r.chain;
    }

    method Rotate(current: Key, minted: Key) returns (newKey: Key)
      modifies this
      ensures View() == Rotated(old(View()), current, minted)
      ensures newKey == NextKey(id, minted)
    {
      newKey := Derived(ForRotation, minted, OfClose(id));
      var oldShape := FacetKey(current, id, Shape).value;
      var newShape := FacetKey(newKey, id, Shape).value;
      var link := EpochLink(
        Box(newKey, ChainAad(id, epoch, Content), KeyText(current)),
        Box(newShape, ChainAad(id, epoch, Shape), KeyText(oldShape)));
      chain := chain + [link];
      epoch := epoch + 1;
    }

    method WalkChain(keyAtHave: Key, have: nat, want: nat, lane: Facet) returns (result: Result<Key, Error>)
      ensures result == Walk(View(), keyAtHave, have, want, lane)
    {
      if want > have {
        return Err(EpochUnreachable(have, want));
      }
      var key, at := keyAtHave, have;
      while at > want
        invariant want <= at <= have
        invariant Walk(View(), keyAtHave, have, want, lane) == Walk(View(), key, at, want, lane)
      {
        if at > |chain| {
          return Err(EpochUnreachable(at, want));
        }
        if lane == Presence {
          return Err(NoKey);
        }
        var wrapped := if lane == Content then chain[at - 1].content else chain[at - 1].shape;
        var older := OpenKey(key, ChainAad(id, at - 1, lane), wrapped);
        if older.Err? {
          return Err(older.error);
        }
        key, at := older.value, at - 1;
      }
      return Ok(key);
    }
  }

  // ---- the true keys of a record -----------------------------------------------

  /** The content key of epoch `i`: the founding key, or the key under which
      the link of epoch `i - 1` is sealed. */
  ghost function TrueKey(r: CloseRecord, i: nat): Key
    requires i <= |r.chain|
  {
    if i == 0 then FirstKey(r.id) else r.chain[i - 1].content.key
  }

  ghost function TrueFacetKey(r: CloseRecord, facet: Facet, i: nat): Option<Key>
    requires i <= |r.chain|
  {
    FacetKey(TrueKey(r, i), r.id, facet)
  }

  /** The link of epoch `i` seals the true keys of its epoch under those of the next. */
  ghost predicate LinkSound(r: CloseRecord, i: nat)
    requires i < |r.chain|
  {
    r.chain[i] == LinkOf(r.id, i, TrueKey(r, i + 1), TrueKey(r, i))
  }

  /** The chain has one link an epoch, and every link is sound. */
  ghost predicate Sound(r: CloseRecord) {
    && |r.chain| == r.epoch
    && r.id.steward == r.steward
    && forall i: nat :: i < r.epoch ==> LinkSound(r, i)
  }

  /** `r'` is `r` after zero or more lock changes. */
  ghost predicate Grew(r: CloseRecord, r': CloseRecord) {
    && r'.id == r.id && r'.name == r.name && r'.silhouette == r.silhouette && r'.steward == r.steward
    && r.epoch <= r'.epoch
    && r.chain <= r'.chain
  }

  lemma FoundIsSound(name: string, silhouette: Silhouette, steward: VerifyKey, seed: Key)
    ensures var (r, key) := Found(name, silhouette, steward, seed);
            Sound(r) && key == TrueKey(r, 0)
  {
  }

  /** A lock change fed the current key keeps the record sound, and moves no
      older key. */
  lemma RotateIsSound(r: CloseRecord, minted: Key)
    requires Sound(r)
    ensures var r' := Rotated(r, TrueKey(r, r.epoch), minted);
            Sound(r') && Grew(r, r') && TrueKey(r', r'.epoch) == NextKey(r.id, minted)
  {
    var r' := Rotated(r, TrueKey(r, r.epoch), minted);
    forall i: nat | i < r'.epoch
      ensures LinkSound(r', i)
    {
      assert TrueKey(r', i) == TrueKey(r, i);
      if i < r.epoch {
        assert LinkSound(r, i);
        assert TrueKey(r', i + 1) == TrueKey(r, i + 1);
      }
    }
  }

  /** Walking from the true key of epoch `i` reaches the true key of every
      epoch at or before it, in either lane, and nothing later. */
  lemma {:induction false} WalkIsExact(r: CloseRecord, i: nat, j: nat, lane: Facet)
    requires Sound(r) && i <= r.epoch && lane != Presence
    ensures Walk(r, TrueFacetKey(r, lane, i).value, i, j, lane)
         == if j <= i then Ok(TrueFacetKey(r, lane, j).value) else Err(EpochUnreachable(i, j))
  {
    if j < i {
      assert LinkSound(r, i - 1);
      WalkIsExact(r, i - 1, j, lane);
    }
  }

  /** Walking and lowering commute. */
  lemma LanesCommute(r: CloseRecord, i: nat, j: nat)
    requires Sound(r) && j <= i <= r.epoch
    ensures var content := Walk(r, TrueKey(r, i), i, j, Content);
            content.Ok? && Walk(r, ShapeOf(TrueKey(r, i), r.id), i, j, Shape) == Ok(ShapeOf(content.value, r.id))
  {
    WalkIsExact(r, i, j, Content);
    WalkIsExact(r, i, j, Shape);
  }

  ghost function TrueBinding(r: CloseRecord): Key {
    Derived(ForBinding, FirstKey(r.id), OfClose(r.id))
  }

  /** The binding key is the same from every epoch and after every lock change. */
  lemma BindingIsStable(r: CloseRecord, r': CloseRecord, i: nat)
    requires Sound(r') && Grew(r, r') && i <= r'.epoch
    ensures BindingKey(r', TrueKey(r', i), i) == Ok(TrueBinding(r))
  {
    WalkIsExact(r', i, 0, Content);
  }

  /** A key that is not a true key of its epoch walks nowhere. */
  lemma WrongKeyWalksNowhere(r: CloseRecord, key: Key, i: nat, j: nat, lane: Facet)
    requires Sound(r) && j < i && lane != Presence
    requires i <= r.epoch ==> key != TrueFacetKey(r, lane, i).value
    ensures Walk(r, key, i, j, lane).Err?
  {
    if i <= r.epoch {
      assert LinkSound(r, i - 1);
    }
  }

  lemma GrewKeepsKeys(r: CloseRecord, r': CloseRecord, i: nat)
    requires Grew(r, r') && i <= |r.chain|
    ensures i <= |r'.chain| && TrueKey(r', i) == TrueKey(r, i)
  {
  }
}
