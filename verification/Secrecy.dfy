/** What can be learned: everything that can be computed from public epoch
    chains, boxes and some held keys by deriving, sealing and opening. */
module Secrecy {
  import opened Terms
  import opened Closes

  // ---- computing ------------------------------------------------------------------

  /** A key is the item `Plain(KeyText(key))`. */
  datatype Item = Plain(text: Text) | Boxed(box: Box)

  /** A computation over known items. */
  datatype Recipe =
    | Given(item: Item)
    | Derive(purpose: Purpose, key: Recipe, material: Material)
    | SealUp(key: Recipe, aad: Aad, text: Recipe)
    | OpenUp(box: Recipe, key: Recipe)

  function AsKey(key: Key): Item { Plain(KeyText(key)) }

  ghost predicate IsKey(item: Option<Item>) {
    item.Some? && item.value.Plain? && item.value.text.KeyText?
  }

  /** What a computation yields, if every step of it is possible. */
  ghost function Yield(known: iset<Item>, c: Recipe): Option<Item> {
    match c
    case Given(item) => if item in known then Some(item) else None
    case Derive(purpose, key, material) =>
      var k := Yield(known, key);
      if IsKey(k) then Some(AsKey(Derived(purpose, k.value.text.key, material))) else None
    case SealUp(key, aad, text) =>
      var k, t := Yield(known, key), Yield(known, text);
      if IsKey(k) && t.Some? && t.value.Plain? then Some(Boxed(Box(k.value.text.key, aad, t.value.text))) else None
    case OpenUp(box, key) =>
      var b, k := Yield(known, box), Yield(known, key);
      if IsKey(k) && b.Some? && b.value.Boxed? && b.value.box.key == k.value.text.key
      then Some(Plain(b.value.box.text)) else None
  }

  ghost predicate Learnable(known: iset<Item>, text: Text) {
    exists c :: Yield(known, c) == Some(Plain(text))
  }

  ghost predicate Computable(known: iset<Item>, key: Key) {
    Learnable(known, KeyText(key))
  }

  lemma DerivedIsComputable(known: iset<Item>, purpose: Purpose, key: Key, material: Material)
    requires Computable(known, key)
    ensures Computable(known, Derived(purpose, key, material))
  {
    var c :| Yield(known, c) == Some(Plain(KeyText(key)));
    assert Yield(known, Derive(purpose, c, material)) == Some(Plain(KeyText(Derived(purpose, key, material))));
  }

  // ---- seeds ---------------------------------------------------------------------------

  ghost predicate Epoch(closes: Records, id: CloseId, epoch: nat) {
    id in closes && epoch <= |closes[id].chain|
  }

  /** The seed behind the content key of an epoch. */
  ghost function SeedAt(closes: Records, id: CloseId, epoch: nat): Key
    requires Epoch(closes, id, epoch)
  {
    if epoch == 0 then id.seed
    else
      var key := TrueKey(closes[id], epoch);
      if key.Derived? then key.from else key
  }

  ghost predicate SeededAt(closes: Records, id: CloseId, epoch: nat)
    requires Epoch(closes, id, epoch)
  {
    && SeedAt(closes, id, epoch).Seed?
    && (epoch > 0 ==> TrueKey(closes[id], epoch) == NextKey(id, SeedAt(closes, id, epoch)))
  }

  /** Every epoch of every close has a seed of its own. */
  ghost predicate SeedsApart(closes: Records) {
    && (forall id, i: nat :: Epoch(closes, id, i) ==> SeededAt(closes, id, i))
    && (forall id, i: nat, id', j: nat :: Epoch(closes, id, i) && Epoch(closes, id', j) && (id, i) != (id', j) ==>
          SeedAt(closes, id, i) != SeedAt(closes, id', j))
  }

  ghost predicate AllSound(closes: Records) {
    forall id :: id in closes ==> closes[id].id == id && Sound(closes[id])
  }

  // ---- an over-approximation of what can be computed -------------------------------------

  /** What is held of each close: the last epoch whose content key, and the last
      whose shape key, is held, -1 for none; the known Diffie-Hellman secrets; and
      the texts, none of them a key, that are still to be hidden. */
  datatype Reach = Reach(secrets: iset<nat>, content: CloseId -> int, shape: CloseId -> int, hidden: iset<Text>)

  ghost predicate Bounds(closes: Records, k: Reach) {
    && AllSound(closes) && SeedsApart(closes)
    && forall text :: text in k.hidden ==> !text.KeyText?
  }

  /** The shape key derived from `from` with this material is one that is held. */
  ghost predicate ShapeHeld(closes: Records, k: Reach, from: Key, material: Material) {
    exists id, i: nat ::
      Epoch(closes, id, i) && i <= k.shape(id) && from == TrueKey(closes[id], i) && material == OfClose(id)
  }

  /** A seed of no epoch later than those held. */
  ghost predicate SeedHeld(closes: Records, k: Reach, seed: Key) {
    forall id, i: nat :: Epoch(closes, id, i) && SeedAt(closes, id, i) == seed ==> i <= k.content(id)
  }

  ghost predicate SafeKey(closes: Records, k: Reach, key: Key)
    decreases key
  {
    match key
    case Seed(_) => SeedHeld(closes, k, key)
    case Shared(a, b) => a in k.secrets || b in k.secrets
    case Derived(purpose, from, material) =>
      SafeKey(closes, k, from) || (purpose == ForShape && ShapeHeld(closes, k, from, material))
  }

  ghost predicate SafeText(closes: Records, k: Reach, text: Text) {
    text !in k.hidden && (text.KeyText? ==> SafeKey(closes, k, text.key))
  }

  ghost predicate SafeItem(closes: Records, k: Reach, item: Item) {
    match item
    case Plain(text) => SafeText(closes, k, text)
    case Boxed(box) => SafeKey(closes, k, box.key) ==> SafeText(closes, k, box.text)
  }

  /** No computation leads from safe items to an unsafe one. */
  lemma {:induction false} YieldIsSafe(closes: Records, k: Reach, known: iset<Item>, c: Recipe)
    requires Bounds(closes, k)
    requires forall item :: item in known ==> SafeItem(closes, k, item)
    ensures Yield(known, c).Some? ==> SafeItem(closes, k, Yield(known, c).value)
  {
    match c
    case Given(item) =>
    case Derive(purpose, key, material) =>
      YieldIsSafe(closes, k, known, key);
    case SealUp(key, aad, text) =>
      YieldIsSafe(closes, k, known, key);
      YieldIsSafe(closes, k, known, text);
    case OpenUp(box, key) =>
      YieldIsSafe(closes, k, known, box);
      YieldIsSafe(closes, k, known, key);
  }

  lemma UnsafeIsSecret(closes: Records, k: Reach, known: iset<Item>, text: Text)
    requires Bounds(closes, k) && !SafeText(closes, k, text)
    requires forall item :: item in known ==> SafeItem(closes, k, item)
    ensures !Learnable(known, text)
  {
    if c :| Yield(known, c) == Some(Plain(text)) {
      YieldIsSafe(closes, k, known, c);
    }
  }

  // ---- which true keys are safe ------------------------------------------------------------

  lemma SeedIsSafeIff(closes: Records, k: Reach, id: CloseId, i: nat)
    requires Bounds(closes, k) && Epoch(closes, id, i)
    ensures SafeKey(closes, k, SeedAt(closes, id, i)) <==> i <= k.content(id)
  {
    assert SeededAt(closes, id, i);
  }

  lemma TrueKeyIs(closes: Records, id: CloseId, i: nat)
    requires AllSound(closes) && SeedsApart(closes) && Epoch(closes, id, i)
    ensures TrueKey(closes[id], i)
         == Derived(if i == 0 then ForEpoch0 else ForRotation, SeedAt(closes, id, i), OfClose(id))
  {
    assert SeededAt(closes, id, i);
  }

  /** Content keys are safe exactly up to the epoch held. */
  lemma ContentIsSafeIff(closes: Records, k: Reach, id: CloseId, i: nat)
    requires Bounds(closes, k) && Epoch(closes, id, i)
    ensures SafeKey(closes, k, TrueKey(closes[id], i)) <==> i <= k.content(id)
  {
    TrueKeyIs(closes, id, i);
    SeedIsSafeIff(closes, k, id, i);
  }

  /** Different epochs have different keys. */
  lemma TrueKeysDiffer(closes: Records, id: CloseId, i: nat, j: nat)
    requires AllSound(closes) && SeedsApart(closes) && Epoch(closes, id, i) && Epoch(closes, id, j)
    ensures TrueKey(closes[id], i) == TrueKey(closes[id], j) <==> i == j
  {
    TrueKeyIs(closes, id, i);
    TrueKeyIs(closes, id, j);
  }

  lemma ShapeHeldIff(closes: Records, k: Reach, id: CloseId, i: nat)
    requires Bounds(closes, k) && Epoch(closes, id, i)
    ensures ShapeHeld(closes, k, TrueKey(closes[id], i), OfClose(id)) <==> i <= k.shape(id)
  {
    if d, j: nat :| Epoch(closes, d, j) && j <= k.shape(d)
                    && TrueKey(closes[id], i) == TrueKey(closes[d], j) && OfClose(id) == OfClose(d) {
      TrueKeysDiffer(closes, id, i, j);
    }
  }

  /** Shape keys are safe exactly up to either epoch held. */
  lemma ShapeIsSafeIff(closes: Records, k: Reach, id: CloseId, i: nat)
    requires Bounds(closes, k) && Epoch(closes, id, i)
    ensures SafeKey(closes, k, ShapeOf(TrueKey(closes[id], i), id)) <==> i <= k.content(id) || i <= k.shape(id)
  {
    ContentIsSafeIff(closes, k, id, i);
    ShapeHeldIff(closes, k, id, i);
  }

  // ---- which items are safe ----------------------------------------------------------------

  /** Not derived, however deeply, from the seed of an epoch or from a secret
      agreed between two parties whose Diffie-Hellman secrets are both unknown. */
  ghost predicate Foreign(closes: Records, secrets: iset<nat>, key: Key) {
    match key
    case Seed(_) => forall id, i: nat :: Epoch(closes, id, i) ==> SeedAt(closes, id, i) != key
    case Shared(a, b) => a in secrets || b in secrets
    case Derived(_, from, _) => Foreign(closes, secrets, from)
  }

  ghost predicate Harmless(closes: Records, k: Reach, text: Text) {
    text !in k.hidden && (text.KeyText? ==> Foreign(closes, k.secrets, text.key))
  }

  /** Wrapped by a stranger to a stranger. */
  ghost predicate ForOthers(box: Box, secrets: iset<nat>) {
    && box.key.Derived? && box.key.purpose == ForWrap && box.key.from.Shared?
    && box.key.from.low !in secrets && box.key.from.high !in secrets
  }

  ghost function ChainBoxes(r: CloseRecord): iset<Box> {
    (iset link | link in r.chain :: link.content) + (iset link | link in r.chain :: link.shape)
  }

  ghost predicate InChains(closes: Records, box: Box) {
    exists id :: id in closes && box in ChainBoxes(closes[id])
  }

  lemma {:induction false} ForeignIsSafe(closes: Records, k: Reach, key: Key)
    requires Foreign(closes, k.secrets, key)
    ensures SafeKey(closes, k, key)
  {
    match key
    case Seed(_) =>
    case Shared(_, _) =>
    case Derived(_, from, _) => ForeignIsSafe(closes, k, from);
  }

  lemma HarmlessIsSafe(closes: Records, k: Reach, text: Text)
    requires Harmless(closes, k, text)
    ensures SafeText(closes, k, text)
  {
    if text.KeyText? {
      ForeignIsSafe(closes, k, text.key);
    }
  }

  lemma LinkIsSafe(closes: Records, k: Reach, id: CloseId, i: nat)
    requires Bounds(closes, k) && id in closes && i < |closes[id].chain|
    ensures SafeItem(closes, k, Boxed(closes[id].chain[i].content))
    ensures SafeItem(closes, k, Boxed(closes[id].chain[i].shape))
  {
    assert LinkSound(closes[id], i);
    ContentIsSafeIff(closes, k, id, i);
    ContentIsSafeIff(closes, k, id, i + 1);
    ShapeIsSafeIff(closes, k, id, i);
    ShapeIsSafeIff(closes, k, id, i + 1);
  }

  lemma ChainIsSafe(closes: Records, k: Reach, box: Box)
    requires Bounds(closes, k) && InChains(closes, box)
    ensures SafeItem(closes, k, Boxed(box))
  {
    var id :| id in closes && box in ChainBoxes(closes[id]);
    var i: nat :| i < |closes[id].chain| && (box == closes[id].chain[i].content || box == closes[id].chain[i].shape);
    LinkIsSafe(closes, k, id, i);
  }

  /** A box is safe if its text is harmless, or if it was wrapped between others. */
  lemma BoxIsSafe(closes: Records, k: Reach, box: Box)
    requires Bounds(closes, k)
    requires Harmless(closes, k, box.text) || ForOthers(box, k.secrets)
    ensures SafeItem(closes, k, Boxed(box))
  {
    if Harmless(closes, k, box.text) {
      HarmlessIsSafe(closes, k, box.text);
    } else {
      assert !SafeKey(closes, k, box.key.from);
      assert !SafeKey(closes, k, box.key);
    }
  }

  // ---- what keys do give ---------------------------------------------------------------------

  /** The computation of epoch `i`'s content key from `start`, which yields epoch `have`'s. */
  ghost function Descend(r: CloseRecord, start: Recipe, have: nat, i: nat): Recipe
    requires i <= have <= |r.chain|
    decreases have - i
  {
    if i == have then start else OpenUp(Given(Boxed(r.chain[i].content)), Descend(r, start, have, i + 1))
  }

  ghost function DescendShape(r: CloseRecord, start: Recipe, have: nat, i: nat): Recipe
    requires i <= have <= |r.chain|
    decreases have - i
  {
    if i == have then start else OpenUp(Given(Boxed(r.chain[i].shape)), DescendShape(r, start, have, i + 1))
  }

  ghost predicate KnowsChain(r: CloseRecord, known: iset<Item>) {
    forall box :: box in ChainBoxes(r) ==> Boxed(box) in known
  }

  lemma {:induction false} DescendReaches(r: CloseRecord, known: iset<Item>, start: Recipe, have: nat, i: nat)
    requires Sound(r) && KnowsChain(r, known) && i <= have <= r.epoch
    requires Yield(known, start) == Some(AsKey(TrueKey(r, have)))
    ensures Yield(known, Descend(r, start, have, i)) == Some(AsKey(TrueKey(r, i)))
    decreases have - i
  {
    if i < have {
      DescendReaches(r, known, start, have, i + 1);
      assert LinkSound(r, i);
      assert r.chain[i] in r.chain && r.chain[i].content in ChainBoxes(r);
    }
  }

  lemma {:induction false} DescendShapeReaches(r: CloseRecord, known: iset<Item>, start: Recipe, have: nat, i: nat)
    requires Sound(r) && KnowsChain(r, known) && i <= have <= r.epoch
    requires Yield(known, start) == Some(AsKey(ShapeOf(TrueKey(r, have), r.id)))
    ensures Yield(known, DescendShape(r, start, have, i)) == Some(AsKey(ShapeOf(TrueKey(r, i), r.id)))
    decreases have - i
  {
    if i < have {
      DescendShapeReaches(r, known, start, have, i + 1);
      assert LinkSound(r, i);
      assert r.chain[i] in r.chain && r.chain[i].shape in ChainBoxes(r);
    }
  }

  /** A content key gives every content and shape key at or before its epoch. */
  lemma ContentKeyGives(r: CloseRecord, known: iset<Item>, start: Recipe, have: nat, i: nat)
    requires Sound(r) && KnowsChain(r, known) && i <= have <= r.epoch
    requires Yield(known, start) == Some(AsKey(TrueKey(r, have)))
    ensures Computable(known, TrueKey(r, i)) && Computable(known, ShapeOf(TrueKey(r, i), r.id))
  {
    DescendReaches(r, known, start, have, i);
    DerivedIsComputable(known, ForShape, TrueKey(r, i), OfClose(r.id));
  }

  /** A shape key gives every shape key at or before its epoch. */
  lemma ShapeKeyGives(r: CloseRecord, known: iset<Item>, start: Recipe, have: nat, i: nat)
    requires Sound(r) && KnowsChain(r, known) && i <= have <= r.epoch
    requires Yield(known, start) == Some(AsKey(ShapeOf(TrueKey(r, have), r.id)))
    ensures Computable(known, ShapeOf(TrueKey(r, i), r.id))
  {
    DescendShapeReaches(r, known, start, have, i);
  }

  // ---- the theorems ------------------------------------------------------------------------------

  ghost predicate ContentHeld(closes: Records, k: Reach, item: Item) {
    exists id, i: nat :: Epoch(closes, id, i) && i == k.content(id) && item == AsKey(TrueKey(closes[id], i))
  }

  ghost predicate ShapeHeldAs(closes: Records, k: Reach, item: Item) {
    exists id, i: nat :: Epoch(closes, id, i) && i == k.shape(id) && item == AsKey(ShapeOf(TrueKey(closes[id], i), id))
  }

  /** The public chains of the closes; every text, key and box that has nothing
      to do with their keys; every grant between others; and of each close at
      most one content key and one shape key. */
  ghost function Holding(closes: Records, k: Reach): iset<Item> {
    (iset box | InChains(closes, box) || Harmless(closes, k, box.text) || ForOthers(box, k.secrets) :: Boxed(box))
    + (iset text | Harmless(closes, k, text) :: Plain(text))
    + (iset item | ContentHeld(closes, k, item) || ShapeHeldAs(closes, k, item))
  }

  lemma HoldingIsSafe(closes: Records, k: Reach, item: Item)
    requires Bounds(closes, k) && item in Holding(closes, k)
    ensures SafeItem(closes, k, item)
  {
    if ContentHeld(closes, k, item) {
      var id, i: nat :| Epoch(closes, id, i) && i == k.content(id) && item == AsKey(TrueKey(closes[id], i));
      ContentIsSafeIff(closes, k, id, i);
    } else if ShapeHeldAs(closes, k, item) {
      var id, i: nat :| Epoch(closes, id, i) && i == k.shape(id) && item == AsKey(ShapeOf(TrueKey(closes[id], i), id));
      ShapeIsSafeIff(closes, k, id, i);
    } else if item.Plain? {
      HarmlessIsSafe(closes, k, item.text);
    } else if InChains(closes, item.box) {
      ChainIsSafe(closes, k, item.box);
    } else {
      BoxIsSafe(closes, k, item.box);
    }
  }

  lemma HoldingIsClosed(closes: Records, k: Reach, key: Key)
    requires Bounds(closes, k) && !SafeKey(closes, k, key)
    ensures !Computable(Holding(closes, k), key)
  {
    forall item | item in Holding(closes, k) ensures SafeItem(closes, k, item) {
      HoldingIsSafe(closes, k, item);
    }
    UnsafeIsSecret(closes, k, Holding(closes, k), KeyText(key));
  }

  lemma HoldingHasChains(closes: Records, k: Reach, id: CloseId)
    requires id in closes
    ensures KnowsChain(closes[id], Holding(closes, k))
  {
    forall box | box in ChainBoxes(closes[id]) ensures Boxed(box) in Holding(closes, k) {
      assert InChains(closes, box);
    }
  }

  /** From the public chains of any closes, a content and a shape key of each, and
      everything that has nothing to do with their keys, the content keys that
      can be computed are exactly those of epochs up to the content key's. */
  lemma ContentDisclosed(closes: Records, k: Reach, id: CloseId, i: nat)
    requires Bounds(closes, k) && Epoch(closes, id, i) && k.content(id) <= closes[id].epoch
    ensures Computable(Holding(closes, k), TrueKey(closes[id], i)) <==> i <= k.content(id)
  {
    ContentIsSafeIff(closes, k, id, i);
    if i <= k.content(id) {
      var item := AsKey(TrueKey(closes[id], k.content(id)));
      assert Epoch(closes, id, k.content(id)) && ContentHeld(closes, k, item);
      HoldingHasChains(closes, k, id);
      ContentKeyGives(closes[id], Holding(closes, k), Given(item), k.content(id), i);
    } else {
      HoldingIsClosed(closes, k, TrueKey(closes[id], i));
    }
  }

  /** ... and the shape keys are exactly those of epochs up to either key's: a
      shape key never gives a content key, and the past never the future. */
  lemma ShapeDisclosed(closes: Records, k: Reach, id: CloseId, i: nat)
    requires Bounds(closes, k) && Epoch(closes, id, i)
    requires k.content(id) <= closes[id].epoch && k.shape(id) <= closes[id].epoch
    ensures Computable(Holding(closes, k), ShapeOf(TrueKey(closes[id], i), id))
       <==> i <= k.content(id) || i <= k.shape(id)
  {
    ShapeIsSafeIff(closes, k, id, i);
    HoldingHasChains(closes, k, id);
    if i <= k.content(id) {
      var item := AsKey(TrueKey(closes[id], k.content(id)));
      assert Epoch(closes, id, k.content(id)) && ContentHeld(closes, k, item);
      ContentKeyGives(closes[id], Holding(closes, k), Given(item), k.content(id), i);
    } else if i <= k.shape(id) {
      var item := AsKey(ShapeOf(TrueKey(closes[id], k.shape(id)), id));
      assert Epoch(closes, id, k.shape(id)) && ShapeHeldAs(closes, k, item);
      ShapeKeyGives(closes[id], Holding(closes, k), Given(item), k.shape(id), i);
    } else {
      HoldingIsClosed(closes, k, ShapeOf(TrueKey(closes[id], i), id));
    }
  }

  /** The binding key of a close, hence every keyed plaintext hash in it, is within
      reach exactly of those who hold a content key of some epoch. */
  lemma BindingDisclosed(closes: Records, k: Reach, id: CloseId)
    requires Bounds(closes, k) && id in closes && k.content(id) <= closes[id].epoch
    ensures Computable(Holding(closes, k), TrueBinding(closes[id])) <==> k.content(id) >= 0
  {
    var known := Holding(closes, k);
    assert Epoch(closes, id, 0);
    ContentIsSafeIff(closes, k, id, 0);
    if k.content(id) >= 0 {
      ContentDisclosed(closes, k, id, 0);
      DerivedIsComputable(known, ForBinding, TrueKey(closes[id], 0), OfClose(id));
    } else {
      HoldingIsClosed(closes, k, TrueBinding(closes[id]));
    }
  }
}
