/** Sealed objects: one envelope, two independently openable payloads
    (crates/cc-core/src/seal.rs). */
module Seals {
  import opened Terms
  import opened Closes

  function Seal(r: CloseRecord, contentKey: Key, epoch: nat, kind: ObjectKind, card: ShapeCard, text: Text)
    : Result<SealedObject, Error>
  {
    var binding :- BindingKey(r, contentKey, epoch);
    var plain := PlainId(binding, text);
    var shapeKey := ShapeOf(contentKey, r.id);
    var facet := kind.PayloadFacet();
    var payloadKey := if facet == Shape then shapeKey else contentKey;
    Ok(SealedObject(
         r.id, epoch, kind, plain,
         Box(ObjectKey(shapeKey, plain), FacetAad(r.id, epoch, Shape, plain), CardText(card)),
         Box(ObjectKey(payloadKey, plain), FacetAad(r.id, epoch, facet, plain), text)))
  }

  function OpenPayload(o: SealedObject, facetKey: Key): Result<Text, Error> {
    Open(ObjectKey(facetKey, o.plain), FacetAad(o.close, o.epoch, o.kind.PayloadFacet(), o.plain), o.contentCt)
  }

  function OpenShape(o: SealedObject, shapeKey: Key): Result<ShapeCard, Error> {
    var text :- Open(ObjectKey(shapeKey, o.plain), FacetAad(o.close, o.epoch, Shape, o.plain), o.shapeCt);
    if text.CardText? then Ok(text.card) else Err(Sealed)
  }

  /** `o` seals `text` and `card` as an object of close `r` under the true keys
      of its own epoch. */
  ghost predicate SealedUnder(o: SealedObject, r: CloseRecord, card: ShapeCard, text: Text) {
    && o.close == r.id
    && o.epoch <= |r.chain|
    && o.plain == PlainId(TrueBinding(r), text)
    && o.shapeCt == Box(ObjectKey(ShapeOf(TrueKey(r, o.epoch), r.id), o.plain),
                        FacetAad(r.id, o.epoch, Shape, o.plain), CardText(card))
    && o.contentCt == Box(ObjectKey(TrueFacetKey(r, o.kind.PayloadFacet(), o.epoch).value, o.plain),
                          FacetAad(r.id, o.epoch, o.kind.PayloadFacet(), o.plain), text)
  }

  /** Sealing with the key in force always succeeds, and which envelope it makes
      depends on nothing but the close, the epoch, the kind, the card and the text. */
  lemma SealWithTrueKey(r: CloseRecord, epoch: nat, kind: ObjectKind, card: ShapeCard, text: Text)
    requires Sound(r) && epoch <= r.epoch
    ensures var o := Seal(r, TrueKey(r, epoch), epoch, kind, card, text);
            o.Ok? && SealedUnder(o.value, r, card, text) && o.value.kind == kind && o.value.epoch == epoch
  {
    BindingIsStable(r, r, epoch);
  }

  /** The payload opens with exactly one key: the true key of its payload facet
      at its own epoch. The card opens with exactly the shape key of that epoch. */
  lemma OpensExactly(o: SealedObject, r: CloseRecord, card: ShapeCard, text: Text, key: Key)
    requires SealedUnder(o, r, card, text)
    ensures OpenPayload(o, key)
         == if Some(key) == TrueFacetKey(r, o.kind.PayloadFacet(), o.epoch) then Ok(text) else Err(Sealed)
    ensures OpenShape(o, key) == if Some(key) == TrueFacetKey(r, Shape, o.epoch) then Ok(card) else Err(Sealed)
  {
  }

  /** An envelope stays what it is after any number of lock changes. */
  lemma SealOutlivesRotation(o: SealedObject, r: CloseRecord, r': CloseRecord, card: ShapeCard, text: Text)
    requires SealedUnder(o, r, card, text) && Grew(r, r')
    ensures SealedUnder(o, r', card, text)
  {
    GrewKeepsKeys(r, r', o.epoch);
  }

  /** Resealing the same text at a later epoch keeps its plain id, so a lock
      change is never an edit; a different text never keeps it. */
  lemma PlainIdIsIdentity(
    o: SealedObject, r: CloseRecord, card: ShapeCard, text: Text,
    o': SealedObject, r': CloseRecord, card': ShapeCard, text': Text)
    requires SealedUnder(o, r, card, text) && SealedUnder(o', r', card', text')
    ensures o.plain == o'.plain <==> r.id == r'.id && text == text'
  {
  }
}
