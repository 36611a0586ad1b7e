/** Sealed objects by address and refs by name, without any key
    (crates/cc-store/src/lib.rs). */
module Stores {
  import opened Terms
  import opened Commons
  import opened Keyring

  datatype StoreError = Corrupt

  class Store {
    var objects: Objects
    var refs: map<RefName, CipherId>

    /** Everything stored hashes to its address. */
    ghost predicate Valid()
      reads this
    {
      Addressed(objects)
    }

    constructor Open()
      ensures Valid() && objects == map[] && refs == map[]
    {
      objects, refs := map[], map[];
    }

    /** Stores an envelope under its address; storing it twice is storing it once. */
    method Put(envelope: SealedObject) returns (id: CipherId)
      modifies this`objects
      ensures id == CipherId(envelope)
      ensures objects == PutSealed(old(objects), envelope)
      ensures old(Valid()) ==> Valid() && id in objects && objects[id] == envelope
      ensures old(Valid()) ==> ObjectsGrew(old(objects), objects)
    {
      id := CipherId(envelope);
      if id !in objects {
        objects := objects[id := envelope];
      }
    }

    /** Never returns an object that is not the one addressed. */
    method Get(id: CipherId) returns (r: Result<Option<SealedObject>, StoreError>)
      ensures r.Ok? && r.value.Some? ==> CipherId(r.value.value) == id
      ensures Valid() ==> r == Ok(Commons.Get(objects, id))
    {
      if id !in objects {
        return Ok(None);
      }
      if CipherId(objects[id]) != id {
        return Err(Corrupt);
      }
      return Ok(Some(objects[id]));
    }

    method SetRef(name: RefName, id: CipherId)
      modifies this`refs
      ensures refs == old(refs)[name := id]
    {
      refs := refs[name := id];
    }

    method GetRef(name: RefName) returns (id: Option<CipherId>)
      ensures id == Commons.Get(refs, name)
    {
      id := if name in refs then Some(refs[name]) else None;
    }
  }
}
