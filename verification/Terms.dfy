/** Symbolic terms: every key, box, signature and address of the commons is a
    free constructor, so that opening a box is a pattern match and two
    addresses are equal exactly when the things they address are equal. */
module Terms {

  datatype Option<+T> = None | Some(value: T)

  datatype Result<+T, +E> = Ok(value: T) | Err(error: E) {
    predicate IsFailure() { Err? }

    function PropagateFailure<U>(): Result<U, E>
      requires Err?
    {
      Err(error)
    }

    function Extract(): T
      requires Ok?
    {
      value
    }
  }

  /** How a core operation fails (crates/cc-core/src/error.rs). */
  datatype Error =
    | Sealed
    | GrantExpired
    | BadSignature
    | NotAttenuated(why: string)
    | NotRooted
    | NoKey
    | EpochUnreachable(have: nat, wanted: nat)

  // ---- facets and powers ---------------------------------------------------

  /** Presence < Shape < Content. */
  datatype Facet = Presence | Shape | Content {
    function Level(): nat {
      match this
      case Presence => 0
      case Shape => 1
      case Content => 2
    }

    predicate AtMost(other: Facet) { Level() <= other.Level() }
  }

  /** A mask of non-disclosure rights, one bit each. */
  type Powers = bv8

  const INVOKE: Powers := 1
  const SET: Powers := 2

  predicate HasPowers(p: Powers, q: Powers) { p & q == q }

  /** One right. */
  predicate IsBit(p: Powers) {
    p != 0 && p & (p - 1) == 0
  }

  /** Powers contain others exactly if they contain every single right of them. */
  lemma HasPowersIff(p: Powers, q: Powers)
    ensures HasPowers(p, q) <==> forall bit: Powers :: IsBit(bit) && q & bit != 0 ==> p & bit != 0
  {
    assert IsBit(1) && IsBit(2) && IsBit(4) && IsBit(8) && IsBit(16) && IsBit(32) && IsBit(64) && IsBit(128);
  }

  /** Pointing and invoking are two different rights. */
  lemma RightsAreBits(p: Powers)
    ensures HasPowers(p, INVOKE) <==> p & 1 != 0
    ensures HasPowers(p, SET) <==> p & 2 != 0
  {
  }

  /** Presence is the least facet and content the greatest. */
  lemma FacetsAreOrdered(a: Facet, b: Facet)
    ensures a.AtMost(b) <==> a == b || a == Presence || b == Content
  {
  }

  // ---- keys, boxes, addresses ----------------------------------------------

  /** The context strings of key derivation. */
  datatype Purpose = ForEpoch0 | ForRotation | ForShape | ForBinding | ForObject | ForWrap

  /** A 32-byte secret: random, agreed between two Diffie-Hellman secrets, or
      derived from another key for a purpose and some public material. */
  datatype Key =
    | Seed(n: nat)
    | Shared(low: nat, high: nat)
    | Derived(purpose: Purpose, from: Key, material: Material)

  datatype Material = OfClose(close: CloseId) | OfPlain(plain: PlainId) | OfDh(dh: DhPublic)

  datatype VerifyKey = VerifyKey(owner: nat)

  datatype DhPublic = DhPublic(secret: nat)

  datatype CloseId = CloseId(steward: VerifyKey, seed: Key, name: string)

  /** Keyed hash of a plaintext. */
  datatype PlainId = PlainId(binding: Key, text: Text)

  /** Hash of a sealed envelope. */
  datatype CipherId = CipherId(envelope: SealedObject)

  /** A byte string that may be sealed. Encoding is injective and its images
      for different kinds of value are disjoint. */
  datatype Text =
    | Raw(bytes: seq<bv8>)
    | KeyText(key: Key)
    | CardText(card: ShapeCard)
    | TreeText(tree: Tree)
    | CommitText(commit: Commit)
    | TransitionText(transition: Transition)

  /** Additional authenticated data of a box. */
  datatype Aad =
    | ChainAad(close: CloseId, epoch: nat, lane: Facet)
    | WrapAad(close: CloseId, holder: VerifyKey, facet: Facet, epoch: nat)
    | FacetAad(close: CloseId, epoch: nat, facet: Facet, plain: PlainId)

  datatype Box = Box(key: Key, aad: Aad, text: Text)

  // ---- objects ---------------------------------------------------------------

  datatype ObjectKind = Blob | TreeKind | CommitKind | Note | Receipt | TransitionKind {
    /** The facet whose key opens the payload: folders can be listed by label. */
    function PayloadFacet(): Facet {
      if this == TreeKind then Shape else Content
    }
  }

  datatype ShapeCard = ShapeCard(title: string, contentType: string, sizeClass: string, note: string)

  datatype SealedObject = SealedObject(
    close: CloseId, epoch: nat, kind: ObjectKind, plain: PlainId, shapeCt: Box, contentCt: Box)

  datatype EntryCard = Outline(contentType: string, sizeClass: string) | Counted | Dark

  datatype TreeEntry = TreeEntry(
    kind: ObjectKind, close: CloseId, plain: PlainId, cipher: CipherId, card: EntryCard)

  datatype Tree = Tree(entries: map<string, TreeEntry>)

  datatype Commit = Commit(
    tree: CipherId, treePlain: PlainId, parents: seq<CipherId>, author: string, message: string, when: nat)

  // ---- people and grants -----------------------------------------------------

  datatype PublicIdentity = PublicIdentity(name: string, sign: VerifyKey, dh: DhPublic)

  datatype Identity = Identity(name: string, sign: nat, dh: nat) {
    function VerifyingKey(): VerifyKey { VerifyKey(sign) }

    function Public(): PublicIdentity {
      PublicIdentity(name, VerifyKey(sign), DhPublic(dh))
    }
  }

  datatype WrappedKey = WrappedKey(epk: DhPublic, ct: Box)

  datatype GrantBody = GrantBody(
    close: CloseId, holder: PublicIdentity, facet: Facet, powers: Powers, prefix: seq<string>,
    expiresAt: Option<nat>, caveats: seq<string>, epoch: nat, wrapped: Option<WrappedKey>,
    issuer: VerifyKey, parent: Option<Grant>)

  /** A signature by the owner of `signer` over a body. */
  datatype GrantSig = GrantSig(signer: VerifyKey, signed: GrantBody)

  datatype Grant = Grant(body: GrantBody, sig: GrantSig)

  // ---- the designation plane -------------------------------------------------

  datatype CellId = CellId(close: CloseId, path: string)

  datatype Pin = Pin(commit: CipherId, note: string)

  type Value = map<string, Pin>

  datatype TransitionBody = TransitionBody(
    cell: CellId, seqNo: nat, prev: Option<CipherId>, value: Value, mover: PublicIdentity,
    when: nat, reason: string, grant: Grant)

  datatype TransitionSig = TransitionSig(signer: VerifyKey, signed: TransitionBody)

  datatype Transition = Transition(body: TransitionBody, sig: TransitionSig)

  // ---- ideal primitives ------------------------------------------------------

  /** Opening succeeds with exactly the sealing key and the same bound data. */
  function Open(key: Key, aad: Aad, box: Box): Result<Text, Error> {
    if box.key == key && box.aad == aad then Ok(box.text) else Err(Sealed)
  }

  function OpenKey(key: Key, aad: Aad, box: Box): Result<Key, Error> {
    var text :- Open(key, aad, box);
    if text.KeyText? then Ok(text.key) else Err(Sealed)
  }

  /** Diffie-Hellman agreement (section 6.1 of RFC 7748): both sides reach the
      same secret. */
  function Agree(secret: nat, public: DhPublic): Key {
    if secret <= public.secret then Shared(secret, public.secret) else Shared(public.secret, secret)
  }

  function WrapTo(eph: nat, to: DhPublic, aad: Aad, key: Key): WrappedKey {
    var epk := DhPublic(eph);
    WrappedKey(epk, Box(Derived(ForWrap, Agree(eph, to), OfDh(epk)), aad, KeyText(key)))
  }

  function Unwrap(w: WrappedKey, dh: nat, aad: Aad): Result<Key, Error> {
    OpenKey(Derived(ForWrap, Agree(dh, w.epk), OfDh(w.epk)), aad, w.ct)
  }

  /** A wrapped key opens for the addressee and for no other Diffie-Hellman
      secret, and only under the data it was bound to. */
  lemma UnwrapIff(eph: nat, holder: nat, aad: Aad, key: Key, dh: nat, aad': Aad)
    ensures Unwrap(WrapTo(eph, DhPublic(holder), aad, key), dh, aad')
         == if dh == holder && aad == aad' then Ok(key) else Err(Sealed)
  {
  }
}
