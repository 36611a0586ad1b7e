/** Certificates that carry a wrapped facet key, verify without asking anyone,
    and get no wider from hand to hand (crates/cc-core/src/grant.rs). */
module Grants {
  import opened Terms
  import opened Closes

  function GrantAad(close: CloseId, holder: PublicIdentity, facet: Facet, epoch: nat): Aad {
    WrapAad(close, holder.sign, facet, epoch)
  }

  predicate PrefixUnder(child: seq<string>, parent: seq<string>) {
    parent <= child
  }

  /** An expiry that is no later than `parent`'s. */
  predicate Tightens(child: Option<nat>, parent: Option<nat>) {
    parent.None? || (child.Some? && child.value <= parent.value)
  }

  predicate Alive(expiresAt: Option<nat>, now: nat) {
    expiresAt.None? || now <= expiresAt.value
  }

  /** One expiry tightens another exactly if nothing outlives the other by it. */
  lemma TightensIff(child: Option<nat>, parent: Option<nat>)
    ensures Tightens(child, parent) <==> forall t: nat :: Alive(child, t) ==> Alive(parent, t)
  {
    if !Tightens(child, parent) {
      var t := if child.Some? then child.value else parent.value + 1;
      assert Alive(child, t) && !Alive(parent, t);
    }
  }

  function SignBody(body: GrantBody, signer: nat): Grant {
    Grant(body, GrantSig(VerifyKey(signer), body))
  }

  function IssueRoot(
    r: CloseRecord, steward: nat, contentKey: Key, epoch: nat, holder: PublicIdentity, facet: Facet,
    powers: Powers, prefix: seq<string>, expiresAt: Option<nat>, caveats: seq<string>, eph: nat): Grant
  {
    var wrapped :=
      match LowerFacetKey(contentKey, Content, facet, r.id)
      case Some(k) => Some(WrapTo(eph, holder.dh, GrantAad(r.id, holder, facet, epoch), k))
      case None => None;
    SignBody(
      GrantBody(r.id, holder, facet, powers, prefix, expiresAt, caveats, epoch, wrapped, VerifyKey(steward), None),
      steward)
  }

  /** The key an attenuated grant carries, wrapped to its holder. */
  function Rewrap(parent: Grant, giver: Identity, close: CloseId, holder: PublicIdentity, facet: Facet, eph: nat)
    : Result<Option<WrappedKey>, Error>
  {
    var p := parent.body;
    if facet == Presence then Ok(None)
    else if p.wrapped.None? then Err(NoKey)
    else
      var key :- Unwrap(p.wrapped.value, giver.dh, GrantAad(p.close, p.holder, p.facet, p.epoch));
      match LowerFacetKey(key, p.facet, facet, close)
      case None => Err(NoKey)
      case Some(k) => Ok(Some(WrapTo(eph, holder.dh, GrantAad(p.close, holder, facet, p.epoch), k)))
  }

  function Attenuate(
    parent: Grant, giver: Identity, r: CloseRecord, holder: PublicIdentity, facet: Facet,
    powers: Powers, prefix: seq<string>, expiresAt: Option<nat>, caveats: seq<string>, eph: nat)
    : Result<Grant, Error>
  {
    var p := parent.body;
    if !facet.AtMost(p.facet) then Err(NotAttenuated("facet may only be lowered"))
    else if !HasPowers(p.powers, powers) then Err(NotAttenuated("powers may only shrink"))
    else if !PrefixUnder(prefix, p.prefix) then Err(NotAttenuated("path may only deepen"))
    else if !Tightens(expiresAt, p.expiresAt) then Err(NotAttenuated("expiry may only tighten"))
    else if p.holder.sign != giver.VerifyingKey() then Err(NotAttenuated("only the holder may pass a grant on"))
    else
      var wrapped :- Rewrap(parent, giver, r.id, holder, facet, eph);
      Ok(SignBody(
           GrantBody(p.close, holder, facet, powers, prefix, expiresAt, caveats, p.epoch, wrapped,
                     giver.VerifyingKey(), Some(parent)),
           giver.sign))
  }

  function Verify(g: Grant, r: CloseRecord, now: nat): Result<(), Error> {
    var b := g.body;
    if g.sig != GrantSig(b.issuer, b) then Err(BadSignature)
    else if !Alive(b.expiresAt, now) then Err(GrantExpired)
    else
      match b.parent
      case None => if b.issuer != r.steward then Err(NotRooted) else Ok(())
      case Some(parent) =>
        var p := parent.body;
        if b.close != p.close then Err(NotAttenuated("close mismatch in chain"))
        else if b.issuer != p.holder.sign then Err(NotAttenuated("issuer is not the parent holder"))
        else if !b.facet.AtMost(p.facet) then Err(NotAttenuated("facet widened in chain"))
        else if !HasPowers(p.powers, b.powers) then Err(NotAttenuated("powers widened in chain"))
        else if !PrefixUnder(b.prefix, p.prefix) then Err(NotAttenuated("path widened in chain"))
        else if !Tightens(b.expiresAt, p.expiresAt) then Err(NotAttenuated("expiry widened in chain"))
        else Verify(parent, r, now)
  }

  function UnwrapKey(g: Grant, holder: Identity): Result<Key, Error> {
    var b := g.body;
    if b.wrapped.None? then Err(NoKey)
    else Unwrap(b.wrapped.value, holder.dh, GrantAad(b.close, b.holder, b.facet, b.epoch))
  }

  predicate Covers(g: Grant, path: seq<string>) {
    PrefixUnder(path, g.body.prefix)
  }

  // ---- verification is soundness of the whole chain of authority -----------------

  /** A grant and its ancestors, the root last. */
  ghost function Lineage(g: Grant): seq<Grant>
    ensures |Lineage(g)| > 0 && Lineage(g)[0] == g
  {
    [g] + match g.body.parent case None => [] case Some(parent) => Lineage(parent)
  }

  /** `child` claims nothing that `ancestor` does not. */
  ghost predicate Narrower(child: GrantBody, ancestor: GrantBody) {
    && child.close == ancestor.close
    && child.facet.AtMost(ancestor.facet)
    && HasPowers(ancestor.powers, child.powers)
    && PrefixUnder(child.prefix, ancestor.prefix)
    && Tightens(child.expiresAt, ancestor.expiresAt)
  }

  /** Signed by its issuer and alive. */
  ghost predicate StandsAt(g: Grant, now: nat) {
    g.sig == GrantSig(g.body.issuer, g.body) && Alive(g.body.expiresAt, now)
  }

  ghost predicate HandedDown(child: Grant, parent: Grant) {
    child.body.issuer == parent.body.holder.sign && Narrower(child.body, parent.body)
  }

  /** What `Verify` promises about a chain of authority, stated of the chain. */
  ghost predicate Authentic(line: seq<Grant>, steward: VerifyKey, now: nat)
    requires |line| > 0
  {
    && (forall i :: 0 <= i < |line| ==> StandsAt(line[i], now))
    && (forall i :: 0 <= i < |line| - 1 ==> HandedDown(line[i], line[i + 1]))
    && line[|line| - 1].body.issuer == steward
  }

  lemma AuthenticStep(g: Grant, rest: seq<Grant>, steward: VerifyKey, now: nat)
    requires |rest| > 0
    ensures Authentic([g] + rest, steward, now) <==>
            StandsAt(g, now) && HandedDown(g, rest[0]) && Authentic(rest, steward, now)
  {
    var line := [g] + rest;
    assert forall i :: 0 <= i < |rest| ==> line[i + 1] == rest[i];
    if Authentic(line, steward, now) {
      forall i | 0 <= i < |rest| ensures StandsAt(rest[i], now) {
        assert StandsAt(line[i + 1], now);
      }
      forall i | 0 <= i < |rest| - 1 ensures HandedDown(rest[i], rest[i + 1]) {
        assert HandedDown(line[i + 1], line[i + 2]);
      }
      assert StandsAt(line[0], now) && HandedDown(line[0], line[1]);
    }
  }

  /** A grant verifies exactly when its whole lineage is authentic. */
  lemma {:induction false} VerifyIff(g: Grant, r: CloseRecord, now: nat)
    ensures Verify(g, r, now).Ok? <==> Authentic(Lineage(g), r.steward, now)
  {
    match g.body.parent
    case None =>
      assert Lineage(g) == [g];
    case Some(parent) =>
      VerifyIff(parent, r, now);
      AuthenticStep(g, Lineage(parent), r.steward, now);
  }

  lemma PowersShrinkTransitively(a: Powers, b: Powers, c: Powers)
    requires HasPowers(a, b) && HasPowers(b, c)
    ensures HasPowers(a, c)
  {
  }

  lemma {:induction false} NarrowsAlongLine(line: seq<Grant>, steward: VerifyKey, now: nat, i: nat, j: nat)
    requires |line| > 0 && Authentic(line, steward, now) && i <= j < |line|
    ensures Narrower(line[i].body, line[j].body)
    decreases j - i
  {
    if i < j {
      NarrowsAlongLine(line, steward, now, i + 1, j);
      assert HandedDown(line[i], line[i + 1]);
      PowersShrinkTransitively(line[j].body.powers, line[i + 1].body.powers, line[i].body.powers);
    }
  }

  lemma {:induction false} AncestorsVerify(g: Grant, r: CloseRecord, now: nat, j: nat)
    requires Verify(g, r, now).Ok? && j < |Lineage(g)|
    ensures Verify(Lineage(g)[j], r, now).Ok?
  {
    if j > 0 {
      AncestorsVerify(g.body.parent.value, r, now, j - 1);
    }
  }

  /** Delegation is sound at any depth: a verifying grant is narrower than every
      ancestor in facet, powers, prefix and expiry, names one close throughout,
      is rooted in the steward, and every ancestor verifies whenever it does. */
  lemma DelegationIsSound(g: Grant, r: CloseRecord, now: nat, j: nat)
    requires Verify(g, r, now).Ok? && j < |Lineage(g)|
    ensures var line := Lineage(g);
            && Narrower(g.body, line[j].body)
            && Verify(line[j], r, now).Ok?
            && line[|line| - 1].body.issuer == r.steward
            && (j + 1 < |line| ==> line[j].body.issuer == line[j + 1].body.holder.sign)
  {
    VerifyIff(g, r, now);
    NarrowsAlongLine(Lineage(g), r.steward, now, 0, j);
    AncestorsVerify(g, r, now, j);
    if j + 1 < |Lineage(g)| {
      assert HandedDown(Lineage(g)[j], Lineage(g)[j + 1]);
    }
  }

  /** Verification looks only at the steward of a record. */
  lemma {:induction false} VerifyNeedsOnlySteward(g: Grant, r: CloseRecord, r': CloseRecord, now: nat)
    requires r.steward == r'.steward
    ensures Verify(g, r, now) == Verify(g, r', now)
  {
    if g.body.parent.Some? {
      VerifyNeedsOnlySteward(g.body.parent.value, r, r', now);
    }
  }

  /** A grant that ever verified verifies at exactly the times it is alive: no
      ancestor dies before it. */
  lemma {:induction false} VerifiesWhileAlive(g: Grant, r: CloseRecord, now: nat, t: nat)
    requires Verify(g, r, now).Ok?
    ensures Verify(g, r, t).Ok? <==> Alive(g.body.expiresAt, t)
  {
    if g.body.parent.Some? {
      VerifiesWhileAlive(g.body.parent.value, r, now, t);
    }
  }

  // ---- every honest chain verifies and carries the right key ------------------------

  /** How a grant came to be: issued by the steward, or passed on by a holder. */
  datatype Deed =
    | Root(r: CloseRecord, steward: nat, contentKey: Key, epoch: nat, terms: DeedTerms)
    | Pass(parent: Deed, giver: Identity, r: CloseRecord, terms: DeedTerms)

  datatype DeedTerms = DeedTerms(
    holder: PublicIdentity, facet: Facet, powers: Powers, prefix: seq<string>, expiresAt: Option<nat>,
    caveats: seq<string>, eph: nat)

  function Make(d: Deed): Result<Grant, Error> {
    var t := d.terms;
    match d
    case Root(r, steward, contentKey, epoch, _) =>
      Ok(IssueRoot(r, steward, contentKey, epoch, t.holder, t.facet, t.powers, t.prefix, t.expiresAt, t.caveats, t.eph))
    case Pass(parent, giver, r, _) =>
      var p :- Make(parent);
      Attenuate(p, giver, r, t.holder, t.facet, t.powers, t.prefix, t.expiresAt, t.caveats, t.eph)
  }

  /** Every step used a record of close `id`, possibly of different epochs. */
  ghost predicate Within(d: Deed, id: CloseId) {
    d.r.id == id && (d.Pass? ==> Within(d.parent, id))
  }

  ghost function Origin(d: Deed): Deed
    ensures Origin(d).Root?
  {
    if d.Root? then d else Origin(d.parent)
  }

  /** Delegation is complete: every chain built by the steward's root grant and
      successful attenuations verifies, at exactly the times up to the leaf's
      own expiry. */
  lemma {:induction false} DelegationIsComplete(d: Deed, r: CloseRecord, now: nat)
    requires Make(d).Ok? && VerifyKey(Origin(d).steward) == r.steward
    ensures var g := Make(d).value;
            Verify(g, r, now) == if Alive(g.body.expiresAt, now) then Ok(()) else Err(GrantExpired)
  {
    if d.Pass? {
      DelegationIsComplete(d.parent, r, now);
    }
  }

  /** The content key of the issuing epoch, lowered once to the leaf's facet. */
  ghost function KeyOf(d: Deed, id: CloseId): Option<Key> {
    LowerFacetKey(Origin(d).contentKey, Content, d.terms.facet, id)
  }

  /** Through any chain of attenuations the leaf's holder unwraps exactly the
      issuing epoch's content key lowered to the leaf's facet, anyone else gets
      nothing, and a presence grant has nothing to unwrap. */
  lemma {:induction false} GrantCarriesKey(d: Deed, id: CloseId, reader: Identity)
    requires Make(d).Ok? && Within(d, id)
    ensures var g := Make(d).value;
            && g.body.close == id
            && g.body.epoch == Origin(d).epoch
            && (g.body.wrapped.Some? <==> g.body.facet != Presence)
            && UnwrapKey(g, reader) ==
               if g.body.facet == Presence then Err(NoKey)
               else if DhPublic(reader.dh) == g.body.holder.dh then Ok(KeyOf(d, id).value)
               else Err(Sealed)
  {
    var g := Make(d).value;
    var b := g.body;
    if d.Pass? {
      var p := Make(d.parent).value;
      GrantCarriesKey(d.parent, id, d.giver);
      if b.facet != Presence {
        LoweringComposes(Origin(d).contentKey, p.body.facet, b.facet, id);
        UnwrapIff(d.terms.eph, b.holder.dh.secret, GrantAad(b.close, b.holder, b.facet, b.epoch),
                  KeyOf(d, id).value, reader.dh, GrantAad(b.close, b.holder, b.facet, b.epoch));
      }
    } else if b.facet != Presence {
      UnwrapIff(d.terms.eph, b.holder.dh.secret, GrantAad(b.close, b.holder, b.facet, b.epoch),
                KeyOf(d, id).value, reader.dh, GrantAad(b.close, b.holder, b.facet, b.epoch));
    }
  }

  /** A grant says exactly what it was made to say, is signed by who made it, and
      takes close and epoch from the grant it was passed on from. */
  lemma GrantSays(d: Deed)
    requires Make(d).Ok?
    ensures var g, t := Make(d).value, d.terms;
            && g.body.holder == t.holder && g.body.facet == t.facet && g.body.powers == t.powers
            && g.body.prefix == t.prefix && g.body.expiresAt == t.expiresAt && g.body.caveats == t.caveats
            && g.sig == GrantSig(g.body.issuer, g.body)
            && match d
               case Root(r, steward, _, epoch, _) =>
                 g.body.close == r.id && g.body.epoch == epoch && g.body.issuer == VerifyKey(steward)
                 && g.body.parent == None
               case Pass(parent, giver, _, _) =>
                 && Make(parent).Ok? && g.body.parent == Some(Make(parent).value)
                 && g.body.close == Make(parent).value.body.close && g.body.epoch == Make(parent).value.body.epoch
                 && g.body.issuer == giver.VerifyingKey()
  {
  }

  /** A grant of an honest chain may be passed on exactly by its holder, exactly
      on terms that narrow it. */
  lemma AttenuateIff(d: Deed, giver: Identity, r: CloseRecord, t: DeedTerms)
    requires Make(d).Ok? && Within(d, r.id)
    ensures var p := Make(d).value.body;
            Make(Pass(d, giver, r, t)).Ok? <==>
            (&& t.facet.AtMost(p.facet) && HasPowers(p.powers, t.powers)
             && PrefixUnder(t.prefix, p.prefix) && Tightens(t.expiresAt, p.expiresAt)
             && p.holder.sign == giver.VerifyingKey()
             && (t.facet == Presence || p.holder.dh == DhPublic(giver.dh)))
  {
    GrantCarriesKey(d, r.id, giver);
  }
}
