/** Who can reach which key: what every operation keeps true of the records and
    grants, and exactly what key lookup and lock changes do. */
module Keyring {
  import opened Terms
  import opened Closes
  import opened Grants
  import opened Paths
  import opened Commons

  // ---- what every operation keeps ---------------------------------------------------

  ghost predicate ClosesOk(s: State) {
    forall id :: id in s.closes ==> s.closes[id].id == id && Sound(s.closes[id])
  }

  /** The grant was made out to `reader` and carries the true key of its facet
      at its epoch. */
  ghost predicate Carries(g: Grant, reader: Identity, r: CloseRecord) {
    && g.body.holder == reader.Public()
    && g.body.epoch <= |r.chain|
    && UnwrapKey(g, reader) ==
       match TrueFacetKey(r, g.body.facet, g.body.epoch) case None => Err(NoKey) case Some(k) => Ok(k)
  }

  ghost predicate GrantOk(s: State, who: string, g: Grant) {
    who in s.people && g.body.close in s.closes && Carries(g, s.people[who], s.closes[g.body.close])
  }

  ghost predicate GrantsOk(s: State) {
    forall who, g :: who in s.grants && g in s.grants[who] ==> GrantOk(s, who, g)
  }

  ghost predicate PeopleOk(s: State) {
    s.me in s.people && forall who :: who in s.people ==> s.people[who].name == who
  }

  ghost predicate MapOk(s: State) {
    && s.commons in s.closes
    && |s.closemap| > 0 && s.closemap[0].prefix == ""
    && forall m :: m in s.closemap ==> m.close in s.closes
  }

  /** Every object is stored under its own address. */
  ghost predicate Addressed(objects: Objects) {
    forall c :: c in objects ==> objects[c] == c.envelope
  }

  ghost predicate CellsOk(s: State) {
    && (forall d :: d in s.cells ==> Clean(d.path) && d.close in s.closes)
    && (forall i, j :: 0 <= i < j < |s.cells| ==> s.cells[i].path != s.cells[j].path)
  }

  ghost predicate Inv(s: State) {
    ClosesOk(s) && GrantsOk(s) && PeopleOk(s) && MapOk(s) && Addressed(s.objects) && CellsOk(s)
  }

  // ---- how states grow -------------------------------------------------------------------

  ghost predicate ClosesGrew(closes: Records, closes': Records) {
    forall id :: id in closes ==> id in closes' && Grew(closes[id], closes'[id])
  }

  ghost predicate ObjectsGrew(objects: Objects, objects': Objects) {
    forall c :: c in objects ==> c in objects' && objects'[c] == objects[c]
  }

  ghost predicate PeopleGrew(s: State, s': State) {
    forall who :: who in s.people ==> who in s'.people && s'.people[who] == s.people[who]
  }

  ghost predicate GrantsGrew(s: State, s': State) {
    forall who :: GrantsOf(s, who) <= GrantsOf(s', who)
  }

  /** `s'` is `s` after any operations: nothing recorded is ever lost or changed,
      except refs and the current epoch. */
  ghost predicate Later(s: State, s': State) {
    && ClosesGrew(s.closes, s'.closes) && ObjectsGrew(s.objects, s'.objects) && PeopleGrew(s, s') && GrantsGrew(s, s')
    && s.closemap <= s'.closemap && s.cells <= s'.cells
    && s'.commons == s.commons
  }

  lemma LaterIsReflexive(s: State)
    ensures Later(s, s)
  {
  }

  lemma LaterIsTransitive(a: State, b: State, c: State)
    requires Later(a, b) && Later(b, c)
    ensures Later(a, c)
  {
    forall id | id in a.closes ensures id in c.closes && Grew(a.closes[id], c.closes[id]) {
      assert Grew(a.closes[id], b.closes[id]) && Grew(b.closes[id], c.closes[id]);
    }
    forall who ensures GrantsOf(a, who) <= GrantsOf(c, who) {
      assert GrantsOf(a, who) <= GrantsOf(b, who) <= GrantsOf(c, who);
    }
  }

  lemma CarriesLater(g: Grant, reader: Identity, r: CloseRecord, r': CloseRecord)
    requires Carries(g, reader, r) && Grew(r, r')
    ensures Carries(g, reader, r')
  {
    GrewKeepsKeys(r, r', g.body.epoch);
  }

  // ---- key lookup is exact -------------------------------------------------------------------

  /** A grant is live on a close exactly if it is of that close and authentic. */
  lemma LiveOnIff(g: Grant, r: CloseRecord, now: nat)
    ensures LiveOn(g, r, now) <==> g.body.close == r.id && Authentic(Lineage(g), r.steward, now)
  {
    VerifyIff(g, r, now);
  }

  /** A live, verifying grant wide and recent enough for a facet key. */
  ghost predicate Gives(g: Grant, r: CloseRecord, facet: Facet, epoch: nat, now: nat) {
    LiveOn(g, r, now) && facet.AtMost(g.body.facet) && epoch <= g.body.epoch
  }

  ghost predicate SomeGives(gs: seq<Grant>, r: CloseRecord, facet: Facet, epoch: nat, now: nat) {
    exists g :: g in gs && Gives(g, r, facet, epoch, now)
  }

  ghost predicate AllCarry(gs: seq<Grant>, reader: Identity, r: CloseRecord) {
    forall g :: g in gs && g.body.close == r.id ==> Carries(g, reader, r)
  }

  lemma KeyFromIsExact(g: Grant, reader: Identity, r: CloseRecord, facet: Facet, epoch: nat, now: nat)
    requires Sound(r) && facet != Presence
    requires g.body.close == r.id ==> Carries(g, reader, r)
    ensures KeyFrom(g, reader, r, facet, epoch, now) ==
            if Gives(g, r, facet, epoch, now) then TrueFacetKey(r, facet, epoch) else None
  {
    if LiveOn(g, r, now) && facet.AtMost(g.body.facet) {
      WalkIsExact(r, g.body.epoch, epoch, g.body.facet);
    }
  }

  lemma {:induction false} KeyAmongIsExact(
    gs: seq<Grant>, reader: Identity, r: CloseRecord, facet: Facet, epoch: nat, now: nat)
    requires Sound(r) && facet != Presence && AllCarry(gs, reader, r)
    ensures SomeGives(gs, r, facet, epoch, now) ==> epoch <= r.epoch
    ensures KeyAmong(gs, reader, r, facet, epoch, now) ==
            if SomeGives(gs, r, facet, epoch, now) then TrueFacetKey(r, facet, epoch) else None
  {
    if gs != [] {
      var g := gs[0];
      assert g in gs;
      KeyFromIsExact(g, reader, r, facet, epoch, now);
      KeyAmongIsExact(gs[1..], reader, r, facet, epoch, now);
      assert forall h :: h in gs <==> h == g || h in gs[1..];
    }
  }

  /** Whether someone can reach a facet key of a close at an epoch. */
  ghost predicate Holds(s: State, who: string, close: CloseId, facet: Facet, epoch: nat, now: nat) {
    && who in s.people && close in s.closes && facet != Presence
    && SomeGives(GrantsOf(s, who), s.closes[close], facet, epoch, now)
  }

  lemma GrantsCarry(s: State, who: string, close: CloseId)
    requires Inv(s) && who in s.people && close in s.closes
    ensures AllCarry(GrantsOf(s, who), s.people[who], s.closes[close])
  {
  }

  /** Key lookup finds a key exactly when some live grant is wide and recent
      enough, and it is then the true key of the close at that epoch. */
  lemma KeyLookupIsExact(s: State, who: string, close: CloseId, facet: Facet, epoch: nat, now: nat)
    requires Inv(s) && close in s.closes
    ensures Holds(s, who, close, facet, epoch, now) ==> epoch <= s.closes[close].epoch
    ensures FacetKeyFor(s, who, s.closes[close], facet, epoch, now) ==
            if Holds(s, who, close, facet, epoch, now) then TrueFacetKey(s.closes[close], facet, epoch) else None
  {
    if who in s.people && facet != Presence {
      GrantsCarry(s, who, close);
      KeyAmongIsExact(GrantsOf(s, who), s.people[who], s.closes[close], facet, epoch, now);
    }
  }

  /** ... whatever order the grants are stored in, and however often. */
  lemma KeyLookupIgnoresOrder(
    s: State, s': State, who: string, close: CloseId, facet: Facet, epoch: nat, now: nat)
    requires Inv(s) && Inv(s') && s.people == s'.people && s.closes == s'.closes && close in s.closes
    requires forall g :: g in GrantsOf(s, who) <==> g in GrantsOf(s', who)
    ensures FacetKeyFor(s, who, s.closes[close], facet, epoch, now)
         == FacetKeyFor(s', who, s'.closes[close], facet, epoch, now)
  {
    KeyLookupIsExact(s, who, close, facet, epoch, now);
    KeyLookupIsExact(s', who, close, facet, epoch, now);
  }

  /** Whoever reaches a key holds it under an unbroken chain of authority from
      the steward, every link of which is wide enough for it. */
  lemma EveryKeyHasAuthority(s: State, who: string, close: CloseId, facet: Facet, epoch: nat, now: nat)
    returns (line: seq<Grant>)
    requires Inv(s) && close in s.closes
    requires FacetKeyFor(s, who, s.closes[close], facet, epoch, now).Some?
    ensures |line| > 0 && line[0] in GrantsOf(s, who)
    ensures Authentic(line, s.closes[close].steward, now)
    ensures forall i :: 0 <= i < |line| ==> facet.AtMost(line[i].body.facet) && line[i].body.close == close
  {
    KeyLookupIsExact(s, who, close, facet, epoch, now);
    var r := s.closes[close];
    var g :| g in GrantsOf(s, who) && Gives(g, r, facet, epoch, now);
    line := Lineage(g);
    VerifyIff(g, r, now);
    forall i | 0 <= i < |line| ensures facet.AtMost(line[i].body.facet) && line[i].body.close == close {
      DelegationIsSound(g, r, now, i);
    }
  }
}
