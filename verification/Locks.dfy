/** What changing a lock does to people (`rotate` of crates/close/src/main.rs). */
module Locks {
  import opened Terms
  import opened Closes
  import opened Grants
  import opened Paths
  import opened Commons
  import opened Keyring
  import opened Upkeep

  // ---- live grants under extension -------------------------------------------------

  lemma LiveNeedsOnlySteward(g: Grant, r: CloseRecord, r': CloseRecord, now: nat)
    requires r.id == r'.id && r.steward == r'.steward
    ensures LiveOn(g, r, now) == LiveOn(g, r', now)
  {
    VerifyNeedsOnlySteward(g, r, r', now);
  }

  lemma {:induction false} LiveAppends(gs: seq<Grant>, g: Grant, r: CloseRecord, r': CloseRecord, now: nat)
    requires r.id == r'.id && r.steward == r'.steward
    ensures Live(gs, r', now) == Live(gs, r, now)
    ensures Live(gs + [g], r', now) == Live(gs, r, now) + (if LiveOn(g, r', now) then [g] else [])
  {
    if gs == [] {
      assert gs + [g] == [g];
    } else {
      LiveNeedsOnlySteward(gs[0], r, r', now);
      LiveAppends(gs[1..], g, r, r', now);
      assert (gs + [g])[1..] == gs[1..] + [g];
    }
  }

  /** The last grant of the highest facet, one grant later. */
  lemma {:induction false} WidestAppends(held: seq<Grant>, g: Grant)
    ensures var widest := Widest(held);
            Widest(held + [g]) ==
            if widest.Some? && !widest.value.body.facet.AtMost(g.body.facet) then widest else Some(g)
  {
    if held == [] {
      assert held + [g] == [g];
    } else {
      WidestAppends(held[1..], g);
      assert (held + [g])[1..] == held[1..] + [g];
    }
  }

  lemma OrIsAssociative(a: Powers, b: Powers, c: Powers)
    ensures a | (b | c) == (a | b) | c
    ensures a | 0 == a && a | a == a
  {
  }

  lemma {:induction false} UnionAppends(held: seq<Grant>, g: Grant)
    ensures UnionPowers(held + [g]) == UnionPowers(held) | g.body.powers
  {
    if held == [] {
      assert held + [g] == [g];
      OrIsAssociative(g.body.powers, 0, 0);
    } else {
      UnionAppends(held[1..], g);
      assert (held + [g])[1..] == held[1..] + [g];
      OrIsAssociative(held[0].body.powers, UnionPowers(held[1..]), g.body.powers);
    }
  }

  lemma {:induction false} WidestIsLive(gs: seq<Grant>, r: CloseRecord, now: nat)
    ensures var held := Live(gs, r, now);
            Widest(held).Some? ==> Widest(held).value in gs && LiveOn(Widest(held).value, r, now)
  {
    if gs != [] {
      WidestIsLive(gs[1..], r, now);
      assert ([gs[0]] + Live(gs[1..], r, now))[1..] == Live(gs[1..], r, now);
      assert [] + Live(gs[1..], r, now) == Live(gs[1..], r, now);
    }
  }

  // ---- what the best facet and the live powers are ------------------------------------

  lemma {:induction false} LiveIff(gs: seq<Grant>, r: CloseRecord, now: nat, g: Grant)
    ensures g in Live(gs, r, now) <==> g in gs && LiveOn(g, r, now)
  {
    if gs != [] {
      LiveIff(gs[1..], r, now, g);
      assert g in gs <==> g == gs[0] || g in gs[1..];
    }
  }

  /** `held[i]` has the highest facet of all and is the last that has it. */
  ghost predicate LastWidest(held: seq<Grant>, i: nat)
    requires i < |held|
  {
    && (forall j :: 0 <= j < |held| ==> held[j].body.facet.AtMost(held[i].body.facet))
    && (forall j :: i < j < |held| ==> !held[i].body.facet.AtMost(held[j].body.facet))
  }

  lemma {:induction false} WidestIs(held: seq<Grant>) returns (i: nat)
    requires held != []
    ensures i < |held| && Widest(held) == Some(held[i]) && LastWidest(held, i)
  {
    i := 0;
    if |held| > 1 {
      var k := WidestIs(held[1..]);
      assert held[1..][k] == held[k + 1];
      assert forall j :: 1 <= j < |held| ==> held[j] == held[1..][j - 1];
      if held[0].body.facet.AtMost(held[k + 1].body.facet) {
        i := k + 1;
      }
    }
  }

  lemma BitOfUnion(a: Powers, b: Powers, p: Powers)
    requires IsBit(p)
    ensures HasPowers(a | b, p) <==> HasPowers(a, p) || HasPowers(b, p)
    ensures !HasPowers(0, p)
  {
  }

  lemma {:induction false} UnionIs(held: seq<Grant>, p: Powers)
    requires IsBit(p)
    ensures HasPowers(UnionPowers(held), p) <==> exists g :: g in held && HasPowers(g.body.powers, p)
  {
    if held == [] {
      BitOfUnion(0, 0, p);
    } else {
      UnionIs(held[1..], p);
      BitOfUnion(held[0].body.powers, UnionPowers(held[1..]), p);
      assert forall g :: g in held <==> g == held[0] || g in held[1..];
    }
  }

  /** The best facet is that of some live grant and bounds that of every live grant. */
  lemma BestFacetIs(s: State, who: string, r: CloseRecord, now: nat)
    ensures var best := BestFacet(s, who, r, now);
            && (best.None? <==> forall g :: g in GrantsOf(s, who) ==> !LiveOn(g, r, now))
            && (best.Some? ==>
                && (exists g :: g in GrantsOf(s, who) && LiveOn(g, r, now) && g.body.facet == best.value)
                && forall g :: g in GrantsOf(s, who) && LiveOn(g, r, now) ==> g.body.facet.AtMost(best.value))
  {
    var held := Live(GrantsOf(s, who), r, now);
    forall g ensures g in held <==> g in GrantsOf(s, who) && LiveOn(g, r, now) {
      LiveIff(GrantsOf(s, who), r, now, g);
    }
    if held == [] {
      assert Widest(held).None?;
    } else {
      var i := WidestIs(held);
      assert held[i] in held;
      forall g | g in held ensures g.body.facet.AtMost(held[i].body.facet) {
        var j :| 0 <= j < |held| && held[j] == g;
      }
    }
  }

  /** Someone has a right exactly if some live grant of theirs carries it. */
  lemma LivePowersAre(s: State, who: string, r: CloseRecord, now: nat, p: Powers)
    requires IsBit(p)
    ensures HasPowers(LivePowers(s, who, r, now), p)
       <==> exists g :: g in GrantsOf(s, who) && LiveOn(g, r, now) && HasPowers(g.body.powers, p)
  {
    UnionIs(Live(GrantsOf(s, who), r, now), p);
    forall g ensures g in Live(GrantsOf(s, who), r, now) <==> g in GrantsOf(s, who) && LiveOn(g, r, now) {
      LiveIff(GrantsOf(s, who), r, now, g);
    }
  }

  // ---- keepers -----------------------------------------------------------------------

  /** The grant a keeper gets is live at once. */
  lemma ReissuedIsLive(
    r: CloseRecord, r': CloseRecord, steward: Identity, key: Key, holder: Identity, gs: seq<Grant>, eph: nat, now: nat)
    requires r'.id == r.id && r'.steward == r.steward == steward.VerifyingKey()
    requires Widest(Live(gs, r, now)).Some?
    ensures var held := Live(gs, r, now);
            var k := Keeper(Widest(held).value.body.facet, UnionPowers(held), Widest(held).value.body.expiresAt);
            LiveOn(ReissuedGrant(r', steward, key, holder, k, eph), r', now)
  {
    WidestIsLive(gs, r, now);
  }

  lemma KeeperKeeps(
    r: CloseRecord, r': CloseRecord, steward: Identity, key: Key, holder: Identity, gs: seq<Grant>, eph: nat, now: nat)
    requires r'.id == r.id && r'.steward == r.steward == steward.VerifyingKey()
    requires Widest(Live(gs, r, now)).Some?
    ensures var held := Live(gs, r, now);
            var k := Keeper(Widest(held).value.body.facet, UnionPowers(held), Widest(held).value.body.expiresAt);
            var held' := Live(gs + [ReissuedGrant(r', steward, key, holder, k, eph)], r', now);
            && Widest(held').Some? && Widest(held').value.body.facet == k.facet
            && UnionPowers(held') == UnionPowers(held)
  {
    var held := Live(gs, r, now);
    var k := Keeper(Widest(held).value.body.facet, UnionPowers(held), Widest(held).value.body.expiresAt);
    var g := ReissuedGrant(r', steward, key, holder, k, eph);
    ReissuedIsLive(r, r', steward, key, holder, gs, eph, now);
    LiveAppends(gs, g, r, r', now);
    WidestAppends(held, g);
    UnionAppends(held, g);
    OrIsAssociative(UnionPowers(held), 0, 0);
  }

  /** Every keeper has, at that moment, the best facet and the live powers they
      had before. */
  lemma KeepersKeepRights(
    s: State, s': State, close: CloseId, except: set<string>, now: nat, minted: Key, ephs: string -> nat, who: string)
    requires Inv(s) && LockChanged(s, s', close, except, now, minted, ephs)
    requires KeepsUp(s, who, except, s.closes[close], now)
    ensures BestFacet(s', who, s'.closes[close], now) == BestFacet(s, who, s.closes[close], now)
    ensures LivePowers(s', who, s'.closes[close], now) == LivePowers(s, who, s.closes[close], now)
  {
    var r, r' := s.closes[close], s'.closes[close];
    assert GrantsOf(s', who) == GrantsAfter(s, r', close, except, now, ephs, who);
    KeeperKeeps(r, r', s.people[s.me], TrueKey(r', r'.epoch), s.people[who], GrantsOf(s, who), ephs(who), now);
  }

  /** ... and, with a facet above presence, every key of that facet up to and
      including the new epoch. */
  lemma KeepersReachEveryEpoch(
    s: State, s': State, close: CloseId, except: set<string>, now: nat, minted: Key, ephs: string -> nat,
    who: string, facet: Facet, epoch: nat)
    requires Inv(s) && LockChanged(s, s', close, except, now, minted, ephs)
    requires KeepsUp(s, who, except, s.closes[close], now)
    requires facet != Presence && facet.AtMost(BestFacet(s, who, s.closes[close], now).value)
    requires epoch <= s'.closes[close].epoch
    ensures epoch <= |s'.closes[close].chain|
    ensures FacetKeyFor(s', who, s'.closes[close], facet, epoch, now) == TrueFacetKey(s'.closes[close], facet, epoch)
  {
    var r, r' := s.closes[close], s'.closes[close];
    LockChangeKeeps(s, s', close, except, now, minted, ephs);
    assert GrantsOf(s', who) == GrantsAfter(s, r', close, except, now, ephs, who);
    var g := ReissuedTo(s, r', r, now, ephs, who);
    ReissuedIsLive(r, r', s.people[s.me], TrueKey(r', r'.epoch), s.people[who], GrantsOf(s, who), ephs(who), now);
    assert g in GrantsOf(s', who) && Gives(g, r', facet, epoch, now);
    KeyLookupIsExact(s', who, close, facet, epoch, now);
  }

  // ---- everyone else --------------------------------------------------------------------

  /** As long as nobody hands someone a new grant, lock changes leave their
      answers for older epochs alone and give them no key of any newer one, at
      any time and in any facet. */
  lemma WithoutNewGrants(s: State, s': State, who: string, close: CloseId, facet: Facet, epoch: nat, now: nat)
    requires Inv(s) && Inv(s') && Later(s, s') && close in s.closes && who in s.people
    requires GrantsOf(s', who) == GrantsOf(s, who)
    ensures FacetKeyFor(s', who, s'.closes[close], facet, epoch, now) ==
            if epoch <= s.closes[close].epoch then FacetKeyFor(s, who, s.closes[close], facet, epoch, now) else None
  {
    var r, r' := s.closes[close], s'.closes[close];
    KeyLookupIsExact(s, who, close, facet, epoch, now);
    KeyLookupIsExact(s', who, close, facet, epoch, now);
    GrantsCarry(s, who, close);
    forall g | g in GrantsOf(s, who)
      ensures Gives(g, r, facet, epoch, now) == Gives(g, r', facet, epoch, now)
      ensures Gives(g, r', facet, epoch, now) ==> epoch <= r.epoch
    {
      LiveNeedsOnlySteward(g, r, r', now);
    }
    if epoch <= r.epoch {
      GrewKeepsKeys(r, r', epoch);
    }
  }

  /** Whoever is left out of a lock change has no key at the new epoch, in any
      facet at any time, and unchanged answers for every older epoch. */
  lemma TheExcludedKeepOnlyThePast(
    s: State, s': State, close: CloseId, except: set<string>, now: nat, minted: Key, ephs: string -> nat,
    who: string, facet: Facet, epoch: nat, t: nat)
    requires Inv(s) && LockChanged(s, s', close, except, now, minted, ephs)
    requires who in s.people && !KeepsUp(s, who, except, s.closes[close], now)
    ensures FacetKeyFor(s', who, s'.closes[close], facet, epoch, t) ==
            if epoch == s'.closes[close].epoch then None
            else FacetKeyFor(s, who, s.closes[close], facet, epoch, t)
  {
    LockChangeKeeps(s, s', close, except, now, minted, ephs);
    LockChangeIsLater(s, s', close, except, now, minted, ephs);
    assert GrantsOf(s', who) == GrantsAfter(s, s'.closes[close], close, except, now, ephs, who);
    WithoutNewGrants(s, s', who, close, facet, epoch, t);
    KeyLookupIsExact(s, who, close, facet, epoch, t);
  }

  /** Only the reissued grant reaches the new epoch. */
  lemma OnlyReissuedReachNewEpoch(
    s: State, s': State, close: CloseId, except: set<string>, now: nat, minted: Key, ephs: string -> nat,
    who: string, g: Grant)
    requires Inv(s) && LockChanged(s, s', close, except, now, minted, ephs)
    requires g in GrantsOf(s', who) && g.body.close == close && g.body.epoch == s'.closes[close].epoch
    ensures KeepsUp(s, who, except, s.closes[close], now)
    ensures g == ReissuedTo(s, s'.closes[close], s.closes[close], now, ephs, who)
  {
    LockChangeIsLater(s, s', close, except, now, minted, ephs);
    assert GrantsOf(s', who) == GrantsAfter(s, s'.closes[close], close, except, now, ephs, who);
    assert forall h :: h in GrantsOf(s, who) && h.body.close == close ==> GrantOk(s, who, h);
  }

  /** A reissued grant lives exactly as long as its terms say. */
  lemma ReissuedLivesWhile(
    r: CloseRecord, r': CloseRecord, steward: Identity, key: Key, holder: Identity, k: Keeper, eph: nat, t: nat)
    requires r'.id == r.id && r'.steward == r.steward == steward.VerifyingKey()
    ensures LiveOn(ReissuedGrant(r', steward, key, holder, k, eph), r', t) <==> Alive(k.expiresAt, t)
  {
  }

  /** Who finds a key of the new epoch, at any time: exactly the keepers, each up
      to the best facet they held when the lock was changed, and for as long as
      the last of their widest grants was to live, longer or shorter than the
      others. At the moment of the change that grant is alive. */
  lemma NewEpochBelongsToKeepers(
    s: State, s': State, close: CloseId, except: set<string>, now: nat, minted: Key, ephs: string -> nat,
    who: string, facet: Facet, t: nat)
    requires Inv(s) && LockChanged(s, s', close, except, now, minted, ephs)
    requires who in s.people && facet != Presence
    ensures var r := s.closes[close];
            && (FacetKeyFor(s', who, s'.closes[close], facet, s'.closes[close].epoch, t).Some? <==>
                && KeepsUp(s, who, except, r, now)
                && facet.AtMost(BestFacet(s, who, r, now).value)
                && Alive(KeeperOf(s, who, r, now).value.expiresAt, t))
            && (KeepsUp(s, who, except, r, now) ==> Alive(KeeperOf(s, who, r, now).value.expiresAt, now))
  {
    var r, r' := s.closes[close], s'.closes[close];
    LockChangeKeeps(s, s', close, except, now, minted, ephs);
    KeyLookupIsExact(s', who, close, facet, r'.epoch, t);
    if KeepsUp(s, who, except, r, now) {
      var g := ReissuedTo(s, r', r, now, ephs, who);
      var k := KeeperOf(s, who, r, now).value;
      WidestIsLive(GrantsOf(s, who), r, now);
      ReissuedLivesWhile(r, r', s.people[s.me], TrueKey(r', r'.epoch), s.people[who], k, ephs(who), t);
      assert GrantsOf(s', who) == GrantsAfter(s, r', close, except, now, ephs, who);
      assert g in GrantsOf(s', who);
      assert Gives(g, r', facet, r'.epoch, t) <==> facet.AtMost(k.facet) && Alive(k.expiresAt, t);
    }
    if Holds(s', who, close, facet, r'.epoch, t) {
      var g :| g in GrantsOf(s', who) && Gives(g, r', facet, r'.epoch, t);
      assert GrantOk(s', who, g);
      OnlyReissuedReachNewEpoch(s, s', close, except, now, minted, ephs, who, g);
    }
  }

  lemma OneMoreLive(gs: seq<Grant>, g: Grant, r: CloseRecord, r': CloseRecord, t: nat)
    requires r.id == r'.id && r.steward == r'.steward && LiveOn(g, r', t)
    ensures UnionPowers(Live(gs + [g], r', t)) == UnionPowers(Live(gs, r, t)) | g.body.powers
    ensures var widest := Widest(Live(gs, r, t));
            Widest(Live(gs + [g], r', t)) ==
            if widest.Some? && !widest.value.body.facet.AtMost(g.body.facet) then widest else Some(g)
  {
    LiveAppends(gs, g, r, r', t);
    UnionAppends(Live(gs, r, t), g);
    WidestAppends(Live(gs, r, t), g);
  }

  lemma NoMoreLive(gs: seq<Grant>, g: Grant, r: CloseRecord, r': CloseRecord, t: nat)
    requires r.id == r'.id && r.steward == r'.steward && !LiveOn(g, r', t)
    ensures Live(gs + [g], r', t) == Live(gs, r, t)
  {
    LiveAppends(gs, g, r, r', t);
    assert Live(gs, r, t) + [] == Live(gs, r, t);
  }

  /** What a keeper may do at any later time: what the older grants then allow,
      and, while the reissued grant lives, all that was united in it. */
  lemma KeepersRightsLater(
    s: State, s': State, close: CloseId, except: set<string>, now: nat, minted: Key, ephs: string -> nat, who: string,
    t: nat)
    requires Inv(s) && LockChanged(s, s', close, except, now, minted, ephs)
    requires KeepsUp(s, who, except, s.closes[close], now)
    ensures var r, r' := s.closes[close], s'.closes[close];
            var k := KeeperOf(s, who, r, now).value;
            var best, powers := BestFacet(s, who, r, t), LivePowers(s, who, r, t);
            if Alive(k.expiresAt, t) then
              && LivePowers(s', who, r', t) == powers | k.powers
              && BestFacet(s', who, r', t) ==
                 Some(if best.Some? && !best.value.AtMost(k.facet) then best.value else k.facet)
            else
              LivePowers(s', who, r', t) == powers && BestFacet(s', who, r', t) == best
  {
    var r, r' := s.closes[close], s'.closes[close];
    var k := KeeperOf(s, who, r, now).value;
    var g := ReissuedTo(s, r', r, now, ephs, who);
    ReissuedLivesWhile(r, r', s.people[s.me], TrueKey(r', r'.epoch), s.people[who], k, ephs(who), t);
    assert GrantsOf(s', who) == GrantsAfter(s, r', close, except, now, ephs, who);
    if Alive(k.expiresAt, t) {
      OneMoreLive(GrantsOf(s, who), g, r, r', t);
    } else {
      NoMoreLive(GrantsOf(s, who), g, r, r', t);
    }
  }

  lemma OrKeepsIff(a: Powers, b: Powers)
    ensures a | b == a <==> HasPowers(a, b)
  {
  }

  /** So a keeper's later powers differ from what they would have been without the
      lock change exactly while the reissued grant outlives a grant whose power it
      took over, and the best facet exactly while it outlives all the grants as wide. */
  lemma KeepersRightsDiffer(
    s: State, s': State, close: CloseId, except: set<string>, now: nat, minted: Key, ephs: string -> nat, who: string,
    t: nat)
    requires Inv(s) && LockChanged(s, s', close, except, now, minted, ephs)
    requires KeepsUp(s, who, except, s.closes[close], now)
    ensures var r, r' := s.closes[close], s'.closes[close];
            var k := KeeperOf(s, who, r, now).value;
            var best, powers := BestFacet(s, who, r, t), LivePowers(s, who, r, t);
            && (LivePowers(s', who, r', t) != powers <==> Alive(k.expiresAt, t) && !HasPowers(powers, k.powers))
            && (BestFacet(s', who, r', t) != best <==>
                Alive(k.expiresAt, t) && (best.None? || !k.facet.AtMost(best.value)))
  {
    var k := KeeperOf(s, who, s.closes[close], now).value;
    KeepersRightsLater(s, s', close, except, now, minted, ephs, who, t);
    OrKeepsIff(LivePowers(s, who, s.closes[close], t), k.powers);
  }

  // ---- who is shut out, and who is issued what, from the arguments alone ---------------------

  /** The last of the live grants with the highest facet among them. */
  ghost predicate LastLiveWidest(gs: seq<Grant>, r: CloseRecord, now: nat, i: nat) {
    && i < |gs| && LiveOn(gs[i], r, now)
    && forall j :: 0 <= j < |gs| && LiveOn(gs[j], r, now) ==> NotWider(gs, i, j)
  }

  ghost predicate NotWider(gs: seq<Grant>, i: nat, j: nat)
    requires i < |gs| && j < |gs|
  {
    gs[j].body.facet.AtMost(gs[i].body.facet) && (j > i ==> gs[j].body.facet != gs[i].body.facet)
  }

  ghost predicate SomeLive(gs: seq<Grant>, r: CloseRecord, now: nat) {
    exists g :: g in gs && LiveOn(g, r, now)
  }

  lemma NoneLive(gs: seq<Grant>, r: CloseRecord, now: nat)
    ensures Live(gs, r, now) == [] <==> !SomeLive(gs, r, now)
  {
    forall g ensures g in Live(gs, r, now) <==> g in gs && LiveOn(g, r, now) {
      LiveIff(gs, r, now, g);
    }
    if Live(gs, r, now) != [] {
      assert Live(gs, r, now)[0] in Live(gs, r, now);
    }
  }

  /** One grant in front of others. */
  lemma WidestInFront(gs: seq<Grant>, r: CloseRecord, now: nat, k: nat) returns (i: nat)
    requires gs != [] && LastLiveWidest(gs[1..], r, now, k)
    ensures LastLiveWidest(gs, r, now, i)
    ensures i == if LiveOn(gs[0], r, now) && !gs[0].body.facet.AtMost(gs[k + 1].body.facet) then 0 else k + 1
  {
    i := if LiveOn(gs[0], r, now) && !gs[0].body.facet.AtMost(gs[k + 1].body.facet) then 0 else k + 1;
    forall j | 0 <= j < |gs| && LiveOn(gs[j], r, now) ensures NotWider(gs, i, j) {
      if j > 0 {
        assert NotWider(gs[1..], k, j - 1);
      }
    }
  }

  lemma {:induction false} WidestIsLast(gs: seq<Grant>, r: CloseRecord, now: nat) returns (i: nat)
    requires SomeLive(gs, r, now)
    ensures LastLiveWidest(gs, r, now, i) && Widest(Live(gs, r, now)) == Some(gs[i])
  {
    NoneLive(gs[1..], r, now);
    var rest := Live(gs[1..], r, now);
    if rest == [] {
      i := 0;
      assert [gs[0]] + rest == [gs[0]];
    } else {
      var k := WidestIsLast(gs[1..], r, now);
      i := WidestInFront(gs, r, now, k);
      assert ([gs[0]] + rest)[1..] == rest && [] + rest == rest;
    }
  }

  /** Who is issued a new grant: everyone known, not named, who holds a live one. */
  lemma KeepsUpIff(s: State, who: string, except: set<string>, r: CloseRecord, now: nat)
    ensures KeepsUp(s, who, except, r, now) <==>
            who in s.people && who !in except && SomeLive(GrantsOf(s, who), r, now)
  {
    NoneLive(GrantsOf(s, who), r, now);
  }

  /** A grant of the new epoch that has all that live grants had: the widest facet,
      every right that some of them carries, and the expiry of the last of the
      widest; and no prefix. */
  ghost predicate Renews(g: Grant, gs: seq<Grant>, r: CloseRecord, epoch: nat, holder: PublicIdentity, now: nat) {
    && g.body.close == r.id && g.body.holder == holder && g.body.epoch == epoch
    && g.body.prefix == [] && g.body.parent == None
    && (exists i: nat :: LastLiveWidest(gs, r, now, i)
                    && g.body.facet == gs[i].body.facet && g.body.expiresAt == gs[i].body.expiresAt)
    && forall bit: Powers :: IsBit(bit) ==>
         (HasPowers(g.body.powers, bit) <==> exists h :: h in gs && LiveOn(h, r, now) && HasPowers(h.body.powers, bit))
  }

  lemma ReissuedRenews(
    r: CloseRecord, r': CloseRecord, steward: Identity, key: Key, holder: Identity, gs: seq<Grant>, k: Keeper, eph: nat,
    now: nat)
    requires r'.id == r.id && SomeLive(gs, r, now)
    requires var held := Live(gs, r, now);
             Widest(held).Some?
             && k == Keeper(Widest(held).value.body.facet, UnionPowers(held), Widest(held).value.body.expiresAt)
    ensures Renews(ReissuedGrant(r', steward, key, holder, k, eph), gs, r, r'.epoch, holder.Public(), now)
  {
    var i := WidestIsLast(gs, r, now);
    forall bit: Powers | IsBit(bit)
      ensures HasPowers(k.powers, bit) <==> exists h :: h in gs && LiveOn(h, r, now) && HasPowers(h.body.powers, bit)
    {
      UnionIs(Live(gs, r, now), bit);
      forall g ensures g in Live(gs, r, now) <==> g in gs && LiveOn(g, r, now) {
        LiveIff(gs, r, now, g);
      }
    }
  }

  /** Changing a lock goes through exactly for the steward of the governing close
      who holds its current key. */
  lemma RotateSucceedsIff(s: State, path: string, except: set<string>, now: nat, minted: Key, ephs: string -> nat)
    returns (close: CloseId)
    requires Inv(s)
    ensures Governing(s.closemap, Join(Segments(path))) == Some(close) && close in s.closes
    ensures var r := s.closes[close];
            Rotate(s, path, except, now, minted, ephs).Ok? <==>
            r.steward == s.people[s.me].VerifyingKey() && Holds(s, s.me, close, Content, r.epoch, now)
  {
    GoverningIsKnown(s, Join(Segments(path)));
    close := Governing(s.closemap, Join(Segments(path))).value;
    KeyLookupIsExact(s, s.me, close, Content, s.closes[close].epoch, now);
  }

  /** Whoever is named when a lock is changed is issued nothing and never finds a
      key of the new epoch. Everyone else known is issued exactly one grant, that
      renews what they held, if they held anything live, and otherwise nothing. */
  lemma RotateTells(
    s: State, path: string, except: set<string>, now: nat, minted: Key, ephs: string -> nat, who: string)
    returns (close: CloseId)
    requires Inv(s) && Rotate(s, path, except, now, minted, ephs).Ok?
    ensures Governing(s.closemap, Join(Segments(path))) == Some(close) && close in s.closes
    ensures var s' := Rotate(s, path, except, now, minted, ephs).value;
            var r, gs, gs' := s.closes[close], GrantsOf(s, who), GrantsOf(s', who);
            && close in s'.closes && s'.closes[close].epoch == r.epoch + 1
            && (who in except || who !in s.people || !SomeLive(gs, r, now) ==>
                && gs' == gs
                && forall facet: Facet, t: nat ::
                     FacetKeyFor(s', who, s'.closes[close], facet, s'.closes[close].epoch, t) == None)
            && (who in s.people && who !in except && SomeLive(gs, r, now) ==>
                |gs'| == |gs| + 1 && gs <= gs' && Renews(gs'[|gs|], gs, r, r.epoch + 1, s.people[who].Public(), now))
  {
    close := RotateChangesLock(s, path, except, now, minted, ephs);
    var s' := Rotate(s, path, except, now, minted, ephs).value;
    var r, r' := s.closes[close], s'.closes[close];
    LockChangeIsLater(s, s', close, except, now, minted, ephs);
    KeepsUpIff(s, who, except, r, now);
    assert GrantsOf(s', who) == GrantsAfter(s, r', close, except, now, ephs, who);
    if KeepsUp(s, who, except, r, now) {
      ReissuedRenews(r, r', s.people[s.me], TrueKey(r', r'.epoch), s.people[who], GrantsOf(s, who),
                     KeeperOf(s, who, r, now).value, ephs(who), now);
    } else {
      forall facet: Facet, t: nat ensures FacetKeyFor(s', who, r', facet, r'.epoch, t) == None {
        if who in s.people {
          TheExcludedKeepOnlyThePast(s, s', close, except, now, minted, ephs, who, facet, r'.epoch, t);
        }
      }
    }
  }
}
