/** What someone gets who is given a share (`share` of crates/close/src/main.rs):
    not always what is current. */
module Sharing {
  import opened Terms
  import opened Closes
  import opened Grants
  import opened Paths
  import opened Commons
  import opened Keyring
  import opened Upkeep
  import opened Locks

  function ShareExpiry(days: Option<nat>, now: nat): Option<nat> {
    if days.Some? then Some(now + days.value * 86_400) else None
  }

  /** A share lives as long as its own terms say, whoever made it. */
  lemma ShareLives(
    s: State, close: CloseId, holder: PublicIdentity, facet: Facet, powers: Powers, expires: Option<nat>, now: nat,
    eph: nat, t: nat)
    requires Inv(s) && close in s.closes
    requires ShareGrant(s, s.closes[close], s.people[s.me], holder, facet, powers, expires, now, eph).Ok?
    ensures var g := ShareGrant(s, s.closes[close], s.people[s.me], holder, facet, powers, expires, now, eph).value;
            LiveOn(g, s.closes[close], t) <==> Alive(g.body.expiresAt, t)
  {
    var r := s.closes[close];
    if r.steward != s.people[s.me].VerifyingKey() {
      FirstWideIs(GrantsOf(s, s.me), r, facet, powers, now);
      var mine := FirstWide(GrantsOf(s, s.me), r, facet, powers, now).value;
      VerifiesWhileAlive(mine, r, now, t);
    }
  }

  /** The first grant in stored order that is wide enough to share from. */
  ghost predicate FirstWideAt(gs: seq<Grant>, r: CloseRecord, facet: Facet, powers: Powers, now: nat, i: nat) {
    i < |gs| && WideEnough(gs[i], r, facet, powers, now)
    && forall j :: 0 <= j < i ==> !WideEnough(gs[j], r, facet, powers, now)
  }

  lemma {:induction false} FirstWideIsFirst(gs: seq<Grant>, r: CloseRecord, facet: Facet, powers: Powers, now: nat)
    returns (i: nat)
    requires FirstWide(gs, r, facet, powers, now).Some?
    ensures FirstWideAt(gs, r, facet, powers, now, i) && FirstWide(gs, r, facet, powers, now) == Some(gs[i])
  {
    i := 0;
    if !WideEnough(gs[0], r, facet, powers, now) {
      i := FirstWideIsFirst(gs[1..], r, facet, powers, now);
      i := i + 1;
    }
  }

  /** Not after the expiry, if there is one. */
  predicate NotPast(expires: Option<nat>, t: nat) {
    expires.Some? ==> t <= expires.value
  }

  /** The terms of a share that are not asked for by name: from the steward no
      prefix, no parent and the asked expiry; from a holder the prefix of the first
      grant that is wide enough, and the earlier of its expiry and the asked one. */
  lemma ShareTerms(
    s: State, close: CloseId, holder: PublicIdentity, facet: Facet, powers: Powers, expires: Option<nat>, now: nat,
    eph: nat) returns (i: nat)
    requires s.me in s.people && close in s.closes
    requires ShareGrant(s, s.closes[close], s.people[s.me], holder, facet, powers, expires, now, eph).Ok?
    ensures var r, gs := s.closes[close], GrantsOf(s, s.me);
            var g := ShareGrant(s, r, s.people[s.me], holder, facet, powers, expires, now, eph).value;
            if r.steward == s.people[s.me].VerifyingKey() then
              g.body.expiresAt == expires && g.body.prefix == [] && g.body.parent == None
            else
              && FirstWideAt(gs, r, facet, powers, now, i)
              && g.body.prefix == gs[i].body.prefix && g.body.parent == Some(gs[i])
              && forall t: nat ::
                   NotPast(g.body.expiresAt, t) <==> NotPast(expires, t) && NotPast(gs[i].body.expiresAt, t)
  {
    i := 0;
    if s.closes[close].steward != s.people[s.me].VerifyingKey() {
      i := FirstWideIsFirst(GrantsOf(s, s.me), s.closes[close], facet, powers, now);
    }
  }

  /** When the sharer's own right to share ends: never for the steward. */
  function OwnExpiry(s: State, r: CloseRecord, facet: Facet, powers: Powers, now: nat): Option<nat>
    requires s.me in s.people
  {
    if r.steward == s.people[s.me].VerifyingKey() then None
    else
      match FirstWide(GrantsOf(s, s.me), r, facet, powers, now)
      case None => None
      case Some(mine) => mine.body.expiresAt
  }

  /** So a share lives for the days asked for, and no longer than what it was
      shared from. */
  lemma ShareLivesFor(
    s: State, close: CloseId, holder: PublicIdentity, facet: Facet, powers: Powers, days: Option<nat>, now: nat,
    eph: nat, t: nat)
    requires Inv(s) && close in s.closes
    requires ShareGrant(s, s.closes[close], s.people[s.me], holder, facet, powers, ShareExpiry(days, now), now, eph).Ok?
    ensures var r := s.closes[close];
            var g := ShareGrant(s, r, s.people[s.me], holder, facet, powers, ShareExpiry(days, now), now, eph).value;
            LiveOn(g, r, t) <==>
            && (days.Some? ==> t <= now + days.value * 86_400)
            && (OwnExpiry(s, r, facet, powers, now).Some? ==> t <= OwnExpiry(s, r, facet, powers, now).value)
  {
    var i := ShareTerms(s, close, holder, facet, powers, ShareExpiry(days, now), now, eph);
    ShareLives(s, close, holder, facet, powers, ShareExpiry(days, now), now, eph, t);
    if s.closes[close].steward != s.people[s.me].VerifyingKey() {
      var j := FirstWideIsFirst(GrantsOf(s, s.me), s.closes[close], facet, powers, now);
      assert i == j;
    }
  }

  /** Someone who had no grant of the close finds a key of an epoch after a share
      exactly if the share is of that epoch or a later one, for the days asked for
      and as long as what it was shared from lives. */
  lemma ShareReaches(
    s: State, path: string, with: string, facet: Facet, powers: Powers, days: Option<nat>, now: nat, eph: nat,
    epoch: nat, t: nat) returns (close: CloseId, g: Grant)
    requires Inv(s) && Share(s, path, with, facet, powers, days, now, eph).Ok? && facet != Presence
    requires forall h :: h in GrantsOf(s, with) ==> Some(h.body.close) != Governing(s.closemap, Join(Segments(path)))
    ensures Governing(s.closemap, Join(Segments(path))) == Some(close) && close in s.closes && with in s.people
    ensures Ok(g) == ShareGrant(s, s.closes[close], s.people[s.me], s.people[with].Public(), facet, powers,
                                ShareExpiry(days, now), now, eph)
    ensures var s', r := Share(s, path, with, facet, powers, days, now, eph).value, s.closes[close];
            FacetKeyFor(s', with, s'.closes[close], facet, epoch, t).Some? <==>
            && epoch <= SharedEpoch(s, r, facet, powers, now)
            && (days.Some? ==> t <= now + days.value * 86_400)
            && (OwnExpiry(s, r, facet, powers, now).Some? ==> t <= OwnExpiry(s, r, facet, powers, now).value)
  {
    close := Governing(s.closemap, Join(Segments(path))).value;
    var r, holder, expires := s.closes[close], s.people[with], ShareExpiry(days, now);
    g := ShareGrant(s, r, s.people[s.me], holder.Public(), facet, powers, expires, now, eph).value;
    ShareGrantCarries(s, close, holder, facet, powers, expires, now, eph);
    ShareLivesFor(s, close, holder.Public(), facet, powers, days, now, eph, t);
    AddGrantKeeps(s, with, g);
    OneGrantReaches(s, with, close, g, facet, epoch, t);
  }

  lemma OneGrantReaches(s: State, with: string, close: CloseId, g: Grant, facet: Facet, epoch: nat, t: nat)
    requires Inv(s) && Inv(AddGrant(s, with, g)) && close in s.closes && with in s.people && facet != Presence
    requires g.body.close == close && facet.AtMost(g.body.facet)
    requires forall h :: h in GrantsOf(s, with) ==> h.body.close != close
    ensures FacetKeyFor(AddGrant(s, with, g), with, s.closes[close], facet, epoch, t).Some? <==>
            LiveOn(g, s.closes[close], t) && epoch <= g.body.epoch
  {
    var s', r := AddGrant(s, with, g), s.closes[close];
    KeyLookupIsExact(s', with, close, facet, epoch, t);
    assert GrantsOf(s', with) == GrantsOf(s, with) + [g];
    if LiveOn(g, r, t) && epoch <= g.body.epoch {
      assert g in GrantsOf(s', with) && Gives(g, r, facet, epoch, t);
    }
  }

  /** A share is alive when it is made, and of no epoch later than the current. */
  lemma ShareIsAlive(
    s: State, close: CloseId, holder: Identity, facet: Facet, powers: Powers, days: Option<nat>, now: nat, eph: nat)
    requires Inv(s) && close in s.closes
    requires ShareGrant(s, s.closes[close], s.people[s.me], holder.Public(), facet, powers, ShareExpiry(days, now), now,
                        eph).Ok?
    ensures var g := ShareGrant(s, s.closes[close], s.people[s.me], holder.Public(), facet, powers,
                                ShareExpiry(days, now), now, eph).value;
            Alive(g.body.expiresAt, now) && g.body.epoch <= s.closes[close].epoch
  {
    ShareGrantCarries(s, close, holder, facet, powers, ShareExpiry(days, now), now, eph);
    if s.closes[close].steward != s.people[s.me].VerifyingKey() {
      FirstWideIs(GrantsOf(s, s.me), s.closes[close], facet, powers, now);
    }
  }

  lemma SharesCurrentIff(
    s: State, close: CloseId, holder: Identity, facet: Facet, powers: Powers, days: Option<nat>, now: nat, eph: nat)
    requires Inv(s) && close in s.closes
    requires ShareGrant(s, s.closes[close], s.people[s.me], holder.Public(), facet, powers, ShareExpiry(days, now), now,
                        eph).Ok?
    ensures var r := s.closes[close];
            r.epoch <= SharedEpoch(s, r, facet, powers, now) <==>
            || r.steward == s.people[s.me].VerifyingKey()
            || FirstWide(GrantsOf(s, s.me), r, facet, powers, now).value.body.epoch == r.epoch
  {
    ShareIsAlive(s, close, holder, facet, powers, days, now, eph);
    ShareGrantCarries(s, close, holder, facet, powers, ShareExpiry(days, now), now, eph);
  }

  /** So a share gives the current key exactly if the steward makes it, or someone
      whose first grant that is wide enough is of the current epoch. */
  lemma ShareGivesCurrentIff(
    s: State, path: string, with: string, facet: Facet, powers: Powers, days: Option<nat>, now: nat, eph: nat)
    returns (close: CloseId)
    requires Inv(s) && Share(s, path, with, facet, powers, days, now, eph).Ok? && facet != Presence
    requires forall h :: h in GrantsOf(s, with) ==> Some(h.body.close) != Governing(s.closemap, Join(Segments(path)))
    ensures Governing(s.closemap, Join(Segments(path))) == Some(close) && close in s.closes
    ensures var s', r := Share(s, path, with, facet, powers, days, now, eph).value, s.closes[close];
            FacetKeyFor(s', with, s'.closes[close], facet, r.epoch, now).Some? <==>
            || r.steward == s.people[s.me].VerifyingKey()
            || FirstWide(GrantsOf(s, s.me), r, facet, powers, now).value.body.epoch == r.epoch
  {
    var epoch := s.closes[Governing(s.closemap, Join(Segments(path))).value].epoch;
    var g: Grant;
    close, g := ShareReaches(s, path, with, facet, powers, days, now, eph, epoch, now);
    ShareIsAlive(s, close, s.people[with], facet, powers, days, now, eph);
    SharesCurrentIff(s, close, s.people[with], facet, powers, days, now, eph);
  }

  lemma {:induction false} FirstWideStays(
    gs: seq<Grant>, more: seq<Grant>, r: CloseRecord, r': CloseRecord, facet: Facet, powers: Powers, now: nat)
    requires r.id == r'.id && r.steward == r'.steward
    requires FirstWide(gs, r, facet, powers, now).Some?
    ensures FirstWide(gs + more, r', facet, powers, now) == FirstWide(gs, r, facet, powers, now)
  {
    assert gs != [];
    assert (gs + more)[0] == gs[0] && (gs + more)[1..] == gs[1..] + more;
    LiveNeedsOnlySteward(gs[0], r, r', now);
    if !WideEnough(gs[0], r, facet, powers, now) {
      FirstWideStays(gs[1..], more, r, r', facet, powers, now);
    }
  }

  /** A lock change puts the new grant behind the old ones, so until these expire
      a keeper goes on sharing what was current before. */
  lemma KeepersShareThePast(
    s: State, s': State, close: CloseId, except: set<string>, now: nat, minted: Key, ephs: string -> nat, who: string,
    facet: Facet, powers: Powers, t: nat)
    requires Inv(s) && LockChanged(s, s', close, except, now, minted, ephs)
    requires FirstWide(GrantsOf(s, who), s.closes[close], facet, powers, t).Some?
    ensures var mine := FirstWide(GrantsOf(s, who), s.closes[close], facet, powers, t);
            && FirstWide(GrantsOf(s', who), s'.closes[close], facet, powers, t) == mine
            && mine.value.body.epoch < s'.closes[close].epoch
  {
    var r, r' := s.closes[close], s'.closes[close];
    LockChangeIsLater(s, s', close, except, now, minted, ephs);
    assert GrantsOf(s', who) == GrantsAfter(s, r', close, except, now, ephs, who);
    var more := GrantsOf(s', who)[|GrantsOf(s, who)|..];
    assert GrantsOf(s', who) == GrantsOf(s, who) + more;
    FirstWideStays(GrantsOf(s, who), more, r, r', facet, powers, t);
    FirstWideIs(GrantsOf(s, who), r, facet, powers, t);
    assert GrantOk(s, who, FirstWide(GrantsOf(s, who), r, facet, powers, t).value);
  }
}
