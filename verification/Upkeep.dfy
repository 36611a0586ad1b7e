/** Every operation keeps the invariant and loses nothing. */
module Upkeep {
  import opened Terms
  import opened Closes
  import opened Grants
  import opened Paths
  import opened Cells
  import opened Commons
  import opened Keyring

  // ---- grants made by the operations carry true keys --------------------------------

  lemma IssueRootCarries(
    r: CloseRecord, signer: nat, epoch: nat, holder: Identity, facet: Facet, powers: Powers, prefix: seq<string>,
    expiresAt: Option<nat>, caveats: seq<string>, eph: nat)
    requires epoch <= |r.chain|
    ensures var g := IssueRoot(r, signer, TrueKey(r, epoch), epoch, holder.Public(), facet, powers, prefix,
                               expiresAt, caveats, eph);
            Carries(g, holder, r) && g.body.close == r.id
  {
    var aad := GrantAad(r.id, holder.Public(), facet, epoch);
    var key := TrueFacetKey(r, facet, epoch);
    if key.Some? {
      UnwrapIff(eph, holder.dh, aad, key.value, holder.dh, aad);
    }
  }

  /** From a grant that carries its true key, passing on any narrower terms
      succeeds, and the new grant carries the true key of its own facet. */
  lemma AttenuateCarries(
    p: Grant, giver: Identity, r: CloseRecord, holder: Identity, facet: Facet, powers: Powers, prefix: seq<string>,
    expiresAt: Option<nat>, caveats: seq<string>, eph: nat)
    requires Carries(p, giver, r) && p.body.close == r.id
    requires facet.AtMost(p.body.facet) && HasPowers(p.body.powers, powers)
    requires PrefixUnder(prefix, p.body.prefix) && Tightens(expiresAt, p.body.expiresAt)
    ensures var g := Attenuate(p, giver, r, holder.Public(), facet, powers, prefix, expiresAt, caveats, eph);
            g.Ok? && Carries(g.value, holder, r) && g.value.body.close == r.id
  {
    var aad := GrantAad(r.id, holder.Public(), facet, p.body.epoch);
    var key := TrueFacetKey(r, facet, p.body.epoch);
    if key.Some? {
      UnwrapIff(eph, holder.dh, aad, key.value, holder.dh, aad);
    }
  }

  lemma GrantsSurviveGrowth(s: State, s': State)
    requires GrantsOk(s) && ClosesGrew(s.closes, s'.closes) && PeopleGrew(s, s') && s'.grants == s.grants
    ensures GrantsOk(s')
  {
    forall who, g | who in s'.grants && g in s'.grants[who] ensures GrantOk(s', who, g) {
      assert GrantOk(s, who, g);
      CarriesLater(g, s.people[who], s.closes[g.body.close], s'.closes[g.body.close]);
    }
  }

  lemma AddGrantKeeps(s: State, who: string, g: Grant)
    requires Inv(s) && GrantOk(s, who, g)
    ensures Inv(AddGrant(s, who, g)) && Later(s, AddGrant(s, who, g))
  {
    var s' := AddGrant(s, who, g);
    forall w, h | w in s'.grants && h in s'.grants[w] ensures GrantOk(s', w, h) {
      if w == who && h != g {
        assert h in GrantsOf(s, who);
      }
      assert GrantOk(s, w, h);
    }
  }

  // ---- each operation -------------------------------------------------------------------

  lemma InitKeeps(me: string, sign: nat, dh: nat, seed: Key, eph: nat)
    ensures Inv(Init(me, sign, dh, seed, eph))
  {
    var id := Identity(me, sign, dh);
    var (r, key0) := Found("commons", OpenOutline, id.VerifyingKey(), seed);
    FoundIsSound("commons", OpenOutline, id.VerifyingKey(), seed);
    IssueRootCarries(r, sign, 0, id, Content, SET | INVOKE, [], None, [], eph);
  }

  /** A fresh commons: one person, who holds all of the one close, that governs
      everything; nothing kept and no signpost. */
  lemma InitIs(me: string, sign: nat, dh: nat, seed: Key, eph: nat)
    ensures var s, id := Init(me, sign, dh, seed, eph), CloseId(VerifyKey(sign), seed, "commons");
            && s.me == me && s.people == map[me := Identity(me, sign, dh)]
            && s.commons == id && s.closemap == [Mapping("", id)]
            && s.closes == map[id := CloseRecord(id, "commons", OpenOutline, VerifyKey(sign), 0, [])]
            && s.grants.Keys == {me} && |s.grants[me]| == 1 && Founds(s.grants[me][0], s.closes[id], s.people[me])
            && s.objects == map[] && s.refs == map[] && s.cells == []
  {
    var id := Identity(me, sign, dh);
    var (r, key0) := Found("commons", OpenOutline, id.VerifyingKey(), seed);
    FoundingFounds(r, id, key0, eph);
  }

  /** Adding a person: refused for a taken name, otherwise one person more. */
  lemma NewIdentityIs(s: State, name: string, sign: nat, dh: nat)
    ensures NewIdentity(s, name, sign, dh) ==
            if name in s.people then Err(AlreadyHere)
            else Ok(s.(people := s.people + map[name := Identity(name, sign, dh)]))
  {
    assert name !in s.people ==>
        s.people[name := Identity(name, sign, dh)] == s.people + map[name := Identity(name, sign, dh)];
  }

  lemma NewIdentityKeeps(s: State, name: string, sign: nat, dh: nat)
    requires Inv(s) && NewIdentity(s, name, sign, dh).Ok?
    ensures var s' := NewIdentity(s, name, sign, dh).value; Inv(s') && Later(s, s')
  {
    GrantsSurviveGrowth(s, NewIdentity(s, name, sign, dh).value);
  }

  lemma FoundCloseKeeps(s: State, steward: string, name: string, silhouette: Silhouette, seed: Key, eph: nat)
    requires Inv(s) && steward in s.people
    requires CloseId(s.people[steward].VerifyingKey(), seed, name) !in s.closes
    ensures var founded := FoundClose(s, steward, name, silhouette, seed, eph);
            && founded.Ok? && Inv(founded.value.0) && Later(s, founded.value.0)
            && founded.value.1 in founded.value.0.closes
  {
    var id := s.people[steward];
    var (r, key0) := Found(name, silhouette, id.VerifyingKey(), seed);
    FoundIsSound(name, silhouette, id.VerifyingKey(), seed);
    var s1 := s.(closes := s.closes[r.id := r]);
    GrantsSurviveGrowth(s, s1);
    assert Inv(s1) && Later(s, s1);
    IssueRootCarries(r, id.sign, 0, id, Content, SET | INVOKE, [], None, [], eph);
    var g := FoundingGrant(r, id, key0, eph);
    AddGrantKeeps(s1, steward, g);
    LaterIsTransitive(s, s1, AddGrant(s1, steward, g));
  }

  lemma MappingKeeps(s: State, prefix: string, id: CloseId)
    requires Inv(s) && id in s.closes
    ensures var s' := s.(closemap := s.closemap + [Mapping(prefix, id)]); Inv(s') && Later(s, s')
  {
    GrantsSurviveGrowth(s, s.(closemap := s.closemap + [Mapping(prefix, id)]));
  }

  /** Protecting a path: refused without a name, otherwise one close more, of the
      person acting and under its first lock, mapped to the path; they are granted
      all of it for good, and nobody else is granted anything. */
  lemma ProtectIs(s: State, path: string, name: Option<string>, seed: Key, eph: nat)
    requires s.me in s.people
    ensures var segs, me := Segments(path), s.people[s.me];
            var id := CloseId(me.VerifyingKey(), seed, if name.Some? then name.value else Join(segs));
            match Protect(s, path, name, seed, eph)
            case Err(e) => segs == [] && e == NoName
            case Ok(s') =>
              && segs != []
              && s' == s.(closes := s.closes[id := s'.closes[id]], grants := s'.grants,
                          closemap := s.closemap + [Mapping(Join(segs), id)])
              && s'.closes[id] == CloseRecord(id, id.name, OpenOutline, me.VerifyingKey(), 0, [])
              && (forall who :: who != s.me ==> GrantsOf(s', who) == GrantsOf(s, who))
              && |GrantsOf(s', s.me)| == |GrantsOf(s, s.me)| + 1 && GrantsOf(s, s.me) <= GrantsOf(s', s.me)
              && Founds(GrantsOf(s', s.me)[|GrantsOf(s, s.me)|], s'.closes[id], me)
  {
    JoinIsEmpty(Segments(path));
    var me, title := s.people[s.me], if name.Some? then name.value else Join(Segments(path));
    var (r, key0) := Found(title, OpenOutline, me.VerifyingKey(), seed);
    var g := FoundingGrant(r, me, key0, eph);
    FoundingFounds(r, me, key0, eph);
    OneMoreGrant(s, s.me, g);
    assert Segments(path) != [] ==>
        Protect(s, path, name, seed, eph) ==
        Ok(AddGrant(s, s.me, g).(closes := s.closes[r.id := r],
                                 closemap := s.closemap + [Mapping(Join(Segments(path)), r.id)]));
  }

  lemma OneMoreGrant(s: State, who: string, g: Grant)
    ensures var s' := AddGrant(s, who, g);
            GrantsOf(s', who) == GrantsOf(s, who) + [g] && forall w :: w != who ==> GrantsOf(s', w) == GrantsOf(s, w)
  {
  }

  lemma FoundingFounds(r: CloseRecord, me: Identity, key0: Key, eph: nat)
    requires r.steward == me.VerifyingKey()
    ensures Founds(FoundingGrant(r, me, key0, eph), r, me)
  {
  }

  /** Everything, everywhere, at any time. */
  ghost predicate Founds(g: Grant, r: CloseRecord, steward: Identity) {
    && g.body.close == r.id && g.body.holder == steward.Public() && g.body.facet == Content && g.body.prefix == []
    && g.body.powers & 1 != 0 && g.body.powers & 2 != 0 && g.body.epoch == 0
    && forall t: nat :: LiveOn(g, r, t)
  }

  lemma ProtectKeeps(s: State, path: string, name: Option<string>, seed: Key, eph: nat)
    requires Inv(s) && Protect(s, path, name, seed, eph).Ok?
    requires forall title: string :: CloseId(s.people[s.me].VerifyingKey(), seed, title) !in s.closes
    ensures var s' := Protect(s, path, name, seed, eph).value; Inv(s') && Later(s, s')
  {
    var title := if name.Some? then name.value else Join(Segments(path));
    FoundCloseKeeps(s, s.me, title, OpenOutline, seed, eph);
    var (s1, id) := FoundClose(s, s.me, title, OpenOutline, seed, eph).value;
    MappingKeeps(s1, Join(Segments(path)), id);
    LaterIsTransitive(s, s1, Protect(s, path, name, seed, eph).value);
  }

  lemma GoverningIsKnown(s: State, rel: string)
    requires Inv(s)
    ensures Governing(s.closemap, rel).Some? && Governing(s.closemap, rel).value in s.closes
  {
    BestMappingIsLongest(s.closemap, rel, |s.closemap|);
    assert Matches(s.closemap[0].prefix, rel);
  }

  /** What makes a share possible: a current content key for the steward, a wide
      enough live grant for anyone else. */
  ghost predicate MayShare(s: State, r: CloseRecord, facet: Facet, powers: Powers, now: nat)
    requires s.me in s.people
  {
    if r.steward == s.people[s.me].VerifyingKey() then Holds(s, s.me, r.id, Content, r.epoch, now)
    else exists g :: g in GrantsOf(s, s.me) && WideEnough(g, r, facet, powers, now)
  }

  predicate WideEnough(g: Grant, r: CloseRecord, facet: Facet, powers: Powers, now: nat) {
    LiveOn(g, r, now) && facet.AtMost(g.body.facet) && HasPowers(g.body.powers, powers)
  }

  lemma {:induction false} FirstWideIs(gs: seq<Grant>, r: CloseRecord, facet: Facet, powers: Powers, now: nat)
    ensures match FirstWide(gs, r, facet, powers, now)
            case None => forall g :: g in gs ==> !WideEnough(g, r, facet, powers, now)
            case Some(g) => g in gs && WideEnough(g, r, facet, powers, now)
  {
    if gs != [] {
      FirstWideIs(gs[1..], r, facet, powers, now);
      assert forall g :: g in gs <==> g == gs[0] || g in gs[1..];
    }
  }

  /** The epoch a share hands over: the current one for the steward, for anyone
      else that of the first grant in stored order that is wide enough. */
  function SharedEpoch(s: State, r: CloseRecord, facet: Facet, powers: Powers, now: nat): nat
    requires s.me in s.people
  {
    if r.steward == s.people[s.me].VerifyingKey() then r.epoch
    else
      match FirstWide(GrantsOf(s, s.me), r, facet, powers, now)
      case None => 0
      case Some(mine) => mine.body.epoch
  }

  ghost predicate GoodShare(g: Grant, r: CloseRecord, holder: Identity, facet: Facet, powers: Powers, epoch: nat) {
    && Carries(g, holder, r) && g.body.close == r.id
    && g.body.facet == facet && g.body.powers == powers && g.body.epoch == epoch
  }

  lemma StewardShares(
    s: State, close: CloseId, holder: Identity, facet: Facet, powers: Powers, expires: Option<nat>, now: nat, eph: nat)
    requires Inv(s) && close in s.closes && s.closes[close].steward == s.people[s.me].VerifyingKey()
    ensures var r := s.closes[close];
            var g := ShareGrant(s, r, s.people[s.me], holder.Public(), facet, powers, expires, now, eph);
            && (g.Ok? <==> Holds(s, s.me, close, Content, r.epoch, now))
            && (g.Ok? ==> GoodShare(g.value, r, holder, facet, powers, SharedEpoch(s, r, facet, powers, now)))
  {
    var r := s.closes[close];
    KeyLookupIsExact(s, s.me, close, Content, r.epoch, now);
    IssueRootCarries(r, s.people[s.me].sign, r.epoch, holder, facet, powers, [], expires, [], eph);
  }

  lemma HolderShares(
    s: State, close: CloseId, holder: Identity, facet: Facet, powers: Powers, expires: Option<nat>, now: nat, eph: nat)
    requires Inv(s) && close in s.closes && s.closes[close].steward != s.people[s.me].VerifyingKey()
    ensures var r := s.closes[close];
            var mine := FirstWide(GrantsOf(s, s.me), r, facet, powers, now);
            var g := ShareGrant(s, r, s.people[s.me], holder.Public(), facet, powers, expires, now, eph);
            && (g.Ok? <==> mine.Some?)
            && (g.Ok? ==> GoodShare(g.value, r, holder, facet, powers, SharedEpoch(s, r, facet, powers, now)))
  {
    var r, giver := s.closes[close], s.people[s.me];
    FirstWideIs(GrantsOf(s, s.me), r, facet, powers, now);
    var mine := FirstWide(GrantsOf(s, s.me), r, facet, powers, now);
    if mine.Some? {
      GrantsCarry(s, s.me, close);
      var p := mine.value.body;
      AttenuateCarries(mine.value, giver, r, holder, facet, powers, p.prefix, Tightened(expires, p.expiresAt), [], eph);
    }
  }

  /** Sharing succeeds exactly when the sharer may, and what is handed over is
      the true key of the shared facet at the shared epoch. */
  lemma ShareGrantCarries(
    s: State, close: CloseId, holder: Identity, facet: Facet, powers: Powers, expires: Option<nat>, now: nat, eph: nat)
    requires Inv(s) && close in s.closes
    ensures var r := s.closes[close];
            var g := ShareGrant(s, r, s.people[s.me], holder.Public(), facet, powers, expires, now, eph);
            && (g.Ok? <==> MayShare(s, r, facet, powers, now))
            && (g.Ok? ==> GoodShare(g.value, r, holder, facet, powers, SharedEpoch(s, r, facet, powers, now)))
  {
    if s.closes[close].steward == s.people[s.me].VerifyingKey() {
      StewardShares(s, close, holder, facet, powers, expires, now, eph);
    } else {
      HolderShares(s, close, holder, facet, powers, expires, now, eph);
      FirstWideIs(GrantsOf(s, s.me), s.closes[close], facet, powers, now);
    }
  }

  lemma ShareKeeps(
    s: State, path: string, with: string, facet: Facet, powers: Powers, days: Option<nat>, now: nat, eph: nat)
    requires Inv(s) && Share(s, path, with, facet, powers, days, now, eph).Ok?
    ensures var s' := Share(s, path, with, facet, powers, days, now, eph).value; Inv(s') && Later(s, s')
  {
    var close := Governing(s.closemap, Join(Segments(path))).value;
    var expires := if days.Some? then Some(now + days.value * 86_400) else None;
    ShareGrantCarries(s, close, s.people[with], facet, powers, expires, now, eph);
    var g := ShareGrant(s, s.closes[close], s.people[s.me], s.people[with].Public(), facet, powers, expires, now, eph);
    AddGrantKeeps(s, with, g.value);
  }

  /** `s'` is `s` after its steward changed the lock of `close` at `now`: the
      record rotated with its current key, and a grant at the new epoch added
      for each keeper and nobody else. */
  ghost predicate LockChanged(
    s: State, s': State, close: CloseId, except: set<string>, now: nat, minted: Key, ephs: string -> nat)
    requires Inv(s)
  {
    && close in s.closes
    && var r := s.closes[close];
       var r' := Rotated(r, TrueKey(r, r.epoch), minted);
    && r.steward == s.people[s.me].VerifyingKey()
    && s' == s.(closes := s.closes[close := r'], grants := s'.grants)
    && s'.grants.Keys <= s.grants.Keys + s.people.Keys
    && forall who :: GrantsOf(s', who) == GrantsAfter(s, r', close, except, now, ephs, who)
  }

  ghost function GrantsAfter(
    s: State, r': CloseRecord, close: CloseId, except: set<string>, now: nat, ephs: string -> nat, who: string)
    : seq<Grant>
    requires close in s.closes && |r'.chain| == r'.epoch && s.me in s.people
  {
    if KeepsUp(s, who, except, s.closes[close], now)
    then GrantsOf(s, who) + [ReissuedTo(s, r', s.closes[close], now, ephs, who)]
    else GrantsOf(s, who)
  }

  /** The grant a keeper gets. */
  ghost function ReissuedTo(
    s: State, r': CloseRecord, r: CloseRecord, now: nat, ephs: string -> nat, who: string): Grant
    requires |r'.chain| == r'.epoch && s.me in s.people && who in s.people && KeeperOf(s, who, r, now).Some?
  {
    ReissuedGrant(r', s.people[s.me], TrueKey(r', r'.epoch), s.people[who], KeeperOf(s, who, r, now).value, ephs(who))
  }

  lemma HandedTells(grants: Shelves, issued: map<string, Grant>, who: string)
    ensures Held(Handed(grants, issued, issued.Keys), who)
         == if who in issued then Held(grants, who) + [issued[who]] else Held(grants, who)
  {
  }

  lemma ReissuedTells(
    s: State, r': CloseRecord, close: CloseId, except: set<string>, now: nat, ephs: string -> nat, newKey: Key)
    requires close in s.closes && s.me in s.people && |r'.chain| == r'.epoch && newKey == TrueKey(r', r'.epoch)
    ensures var keepers := KeepersOf(s, s.people.Keys, except, s.closes[close], now);
            var after := Handed(s.grants, Reissued(s.people, r', s.people[s.me], newKey, keepers, ephs), keepers.Keys);
            && after.Keys <= s.grants.Keys + s.people.Keys
            && forall who :: Held(after, who) == GrantsAfter(s, r', close, except, now, ephs, who)
  {
    var keepers := KeepersOf(s, s.people.Keys, except, s.closes[close], now);
    var issued := Reissued(s.people, r', s.people[s.me], newKey, keepers, ephs);
    assert issued.Keys == keepers.Keys;
    forall who
      ensures Held(Handed(s.grants, issued, keepers.Keys), who) == GrantsAfter(s, r', close, except, now, ephs, who)
    {
      HandedTells(s.grants, issued, who);
    }
  }

  /** Every successful rotation is a lock change of the close governing its path. */
  lemma RotateChangesLock(s: State, path: string, except: set<string>, now: nat, minted: Key, ephs: string -> nat)
    returns (close: CloseId)
    requires Inv(s) && Rotate(s, path, except, now, minted, ephs).Ok?
    ensures Governing(s.closemap, Join(Segments(path))) == Some(close)
    ensures LockChanged(s, Rotate(s, path, except, now, minted, ephs).value, close, except, now, minted, ephs)
  {
    close := Governing(s.closemap, Join(Segments(path))).value;
    var r := s.closes[close];
    KeyLookupIsExact(s, s.me, close, Content, r.epoch, now);
    RotateIsSound(r, minted);
    ReissuedTells(s, Rotated(r, TrueKey(r, r.epoch), minted), close, except, now, ephs, NextKey(close, minted));
  }

  lemma ReissuedCarries(r: CloseRecord, steward: Identity, holder: Identity, k: Keeper, eph: nat)
    requires Sound(r)
    ensures var g := ReissuedGrant(r, steward, TrueKey(r, r.epoch), holder, k, eph);
            Carries(g, holder, r) && g.body.close == r.id
  {
    IssueRootCarries(r, steward.sign, r.epoch, holder, k.facet, k.powers, [], k.expiresAt, [], eph);
  }

  lemma LockChangeIsLater(
    s: State, s': State, close: CloseId, except: set<string>, now: nat, minted: Key, ephs: string -> nat)
    requires Inv(s) && LockChanged(s, s', close, except, now, minted, ephs)
    ensures Later(s, s')
    ensures var r, r' := s.closes[close], s'.closes[close];
            Sound(r') && Grew(r, r') && r'.epoch == r.epoch + 1 && TrueKey(r', r'.epoch) == NextKey(close, minted)
  {
    RotateIsSound(s.closes[close], minted);
    forall who ensures GrantsOf(s, who) <= GrantsOf(s', who) {
    }
  }

  lemma LockChangeGrantOk(
    s: State, s': State, close: CloseId, except: set<string>, now: nat, minted: Key, ephs: string -> nat,
    who: string, g: Grant)
    requires Inv(s) && LockChanged(s, s', close, except, now, minted, ephs)
    requires g in GrantsOf(s', who)
    ensures GrantOk(s', who, g)
  {
    LockChangeIsLater(s, s', close, except, now, minted, ephs);
    if g in GrantsOf(s, who) {
      assert GrantOk(s, who, g);
      CarriesLater(g, s.people[who], s.closes[g.body.close], s'.closes[g.body.close]);
    } else {
      var k := KeeperOf(s, who, s.closes[close], now).value;
      ReissuedCarries(s'.closes[close], s.people[s.me], s.people[who], k, ephs(who));
    }
  }

  lemma LockChangeKeeps(
    s: State, s': State, close: CloseId, except: set<string>, now: nat, minted: Key, ephs: string -> nat)
    requires Inv(s) && LockChanged(s, s', close, except, now, minted, ephs)
    ensures Inv(s') && Later(s, s')
  {
    LockChangeIsLater(s, s', close, except, now, minted, ephs);
    forall who, g | who in s'.grants && g in s'.grants[who] ensures GrantOk(s', who, g) {
      LockChangeGrantOk(s, s', close, except, now, minted, ephs, who, g);
    }
    assert ClosesOk(s');
  }

  lemma RotateKeeps(s: State, path: string, except: set<string>, now: nat, minted: Key, ephs: string -> nat)
    requires Inv(s) && Rotate(s, path, except, now, minted, ephs).Ok?
    ensures var s' := Rotate(s, path, except, now, minted, ephs).value; Inv(s') && Later(s, s')
  {
    var close := RotateChangesLock(s, path, except, now, minted, ephs);
    LockChangeKeeps(s, Rotate(s, path, except, now, minted, ephs).value, close, except, now, minted, ephs);
  }

  lemma StoreGrowthKeeps(s: State, s': State)
    requires Inv(s) && Addressed(s'.objects) && ObjectsGrew(s.objects, s'.objects)
    requires s' == s.(objects := s'.objects, refs := s'.refs)
    ensures Inv(s') && Later(s, s')
  {
    GrantsSurviveGrowth(s, s');
  }

  lemma {:induction false} FindCellIs(cells: seq<CellDecl>, path: seq<string>)
    ensures match FindCell(cells, path)
            case None => forall d :: d in cells ==> d.path != path
            case Some(d) => d in cells && d.path == path
  {
    if cells != [] {
      FindCellIs(cells[1..], path);
      assert forall d :: d in cells <==> d == cells[0] || d in cells[1..];
    }
  }

  /** Raising a signpost: refused without a name or where one stands, otherwise one
      signpost more, on that path, in the close that governs it, of the given kind
      and guarding the given slots. */
  lemma CellNewIs(s: State, path: string, kind: string, forwardOnly: seq<string>)
    requires Inv(s)
    ensures Governing(s.closemap, Join(Segments(path))).Some?
    ensures var segs := Segments(path);
            CellNew(s, path, kind, forwardOnly) ==
            if segs == [] then Err(NoName)
            else if exists d :: d in s.cells && d.path == segs then Err(CellStands)
            else
              var close := Governing(s.closemap, Join(segs)).value;
              Ok(s.(cells := s.cells + [CellDecl(segs, close, kind, forwardOnly)]))
  {
    JoinIsEmpty(Segments(path));
    GoverningIsKnown(s, Join(Segments(path)));
    FindCellIs(s.cells, Segments(path));
  }

  lemma CellsStayOk(s: State, d: CellDecl)
    requires Inv(s) && Clean(d.path) && d.close in s.closes && FindCell(s.cells, d.path).None?
    ensures CellsOk(s.(cells := s.cells + [d]))
  {
    FindCellIs(s.cells, d.path);
  }

  lemma CellNewKeeps(s: State, path: string, kind: string, forwardOnly: seq<string>)
    requires Inv(s) && CellNew(s, path, kind, forwardOnly).Ok?
    ensures var s' := CellNew(s, path, kind, forwardOnly).value; Inv(s') && Later(s, s')
  {
    var segs := Segments(path);
    GoverningIsKnown(s, Join(segs));
    var d := CellDecl(segs, Governing(s.closemap, Join(segs)).value, kind, forwardOnly);
    CellsStayOk(s, d);
    GrantsSurviveGrowth(s, s.(cells := s.cells + [d]));
  }
}
