/** Protecting a path again (`protect` of crates/close/src/main.rs): the close
    that governed it can no longer be named by any path, so it is as it is. */
module Freezing {
  import opened Terms
  import opened Closes
  import opened Paths
  import opened Commons
  import opened Keyring
  import opened Upkeep
  import opened Runs

  /** No path is governed by the close. */
  ghost predicate Frozen(s: State, close: CloseId) {
    close in s.closes && forall rel: string :: Governing(s.closemap, rel) != Some(close)
  }

  /** Each mapping of the close has a later one of the same prefix. */
  ghost predicate Overshadowed(closemap: seq<Mapping>, close: CloseId) {
    forall i :: 0 <= i < |closemap| && closemap[i].close == close ==> OvershadowedAt(closemap, i)
  }

  ghost predicate OvershadowedAt(closemap: seq<Mapping>, i: nat)
    requires i < |closemap|
  {
    exists j :: i < j < |closemap| && closemap[j].prefix == closemap[i].prefix
  }

  /** A close is frozen exactly if all its mappings are overshadowed. */
  lemma FrozenIff(s: State, close: CloseId)
    requires close in s.closes
    ensures Frozen(s, close) <==> Overshadowed(s.closemap, close)
  {
    var closemap := s.closemap;
    if Overshadowed(closemap, close) {
      forall rel: string ensures Governing(closemap, rel) != Some(close) {
        BestMappingIsLongest(closemap, rel, |closemap|);
        var best := BestMapping(closemap, rel, |closemap|);
        assert best.Some? ==> !OvershadowedAt(closemap, best.value);
      }
    }
    if Frozen(s, close) {
      forall i | 0 <= i < |closemap| && closemap[i].close == close ensures OvershadowedAt(closemap, i) {
        var rel := closemap[i].prefix;
        assert Matches(rel, rel);
        BestMappingIsLongest(closemap, rel, |closemap|);
        assert Governing(closemap, rel) != Some(close);
        var best := BestMapping(closemap, rel, |closemap|).value;
        LongestIsSame(closemap[best].prefix, rel);
      }
    }
  }

  /** No longer prefix than a path itself is above it, and no other as long. */
  lemma LongestIsSame(prefix: string, rel: string)
    requires Matches(prefix, rel)
    ensures |prefix| >= |rel| ==> prefix == rel
  {
  }

  // ---- what is frozen stays as it is -----------------------------------------------------

  /** Nothing about the close has changed: its lock, and who was granted what. */
  ghost predicate Unmoved(s: State, s': State, close: CloseId) {
    && close in s.closes && close in s'.closes && s'.closes[close] == s.closes[close]
    && forall who: string, g: Grant :: g.body.close == close ==> (g in GrantsOf(s', who) <==> g in GrantsOf(s, who))
  }

  ghost predicate StaysFrozen(s: State, s': State, close: CloseId) {
    Frozen(s', close) && Unmoved(s, s', close)
  }

  lemma {:induction false} BestOfMore(closemap: seq<Mapping>, m: Mapping, rel: string, n: nat)
    requires n <= |closemap|
    ensures BestMapping(closemap + [m], rel, n) == BestMapping(closemap, rel, n)
  {
    if n > 0 {
      BestOfMore(closemap, m, rel, n - 1);
    }
  }

  lemma MappedElsewhere(closemap: seq<Mapping>, m: Mapping, close: CloseId, rel: string)
    requires m.close != close && Governing(closemap, rel) != Some(close)
    ensures Governing(closemap + [m], rel) != Some(close)
  {
    BestOfMore(closemap, m, rel, |closemap|);
  }

  /** A grant of another close changes nothing. */
  lemma GrantElsewhere(s: State, s': State, who: string, g: Grant, close: CloseId)
    requires close in s.closes && close in s'.closes && s'.closes[close] == s.closes[close]
    requires s'.grants == AddGrant(s, who, g).grants && g.body.close != close
    ensures Unmoved(s, s', close)
  {
    forall w: string, h: Grant | h.body.close == close ensures h in GrantsOf(s', w) <==> h in GrantsOf(s, w) {
      if w == who {
        assert GrantsOf(s', w) == GrantsOf(s, w) + [g];
      }
    }
  }

  lemma ProtectElsewhere(s: State, path: string, name: Option<string>, seed: Key, eph: nat, close: CloseId)
    requires Frozen(s, close) && Protect(s, path, name, seed, eph).Ok?
    requires forall title: string :: CloseId(s.people[s.me].VerifyingKey(), seed, title) !in s.closes
    ensures StaysFrozen(s, Protect(s, path, name, seed, eph).value, close)
  {
    var s' := Protect(s, path, name, seed, eph).value;
    var rel := Join(Segments(path));
    var title, me := if name.Some? then name.value else rel, s.people[s.me];
    var (r, key0) := Found(title, OpenOutline, me.VerifyingKey(), seed);
    assert r.id == CloseId(me.VerifyingKey(), seed, title);
    GrantElsewhere(s, s', s.me, FoundingGrant(r, me, key0, eph), close);
    forall at: string ensures Governing(s'.closemap, at) != Some(close) {
      MappedElsewhere(s.closemap, Mapping(rel, r.id), close, at);
    }
  }

  lemma ShareElsewhere(
    s: State, path: string, with: string, facet: Facet, powers: Powers, days: Option<nat>, now: nat, eph: nat,
    close: CloseId)
    requires Inv(s) && Frozen(s, close) && Share(s, path, with, facet, powers, days, now, eph).Ok?
    ensures StaysFrozen(s, Share(s, path, with, facet, powers, days, now, eph).value, close)
  {
    var id := Governing(s.closemap, Join(Segments(path))).value;
    var expires := if days.Some? then Some(now + days.value * 86_400) else None;
    ShareGrantCarries(s, id, s.people[with], facet, powers, expires, now, eph);
    var g := ShareGrant(s, s.closes[id], s.people[s.me], s.people[with].Public(), facet, powers, expires, now, eph);
    GrantElsewhere(s, AddGrant(s, with, g.value), with, g.value, close);
  }

  lemma LockElsewhere(
    s: State, s': State, other: CloseId, except: set<string>, now: nat, minted: Key, ephs: string -> nat,
    close: CloseId)
    requires Inv(s) && Frozen(s, close) && LockChanged(s, s', other, except, now, minted, ephs) && other != close
    ensures StaysFrozen(s, s', close)
  {
    forall who: string, g: Grant | g.body.close == close ensures g in GrantsOf(s', who) <==> g in GrantsOf(s, who) {
      assert GrantsOf(s', who) == GrantsAfter(s, s'.closes[other], other, except, now, ephs, who);
    }
  }

  lemma RotateElsewhere(
    s: State, path: string, except: set<string>, now: nat, minted: Key, ephs: string -> nat, close: CloseId)
    requires Inv(s) && Frozen(s, close) && Rotate(s, path, except, now, minted, ephs).Ok?
    ensures StaysFrozen(s, Rotate(s, path, except, now, minted, ephs).value, close)
  {
    var other := RotateChangesLock(s, path, except, now, minted, ephs);
    LockElsewhere(s, Rotate(s, path, except, now, minted, ephs).value, other, except, now, minted, ephs, close);
  }

  /** Neither people nor keepings nor signposts touch closes, grants or mappings. */
  ghost predicate Aside(s: State, s': State) {
    s'.closes == s.closes && s'.grants == s.grants && s'.closemap == s.closemap
  }

  lemma MoveIsAside(s: State, op: Op)
    requires op.MoveCell?
    ensures Aside(s, Apply(s, op))
  {
  }

  lemma RestIsAside(s: State, op: Op)
    requires Allowed(s, op) && (op.ActAs? || op.AddPerson? || op.KeepTree? || op.RaiseCell?)
    ensures Aside(s, Apply(s, op))
  {
  }

  lemma AsideElsewhere(s: State, s': State, close: CloseId)
    requires Frozen(s, close) && Aside(s, s')
    ensures StaysFrozen(s, s', close)
  {
  }

  lemma StepElsewhere(s: State, op: Op, close: CloseId)
    requires Inv(s) && Frozen(s, close) && Allowed(s, op)
    ensures StaysFrozen(s, Apply(s, op), close)
  {
    if op.ProtectPath? {
      if Protect(s, op.path, op.title, op.seed, op.eph).Ok? {
        ProtectElsewhere(s, op.path, op.title, op.seed, op.eph, close);
      }
    } else if op.SharePath? {
      if Share(s, op.path, op.with, op.facet, op.powers, op.days, op.now, op.eph).Ok? {
        ShareElsewhere(s, op.path, op.with, op.facet, op.powers, op.days, op.now, op.eph, close);
      }
    } else if op.ChangeLock? {
      if Rotate(s, op.path, op.except, op.now, op.minted, op.ephs).Ok? {
        RotateElsewhere(s, op.path, op.except, op.now, op.minted, op.ephs, close);
      }
    } else {
      if op.MoveCell? { MoveIsAside(s, op); } else { RestIsAside(s, op); }
      AsideElsewhere(s, Apply(s, op), close);
    }
  }

  /** Over any run, a frozen close keeps its lock and hands out no more grants: who
      could read what was kept under it can, as long as their grants live, and
      nobody else ever will. */
  lemma {:induction false} FrozenForGood(s: State, ops: seq<Op>, close: CloseId)
    requires Good(s) && Legal(s, ops) && Frozen(s, close)
    ensures StaysFrozen(s, Run(s, ops), close)
    decreases |ops|
  {
    if ops != [] {
      StepElsewhere(s, ops[0], close);
      StepKeeps(s, ops[0]);
      FrozenForGood(Apply(s, ops[0]), ops[1..], close);
    }
  }

  /** So nobody comes to find a key of it. */
  lemma FrozenKeys(s: State, ops: seq<Op>, close: CloseId, who: string, facet: Facet, epoch: nat, t: nat)
    requires Good(s) && Legal(s, ops) && Frozen(s, close)
    ensures close in Run(s, ops).closes
    ensures FacetKeyFor(Run(s, ops), who, Run(s, ops).closes[close], facet, epoch, t)
         == FacetKeyFor(s, who, s.closes[close], facet, epoch, t)
  {
    var end := Run(s, ops);
    FrozenForGood(s, ops, close);
    RunKeeps(s, ops);
    KeyLookupIsExact(s, who, close, facet, epoch, t);
    KeyLookupIsExact(end, who, close, facet, epoch, t);
    SameHolds(s, end, close, who, facet, epoch, t);
  }

  lemma SameHolds(s: State, s': State, close: CloseId, who: string, facet: Facet, epoch: nat, t: nat)
    requires Inv(s) && Unmoved(s, s', close) && PeopleGrew(s, s')
    ensures Holds(s', who, close, facet, epoch, t) <==> Holds(s, who, close, facet, epoch, t)
  {
    var r := s.closes[close];
    assert forall g: Grant :: g in GrantsOf(s, who) ==> GrantOk(s, who, g);
    forall g: Grant | Gives(g, r, facet, epoch, t) ensures g in GrantsOf(s', who) <==> g in GrantsOf(s, who) {
    }
  }
}
