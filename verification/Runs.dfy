/** Whole runs: any operations, by anyone, in any order, from a fresh commons. */
module Runs {
  import opened Terms
  import opened Commons
  import opened Keyring
  import opened Upkeep
  import opened Snapshots
  import opened Reading
  import opened History
  import opened Signposts
  import opened Moves

  datatype Op =
    | ActAs(who: string)
    | AddPerson(name: string, sign: nat, dh: nat)
    | ProtectPath(path: string, title: Option<string>, seed: Key, eph: nat)
    | SharePath(path: string, with: string, facet: Facet, powers: Powers, days: Option<nat>, now: nat, eph: nat)
    | ChangeLock(path: string, except: set<string>, now: nat, minted: Key, ephs: string -> nat)
    | KeepTree(root: Node, message: string, now: nat)
    | RaiseCell(path: string, kind: string, forwardOnly: seq<string>)
    | MoveCell(who: string, path: string, slots: seq<Slot>, reason: string, now: nat)

  /** Fresh seeds make new closes, and the working tree is a folder whose names
      are distinct. Nothing else is asked of an operation. */
  ghost predicate Allowed(s: State, op: Op) {
    match op
    case ProtectPath(_, _, seed, _) =>
      s.me in s.people ==> forall title: string :: CloseId(s.people[s.me].VerifyingKey(), seed, title) !in s.closes
    case KeepTree(root, _, _) => root.Dir? && Distinct(root)
    case _ => true
  }

  function After(s: State, r: Result<State, Refusal>): State {
    if r.Ok? then r.value else s
  }

  /** The state after an operation, refused or not. */
  ghost function Apply(s: State, op: Op): State
    requires Allowed(s, op)
  {
    match op
    case ActAs(who) => if who in s.people then s.(me := who) else s
    case AddPerson(name, sign, dh) => After(s, NewIdentity(s, name, sign, dh))
    case ProtectPath(path, name, seed, eph) => After(s, Protect(s, path, name, seed, eph))
    case SharePath(path, with, facet, powers, days, now, eph) =>
      After(s, Share(s, path, with, facet, powers, days, now, eph))
    case ChangeLock(path, except, now, minted, ephs) => After(s, Rotate(s, path, except, now, minted, ephs))
    case KeepTree(root, message, now) => Keep(s, root, message, now).state
    case RaiseCell(path, kind, forwardOnly) => After(s, CellNew(s, path, kind, forwardOnly))
    case MoveCell(who, path, slots, reason, now) =>
      var moved := Point(s, who, path, slots, reason, now);
      if moved.Ok? then moved.value.state else s
  }

  ghost predicate Legal(s: State, ops: seq<Op>)
    decreases |ops|
  {
    ops == [] || (Allowed(s, ops[0]) && Legal(Apply(s, ops[0]), ops[1..]))
  }

  ghost function Run(s: State, ops: seq<Op>): State
    requires Legal(s, ops)
    decreases |ops|
  {
    if ops == [] then s else Run(Apply(s, ops[0]), ops[1..])
  }

  ghost predicate Good(s: State) {
    Inv(s) && MainOk(s) && SignpostsOk(s)
  }

  function MainLine(s: State): seq<CipherId> {
    if Main in s.refs then HistoryOf(s.refs[Main]) else []
  }

  ghost predicate SuffixOf<T>(tail: seq<T>, whole: seq<T>) {
    |tail| <= |whole| && whole[|whole| - |tail|..] == tail
  }

  // ---- every step keeps everything ------------------------------------------------------

  ghost predicate StepsWell(s: State, s': State) {
    Good(s') && Later(s, s') && SuffixOf(MainLine(s), MainLine(s'))
  }

  /** ... and moves no ref. */
  ghost predicate StepsQuietly(s: State, s': State) {
    StepsWell(s, s') && s'.refs == s.refs
  }

  lemma StandingStill(s: State)
    requires Good(s)
    ensures StepsQuietly(s, s)
  {
    LaterIsReflexive(s);
  }

  lemma MainLater(s: State, s': State)
    requires MainOk(s) && Later(s, s') && s'.refs == s.refs
    ensures MainOk(s') && SuffixOf(MainLine(s), MainLine(s'))
  {
    if Main in s.refs {
      KeptLineLater(s, s', s.refs[Main]);
    }
  }

  lemma QuietSteps(s: State, s': State)
    requires Good(s) && Inv(s') && Later(s, s') && s'.refs == s.refs && s'.cells == s.cells
    ensures StepsQuietly(s, s')
  {
    MainLater(s, s');
    SignpostsLater(s, s');
  }

  lemma ActStep(s: State, who: string)
    requires Good(s) && who in s.people
    ensures StepsQuietly(s, s.(me := who))
  {
    GrantsSurviveGrowth(s, s.(me := who));
    QuietSteps(s, s.(me := who));
  }

  lemma PersonStep(s: State, name: string, sign: nat, dh: nat)
    requires Good(s)
    ensures StepsQuietly(s, After(s, NewIdentity(s, name, sign, dh)))
  {
    StandingStill(s);
    if NewIdentity(s, name, sign, dh).Ok? {
      NewIdentityKeeps(s, name, sign, dh);
      QuietSteps(s, NewIdentity(s, name, sign, dh).value);
    }
  }

  lemma ProtectStep(s: State, path: string, title: Option<string>, seed: Key, eph: nat)
    requires Good(s)
    requires forall name: string :: CloseId(s.people[s.me].VerifyingKey(), seed, name) !in s.closes
    ensures StepsQuietly(s, After(s, Protect(s, path, title, seed, eph)))
  {
    StandingStill(s);
    if Protect(s, path, title, seed, eph).Ok? {
      ProtectKeeps(s, path, title, seed, eph);
      QuietSteps(s, Protect(s, path, title, seed, eph).value);
    }
  }

  lemma ShareStep(
    s: State, path: string, with: string, facet: Facet, powers: Powers, days: Option<nat>, now: nat, eph: nat)
    requires Good(s)
    ensures StepsQuietly(s, After(s, Share(s, path, with, facet, powers, days, now, eph)))
  {
    StandingStill(s);
    if Share(s, path, with, facet, powers, days, now, eph).Ok? {
      ShareKeeps(s, path, with, facet, powers, days, now, eph);
      QuietSteps(s, Share(s, path, with, facet, powers, days, now, eph).value);
    }
  }

  lemma LockStep(s: State, path: string, except: set<string>, now: nat, minted: Key, ephs: string -> nat)
    requires Good(s)
    ensures StepsQuietly(s, After(s, Rotate(s, path, except, now, minted, ephs)))
  {
    StandingStill(s);
    if Rotate(s, path, except, now, minted, ephs).Ok? {
      RotateKeeps(s, path, except, now, minted, ephs);
      QuietSteps(s, Rotate(s, path, except, now, minted, ephs).value);
    }
  }

  lemma MainGrowsSteps(s: State, s': State, kept: Option<CipherId>)
    requires Good(s) && Inv(s') && Later(s, s') && MainOk(s')
    requires s' == s.(objects := s'.objects, refs := s'.refs)
    requires s'.refs == if kept.Some? then s.refs[Main := kept.value] else s.refs
    requires kept.Some? ==> MainLine(s') == [kept.value] + MainLine(s)
    ensures StepsWell(s, s')
  {
    SignpostsLater(s, s');
  }

  lemma KeepStep(s: State, root: Node, message: string, now: nat)
    requires Good(s) && root.Dir? && Distinct(root)
    ensures StepsWell(s, Keep(s, root, message, now).state)
  {
    var k := Keep(s, root, message, now);
    KeepKeeps(s, root, message, now);
    KeepExtendsHistory(s, root, message, now);
    MainGrowsSteps(s, k.state, if k.outcome.Ok? then Some(k.outcome.value) else None);
  }

  lemma RaiseStep(s: State, path: string, kind: string, forwardOnly: seq<string>)
    requires Good(s)
    ensures StepsQuietly(s, After(s, CellNew(s, path, kind, forwardOnly)))
  {
    StandingStill(s);
    if CellNew(s, path, kind, forwardOnly).Ok? {
      CellNewKeeps(s, path, kind, forwardOnly);
      CellNewKeepsSignposts(s, path, kind, forwardOnly);
      MainLater(s, CellNew(s, path, kind, forwardOnly).value);
    }
  }

  lemma MoveStep(s: State, who: string, path: string, slots: seq<Slot>, reason: string, now: nat)
    requires Good(s) && Point(s, who, path, slots, reason, now).Ok?
    ensures StepsWell(s, Point(s, who, path, slots, reason, now).value.state)
  {
    var s' := Point(s, who, path, slots, reason, now).value.state;
    var decl := PointExtendsJournal(s, who, path, slots, reason, now);
    if Main in s.refs {
      KeptLineLater(s, s', s.refs[Main]);
    }
  }

  /** Only keepings and moves touch refs. */
  ghost predicate Refless(op: Op) {
    !op.KeepTree? && !op.MoveCell?
  }

  lemma ReflessStepKeeps(s: State, op: Op)
    requires Good(s) && Allowed(s, op) && Refless(op)
    ensures StepsQuietly(s, Apply(s, op))
  {
    match op
    case ActAs(who) =>
      StandingStill(s);
      if who in s.people { ActStep(s, who); }
    case AddPerson(name, sign, dh) => PersonStep(s, name, sign, dh);
    case ProtectPath(path, title, seed, eph) => ProtectStep(s, path, title, seed, eph);
    case SharePath(path, with, facet, powers, days, now, eph) =>
      ShareStep(s, path, with, facet, powers, days, now, eph);
    case ChangeLock(path, except, now, minted, ephs) => LockStep(s, path, except, now, minted, ephs);
    case RaiseCell(path, kind, forwardOnly) => RaiseStep(s, path, kind, forwardOnly);
    case _ =>
  }

  lemma MoveStepKeeps(s: State, op: Op)
    requires Good(s) && op.MoveCell?
    ensures StepsWell(s, Apply(s, op))
  {
    var moved := Point(s, op.who, op.path, op.slots, op.reason, op.now);
    if moved.Ok? {
      MoveStep(s, op.who, op.path, op.slots, op.reason, op.now);
      assert Apply(s, op) == moved.value.state;
    } else {
      StandingStill(s);
    }
  }

  lemma StepKeeps(s: State, op: Op)
    requires Good(s) && Allowed(s, op)
    ensures StepsWell(s, Apply(s, op))
  {
    if op.KeepTree? {
      KeepStep(s, op.root, op.message, op.now);
    } else if op.MoveCell? {
      MoveStepKeeps(s, op);
    } else {
      ReflessStepKeeps(s, op);
    }
  }

  /** Whatever is done, in whatever order, the state stays good, nothing
      recorded is lost, and the line of keepings only grows at its front. */
  lemma {:induction false} RunKeeps(s: State, ops: seq<Op>)
    requires Good(s) && Legal(s, ops)
    ensures StepsWell(s, Run(s, ops))
    decreases |ops|
  {
    if ops == [] {
      StandingStill(s);
    } else {
      var next := Apply(s, ops[0]);
      StepKeeps(s, ops[0]);
      RunKeeps(next, ops[1..]);
      StepsCompose(s, next, Run(s, ops));
    }
  }

  lemma StepsCompose(a: State, b: State, c: State)
    requires StepsWell(a, b) && StepsWell(b, c)
    ensures StepsWell(a, c)
  {
    LaterIsTransitive(a, b, c);
    SuffixIsTransitive(MainLine(a), MainLine(b), MainLine(c));
  }

  lemma InitIsGood(me: string, sign: nat, dh: nat, seed: Key, eph: nat)
    ensures Good(Init(me, sign, dh, seed, eph))
  {
    InitKeeps(me, sign, dh, seed, eph);
  }

  // ---- keepings are readable for ever ------------------------------------------------------

  /** At any point of any run, a keeping that once succeeded is read back, by
      whoever holds the needed keys then, as exactly the bytes that the working tree
      had at every path that is not hidden, and by nobody else. */
  lemma KeepingsLast(
    s: State, root: Node, message: string, kept: nat, ops: seq<Op>, who: string, path: seq<string>, now: nat)
    requires Good(s) && root.Dir? && Distinct(root) && Keep(s, root, message, kept).outcome.Ok?
    requires Legal(Keep(s, root, message, kept).state, ops)
    ensures var k := Keep(s, root, message, kept);
            var s' := Run(k.state, ops);
            ReadFrom(s', who, k.outcome.value, path, now) ==
            if !Hidden(path) && MayRead(s', who, k.outcome.value, path, now) then BytesIn(root, path) else None
  {
    var k := Keep(s, root, message, kept);
    var s' := Run(k.state, ops);
    KeepStep(s, root, message, kept);
    KeepKeeps(s, root, message, kept);
    RunKeeps(k.state, ops);
    KeptCommitLater(k.state, s', Sealable(s, kept), k.outcome.value, root);
    CommitReadsIff(s', who, k.outcome.value, root, path, now);
  }

  lemma SuffixIsTransitive<T>(a: seq<T>, b: seq<T>, c: seq<T>)
    requires SuffixOf(a, b) && SuffixOf(b, c)
    ensures SuffixOf(a, c)
  {
    assert c[|c| - |a|..] == c[|c| - |b|..][|b| - |a|..];
  }
}
