/** A run after which a deletion is undone for whoever cannot open the base
    folder: Bob keeps a folder, Ann puts it under a close of her own, keeps it,
    empties it and keeps again. While she can open what Bob kept, merging her two
    keepings over his drops the deleted file; afterwards it comes back. */
module Undeletion {
  import opened Terms
  import opened Closes
  import opened Grants
  import opened Paths
  import opened Commons
  import opened Keyring
  import opened Upkeep
  import opened Snapshots
  import opened Reading
  import opened History
  import opened Rekeeping
  import opened Sharing
  import opened Runs
  import opened Mergers
  import opened Freezing
  import R = Rotations
  import M = Merge
  import L = MergeLaws

  const BOB := "bob"
  const ANN := "ann"
  const COMMONS := CloseId(VerifyKey(0), Seed(0), "commons")
  const BOBS := CloseId(VerifyKey(0), Seed(1), "d")
  const FILES := CloseId(VerifyKey(0), Seed(2), "d/f")
  const ANNS := CloseId(VerifyKey(1), Seed(3), "d")

  function Start(): State {
    Init(BOB, 0, 0, Seed(0), 0)
  }

  // ---- runs, one operation at a time ----------------------------------------------------------

  ghost predicate Reached(s: State) {
    exists ops: seq<Op> :: Legal(Start(), ops) && Run(Start(), ops) == s
  }

  ghost predicate Begun(s: State) {
    Reached(s) && Good(s)
  }

  lemma {:induction false} OneMore(s: State, ops: seq<Op>, op: Op)
    requires Legal(s, ops) && Allowed(Run(s, ops), op)
    ensures Legal(s, ops + [op]) && Run(s, ops + [op]) == Apply(Run(s, ops), op)
    decreases |ops|
  {
    if ops == [] {
      assert ops + [op] == [op];
    } else {
      assert (ops + [op])[1..] == ops[1..] + [op];
      OneMore(Apply(s, ops[0]), ops[1..], op);
    }
  }

  lemma Reaches(s: State, op: Op)
    requires Reached(s) && Good(s) && Allowed(s, op)
    ensures Reached(Apply(s, op)) && StepsWell(s, Apply(s, op))
  {
    var ops: seq<Op> :| Legal(Start(), ops) && Run(Start(), ops) == s;
    OneMore(Start(), ops, op);
    StepKeeps(s, op);
  }

  // ---- where the run is ---------------------------------------------------------------------------

  /** A close as it was founded. */
  function AsFounded(id: CloseId): CloseRecord {
    Found(id.name, OpenOutline, id.steward, id.seed).0
  }

  /** Bob and Ann, these closes as they were founded, and these mappings. */
  ghost predicate Stage(s: State, me: string, closemap: seq<Mapping>, ids: set<CloseId>) {
    && s.me == me && s.commons == COMMONS && s.closemap == closemap && s.closes.Keys == ids
    && (forall id :: id in ids ==> s.closes[id] == AsFounded(id))
    && BOB in s.people && s.people[BOB] == Identity(BOB, 0, 0)
    && ANN in s.people && s.people[ANN] == Identity(ANN, 1, 1)
  }

  ghost predicate Always(s: State, who: string, close: CloseId, facet: Facet) {
    forall t: nat :: Holds(s, who, close, facet, 0, t)
  }

  ghost predicate ForADay(s: State, who: string, close: CloseId, facet: Facet) {
    forall t: nat :: Holds(s, who, close, facet, 0, t) <==> t <= 86_400
  }

  /** All closes but one stay as they are, for whoever is there already. */
  ghost predicate OthersUnmoved(s: State, s': State, id: CloseId) {
    && (forall close :: close in s.closes && close != id ==> Unmoved(s, s', close))
    && s.people.Keys <= s'.people.Keys
  }

  lemma UnmovedHolds(s: State, s': State, who: string, close: CloseId, facet: Facet, t: nat)
    requires Unmoved(s, s', close) && who in s.people && who in s'.people && s.closes[close].id == close
    ensures Holds(s', who, close, facet, 0, t) <==> Holds(s, who, close, facet, 0, t)
  {
    forall g: Grant | Gives(g, s.closes[close], facet, 0, t) ensures g in GrantsOf(s', who) <==> g in GrantsOf(s, who) {
    }
  }

  lemma Stays(s: State, s': State, who: string, close: CloseId, facet: Facet)
    requires Unmoved(s, s', close) && who in s.people && who in s'.people && s.closes[close].id == close
    ensures Always(s, who, close, facet) ==> Always(s', who, close, facet)
    ensures ForADay(s, who, close, facet) ==> ForADay(s', who, close, facet)
  {
    forall t: nat ensures Holds(s', who, close, facet, 0, t) <==> Holds(s, who, close, facet, 0, t) {
      UnmovedHolds(s, s', who, close, facet, t);
    }
  }

  /** A grant that lives for good gives its key for good. */
  lemma GivenAlways(s: State, who: string, close: CloseId, g: Grant, facet: Facet)
    requires who in s.people && close in s.closes && g in GrantsOf(s, who) && facet != Presence
    requires facet.AtMost(g.body.facet) && forall t: nat :: LiveOn(g, s.closes[close], t)
    ensures Always(s, who, close, facet)
  {
    forall t: nat ensures Holds(s, who, close, facet, 0, t) {
      assert Gives(g, s.closes[close], facet, 0, t);
    }
  }

  lemma FoundersHold(s: State, who: string, r: CloseRecord, key0: Key, eph: nat)
    requires who in s.people && r.id in s.closes && s.closes[r.id] == r && r.steward == s.people[who].VerifyingKey()
    requires FoundingGrant(r, s.people[who], key0, eph) in GrantsOf(s, who)
    ensures Always(s, who, r.id, Content)
  {
    GivenAlways(s, who, r.id, FoundingGrant(r, s.people[who], key0, eph), Content);
  }

  lemma Begin() returns (s: State)
    ensures s == Start() && Begun(s) && ANN !in s.people
  {
    s := Start();
    InitIsGood(BOB, 0, 0, Seed(0), 0);
    assert Legal(s, []) && Run(s, []) == s;
  }

  lemma PersonAdded(s: State, name: string, sign: nat, dh: nat) returns (s': State)
    requires Begun(s) && name !in s.people
    ensures s' == s.(people := s.people[name := Identity(name, sign, dh)]) && Begun(s')
  {
    var op := AddPerson(name, sign, dh);
    Reaches(s, op);
    s' := Apply(s, op);
  }

  lemma OpeningIs(s: State)
    requires s == Start().(people := Start().people[ANN := Identity(ANN, 1, 1)])
    ensures Stage(s, BOB, [Mapping("", COMMONS)], {COMMONS}) && MainLine(s) == [] && GrantsOf(s, ANN) == []
    ensures Always(s, BOB, COMMONS, Content)
  {
    var (r, key0) := Found("commons", OpenOutline, VerifyKey(0), Seed(0));
    FoundersHold(s, BOB, r, key0, 0);
  }

  lemma Opening() returns (s: State)
    ensures Begun(s) && Stage(s, BOB, [Mapping("", COMMONS)], {COMMONS})
    ensures MainLine(s) == [] && GrantsOf(s, ANN) == []
    ensures Always(s, BOB, COMMONS, Content)
  {
    var s0 := Begin();
    s := PersonAdded(s0, ANN, 1, 1);
    OpeningIs(s);
  }

  // ---- the operations of the run --------------------------------------------------------------------

  function KeyOf(s: State): VerifyKey
    requires s.me in s.people
  {
    s.people[s.me].VerifyingKey()
  }

  ghost predicate Fresh(s: State, seed: Key)
    requires s.me in s.people
  {
    forall title: string :: CloseId(KeyOf(s), seed, title) !in s.closes
  }

  /** What protecting a path makes of the state. */
  ghost predicate Founded(s: State, s': State, path: string, seed: Key)
    requires s.me in s.people
  {
    var (r, key0) := Found(path, OpenOutline, KeyOf(s), seed);
    s' == AddGrant(s, s.me, FoundingGrant(r, s.people[s.me], key0, 0))
          .(closes := s.closes[r.id := r], closemap := s.closemap + [Mapping(path, r.id)])
  }

  lemma ProtectFounds(s: State, path: string, seed: Key)
    requires s.me in s.people && Join(Segments(path)) == path && path != ""
    ensures Protect(s, path, None, seed, 0).Ok? && Founded(s, Protect(s, path, None, seed, 0).value, path, seed)
  {
  }

  ghost predicate MayProtect(s: State, path: string, seed: Key) {
    s.me in s.people && Join(Segments(path)) == path && path != "" && Fresh(s, seed)
  }

  lemma Protects(s: State, path: string, seed: Key) returns (s': State)
    requires Begun(s) && MayProtect(s, path, seed)
    ensures Founded(s, s', path, seed) && Begun(s') && Later(s, s')
  {
    var op := ProtectPath(path, None, seed, 0);
    ProtectFounds(s, path, seed);
    assert Allowed(s, op) by {
      assert Fresh(s, seed);
    }
    Reaches(s, op);
    s' := Apply(s, op);
  }

  lemma FoundedIs(s: State, s': State, path: string, seed: Key, close: CloseId)
    requires s.me in s.people && Fresh(s, seed) && Founded(s, s', path, seed) && close == CloseId(KeyOf(s), seed, path)
    ensures close in s'.closes && close !in s.closes && s'.closes == s.closes[close := s'.closes[close]]
    ensures s'.closes[close] == AsFounded(close)
    ensures s'.me == s.me && s'.people == s.people && s'.refs == s.refs && s'.commons == s.commons
    ensures s'.closemap == s.closemap + [Mapping(path, close)]
    ensures forall who :: who != s.me ==> GrantsOf(s', who) == GrantsOf(s, who)
    ensures Always(s', s.me, close, Content) && OthersUnmoved(s, s', close)
  {
    var (r, key0) := Found(path, OpenOutline, KeyOf(s), seed);
    var g := FoundingGrant(r, s.people[s.me], key0, 0);
    FoundersHold(s', s.me, r, key0, 0);
    forall other | other in s.closes && other != close ensures Unmoved(s, s', other) {
      GrantElsewhere(s, s', s.me, g, other);
    }
  }

  /** What sharing with Ann makes of it. */
  ghost predicate Handed(s: State, s': State, close: CloseId, facet: Facet, expires: Option<nat>) {
    && |GrantsOf(s', ANN)| > 0
    && var g := GrantsOf(s', ANN)[|GrantsOf(s', ANN)| - 1];
       && s' == AddGrant(s, ANN, g) && close in s.closes
       && g.body.close == close && g.body.facet == facet && g.body.epoch == 0
       && forall t: nat :: LiveOn(g, s.closes[close], t) <==> Alive(expires, t)
  }

  lemma BobIssues(s: State, close: CloseId, facet: Facet, expires: Option<nat>) returns (g: Grant)
    requires Inv(s) && close in s.closes && ANN in s.people && s.closes[close].epoch == 0
    requires s.closes[close].steward == KeyOf(s) && Holds(s, s.me, close, Content, 0, 0)
    ensures ShareGrant(s, s.closes[close], s.people[s.me], s.people[ANN].Public(), facet, 0, expires, 0, 0) == Ok(g)
    ensures g.body.close == close && g.body.facet == facet && g.body.epoch == 0
    ensures forall t: nat :: LiveOn(g, s.closes[close], t) <==> Alive(expires, t)
  {
    ShareGrantCarries(s, close, s.people[ANN], facet, 0, expires, 0, 0);
    g := ShareGrant(s, s.closes[close], s.people[s.me], s.people[ANN].Public(), facet, 0, expires, 0, 0).value;
  }

  ghost predicate BobMayShare(s: State, path: string, close: CloseId) {
    && Governing(s.closemap, Join(Segments(path))) == Some(close)
    && s.me in s.people && ANN in s.people && close in s.closes && s.closes[close].epoch == 0
    && s.closes[close].steward == KeyOf(s) && Holds(s, s.me, close, Content, 0, 0)
  }

  lemma ShareHands(s: State, path: string, close: CloseId, facet: Facet, days: Option<nat>)
    requires Inv(s) && BobMayShare(s, path, close)
    ensures Share(s, path, ANN, facet, 0, days, 0, 0).Ok?
    ensures Handed(s, Share(s, path, ANN, facet, 0, days, 0, 0).value, close, facet, ShareExpiry(days, 0))
  {
    var g := BobIssues(s, close, facet, ShareExpiry(days, 0));
    assert Share(s, path, ANN, facet, 0, days, 0, 0) == Ok(AddGrant(s, ANN, g));
    assert GrantsOf(AddGrant(s, ANN, g), ANN) == GrantsOf(s, ANN) + [g];
  }

  lemma Shares(s: State, path: string, close: CloseId, facet: Facet, days: Option<nat>) returns (s': State)
    requires Begun(s) && BobMayShare(s, path, close)
    ensures Handed(s, s', close, facet, ShareExpiry(days, 0)) && Begun(s') && Later(s, s')
  {
    var op := SharePath(path, ANN, facet, 0, days, 0, 0);
    ShareHands(s, path, close, facet, days);
    Reaches(s, op);
    s' := Apply(s, op);
  }

  lemma HandedIs(s: State, s': State, close: CloseId, facet: Facet, expires: Option<nat>)
    requires ANN in s.people && Handed(s, s', close, facet, expires) && facet != Presence
    ensures s'.closes == s.closes && s'.closemap == s.closemap && s'.refs == s.refs && s'.people == s.people
    ensures s'.me == s.me && s'.commons == s.commons
    ensures forall who :: who != ANN ==> GrantsOf(s', who) == GrantsOf(s, who)
    ensures OthersUnmoved(s, s', close)
    ensures forall t: nat :: Alive(expires, t) ==> Holds(s', ANN, close, facet, 0, t)
    ensures GrantsOf(s, ANN) == [] ==> forall t: nat :: Holds(s', ANN, close, facet, 0, t) ==> Alive(expires, t)
  {
    var g := GrantsOf(s', ANN)[|GrantsOf(s', ANN)| - 1];
    forall other | other in s.closes && other != close ensures Unmoved(s, s', other) {
      GrantElsewhere(s, s', ANN, g, other);
    }
    forall t: nat | Alive(expires, t) ensures Holds(s', ANN, close, facet, 0, t) {
      assert Gives(g, s'.closes[close], facet, 0, t);
    }
  }

  lemma Acts(s: State, who: string) returns (s': State)
    requires Begun(s) && who in s.people
    ensures s' == s.(me := who) && Begun(s') && Later(s, s')
  {
    var op := ActAs(who);
    Reaches(s, op);
    s' := Apply(s, op);
  }

  /** What a keeping makes of it. */
  ghost predicate Keeps(s: State, s': State, root: Node, c: CipherId)
    requires Inv(s)
  {
    && s' == s.(objects := s'.objects, refs := s.refs[Main := c])
    && MainLine(s') == [c] + MainLine(s)
    && KeptCommit(s', ANY, c, root) && CommitIn(c).value.tree == EntryOf(s, root, []).cipher
  }

  ghost predicate MayKeepAll(s: State, root: Node)
    requires Inv(s)
  {
    && root.Dir? && Distinct(root) && MayKeep(s, root, [], 0)
    && Holds(s, s.me, s.commons, Content, s.closes[s.commons].epoch, 0)
  }

  lemma KeepGives(s: State, root: Node)
    requires Good(s) && MayKeepAll(s, root)
    ensures var k := Keep(s, root, "", 0); k.outcome.Ok? && Keeps(s, k.state, root, k.outcome.value)
  {
    var k := Keep(s, root, "", 0);
    KeepSucceedsIff(s, root, "", 0);
    KeepKeeps(s, root, "", 0);
    KeepExtendsHistory(s, root, "", 0);
    KeptCommitLater(k.state, k.state, Sealable(s, 0), k.outcome.value, root);
  }

  lemma KeepReaches(s: State, root: Node)
    requires Begun(s) && root.Dir? && Distinct(root)
    ensures Begun(Keep(s, root, "", 0).state) && Later(s, Keep(s, root, "", 0).state)
  {
    Reaches(s, KeepTree(root, "", 0));
  }

  lemma KeepsTree(s: State, root: Node) returns (s': State, c: CipherId)
    requires Begun(s) && MayKeepAll(s, root)
    ensures Keeps(s, s', root, c) && Begun(s') && Later(s, s')
  {
    KeepGives(s, root);
    KeepReaches(s, root);
    s', c := Keep(s, root, "", 0).state, Keep(s, root, "", 0).outcome.value;
  }

  // ---- what governs what ------------------------------------------------------------------------------

  const BEFORE := [Mapping("", COMMONS), Mapping("d", BOBS), Mapping("d/f", FILES)]
  const AFTER := BEFORE + [Mapping("d", ANNS)]

  lemma GovernedBy(closemap: seq<Mapping>, rel: string, i: nat)
    requires i < |closemap| && Matches(closemap[i].prefix, rel)
    requires forall j :: 0 <= j < |closemap| && Matches(closemap[j].prefix, rel) ==>
               || |closemap[j].prefix| < |closemap[i].prefix|
               || (|closemap[j].prefix| == |closemap[i].prefix| && j <= i)
    ensures Governing(closemap, rel) == Some(closemap[i].close)
  {
    BestMappingIsLongest(closemap, rel, |closemap|);
  }

  lemma BeforeGoverns()
    ensures Governing(BEFORE, "") == Some(COMMONS)
    ensures Governing(BEFORE, "d") == Some(BOBS)
    ensures Governing(BEFORE, "d/f") == Some(FILES)
  {
    GovernedBy(BEFORE, "", 0);
    GovernedBy(BEFORE, "d", 1);
    GovernedBy(BEFORE, "d/f", 2);
  }

  lemma AfterGoverns()
    ensures Governing(AFTER, "") == Some(COMMONS)
    ensures Governing(AFTER, "d") == Some(ANNS)
    ensures Governing(AFTER, "d/f") == Some(FILES)
  {
    GovernedBy(AFTER, "", 0);
    GovernedBy(AFTER, "d", 3);
    GovernedBy(AFTER, "d/f", 2);
  }

  lemma Typed()
    ensures Segments("") == [] && Segments("d") == ["d"] && Segments("d/f") == ["d", "f"]
    ensures Join([]) == "" && Join(["d"]) == "d" && Join(["d", "f"]) == "d/f"
  {
    assert Join(["d", "f"]) == "d/f";
    SegmentsOfJoin([]);
    SegmentsOfJoin(["d"]);
    SegmentsOfJoin(["d", "f"]);
  }

  // ---- the working trees ----------------------------------------------------------------------------------

  const KEPT := File(Raw([]), "", "")
  const FOLDER := Dir([Kid("f", KEPT)])
  const EMPTIED := Dir([])

  function Under(folder: Node): Node {
    Dir([Kid("d", folder)])
  }

  ghost predicate MayWriteIn(s: State, close: CloseId) {
    close in s.closes && s.closes[close].epoch == 0 && Holds(s, s.me, close, Content, 0, 0)
  }

  /** Whoever holds the current content keys may keep the tree. */
  lemma MayKeepUnder(s: State, folder: Node, folders: CloseId)
    requires Inv(s) && (folder == FOLDER || folder == EMPTIED) && s.commons == COMMONS
    requires Governing(s.closemap, "") == Some(COMMONS) && Governing(s.closemap, "d") == Some(folders)
    requires Governing(s.closemap, "d/f") == Some(FILES)
    requires MayWriteIn(s, COMMONS) && MayWriteIn(s, folders) && MayWriteIn(s, FILES)
    ensures MayKeepAll(s, Under(folder))
  {
    Typed();
    MayWriteAt(s, [], COMMONS);
    MayWriteAt(s, ["d"], folders);
    MayWriteAt(s, ["d", "f"], FILES);
    MayKeepFolder(s, folder);
    MayKeepRoot(s, folder);
  }

  lemma MayWriteAt(s: State, rel: seq<string>, close: CloseId)
    requires Inv(s) && Governing(s.closemap, Join(rel)) == Some(close) && MayWriteIn(s, close)
    ensures MayWrite(s, rel, 0)
  {
  }

  lemma MayKeepRoot(s: State, folder: Node)
    requires Inv(s) && MayWrite(s, [], 0) && MayKeep(s, folder, ["d"], 0) && Distinct(folder)
    ensures MayKeep(s, Under(folder), [], 0) && Distinct(Under(folder))
  {
    assert [] + ["d"] == ["d"];
    assert MayKeepKid(s, Under(folder).kids, 0, [], 0);
    assert DistinctKid(Under(folder).kids, 0);
  }

  lemma MayKeepFolder(s: State, folder: Node)
    requires Inv(s) && (folder == FOLDER || folder == EMPTIED)
    requires MayWrite(s, ["d"], 0) && MayWrite(s, ["d", "f"], 0)
    ensures MayKeep(s, folder, ["d"], 0) && Distinct(folder)
  {
    if folder == FOLDER {
      assert ["d"] + ["f"] == ["d", "f"];
      assert MayKeepKid(s, folder.kids, 0, ["d"], 0);
      assert DistinctKid(folder.kids, 0);
    }
  }

  // ---- the run -------------------------------------------------------------------------------------------

  const EARLY := {COMMONS, BOBS}
  const EARLIER := {COMMONS, BOBS, FILES}
  const LATE := {COMMONS, BOBS, FILES, ANNS}

  lemma StageOn(s: State, s': State, me: string, closemap: seq<Mapping>, ids: set<CloseId>, path: string, seed: Key)
    requires Stage(s, me, closemap, ids) && me in s.people && Fresh(s, seed) && Founded(s, s', path, seed)
    ensures var close := CloseId(KeyOf(s), seed, path);
            Stage(s', me, closemap + [Mapping(path, close)], ids + {close})
  {
    FoundedIs(s, s', path, seed, CloseId(KeyOf(s), seed, path));
  }

  lemma FolderProtected(s: State, s': State)
    requires Stage(s, BOB, [Mapping("", COMMONS)], {COMMONS}) && Founded(s, s', "d", Seed(1))
    requires Always(s, BOB, COMMONS, Content)
    ensures Stage(s', BOB, BEFORE[..2], EARLY) && MainLine(s') == MainLine(s) && GrantsOf(s', ANN) == GrantsOf(s, ANN)
    ensures Always(s', BOB, COMMONS, Content) && Always(s', BOB, BOBS, Content)
  {
    StageOn(s, s', BOB, [Mapping("", COMMONS)], {COMMONS}, "d", Seed(1));
    FoundedIs(s, s', "d", Seed(1), BOBS);
    Stays(s, s', BOB, COMMONS, Content);
  }

  lemma FolderMayBeProtected(s: State)
    requires Stage(s, BOB, [Mapping("", COMMONS)], {COMMONS})
    ensures MayProtect(s, "d", Seed(1))
  {
    Typed();
  }

  lemma BobProtectsFolder() returns (s: State)
    ensures Begun(s) && Stage(s, BOB, BEFORE[..2], EARLY) && MainLine(s) == [] && GrantsOf(s, ANN) == []
    ensures Always(s, BOB, COMMONS, Content) && Always(s, BOB, BOBS, Content)
  {
    var s0 := Opening();
    FolderMayBeProtected(s0);
    s := Protects(s0, "d", Seed(1));
    FolderProtected(s0, s);
  }

  ghost predicate BobsHand(s: State) {
    Always(s, BOB, COMMONS, Content) && Always(s, BOB, BOBS, Content) && Always(s, BOB, FILES, Content)
  }

  ghost predicate AnnsHand(s: State) {
    ForADay(s, ANN, BOBS, Shape) && Always(s, ANN, COMMONS, Content) && Always(s, ANN, FILES, Content)
  }

  lemma FileProtected(s: State, s': State)
    requires Stage(s, BOB, BEFORE[..2], EARLY) && Founded(s, s', "d/f", Seed(2))
    requires Always(s, BOB, COMMONS, Content) && Always(s, BOB, BOBS, Content)
    ensures Stage(s', BOB, BEFORE, EARLIER) && MainLine(s') == MainLine(s) && GrantsOf(s', ANN) == GrantsOf(s, ANN)
    ensures BobsHand(s')
  {
    StageOn(s, s', BOB, BEFORE[..2], EARLY, "d/f", Seed(2));
    FoundedIs(s, s', "d/f", Seed(2), FILES);
    Stays(s, s', BOB, COMMONS, Content);
    Stays(s, s', BOB, BOBS, Content);
  }

  lemma FileMayBeProtected(s: State)
    requires Stage(s, BOB, BEFORE[..2], EARLY)
    ensures MayProtect(s, "d/f", Seed(2))
  {
    Typed();
  }

  lemma BobProtectsFile() returns (s: State)
    ensures Begun(s) && Stage(s, BOB, BEFORE, EARLIER) && MainLine(s) == [] && GrantsOf(s, ANN) == [] && BobsHand(s)
  {
    var s0 := BobProtectsFolder();
    FileMayBeProtected(s0);
    s := Protects(s0, "d/f", Seed(2));
    FileProtected(s0, s);
  }

  /** A keeping moves nothing but the store and the main ref. */
  lemma KeptOn(s: State, s': State, me: string, closemap: seq<Mapping>, ids: set<CloseId>, root: Node, c: CipherId)
    requires Inv(s) && Stage(s, me, closemap, ids) && Keeps(s, s', root, c) && ids >= EARLIER
    ensures Stage(s', me, closemap, ids) && MainLine(s') == [c] + MainLine(s) && GrantsOf(s', ANN) == GrantsOf(s, ANN)
    ensures BobsHand(s) ==> BobsHand(s')
    ensures AnnsHand(s) ==> AnnsHand(s')
    ensures Always(s, ANN, ANNS, Content) ==> Always(s', ANN, ANNS, Content)
  {
    assert forall who, close, facet, t :: Holds(s', who, close, facet, 0, t) == Holds(s, who, close, facet, 0, t);
  }

  lemma BobMayKeep(s: State)
    requires Inv(s) && Stage(s, BOB, BEFORE, EARLIER) && BobsHand(s)
    ensures MayKeepAll(s, Under(FOLDER))
  {
    BeforeGoverns();
    assert MayWriteIn(s, COMMONS) && MayWriteIn(s, BOBS) && MayWriteIn(s, FILES);
    MayKeepUnder(s, FOLDER, BOBS);
  }

  // ---- what the three keepings list ------------------------------------------------------------------

  ghost function TheFile(): TreeEntry {
    FoundIsSound(FILES.name, OpenOutline, FILES.steward, FILES.seed);
    FileEntry(AsFounded(FILES), KEPT, ["d", "f"])
  }

  ghost function Inside(folder: Node): Tree {
    if folder == FOLDER then Tree(map["f" := TheFile()]) else Tree(map[])
  }

  /** The keeping lists the folder, as sealed under the first lock of a close. */
  ghost predicate Shows(c: CipherId, folder: Node, folders: CloseId) {
    && "d" in TreeOf(c).entries
    && var e := TreeOf(c).entries["d"];
       && e.kind == TreeKind && e.close == folders
       && e.cipher.envelope.close == folders && e.cipher.envelope.epoch == 0
       && e.plain == PlainId(TrueBinding(AsFounded(folders)), TreeText(Inside(folder)))
       && e.cipher.envelope.contentCt.text == TreeText(Inside(folder))
  }

  lemma FileIs(s: State)
    requires Inv(s) && Governing(s.closemap, "d/f") == Some(FILES) && FILES in s.closes
    requires s.closes[FILES] == AsFounded(FILES)
    ensures EntryOf(s, KEPT, ["d", "f"]) == TheFile()
  {
    Typed();
  }

  lemma FolderLists(s: State, folder: Node)
    requires Inv(s) && (folder == FOLDER || folder == EMPTIED)
    requires Governing(s.closemap, "d/f") == Some(FILES) && FILES in s.closes && s.closes[FILES] == AsFounded(FILES)
    ensures R.ListingOf(s, folder, ["d"]) == Inside(folder)
  {
    assert ["d"] + ["f"] == ["d", "f"];
    if folder == FOLDER {
      FileIs(s);
      assert Listing(s, folder, 0, ["d"]) == map[];
      assert Listing(s, folder, 1, ["d"]) == map["f" := TheFile()];
    }
  }

  lemma FolderIs(s: State, folder: Node, folders: CloseId)
    requires Inv(s) && folder.Dir? && R.ListingOf(s, folder, ["d"]) == Inside(folder)
    requires Governing(s.closemap, "d") == Some(folders) && s.closes[folders] == AsFounded(folders)
    ensures var e := EntryOf(s, folder, ["d"]);
            && e.kind == TreeKind && e.close == folders
            && e.cipher.envelope.close == folders && e.cipher.envelope.epoch == 0
            && e.plain == PlainId(TrueBinding(AsFounded(folders)), TreeText(Inside(folder)))
            && e.cipher.envelope.contentCt.text == TreeText(Inside(folder))
  {
    Typed();
  }

  lemma RootLists(s: State, s': State, folder: Node, c: CipherId)
    requires Inv(s) && folder.Dir? && Keeps(s, s', Under(folder), c)
    ensures "d" in TreeOf(c).entries && TreeOf(c).entries["d"] == EntryOf(s, folder, ["d"])
  {
    var m := Listing(s, Under(folder), 1, []);
    assert [] + ["d"] == ["d"];
    assert m == Listing(s, Under(folder), 0, [])["d" := EntryOf(s, folder, ["d"])];
    assert EntriesAt(CommitIn(c).value.tree) == m;
  }

  lemma KeepingShows(s: State, s': State, folder: Node, folders: CloseId, c: CipherId)
    requires Inv(s) && (folder == FOLDER || folder == EMPTIED) && Keeps(s, s', Under(folder), c)
    requires Governing(s.closemap, "d") == Some(folders) && s.closes[folders] == AsFounded(folders)
    requires Governing(s.closemap, "d/f") == Some(FILES) && FILES in s.closes && s.closes[FILES] == AsFounded(FILES)
    ensures Shows(c, folder, folders)
  {
    FolderLists(s, folder);
    FolderIs(s, folder, folders);
    RootLists(s, s', folder, c);
  }

  // ---- the run, to its end ----------------------------------------------------------------------------

  /** The keeping is there with all that is below it. */
  ghost predicate Bears(s: State, c: CipherId, folder: Node, folders: CloseId) {
    Shows(c, folder, folders) && KeptCommit(s, ANY, c, Under(folder))
  }

  lemma BearsLater(s: State, s': State, c: CipherId, folder: Node, folders: CloseId)
    requires Bears(s, c, folder, folders) && Later(s, s')
    ensures Bears(s', c, folder, folders)
  {
    KeptCommitLater(s, s', ANY, c, Under(folder));
  }

  lemma BobKept(s: State, s': State, c: CipherId)
    requires Inv(s) && Stage(s, BOB, BEFORE, EARLIER) && BobsHand(s) && Keeps(s, s', Under(FOLDER), c)
    ensures Stage(s', BOB, BEFORE, EARLIER) && GrantsOf(s', ANN) == GrantsOf(s, ANN) && BobsHand(s')
    ensures MainLine(s') == [c] + MainLine(s) && Bears(s', c, FOLDER, BOBS)
  {
    KeptOn(s, s', BOB, BEFORE, EARLIER, Under(FOLDER), c);
    BeforeGoverns();
    KeepingShows(s, s', FOLDER, BOBS, c);
  }

  lemma BobKeeps() returns (s: State, base: CipherId)
    ensures Begun(s) && Stage(s, BOB, BEFORE, EARLIER) && GrantsOf(s, ANN) == [] && BobsHand(s)
    ensures MainLine(s) == [base] && Bears(s, base, FOLDER, BOBS)
  {
    var s0 := BobProtectsFile();
    BobMayKeep(s0);
    s, base := KeepsTree(s0, Under(FOLDER));
    BobKept(s0, s, base);
  }

  lemma BobsHandStays(s: State, s': State)
    requires BobsHand(s) && s'.closes == s.closes && BOB in s'.people && GrantsOf(s', BOB) == GrantsOf(s, BOB)
    ensures BobsHand(s')
  {
    assert BOB in s.people by {
      assert Holds(s, BOB, COMMONS, Content, 0, 0);
    }
    assert forall close, t :: Holds(s', BOB, close, Content, 0, t) == Holds(s, BOB, close, Content, 0, t);
  }

  /** Bob hands out the label of his folder for a day ... */
  lemma LabelHanded(s: State, s': State)
    requires Stage(s, BOB, BEFORE, EARLIER) && GrantsOf(s, ANN) == [] && BobsHand(s)
    requires Handed(s, s', BOBS, Shape, ShareExpiry(Some(1), 0))
    ensures Stage(s', BOB, BEFORE, EARLIER) && MainLine(s') == MainLine(s) && BobsHand(s')
    ensures ForADay(s', ANN, BOBS, Shape)
  {
    HandedIs(s, s', BOBS, Shape, ShareExpiry(Some(1), 0));
    BobsHandStays(s, s');
  }

  /** ... and the rest for good. */
  lemma CommonsHanded(s: State, s': State)
    requires Stage(s, BOB, BEFORE, EARLIER) && BobsHand(s) && ForADay(s, ANN, BOBS, Shape)
    requires Handed(s, s', COMMONS, Content, None)
    ensures Stage(s', BOB, BEFORE, EARLIER) && MainLine(s') == MainLine(s) && BobsHand(s')
    ensures ForADay(s', ANN, BOBS, Shape) && Always(s', ANN, COMMONS, Content)
  {
    HandedIs(s, s', COMMONS, Content, None);
    BobsHandStays(s, s');
    Stays(s, s', ANN, BOBS, Shape);
  }

  lemma FileHanded(s: State, s': State)
    requires Stage(s, BOB, BEFORE, EARLIER) && ForADay(s, ANN, BOBS, Shape) && Always(s, ANN, COMMONS, Content)
    requires Handed(s, s', FILES, Content, None)
    ensures Stage(s', BOB, BEFORE, EARLIER) && MainLine(s') == MainLine(s) && AnnsHand(s')
  {
    HandedIs(s, s', FILES, Content, None);
    Stays(s, s', ANN, BOBS, Shape);
    Stays(s, s', ANN, COMMONS, Content);
  }

  lemma BobMay(s: State)
    requires Stage(s, BOB, BEFORE, EARLIER) && BobsHand(s)
    ensures BobMayShare(s, "", COMMONS) && BobMayShare(s, "d", BOBS) && BobMayShare(s, "d/f", FILES)
  {
    Typed();
    BeforeGoverns();
  }

  lemma BobSharesLabel() returns (s: State, base: CipherId)
    ensures Begun(s) && Stage(s, BOB, BEFORE, EARLIER) && BobsHand(s) && ForADay(s, ANN, BOBS, Shape)
    ensures MainLine(s) == [base] && Bears(s, base, FOLDER, BOBS)
  {
    var s0: State;
    s0, base := BobKeeps();
    BobMay(s0);
    s := Shares(s0, "d", BOBS, Shape, Some(1));
    LabelHanded(s0, s);
    BearsLater(s0, s, base, FOLDER, BOBS);
  }

  lemma BobSharesCommons() returns (s: State, base: CipherId)
    ensures Begun(s) && Stage(s, BOB, BEFORE, EARLIER) && BobsHand(s)
    ensures ForADay(s, ANN, BOBS, Shape) && Always(s, ANN, COMMONS, Content)
    ensures MainLine(s) == [base] && Bears(s, base, FOLDER, BOBS)
  {
    var s0: State;
    s0, base := BobSharesLabel();
    BobMay(s0);
    s := Shares(s0, "", COMMONS, Content, None);
    CommonsHanded(s0, s);
    BearsLater(s0, s, base, FOLDER, BOBS);
  }

  lemma BobSharesFile() returns (s: State, base: CipherId)
    ensures Begun(s) && Stage(s, BOB, BEFORE, EARLIER) && AnnsHand(s)
    ensures MainLine(s) == [base] && Bears(s, base, FOLDER, BOBS)
  {
    var s0: State;
    s0, base := BobSharesCommons();
    BobMay(s0);
    s := Shares(s0, "d/f", FILES, Content, None);
    FileHanded(s0, s);
    BearsLater(s0, s, base, FOLDER, BOBS);
  }

  lemma AnnComes(s: State)
    requires Stage(s, BOB, BEFORE, EARLIER) && AnnsHand(s)
    ensures var s' := s.(me := ANN); Stage(s', ANN, BEFORE, EARLIER) && AnnsHand(s') && MainLine(s') == MainLine(s)
  {
    var s' := s.(me := ANN);
    assert forall who, close, facet, t :: Holds(s', who, close, facet, 0, t) == Holds(s, who, close, facet, 0, t);
  }

  lemma AnnActs() returns (s: State, base: CipherId)
    ensures Begun(s) && Stage(s, ANN, BEFORE, EARLIER) && AnnsHand(s)
    ensures MainLine(s) == [base] && Bears(s, base, FOLDER, BOBS)
  {
    var s0: State;
    s0, base := BobSharesFile();
    s := Acts(s0, ANN);
    AnnComes(s0);
    BearsLater(s0, s, base, FOLDER, BOBS);
  }

  /** Ann puts the folder under a close of her own. */
  lemma FolderReprotected(s: State, s': State)
    requires Stage(s, ANN, BEFORE, EARLIER) && AnnsHand(s) && Founded(s, s', "d", Seed(3))
    ensures Stage(s', ANN, AFTER, LATE) && MainLine(s') == MainLine(s)
    ensures AnnsHand(s') && Always(s', ANN, ANNS, Content)
  {
    StageOn(s, s', ANN, BEFORE, EARLIER, "d", Seed(3));
    FoundedIs(s, s', "d", Seed(3), ANNS);
    Stays(s, s', ANN, BOBS, Shape);
    Stays(s, s', ANN, COMMONS, Content);
    Stays(s, s', ANN, FILES, Content);
  }

  lemma FolderMayBeReprotected(s: State)
    requires Stage(s, ANN, BEFORE, EARLIER)
    ensures MayProtect(s, "d", Seed(3))
  {
    Typed();
  }

  lemma AnnProtects() returns (s: State, base: CipherId)
    ensures Begun(s) && Stage(s, ANN, AFTER, LATE) && AnnsHand(s) && Always(s, ANN, ANNS, Content)
    ensures MainLine(s) == [base] && Bears(s, base, FOLDER, BOBS)
  {
    var s0: State;
    s0, base := AnnActs();
    FolderMayBeReprotected(s0);
    s := Protects(s0, "d", Seed(3));
    FolderReprotected(s0, s);
    BearsLater(s0, s, base, FOLDER, BOBS);
  }

  lemma AnnMayKeep(s: State, folder: Node)
    requires Inv(s) && Stage(s, ANN, AFTER, LATE) && AnnsHand(s) && Always(s, ANN, ANNS, Content)
    requires folder == FOLDER || folder == EMPTIED
    ensures MayKeepAll(s, Under(folder))
  {
    AfterGoverns();
    assert MayWriteIn(s, COMMONS) && MayWriteIn(s, ANNS) && MayWriteIn(s, FILES);
    MayKeepUnder(s, folder, ANNS);
  }

  lemma AnnKept(s: State, s': State, folder: Node, c: CipherId)
    requires Inv(s) && Stage(s, ANN, AFTER, LATE) && AnnsHand(s) && Always(s, ANN, ANNS, Content)
    requires (folder == FOLDER || folder == EMPTIED) && Keeps(s, s', Under(folder), c)
    ensures Stage(s', ANN, AFTER, LATE) && MainLine(s') == [c] + MainLine(s)
    ensures AnnsHand(s') && Always(s', ANN, ANNS, Content) && Bears(s', c, folder, ANNS)
  {
    KeptOn(s, s', ANN, AFTER, LATE, Under(folder), c);
    AfterGoverns();
    KeepingShows(s, s', folder, ANNS, c);
  }

  lemma AnnKeeps(s: State, folder: Node) returns (s': State, c: CipherId)
    requires Begun(s) && Stage(s, ANN, AFTER, LATE) && AnnsHand(s) && Always(s, ANN, ANNS, Content)
    requires folder == FOLDER || folder == EMPTIED
    ensures Begun(s') && Stage(s', ANN, AFTER, LATE) && AnnsHand(s') && Always(s', ANN, ANNS, Content)
    ensures MainLine(s') == [c] + MainLine(s) && Bears(s', c, folder, ANNS) && Later(s, s')
  {
    AnnMayKeep(s, folder);
    s', c := KeepsTree(s, Under(folder));
    AnnKept(s, s', folder, c);
  }

  lemma AnnKeepsFull() returns (s: State, base: CipherId, ours: CipherId)
    ensures Begun(s) && Stage(s, ANN, AFTER, LATE) && AnnsHand(s) && Always(s, ANN, ANNS, Content)
    ensures MainLine(s) == [ours] + [base] && Bears(s, base, FOLDER, BOBS) && Bears(s, ours, FOLDER, ANNS)
  {
    var s0: State;
    s0, base := AnnProtects();
    s, ours := AnnKeeps(s0, FOLDER);
    BearsLater(s0, s, base, FOLDER, BOBS);
  }

  lemma AnnKeepsEmptied() returns (s: State, base: CipherId, ours: CipherId, theirs: CipherId)
    ensures Begun(s) && Stage(s, ANN, AFTER, LATE) && AnnsHand(s) && Always(s, ANN, ANNS, Content)
    ensures MainLine(s) == [theirs] + ([ours] + [base])
    ensures Bears(s, base, FOLDER, BOBS) && Bears(s, ours, FOLDER, ANNS) && Bears(s, theirs, EMPTIED, ANNS)
  {
    var s0: State;
    s0, base, ours := AnnKeepsFull();
    s, theirs := AnnKeeps(s0, EMPTIED);
    BothLater(s0, s, base, ours);
  }

  lemma BothLater(s: State, s': State, base: CipherId, ours: CipherId)
    requires Bears(s, base, FOLDER, BOBS) && Bears(s, ours, FOLDER, ANNS) && Later(s, s')
    ensures Bears(s', base, FOLDER, BOBS) && Bears(s', ours, FOLDER, ANNS)
  {
    BearsLater(s, s', base, FOLDER, BOBS);
    BearsLater(s, s', ours, FOLDER, ANNS);
  }

  // ---- Ann's merge ------------------------------------------------------------------------------------------

  ghost function Shown(c: CipherId): TreeEntry
    requires "d" in TreeOf(c).entries
  {
    TreeOf(c).entries["d"]
  }

  lemma ShownIsStored(s: State, c: CipherId, folder: Node, folders: CloseId)
    requires Bears(s, c, folder, folders) && folder.Dir?
    ensures StoredAs(s.objects, s.closes, Shown(c).cipher, TreeKind, TreeText(Inside(folder)))
  {
    var tree := CommitIn(c).value.tree;
    assert ListsKid(s.objects, s.closes, ANY, EntriesAt(tree), Under(folder).kids[0]);
    assert Shown(c) == EntriesAt(tree)["d"];
    KeptIsStored(s.objects, s.closes, ANY, Shown(c).cipher, folder);
  }

  /** The folder opens for Ann while she holds its label. */
  lemma AnnOpens(s: State, c: CipherId, folder: Node, folders: CloseId, t: nat)
    requires Inv(s) && Bears(s, c, folder, folders) && folder.Dir?
    ensures SourceOf(s, ANN, t)(Shown(c).cipher) ==
            if Holds(s, ANN, folders, Shape, 0, t) then Some(Inside(folder)) else None
  {
    ShownIsStored(s, c, folder, folders);
    OpensIff(s, ANN, Shown(c).cipher, TreeKind, TreeText(Inside(folder)), Shape, t);
  }

  lemma ContentHoldsShape(s: State, close: CloseId, t: nat)
    requires Holds(s, ANN, close, Content, 0, t)
    ensures Holds(s, ANN, close, Shape, 0, t)
  {
    var g :| g in GrantsOf(s, ANN) && Gives(g, s.closes[close], Content, 0, t);
    assert Gives(g, s.closes[close], Shape, 0, t);
  }

  /** What Ann sees of the three keepings at a time. */
  ghost predicate AnnSees(src: M.Source, base: CipherId, ours: CipherId, theirs: CipherId, within: bool) {
    && Shows(base, FOLDER, BOBS) && Shows(ours, FOLDER, ANNS) && Shows(theirs, EMPTIED, ANNS)
    && Loads(src, Shown(ours), Some(Inside(FOLDER))) && Loads(src, Shown(theirs), Some(Inside(EMPTIED)))
    && Loads(src, Shown(base), if within then Some(Inside(FOLDER)) else None)
  }

  predicate Loads(src: M.Source, e: TreeEntry, tree: Option<Tree>) {
    src(e.cipher) == tree
  }

  lemma AnnSeesThem(s: State, base: CipherId, ours: CipherId, theirs: CipherId, t: nat)
    requires Inv(s) && AnnsHand(s) && Always(s, ANN, ANNS, Content)
    requires Bears(s, base, FOLDER, BOBS) && Bears(s, ours, FOLDER, ANNS) && Bears(s, theirs, EMPTIED, ANNS)
    ensures AnnSees(SourceOf(s, ANN, t), base, ours, theirs, t <= 86_400)
  {
    assert Holds(s, ANN, ANNS, Content, 0, t);
    ContentHoldsShape(s, ANNS, t);
    AnnOpens(s, base, FOLDER, BOBS, t);
    AnnOpens(s, ours, FOLDER, ANNS, t);
    AnnOpens(s, theirs, EMPTIED, ANNS, t);
  }

  lemma FolderIsUnseen(src: M.Source, src': M.Source, base: CipherId, ours: CipherId, theirs: CipherId)
    requires AnnSees(src, base, ours, theirs, false) && AnnSees(src', base, ours, theirs, true)
    ensures L.DeletedUnseen(src, src', TreeOf(base), TreeOf(ours), TreeOf(theirs), "d", "f")
  {
    assert "f" in Inside(FOLDER).entries && "f" !in Inside(EMPTIED).entries;
  }

  /** The merge takes the file, or it drops it. */
  ghost predicate HasFile(m: M.MergedTree, has: bool) {
    && "d" in m.entries && m.entries["d"].Subtree?
    && ("f" in m.entries["d"].tree.entries <==> has)
    && (has ==> m.entries["d"].tree.entries["f"] == M.Take(TheFile()))
  }

  ghost function AnnsMerge(s: State, t: nat, base: CipherId, ours: CipherId, theirs: CipherId): M.MergedTree
    requires M.WellFounded(SourceOf(s, ANN, t))
  {
    M.ThreeWay(SourceOf(s, ANN, t), Some(TreeOf(base)), TreeOf(ours), TreeOf(theirs))
  }

  /** A pair of times, one while the grant lives and one after. */
  lemma AnnMerges(s: State, base: CipherId, ours: CipherId, theirs: CipherId, t: nat, late: nat)
    requires Inv(s) && AnnsHand(s) && Always(s, ANN, ANNS, Content) && t <= 86_400 < late
    requires Bears(s, base, FOLDER, BOBS) && Bears(s, ours, FOLDER, ANNS) && Bears(s, theirs, EMPTIED, ANNS)
    requires M.WellFounded(SourceOf(s, ANN, t)) && M.WellFounded(SourceOf(s, ANN, late))
    ensures HasFile(AnnsMerge(s, t, base, ours, theirs), false)
    ensures HasFile(AnnsMerge(s, late, base, ours, theirs), true)
  {
    AnnSeesThem(s, base, ours, theirs, t);
    AnnSeesThem(s, base, ours, theirs, late);
    var src, src' := SourceOf(s, ANN, late), SourceOf(s, ANN, t);
    FolderIsUnseen(src, src', base, ours, theirs);
    L.DeletionComesBack(src, src', TreeOf(base), TreeOf(ours), TreeOf(theirs), "d", "f");
  }

  /** Protecting the folder again has left Bob's close without a path. */
  lemma BobsIsFrozen(s: State)
    requires Stage(s, ANN, AFTER, LATE)
    ensures Frozen(s, BOBS)
  {
    assert OvershadowedAt(AFTER, 1) by {
      assert AFTER[3].prefix == AFTER[1].prefix;
    }
    FrozenIff(s, BOBS);
  }

  /** Ann's merge has the file exactly when her grant has run out. */
  ghost predicate ComesBack(s: State, base: CipherId, ours: CipherId, theirs: CipherId) {
    forall t: nat ::
      M.WellFounded(SourceOf(s, ANN, t)) && HasFile(AnnsMerge(s, t, base, ours, theirs), t > 86_400)
  }

  lemma FileComesBack(s: State, base: CipherId, ours: CipherId, theirs: CipherId)
    requires Inv(s) && AnnsHand(s) && Always(s, ANN, ANNS, Content)
    requires Bears(s, base, FOLDER, BOBS) && Bears(s, ours, FOLDER, ANNS) && Bears(s, theirs, EMPTIED, ANNS)
    ensures ComesBack(s, base, ours, theirs)
  {
    forall t: nat
      ensures M.WellFounded(SourceOf(s, ANN, t)) && HasFile(AnnsMerge(s, t, base, ours, theirs), t > 86_400)
    {
      PersonsMergeEnds(s, ANN, t);
      PersonsMergeEnds(s, ANN, 0);
      PersonsMergeEnds(s, ANN, 86_401);
      AnnMerges(s, base, ours, theirs, if t <= 86_400 then t else 0, if t <= 86_400 then 86_401 else t);
    }
  }

  /** What the run comes to. */
  ghost predicate Ends(s: State, base: CipherId, ours: CipherId, theirs: CipherId) {
    && MainLine(s) == [theirs] + ([ours] + [base])
    && Bears(s, base, FOLDER, BOBS) && Bears(s, ours, FOLDER, ANNS) && Bears(s, theirs, EMPTIED, ANNS)
    && Frozen(s, BOBS) && ComesBack(s, base, ours, theirs)
  }

  lemma ItEnds() returns (s: State, base: CipherId, ours: CipherId, theirs: CipherId)
    ensures Reached(s) && Ends(s, base, ours, theirs)
  {
    s, base, ours, theirs := AnnKeepsEmptied();
    BobsIsFrozen(s);
    FileComesBack(s, base, ours, theirs);
  }

  /** From a fresh commons: Bob keeps a folder with a file in it and grants Ann its
      label for a day; Ann protects the folder again, keeps the same, then keeps it
      emptied. Her merge of the two over Bob's drops the deleted file as long as the
      grant lives, and brings it back ever after; nobody can grant it once more. */
  lemma KeysOfTheBaseMatter() returns (ops: seq<Op>, base: CipherId, ours: CipherId, theirs: CipherId)
    ensures Legal(Start(), ops) && Ends(Run(Start(), ops), base, ours, theirs)
  {
    var s: State;
    s, base, ours, theirs := ItEnds();
    ops :| Legal(Start(), ops) && Run(Start(), ops) == s;
  }
}
