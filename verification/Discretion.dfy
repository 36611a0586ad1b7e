/** Whole runs disclose nothing but what is granted, provided that seeds are
    fresh, ephemeral secrets are thrown away and nobody keeps a bare key. */
module Discretion {
  import opened Terms
  import opened Closes
  import opened Grants
  import opened Seals
  import opened Paths
  import opened Cells
  import opened Commons
  import opened Keyring
  import opened Upkeep
  import opened Snapshots
  import opened Secrecy
  import opened Disclosure
  import opened Moves
  import opened Runs

  ghost predicate FreshSeed(closes: Records, key: Key) {
    key.Seed? && forall id, i: nat :: Epoch(closes, id, i) ==> SeedAt(closes, id, i) != key
  }

  ghost predicate NoKeysIn(node: Node) {
    match node
    case File(text, _, _) => !text.KeyText?
    case Dir(kids) => forall i: nat :: i < |kids| ==> NoKeysIn(kids[i].node)
  }

  /** Fresh randomness, working trees that are folders of distinct names, and no
      key kept as a file. Nothing else is asked of an operation. */
  ghost predicate DiscreetOp(s: State, secrets: iset<nat>, op: Op) {
    match op
    case ProtectPath(_, _, seed, eph) => FreshSeed(s.closes, seed) && eph !in secrets
    case SharePath(_, _, _, _, _, _, eph) => eph !in secrets
    case ChangeLock(_, _, _, minted, ephs) => FreshSeed(s.closes, minted) && forall who :: ephs(who) !in secrets
    case KeepTree(root, _, _) => root.Dir? && Distinct(root) && NoKeysIn(root)
    case _ => true
  }

  lemma FreshSeedIsNew(closes: Records, steward: VerifyKey, seed: Key, name: string)
    requires FreshSeed(closes, seed)
    ensures CloseId(steward, seed, name) !in closes
  {
    var id := CloseId(steward, seed, name);
    if id in closes {
      assert Epoch(closes, id, 0);
    }
  }

  lemma DiscreetIsAllowed(s: State, secrets: iset<nat>, op: Op)
    requires DiscreetOp(s, secrets, op)
    ensures Allowed(s, op)
  {
    if op.ProtectPath? && s.me in s.people {
      forall title: string ensures CloseId(s.people[s.me].VerifyingKey(), op.seed, title) !in s.closes {
        FreshSeedIsNew(s.closes, s.people[s.me].VerifyingKey(), op.seed, title);
      }
    }
  }

  // ---- seeds stay apart --------------------------------------------------------------------

  /** One more epoch, of a new close or of an old one, with a fresh seed. */
  ghost predicate OneMoreEpoch(closes: Records, closes': Records, id: CloseId) {
    && id in closes' && closes' == closes[id := closes'[id]]
    && var last := |closes'[id].chain|;
       && SeededAt(closes', id, last)
       && FreshSeed(closes, SeedAt(closes', id, last))
       && forall i: nat :: i < last ==>
            Epoch(closes, id, i) && SeedAt(closes', id, i) == SeedAt(closes, id, i)
            && TrueKey(closes'[id], i) == TrueKey(closes[id], i)
  }

  lemma SeedsStayApart(closes: Records, closes': Records, id: CloseId)
    requires SeedsApart(closes) && OneMoreEpoch(closes, closes', id)
    ensures SeedsApart(closes')
  {
    var last := |closes'[id].chain|;
    forall c, i: nat | Epoch(closes', c, i)
      ensures SeededAt(closes', c, i)
      ensures (c, i) != (id, last) ==> Epoch(closes, c, i) && SeedAt(closes', c, i) == SeedAt(closes, c, i)
    {
      if (c, i) != (id, last) {
        assert Epoch(closes, c, i) && SeededAt(closes, c, i);
      }
    }
    forall c, i: nat, d, j: nat | Epoch(closes', c, i) && Epoch(closes', d, j) && (c, i) != (d, j)
      ensures SeedAt(closes', c, i) != SeedAt(closes', d, j)
    {
      if (c, i) == (id, last) {
        assert Epoch(closes, d, j);
      } else if (d, j) == (id, last) {
        assert Epoch(closes, c, i);
      }
    }
  }

  // ---- grants stay discreet ------------------------------------------------------------------

  lemma ShelvesGrow(s: State, s': State, secrets: iset<nat>)
    requires GrantsDiscreet(s, secrets)
    requires forall who :: GrantsOf(s, who) <= GrantsOf(s', who)
    requires forall who, g :: g in GrantsOf(s', who) && !OnShelf(s, g) ==> GrantDiscreet(s, secrets, g)
    ensures GrantsDiscreet(s', secrets)
  {
    forall g | OnShelf(s', g) ensures GrantDiscreet(s', secrets, g) {
      assert GrantDiscreet(s, secrets, g);
      if g.body.parent.Some? {
        var who :| g.body.parent.value in GrantsOf(s, who);
        assert g.body.parent.value in GrantsOf(s', who);
      }
    }
  }

  lemma AddGrantIsDiscreet(s: State, who: string, g: Grant, secrets: iset<nat>)
    requires Discreet(s, secrets) && GrantDiscreet(s, secrets, g)
    ensures Discreet(AddGrant(s, who, g), secrets)
  {
    var s' := AddGrant(s, who, g);
    forall w, h | h in GrantsOf(s', w) && !OnShelf(s, h) ensures GrantDiscreet(s, secrets, h) {
      assert h in GrantsOf(s, w) || h == g;
    }
    ShelvesGrow(s, s', secrets);
  }

  lemma RootIsDiscreet(
    s: State, secrets: iset<nat>, r: CloseRecord, steward: nat, key: Key, epoch: nat, holder: PublicIdentity,
    facet: Facet, powers: Powers, expiresAt: Option<nat>, eph: nat)
    requires eph !in secrets
    ensures GrantDiscreet(s, secrets, IssueRoot(r, steward, key, epoch, holder, facet, powers, [], expiresAt, [], eph))
  {
  }

  lemma ShareIsDiscreet(
    s: State, secrets: iset<nat>, r: CloseRecord, holder: PublicIdentity, facet: Facet, powers: Powers,
    expires: Option<nat>, now: nat, eph: nat)
    requires s.me in s.people && eph !in secrets
    requires ShareGrant(s, r, s.people[s.me], holder, facet, powers, expires, now, eph).Ok?
    ensures GrantDiscreet(s, secrets, ShareGrant(s, r, s.people[s.me], holder, facet, powers, expires, now, eph).value)
  {
    var giver := s.people[s.me];
    if r.steward == giver.VerifyingKey() {
      var key := CurrentContentKey(s, s.me, r, now).value;
      RootIsDiscreet(s, secrets, r, giver.sign, key, r.epoch, holder, facet, powers, expires, eph);
    } else {
      FirstWideIs(GrantsOf(s, s.me), r, facet, powers, now);
      var mine := FirstWide(GrantsOf(s, s.me), r, facet, powers, now).value;
      var g := Attenuate(mine, giver, r, holder, facet, powers, mine.body.prefix,
                         Tightened(expires, mine.body.expiresAt), [], eph).value;
      assert g.body.parent == Some(mine) && OnShelf(s, mine);
    }
  }

  lemma LockChangeIsDiscreet(
    s: State, s': State, close: CloseId, except: set<string>, now: nat, minted: Key, ephs: string -> nat,
    secrets: iset<nat>)
    requires Inv(s) && LockChanged(s, s', close, except, now, minted, ephs) && Discreet(s, secrets)
    requires FreshSeed(s.closes, minted) && forall who :: ephs(who) !in secrets
    ensures Discreet(s', secrets)
  {
    LockChangeIsLater(s, s', close, except, now, minted, ephs);
    var r, r' := s.closes[close], s'.closes[close];
    forall i: nat | i < |r'.chain|
      ensures Epoch(s.closes, close, i) && SeedAt(s'.closes, close, i) == SeedAt(s.closes, close, i)
      ensures TrueKey(r', i) == TrueKey(r, i)
    {
      GrewKeepsKeys(r, r', i);
    }
    SeedsStayApart(s.closes, s'.closes, close);
    ObjectsStayDiscreet(s.objects, s.closes, s'.closes);
    forall who, g | g in GrantsOf(s', who) && !OnShelf(s, g) ensures GrantDiscreet(s, secrets, g) {
      assert g !in GrantsOf(s, who);
      assert g == ReissuedTo(s, r', r, now, ephs, who);
      assert ephs(who) !in secrets;
    }
    ShelvesGrow(s, s', secrets);
  }

  // ---- what is stored is well sealed -------------------------------------------------------------

  lemma ObjectsStayDiscreet(objects: Objects, closes: Records, closes': Records)
    requires ObjectsDiscreet(objects, closes) && ClosesGrew(closes, closes')
    ensures ObjectsDiscreet(objects, closes')
  {
    forall c | c in objects ensures WellSealed(objects[c], closes') {
      var o := objects[c];
      assert WellSealed(o, closes);
      var card :| SealedUnder(o, closes[o.close], card, o.contentCt.text);
      SealOutlivesRotation(o, closes[o.close], closes'[o.close], card, o.contentCt.text);
    }
  }

  lemma SealIsDiscreet(
    closes: Records, objects: Objects, r: CloseRecord, kind: ObjectKind, card: ShapeCard, text: Text)
    requires r.id in closes && closes[r.id] == r && Sound(r)
    requires ObjectsDiscreet(objects, closes) && !text.KeyText?
    ensures var o := Seal(r, TrueKey(r, r.epoch), r.epoch, kind, card, text);
            o.Ok? && ObjectsDiscreet(PutSealed(objects, o.value), closes)
  {
    SealWithTrueKey(r, r.epoch, kind, card, text);
    var o := Seal(r, TrueKey(r, r.epoch), r.epoch, kind, card, text).value;
    assert SealedUnder(o, r, card, o.contentCt.text);
    assert WellSealed(o, closes);
  }

  lemma SealEntryIsDiscreet(
    s: State, objects: Objects, r: CloseRecord, kind: ObjectKind, card: ShapeCard, text: Text, entryCard: EntryCard,
    now: nat)
    requires Inv(s) && r.id in s.closes && s.closes[r.id] == r
    requires ObjectsDiscreet(objects, s.closes) && !text.KeyText?
    ensures ObjectsDiscreet(SealEntry(s, objects, r, kind, card, text, entryCard, now).objects, s.closes)
  {
    KeyLookupIsExact(s, s.me, r.id, Content, r.epoch, now);
    SealIsDiscreet(s.closes, objects, r, kind, card, text);
  }

  lemma {:induction false} SnapNodeIsDiscreet(s: State, objects: Objects, node: Node, rel: seq<string>, now: nat)
    requires Inv(s) && ObjectsDiscreet(objects, s.closes) && NoKeysIn(node)
    ensures ObjectsDiscreet(SnapNode(s, objects, node, rel, now).objects, s.closes)
    decreases node, if node.Dir? then |node.kids| + 1 else 0
  {
    GoverningRecordIsKnown(s, rel);
    var r := GoverningRecord(s, rel).value;
    if node.File? {
      SealEntryIsDiscreet(
        s, objects, r, Blob, ShapeCard(LastOr(rel), node.contentType, node.sizeClass, ""), node.text,
        CardFor(r, node.contentType, node.sizeClass), now);
    } else {
      SnapKidsIsDiscreet(s, objects, node, 0, map[], rel, now);
      var kids := SnapKids(s, objects, node, 0, map[], rel, now);
      if kids.outcome.Ok? {
        var size := FolderSize(kids.outcome.value);
        SealEntryIsDiscreet(
          s, kids.objects, r, TreeKind, ShapeCard(if rel == [] then "/" else Join(rel), "commons/folder", size, ""),
          TreeText(Tree(kids.outcome.value)), CardFor(r, "commons/folder", size), now);
      }
    }
  }

  lemma {:induction false} SnapKidsIsDiscreet(
    s: State, objects: Objects, dir: Node, i: nat, entries: map<string, TreeEntry>, rel: seq<string>, now: nat)
    requires Inv(s) && ObjectsDiscreet(objects, s.closes) && dir.Dir? && NoKeysIn(dir) && i <= |dir.kids|
    ensures ObjectsDiscreet(SnapKids(s, objects, dir, i, entries, rel, now).objects, s.closes)
    decreases dir, |dir.kids| - i
  {
    if i < |dir.kids| {
      var kid := dir.kids[i];
      if !Skipped(kid.name) {
        SnapNodeIsDiscreet(s, objects, kid.node, rel + [kid.name], now);
      }
      var snap := SnapKid(s, objects, kid, entries, rel, now);
      if snap.outcome.Ok? {
        SnapKidsIsDiscreet(s, snap.objects, dir, i + 1, snap.outcome.value, rel, now);
      }
    }
  }

  lemma CommitIsDiscreet(s: State, objects: Objects, root: TreeEntry, message: string, now: nat)
    requires Inv(s) && ObjectsDiscreet(objects, s.closes)
    ensures ObjectsDiscreet(SealCommit(s, objects, root, message, now).objects, s.closes)
  {
    var r := s.closes[s.commons];
    var commit := Commit(root.cipher, root.plain, HeadOf(s), s.me, message, now);
    KeyLookupIsExact(s, s.me, s.commons, Content, r.epoch, now);
    var card := ShapeCard("commit", "commons/commit", SizeClass(|message|), "");
    SealIsDiscreet(s.closes, objects, r, CommitKind, card, CommitText(commit));
  }

  lemma KeepIsDiscreet(s: State, root: Node, message: string, now: nat, secrets: iset<nat>)
    requires Inv(s) && Discreet(s, secrets) && root.Dir? && NoKeysIn(root)
    ensures Discreet(Keep(s, root, message, now).state, secrets)
  {
    SnapNodeIsDiscreet(s, s.objects, root, [], now);
    var snap := SnapNode(s, s.objects, root, [], now);
    if snap.outcome.Ok? {
      CommitIsDiscreet(s, snap.objects, snap.outcome.value, message, now);
    }
    SameShelves(s, Keep(s, root, message, now).state, secrets);
  }

  lemma SameShelves(s: State, s': State, secrets: iset<nat>)
    requires GrantsDiscreet(s, secrets) && s'.grants == s.grants
    ensures GrantsDiscreet(s', secrets)
  {
    assert forall who :: GrantsOf(s', who) == GrantsOf(s, who);
    ShelvesGrow(s, s', secrets);
  }

  lemma PointIsDiscreet(
    s: State, who: string, path: string, slots: seq<Slot>, reason: string, now: nat, secrets: iset<nat>)
    requires Inv(s) && Discreet(s, secrets) && Point(s, who, path, slots, reason, now).Ok?
    ensures Discreet(Point(s, who, path, slots, reason, now).value.state, secrets)
  {
    var moved := Point(s, who, path, slots, reason, now).value;
    var decl, head := PointChecks(s, who, path, slots, reason, now);
    var t := moved.move;
    SealIsDiscreet(s.closes, s.objects, s.closes[decl.close], TransitionKind,
                   TransitionCard(t.body.seqNo, t.body.mover.name), TransitionText(t));
    SameShelves(s, moved.state, secrets);
  }

  // ---- founding ----------------------------------------------------------------------------------

  lemma FoundIsDiscreet(s: State, name: string, seed: Key, eph: nat, secrets: iset<nat>)
    requires Discreet(s, secrets) && s.me in s.people && FreshSeed(s.closes, seed) && eph !in secrets
    ensures var founded := FoundClose(s, s.me, name, OpenOutline, seed, eph);
            founded.Ok? && Discreet(founded.value.0, secrets)
  {
    var steward := s.people[s.me];
    var (r, key0) := Found(name, OpenOutline, steward.VerifyingKey(), seed);
    FreshSeedIsNew(s.closes, steward.VerifyingKey(), seed, name);
    var s1 := s.(closes := s.closes[r.id := r]);
    SeedsStayApart(s.closes, s1.closes, r.id);
    ObjectsStayDiscreet(s.objects, s.closes, s1.closes);
    SameShelves(s, s1, secrets);
    RootIsDiscreet(s1, secrets, r, steward.sign, key0, 0, steward.Public(), Content, SET | INVOKE, None, eph);
    AddGrantIsDiscreet(s1, s.me, FoundingGrant(r, steward, key0, eph), secrets);
  }

  lemma ProtectIsDiscreet(s: State, path: string, title: Option<string>, seed: Key, eph: nat, secrets: iset<nat>)
    requires Discreet(s, secrets) && s.me in s.people && FreshSeed(s.closes, seed) && eph !in secrets
    requires Protect(s, path, title, seed, eph).Ok?
    ensures Discreet(Protect(s, path, title, seed, eph).value, secrets)
  {
    var name := if title.Some? then title.value else Join(Segments(path));
    FoundIsDiscreet(s, name, seed, eph, secrets);
    var founded := FoundClose(s, s.me, name, OpenOutline, seed, eph).value.0;
    SameShelves(founded, Protect(s, path, title, seed, eph).value, secrets);
  }

  lemma InitIsDiscreet(me: string, sign: nat, dh: nat, seed: nat, eph: nat, secrets: iset<nat>)
    requires eph !in secrets
    ensures Discreet(Init(me, sign, dh, Seed(seed), eph), secrets)
  {
    var s := Init(me, sign, dh, Seed(seed), eph);
    forall g | OnShelf(s, g) ensures GrantDiscreet(s, secrets, g) {
      var who :| g in GrantsOf(s, who);
      assert who == me;
    }
  }

  // ---- every step, every run -----------------------------------------------------------------------

  lemma SharePathIsDiscreet(
    s: State, path: string, with: string, facet: Facet, powers: Powers, days: Option<nat>, now: nat, eph: nat,
    secrets: iset<nat>)
    requires Discreet(s, secrets) && eph !in secrets && Share(s, path, with, facet, powers, days, now, eph).Ok?
    ensures Discreet(Share(s, path, with, facet, powers, days, now, eph).value, secrets)
  {
    var r := s.closes[Governing(s.closemap, Join(Segments(path))).value];
    var expires := if days.Some? then Some(now + days.value * 86_400) else None;
    ShareIsDiscreet(s, secrets, r, s.people[with].Public(), facet, powers, expires, now, eph);
    var g := ShareGrant(s, r, s.people[s.me], s.people[with].Public(), facet, powers, expires, now, eph).value;
    AddGrantIsDiscreet(s, with, g, secrets);
  }

  lemma RotateIsDiscreet(
    s: State, path: string, except: set<string>, now: nat, minted: Key, ephs: string -> nat, secrets: iset<nat>)
    requires Inv(s) && Discreet(s, secrets) && Rotate(s, path, except, now, minted, ephs).Ok?
    requires FreshSeed(s.closes, minted) && forall who :: ephs(who) !in secrets
    ensures Discreet(Rotate(s, path, except, now, minted, ephs).value, secrets)
  {
    var close := RotateChangesLock(s, path, except, now, minted, ephs);
    var s' := Rotate(s, path, except, now, minted, ephs).value;
    LockChangeIsDiscreet(s, s', close, except, now, minted, ephs, secrets);
  }

  lemma GrantingStepIsDiscreet(s: State, op: Op, secrets: iset<nat>)
    requires Inv(s) && Discreet(s, secrets) && DiscreetOp(s, secrets, op) && Allowed(s, op)
    requires op.ProtectPath? || op.SharePath? || op.ChangeLock?
    ensures Discreet(Apply(s, op), secrets)
  {
    match op
    case ProtectPath(path, title, seed, eph) =>
      if Protect(s, path, title, seed, eph).Ok? {
        ProtectIsDiscreet(s, path, title, seed, eph, secrets);
      }
    case SharePath(path, with, facet, powers, days, now, eph) =>
      if Share(s, path, with, facet, powers, days, now, eph).Ok? {
        SharePathIsDiscreet(s, path, with, facet, powers, days, now, eph, secrets);
      }
    case ChangeLock(path, except, now, minted, ephs) =>
      if Rotate(s, path, except, now, minted, ephs).Ok? {
        RotateIsDiscreet(s, path, except, now, minted, ephs, secrets);
      }
  }

  lemma StoringStepIsDiscreet(s: State, op: Op, secrets: iset<nat>)
    requires Inv(s) && Discreet(s, secrets) && DiscreetOp(s, secrets, op) && Allowed(s, op)
    requires op.KeepTree? || op.MoveCell?
    ensures Discreet(Apply(s, op), secrets)
  {
    match op
    case KeepTree(root, message, now) => KeepIsDiscreet(s, root, message, now, secrets);
    case MoveCell(who, path, slots, reason, now) =>
      if Point(s, who, path, slots, reason, now).Ok? {
        PointIsDiscreet(s, who, path, slots, reason, now, secrets);
      }
  }

  lemma OtherStepIsDiscreet(s: State, op: Op, secrets: iset<nat>)
    requires Discreet(s, secrets) && Allowed(s, op)
    requires op.ActAs? || op.AddPerson? || op.RaiseCell?
    ensures Discreet(Apply(s, op), secrets)
  {
    SameShelves(s, Apply(s, op), secrets);
  }

  lemma StepIsDiscreet(s: State, op: Op, secrets: iset<nat>)
    requires Inv(s) && Discreet(s, secrets) && DiscreetOp(s, secrets, op) && Allowed(s, op)
    ensures Discreet(Apply(s, op), secrets)
  {
    if op.ProtectPath? || op.SharePath? || op.ChangeLock? {
      GrantingStepIsDiscreet(s, op, secrets);
    } else if op.KeepTree? || op.MoveCell? {
      StoringStepIsDiscreet(s, op, secrets);
    } else {
      OtherStepIsDiscreet(s, op, secrets);
    }
  }

  ghost predicate DiscreetRun(s: State, ops: seq<Op>, secrets: iset<nat>)
    decreases |ops|
  {
    ops != [] ==>
      && DiscreetOp(s, secrets, ops[0])
      && (DiscreetIsAllowed(s, secrets, ops[0]); DiscreetRun(Apply(s, ops[0]), ops[1..], secrets))
  }

  lemma {:induction false} RunIsDiscreet(s: State, ops: seq<Op>, secrets: iset<nat>)
    requires Good(s) && Discreet(s, secrets) && DiscreetRun(s, ops, secrets)
    ensures Legal(s, ops) && Good(Run(s, ops)) && Discreet(Run(s, ops), secrets)
    decreases |ops|
  {
    if ops != [] {
      DiscreetIsAllowed(s, secrets, ops[0]);
      StepKeeps(s, ops[0]);
      StepIsDiscreet(s, ops[0], secrets);
      RunIsDiscreet(Apply(s, ops[0]), ops[1..], secrets);
    }
  }

  lemma RunFromInit(me: string, sign: nat, dh: nat, seed: nat, eph: nat, ops: seq<Op>, secrets: iset<nat>)
    requires eph !in secrets && DiscreetRun(Init(me, sign, dh, Seed(seed), eph), ops, secrets)
    ensures Legal(Init(me, sign, dh, Seed(seed), eph), ops)
    ensures var s := Run(Init(me, sign, dh, Seed(seed), eph), ops); Inv(s) && Discreet(s, secrets)
  {
    InitIsGood(me, sign, dh, Seed(seed), eph);
    InitIsDiscreet(me, sign, dh, seed, eph, secrets);
    RunIsDiscreet(Init(me, sign, dh, Seed(seed), eph), ops, secrets);
  }

  /** In every state that any discreet run reaches from a fresh commons, from all
      that is on disk, the secrets of any coalition and the texts they know: a
      content or shape key of any close and epoch can be computed exactly if it was
      granted to one of them. */
  lemma RunsDiscloseGrantedKeys(
    me: string, sign: nat, dh: nat, seed: nat, eph: nat, ops: seq<Op>, secrets: iset<nat>, texts: iset<Text>,
    close: CloseId, facet: Facet, epoch: nat)
    requires eph !in secrets && facet != Presence && NoKeys(texts)
    requires DiscreetRun(Init(me, sign, dh, Seed(seed), eph), ops, secrets)
    ensures Legal(Init(me, sign, dh, Seed(seed), eph), ops)
    ensures var s := Run(Init(me, sign, dh, Seed(seed), eph), ops);
            Epoch(s.closes, close, epoch) ==>
            (Computable(Knowledge(s, secrets, texts), TrueFacetKey(s.closes[close], facet, epoch).value)
             <==> Granted(s, secrets, close, facet, epoch))
  {
    RunFromInit(me, sign, dh, seed, eph, ops, secrets);
    var s := Run(Init(me, sign, dh, Seed(seed), eph), ops);
    if Epoch(s.closes, close, epoch) {
      KeysDisclosedIff(s, secrets, texts, close, facet, epoch);
    }
  }

  /** ... and a text they do not know otherwise can be learned exactly if it was
      sealed under a facet that was granted to one of them. */
  lemma RunsDiscloseGrantedTexts(
    me: string, sign: nat, dh: nat, seed: nat, eph: nat, ops: seq<Op>, secrets: iset<nat>, texts: iset<Text>,
    text: Text)
    requires eph !in secrets && NoKeys(texts) && text !in texts && !text.KeyText?
    requires DiscreetRun(Init(me, sign, dh, Seed(seed), eph), ops, secrets)
    ensures Legal(Init(me, sign, dh, Seed(seed), eph), ops)
    ensures var s := Run(Init(me, sign, dh, Seed(seed), eph), ops);
            Learnable(Knowledge(s, secrets, texts), text) <==> Shown(s, secrets, text)
  {
    RunFromInit(me, sign, dh, seed, eph, ops, secrets);
    TextsDisclosedIff(Run(Init(me, sign, dh, Seed(seed), eph), ops), secrets, texts, text);
  }
}
