/** The local repository as the program runs it (crates/close/src/repo.rs and
    crates/close/src/main.rs): fields updated step by step, each operation
    doing to them exactly what its function in `Commons` says. */
module Repos {
  import opened Terms
  import opened Closes
  import opened Grants
  import opened Seals
  import opened Paths
  import opened Cells
  import opened Ancestry
  import opened Commons
  import opened Stores
  import opened Locks

  /** The fields went from `before` to what the function says, or the operation
      refused as the function does and nothing changed. */
  ghost predicate Did(before: State, after: State, spec: Result<State, Refusal>, r: Result<(), Refusal>) {
    match spec
    case Ok(s') => r.Ok? && after == s'
    case Err(e) => r == Err(e) && after == before
  }

  function FacetOf(g: Option<Grant>): Option<Facet> {
    if g.None? then None else Some(g.value.body.facet)
  }

  class Repo {
    const store: Store
    const commons: CloseId
    var closes: Records
    var people: map<string, Identity>
    var grants: Shelves
    var closemap: seq<Mapping>
    var cells: seq<CellDecl>
    var me: string

    function View(): State
      reads this, store
    {
      State(store.objects, store.refs, closes, people, grants, closemap, cells, me, commons)
    }

    constructor Init(me: string, sign: nat, dh: nat, seed: Key, eph: nat)
      ensures View() == Commons.Init(me, sign, dh, seed, eph)
      ensures fresh(store) && store.Valid()
    {
      var id := Identity(me, sign, dh);
      var (record, key0) := Found("commons", OpenOutline, id.VerifyingKey(), seed);
      var s := new Store.Open();
      store := s;
      commons := record.id;
      this.me := me;
      people := map[me := id];
      closes := map[record.id := record];
      grants := map[me := [FoundingGrant(record, id, key0, eph)]];
      closemap := [Mapping("", record.id)];
      cells := [];
    }

    // ---- grants ----------------------------------------------------------------------

    method PushGrant(holder: string, g: Grant)
      modifies this`grants
      ensures grants == old(grants)[holder := Held(old(grants), holder) + [g]]
    {
      grants := grants[holder := Held(grants, holder) + [g]];
    }

    method GrantsFor(holder: string) returns (gs: seq<Grant>)
      ensures gs == GrantsOf(View(), holder)
    {
      gs := Held(grants, holder);
    }

    /** The first grant that yields the key. */
    method FindKey(who: string, r: CloseRecord, facet: Facet, epoch: nat, now: nat) returns (key: Option<Key>)
      ensures key == FacetKeyFor(View(), who, r, facet, epoch, now)
    {
      if facet == Presence || who !in people {
        return None;
      }
      var identity := people[who];
      var gs := GrantsFor(who);
      for i := 0 to |gs|
        invariant KeyAmong(gs, identity, r, facet, epoch, now) == KeyAmong(gs[i..], identity, r, facet, epoch, now)
      {
        var k := KeyOfGrant(gs[i], identity, r, facet, epoch, now);
        if k.Some? {
          return k;
        }
      }
      return None;
    }

    static method KeyOfGrant(g: Grant, reader: Identity, r: CloseRecord, facet: Facet, epoch: nat, now: nat)
      returns (key: Option<Key>)
      ensures key == KeyFrom(g, reader, r, facet, epoch, now)
    {
      if g.body.close != r.id || !facet.AtMost(g.body.facet) || Verify(g, r, now).Err? {
        return None;
      }
      var unwrapped := UnwrapKey(g, reader);
      if unwrapped.Err? {
        return None;
      }
      var record := new LiveRecord.Load(r);
      match g.body.facet {
        case Content =>
          var at := record.WalkChain(unwrapped.value, g.body.epoch, epoch, Content);
          return if at.Ok? then LowerFacetKey(at.value, Content, facet, r.id) else None;
        case Shape =>
          if facet == Shape {
            var at := record.WalkChain(unwrapped.value, g.body.epoch, epoch, Shape);
            return if at.Ok? then Some(at.value) else None;
          }
          return None;
        case Presence =>
          return None;
      }
    }

    /** The highest facet of someone's live grants. */
    method StrongestFacet(who: string, r: CloseRecord, now: nat) returns (best: Option<Facet>)
      ensures best == BestFacet(View(), who, r, now)
      ensures best.None? <==> forall g :: g in GrantsOf(View(), who) ==> !LiveOn(g, r, now)
      ensures best.Some? ==>
                && (exists g :: g in GrantsOf(View(), who) && LiveOn(g, r, now) && g.body.facet == best.value)
                && forall g :: g in GrantsOf(View(), who) && LiveOn(g, r, now) ==> g.body.facet.AtMost(best.value)
    {
      var gs := GrantsFor(who);
      best := None;
      for i := 0 to |gs|
        invariant best == FacetOf(Widest(Live(gs[..i], r, now)))
      {
        assert gs[..i + 1] == gs[..i] + [gs[i]];
        LiveAppends(gs[..i], gs[i], r, r, now);
        if LiveOn(gs[i], r, now) {
          WidestAppends(Live(gs[..i], r, now), gs[i]);
          if best.None? || best.value.AtMost(gs[i].body.facet) {
            best := Some(gs[i].body.facet);
          }
        } else {
          assert Live(gs[..i], r, now) + [] == Live(gs[..i], r, now);
        }
      }
      assert gs[..|gs|] == gs;
      BestFacetIs(View(), who, r, now);
    }

    // ---- people and closes ---------------------------------------------------------------

    method AddPerson(name: string, sign: nat, dh: nat) returns (r: Result<(), Refusal>)
      modifies this`people
      ensures Did(old(View()), View(), NewIdentity(old(View()), name, sign, dh), r)
    {
      if name in people {
        return Err(AlreadyHere);
      }
      people := people[name := Identity(name, sign, dh)];
      return Ok(());
    }

    method Establish(steward: string, name: string, silhouette: Silhouette, seed: Key, eph: nat)
      returns (r: Result<CloseId, Refusal>)
      modifies this`closes, this`grants
      ensures match FoundClose(old(View()), steward, name, silhouette, seed, eph)
              case Ok((s', id)) => r == Ok(id) && View() == s'
              case Err(e) => r == Err(e) && View() == old(View())
    {
      if steward !in people {
        return Err(NoSuchPerson);
      }
      var id := people[steward];
      var (record, key0) := Found(name, silhouette, id.VerifyingKey(), seed);
      closes := closes[record.id := record];
      PushGrant(steward, FoundingGrant(record, id, key0, eph));
      return Ok(record.id);
    }

    /** Looks through the mappings for the one that governs. */
    method Governs(rel: string) returns (close: Option<CloseId>)
      ensures close == Governing(closemap, rel)
    {
      var best: Option<nat> := None;
      for i := 0 to |closemap|
        invariant best == BestMapping(closemap, rel, i)
      {
        var prefix := closemap[i].prefix;
        if Matches(prefix, rel) {
          if best.None? || |prefix| >= |closemap[best.value].prefix| {
            best := Some(i);
          }
        }
      }
      close := if best.None? then None else Some(closemap[best.value].close);
    }

    method Protect(path: string, title: Option<string>, seed: Key, eph: nat) returns (r: Result<(), Refusal>)
      modifies this`closes, this`grants, this`closemap
      ensures Did(old(View()), View(), Commons.Protect(old(View()), path, title, seed, eph), r)
    {
      var rel := Join(Segments(path));
      if rel == "" {
        return Err(NoName);
      }
      var id := Establish(me, if title.Some? then title.value else rel, OpenOutline, seed, eph);
      if id.Err? {
        return Err(id.error);
      }
      closemap := closemap + [Mapping(rel, id.value)];
      return Ok(());
    }

    // ---- sharing --------------------------------------------------------------------------

    method FindWide(gs: seq<Grant>, r: CloseRecord, facet: Facet, powers: Powers, now: nat) returns (g: Option<Grant>)
      ensures g == FirstWide(gs, r, facet, powers, now)
    {
      for i := 0 to |gs|
        invariant FirstWide(gs, r, facet, powers, now) == FirstWide(gs[i..], r, facet, powers, now)
      {
        if LiveOn(gs[i], r, now) && facet.AtMost(gs[i].body.facet) && HasPowers(gs[i].body.powers, powers) {
          return Some(gs[i]);
        }
      }
      return None;
    }

    method MakeShare(
      r: CloseRecord, giver: Identity, holder: PublicIdentity, facet: Facet, powers: Powers, expires: Option<nat>,
      now: nat, eph: nat) returns (g: Result<Grant, Refusal>)
      ensures g == ShareGrant(View(), r, giver, holder, facet, powers, expires, now, eph)
    {
      if r.steward == giver.VerifyingKey() {
        var key := FindKey(me, r, Content, r.epoch, now);
        if key.None? {
          return Err(NoCurrentKey);
        }
        return Ok(IssueRoot(r, giver.sign, key.value, r.epoch, holder, facet, powers, [], expires, [], eph));
      }
      // Anyone else attenuates the first grant that is wide enough.
      var gs := GrantsFor(me);
      var mine := FindWide(gs, r, facet, powers, now);
      if mine.None? {
        return Err(NothingWideEnough);
      }
      var p := mine.value.body;
      var until := Tightened(expires, p.expiresAt);
      return Lift(Attenuate(mine.value, giver, r, holder, facet, powers, p.prefix, until, [], eph));
    }

    method Share(path: string, with: string, facet: Facet, powers: Powers, days: Option<nat>, now: nat, eph: nat)
      returns (r: Result<(), Refusal>)
      modifies this`grants
      ensures Did(old(View()), View(), Commons.Share(old(View()), path, with, facet, powers, days, now, eph), r)
    {
      var close := Governs(Join(Segments(path)));
      if close.None? {
        return Err(NotGoverned);
      }
      if close.value !in closes {
        return Err(NoSuchClose);
      }
      if me !in people || with !in people {
        return Err(NoSuchPerson);
      }
      var expires := if days.Some? then Some(now + days.value * 86_400) else None;
      var g := MakeShare(closes[close.value], people[me], people[with].Public(), facet, powers, expires, now, eph);
      ShareHands(View(), path, with, facet, powers, days, now, eph, close.value, g);
      if g.Err? {
        return Err(g.error);
      }
      PushGrant(with, g.value);
      return Ok(());
    }

    // ---- changing the lock ------------------------------------------------------------------

    /** The widest of the live grants and the union of their powers. */
    static method WidestAndUnion(gs: seq<Grant>, r: CloseRecord, now: nat) returns (best: Option<Grant>, powers: Powers)
      ensures best == Widest(Live(gs, r, now)) && powers == UnionPowers(Live(gs, r, now))
    {
      best, powers := None, 0;
      for i := 0 to |gs|
        invariant best == Widest(Live(gs[..i], r, now))
        invariant powers == UnionPowers(Live(gs[..i], r, now))
      {
        KeeperStep(gs, i, r, now);
        if LiveOn(gs[i], r, now) {
          if best.None? || best.value.body.facet.AtMost(gs[i].body.facet) {
            best := Some(gs[i]);
          }
          powers := powers | gs[i].body.powers;
        }
      }
      assert gs[..|gs|] == gs;
    }

    /** What someone takes across a lock change: the best facet held, the union
        of the powers held, the best grant's expiry. */
    method KeeperTerms(who: string, r: CloseRecord, now: nat) returns (k: Option<Keeper>)
      ensures k == KeeperOf(View(), who, r, now)
    {
      var gs := GrantsFor(who);
      var best, powers := WidestAndUnion(gs, r, now);
      k := if best.None? then None else Some(Keeper(best.value.body.facet, powers, best.value.body.expiresAt));
    }

    /** Collects, person by person, who takes what across the lock change. */
    method Keepers(except: set<string>, r: CloseRecord, now: nat) returns (keepers: map<string, Keeper>)
      ensures keepers == KeepersOf(View(), people.Keys, except, r, now)
    {
      keepers := map[];
      var names := people.Keys;
      while names != {}
        invariant names <= people.Keys
        invariant keepers == KeepersOf(View(), people.Keys - names, except, r, now)
        decreases |names|
      {
        var name :| name in names;
        KeepersStep(View(), people.Keys, names, name, except, r, now);
        if name !in except {
          var k := KeeperTerms(name, r, now);
          if k.Some? {
            keepers := keepers[name := k.value];
          }
        }
        names := names - {name};
      }
      assert people.Keys - names == people.Keys;
    }

    /** Issues each keeper a root grant at the record's epoch. */
    method Reissue(r: CloseRecord, steward: Identity, newKey: Key, keepers: map<string, Keeper>, ephs: string -> nat)
      requires keepers.Keys <= people.Keys
      modifies this`grants
      ensures grants == Handed(old(grants), Reissued(people, r, steward, newKey, keepers, ephs), keepers.Keys)
    {
      ghost var before, issued := grants, Reissued(people, r, steward, newKey, keepers, ephs);
      var names := keepers.Keys;
      HandedNone(before, issued, keepers.Keys);
      while names != {}
        invariant names <= keepers.Keys
        invariant grants == Handed(before, issued, keepers.Keys - names)
        decreases |names|
      {
        var name :| name in names;
        HandedStep(before, issued, keepers.Keys, names, name);
        var g := ReissuedGrant(r, steward, newKey, people[name], keepers[name], ephs(name));
        assert g == issued[name];
        PushGrant(name, g);
        names := names - {name};
      }
      assert keepers.Keys - names == keepers.Keys;
    }

    /** Rotates a record with its current key and re-issues to whoever keeps up. */
    method Relock(
      close: CloseId, stored: CloseRecord, steward: Identity, key: Key, except: set<string>, now: nat, minted: Key,
      ephs: string -> nat)
      modifies this`closes, this`grants
      ensures var s := old(View());
              var keepers := KeepersOf(s, s.people.Keys, except, stored, now);
              var record := Rotated(stored, key, minted);
              var issued := Reissued(s.people, record, steward, NextKey(stored.id, minted), keepers, ephs);
              && closes == old(closes)[close := record]
              && grants == Handed(old(grants), issued, keepers.Keys)
    {
      var keepers := Keepers(except, stored, now);
      var record := new LiveRecord.Load(stored);
      var newKey := record.Rotate(key, minted);
      closes := closes[close := record.View()];
      Reissue(record.View(), steward, newKey, keepers, ephs);
    }

    method Rotate(path: string, except: set<string>, now: nat, minted: Key, ephs: string -> nat)
      returns (r: Result<(), Refusal>)
      modifies this`closes, this`grants
      ensures Did(old(View()), View(), Commons.Rotate(old(View()), path, except, now, minted, ephs), r)
    {
      var close := Governs(Join(Segments(path)));
      if close.None? {
        return Err(NotGoverned);
      }
      if close.value !in closes {
        return Err(NoSuchClose);
      }
      if me !in people {
        return Err(NoSuchPerson);
      }
      var stored := closes[close.value];
      if stored.steward != people[me].VerifyingKey() {
        return Err(NotSteward);
      }
      var key := FindKey(me, stored, Content, stored.epoch, now);
      if key.None? {
        return Err(NoCurrentKey);
      }
      Relock(close.value, stored, people[me], key.value, except, now, minted, ephs);
      return Ok(());
    }

    // ---- keeping ------------------------------------------------------------------------------

    /** Nothing but the store differs from `s`. */
    ghost predicate Since(s: State)
      reads this, store
    {
      View() == s.(objects := store.objects)
    }

    method SealInto(
      ghost s: State, r: CloseRecord, kind: ObjectKind, card: ShapeCard, text: Text, entryCard: EntryCard, now: nat)
      returns (entry: Result<TreeEntry, Refusal>)
      requires Since(s)
      modifies store`objects
      ensures Since(s) && (old(store.Valid()) ==> store.Valid())
      ensures Kept(store.objects, entry) == SealEntry(s, old(store.objects), r, kind, card, text, entryCard, now)
    {
      KeysIgnoreObjects(s, store.objects, r, now);
      var key := FindKey(me, r, Content, r.epoch, now);
      if key.None? {
        return Err(CannotWrite);
      }
      var o := Seal(r, key.value, r.epoch, kind, card, text);
      SealEntrySeals(s, store.objects, r, kind, card, text, entryCard, now, key.value, o);
      if o.Err? {
        return Err(CoreRefused(o.error));
      }
      var cipher := store.Put(o.value);
      return Ok(TreeEntry(kind, r.id, o.value.plain, cipher, entryCard));
    }

    method SnapFile(ghost s: State, file: Node, rel: seq<string>, now: nat) returns (entry: Result<TreeEntry, Refusal>)
      requires file.File? && Since(s)
      modifies store`objects
      ensures Since(s) && (old(store.Valid()) ==> store.Valid())
      ensures Kept(store.objects, entry) == Commons.SnapFile(s, old(store.objects), file, rel, now)
    {
      var close := Governs(Join(rel));
      if close.None? {
        return Err(NotGoverned);
      }
      if close.value !in closes {
        return Err(NoSuchClose);
      }
      var r := closes[close.value];
      entry := SealInto(s, r, Blob, ShapeCard(LastOr(rel), file.contentType, file.sizeClass, ""), file.text,
                        CardFor(r, file.contentType, file.sizeClass), now);
    }

    /** Seals a folder bottom-up: children first, then the listing of them. */
    method SnapDir(ghost s: State, dir: Node, rel: seq<string>, now: nat) returns (entry: Result<TreeEntry, Refusal>)
      requires dir.Dir? && Since(s)
      modifies store`objects
      ensures Since(s) && (old(store.Valid()) ==> store.Valid())
      ensures Kept(store.objects, entry) == SnapNode(s, old(store.objects), dir, rel, now)
      decreases dir
    {
      var close := Governs(Join(rel));
      if close.None? {
        return Err(NotGoverned);
      }
      var entries: map<string, TreeEntry> := map[];
      for i := 0 to |dir.kids|
        invariant Since(s) && (old(store.Valid()) ==> store.Valid())
        invariant SnapKids(s, old(store.objects), dir, 0, map[], rel, now)
               == SnapKids(s, store.objects, dir, i, entries, rel, now)
      {
        var kid := dir.kids[i];
        ghost var before := store.objects;
        if !Skipped(kid.name) {
          var child: Result<TreeEntry, Refusal>;
          if kid.node.Dir? {
            child := SnapDir(s, kid.node, rel + [kid.name], now);
          } else {
            child := SnapFile(s, kid.node, rel + [kid.name], now);
          }
          SnapKidsStep(s, before, dir, i, entries, rel, now, store.objects, child);
          if child.Err? {
            return Err(child.error);
          }
          entries := entries[kid.name := child.value];
        }
      }
      if close.value !in closes {
        return Err(NoSuchClose);
      }
      var r := closes[close.value];
      var size := FolderSize(entries);
      entry := SealInto(s, r, TreeKind, ShapeCard(if rel == [] then "/" else Join(rel), "commons/folder", size, ""),
                        TreeText(Tree(entries)), CardFor(r, "commons/folder", size), now);
    }

    /** Seals everything, then a commit of it, then moves the main ref. */
    method Keep(root: Node, message: string, now: nat) returns (id: Result<CipherId, Refusal>)
      requires root.Dir?
      modifies store
      ensures Keeping(View(), id) == Commons.Keep(old(View()), root, message, now)
      ensures old(store.Valid()) ==> store.Valid()
    {
      ghost var s := View();
      var entry := SnapDir(s, root, [], now);
      if entry.Err? {
        return Err(entry.error);
      }
      if commons !in closes {
        return Err(NoSuchClose);
      }
      var r := closes[commons];
      var key := FindKey(me, r, Content, r.epoch, now);
      if key.None? {
        return Err(CannotWrite);
      }
      var head := store.GetRef(Main);
      var parents := if head.Some? then [head.value] else [];
      var commit := Commit(entry.value.cipher, entry.value.plain, parents, me, message, now);
      var card := ShapeCard("commit", "commons/commit", SizeClass(|message|), "");
      var o := Seal(r, key.value, r.epoch, CommitKind, card, CommitText(commit));
      if o.Err? {
        return Err(CoreRefused(o.error));
      }
      var cipher := store.Put(o.value);
      store.SetRef(Main, cipher);
      return Ok(cipher);
    }

    // ---- reading back ----------------------------------------------------------------------------

    method Load(id: CipherId) returns (o: Result<SealedObject, Refusal>)
      requires store.Valid()
      ensures o == LoadSealed(View(), id)
    {
      var found := store.Get(id);
      return if found.value.Some? then Ok(found.value.value) else Err(MissingObject);
    }

    method OpenFor(who: string, o: SealedObject, facet: Facet, now: nat) returns (text: Option<Text>)
      ensures text == OpenAs(View(), who, o, facet, now)
    {
      if o.close !in closes {
        return None;
      }
      var key := FindKey(who, closes[o.close], facet, o.epoch, now);
      if key.None? {
        return None;
      }
      var payload := OpenPayload(o, key.value);
      return if payload.Ok? then Some(payload.value) else None;
    }

    method ReadCommit(who: string, id: CipherId, now: nat) returns (commit: Result<Commit, Refusal>)
      requires store.Valid()
      ensures commit == CommitAt(View(), who, id, now)
    {
      var o := Load(id);
      if o.Err? {
        return Err(o.error);
      }
      var text := OpenFor(who, o.value, Content, now);
      if text.None? || !text.value.CommitText? {
        return Err(SealedToYou);
      }
      return Ok(text.value.commit);
    }

    /** Opens folder after folder, from the last keeping's tree on. */
    method Resolve(who: string, path: seq<string>, now: nat) returns (o: Result<SealedObject, Refusal>)
      requires store.Valid()
      ensures o == ResolvePath(View(), who, path, now)
    {
      var head := store.GetRef(Main);
      if head.None? {
        return Err(NothingKept);
      }
      var commit := ReadCommit(who, head.value, now);
      if commit.Err? {
        return Err(commit.error);
      }
      o := Load(commit.value.tree);
      if o.Err? {
        return;
      }
      for i := 0 to |path|
        invariant o.Ok?
        invariant ResolvePath(View(), who, path, now) == WalkTrees(View(), who, o.value, path[i..], now)
      {
        var text := OpenFor(who, o.value, Shape, now);
        if text.None? || !text.value.TreeText? {
          return Err(SealedToYou);
        }
        var entries := text.value.tree.entries;
        if path[i] !in entries {
          return Err(NoSuchEntry);
        }
        assert path[i..][0] == path[i] && path[i..][1..] == path[i + 1..];
        o := Load(entries[path[i]].cipher);
        if o.Err? {
          return;
        }
      }
    }

    // ---- signposts -----------------------------------------------------------------------------------

    method RaiseCell(path: string, kind: string, forwardOnly: seq<string>) returns (r: Result<(), Refusal>)
      modifies this`cells
      ensures Did(old(View()), View(), CellNew(old(View()), path, kind, forwardOnly), r)
    {
      var segs := Segments(path);
      if Join(segs) == "" {
        return Err(NoName);
      }
      if FindCell(cells, segs).Some? {
        return Err(CellStands);
      }
      var close := Governs(Join(segs));
      if close.None? {
        return Err(NotGoverned);
      }
      cells := cells + [CellDecl(segs, close.value, kind, forwardOnly)];
      return Ok(());
    }

    method ReadHead(who: string, decl: CellDecl, now: nat) returns (head: Result<Option<Entry>, Refusal>)
      requires store.Valid()
      ensures head == CellHead(View(), who, decl, now)
    {
      var cipher := store.GetRef(CellRef(decl.Id()));
      if cipher.None? {
        return Ok(None);
      }
      var o := Load(cipher.value);
      if o.Err? {
        return Err(o.error);
      }
      if decl.close !in closes {
        return Err(NoSuchClose);
      }
      var key := FindKey(who, closes[decl.close], Content, o.value.epoch, now);
      if key.None? {
        return Err(SealedToYou);
      }
      var t := OpenTransition(o.value, key.value);
      return if t.Ok? then Ok(Some((cipher.value, t.value))) else Err(CoreRefused(t.error));
    }

    method FindMover(gs: seq<Grant>, r: CloseRecord, decl: CellDecl, now: nat) returns (g: Option<Grant>)
      ensures g == FirstMover(gs, r, decl, now)
    {
      for i := 0 to |gs|
        invariant FirstMover(gs, r, decl, now) == FirstMover(gs[i..], r, decl, now)
      {
        if MayMove(gs[i], r, decl, now) {
          return Some(gs[i]);
        }
      }
      return None;
    }

    /** Pins each slot in turn. */
    static method PinAll(value: Value, slots: seq<Slot>) returns (pinned: Value)
      ensures pinned == Pinned(value, slots)
    {
      pinned := value;
      for i := 0 to |slots|
        invariant Pinned(value, slots) == Pinned(pinned, slots[i..])
      {
        assert slots[i..][0] == slots[i] && slots[i..][1..] == slots[i + 1..];
        pinned := pinned[slots[i].name := Pin(slots[i].commit, slots[i].note)];
      }
    }

    /** Stores a sealed move and lets the cell's ref point at it. */
    method AppendMove(r: CloseRecord, key: Key, decl: CellDecl, t: Transition)
      returns (cipher: Result<CipherId, Refusal>)
      modifies store
      ensures old(store.Valid()) ==> store.Valid()
      ensures match Append(old(View()), r, key, decl, t)
              case Ok(moved) => cipher == Ok(moved.cipher) && View() == moved.state
              case Err(e) => cipher == Err(e) && View() == old(View())
    {
      var o := SealTransition(r, key, r.epoch, t);
      if o.Err? {
        return Err(CoreRefused(o.error));
      }
      var id := store.Put(o.value);
      store.SetRef(CellRef(decl.Id()), id);
      return Ok(id);
    }

    /** Moves a signpost: authority, current key, guards, then the journal. */
    method Point(who: string, path: string, slots: seq<Slot>, reason: string, now: nat)
      returns (cipher: Result<CipherId, Refusal>)
      requires store.Valid()
      modifies store
      ensures store.Valid()
      ensures match Commons.Point(old(View()), who, path, slots, reason, now)
              case Ok(moved) => cipher == Ok(moved.cipher) && View() == moved.state
              case Err(e) => cipher == Err(e) && View() == old(View())
    {
      var found := FindCell(cells, Segments(path));
      if found.None? {
        return Err(NoSuchCell);
      }
      var decl := found.value;
      if decl.close !in closes {
        return Err(NoSuchClose);
      }
      var r := closes[decl.close];
      if who !in people {
        return Err(NoSuchPerson);
      }
      var gs := GrantsFor(who);
      var grant := FindMover(gs, r, decl, now);
      if grant.None? {
        return Err(MayNotMove);
      }
      var key := FindKey(who, r, Content, r.epoch, now);
      if key.None? {
        return Err(NoCurrentKey);
      }
      var head := ReadHead(who, decl, now);
      if head.Err? {
        return Err(head.error);
      }
      var value := PinAll(ValueOr(head.value), slots);
      var guard := CheckForward(decl, HeadValue(head.value), value, OracleOf(View(), who, now));
      if guard.Err? {
        return Err(CellRefused(guard.error));
      }
      var t := MakeTransition(decl, Tip(head.value), value, people[who], grant.value, now, reason);
      var verified := VerifyMove(t, r, decl);
      if verified.Err? {
        return Err(CellRefused(verified.error));
      }
      cipher := AppendMove(r, key.value, decl, t);
    }

    /** An unreadable commit has no parents to follow. */
    method ReadParents(who: string, id: CipherId, now: nat) returns (parents: seq<CipherId>)
      requires store.Valid()
      ensures parents == ParentsOf(ReaderOf(View(), who, now), id)
    {
      var commit := ReadCommit(who, id, now);
      parents := if commit.Ok? then commit.value.parents else [];
      ReaderParents(View(), who, now, id);
    }

    /** Whether a keeping descends from another, as far as `who` can read, within
        10,001 pops. */
    method Descends(who: string, ancestor: CipherId, newer: CipherId, now: nat) returns (yes: bool, ghost pops: nat)
      requires store.Valid()
      ensures yes == IsDescendantOf(ReaderOf(View(), who, now), ancestor, newer)
      ensures pops <= 10_001
    {
      pops := 0;
      ghost var read := ReaderOf(View(), who, now);
      var frontier := [newer];
      var steps: nat := 0;
      while frontier != []
        invariant steps <= MAX_STEPS && pops == steps
        invariant IsDescendantOf(read, ancestor, newer) == Search(read, ancestor, frontier, steps)
        decreases MAX_STEPS - steps
      {
        SearchPops(read, ancestor, frontier, steps);
        var id := frontier[|frontier| - 1];
        frontier, pops := frontier[..|frontier| - 1], pops + 1;
        if id == ancestor {
          return true, pops;
        }
        steps := steps + 1;
        if steps > MAX_STEPS {
          return false, pops;
        }
        var parents := ReadParents(who, id, now);
        frontier := frontier + parents;
      }
      return false, pops;
    }
  }

  // ---- the specification, piece by piece ------------------------------------------------

  /** One pop of the search. */
  lemma SearchPops(read: Reader, sought: CipherId, frontier: seq<CipherId>, steps: nat)
    requires steps <= MAX_STEPS && frontier != []
    ensures var rest, id := frontier[..|frontier| - 1], frontier[|frontier| - 1];
            Search(read, sought, frontier, steps) ==
            (id == sought || (steps + 1 <= MAX_STEPS && Search(read, sought, rest + ParentsOf(read, id), steps + 1)))
  {
  }

  lemma ReaderParents(s: State, who: string, now: nat, id: CipherId)
    ensures ParentsOf(ReaderOf(s, who, now), id) ==
            match CommitAt(s, who, id, now) case Ok(commit) => commit.parents case Err(_) => []
  {
  }

  /** One grant more to take terms from. */
  lemma KeeperStep(gs: seq<Grant>, i: nat, r: CloseRecord, now: nat)
    requires i < |gs|
    ensures var held, more := Live(gs[..i], r, now), Live(gs[..i + 1], r, now);
            if LiveOn(gs[i], r, now) then
              && UnionPowers(more) == UnionPowers(held) | gs[i].body.powers
              && Widest(more) == if Widest(held).Some? && !Widest(held).value.body.facet.AtMost(gs[i].body.facet)
                                 then Widest(held) else Some(gs[i])
            else more == held
  {
    assert gs[..i + 1] == gs[..i] + [gs[i]];
    LiveAppends(gs[..i], gs[i], r, r, now);
    var held := Live(gs[..i], r, now);
    if LiveOn(gs[i], r, now) {
      WidestAppends(held, gs[i]);
      UnionAppends(held, gs[i]);
    } else {
      assert held + [] == held;
    }
  }

  lemma KeysIgnoreObjects(s: State, objects: Objects, r: CloseRecord, now: nat)
    ensures CurrentContentKey(s.(objects := objects), s.me, r, now) == CurrentContentKey(s, s.me, r, now)
  {
  }

  lemma ShareHands(
    s: State, path: string, with: string, facet: Facet, powers: Powers, days: Option<nat>, now: nat, eph: nat,
    close: CloseId, g: Result<Grant, Refusal>)
    requires Governing(s.closemap, Join(Segments(path))) == Some(close) && close in s.closes
    requires s.me in s.people && with in s.people
    requires var expires := if days.Some? then Some(now + days.value * 86_400) else None;
             var holder := s.people[with].Public();
             g == ShareGrant(s, s.closes[close], s.people[s.me], holder, facet, powers, expires, now, eph)
    ensures Commons.Share(s, path, with, facet, powers, days, now, eph) ==
            if g.Ok? then Ok(AddGrant(s, with, g.value)) else Err(g.error)
  {
  }

  lemma SealEntrySeals(
    s: State, objects: Objects, r: CloseRecord, kind: ObjectKind, card: ShapeCard, text: Text, entryCard: EntryCard,
    now: nat, key: Key, o: Result<SealedObject, Error>)
    requires CurrentContentKey(s, s.me, r, now) == Some(key) && o == Seal(r, key, r.epoch, kind, card, text)
    ensures SealEntry(s, objects, r, kind, card, text, entryCard, now) ==
      if o.Err? then Kept(objects, Err(CoreRefused(o.error)))
      else Kept(PutSealed(objects, o.value), Ok(TreeEntry(kind, r.id, o.value.plain, CipherId(o.value), entryCard)))
  {
  }

  lemma SnapKidsStep(
    s: State, objects: Objects, dir: Node, i: nat, entries: map<string, TreeEntry>, rel: seq<string>, now: nat,
    objects': Objects, child: Result<TreeEntry, Refusal>)
    requires dir.Dir? && i < |dir.kids| && !Skipped(dir.kids[i].name)
    requires SnapNode(s, objects, dir.kids[i].node, rel + [dir.kids[i].name], now) == Kept(objects', child)
    ensures SnapKids(s, objects, dir, i, entries, rel, now) ==
      if child.Err? then Kept(objects', Err(child.error))
      else SnapKids(s, objects', dir, i + 1, entries[dir.kids[i].name := child.value], rel, now)
  {
  }

  lemma KeepersStep(
    s: State, all: set<string>, names: set<string>, name: string, except: set<string>, r: CloseRecord, now: nat)
    requires name in names && names <= all
    ensures KeepersOf(s, all - (names - {name}), except, r, now) ==
            if KeepsUp(s, name, except, r, now)
            then KeepersOf(s, all - names, except, r, now)[name := KeeperOf(s, name, r, now).value]
            else KeepersOf(s, all - names, except, r, now)
  {
    assert all - (names - {name}) == (all - names) + {name};
  }

  lemma HandedNone(grants: Shelves, issued: map<string, Grant>, all: set<string>)
    requires all <= issued.Keys
    ensures Handed(grants, issued, all - all) == grants
  {
  }

  lemma HandedStep(grants: Shelves, issued: map<string, Grant>, all: set<string>, names: set<string>, name: string)
    requires name in names && names <= all <= issued.Keys
    ensures var sofar := Handed(grants, issued, all - names);
            Handed(grants, issued, all - (names - {name})) == sofar[name := Held(sofar, name) + [issued[name]]]
  {
    assert all - (names - {name}) == (all - names) + {name};
  }
}
