/** Keeping the same working tree twice: what a keeping seals depends on nothing
    but the closes, and a lock change in between fakes an edit in exactly the
    folders above what was resealed. */
module Rekeeping {
  import opened Terms
  import opened Closes
  import opened Seals
  import opened Paths
  import opened Commons
  import opened Keyring
  import opened Upkeep
  import opened Snapshots
  import opened Reading

  // ---- keeping is deterministic ------------------------------------------------------------

  /** The envelope of a text under the keys in force. */
  ghost function SealNow(r: CloseRecord, kind: ObjectKind, card: ShapeCard, text: Text): (o: SealedObject)
    requires Sound(r)
    ensures SealedUnder(o, r, card, text) && o.kind == kind && o.epoch == r.epoch
  {
    SealWithTrueKey(r, r.epoch, kind, card, text);
    Seal(r, TrueKey(r, r.epoch), r.epoch, kind, card, text).value
  }

  ghost function EntryNow(r: CloseRecord, kind: ObjectKind, card: ShapeCard, text: Text, entryCard: EntryCard)
    : TreeEntry
    requires Sound(r)
  {
    var o := SealNow(r, kind, card, text);
    TreeEntry(kind, r.id, o.plain, CipherId(o), entryCard)
  }

  ghost function RecordAt(s: State, rel: seq<string>): (r: CloseRecord)
    requires Inv(s)
    ensures Sound(r) && r.id in s.closes && s.closes[r.id] == r && GoverningRecord(s, rel) == Ok(r)
    ensures Governing(s.closemap, Join(rel)) == Some(r.id)
  {
    GoverningRecordIsKnown(s, rel);
    GoverningRecord(s, rel).value
  }

  ghost function FileEntry(r: CloseRecord, file: Node, rel: seq<string>): TreeEntry
    requires Sound(r) && file.File?
  {
    EntryNow(r, Blob, ShapeCard(LastOr(rel), file.contentType, file.sizeClass, ""), file.text,
             CardFor(r, file.contentType, file.sizeClass))
  }

  ghost function FolderEntry(r: CloseRecord, entries: map<string, TreeEntry>, rel: seq<string>): TreeEntry
    requires Sound(r)
  {
    EntryNow(r, TreeKind, ShapeCard(if rel == [] then "/" else Join(rel), "commons/folder", FolderSize(entries), ""),
             TreeText(Tree(entries)), CardFor(r, "commons/folder", FolderSize(entries)))
  }

  /** The entry that a working tree is kept as: a function of the tree, where it
      stands, and the closes, not of who keeps it, when, or into which store. */
  ghost function EntryOf(s: State, node: Node, rel: seq<string>): TreeEntry
    requires Inv(s)
    decreases node, if node.Dir? then |node.kids| + 1 else 0
  {
    if node.File? then FileEntry(RecordAt(s, rel), node, rel)
    else FolderEntry(RecordAt(s, rel), Listing(s, node, |node.kids|, rel), rel)
  }

  /** The listing of the first `n` children. */
  ghost function Listing(s: State, dir: Node, n: nat, rel: seq<string>): map<string, TreeEntry>
    requires Inv(s) && dir.Dir? && n <= |dir.kids|
    decreases dir, n
  {
    if n == 0 then map[]
    else
      var kid := dir.kids[n - 1];
      var before := Listing(s, dir, n - 1, rel);
      if Skipped(kid.name) then before else before[kid.name := EntryOf(s, kid.node, rel + [kid.name])]
  }

  lemma SealEntryIs(
    s: State, objects: Objects, r: CloseRecord, kind: ObjectKind, card: ShapeCard, text: Text, entryCard: EntryCard,
    now: nat)
    requires Inv(s) && r.id in s.closes && s.closes[r.id] == r
    ensures var k := SealEntry(s, objects, r, kind, card, text, entryCard, now);
            k.outcome == if Holds(s, s.me, r.id, Content, r.epoch, now)
                         then Ok(EntryNow(r, kind, card, text, entryCard)) else Err(CannotWrite)
  {
    KeyLookupIsExact(s, s.me, r.id, Content, r.epoch, now);
    SealWithTrueKey(r, r.epoch, kind, card, text);
  }

  /** Whether the person acting may seal what stands at a path. */
  ghost predicate MayWrite(s: State, rel: seq<string>, now: nat)
    requires Inv(s)
  {
    Holds(s, s.me, RecordAt(s, rel).id, Content, RecordAt(s, rel).epoch, now)
  }

  /** ... and into those governing everything kept below it. */
  ghost predicate MayKeep(s: State, node: Node, rel: seq<string>, now: nat)
    requires Inv(s)
    decreases node, 1
  {
    MayWrite(s, rel, now) && (node.Dir? ==> MayKeepFrom(s, node.kids, 0, rel, now))
  }

  ghost predicate MayKeepFrom(s: State, kids: seq<Kid>, i: nat, rel: seq<string>, now: nat)
    requires Inv(s) && i <= |kids|
    decreases kids, 1
  {
    forall j: nat :: i <= j < |kids| ==> MayKeepKid(s, kids, j, rel, now)
  }

  ghost predicate MayKeepKid(s: State, kids: seq<Kid>, i: nat, rel: seq<string>, now: nat)
    requires Inv(s) && i < |kids|
    decreases kids, 0
  {
    Skipped(kids[i].name) || MayKeep(s, kids[i].node, rel + [kids[i].name], now)
  }

  /** Sealing a working tree succeeds exactly if the person acting may write
      everywhere in it, and its entry is then the tree's own. */
  lemma {:induction false} SnapNodeIs(s: State, objects: Objects, node: Node, rel: seq<string>, now: nat)
    requires Inv(s)
    ensures SnapNode(s, objects, node, rel, now).outcome ==
            if MayKeep(s, node, rel, now) then Ok(EntryOf(s, node, rel)) else Err(CannotWrite)
    decreases node, if node.Dir? then |node.kids| + 1 else 0
  {
    var r := RecordAt(s, rel);
    if node.File? {
      SealEntryIs(s, objects, r, Blob, ShapeCard(LastOr(rel), node.contentType, node.sizeClass, ""), node.text,
                  CardFor(r, node.contentType, node.sizeClass), now);
    } else {
      SnapKidsIs(s, objects, node, 0, map[], rel, now);
      var kids := SnapKids(s, objects, node, 0, map[], rel, now);
      if kids.outcome.Ok? {
        var size := FolderSize(kids.outcome.value);
        SealEntryIs(s, kids.objects, r, TreeKind,
                    ShapeCard(if rel == [] then "/" else Join(rel), "commons/folder", size, ""),
                    TreeText(Tree(kids.outcome.value)), CardFor(r, "commons/folder", size), now);
      }
    }
  }

  lemma DistinctHasKid(dir: Node, i: nat)
    requires dir.Dir? && Distinct(dir) && i < |dir.kids| && !Skipped(dir.kids[i].name)
    ensures KidAt(dir.kids, dir.kids[i].name) == Some(dir.kids[i].node) && Distinct(dir.kids[i].node)
  {
    assert DistinctKid(dir.kids, i);
    FirstIsKid(dir.kids, i);
  }

  lemma {:induction false} FirstIsKid(kids: seq<Kid>, i: nat)
    requires i < |kids| && !Skipped(kids[i].name)
    requires forall j :: 0 <= j < i ==> kids[j].name != kids[i].name
    ensures KidAt(kids, kids[i].name) == Some(kids[i].node)
  {
    if i > 0 {
      FirstIsKid(kids[1..], i - 1);
    }
  }

  ghost predicate MayWriteBelow(s: State, node: Node, rel: seq<string>, path: seq<string>, now: nat)
    requires Inv(s)
  {
    NodeAt(node, path).Some? ==> MayWrite(s, rel + path, now)
  }

  lemma OneStepUp(s: State, dir: Node, rel: seq<string>, i: nat, path: seq<string>, now: nat)
    requires Inv(s) && dir.Dir? && path != [] && i < |dir.kids| && KidAt(dir.kids, path[0]) == Some(dir.kids[i].node)
    requires MayWriteBelow(s, dir.kids[i].node, rel + [path[0]], path[1..], now)
    ensures MayWriteBelow(s, dir, rel, path, now)
  {
    assert rel + path == rel + [path[0]] + path[1..];
  }

  lemma {:induction false} MayKeepEach(s: State, node: Node, rel: seq<string>, path: seq<string>, now: nat)
    requires Inv(s) && MayKeep(s, node, rel, now)
    ensures MayWriteBelow(s, node, rel, path, now)
    decreases |path|
  {
    if path == [] {
      assert rel + path == rel;
    } else if node.Dir? && KidAt(node.kids, path[0]).Some? {
      var i := KidIndex(node.kids, path[0]);
      assert MayKeepKid(s, node.kids, i, rel, now);
      MayKeepEach(s, node.kids[i].node, rel + [path[0]], path[1..], now);
      OneStepUp(s, node, rel, i, path, now);
    }
  }

  lemma EachBelow(s: State, dir: Node, rel: seq<string>, i: nat, path: seq<string>, now: nat)
    requires Inv(s) && dir.Dir? && Distinct(dir) && i < |dir.kids| && !Skipped(dir.kids[i].name)
    requires MayWriteBelow(s, dir, rel, [dir.kids[i].name] + path, now)
    ensures MayWriteBelow(s, dir.kids[i].node, rel + [dir.kids[i].name], path, now)
  {
    DistinctHasKid(dir, i);
    var whole := [dir.kids[i].name] + path;
    assert whole[1..] == path && rel + whole == rel + [dir.kids[i].name] + path;
  }

  lemma {:induction false} EachMayKeep(s: State, node: Node, rel: seq<string>, now: nat)
    requires Inv(s) && Distinct(node) && forall path :: MayWriteBelow(s, node, rel, path, now)
    ensures MayKeep(s, node, rel, now)
    decreases node
  {
    assert MayWriteBelow(s, node, rel, [], now) && rel + [] == rel;
    if node.Dir? {
      forall i: nat | i < |node.kids| ensures MayKeepKid(s, node.kids, i, rel, now) {
        if !Skipped(node.kids[i].name) {
          DistinctHasKid(node, i);
          forall path: seq<string>
            ensures MayWriteBelow(s, node.kids[i].node, rel + [node.kids[i].name], path, now)
          {
            EachBelow(s, node, rel, i, path, now);
          }
          EachMayKeep(s, node.kids[i].node, rel + [node.kids[i].name], now);
        }
      }
    }
  }

  /** Where the working tree has something that is not hidden, the person acting
      holds the current content key of the close that governs it. */
  ghost predicate MayWriteAt(s: State, node: Node, rel: seq<string>, path: seq<string>, now: nat)
    requires Inv(s)
  {
    !Hidden(path) && NodeIn(node, path).Some? ==> MayWrite(s, rel + path, now)
  }

  lemma MayWriteAtIs(s: State, node: Node, rel: seq<string>, path: seq<string>, now: nat)
    requires Inv(s)
    ensures MayWriteAt(s, node, rel, path, now) <==> MayWriteBelow(s, node, rel, path, now)
  {
    NodeAtIs(node, path);
  }

  /** The person acting may keep a working tree exactly if that is so at every path. */
  lemma MayKeepIff(s: State, node: Node, rel: seq<string>, now: nat)
    requires Inv(s) && Distinct(node)
    ensures MayKeep(s, node, rel, now) <==> forall path :: MayWriteAt(s, node, rel, path, now)
  {
    forall path: seq<string>
      ensures MayWriteAt(s, node, rel, path, now) <==> MayWriteBelow(s, node, rel, path, now)
    {
      MayWriteAtIs(s, node, rel, path, now);
    }
    if MayKeep(s, node, rel, now) {
      forall path: seq<string> ensures MayWriteBelow(s, node, rel, path, now) {
        MayKeepEach(s, node, rel, path, now);
      }
    }
    if forall path: seq<string> :: MayWriteAt(s, node, rel, path, now) {
      EachMayKeep(s, node, rel, now);
    }
  }

  lemma {:induction false} SnapKidIs(
    s: State, objects: Objects, dir: Node, i: nat, entries: map<string, TreeEntry>, rel: seq<string>, now: nat)
    requires Inv(s) && dir.Dir? && i < |dir.kids| && entries == Listing(s, dir, i, rel)
    ensures SnapKid(s, objects, dir.kids[i], entries, rel, now).outcome ==
            if MayKeepKid(s, dir.kids, i, rel, now) then Ok(Listing(s, dir, i + 1, rel)) else Err(CannotWrite)
    decreases dir, 0
  {
    var kid := dir.kids[i];
    if !Skipped(kid.name) {
      SnapNodeIs(s, objects, kid.node, rel + [kid.name], now);
    }
  }

  lemma {:induction false} SnapKidsIs(
    s: State, objects: Objects, dir: Node, i: nat, entries: map<string, TreeEntry>, rel: seq<string>, now: nat)
    requires Inv(s) && dir.Dir? && i <= |dir.kids| && entries == Listing(s, dir, i, rel)
    ensures SnapKids(s, objects, dir, i, entries, rel, now).outcome ==
            if MayKeepFrom(s, dir.kids, i, rel, now) then Ok(Listing(s, dir, |dir.kids|, rel)) else Err(CannotWrite)
    decreases dir, |dir.kids| - i
  {
    if i < |dir.kids| {
      SnapKidIs(s, objects, dir, i, entries, rel, now);
      MayKeepStep(s, dir.kids, i, rel, now);
      var snap := SnapKid(s, objects, dir.kids[i], entries, rel, now);
      if snap.outcome.Ok? {
        SnapKidsIs(s, snap.objects, dir, i + 1, snap.outcome.value, rel, now);
      }
    }
  }

  lemma MayKeepStep(s: State, kids: seq<Kid>, i: nat, rel: seq<string>, now: nat)
    requires Inv(s) && i < |kids|
    ensures MayKeepFrom(s, kids, i, rel, now) <==>
            MayKeepKid(s, kids, i, rel, now) && MayKeepFrom(s, kids, i + 1, rel, now)
  {
  }

  // ---- keeping again after lock changes -----------------------------------------------------

  /** The same close governs a path in both states. */
  ghost predicate SameClose(s: State, s': State, rel: seq<string>)
    requires Inv(s) && Inv(s')
  {
    RecordAt(s, rel).id == RecordAt(s', rel).id
  }

  /** ... and has the same lock. */
  ghost predicate SameLock(s: State, s': State, rel: seq<string>)
    requires Inv(s) && Inv(s')
  {
    SameClose(s, s', rel) && RecordAt(s, rel).epoch == RecordAt(s', rel).epoch
  }

  /** Nothing kept strictly below has come under another close or another lock. */
  ghost predicate Undisturbed(s: State, s': State, node: Node, rel: seq<string>)
    requires Inv(s) && Inv(s')
    decreases node, 1
  {
    node.Dir? ==> forall i: nat :: i < |node.kids| ==> UndisturbedKid(s, s', node.kids, i, rel)
  }

  ghost predicate UndisturbedKid(s: State, s': State, kids: seq<Kid>, i: nat, rel: seq<string>)
    requires Inv(s) && Inv(s') && i < |kids|
    decreases kids, 0
  {
    !Skipped(kids[i].name) ==>
      && SameLock(s, s', rel + [kids[i].name])
      && Undisturbed(s, s', kids[i].node, rel + [kids[i].name])
  }

  /** What is kept strictly below at a path has the same lock. */
  ghost predicate SameLockAt(s: State, s': State, node: Node, rel: seq<string>, path: seq<string>)
    requires Inv(s) && Inv(s')
  {
    path != [] && !Hidden(path) && NodeIn(node, path).Some? ==> SameLock(s, s', rel + path)
  }

  lemma OneStepSame(s: State, s': State, dir: Node, rel: seq<string>, i: nat, path: seq<string>)
    requires Inv(s) && Inv(s') && dir.Dir? && path != [] && i < |dir.kids|
    requires KidAt(dir.kids, path[0]) == Some(dir.kids[i].node) && SameLock(s, s', rel + [path[0]])
    requires SameLockAt(s, s', dir.kids[i].node, rel + [path[0]], path[1..])
    ensures SameLockAt(s, s', dir, rel, path)
  {
    NodeAtIs(dir, path);
    NodeAtIs(dir.kids[i].node, path[1..]);
    OneNameDown(rel, path);
  }

  lemma OneNameDown(rel: seq<string>, path: seq<string>)
    requires path != []
    ensures rel + path == rel + [path[0]] + path[1..]
    ensures path[1..] == [] ==> rel + path == rel + [path[0]]
  {
  }

  lemma {:induction false} UndisturbedEach(s: State, s': State, node: Node, rel: seq<string>, path: seq<string>)
    requires Inv(s) && Inv(s') && Undisturbed(s, s', node, rel)
    ensures SameLockAt(s, s', node, rel, path)
    decreases |path|
  {
    NodeAtIs(node, path);
    if path != [] && NodeAt(node, path).Some? {
      var i := KidIndex(node.kids, path[0]);
      assert UndisturbedKid(s, s', node.kids, i, rel);
      UndisturbedEach(s, s', node.kids[i].node, rel + [path[0]], path[1..]);
      OneStepSame(s, s', node, rel, i, path);
    }
  }

  lemma SameLockBelow(s: State, s': State, dir: Node, rel: seq<string>, i: nat, path: seq<string>)
    requires Inv(s) && Inv(s') && dir.Dir? && Distinct(dir) && i < |dir.kids| && !Skipped(dir.kids[i].name)
    requires SameLockAt(s, s', dir, rel, [dir.kids[i].name] + path)
    ensures SameLockAt(s, s', dir.kids[i].node, rel + [dir.kids[i].name], path)
    ensures path == [] ==> SameLock(s, s', rel + [dir.kids[i].name])
  {
    DistinctHasKid(dir, i);
    var whole := [dir.kids[i].name] + path;
    NodeAtIs(dir, whole);
    NodeAtIs(dir.kids[i].node, path);
    assert whole[1..] == path && rel + whole == rel + [dir.kids[i].name] + path;
    assert rel + [dir.kids[i].name] + [] == rel + [dir.kids[i].name];
  }

  lemma {:induction false} EachUndisturbed(s: State, s': State, node: Node, rel: seq<string>)
    requires Inv(s) && Inv(s') && Distinct(node) && forall path :: SameLockAt(s, s', node, rel, path)
    ensures Undisturbed(s, s', node, rel)
    decreases node
  {
    if node.Dir? {
      forall i: nat | i < |node.kids| ensures UndisturbedKid(s, s', node.kids, i, rel) {
        if !Skipped(node.kids[i].name) {
          DistinctHasKid(node, i);
          forall path: seq<string> ensures SameLockAt(s, s', node.kids[i].node, rel + [node.kids[i].name], path) {
            SameLockBelow(s, s', node, rel, i, path);
          }
          SameLockBelow(s, s', node, rel, i, []);
          EachUndisturbed(s, s', node.kids[i].node, rel + [node.kids[i].name]);
        }
      }
    }
  }

  /** Nothing was disturbed exactly if every path strictly below that is not hidden
      is governed by the same close with the same lock. */
  lemma UndisturbedIff(s: State, s': State, node: Node, rel: seq<string>)
    requires Inv(s) && Inv(s') && Distinct(node)
    ensures Undisturbed(s, s', node, rel) <==> forall path :: SameLockAt(s, s', node, rel, path)
  {
    if Undisturbed(s, s', node, rel) {
      forall path: seq<string> ensures SameLockAt(s, s', node, rel, path) {
        UndisturbedEach(s, s', node, rel, path);
      }
    }
    if forall path: seq<string> :: SameLockAt(s, s', node, rel, path) {
      EachUndisturbed(s, s', node, rel);
    }
  }

  /** Two sealings, the second after any lock changes if it is in the same close:
      one plain id exactly for one close and text, one address exactly if the kind,
      the label and the epoch are the same too. */
  lemma EntryNowIff(
    r: CloseRecord, r': CloseRecord, kind: ObjectKind, kind': ObjectKind, card: ShapeCard, card': ShapeCard,
    text: Text, text': Text, entryCard: EntryCard, entryCard': EntryCard)
    requires Sound(r) && Sound(r') && (r.id == r'.id ==> Grew(r, r'))
    ensures var e, e' := EntryNow(r, kind, card, text, entryCard), EntryNow(r', kind', card', text', entryCard');
            && (e.plain == e'.plain <==> r.id == r'.id && text == text')
            && (e.cipher == e'.cipher <==>
                r.id == r'.id && text == text' && kind == kind' && card == card' && r.epoch == r'.epoch)
  {
    if r.id == r'.id {
      GrewKeepsKeys(r, r', r.epoch);
    }
  }

  lemma RecordsGrew(s: State, s': State, rel: seq<string>)
    requires Inv(s) && Inv(s') && Later(s, s')
    ensures SameClose(s, s', rel) ==> Grew(RecordAt(s, rel), RecordAt(s', rel))
  {
  }

  lemma {:induction false} ListingNames(s: State, dir: Node, n: nat, rel: seq<string>)
    requires Inv(s) && dir.Dir? && n <= |dir.kids|
    ensures Listing(s, dir, n, rel).Keys == KeptNames(dir.kids, n)
  {
    if n > 0 {
      ListingNames(s, dir, n - 1, rel);
      if Skipped(dir.kids[n - 1].name) {
        assert KeptNames(dir.kids, n) == KeptNames(dir.kids, n - 1);
      } else {
        assert KeptNames(dir.kids, n) == KeptNames(dir.kids, n - 1) + {dir.kids[n - 1].name};
      }
    }
  }

  lemma {:induction false} ListingAt(s: State, dir: Node, n: nat, rel: seq<string>, i: nat)
    requires Inv(s) && dir.Dir? && Distinct(dir) && i < n <= |dir.kids| && !Skipped(dir.kids[i].name)
    ensures dir.kids[i].name in Listing(s, dir, n, rel)
    ensures Listing(s, dir, n, rel)[dir.kids[i].name] == EntryOf(s, dir.kids[i].node, rel + [dir.kids[i].name])
  {
    assert DistinctKid(dir.kids, n - 1);
    if i < n - 1 {
      ListingAt(s, dir, n - 1, rel, i);
    }
  }

  /** Two listings list a child alike. */
  ghost predicate ListsAlike(s: State, s': State, kids: seq<Kid>, i: nat, rel: seq<string>)
    requires Inv(s) && Inv(s') && i < |kids|
  {
    var path := rel + [kids[i].name];
    Skipped(kids[i].name) || EntryOf(s, kids[i].node, path) == EntryOf(s', kids[i].node, path)
  }

  lemma ListingsAlike(s: State, s': State, dir: Node, rel: seq<string>, i: nat)
    requires Inv(s) && Inv(s') && dir.Dir? && Distinct(dir) && i < |dir.kids|
    requires Listing(s, dir, |dir.kids|, rel) == Listing(s', dir, |dir.kids|, rel)
    ensures ListsAlike(s, s', dir.kids, i, rel)
  {
    if !Skipped(dir.kids[i].name) {
      ListingAt(s, dir, |dir.kids|, rel, i);
      ListingAt(s', dir, |dir.kids|, rel, i);
    }
  }

  lemma AlikeListings(s: State, s': State, dir: Node, rel: seq<string>)
    requires Inv(s) && Inv(s') && dir.Dir? && Distinct(dir)
    requires forall i: nat :: i < |dir.kids| ==> ListsAlike(s, s', dir.kids, i, rel)
    ensures Listing(s, dir, |dir.kids|, rel) == Listing(s', dir, |dir.kids|, rel)
  {
    var n := |dir.kids|;
    var m, m' := Listing(s, dir, n, rel), Listing(s', dir, n, rel);
    ListingNames(s, dir, n, rel);
    ListingNames(s', dir, n, rel);
    forall name | name in m ensures m[name] == m'[name] {
      var i: nat :| i < n && !Skipped(dir.kids[i].name) && dir.kids[i].name == name;
      assert ListsAlike(s, s', dir.kids, i, rel);
      ListingAt(s, dir, n, rel, i);
      ListingAt(s', dir, n, rel, i);
    }
  }

  /** Two listings are the same exactly if nothing below was disturbed. */
  lemma ListingsIff(s: State, s': State, dir: Node, rel: seq<string>)
    requires Inv(s) && Inv(s') && dir.Dir? && Distinct(dir)
    requires forall i: nat :: i < |dir.kids| && !Skipped(dir.kids[i].name) ==> KidIff(s, s', dir.kids, i, rel)
    ensures Listing(s, dir, |dir.kids|, rel) == Listing(s', dir, |dir.kids|, rel) <==> Undisturbed(s, s', dir, rel)
  {
    forall i: nat | i < |dir.kids|
      ensures ListsAlike(s, s', dir.kids, i, rel) <==> UndisturbedKid(s, s', dir.kids, i, rel)
    {
      assert Skipped(dir.kids[i].name) || KidIff(s, s', dir.kids, i, rel);
    }
    if Listing(s, dir, |dir.kids|, rel) == Listing(s', dir, |dir.kids|, rel) {
      forall i: nat | i < |dir.kids| ensures UndisturbedKid(s, s', dir.kids, i, rel) {
        ListingsAlike(s, s', dir, rel, i);
      }
    }
    if Undisturbed(s, s', dir, rel) {
      forall i: nat | i < |dir.kids| ensures ListsAlike(s, s', dir.kids, i, rel) {
        assert UndisturbedKid(s, s', dir.kids, i, rel);
      }
      AlikeListings(s, s', dir, rel);
    }
  }

  ghost predicate KidIff(s: State, s': State, kids: seq<Kid>, i: nat, rel: seq<string>)
    requires Inv(s) && Inv(s') && i < |kids|
  {
    var path := rel + [kids[i].name];
    EntryOf(s, kids[i].node, path) == EntryOf(s', kids[i].node, path)
    <==> SameLock(s, s', path) && Undisturbed(s, s', kids[i].node, path)
  }

  lemma FilesIff(s: State, s': State, file: Node, rel: seq<string>)
    requires Inv(s) && Inv(s') && Later(s, s') && file.File?
    ensures var e, e' := EntryOf(s, file, rel), EntryOf(s', file, rel);
            && e.kind == e'.kind && (e.close == e'.close <==> SameClose(s, s', rel))
            && (e.plain == e'.plain <==> SameClose(s, s', rel))
            && (e.cipher == e'.cipher <==> SameLock(s, s', rel))
            && (e == e' <==> e.cipher == e'.cipher)
  {
    var r, r' := RecordAt(s, rel), RecordAt(s', rel);
    var card := ShapeCard(LastOr(rel), file.contentType, file.sizeClass, "");
    RecordsGrew(s, s', rel);
    EntryNowIff(r, r', Blob, Blob, card, card, file.text, file.text, CardFor(r, file.contentType, file.sizeClass),
                CardFor(r', file.contentType, file.sizeClass));
  }

  lemma FoldersIff(
    r: CloseRecord, r': CloseRecord, m: map<string, TreeEntry>, m': map<string, TreeEntry>, rel: seq<string>)
    requires Sound(r) && Sound(r') && (r.id == r'.id ==> Grew(r, r'))
    ensures var e, e' := FolderEntry(r, m, rel), FolderEntry(r', m', rel);
            && e.kind == e'.kind && (e.close == e'.close <==> r.id == r'.id)
            && (e.plain == e'.plain <==> r.id == r'.id && m == m')
            && (e.cipher == e'.cipher <==> r.id == r'.id && r.epoch == r'.epoch && m == m')
            && (e == e' <==> e.cipher == e'.cipher)
  {
    var title := if rel == [] then "/" else Join(rel);
    EntryNowIff(r, r', TreeKind, TreeKind,
                ShapeCard(title, "commons/folder", FolderSize(m), ""),
                ShapeCard(title, "commons/folder", FolderSize(m'), ""),
                TreeText(Tree(m)), TreeText(Tree(m')),
                CardFor(r, "commons/folder", FolderSize(m)), CardFor(r', "commons/folder", FolderSize(m')));
  }

  /** Keeping an unchanged working tree again, whatever was done in between: the
      plain id, by which history and merges tell an edit, stays the same exactly
      if the tree is in the same close and nothing strictly below came under
      another close or lock, so for a file exactly if its close is the same. The
      address stays the same exactly if the lock at the top is the same too. */
  lemma {:induction false} RekeepingIff(s: State, s': State, node: Node, rel: seq<string>)
    requires Inv(s) && Inv(s') && Later(s, s') && Distinct(node)
    ensures var e, e' := EntryOf(s, node, rel), EntryOf(s', node, rel);
            && e.kind == e'.kind && (e.close == e'.close <==> SameClose(s, s', rel))
            && (e.plain == e'.plain <==> SameClose(s, s', rel) && Undisturbed(s, s', node, rel))
            && (e.cipher == e'.cipher <==> SameLock(s, s', rel) && Undisturbed(s, s', node, rel))
            && (e == e' <==> e.cipher == e'.cipher)
    decreases node
  {
    match node
    case File(_, _, _) => FilesIff(s, s', node, rel);
    case Dir(kids) =>
      forall i: nat | i < |kids| && !Skipped(kids[i].name) ensures KidIff(s, s', kids, i, rel) {
        assert DistinctKid(kids, i);
        RekeepingIff(s, s', kids[i].node, rel + [kids[i].name]);
      }
      ListingsIff(s, s', node, rel);
      RecordsGrew(s, s', rel);
      var m, m' := Listing(s, node, |kids|, rel), Listing(s', node, |kids|, rel);
      FoldersIff(RecordAt(s, rel), RecordAt(s', rel), m, m', rel);
  }

  /** A keeping succeeds exactly if the keeper holds the current content key of
      every close in the working tree and of the commons, and what it commits is
      the tree's own entry. */
  lemma KeepSucceedsIff(s: State, root: Node, message: string, now: nat)
    requires Inv(s) && root.Dir?
    ensures var k := Keep(s, root, message, now);
            && (k.outcome.Ok? <==> MayKeep(s, root, [], now)
                                   && Holds(s, s.me, s.commons, Content, s.closes[s.commons].epoch, now))
            && (k.outcome.Err? ==> k.outcome == Err(CannotWrite))
            && (k.outcome.Ok? ==>
                && CommitIn(k.outcome.value).Some?
                && CommitIn(k.outcome.value).value.tree == EntryOf(s, root, []).cipher
                && CommitIn(k.outcome.value).value.treePlain == EntryOf(s, root, []).plain)
  {
    SnapNodeIs(s, s.objects, root, [], now);
    var snap := SnapNode(s, s.objects, root, [], now);
    if snap.outcome.Ok? {
      SealCommitIs(s, snap.objects, snap.outcome.value, message, now);
    }
  }

  lemma SealCommitIs(s: State, objects: Objects, root: TreeEntry, message: string, now: nat)
    requires Inv(s)
    ensures var k := SealCommit(s, objects, root, message, now);
            && (k.outcome.Ok? <==> Holds(s, s.me, s.commons, Content, s.closes[s.commons].epoch, now))
            && (k.outcome.Err? ==> k.outcome == Err(CannotWrite))
            && (k.outcome.Ok? ==>
                CommitIn(k.outcome.value) == Some(Commit(root.cipher, root.plain, HeadOf(s), s.me, message, now)))
  {
    var r := s.closes[s.commons];
    var commit := Commit(root.cipher, root.plain, HeadOf(s), s.me, message, now);
    KeyLookupIsExact(s, s.me, s.commons, Content, r.epoch, now);
    var card := ShapeCard("commit", "commons/commit", SizeClass(|message|), "");
    SealWithTrueKey(r, r.epoch, CommitKind, card, CommitText(commit));
  }

  /** Two keepings of the same working tree, by anyone at any times, commit the
      same tree exactly if every path of it is still governed by the same close
      with the same lock, and the same plain id exactly if that holds below the top
      and the close at the top is the same. */
  lemma KeepingAgainIff(
    s: State, s': State, root: Node, message: string, message': string, now: nat, now': nat)
    requires Inv(s) && Inv(s') && Later(s, s') && root.Dir? && Distinct(root)
    requires Keep(s, root, message, now).outcome.Ok? && Keep(s', root, message', now').outcome.Ok?
    ensures var c, c' := Keep(s, root, message, now).outcome.value, Keep(s', root, message', now').outcome.value;
            && CommitIn(c).Some? && CommitIn(c').Some?
            && (CommitIn(c).value.treePlain == CommitIn(c').value.treePlain <==>
                SameClose(s, s', []) && Undisturbed(s, s', root, []))
            && (CommitIn(c).value.tree == CommitIn(c').value.tree <==>
                SameLock(s, s', []) && Undisturbed(s, s', root, []))
  {
    KeepSucceedsIff(s, root, message, now);
    KeepSucceedsIff(s', root, message', now');
    RekeepingIff(s, s', root, []);
  }

  /** Changing a lock makes every folder directly above something it governs look
      edited, although nothing in it was. */
  lemma LockChangeFakesEdit(
    s: State, s': State, close: CloseId, except: set<string>, now: nat, minted: Key, ephs: string -> nat,
    dir: Node, rel: seq<string>, i: nat)
    requires Inv(s) && LockChanged(s, s', close, except, now, minted, ephs)
    requires dir.Dir? && Distinct(dir) && i < |dir.kids| && !Skipped(dir.kids[i].name)
    requires Governing(s.closemap, Join(rel + [dir.kids[i].name])) == Some(close)
    ensures Inv(s') && EntryOf(s, dir, rel).plain != EntryOf(s', dir, rel).plain
  {
    LockChangeKeeps(s, s', close, except, now, minted, ephs);
    LockChangeIsLater(s, s', close, except, now, minted, ephs);
    RekeepingIff(s, s', dir, rel);
    assert !UndisturbedKid(s, s', dir.kids, i, rel);
  }
}
