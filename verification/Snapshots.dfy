/** Keeping a working tree and reading it back: a round trip, exact access, and
    a history that only grows. */
module Snapshots {
  import opened Terms
  import opened Closes
  import opened Seals
  import opened Paths
  import opened Commons
  import opened Keyring
  import opened Upkeep

  // ---- stored objects and who opens them --------------------------------------------

  /** The store holds, at `c`, an object of this kind sealing this text under
      the true keys of its close and epoch. */
  ghost predicate StoredAs(objects: Objects, closes: Records, c: CipherId, kind: ObjectKind, text: Text) {
    && c in objects && objects[c] == c.envelope
    && c.envelope.kind == kind
    && c.envelope.contentCt.text == text
    && c.envelope.close in closes
    && exists card :: SealedUnder(c.envelope, closes[c.envelope.close], card, text)
  }

  lemma StoredLater(
    objects: Objects, closes: Records, objects': Objects, closes': Records, c: CipherId, kind: ObjectKind, text: Text)
    requires StoredAs(objects, closes, c, kind, text) && ObjectsGrew(objects, objects') && ClosesGrew(closes, closes')
    ensures StoredAs(objects', closes', c, kind, text)
  {
    var o := c.envelope;
    var card :| SealedUnder(o, closes[o.close], card, text);
    SealOutlivesRotation(o, closes[o.close], closes'[o.close], card, text);
  }

  /** Holding a facet of an object: of its close, at its epoch. */
  ghost predicate HoldsOf(s: State, who: string, o: SealedObject, facet: Facet, now: nat) {
    Holds(s, who, o.close, facet, o.epoch, now)
  }

  lemma ShapeIsNotContent(key: Key, close: CloseId)
    ensures ShapeOf(key, close) != key
  {
    assert key < ShapeOf(key, close);
  }

  /** Opening a stored object at a facet gives its text exactly to those who
      hold that facet of it, and only at the facet its kind is sealed at. */
  lemma OpensIff(s: State, who: string, c: CipherId, kind: ObjectKind, text: Text, facet: Facet, now: nat)
    requires Inv(s) && StoredAs(s.objects, s.closes, c, kind, text)
    ensures OpenAs(s, who, c.envelope, facet, now) ==
            if facet == kind.PayloadFacet() && HoldsOf(s, who, c.envelope, facet, now) then Some(text) else None
  {
    var o := c.envelope;
    var r := s.closes[o.close];
    var card :| SealedUnder(o, r, card, text);
    KeyLookupIsExact(s, who, o.close, facet, o.epoch, now);
    if Holds(s, who, o.close, facet, o.epoch, now) {
      OpensExactly(o, r, card, text, TrueFacetKey(r, facet, o.epoch).value);
      ShapeIsNotContent(TrueKey(r, o.epoch), r.id);
    }
  }

  // ---- what a keeping is ---------------------------------------------------------------

  ghost predicate DistinctKid(kids: seq<Kid>, i: nat)
    requires i < |kids|
    decreases kids, 0
  {
    (forall j :: 0 <= j < i ==> kids[j].name != kids[i].name) && Distinct(kids[i].node)
  }

  /** A folder lists each name once, as file systems do. */
  ghost predicate Distinct(node: Node)
    decreases node, 1
  {
    node.Dir? ==> forall i: nat :: i < |node.kids| ==> DistinctKid(node.kids, i)
  }

  function EntriesAt(c: CipherId): map<string, TreeEntry> {
    if c.envelope.contentCt.text.TreeText? then c.envelope.contentCt.text.tree.entries else map[]
  }

  /** A listing tells the truth about the object it points at. */
  ghost predicate Fits(e: TreeEntry) {
    e.kind == e.cipher.envelope.kind && e.close == e.cipher.envelope.close && e.plain == e.cipher.envelope.plain
  }

  /** A condition on addresses, kept along with what is stored there. */
  type Condition = CipherId -> bool

  ghost predicate ListsKid(
    objects: Objects, closes: Records, also: Condition, entries: map<string, TreeEntry>, kid: Kid)
    decreases kid, 0
  {
    kid.name in entries && Fits(entries[kid.name]) && KeptAs(objects, closes, also, entries[kid.name].cipher, kid.node)
  }

  ghost function KeptNames(kids: seq<Kid>, n: nat): set<string>
    requires n <= |kids|
  {
    set i | 0 <= i < n && !Skipped(kids[i].name) :: kids[i].name
  }

  /** A listing of exactly the first `n` children, each kept in turn. */
  ghost predicate Lists(
    objects: Objects, closes: Records, also: Condition, entries: map<string, TreeEntry>, kids: seq<Kid>, n: nat)
    requires n <= |kids|
    decreases kids, 1
  {
    && entries.Keys == KeptNames(kids, n)
    && forall i :: 0 <= i < n && !Skipped(kids[i].name) ==> ListsKid(objects, closes, also, entries, kids[i])
  }

  /** The store holds `node` at `c`: its bytes if it is a file; if it is a folder,
      a listing of exactly its children, each kept in turn. */
  ghost predicate KeptAs(objects: Objects, closes: Records, also: Condition, c: CipherId, node: Node)
    decreases node, 2
  {
    also(c) &&
    match node
    case File(text, _, _) => StoredAs(objects, closes, c, Blob, text)
    case Dir(kids) =>
      && StoredAs(objects, closes, c, TreeKind, TreeText(Tree(EntriesAt(c))))
      && EntriesAt(c).Keys == KeptNames(kids, |kids|)
      && forall i :: 0 <= i < |kids| && !Skipped(kids[i].name) ==>
           ListsKid(objects, closes, also, EntriesAt(c), kids[i])
  }

  /** What is kept stays kept as the store and the records grow. */
  lemma {:induction false} KeptLater(
    objects: Objects, closes: Records, also: Condition, objects': Objects, closes': Records, also': Condition,
    c: CipherId, node: Node)
    requires KeptAs(objects, closes, also, c, node) && ObjectsGrew(objects, objects') && ClosesGrew(closes, closes')
    requires forall a: CipherId :: also(a) ==> also'(a)
    ensures KeptAs(objects', closes', also', c, node)
    decreases node
  {
    match node
    case File(text, _, _) => StoredLater(objects, closes, objects', closes', c, Blob, text);
    case Dir(kids) =>
      StoredLater(objects, closes, objects', closes', c, TreeKind, TreeText(Tree(EntriesAt(c))));
      forall i | 0 <= i < |kids| && !Skipped(kids[i].name)
        ensures ListsKid(objects', closes', also', EntriesAt(c), kids[i])
      {
        assert ListsKid(objects, closes, also, EntriesAt(c), kids[i]);
        KeptLater(objects, closes, also, objects', closes', also', EntriesAt(c)[kids[i].name].cipher, kids[i].node);
      }
  }

  lemma ListsLater(
    objects: Objects, objects': Objects, closes: Records, also: Condition, entries: map<string, TreeEntry>,
    kids: seq<Kid>, n: nat)
    requires n <= |kids| && Lists(objects, closes, also, entries, kids, n) && ObjectsGrew(objects, objects')
    ensures Lists(objects', closes, also, entries, kids, n)
  {
    forall i | 0 <= i < n && !Skipped(kids[i].name) ensures ListsKid(objects', closes, also, entries, kids[i]) {
      assert ListsKid(objects, closes, also, entries, kids[i]);
      KeptLater(objects, closes, also, objects', closes, also, entries[kids[i].name].cipher, kids[i].node);
    }
  }

  // ---- keeping does keep ------------------------------------------------------------------

  ghost predicate Stores(objects: Objects, objects': Objects) {
    ObjectsGrew(objects, objects') && (Addressed(objects) ==> Addressed(objects'))
  }

  /** What the keeper may read at once: everything they sealed. */
  ghost function Sealable(s: State, now: nat): Condition {
    (c: CipherId) => HoldsOf(s, s.me, c.envelope, Content, now)
  }

  lemma SealEntryStores(
    s: State, objects: Objects, r: CloseRecord, kind: ObjectKind, card: ShapeCard, text: Text, entryCard: EntryCard,
    now: nat)
    requires Inv(s) && Addressed(objects) && r.id in s.closes && s.closes[r.id] == r
    ensures var k := SealEntry(s, objects, r, kind, card, text, entryCard, now);
            && Stores(objects, k.objects)
            && (k.outcome.Ok? <==> Holds(s, s.me, r.id, Content, r.epoch, now))
            && (k.outcome.Ok? ==>
                && StoredAs(k.objects, s.closes, k.outcome.value.cipher, kind, text)
                && Fits(k.outcome.value) && Sealable(s, now)(k.outcome.value.cipher))
  {
    KeyLookupIsExact(s, s.me, r.id, Content, r.epoch, now);
    SealWithTrueKey(r, r.epoch, kind, card, text);
    var k := SealEntry(s, objects, r, kind, card, text, entryCard, now);
    if k.outcome.Ok? {
      assert SealedUnder(k.outcome.value.cipher.envelope, r, card, text);
    }
  }

  lemma GoverningRecordIsKnown(s: State, rel: seq<string>)
    requires Inv(s)
    ensures var r := GoverningRecord(s, rel); r.Ok? && r.value.id in s.closes && s.closes[r.value.id] == r.value
    ensures Governing(s.closemap, Join(rel)) == Some(GoverningRecord(s, rel).value.id)
  {
    GoverningIsKnown(s, Join(rel));
  }

  lemma ListedIsKept(
    objects: Objects, closes: Records, also: Condition, c: CipherId, dir: Node, entries: map<string, TreeEntry>)
    requires dir.Dir? && also(c) && StoredAs(objects, closes, c, TreeKind, TreeText(Tree(entries)))
    requires Lists(objects, closes, also, entries, dir.kids, |dir.kids|)
    ensures KeptAs(objects, closes, also, c, dir)
  {
    assert EntriesAt(c) == entries;
  }

  /** Sealing the listing of kept children keeps the folder. */
  lemma FolderKeeps(
    s: State, objects: Objects, dir: Node, close: CloseId, entries: map<string, TreeEntry>, rel: seq<string>, now: nat)
    requires Inv(s) && Addressed(objects) && dir.Dir? && close in s.closes
    requires Lists(objects, s.closes, Sealable(s, now), entries, dir.kids, |dir.kids|)
    ensures var k := SealFolder(s, objects, close, rel, entries, now);
            && Stores(objects, k.objects)
            && (k.outcome.Ok? ==>
                && KeptAs(k.objects, s.closes, Sealable(s, now), k.outcome.value.cipher, dir)
                && Fits(k.outcome.value))
  {
    var r := s.closes[close];
    var card := ShapeCard(if rel == [] then "/" else Join(rel), "commons/folder", FolderSize(entries), "");
    SealEntryStores(s, objects, r, TreeKind, card, TreeText(Tree(entries)),
                    CardFor(r, "commons/folder", FolderSize(entries)), now);
    var k := SealFolder(s, objects, close, rel, entries, now);
    ListsLater(objects, k.objects, s.closes, Sealable(s, now), entries, dir.kids, |dir.kids|);
    if k.outcome.Ok? {
      ListedIsKept(k.objects, s.closes, Sealable(s, now), k.outcome.value.cipher, dir, entries);
    }
  }

  /** One more child, kept and listed. */
  lemma ListsOneMore(
    objects: Objects, objects': Objects, closes: Records, also: Condition, dir: Node, i: nat,
    entries: map<string, TreeEntry>, entry: TreeEntry)
    requires dir.Dir? && Distinct(dir) && i < |dir.kids| && !Skipped(dir.kids[i].name)
    requires Lists(objects, closes, also, entries, dir.kids, i) && ObjectsGrew(objects, objects')
    requires KeptAs(objects', closes, also, entry.cipher, dir.kids[i].node) && Fits(entry)
    ensures Lists(objects', closes, also, entries[dir.kids[i].name := entry], dir.kids, i + 1)
  {
    var name := dir.kids[i].name;
    assert DistinctKid(dir.kids, i);
    ListsLater(objects, objects', closes, also, entries, dir.kids, i);
    assert KeptNames(dir.kids, i + 1) == KeptNames(dir.kids, i) + {name};
    forall j | 0 <= j < i + 1 && !Skipped(dir.kids[j].name)
      ensures ListsKid(objects', closes, also, entries[name := entry], dir.kids[j])
    {
      if j < i {
        assert ListsKid(objects', closes, also, entries, dir.kids[j]);
      }
    }
  }

  lemma FileKeeps(s: State, objects: Objects, file: Node, rel: seq<string>, now: nat)
    requires Inv(s) && Addressed(objects) && file.File?
    ensures var k := SnapFile(s, objects, file, rel, now);
            && Stores(objects, k.objects)
            && (k.outcome.Ok? ==>
                && KeptAs(k.objects, s.closes, Sealable(s, now), k.outcome.value.cipher, file)
                && Fits(k.outcome.value))
  {
    GoverningRecordIsKnown(s, rel);
    var r := GoverningRecord(s, rel).value;
    var card := ShapeCard(LastOr(rel), file.contentType, file.sizeClass, "");
    SealEntryStores(s, objects, r, Blob, card, file.text, CardFor(r, file.contentType, file.sizeClass), now);
  }

  lemma DirKeeps(s: State, objects: Objects, dir: Node, rel: seq<string>, now: nat)
    requires Inv(s) && Addressed(objects) && dir.Dir?
    requires var kids := SnapKids(s, objects, dir, 0, map[], rel, now);
             Stores(objects, kids.objects)
             && (kids.outcome.Ok? ==>
                 Lists(kids.objects, s.closes, Sealable(s, now), kids.outcome.value, dir.kids, |dir.kids|))
    ensures var k := SnapNode(s, objects, dir, rel, now);
            && Stores(objects, k.objects)
            && (k.outcome.Ok? ==>
                && KeptAs(k.objects, s.closes, Sealable(s, now), k.outcome.value.cipher, dir)
                && Fits(k.outcome.value))
  {
    GoverningRecordIsKnown(s, rel);
    var kids := SnapKids(s, objects, dir, 0, map[], rel, now);
    if kids.outcome.Ok? {
      FolderKeeps(s, kids.objects, dir, GoverningRecord(s, rel).value.id, kids.outcome.value, rel, now);
    }
  }

  /** Sealing a working tree, when it succeeds, keeps it; success or not, the
      store only grows. */
  lemma {:induction false} SnapNodeKeeps(s: State, objects: Objects, node: Node, rel: seq<string>, now: nat)
    requires Inv(s) && Addressed(objects) && Distinct(node)
    ensures var k := SnapNode(s, objects, node, rel, now);
            && Stores(objects, k.objects)
            && (k.outcome.Ok? ==>
                && KeptAs(k.objects, s.closes, Sealable(s, now), k.outcome.value.cipher, node)
                && Fits(k.outcome.value))
    decreases node, if node.Dir? then |node.kids| + 1 else 0
  {
    if node.Dir? {
      SnapKidsKeep(s, objects, node, 0, map[], rel, now);
      DirKeeps(s, objects, node, rel, now);
    } else {
      FileKeeps(s, objects, node, rel, now);
    }
  }

  lemma {:induction false} SnapKidKeeps(
    s: State, objects: Objects, dir: Node, i: nat, entries: map<string, TreeEntry>, rel: seq<string>, now: nat)
    requires Inv(s) && Addressed(objects) && dir.Dir? && Distinct(dir) && i < |dir.kids|
    requires Lists(objects, s.closes, Sealable(s, now), entries, dir.kids, i)
    ensures var k := SnapKid(s, objects, dir.kids[i], entries, rel, now);
            && Stores(objects, k.objects)
            && (k.outcome.Ok? ==> Lists(k.objects, s.closes, Sealable(s, now), k.outcome.value, dir.kids, i + 1))
    decreases dir, 0
  {
    var kid := dir.kids[i];
    assert DistinctKid(dir.kids, i);
    if Skipped(kid.name) {
      assert KeptNames(dir.kids, i + 1) == KeptNames(dir.kids, i);
    } else {
      var snap := SnapNode(s, objects, kid.node, rel + [kid.name], now);
      SnapNodeKeeps(s, objects, kid.node, rel + [kid.name], now);
      if snap.outcome.Ok? {
        ListsOneMore(objects, snap.objects, s.closes, Sealable(s, now), dir, i, entries, snap.outcome.value);
      }
    }
  }

  lemma {:induction false} SnapKidsKeep(
    s: State, objects: Objects, dir: Node, i: nat, entries: map<string, TreeEntry>, rel: seq<string>, now: nat)
    requires Inv(s) && Addressed(objects) && dir.Dir? && Distinct(dir) && i <= |dir.kids|
    requires Lists(objects, s.closes, Sealable(s, now), entries, dir.kids, i)
    ensures var k := SnapKids(s, objects, dir, i, entries, rel, now);
            Stores(objects, k.objects)
            && (k.outcome.Ok? ==> Lists(k.objects, s.closes, Sealable(s, now), k.outcome.value, dir.kids, |dir.kids|))
    decreases dir, |dir.kids| - i
  {
    if i < |dir.kids| {
      var snap := SnapKid(s, objects, dir.kids[i], entries, rel, now);
      SnapKidKeeps(s, objects, dir, i, entries, rel, now);
      if snap.outcome.Ok? {
        SnapKidsKeep(s, snap.objects, dir, i + 1, snap.outcome.value, rel, now);
      }
    }
  }
}
