/** Reading a keeping back: exactly the kept bytes, to exactly those who hold
    the needed keys, however long ago it was kept. */
module Reading {
  import opened Terms
  import opened Closes
  import opened Seals
  import opened Commons
  import opened Keyring
  import opened Upkeep
  import opened Snapshots

  const ANY: Condition := (c: CipherId) => true

  // ---- paths through the working tree and through the store -------------------------

  /** The kept child of a name. */
  function KidAt(kids: seq<Kid>, name: string): Option<Node>
    decreases kids
  {
    if kids == [] || Skipped(name) then None
    else if kids[0].name == name then Some(kids[0].node)
    else KidAt(kids[1..], name)
  }

  /** What the working tree has at a path, as far as it is ever kept. */
  function NodeAt(node: Node, path: seq<string>): Option<Node>
    decreases |path|
  {
    if path == [] then Some(node)
    else if node.File? then None
    else match KidAt(node.kids, path[0])
      case None => None
      case Some(kid) => NodeAt(kid, path[1..])
  }

  /** The text of the file at a path, if there is a file. */
  function FileAt(node: Node, path: seq<string>): Option<Text> {
    match NodeAt(node, path)
    case Some(File(text, _, _)) => Some(text)
    case _ => None
  }

  lemma {:induction false} KidIndex(kids: seq<Kid>, name: string) returns (i: nat)
    requires KidAt(kids, name).Some?
    ensures i < |kids| && !Skipped(kids[i].name) && kids[i].name == name && kids[i].node == KidAt(kids, name).value
  {
    if kids[0].name == name {
      i := 0;
    } else {
      i := KidIndex(kids[1..], name);
      i := i + 1;
    }
  }

  // ---- paths through the working tree, whether kept or not ---------------------------

  /** The child of a name in a folder of the working tree. */
  function ChildIn(kids: seq<Kid>, name: string): Option<Node>
    decreases kids
  {
    if kids == [] then None
    else if kids[0].name == name then Some(kids[0].node)
    else ChildIn(kids[1..], name)
  }

  /** What the working tree has at a path. */
  function NodeIn(node: Node, path: seq<string>): Option<Node>
    decreases |path|
  {
    if path == [] then Some(node)
    else if node.File? then None
    else match ChildIn(node.kids, path[0])
      case None => None
      case Some(kid) => NodeIn(kid, path[1..])
  }

  /** The bytes the working tree has at a path, if there is a file. */
  function BytesIn(node: Node, path: seq<string>): Option<Text> {
    match NodeIn(node, path)
    case Some(File(text, _, _)) => Some(text)
    case _ => None
  }

  /** The store's own directory, git's, or something inside one. */
  predicate Hidden(path: seq<string>) {
    ".cc" in path || ".git" in path
  }

  lemma {:induction false} KidAtIs(kids: seq<Kid>, name: string)
    ensures KidAt(kids, name) == if Hidden([name]) then None else ChildIn(kids, name)
  {
    if kids != [] {
      KidAtIs(kids[1..], name);
    }
  }

  /** What is ever kept of a working tree: everything that is not hidden. */
  lemma {:induction false} NodeAtIs(node: Node, path: seq<string>)
    ensures NodeAt(node, path) == if Hidden(path) then None else NodeIn(node, path)
    ensures FileAt(node, path) == if Hidden(path) then None else BytesIn(node, path)
    decreases |path|
  {
    if path != [] && node.Dir? {
      assert Hidden(path) <==> Hidden([path[0]]) || Hidden(path[1..]);
      KidAtIs(node.kids, path[0]);
      if ChildIn(node.kids, path[0]).Some? {
        NodeAtIs(ChildIn(node.kids, path[0]).value, path[1..]);
      }
    }
  }

  /** The address listed at a name of the folder stored at `c`. */
  function Child(c: CipherId, name: string): Option<CipherId> {
    if name in EntriesAt(c) then Some(EntriesAt(c)[name].cipher) else None
  }

  /** The keys a path needs: shape of every folder on the way, content of what
      stands at its end, each of its own close at its own epoch. */
  ghost predicate HoldsAlong(s: State, who: string, c: CipherId, path: seq<string>, now: nat)
    decreases |path|
  {
    if path == [] then HoldsOf(s, who, c.envelope, Content, now)
    else
      && HoldsOf(s, who, c.envelope, Shape, now)
      && Child(c, path[0]).Some?
      && HoldsAlong(s, who, Child(c, path[0]).value, path[1..], now)
  }

  /** Walking down from the object at `c` and opening what is there. */
  function ReadBelow(s: State, who: string, c: CipherId, path: seq<string>, now: nat): Option<Text> {
    match WalkTrees(s, who, c.envelope, path, now)
    case Err(_) => None
    case Ok(o) => OpenBlob(s, who, o, now)
  }

  lemma {:induction false} KidIsListed(
    objects: Objects, closes: Records, also: Condition, entries: map<string, TreeEntry>, kids: seq<Kid>, all: seq<Kid>,
    skip: nat, name: string)
    requires skip <= |all| && kids == all[skip..]
    requires forall i :: 0 <= i < |all| && !Skipped(all[i].name) ==> ListsKid(objects, closes, also, entries, all[i])
    ensures KidAt(kids, name).Some? ==>
            name in entries && KeptAs(objects, closes, also, entries[name].cipher, KidAt(kids, name).value)
    decreases |kids|
  {
    if kids != [] && !Skipped(name) {
      assert all[skip] == kids[0];
      if kids[0].name == name {
        assert ListsKid(objects, closes, also, entries, all[skip]);
      } else {
        KidIsListed(objects, closes, also, entries, kids[1..], all, skip + 1, name);
      }
    }
  }

  lemma {:induction false} UnkeptIsUnlisted(kids: seq<Kid>, name: string, skip: nat, all: seq<Kid>)
    requires skip <= |all| && kids == all[skip..]
    requires KidAt(kids, name).None?
    requires forall i :: 0 <= i < skip ==> all[i].name != name || Skipped(name)
    ensures name !in KeptNames(all, |all|)
    decreases |kids|
  {
    if kids != [] && !Skipped(name) {
      assert all[skip] == kids[0];
      UnkeptIsUnlisted(kids[1..], name, skip + 1, all);
    }
  }

  /** A kept folder lists a name exactly if it keeps a child of that name, and
      then what it lists is that child, kept. */
  lemma ChildIsKept(objects: Objects, closes: Records, also: Condition, c: CipherId, dir: Node, name: string)
    requires dir.Dir? && KeptAs(objects, closes, also, c, dir)
    ensures Child(c, name).Some? <==> KidAt(dir.kids, name).Some?
    ensures Child(c, name).Some? ==>
            KeptAs(objects, closes, also, Child(c, name).value, KidAt(dir.kids, name).value)
  {
    assert dir.kids == dir.kids[0..];
    KidIsListed(objects, closes, also, EntriesAt(c), dir.kids, dir.kids, 0, name);
    if KidAt(dir.kids, name).None? {
      UnkeptIsUnlisted(dir.kids, name, 0, dir.kids);
    }
  }

  // ---- the round trip, with exact access ---------------------------------------------------

  lemma KeptIsStored(objects: Objects, closes: Records, also: Condition, c: CipherId, node: Node)
    requires KeptAs(objects, closes, also, c, node)
    ensures node.File? ==> StoredAs(objects, closes, c, Blob, node.text)
    ensures node.Dir? ==> StoredAs(objects, closes, c, TreeKind, TreeText(Tree(EntriesAt(c))))
    ensures c in objects && objects[c] == c.envelope
  {
  }

  /** One step down: the folder opens for holders of its shape. */
  lemma WalkStep(s: State, who: string, c: CipherId, path: seq<string>, now: nat)
    requires Inv(s) && StoredAs(s.objects, s.closes, c, TreeKind, TreeText(Tree(EntriesAt(c)))) && path != []
    requires Child(c, path[0]).Some? ==>
             Child(c, path[0]).value in s.objects
             && s.objects[Child(c, path[0]).value] == Child(c, path[0]).value.envelope
    ensures ReadBelow(s, who, c, path, now) ==
            if Child(c, path[0]).Some? && HoldsOf(s, who, c.envelope, Shape, now)
            then ReadBelow(s, who, Child(c, path[0]).value, path[1..], now)
            else None
  {
    OpensIff(s, who, c, TreeKind, TreeText(Tree(EntriesAt(c))), Shape, now);
  }

  /** No step goes down from a file. */
  lemma NoStepFromFile(s: State, who: string, c: CipherId, text: Text, path: seq<string>, now: nat)
    requires Inv(s) && StoredAs(s.objects, s.closes, c, Blob, text) && path != []
    ensures ReadBelow(s, who, c, path, now) == None
  {
    OpensIff(s, who, c, Blob, text, Shape, now);
  }

  /** At the end of the path a file opens for holders of its content, and a
      folder is not a file for anyone. */
  lemma ReadsHere(s: State, who: string, c: CipherId, node: Node, now: nat)
    requires Inv(s) && KeptAs(s.objects, s.closes, ANY, c, node)
    ensures ReadBelow(s, who, c, [], now) == if HoldsAlong(s, who, c, [], now) then FileAt(node, []) else None
  {
    if node.File? {
      OpensIff(s, who, c, Blob, node.text, Content, now);
    } else {
      OpensIff(s, who, c, TreeKind, TreeText(Tree(EntriesAt(c))), Content, now);
    }
  }

  /** Everything one step down needs to know of a kept folder. */
  lemma FolderStep(s: State, who: string, c: CipherId, dir: Node, path: seq<string>, now: nat)
    requires Inv(s) && dir.Dir? && KeptAs(s.objects, s.closes, ANY, c, dir) && path != []
    ensures Child(c, path[0]).Some? <==> KidAt(dir.kids, path[0]).Some?
    ensures Child(c, path[0]).Some? ==>
            KeptAs(s.objects, s.closes, ANY, Child(c, path[0]).value, KidAt(dir.kids, path[0]).value)
    ensures ReadBelow(s, who, c, path, now) ==
            if Child(c, path[0]).Some? && HoldsOf(s, who, c.envelope, Shape, now)
            then ReadBelow(s, who, Child(c, path[0]).value, path[1..], now)
            else None
  {
    ChildIsKept(s.objects, s.closes, ANY, c, dir, path[0]);
    if Child(c, path[0]).Some? {
      KeptIsStored(s.objects, s.closes, ANY, Child(c, path[0]).value, KidAt(dir.kids, path[0]).value);
    }
    WalkStep(s, who, c, path, now);
  }

  /** One step of the round trip, from what holds a step further down. */
  lemma ReadsBelow(s: State, who: string, c: CipherId, dir: Node, path: seq<string>, now: nat)
    requires dir.Dir? && path != []
    requires Child(c, path[0]).Some? <==> KidAt(dir.kids, path[0]).Some?
    requires ReadBelow(s, who, c, path, now) ==
             if Child(c, path[0]).Some? && HoldsOf(s, who, c.envelope, Shape, now)
             then ReadBelow(s, who, Child(c, path[0]).value, path[1..], now)
             else None
    requires Child(c, path[0]).Some? ==>
             ReadBelow(s, who, Child(c, path[0]).value, path[1..], now) ==
             if HoldsAlong(s, who, Child(c, path[0]).value, path[1..], now)
             then FileAt(KidAt(dir.kids, path[0]).value, path[1..]) else None
    ensures ReadBelow(s, who, c, path, now) == if HoldsAlong(s, who, c, path, now) then FileAt(dir, path) else None
  {
  }

  /** Reading at any path of a kept tree gives the kept bytes if there is a file
      and the reader holds the keys along the path, and otherwise nothing. */
  lemma {:induction false} ReadsIff(s: State, who: string, c: CipherId, node: Node, path: seq<string>, now: nat)
    requires Inv(s) && KeptAs(s.objects, s.closes, ANY, c, node)
    ensures ReadBelow(s, who, c, path, now) ==
            if HoldsAlong(s, who, c, path, now) then FileAt(node, path) else None
    decreases |path|
  {
    if path == [] {
      ReadsHere(s, who, c, node, now);
    } else if node.File? {
      NoStepFromFile(s, who, c, node.text, path, now);
    } else {
      FolderStep(s, who, c, node, path, now);
      if Child(c, path[0]).Some? {
        ReadsIff(s, who, Child(c, path[0]).value, KidAt(node.kids, path[0]).value, path[1..], now);
      }
      ReadsBelow(s, who, c, node, path, now);
    }
  }

  // ---- commits ------------------------------------------------------------------------------

  function CommitIn(c: CipherId): Option<Commit> {
    if c.envelope.contentCt.text.CommitText? then Some(c.envelope.contentCt.text.commit) else None
  }

  /** A commit of the commons, stored with its whole tree. */
  ghost predicate KeptCommit(s: State, also: Condition, c: CipherId, root: Node) {
    && CommitIn(c).Some?
    && StoredAs(s.objects, s.closes, c, CommitKind, CommitText(CommitIn(c).value))
    && c.envelope.close == s.commons
    && also(c)
    && KeptAs(s.objects, s.closes, also, CommitIn(c).value.tree, root)
  }

  /** The keys it takes to read a path of a commit: content of the commons at
      the commit's epoch, and the keys along the path. */
  ghost predicate MayRead(s: State, who: string, c: CipherId, path: seq<string>, now: nat) {
    && HoldsOf(s, who, c.envelope, Content, now)
    && CommitIn(c).Some?
    && HoldsAlong(s, who, CommitIn(c).value.tree, path, now)
  }

  lemma CommitOpensIff(s: State, who: string, c: CipherId, commit: Commit, now: nat)
    requires Inv(s) && StoredAs(s.objects, s.closes, c, CommitKind, CommitText(commit))
    ensures CommitAt(s, who, c, now)
         == if HoldsOf(s, who, c.envelope, Content, now) then Ok(commit) else Err(SealedToYou)
  {
    OpensIff(s, who, c, CommitKind, CommitText(commit), Content, now);
  }

  lemma ReadFromIs(s: State, who: string, c: CipherId, commit: Commit, path: seq<string>, now: nat)
    requires CommitAt(s, who, c, now).Ok? ==> CommitAt(s, who, c, now).value == commit
    requires commit.tree in s.objects && s.objects[commit.tree] == commit.tree.envelope
    ensures ReadFrom(s, who, c, path, now) ==
            if CommitAt(s, who, c, now).Ok? then ReadBelow(s, who, commit.tree, path, now) else None
  {
  }

  /** The round trip with exact access: from any kept commit, any person reads
      at any path that is not hidden exactly the bytes the working tree had there
      if they hold the needed keys, and otherwise nothing. */
  lemma CommitReadsIff(s: State, who: string, c: CipherId, root: Node, path: seq<string>, now: nat)
    requires Inv(s) && KeptCommit(s, ANY, c, root)
    ensures ReadFrom(s, who, c, path, now) ==
            if !Hidden(path) && MayRead(s, who, c, path, now) then BytesIn(root, path) else None
  {
    NodeAtIs(root, path);
    var commit := CommitIn(c).value;
    CommitOpensIff(s, who, c, commit, now);
    KeptIsStored(s.objects, s.closes, ANY, commit.tree, root);
    ReadFromIs(s, who, c, commit, path, now);
    ReadsIff(s, who, commit.tree, root, path, now);
  }

  // ---- what stands at a path ----------------------------------------------------------------

  /** The labels of the folders on the way to a path. */
  ghost predicate HoldsWay(s: State, who: string, c: CipherId, path: seq<string>, now: nat)
    decreases |path|
  {
    path != [] ==>
      && HoldsOf(s, who, c.envelope, Shape, now)
      && Child(c, path[0]).Some?
      && HoldsWay(s, who, Child(c, path[0]).value, path[1..], now)
  }

  lemma WalkOne(s: State, who: string, c: CipherId, dir: Node, path: seq<string>, now: nat)
    requires Inv(s) && dir.Dir? && KeptAs(s.objects, s.closes, ANY, c, dir) && path != []
    ensures Child(c, path[0]).Some? <==> KidAt(dir.kids, path[0]).Some?
    ensures Child(c, path[0]).Some? ==>
            KeptAs(s.objects, s.closes, ANY, Child(c, path[0]).value, KidAt(dir.kids, path[0]).value)
    ensures WalkTrees(s, who, c.envelope, path, now) ==
            if !HoldsOf(s, who, c.envelope, Shape, now) then Err(SealedToYou)
            else if Child(c, path[0]).None? then Err(NoSuchEntry)
            else WalkTrees(s, who, Child(c, path[0]).value.envelope, path[1..], now)
  {
    ChildIsKept(s.objects, s.closes, ANY, c, dir, path[0]);
    if Child(c, path[0]).Some? {
      KeptIsStored(s.objects, s.closes, ANY, Child(c, path[0]).value, KidAt(dir.kids, path[0]).value);
    }
    ListingOpens(s, who, c, now);
  }

  lemma ListingOpens(s: State, who: string, c: CipherId, now: nat)
    requires Inv(s) && StoredAs(s.objects, s.closes, c, TreeKind, TreeText(Tree(EntriesAt(c))))
    ensures OpenTree(s, who, c.envelope, now) ==
            if HoldsOf(s, who, c.envelope, Shape, now) then Some(Tree(EntriesAt(c))) else None
  {
    OpensIff(s, who, c, TreeKind, TreeText(Tree(EntriesAt(c))), Shape, now);
  }

  /** The walk ends at what is kept there, if the labels on the way are held. */
  ghost predicate WalkFinds(s: State, who: string, c: CipherId, node: Option<Node>, path: seq<string>, now: nat) {
    var walked := WalkTrees(s, who, c.envelope, path, now);
    if node.Some? && HoldsWay(s, who, c, path, now) then
      walked.Ok? && KeptAs(s.objects, s.closes, ANY, CipherId(walked.value), node.value)
    else walked == Err(SealedToYou) || walked == Err(NoSuchEntry)
  }

  lemma WalkNoFile(s: State, who: string, c: CipherId, text: Text, path: seq<string>, now: nat)
    requires Inv(s) && StoredAs(s.objects, s.closes, c, Blob, text) && path != []
    ensures WalkTrees(s, who, c.envelope, path, now) == Err(SealedToYou)
  {
    OpensIff(s, who, c, Blob, text, Shape, now);
  }

  lemma WalkOnFinds(s: State, who: string, c: CipherId, dir: Node, path: seq<string>, now: nat)
    requires dir.Dir? && path != [] && (Child(c, path[0]).Some? <==> KidAt(dir.kids, path[0]).Some?)
    requires WalkTrees(s, who, c.envelope, path, now) ==
             if !HoldsOf(s, who, c.envelope, Shape, now) then Err(SealedToYou)
             else if Child(c, path[0]).None? then Err(NoSuchEntry)
             else WalkTrees(s, who, Child(c, path[0]).value.envelope, path[1..], now)
    requires Child(c, path[0]).Some? && HoldsOf(s, who, c.envelope, Shape, now) ==>
             var below := NodeAt(KidAt(dir.kids, path[0]).value, path[1..]);
             WalkFinds(s, who, Child(c, path[0]).value, below, path[1..], now)
    ensures WalkFinds(s, who, c, NodeAt(dir, path), path, now)
  {
  }

  /** Walking down a kept tree finds what was kept there, file or folder, exactly for
      who holds the labels on the way. */
  lemma {:induction false} WalksIff(s: State, who: string, c: CipherId, node: Node, path: seq<string>, now: nat)
    requires Inv(s) && KeptAs(s.objects, s.closes, ANY, c, node)
    ensures WalkFinds(s, who, c, NodeAt(node, path), path, now)
    decreases |path|
  {
    if path != [] {
      if node.File? {
        WalkNoFile(s, who, c, node.text, path, now);
      } else {
        WalkOne(s, who, c, node, path, now);
        if Child(c, path[0]).Some? && HoldsOf(s, who, c.envelope, Shape, now) {
          WalksIff(s, who, Child(c, path[0]).value, KidAt(node.kids, path[0]).value, path[1..], now);
        }
        WalkOnFinds(s, who, c, node, path, now);
      }
    }
  }

  /** Looking up a path of the last keeping: what the working tree had there, if it
      is not hidden, exactly for who holds content of the commit and the labels on
      the way. */
  lemma ResolvesIff(s: State, who: string, root: Node, path: seq<string>, now: nat)
    requires Inv(s) && Main in s.refs && KeptCommit(s, ANY, s.refs[Main], root)
    ensures var found, c := ResolvePath(s, who, path, now), s.refs[Main];
            if && !Hidden(path) && NodeIn(root, path).Some?
               && HoldsOf(s, who, c.envelope, Content, now) && HoldsWay(s, who, CommitIn(c).value.tree, path, now)
            then found.Ok? && KeptAs(s.objects, s.closes, ANY, CipherId(found.value), NodeIn(root, path).value)
            else found == Err(SealedToYou) || found == Err(NoSuchEntry)
  {
    var c := s.refs[Main];
    CommitOpensIff(s, who, c, CommitIn(c).value, now);
    KeptIsStored(s.objects, s.closes, ANY, CommitIn(c).value.tree, root);
    NodeAtIs(root, path);
    WalksIff(s, who, CommitIn(c).value.tree, root, path, now);
  }

  lemma KeptCommitLater(s: State, s': State, also: Condition, c: CipherId, root: Node)
    requires KeptCommit(s, also, c, root) && Later(s, s')
    ensures KeptCommit(s', ANY, c, root)
  {
    StoredLater(s.objects, s.closes, s'.objects, s'.closes, c, CommitKind, CommitText(CommitIn(c).value));
    KeptLater(s.objects, s.closes, also, s'.objects, s'.closes, ANY, CommitIn(c).value.tree, root);
  }

  // ---- a successful keeping keeps -------------------------------------------------------------

  lemma SealCommitStores(s: State, objects: Objects, root: TreeEntry, message: string, now: nat)
    requires Inv(s) && Addressed(objects)
    ensures var k := SealCommit(s, objects, root, message, now);
            && Stores(objects, k.objects)
            && (k.outcome.Ok? ==>
                var c := k.outcome.value;
                && CommitIn(c) == Some(Commit(root.cipher, root.plain, HeadOf(s), s.me, message, now))
                && StoredAs(k.objects, s.closes, c, CommitKind, CommitText(CommitIn(c).value))
                && c.envelope.close == s.commons && Sealable(s, now)(c))
  {
    var r := s.closes[s.commons];
    var commit := Commit(root.cipher, root.plain, HeadOf(s), s.me, message, now);
    var card := ShapeCard("commit", "commons/commit", SizeClass(|message|), "");
    KeyLookupIsExact(s, s.me, s.commons, Content, r.epoch, now);
    SealWithTrueKey(r, r.epoch, CommitKind, card, CommitText(commit));
    var k := SealCommit(s, objects, root, message, now);
    if k.outcome.Ok? {
      assert SealedUnder(k.outcome.value.envelope, r, card, CommitText(commit));
    }
  }

  lemma KeepObjectsKeep(s: State, root: Node, message: string, now: nat)
    requires Inv(s) && root.Dir? && Distinct(root)
    ensures var k := KeepObjects(s, root, message, now);
            && Stores(s.objects, k.objects)
            && (k.outcome.Ok? ==>
                && KeptCommit(s.(objects := k.objects), Sealable(s, now), k.outcome.value, root)
                && CommitIn(k.outcome.value).value.parents == HeadOf(s))
  {
    var snap := SnapNode(s, s.objects, root, [], now);
    SnapNodeKeeps(s, s.objects, root, [], now);
    if snap.outcome.Ok? {
      SealCommitStores(s, snap.objects, snap.outcome.value, message, now);
      var k := KeepObjects(s, root, message, now);
      KeptLater(snap.objects, s.closes, Sealable(s, now), k.objects, s.closes, Sealable(s, now),
                snap.outcome.value.cipher, root);
    }
  }

  /** A keeping changes nothing but the store and the main ref; when it
      succeeds, the commit and its whole tree are kept, its parent is the
      previous keeping, and the keeper holds content of everything sealed. */
  lemma KeepKeeps(s: State, root: Node, message: string, now: nat)
    requires Inv(s) && root.Dir? && Distinct(root)
    ensures var k := Keep(s, root, message, now);
            && Inv(k.state) && Later(s, k.state)
            && k.state == s.(objects := k.state.objects, refs := k.state.refs)
            && (k.outcome.Err? ==> k.state.refs == s.refs)
            && (k.outcome.Ok? ==>
                && k.state.refs == s.refs[Main := k.outcome.value]
                && CommitIn(k.outcome.value).Some?
                && CommitIn(k.outcome.value).value.parents == HeadOf(s)
                && KeptCommit(k.state, Sealable(s, now), k.outcome.value, root))
  {
    KeepObjectsKeep(s, root, message, now);
    StoreGrowthKeeps(s, Keep(s, root, message, now).state);
  }

  // ---- the keeper reads back everything at once -------------------------------------------------

  lemma {:induction false} KeeperHoldsAlong(
    s: State, s': State, c: CipherId, node: Node, path: seq<string>, now: nat)
    requires KeptAs(s'.objects, s'.closes, Sealable(s, now), c, node)
    requires s' == s.(objects := s'.objects, refs := s'.refs)
    requires NodeAt(node, path).Some?
    ensures HoldsAlong(s', s.me, c, path, now)
    decreases |path|
  {
    assert Sealable(s, now)(c);
    ContentGivesShape(s', s.me, c.envelope, now);
    if path != [] {
      ChildIsKept(s'.objects, s'.closes, Sealable(s, now), c, node, path[0]);
      KeeperHoldsAlong(s, s', Child(c, path[0]).value, KidAt(node.kids, path[0]).value, path[1..], now);
    }
  }

  lemma ContentGivesShape(s: State, who: string, o: SealedObject, now: nat)
    requires HoldsOf(s, who, o, Content, now)
    ensures HoldsOf(s, who, o, Shape, now)
  {
    var r := s.closes[o.close];
    var g :| g in GrantsOf(s, who) && Gives(g, r, Content, o.epoch, now);
    assert Gives(g, r, Shape, o.epoch, now);
  }

  /** Right after a successful keeping the keeper reads back all that the working
      tree has and is not hidden, whatever closes it lies in. */
  lemma KeeperReadsBack(s: State, root: Node, message: string, now: nat, path: seq<string>)
    requires Inv(s) && root.Dir? && Distinct(root) && Keep(s, root, message, now).outcome.Ok?
    ensures var k := Keep(s, root, message, now);
            ReadFrom(k.state, s.me, k.outcome.value, path, now) == if Hidden(path) then None else BytesIn(root, path)
  {
    var k := Keep(s, root, message, now);
    var c := k.outcome.value;
    KeepKeeps(s, root, message, now);
    KeptCommitLater(k.state, k.state, Sealable(s, now), c, root);
    CommitReadsIff(k.state, s.me, c, root, path, now);
    NodeAtIs(root, path);
    if NodeAt(root, path).Some? {
      KeeperHoldsAlong(s, k.state, CommitIn(c).value.tree, root, path, now);
      assert Sealable(s, now)(c);
    }
  }
}
