/** The state of a commons and what each operation does to it, as functions
    (crates/close/src/repo.rs, and `share` and `rotate` of crates/close/src/main.rs). */
module Commons {
  import opened Terms
  import opened Closes
  import opened Grants
  import opened Seals
  import opened Paths
  import opened Cells
  import opened Ancestry

  datatype RefName = Main | CellRef(id: CellId)

  datatype Mapping = Mapping(prefix: string, close: CloseId)

  type Objects = map<CipherId, SealedObject>

  datatype State = State(
    objects: Objects,
    refs: map<RefName, CipherId>,
    closes: Records,
    people: map<string, Identity>,
    grants: Shelves,
    closemap: seq<Mapping>,
    cells: seq<CellDecl>,
    me: string,
    commons: CloseId)

  /** Why an operation refuses. */
  datatype Refusal =
    | NoSuchPerson
    | AlreadyHere
    | NoName
    | NotGoverned
    | NoSuchClose
    | NotSteward
    | NoCurrentKey
    | NothingWideEnough
    | CannotWrite
    | MissingObject
    | SealedToYou
    | NoSuchEntry
    | NothingKept
    | NoSuchCell
    | CellStands
    | MayNotMove
    | CoreRefused(error: Error)
    | CellRefused(cellError: CellError)

  function Lift<T>(r: Result<T, Error>): Result<T, Refusal> {
    if r.Ok? then Ok(r.value) else Err(CoreRefused(r.error))
  }

  function LiftCell<T>(r: Result<T, CellError>): Result<T, Refusal> {
    if r.Ok? then Ok(r.value) else Err(CellRefused(r.error))
  }

  function OrElse<T>(o: Option<T>, refusal: Refusal): Result<T, Refusal> {
    if o.Some? then Ok(o.value) else Err(refusal)
  }

  function Get<K, V>(m: map<K, V>, k: K): Option<V> {
    if k in m then Some(m[k]) else None
  }

  // ---- people and closes -------------------------------------------------------------

  function IdentityOf(s: State, who: string): Result<Identity, Refusal> {
    OrElse(Get(s.people, who), NoSuchPerson)
  }

  function LoadClose(s: State, id: CloseId): Result<CloseRecord, Refusal> {
    OrElse(Get(s.closes, id), NoSuchClose)
  }

  function NewIdentity(s: State, name: string, sign: nat, dh: nat): Result<State, Refusal> {
    if name in s.people then Err(AlreadyHere)
    else Ok(s.(people := s.people[name := Identity(name, sign, dh)]))
  }

  /** Everyone's grants, in stored order. */
  type Shelves = map<string, seq<Grant>>

  function Held(grants: Shelves, who: string): seq<Grant> {
    if who in grants then grants[who] else []
  }

  function GrantsOf(s: State, who: string): seq<Grant> {
    Held(s.grants, who)
  }

  function AddGrant(s: State, who: string, g: Grant): State {
    s.(grants := s.grants[who := GrantsOf(s, who) + [g]])
  }

  function FoundingGrant(r: CloseRecord, steward: Identity, key0: Key, eph: nat): Grant {
    IssueRoot(r, steward.sign, key0, 0, steward.Public(), Content, SET | INVOKE, [], None, [], eph)
  }

  function FoundClose(s: State, steward: string, name: string, silhouette: Silhouette, seed: Key, eph: nat)
    : Result<(State, CloseId), Refusal>
  {
    var id :- IdentityOf(s, steward);
    var (r, key0) := Found(name, silhouette, id.VerifyingKey(), seed);
    Ok((AddGrant(s.(closes := s.closes[r.id := r]), steward, FoundingGrant(r, id, key0, eph)), r.id))
  }

  function Init(me: string, sign: nat, dh: nat, seed: Key, eph: nat): State {
    var id := Identity(me, sign, dh);
    var (r, key0) := Found("commons", OpenOutline, id.VerifyingKey(), seed);
    State(map[], map[], map[r.id := r], map[me := id], map[me := [FoundingGrant(r, id, key0, eph)]],
          [Mapping("", r.id)], [], me, r.id)
  }

  // ---- the close map -------------------------------------------------------------------

  predicate Matches(prefix: string, rel: string) {
    prefix == "" || rel == prefix || prefix + "/" <= rel
  }

  /** The index of the last longest matching prefix among the first `n` mappings. */
  function BestMapping(closemap: seq<Mapping>, rel: string, n: nat): (best: Option<nat>)
    requires n <= |closemap|
    ensures best.Some? ==> best.value < n
  {
    if n == 0 then None
    else
      var best := BestMapping(closemap, rel, n - 1);
      var prefix := closemap[n - 1].prefix;
      if Matches(prefix, rel) && (best.None? || |prefix| >= |closemap[best.value].prefix|) then Some(n - 1) else best
  }

  function Governing(closemap: seq<Mapping>, rel: string): Option<CloseId> {
    match BestMapping(closemap, rel, |closemap|)
    case None => None
    case Some(i) => Some(closemap[i].close)
  }

  /** Of the mappings above a path the one with the longest prefix governs it, the
      latest among equals; nothing does exactly if no mapping is above it. */
  lemma {:induction false} BestMappingIsLongest(closemap: seq<Mapping>, rel: string, n: nat)
    requires n <= |closemap|
    ensures match BestMapping(closemap, rel, n)
            case None => forall j :: 0 <= j < n ==> !Matches(closemap[j].prefix, rel)
            case Some(i) =>
              && Matches(closemap[i].prefix, rel)
              && forall j :: 0 <= j < n && Matches(closemap[j].prefix, rel) ==>
                   || |closemap[j].prefix| < |closemap[i].prefix|
                   || (|closemap[j].prefix| == |closemap[i].prefix| && j <= i)
  {
    if n > 0 {
      BestMappingIsLongest(closemap, rel, n - 1);
    }
  }

  function Protect(s: State, path: string, name: Option<string>, seed: Key, eph: nat): Result<State, Refusal> {
    var rel := Join(Segments(path));
    if rel == "" then Err(NoName)
    else
      var (s', id) :- FoundClose(s, s.me, if name.Some? then name.value else rel, OpenOutline, seed, eph);
      Ok(s'.(closemap := s'.closemap + [Mapping(rel, id)]))
  }

  // ---- key lookup -----------------------------------------------------------------------

  predicate LiveOn(g: Grant, r: CloseRecord, now: nat) {
    g.body.close == r.id && Verify(g, r, now).Ok?
  }

  /** What one grant yields. */
  function KeyFrom(g: Grant, reader: Identity, r: CloseRecord, facet: Facet, epoch: nat, now: nat): Option<Key> {
    if !LiveOn(g, r, now) || !facet.AtMost(g.body.facet) then None
    else
      match UnwrapKey(g, reader)
      case Err(_) => None
      case Ok(key) =>
        match g.body.facet
        case Content =>
          (match Walk(r, key, g.body.epoch, epoch, Content)
           case Err(_) => None
           case Ok(at) => LowerFacetKey(at, Content, facet, r.id))
        case Shape =>
          (match Walk(r, key, g.body.epoch, epoch, Shape)
           case Err(_) => None
           case Ok(at) => if facet == Shape then Some(at) else None)
        case Presence => None
  }

  function KeyAmong(gs: seq<Grant>, reader: Identity, r: CloseRecord, facet: Facet, epoch: nat, now: nat): Option<Key> {
    if gs == [] then None
    else
      var k := KeyFrom(gs[0], reader, r, facet, epoch, now);
      if k.Some? then k else KeyAmong(gs[1..], reader, r, facet, epoch, now)
  }

  function FacetKeyFor(s: State, who: string, r: CloseRecord, facet: Facet, epoch: nat, now: nat): Option<Key> {
    if facet == Presence || who !in s.people then None
    else KeyAmong(GrantsOf(s, who), s.people[who], r, facet, epoch, now)
  }

  function CurrentContentKey(s: State, who: string, r: CloseRecord, now: nat): Option<Key> {
    FacetKeyFor(s, who, r, Content, r.epoch, now)
  }

  /** The grants of a close that verify now, in stored order. */
  function Live(gs: seq<Grant>, r: CloseRecord, now: nat): seq<Grant> {
    if gs == [] then []
    else (if LiveOn(gs[0], r, now) then [gs[0]] else []) + Live(gs[1..], r, now)
  }

  /** The last grant of the highest facet. */
  function Widest(held: seq<Grant>): Option<Grant> {
    if held == [] then None
    else
      var rest := Widest(held[1..]);
      if rest.Some? && held[0].body.facet.AtMost(rest.value.body.facet) then rest else Some(held[0])
  }

  function BestFacet(s: State, who: string, r: CloseRecord, now: nat): Option<Facet> {
    match Widest(Live(GrantsOf(s, who), r, now))
    case None => None
    case Some(g) => Some(g.body.facet)
  }

  function UnionPowers(held: seq<Grant>): Powers {
    if held == [] then 0 else held[0].body.powers | UnionPowers(held[1..])
  }

  function LivePowers(s: State, who: string, r: CloseRecord, now: nat): Powers {
    UnionPowers(Live(GrantsOf(s, who), r, now))
  }

  // ---- sharing ----------------------------------------------------------------------------

  function FirstWide(gs: seq<Grant>, r: CloseRecord, facet: Facet, powers: Powers, now: nat): Option<Grant> {
    if gs == [] then None
    else if LiveOn(gs[0], r, now) && facet.AtMost(gs[0].body.facet) && HasPowers(gs[0].body.powers, powers)
    then Some(gs[0])
    else FirstWide(gs[1..], r, facet, powers, now)
  }

  function Tightened(expires: Option<nat>, mine: Option<nat>): Option<nat> {
    match (expires, mine)
    case (Some(e), Some(p)) => Some(if e <= p then e else p)
    case (None, p) => p
    case (e, None) => e
  }

  function ShareGrant(
    s: State, r: CloseRecord, giver: Identity, holder: PublicIdentity, facet: Facet, powers: Powers,
    expires: Option<nat>, now: nat, eph: nat): Result<Grant, Refusal>
  {
    if r.steward == giver.VerifyingKey() then
      var key :- OrElse(CurrentContentKey(s, s.me, r, now), NoCurrentKey);
      Ok(IssueRoot(r, giver.sign, key, r.epoch, holder, facet, powers, [], expires, [], eph))
    else
      var mine :- OrElse(FirstWide(GrantsOf(s, s.me), r, facet, powers, now), NothingWideEnough);
      Lift(Attenuate(mine, giver, r, holder, facet, powers, mine.body.prefix,
                     Tightened(expires, mine.body.expiresAt), [], eph))
  }

  function Share(
    s: State, path: string, with: string, facet: Facet, powers: Powers, days: Option<nat>, now: nat, eph: nat)
    : Result<State, Refusal>
  {
    var close :- OrElse(Governing(s.closemap, Join(Segments(path))), NotGoverned);
    var r :- LoadClose(s, close);
    var giver :- IdentityOf(s, s.me);
    var holder :- IdentityOf(s, with);
    var expires := if days.Some? then Some(now + days.value * 86_400) else None;
    var g :- ShareGrant(s, r, giver, holder.Public(), facet, powers, expires, now, eph);
    Ok(AddGrant(s, with, g))
  }

  // ---- changing the lock --------------------------------------------------------------------

  datatype Keeper = Keeper(facet: Facet, powers: Powers, expiresAt: Option<nat>)

  /** What someone takes across a lock change. */
  function KeeperOf(s: State, who: string, r: CloseRecord, now: nat): Option<Keeper> {
    var held := Live(GrantsOf(s, who), r, now);
    match Widest(held)
    case None => None
    case Some(best) => Some(Keeper(best.body.facet, UnionPowers(held), best.body.expiresAt))
  }

  predicate KeepsUp(s: State, who: string, except: set<string>, r: CloseRecord, now: nat) {
    who in s.people && who !in except && KeeperOf(s, who, r, now).Some?
  }

  function ReissuedGrant(
    r: CloseRecord, steward: Identity, newKey: Key, holder: Identity, k: Keeper, eph: nat): Grant
  {
    IssueRoot(r, steward.sign, newKey, r.epoch, holder.Public(), k.facet, k.powers, [], k.expiresAt, [], eph)
  }

  /** Those of `names` who hold some live grant and are not shut out, with what
      each takes across the lock change. */
  function KeepersOf(s: State, names: set<string>, except: set<string>, r: CloseRecord, now: nat): map<string, Keeper> {
    map who | who in names && KeepsUp(s, who, except, r, now) :: KeeperOf(s, who, r, now).value
  }

  /** What each keeper is issued. */
  function Reissued(
    people: map<string, Identity>, r: CloseRecord, steward: Identity, newKey: Key, keepers: map<string, Keeper>,
    ephs: string -> nat): map<string, Grant>
    requires keepers.Keys <= people.Keys
  {
    map who | who in keepers :: ReissuedGrant(r, steward, newKey, people[who], keepers[who], ephs(who))
  }

  /** All grants, with one more for each of `names`. */
  function Handed(grants: Shelves, issued: map<string, Grant>, names: set<string>): Shelves
    requires names <= issued.Keys
  {
    grants + map who | who in names :: Held(grants, who) + [issued[who]]
  }

  function Rotate(
    s: State, path: string, except: set<string>, now: nat, minted: Key, ephs: string -> nat): Result<State, Refusal>
  {
    var close :- OrElse(Governing(s.closemap, Join(Segments(path))), NotGoverned);
    var r :- LoadClose(s, close);
    var steward :- IdentityOf(s, s.me);
    if r.steward != steward.VerifyingKey() then Err(NotSteward)
    else
      var key :- OrElse(CurrentContentKey(s, s.me, r, now), NoCurrentKey);
      var keepers := KeepersOf(s, s.people.Keys, except, r, now);
      var r' := Rotated(r, key, minted);
      var issued := Reissued(s.people, r', steward, NextKey(r.id, minted), keepers, ephs);
      Ok(s.(closes := s.closes[close := r'], grants := Handed(s.grants, issued, keepers.Keys)))
  }

  // ---- objects -----------------------------------------------------------------------------

  function LoadSealed(s: State, id: CipherId): Result<SealedObject, Refusal> {
    OrElse(Get(s.objects, id), MissingObject)
  }

  function PutSealed(objects: Objects, o: SealedObject): Objects {
    if CipherId(o) in objects then objects else objects[CipherId(o) := o]
  }

  function OpenAs(s: State, who: string, o: SealedObject, facet: Facet, now: nat): Option<Text> {
    if o.close !in s.closes then None
    else
      match FacetKeyFor(s, who, s.closes[o.close], facet, o.epoch, now)
      case None => None
      case Some(key) => match OpenPayload(o, key) case Ok(text) => Some(text) case Err(_) => None
  }

  function OpenTree(s: State, who: string, o: SealedObject, now: nat): Option<Tree> {
    match OpenAs(s, who, o, Shape, now)
    case Some(TreeText(tree)) => Some(tree)
    case _ => None
  }

  function OpenBlob(s: State, who: string, o: SealedObject, now: nat): Option<Text> {
    OpenAs(s, who, o, Content, now)
  }

  // ---- keeping ------------------------------------------------------------------------------

  /** The working tree: a file with what its label will say, or a folder. */
  datatype Node =
    | File(text: Text, contentType: string, sizeClass: string)
    | Dir(kids: seq<Kid>)

  datatype Kid = Kid(name: string, node: Node)

  predicate Skipped(name: string) { name == ".cc" || name == ".git" }

  function CardFor(r: CloseRecord, contentType: string, size: string): EntryCard {
    match r.silhouette
    case OpenOutline => Outline(contentType, size)
    case CountedOutline => Counted
    case DarkOutline => Dark
  }

  /** The store as it is afterwards, also when the operation refuses midway. */
  datatype Kept<T> = Kept(objects: Objects, outcome: Result<T, Refusal>)

  function SealEntry(
    s: State, objects: Objects, r: CloseRecord, kind: ObjectKind, card: ShapeCard, text: Text, entryCard: EntryCard,
    now: nat): Kept<TreeEntry>
  {
    match CurrentContentKey(s, s.me, r, now)
    case None => Kept(objects, Err(CannotWrite))
    case Some(key) =>
      match Seal(r, key, r.epoch, kind, card, text)
      case Err(e) => Kept(objects, Err(CoreRefused(e)))
      case Ok(o) => Kept(PutSealed(objects, o), Ok(TreeEntry(kind, r.id, o.plain, CipherId(o), entryCard)))
  }

  function GoverningRecord(s: State, rel: seq<string>): Result<CloseRecord, Refusal> {
    var close :- OrElse(Governing(s.closemap, Join(rel)), NotGoverned);
    LoadClose(s, close)
  }

  function LastOr(rel: seq<string>): string {
    if rel == [] then "" else rel[|rel| - 1]
  }

  function SnapFile(s: State, objects: Objects, file: Node, rel: seq<string>, now: nat): Kept<TreeEntry>
    requires file.File?
  {
    match GoverningRecord(s, rel)
    case Err(e) => Kept(objects, Err(e))
    case Ok(r) =>
      SealEntry(s, objects, r, Blob, ShapeCard(LastOr(rel), file.contentType, file.sizeClass, ""), file.text,
                CardFor(r, file.contentType, file.sizeClass), now)
  }

  function FolderSize(entries: map<string, TreeEntry>): string {
    Decimal(|entries|) + " entries"
  }

  function SealFolder(
    s: State, objects: Objects, close: CloseId, rel: seq<string>, entries: map<string, TreeEntry>, now: nat)
    : Kept<TreeEntry>
  {
    match LoadClose(s, close)
    case Err(e) => Kept(objects, Err(e))
    case Ok(r) =>
      SealEntry(s, objects, r, TreeKind,
                ShapeCard(if rel == [] then "/" else Join(rel), "commons/folder", FolderSize(entries), ""),
                TreeText(Tree(entries)), CardFor(r, "commons/folder", FolderSize(entries)), now)
  }

  function SnapNode(s: State, objects: Objects, node: Node, rel: seq<string>, now: nat): Kept<TreeEntry>
    decreases node, if node.Dir? then |node.kids| + 1 else 0
  {
    if node.File? then SnapFile(s, objects, node, rel, now)
    else
      match OrElse(Governing(s.closemap, Join(rel)), NotGoverned)
      case Err(e) => Kept(objects, Err(e))
      case Ok(close) =>
        var kids := SnapKids(s, objects, node, 0, map[], rel, now);
        match kids.outcome
        case Err(e) => Kept(kids.objects, Err(e))
        case Ok(entries) => SealFolder(s, kids.objects, close, rel, entries, now)
  }

  /** Seals one child, adding its entry; some names are never kept. */
  function SnapKid(
    s: State, objects: Objects, kid: Kid, entries: map<string, TreeEntry>, rel: seq<string>, now: nat)
    : Kept<map<string, TreeEntry>>
    decreases kid, 0
  {
    if Skipped(kid.name) then Kept(objects, Ok(entries))
    else
      var snap := SnapNode(s, objects, kid.node, rel + [kid.name], now);
      match snap.outcome
      case Err(e) => Kept(snap.objects, Err(e))
      case Ok(entry) => Kept(snap.objects, Ok(entries[kid.name := entry]))
  }

  /** Seals the children from the `i`th on, adding their entries. */
  function SnapKids(
    s: State, objects: Objects, dir: Node, i: nat, entries: map<string, TreeEntry>, rel: seq<string>, now: nat)
    : Kept<map<string, TreeEntry>>
    requires dir.Dir? && i <= |dir.kids|
    decreases dir, |dir.kids| - i
  {
    if i == |dir.kids| then Kept(objects, Ok(entries))
    else
      var snap := SnapKid(s, objects, dir.kids[i], entries, rel, now);
      match snap.outcome
      case Err(e) => snap
      case Ok(entries') => SnapKids(s, snap.objects, dir, i + 1, entries', rel, now)
  }

  function SizeClass(len: nat): string {
    if len < 1024 then "under 1 KB"
    else if len < 16_384 then "1\U{2013}16 KB"
    else if len < 262_144 then "16\U{2013}256 KB"
    else if len < 4_194_304 then "256 KB \U{2013} 4 MB"
    else "over 4 MB"
  }

  function HeadOf(s: State): seq<CipherId> {
    if Main in s.refs then [s.refs[Main]] else []
  }

  function SealCommit(s: State, objects: Objects, root: TreeEntry, message: string, now: nat): Kept<CipherId> {
    match LoadClose(s, s.commons)
    case Err(e) => Kept(objects, Err(e))
    case Ok(r) =>
      match CurrentContentKey(s, s.me, r, now)
      case None => Kept(objects, Err(CannotWrite))
      case Some(key) =>
        var commit := Commit(root.cipher, root.plain, HeadOf(s), s.me, message, now);
        var card := ShapeCard("commit", "commons/commit", SizeClass(|message|), "");
        match Seal(r, key, r.epoch, CommitKind, card, CommitText(commit))
        case Err(e) => Kept(objects, Err(CoreRefused(e)))
        case Ok(o) => Kept(PutSealed(objects, o), Ok(CipherId(o)))
  }

  function KeepObjects(s: State, root: Node, message: string, now: nat): Kept<CipherId>
    requires root.Dir?
  {
    var snap := SnapNode(s, s.objects, root, [], now);
    match snap.outcome
    case Err(e) => Kept(snap.objects, Err(e))
    case Ok(entry) => SealCommit(s, snap.objects, entry, message, now)
  }

  datatype Keeping = Keeping(state: State, outcome: Result<CipherId, Refusal>)

  /** A keeping moves the main ref only if it succeeds; what a refused one
      sealed before refusing stays in the store. */
  function Keep(s: State, root: Node, message: string, now: nat): Keeping
    requires root.Dir?
  {
    var k := KeepObjects(s, root, message, now);
    Keeping(s.(objects := k.objects, refs := if k.outcome.Ok? then s.refs[Main := k.outcome.value] else s.refs),
            k.outcome)
  }

  // ---- reading back -----------------------------------------------------------------------------

  function CommitAt(s: State, who: string, id: CipherId, now: nat): Result<Commit, Refusal> {
    var o :- LoadSealed(s, id);
    match OpenBlob(s, who, o, now)
    case Some(CommitText(commit)) => Ok(commit)
    case _ => Err(SealedToYou)
  }

  function WalkTrees(s: State, who: string, o: SealedObject, path: seq<string>, now: nat): Result<SealedObject, Refusal>
    decreases |path|
  {
    if path == [] then Ok(o)
    else
      var tree :- OrElse(OpenTree(s, who, o, now), SealedToYou);
      var entry :- OrElse(Get(tree.entries, path[0]), NoSuchEntry);
      var child :- LoadSealed(s, entry.cipher);
      WalkTrees(s, who, child, path[1..], now)
  }

  /** Walks from a commit's tree down a path. */
  function ResolveFrom(s: State, who: string, commit: CipherId, path: seq<string>, now: nat)
    : Result<SealedObject, Refusal>
  {
    var c :- CommitAt(s, who, commit, now);
    var root :- LoadSealed(s, c.tree);
    WalkTrees(s, who, root, path, now)
  }

  function ResolvePath(s: State, who: string, path: seq<string>, now: nat): Result<SealedObject, Refusal> {
    if Main !in s.refs then Err(NothingKept) else ResolveFrom(s, who, s.refs[Main], path, now)
  }

  /** What someone reads at a path of a commit, if anything. */
  function ReadFrom(s: State, who: string, commit: CipherId, path: seq<string>, now: nat): Option<Text> {
    match ResolveFrom(s, who, commit, path, now)
    case Err(_) => None
    case Ok(o) => OpenBlob(s, who, o, now)
  }

  // ---- signposts ---------------------------------------------------------------------------------

  function FindCell(cells: seq<CellDecl>, path: seq<string>): Option<CellDecl> {
    if cells == [] then None
    else if cells[0].path == path then Some(cells[0])
    else FindCell(cells[1..], path)
  }

  function CellNew(s: State, path: string, kind: string, forwardOnly: seq<string>): Result<State, Refusal> {
    var segs := Segments(path);
    if Join(segs) == "" then Err(NoName)
    else if FindCell(s.cells, segs).Some? then Err(CellStands)
    else
      var close :- OrElse(Governing(s.closemap, Join(segs)), NotGoverned);
      Ok(s.(cells := s.cells + [CellDecl(segs, close, kind, forwardOnly)]))
  }

  function CellHead(s: State, who: string, decl: CellDecl, now: nat): Result<Option<Entry>, Refusal> {
    if CellRef(decl.Id()) !in s.refs then Ok(None)
    else
      var cipher := s.refs[CellRef(decl.Id())];
      var o :- LoadSealed(s, cipher);
      var r :- LoadClose(s, decl.close);
      var key :- OrElse(FacetKeyFor(s, who, r, Content, o.epoch, now), SealedToYou);
      var t :- Lift(OpenTransition(o, key));
      Ok(Some((cipher, t)))
  }

  predicate MayMove(g: Grant, r: CloseRecord, decl: CellDecl, now: nat) {
    g.body.close == decl.close && HasPowers(g.body.powers, SET) && Covers(g, decl.path) && Verify(g, r, now).Ok?
  }

  function FirstMover(gs: seq<Grant>, r: CloseRecord, decl: CellDecl, now: nat): Option<Grant> {
    if gs == [] then None
    else if MayMove(gs[0], r, decl, now) then Some(gs[0])
    else FirstMover(gs[1..], r, decl, now)
  }

  datatype Slot = Slot(name: string, commit: CipherId, note: string)

  /** The value after pinning each slot in turn. */
  function Pinned(value: Value, slots: seq<Slot>): Value
    decreases |slots|
  {
    if slots == [] then value
    else Pinned(value[slots[0].name := Pin(slots[0].commit, slots[0].note)], slots[1..])
  }

  /** Which commits' parents someone can read. */
  function ReaderOf(s: State, who: string, now: nat): Reader {
    (id: CipherId) => match CommitAt(s, who, id, now) case Ok(c) => Some(c.parents) case Err(_) => None
  }

  function OracleOf(s: State, who: string, now: nat): Oracle {
    (ancestor: CipherId, newer: CipherId) => IsDescendantOf(ReaderOf(s, who, now), ancestor, newer)
  }

  function HeadValue(head: Option<Entry>): Option<Value> {
    if head.Some? then Some(head.value.1.body.value) else None
  }

  function ValueOr(head: Option<Entry>): Value {
    if head.Some? then head.value.1.body.value else map[]
  }

  datatype Moved = Moved(state: State, cipher: CipherId, move: Transition)

  /** The state with a move sealed and put at the end of its cell's journal. */
  function Append(s: State, r: CloseRecord, key: Key, decl: CellDecl, t: Transition): Result<Moved, Refusal> {
    var o :- Lift(SealTransition(r, key, r.epoch, t));
    Ok(Moved(s.(objects := PutSealed(s.objects, o), refs := s.refs[CellRef(decl.Id()) := CipherId(o)]), CipherId(o), t))
  }

  function Point(s: State, who: string, path: string, slots: seq<Slot>, reason: string, now: nat)
    : Result<Moved, Refusal>
  {
    var decl :- OrElse(FindCell(s.cells, Segments(path)), NoSuchCell);
    var r :- LoadClose(s, decl.close);
    var mover :- IdentityOf(s, who);
    var grant :- OrElse(FirstMover(GrantsOf(s, who), r, decl, now), MayNotMove);
    var key :- OrElse(CurrentContentKey(s, who, r, now), NoCurrentKey);
    var head :- CellHead(s, who, decl, now);
    var value := Pinned(ValueOr(head), slots);
    var _ :- LiftCell(CheckForwardOf(decl, HeadValue(head), value, OracleOf(s, who, now)));
    var t := MakeTransition(decl, Tip(head), value, mover, grant, now, reason);
    var _ :- LiftCell(VerifyMove(t, r, decl));
    Append(s, r, key, decl, t)
  }
}
