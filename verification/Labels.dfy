/** What the labels say of what is kept (the shape cards of crates/close/src/repo.rs
    and crates/cc-cell/src/lib.rs): all that is to be seen without the content key. */
module Labels {
  import opened Terms
  import opened Closes
  import opened Seals
  import opened Paths
  import opened Cells
  import opened Commons
  import opened Keyring
  import opened Snapshots
  import opened Rekeeping
  import opened Signposts
  import opened Moves

  // ---- numbers in labels -----------------------------------------------------------------------

  function DigitOf(c: char): int {
    c as int - '0' as int
  }

  /** The number that a string of digits spells. */
  function NumberOf(digits: string): int
    decreases |digits|
  {
    if digits == "" then 0 else 10 * NumberOf(digits[..|digits| - 1]) + DigitOf(digits[|digits| - 1])
  }

  lemma DigitReads(d: nat)
    requires d < 10
    ensures var c := ['0', '1', '2', '3', '4', '5', '6', '7', '8', '9'][d];
            '0' <= c <= '9' && DigitOf(c) == d
  {
  }

  /** Numbers are spelled in digits that read back as the number. */
  lemma {:induction false} DecimalReads(n: nat)
    ensures NumberOf(Decimal(n)) == n && Decimal(n) != ""
    ensures forall c :: c in Decimal(n) ==> '0' <= c <= '9'
  {
    DigitReads(n % 10);
    var last := ['0', '1', '2', '3', '4', '5', '6', '7', '8', '9'][n % 10];
    var front := if n < 10 then "" else Decimal(n / 10);
    assert Decimal(n) == front + [last];
    assert (front + [last])[..|front|] == front;
    if n >= 10 {
      DecimalReads(n / 10);
    }
  }

  // ---- labels ---------------------------------------------------------------------------------------

  /** The label an envelope seals. */
  function LabelOf(o: SealedObject): Option<ShapeCard> {
    match o.shapeCt.text
    case CardText(card) => Some(card)
    case _ => None
  }

  /** A line in a listing as plain as its close's outline allows. */
  predicate OutlinedAs(card: EntryCard, silhouette: Silhouette, contentType: string, size: string) {
    && (silhouette == OpenOutline ==> card == Outline(contentType, size))
    && (silhouette == CountedOutline ==> card == Counted)
    && (silhouette == DarkOutline ==> card == Dark)
  }

  /** A file's label says its name, its type and its size class; its line in the
      listing says type and size class only if the close's outline is open. */
  lemma FileLabel(s: State, file: Node, rel: seq<string>)
    requires Inv(s) && file.File? && rel != []
    ensures var e := EntryOf(s, file, rel);
            && LabelOf(e.cipher.envelope) == Some(ShapeCard(rel[|rel| - 1], file.contentType, file.sizeClass, ""))
            && OutlinedAs(e.card, RecordAt(s, rel).silhouette, file.contentType, file.sizeClass)
  {
  }

  lemma KeptNamesCount(s: State, dir: Node, rel: seq<string>)
    requires Inv(s) && dir.Dir?
    ensures |Listing(s, dir, |dir.kids|, rel)| == |KeptNames(dir.kids, |dir.kids|)|
  {
    ListingNames(s, dir, |dir.kids|, rel);
    var m := Listing(s, dir, |dir.kids|, rel);
    assert |m| == |m.Keys|;
  }

  /** A folder's label says its whole path, and in digits how many names it keeps. */
  lemma FolderLabel(s: State, dir: Node, rel: seq<string>) returns (digits: string)
    requires Inv(s) && dir.Dir?
    ensures NumberOf(digits) == |KeptNames(dir.kids, |dir.kids|)| && forall c :: c in digits ==> '0' <= c <= '9'
    ensures var e, path := EntryOf(s, dir, rel), if rel == [] then "/" else Join(rel);
            && LabelOf(e.cipher.envelope) == Some(ShapeCard(path, "commons/folder", digits + " entries", ""))
            && OutlinedAs(e.card, RecordAt(s, rel).silhouette, "commons/folder", digits + " entries")
  {
    var m := Listing(s, dir, |dir.kids|, rel);
    digits := Decimal(|m|);
    DecimalReads(|m|);
    KeptNamesCount(s, dir, rel);
  }

  lemma SizeClassIs(len: nat)
    ensures SizeClass(len) == "under 1 KB" <==> len < 1024
    ensures SizeClass(len) == "1\U{2013}16 KB" <==> 1024 <= len < 16_384
    ensures SizeClass(len) == "16\U{2013}256 KB" <==> 16_384 <= len < 262_144
    ensures SizeClass(len) == "256 KB \U{2013} 4 MB" <==> 262_144 <= len < 4_194_304
    ensures SizeClass(len) == "over 4 MB" <==> 4_194_304 <= len
  {
  }

  /** A commit's label says how long its message is, by class, and nothing of it. */
  lemma CommitLabel(s: State, root: Node, message: string, now: nat)
    requires Inv(s) && root.Dir? && Keep(s, root, message, now).outcome.Ok?
    ensures LabelOf(Keep(s, root, message, now).outcome.value.envelope)
         == Some(ShapeCard("commit", "commons/commit", SizeClass(|message|), ""))
  {
    var snap := SnapNode(s, s.objects, root, [], now);
    var r := s.closes[s.commons];
    var commit := Commit(snap.outcome.value.cipher, snap.outcome.value.plain, HeadOf(s), s.me, message, now);
    KeyLookupIsExact(s, s.me, s.commons, Content, r.epoch, now);
    SealWithTrueKey(r, r.epoch, CommitKind, ShapeCard("commit", "commons/commit", SizeClass(|message|), ""),
                    CommitText(commit));
  }

  /** A move's label says in digits how many came before it, and who moved; it does
      not say where to. */
  lemma MoveLabel(s: State, who: string, path: string, slots: seq<Slot>, reason: string, now: nat)
    returns (decl: CellDecl, digits: string)
    requires Inv(s) && SignpostsOk(s) && Point(s, who, path, slots, reason, now).Ok?
    ensures FindCell(s.cells, Segments(path)) == Some(decl)
    ensures NumberOf(digits) == |TrailOf(s, decl)| && forall c :: c in digits ==> '0' <= c <= '9'
    ensures who in s.people && s.people[who].name == who
    ensures LabelOf(Point(s, who, path, slots, reason, now).value.cipher.envelope)
         == Some(ShapeCard("signpost moved", "cell/transition", "\U{2014}", "move #" + digits + " by " + who))
  {
    var head: Option<Entry>;
    decl, head := PointChecks(s, who, path, slots, reason, now);
    var t := Point(s, who, path, slots, reason, now).value.move;
    digits := Decimal(t.body.seqNo);
    DecimalReads(t.body.seqNo);
    MoveIsNumbered(s, who, decl, slots, now, head, t);
    SealedLabel(s, decl, t);
  }

  /** A move has the number of moves before it. */
  lemma MoveIsNumbered(
    s: State, who: string, decl: CellDecl, slots: seq<Slot>, now: nat, head: Option<Entry>, t: Transition)
    requires Inv(s) && SignpostsOk(s) && decl in s.cells && Checked(s, who, decl, slots, now, head, t)
    ensures t.body.seqNo == |TrailOf(s, decl)|
  {
    CheckedContinues(s, who, decl, slots, now, head, t);
    HeadIsNumbered(s, decl, head);
    NumberFollows(t, head);
  }

  lemma HeadIsNumbered(s: State, decl: CellDecl, head: Option<Entry>)
    requires Inv(s) && decl.close in s.closes
    requires head.None? <==> CellRef(decl.Id()) !in s.refs
    requires head.Some? ==> head.value.0 == s.refs[CellRef(decl.Id())] && MoveIn(head.value.0) == Some(head.value.1)
    requires head.Some? ==> JournalOk(s, decl, head.value.0)
    ensures |TrailOf(s, decl)| == if head.Some? then head.value.1.body.seqNo + 1 else 0
  {
    HeadValueIsLast(s, decl, head);
    if head.Some? {
      TrailFolds(s, decl, head.value.0);
    }
  }

  lemma NumberFollows(t: Transition, head: Option<Entry>)
    requires CheckLink(t, Tip(head)).Ok?
    ensures t.body.seqNo == if head.Some? then head.value.1.body.seqNo + 1 else 0
  {
  }

  lemma SealedLabel(s: State, decl: CellDecl, t: Transition)
    requires Inv(s) && decl.close in s.closes
    ensures var r := s.closes[decl.close];
            var moved := Append(s, r, TrueKey(r, r.epoch), decl, t);
            moved.Ok? && LabelOf(moved.value.cipher.envelope) == Some(TransitionCard(t.body.seqNo, t.body.mover.name))
  {
    var r := s.closes[decl.close];
    SealWithTrueKey(r, r.epoch, TransitionKind, TransitionCard(t.body.seqNo, t.body.mover.name), TransitionText(t));
  }
}
