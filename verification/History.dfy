/** The line of keepings behind the main ref, and what the ancestry search
    answers on it. */
module History {
  import opened Terms
  import opened Ancestry
  import opened Commons
  import opened Keyring
  import opened Snapshots
  import opened Reading

  function ParentsIn(c: CipherId): seq<CipherId> {
    if CommitIn(c).Some? then CommitIn(c).value.parents else []
  }

  /** The keeping before this one: an address cannot contain itself, so the
      line of keepings ends. */
  function Previous(c: CipherId): (p: Option<CipherId>)
    ensures p.Some? ==> p.value < c
  {
    if c.envelope.contentCt.text.CommitText? && c.envelope.contentCt.text.commit.parents != []
    then Some(c.envelope.contentCt.text.commit.parents[0])
    else None
  }

  /** A keeping and all keepings before it, newest first. */
  function HistoryOf(c: CipherId): (line: seq<CipherId>)
    ensures |line| > 0 && line[0] == c
    decreases c
  {
    if Previous(c).None? then [c] else [c] + HistoryOf(Previous(c).value)
  }

  ghost predicate StoredCommit(s: State, c: CipherId) {
    && CommitIn(c).Some?
    && StoredAs(s.objects, s.closes, c, CommitKind, CommitText(CommitIn(c).value))
    && |ParentsIn(c)| <= 1
  }

  /** Every keeping of the line is stored, each the only parent of the next. */
  ghost predicate KeptLine(s: State, c: CipherId)
    decreases c
  {
    StoredCommit(s, c) && (Previous(c).Some? ==> KeptLine(s, Previous(c).value))
  }

  ghost predicate MainOk(s: State) {
    Main in s.refs ==> KeptLine(s, s.refs[Main])
  }

  lemma StoredCommitLater(s: State, s': State, c: CipherId)
    requires StoredCommit(s, c) && Later(s, s')
    ensures StoredCommit(s', c)
  {
    StoredLater(s.objects, s.closes, s'.objects, s'.closes, c, CommitKind, CommitText(CommitIn(c).value));
  }

  lemma {:induction false} KeptLineLater(s: State, s': State, c: CipherId)
    requires KeptLine(s, c) && Later(s, s')
    ensures KeptLine(s', c)
    decreases c
  {
    StoredCommitLater(s, s', c);
    if Previous(c).Some? {
      KeptLineLater(s, s', Previous(c).value);
    }
  }

  /** History is append-only: a keeping puts its commit in front of the line
      there was, and nothing else moves the line. */
  lemma KeepExtendsHistory(s: State, root: Node, message: string, now: nat)
    requires Inv(s) && MainOk(s) && root.Dir? && Distinct(root)
    ensures var k := Keep(s, root, message, now);
            && MainOk(k.state)
            && (k.outcome.Ok? ==>
                && Main in k.state.refs
                && HistoryOf(k.state.refs[Main]) ==
                   [k.outcome.value] + (if Main in s.refs then HistoryOf(s.refs[Main]) else []))
  {
    var k := Keep(s, root, message, now);
    KeepKeeps(s, root, message, now);
    if Main in s.refs {
      KeptLineLater(s, k.state, s.refs[Main]);
    }
    if k.outcome.Ok? {
      KeptCommitIsLine(s, k.state, k.outcome.value, root, Sealable(s, now));
    }
  }

  lemma KeptCommitIsLine(s: State, s': State, c: CipherId, root: Node, also: Condition)
    requires KeptCommit(s', also, c, root) && ParentsIn(c) == HeadOf(s)
    requires Main in s.refs ==> KeptLine(s', s.refs[Main])
    ensures KeptLine(s', c)
    ensures HistoryOf(c) == [c] + (if Main in s.refs then HistoryOf(s.refs[Main]) else [])
  {
  }

  // ---- the ancestry search on a kept line ------------------------------------------------

  /** Whether someone can read a stored commit. */
  ghost predicate Readable(s: State, who: string, c: CipherId, now: nat) {
    HoldsOf(s, who, c.envelope, Content, now)
  }

  lemma ReaderSees(s: State, who: string, c: CipherId, now: nat)
    requires Inv(s) && StoredCommit(s, c)
    ensures ParentsOf(ReaderOf(s, who, now), c) == if Readable(s, who, c, now) then ParentsIn(c) else []
  {
    CommitOpensIff(s, who, c, CommitIn(c).value, now);
  }

  /** `distance` keepings back on the line, all before it readable. */
  ghost predicate ReadableBack(s: State, who: string, c: CipherId, now: nat, distance: nat)
    decreases distance
  {
    distance > 0 ==>
      && Readable(s, who, c, now)
      && Previous(c).Some?
      && ReadableBack(s, who, Previous(c).value, now, distance - 1)
  }

  lemma {:induction false} ReadableBackIff(s: State, who: string, c: CipherId, now: nat, distance: nat)
    ensures ReadableBack(s, who, c, now, distance) <==>
            distance < |HistoryOf(c)| && forall k :: 0 <= k < distance ==> Readable(s, who, HistoryOf(c)[k], now)
    decreases distance
  {
    if distance > 0 && Previous(c).Some? {
      var line, rest := HistoryOf(c), HistoryOf(Previous(c).value);
      assert line == [c] + rest;
      ReadableBackIff(s, who, Previous(c).value, now, distance - 1);
      if distance < |line| && forall k :: 0 <= k < distance ==> Readable(s, who, line[k], now) {
        forall k | 0 <= k < distance - 1 ensures Readable(s, who, rest[k], now) {
          assert rest[k] == line[k + 1];
        }
      }
    }
  }

  /** The searcher goes on from a keeping they can read to the one before it. */
  lemma OneBack(s: State, who: string, c: CipherId, now: nat)
    requires Inv(s) && KeptLine(s, c)
    ensures ParentsOf(ReaderOf(s, who, now), c) ==
            if Readable(s, who, c, now) && Previous(c).Some? then [Previous(c).value] else []
  {
    ReaderSees(s, who, c, now);
    assert |ParentsIn(c)| <= 1;
  }

  lemma {:induction false} StoredBack(s: State, who: string, c: CipherId, now: nat, distance: nat)
    requires KeptLine(s, c) && ReadableBack(s, who, c, now, distance)
    ensures distance < |HistoryOf(c)| && StoredCommit(s, HistoryOf(c)[distance])
    decreases distance
  {
    if distance > 0 {
      StoredBack(s, who, Previous(c).value, now, distance - 1);
    }
  }

  /** The search sees the line as far as the searcher can read it. */
  lemma {:induction false} BackOnLine(s: State, who: string, c: CipherId, now: nat, distance: nat)
    requires Inv(s) && KeptLine(s, c)
    ensures ReadableBack(s, who, c, now, distance) ==>
            distance < |HistoryOf(c)| && StoredCommit(s, HistoryOf(c)[distance])
    ensures Back(ReaderOf(s, who, now), c, distance) ==
            if ReadableBack(s, who, c, now, distance) then Some(HistoryOf(c)[distance]) else None
    decreases distance
  {
    if ReadableBack(s, who, c, now, distance) {
      StoredBack(s, who, c, now, distance);
    }
    if distance > 0 {
      OneBack(s, who, c, now);
      if Readable(s, who, c, now) && Previous(c).Some? {
        BackOnLine(s, who, Previous(c).value, now, distance - 1);
      }
    }
  }

  lemma LineIsLinear(s: State, who: string, c: CipherId, now: nat)
    requires Inv(s) && KeptLine(s, c)
    ensures LinearFrom(ReaderOf(s, who, now), c)
  {
    forall distance: nat ensures SingleAt(ReaderOf(s, who, now), c, distance) {
      BackOnLine(s, who, c, now, distance);
      if ReadableBack(s, who, c, now, distance) {
        ReaderSees(s, who, HistoryOf(c)[distance], now);
      }
    }
  }

  /** `ancestor` is the keeping `distance` back, within the search's bound and
      with every keeping before it readable. */
  ghost predicate FoundAt(s: State, who: string, now: nat, ancestor: CipherId, newer: CipherId, distance: nat) {
    && distance <= 10_000 && distance < |HistoryOf(newer)| && HistoryOf(newer)[distance] == ancestor
    && forall k :: 0 <= k < distance ==> Readable(s, who, HistoryOf(newer)[k], now)
  }

  /** On the histories that keepings make, the answer is yes exactly if the
      commit is the keeping itself or one at most 10,000 before it, and the
      searcher can read every keeping in between. */
  lemma KeptDescendantIff(s: State, who: string, now: nat, ancestor: CipherId, newer: CipherId)
    requires Inv(s) && KeptLine(s, newer)
    ensures IsDescendantOf(ReaderOf(s, who, now), ancestor, newer) <==>
            exists distance: nat :: FoundAt(s, who, now, ancestor, newer, distance)
  {
    var read := ReaderOf(s, who, now);
    LineIsLinear(s, who, newer, now);
    LinearDescendantIff(read, ancestor, newer);
    forall distance: nat
      ensures FoundAt(s, who, now, ancestor, newer, distance) <==>
              distance <= 10_000 && Back(read, newer, distance) == Some(ancestor)
    {
      BackOnLine(s, who, newer, now, distance);
      ReadableBackIff(s, who, newer, now, distance);
    }
  }
}
