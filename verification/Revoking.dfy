/** Taking a right away (docs/SIGNPOSTS.md): a lock change leaves old grants
    verifying, and the missing key is what stops a move. */
module Revoking {
  import opened Terms
  import opened Paths
  import opened Commons
  import opened Keyring
  import opened Upkeep
  import opened Locks
  import opened Runs

  /** Someone left out of a lock change who has since got no new grant moves no
      signpost of the close, whatever was done in between and whatever their old
      grants say. */
  lemma TheLeftOutMoveNothing(
    s: State, s': State, close: CloseId, except: set<string>, now: nat, minted: Key, ephs: string -> nat,
    ops: seq<Op>, who: string, path: string, slots: seq<Slot>, reason: string, t: nat)
    requires Good(s) && LockChanged(s, s', close, except, now, minted, ephs)
    requires Good(s') && Legal(s', ops)
    requires who in s.people && !KeepsUp(s, who, except, s.closes[close], now)
    requires GrantsOf(Run(s', ops), who) == GrantsOf(s, who)
    ensures var end := Run(s', ops);
            match FindCell(end.cells, Segments(path))
            case None => Point(end, who, path, slots, reason, t) == Err(NoSuchCell)
            case Some(decl) => decl.close == close ==> Point(end, who, path, slots, reason, t).Err?
  {
    var end := Run(s', ops);
    LockChangeKeeps(s, s', close, except, now, minted, ephs);
    LockChangeIsLater(s, s', close, except, now, minted, ephs);
    RunKeeps(s', ops);
    LaterIsTransitive(s, s', end);
    WithoutNewGrants(s, end, who, close, Content, end.closes[close].epoch, t);
    var found := FindCell(end.cells, Segments(path));
    if found.Some? && found.value.close == close {
      NoKeyNoMove(end, who, path, slots, reason, t);
    }
  }

  /** Without the current key nobody moves a signpost, and with the authority to
      move it that is the reason given. */
  lemma NoKeyNoMove(s: State, who: string, path: string, slots: seq<Slot>, reason: string, t: nat)
    requires FindCell(s.cells, Segments(path)).Some?
    requires var close := FindCell(s.cells, Segments(path)).value.close;
             close in s.closes && who in s.people && CurrentContentKey(s, who, s.closes[close], t).None?
    ensures var decl := FindCell(s.cells, Segments(path)).value;
            Point(s, who, path, slots, reason, t) ==
            if FirstMover(GrantsOf(s, who), s.closes[decl.close], decl, t).Some?
            then Err(NoCurrentKey) else Err(MayNotMove)
  {
  }
}
