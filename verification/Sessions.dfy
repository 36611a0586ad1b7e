/** The program carrying out operations one after another on its repository
    (the dispatch of crates/close/src/main.rs): what is proved of runs holds of it. */
module Sessions {
  import opened Terms
  import opened Commons
  import opened Runs
  import opened Repos

  /** One operation in place: the fields end up as the run's next state, which
      again has all that runs keep, and nothing recorded before is lost. */
  method Perform(repo: Repo, op: Op)
    requires Good(repo.View()) && Allowed(repo.View(), op)
    modifies repo, repo.store
    ensures repo.View() == Apply(old(repo.View()), op)
    ensures StepsWell(old(repo.View()), repo.View())
  {
    StepKeeps(repo.View(), op);
    match op {
      case ActAs(who) =>
        if who in repo.people {
          repo.me := who;
        }
      case AddPerson(name, sign, dh) =>
        var r := repo.AddPerson(name, sign, dh);
      case ProtectPath(path, title, seed, eph) =>
        var r := repo.Protect(path, title, seed, eph);
      case SharePath(path, with, facet, powers, days, now, eph) =>
        var r := repo.Share(path, with, facet, powers, days, now, eph);
      case ChangeLock(path, except, now, minted, ephs) =>
        var r := repo.Rotate(path, except, now, minted, ephs);
      case KeepTree(root, message, now) =>
        var r := repo.Keep(root, message, now);
      case RaiseCell(path, kind, forwardOnly) =>
        var r := repo.RaiseCell(path, kind, forwardOnly);
      case MoveCell(who, path, slots, reason, now) =>
        var r := repo.Point(who, path, slots, reason, now);
    }
  }

  /** Any operations in any order: exactly the run of them. */
  method PerformAll(repo: Repo, ops: seq<Op>)
    requires Good(repo.View()) && Legal(repo.View(), ops)
    modifies repo, repo.store
    ensures repo.View() == Run(old(repo.View()), ops)
    ensures StepsWell(old(repo.View()), repo.View())
  {
    ghost var start := repo.View();
    StandingStill(start);
    for i := 0 to |ops|
      invariant Legal(repo.View(), ops[i..]) && Run(repo.View(), ops[i..]) == Run(start, ops)
      invariant StepsWell(start, repo.View())
    {
      ghost var before := repo.View();
      assert ops[i..][0] == ops[i] && ops[i..][1..] == ops[i + 1..];
      Perform(repo, ops[i]);
      StepsCompose(start, before, repo.View());
    }
  }

  /** A fresh repository, ready for any run. */
  method Begin(me: string, sign: nat, dh: nat, seed: Key, eph: nat) returns (repo: Repo)
    ensures fresh(repo) && fresh(repo.store)
    ensures repo.View() == Init(me, sign, dh, seed, eph) && Good(repo.View())
  {
    repo := new Repo.Init(me, sign, dh, seed, eph);
    InitIsGood(me, sign, dh, seed, eph);
  }
}
