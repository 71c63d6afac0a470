/** The worker's loop (src/project_worker.py:129-147): drain the project's queue,
    then exit after an idle period. */
module WorkerLoops {
  import opened Base
  import opened TaskTable
  import opened TaskQueues
  import opened BranchPrep
  import opened GitModel
  import opened TaskNotifier
  import opened ProjectWorker

  /** The world in one round: what others did to the table and the repository
      since the last round, the time of the claim, the idle clock, the turn (if
      there is one) and the idle clock after it. */
  datatype Round = Round(others: Table -> Table, git: Repo -> Repo, now: int, clock: int, turn: TurnWorld, ended: int)

  datatype Loop = Loop(table: Table, repo: Repo, sent: seq<Claimed>, lastTaskAt: int, exited: bool)

  /** What one round of the loop does. */
  function RoundStep(s: Loop, project: string, isRepo: bool, idle: int, k: Round): Loop {
    var t, r := k.others(s.table), k.git(s.repo);
    var first := First(t, project);
    if first == None || GetRunning(t, project) != None
    then s.(table := t, repo := r, exited := k.clock - s.lastTaskAt >= idle)
    else
      var claimed := Claim(t, project, k.now).0;
      var turn := TurnOf(claimed, isRepo, r, first.value, claimed.rows[first.value], k.turn);
      Loop(turn.table, turn.repo,
           s.sent + if turn.told && first.value in turn.table.rows
                    then [Claimed(first.value, turn.table.rows[first.value])] else [],
           k.ended, false)
  }

  function Rounds(s: Loop, project: string, isRepo: bool, idle: int, rounds: seq<Round>): Loop
    decreases |rounds|
  {
    if rounds == [] || s.exited then s
    else Rounds(RoundStep(s, project, isRepo, idle, rounds[0]), project, isRepo, idle, rounds[1..])
  }

  /** The loop, for as many rounds as the world has. */
  method WorkerLoop(queue: TaskQueue, project: string, dir: Checkout, notices: Notices, idle: int, started: int,
                    rounds: seq<Round>)
    returns (exited: bool, lastTaskAt: int)
    modifies queue, dir, notices
    ensures Loop(queue.table, dir.repo, notices.sent, lastTaskAt, exited) ==
            Rounds(Loop(old(queue.table), old(dir.repo), old(notices.sent), started, false), project, dir.isRepo, idle,
                   rounds)
  {
    exited, lastTaskAt := false, started;
    ghost var end := Rounds(Loop(queue.table, dir.repo, notices.sent, started, false), project, dir.isRepo, idle,
                            rounds);
    var i := 0;
    while i < |rounds| && !exited
      invariant i <= |rounds|
      invariant Rounds(Loop(queue.table, dir.repo, notices.sent, lastTaskAt, exited), project, dir.isRepo, idle,
                       rounds[i..]) == end
      decreases |rounds| - i
    {
      exited, lastTaskAt := OneRound(queue, project, dir, notices, idle, lastTaskAt, rounds[i]);
      assert rounds[i..][1..] == rounds[i + 1..];
      i := i + 1;
    }
  }

  /** The body of the loop. */
  method OneRound(queue: TaskQueue, project: string, dir: Checkout, notices: Notices, idle: int, since: int, k: Round)
    returns (exited: bool, lastTaskAt: int)
    modifies queue, dir, notices
    ensures Loop(queue.table, dir.repo, notices.sent, lastTaskAt, exited) ==
            RoundStep(Loop(old(queue.table), old(dir.repo), old(notices.sent), since, false), project, dir.isRepo,
                      idle, k)
    ensures WellFormed(k.others(old(queue.table))) ==>
              Clocked(k.others(old(queue.table)), project, idle, since, k, exited, lastTaskAt)
  {
    RoundClock(Loop(queue.table, dir.repo, notices.sent, since, false), project, dir.isRepo, idle, k);
    queue.table, dir.repo := k.others(queue.table), k.git(dir.repo);
    var claimed := queue.ClaimNext(project, k.now);
    if claimed == None {
      return k.clock - since >= idle, since;
    }
    RunTask(queue, claimed.value, dir, notices, k.turn);
    exited, lastTaskAt := false, k.ended;
  }

  /** The idle clock of a round on table `t`: a round that runs a task restarts it at
      the end of that task; any other leaves it, and exits when it stands at the idle
      time or more. */
  ghost predicate Clocked(t: Table, project: string, idle: int, since: int, k: Round, exited: bool, lastTaskAt: int) {
    var runs := (exists x :: IsPending(t, project, x)) && forall x :: !IsRunning(t, project, x);
    && lastTaskAt == (if runs then k.ended else since)
    && exited == (!runs && k.clock - since >= idle)
  }

  lemma RoundClock(s: Loop, project: string, isRepo: bool, idle: int, k: Round)
    ensures var s' := RoundStep(s, project, isRepo, idle, k);
            WellFormed(k.others(s.table)) ==>
              Clocked(k.others(s.table), project, idle, s.lastTaskAt, k, s'.exited, s'.lastTaskAt)
  {
    if WellFormed(k.others(s.table)) { ClaimMeaning(k.others(s.table), project, k.now); }
  }

  /** Round `i` is the one the loop exits on. */
  ghost predicate ExitsAt(s: Loop, project: string, isRepo: bool, idle: int, rounds: seq<Round>, i: nat) {
    && i < |rounds|
    && !Rounds(s, project, isRepo, idle, rounds[..i]).exited
    && Rounds(s, project, isRepo, idle, rounds[..i + 1]).exited
  }

  /** The loop exits only on a round that found nothing it may claim, whose clock
      was at least `idle` past the end of its last task. */
  lemma {:induction false} ExitsOnlyIdle(s: Loop, project: string, isRepo: bool, idle: int, rounds: seq<Round>)
    returns (i: nat)
    requires !s.exited && Rounds(s, project, isRepo, idle, rounds).exited
    requires WellFormed(Rounds(s, project, isRepo, idle, rounds).table)
    decreases |rounds|
    ensures var end := Rounds(s, project, isRepo, idle, rounds);
            && ExitsAt(s, project, isRepo, idle, rounds, i)
            && rounds[i].clock - end.lastTaskAt >= idle
            && ((forall x :: !IsPending(end.table, project, x)) || exists x :: IsRunning(end.table, project, x))
  {
    var next := RoundStep(s, project, isRepo, idle, rounds[0]);
    assert rounds[..1][1..] == [] && rounds[..1][0] == rounds[0];
    if next.exited {
      ClaimMeaning(rounds[0].others(s.table), project, rounds[0].now);
      i := 0;
    } else {
      var j := ExitsOnlyIdle(next, project, isRepo, idle, rounds[1..]);
      assert rounds[..j + 1][1..] == rounds[1..][..j] && rounds[..j + 2][1..] == rounds[1..][..j + 1];
      i := j + 1;
    }
  }

  /** Nobody else writes to the table. */
  ghost predicate Undisturbed(rounds: seq<Round>) {
    forall i, t | 0 <= i < |rounds| :: rounds[i].others(t) == t
  }

  /** Only row `id` differs, and it is finished. */
  ghost predicate OnlyFinished(t: Table, t': Table, id: int) {
    && t'.next == t.next && t'.rows.Keys == t.rows.Keys
    && (forall x | x in t.rows && x != id :: t'.rows[x] == t.rows[x])
    && id in t'.rows && Terminal(t'.rows[id].status)
  }

  /** A round on a project with nothing running finishes the head of its queue
      and leaves every other row alone. */
  lemma RoundFinishesHead(s: Loop, project: string, isRepo: bool, idle: int, k: Round)
    requires WellFormed(s.table) && k.others(s.table) == s.table
    requires forall x :: !IsRunning(s.table, project, x)
    ensures
      var s' := RoundStep(s, project, isRepo, idle, k);
      if forall x :: !IsPending(s.table, project, x) then s'.table == s.table
      else !s'.exited && exists head :: IsHead(s.table, project, head) && OnlyFinished(s.table, s'.table, head)
  {
    FirstIsHead(s.table, project);
    GetRunningMeaning(s.table, project);
    var first := First(s.table, project);
    if first.Some? {
      var t := Claim(s.table, project, k.now).0;
      TurnMeaning(t, isRepo, k.git(s.repo), first.value, t.rows[first.value], k.turn);
      assert OnlyFinished(s.table, RoundStep(s, project, isRepo, idle, k).table, first.value);
    }
  }

  lemma FinishedShrinks(t: Table, t': Table, project: string, head: int)
    requires WellFormed(t) && IsPending(t, project, head) && OnlyFinished(t, t', head)
    requires forall x :: !IsRunning(t, project, x)
    ensures WellFormed(t') && (forall x :: !IsRunning(t', project, x))
    ensures |PendingSet(t', project)| == |PendingSet(t, project)| - 1
  {
    assert PendingSet(t', project) == PendingSet(t, project) - {head};
    forall x ensures !IsRunning(t', project, x) {
      assert x in t.rows ==> !IsRunning(t, project, x);
    }
  }

  /** A worker that nobody disturbs drains its project: after as many rounds as
      there were pending rows, however the turns end, none is left. */
  lemma {:induction false} LoopDrains(s: Loop, project: string, isRepo: bool, idle: int, rounds: seq<Round>)
    requires WellFormed(s.table) && Undisturbed(rounds)
    requires s.exited ==> forall x :: !IsPending(s.table, project, x)
    requires forall x :: !IsRunning(s.table, project, x)
    requires |rounds| >= |PendingSet(s.table, project)|
    decreases |rounds|
    ensures forall x :: !IsPending(Rounds(s, project, isRepo, idle, rounds).table, project, x)
  {
    if rounds == [] || s.exited {
      assert rounds == [] ==> PendingSet(s.table, project) == {};
      assert forall x | IsPending(s.table, project, x) :: x in PendingSet(s.table, project);
    } else {
      var next := RoundStep(s, project, isRepo, idle, rounds[0]);
      RoundFinishesHead(s, project, isRepo, idle, rounds[0]);
      if exists x :: IsPending(s.table, project, x) {
        var head :| IsHead(s.table, project, head) && OnlyFinished(s.table, next.table, head);
        FinishedShrinks(s.table, next.table, project, head);
      } else {
        assert PendingSet(s.table, project) == {};
      }
      LoopDrains(next, project, isRepo, idle, rounds[1..]);
    }
  }
}
