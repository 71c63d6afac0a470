/** What the queue does not promise: how a finished row was finished is not final. */
module QueueLimits {
  import opened Base
  import opened TaskTable
  import opened ProjectWorker
  import opened QueueMachine
  import opened QueueSafety

  /** The status an actor's next statement writes by id, if it writes one. The
      statement has no guard on the row's present status. */
  function StatusToWrite(actor: Actor): Option<Status> {
    match actor
    case Worker(_, pc, _, _) =>
      if pc.Refusing? then Some(Failed)
      else if pc.Marking? then Some(if pc.exit == Code(0) then Done else Failed)
      else None
    case Canceller(_, _, pc, _) => if pc == Cancelling then Some(Cancelled) else None
    case Reaper(_, pc, _, _) => if pc.Failing? then Some(Failed) else None
    case Retrier(_, _, _) => None
  }

  lemma ActorOverwrites(db: Shared, repo: Option<string>, actor: Actor, o: Oracle, id: int)
    requires TableOk(db.table) && id in db.table.rows && Terminal(db.table.rows[id].status)
    ensures var t' := Advance(db, repo, actor, o).0.table;
            && id in t'.rows
            && t'.rows[id].status == if StatusToWrite(actor).Some? && actor.id == id then StatusToWrite(actor).value
                                     else db.table.rows[id].status
  {
    if actor.Worker? && actor.wpc == Polling { ClaimShape(db.table, actor.project, o.now); }
  }

  /** A finished row changes its status exactly when the actor that moves is
      about to write another status to that very row. */
  lemma OverwrittenExactlyWhen(s: State, a: Action, id: int)
    requires Inv(s) && id in s.db.table.rows && Terminal(s.db.table.rows[id].status)
    ensures id in Next(s, a).db.table.rows
    ensures Next(s, a).db.table.rows[id].status != s.db.table.rows[id].status <==>
              && a.Step? && a.who in s.actors
              && StatusToWrite(s.actors[a.who]).Some? && s.actors[a.who].id == id
              && StatusToWrite(s.actors[a.who]).value != s.db.table.rows[id].status
  {
    if a.Step? && a.who in s.actors {
      ActorOverwrites(s.db, RepoFor(s.repoOf, s.actors[a.who]), s.actors[a.who], a.oracle, id);
    }
  }

  // ---- a run in which it happens ------------------------------------------

  /** A queue holding one row, number 1, without repositories. */
  function Holding(row: Task, claimed: seq<int>, actors: map<int, Actor>): State {
    State(Shared(Table(map[1 := row], 2), map[], claimed, [], {}), map[], actors, {})
  }

  const QUIET := State(Shared(EMPTY_TABLE, map[], [], [], {}), map[], map[], {})

  const TICK := Oracle(true, 7, 42, Code(0), "out")

  const FRESH_ROW := NewTask("p", "b", 0, None, "", None)

  const CLAIMED_ROW := FRESH_ROW.(status := Running, startedAt := Stamp.At(7))

  function W(pc: WorkerPc): Actor { Worker("p", pc, 1, CLAIMED_ROW) }

  function C(pc: CancelPc): Actor { Canceller("p", false, pc, 1) }

  /** A worker runs the only task; the process exits with 0 and the worker finds
      its row still running. Before it marks the row done, a canceller reads the
      running row and cancels it; then the worker's update comes. */
  const STORY: seq<Action> := [
    EnqueueTask("p", "b", 0, "", None),
    Start(1, Worker("p", Polling, 0, FRESH_ROW)),
    Step(1, TICK), Step(1, TICK), Step(1, TICK), Step(1, TICK), Step(1, TICK),
    Start(2, C(ReadingRunning)),
    Step(2, TICK), Step(2, TICK),
    Step(1, TICK)]

  lemma Then(q: State, story: seq<Action>, i: nat, s: State)
    requires i < |story| && Run(q, story[..i]) == s
    ensures Run(q, story[..i + 1]) == Next(s, story[i])
  {
    assert story[..i + 1][..i] == story[..i];
  }

  /** The claim of a lone pending row. */
  lemma ClaimOnly(row: Task, now: int)
    requires row.status == Pending
    ensures Claim(Table(map[1 := row], 2), row.project, now) ==
            (Table(map[1 := row.(status := Running, startedAt := Stamp.At(now))], 2), Some(1))
  {
    var t := Table(map[1 := row], 2);
    ClaimMeaning(t, row.project, now);
    assert IsPending(t, row.project, 1);
    assert forall x :: !IsRunning(t, row.project, x);
    var id := Claim(t, row.project, now).1.value;
    assert IsHead(t, row.project, id) && id == 1;
    assert forall r: Task :: map[1 := row][1 := r] == map[1 := r];
  }

  /** The running row of a table that holds one. */
  lemma RunningOnly(row: Task)
    requires row.status == Running
    ensures GetRunning(Table(map[1 := row], 2), row.project) == Some(1)
  {
    var t := Table(map[1 := row], 2);
    GetRunningMeaning(t, row.project);
    assert IsRunning(t, row.project, 1);
  }

  lemma SetRow(row: Task, row': Task)
    ensures map[1 := row][1 := row'] == map[1 := row']
  {
  }

  lemma TaskIsQueued(q: State, story: seq<Action>, row: Task)
    requires |story| > 1 && story[0] == EnqueueTask("p", "b", 0, "", None) && q == QUIET
    requires story[1] == Start(1, Worker("p", Polling, 0, row)) && row == FRESH_ROW
    ensures Run(q, story[..2]) == Holding(row, [], map[1 := Worker("p", Polling, 0, row)])
  {
    Then(q, story, 0, q);
    Then(q, story, 1, Holding(row, [], map[]));
  }

  lemma TaskIsClaimed(q: State, story: seq<Action>, row: Task, claimed: Task)
    requires |story| > 2 && story[2] == Step(1, TICK)
    requires row.status == Pending && row.project == "p"
    requires claimed == row.(status := Running, startedAt := Stamp.At(7)) && claimed == CLAIMED_ROW
    requires Run(q, story[..2]) == Holding(row, [], map[1 := Worker("p", Polling, 0, row)])
    ensures Run(q, story[..3]) == Holding(claimed, [1], map[1 := W(Deciding)])
  {
    var polling := Worker("p", Polling, 0, row);
    ClaimOnly(row, 7);
    Then(q, story, 2, Holding(row, [], map[1 := polling]));
    SetActor(polling, W(Deciding));
  }

  lemma SetActor(actor: Actor, actor': Actor)
    ensures map[1 := actor][1 := actor'] == map[1 := actor']
  {
  }

  /** The only worker moves: its row and its place change. */
  lemma WorkerMoves(q: State, story: seq<Action>, i: nat, row: Task, pc: WorkerPc, row': Task, pc': WorkerPc)
    requires i < |story| && story[i] == Step(1, TICK)
    requires Run(q, story[..i]) == Holding(row, [1], map[1 := W(pc)])
    requires WorkerStep(Holding(row, [1], map[]).db, None, W(pc), TICK) == (Holding(row', [1], map[]).db, W(pc'))
    ensures Run(q, story[..i + 1]) == Holding(row', [1], map[1 := W(pc')])
  {
    Then(q, story, i, Holding(row, [1], map[1 := W(pc)]));
    SetActor(W(pc), W(pc'));
  }

  lemma WorkerStepsAre(row: Task)
    ensures var db := Holding(row, [1], map[]).db;
            && WorkerStep(db, None, W(Deciding), TICK) == (db, W(Launching))
            && WorkerStep(db, None, W(Launching), TICK) == (Holding(row.(pid := Some(42)), [1], map[]).db, W(Waiting))
            && WorkerStep(db, None, W(Waiting), TICK) ==
               (Holding(row.(output := "out"), [1], map[]).db, W(Checking(Code(0))))
            && (row.status == Running ==>
                  WorkerStep(db, None, W(Checking(Code(0))), TICK) == (db, W(Marking(Code(0)))))
  {
    SetRow(row, row.(pid := Some(42)));
    SetRow(row, row.(output := "out"));
  }

  lemma WorkerLaunches(q: State, story: seq<Action>, row: Task)
    requires |story| > 4 && story[3] == story[4] == Step(1, TICK)
    requires Run(q, story[..3]) == Holding(row, [1], map[1 := W(Deciding)])
    ensures Run(q, story[..5]) == Holding(row.(pid := Some(42)), [1], map[1 := W(Waiting)])
  {
    WorkerStepsAre(row);
    WorkerMoves(q, story, 3, row, Deciding, row, Launching);
    WorkerMoves(q, story, 4, row, Launching, row.(pid := Some(42)), Waiting);
  }

  lemma WorkerSeesExit(q: State, story: seq<Action>, row: Task, ran: Task)
    requires |story| > 6 && story[5] == story[6] == Step(1, TICK)
    requires row.status == Running && ran == row.(output := "out")
    requires Run(q, story[..5]) == Holding(row, [1], map[1 := W(Waiting)])
    ensures Run(q, story[..7]) == Holding(ran, [1], map[1 := W(Marking(Code(0)))])
  {
    WorkerStepsAre(row);
    WorkerMoves(q, story, 5, row, Waiting, ran, Checking(Code(0)));
    WorkerStepsAre(ran);
    WorkerMoves(q, story, 6, ran, Checking(Code(0)), ran, Marking(Code(0)));
  }

  function Both(pc: CancelPc): map<int, Actor> { map[1 := W(Marking(Code(0))), 2 := C(pc)] }

  lemma CancellerMoves(q: State, story: seq<Action>, i: nat, row: Task, pc: CancelPc, row': Task, pc': CancelPc)
    requires i < |story| && story[i] == Step(2, TICK)
    requires Run(q, story[..i]) == Holding(row, [1], Both(pc))
    requires CancellerStep(Holding(row, [1], map[]).db, C(pc)) == (Holding(row', [1], map[]).db, Some(C(pc')))
    ensures Run(q, story[..i + 1]) == Holding(row', [1], Both(pc'))
  {
    Then(q, story, i, Holding(row, [1], Both(pc)));
    assert Both(pc)[2 := C(pc')] == Both(pc');
  }

  lemma CancellerRuns(q: State, story: seq<Action>, row: Task)
    requires |story| > 9 && story[7] == Start(2, C(ReadingRunning)) && story[8] == story[9] == Step(2, TICK)
    requires row.status == Running && row.project == "p"
    requires Run(q, story[..7]) == Holding(row, [1], map[1 := W(Marking(Code(0)))])
    ensures Run(q, story[..10]) == Holding(row.(status := Cancelled), [1], Both(Announcing))
  {
    var worker := map[1 := W(Marking(Code(0)))];
    Then(q, story, 7, Holding(row, [1], worker));
    assert worker[2 := C(ReadingRunning)] == Both(ReadingRunning);
    RunningOnly(row);
    CancellerMoves(q, story, 8, row, ReadingRunning, row, Cancelling);
    SetRow(row, row.(status := Cancelled));
    CancellerMoves(q, story, 9, row, Cancelling, row.(status := Cancelled), Announcing);
  }

  lemma WorkerMarks(q: State, story: seq<Action>, row: Task)
    requires |story| > 10 && story[10] == Step(1, TICK)
    requires Run(q, story[..10]) == Holding(row, [1], Both(Announcing))
    ensures 1 in Run(q, story[..11]).db.table.rows
            && Run(q, story[..11]).db.table.rows[1].status == Done
  {
    Then(q, story, 10, Holding(row, [1], Both(Announcing)));
  }

  lemma StoryEnds(q: State, story: seq<Action>)
    requires q == QUIET && |story| == 11
    requires story[0] == EnqueueTask("p", "b", 0, "", None) && story[1] == Start(1, Worker("p", Polling, 0, FRESH_ROW))
    requires forall i | 2 <= i < 7 || i == 10 :: story[i] == Step(1, TICK)
    requires story[7] == Start(2, C(ReadingRunning)) && story[8] == story[9] == Step(2, TICK)
    ensures 1 in Run(q, story[..10]).db.table.rows && Run(q, story[..10]).db.table.rows[1].status == Cancelled
    ensures 1 in Run(q, story).db.table.rows && Run(q, story).db.table.rows[1].status == Done
  {
    var ran := CLAIMED_ROW.(pid := Some(42), output := "out");
    TaskIsQueued(q, story, FRESH_ROW);
    TaskIsClaimed(q, story, FRESH_ROW, CLAIMED_ROW);
    WorkerLaunches(q, story, CLAIMED_ROW);
    WorkerSeesExit(q, story, CLAIMED_ROW.(pid := Some(42)), ran);
    CancellerRuns(q, story, ran);
    WorkerMarks(q, story, ran.(status := Cancelled));
    assert story[..11] == story;
  }

  /** From an empty queue there is a run that ends with a row `cancelled`, and
      one more step of it that makes the row `done`: terminal states are not
      final among themselves. */
  lemma CancelledThenDone()
    ensures Init(QUIET) && |STORY| == 11
    ensures 1 in Run(QUIET, STORY[..10]).db.table.rows
            && Run(QUIET, STORY[..10]).db.table.rows[1].status == Cancelled
    ensures 1 in Run(QUIET, STORY).db.table.rows && Run(QUIET, STORY).db.table.rows[1].status == Done
  {
    StoryEnds(QUIET, STORY);
  }
}
