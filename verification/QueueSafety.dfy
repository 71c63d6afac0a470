/** What every step of the queue machine keeps, and what that gives over runs. */
module QueueSafety {
  import opened Base
  import opened GitNames
  import opened GitModel
  import opened TaskTable
  import opened ProjectTools
  import opened QueueMachine

  // ---- invariants ---------------------------------------------------------

  ghost predicate OneRunning(t: Table) {
    forall x, y | x in t.rows && y in t.rows && t.rows[x].status == Running && t.rows[y].status == Running
                  && t.rows[x].project == t.rows[y].project :: x == y
  }

  ghost predicate RetryOk(t: Table) {
    forall id | id in t.rows && t.rows[id].retryOf.Some? ::
      var k := t.rows[id].retryOf.value;
      k in t.rows && k < id && Terminal(t.rows[k].status)
  }

  ghost predicate TableOk(t: Table) { WellFormed(t) && OneRunning(t) && RetryOk(t) }

  ghost predicate NoRepeat(ids: seq<int>) { forall i, j | 0 <= i < j < |ids| :: ids[i] != ids[j] }

  predicate WasClaimed(t: Table, id: int) {
    id in t.rows && (t.rows[id].status == Running || Terminal(t.rows[id].status))
  }

  ghost predicate HistoryOk(t: Table, claimed: seq<int>) {
    && NoRepeat(claimed)
    && (forall id | id in claimed :: WasClaimed(t, id))
    && (forall id | id in t.rows && t.rows[id].status == Running :: id in claimed)
  }

  ghost predicate ActorOk(t: Table, claimed: seq<int>, actor: Actor) {
    && (forall id | id in Held(actor) :: id in claimed)
    && (actor.Retrier? && actor.tpc.Inserting? ==> actor.id in t.rows && Terminal(t.rows[actor.id].status))
  }

  predicate OnTask(actor: Actor) { actor.Worker? && actor.wpc != Polling }

  ghost predicate ActorsOk(db: Shared, actors: map<int, Actor>) {
    && (forall a | a in actors :: ActorOk(db.table, db.claimed, actors[a]))
    && (forall a, b | a in actors && b in actors && a != b && OnTask(actors[a]) && OnTask(actors[b]) ::
          actors[a].id != actors[b].id)
  }

  predicate Asked(db: Shared, id: int) { exists i | 0 <= i < |db.asked| :: db.asked[i].0 == id }

  predicate Unasked(db: Shared, actor: Actor) {
    actor.Worker? && BeforeCreation(actor.wpc) ==> !Asked(db, actor.id)
  }

  /** Requests to git: one a task, for claimed tasks; every schema-shaped branch
      was requested; a worker still before its request has made none. */
  ghost predicate BranchesOk(db: Shared) {
    && (forall i | 0 <= i < |db.asked| :: db.asked[i].0 in db.claimed && db.asked[i].0 >= 0)
    && (forall i, j | 0 <= i < j < |db.asked| :: db.asked[i].0 != db.asked[j].0)
    && (forall r, b | r in db.repos && b in db.repos[r].branches && IsValidTaskBranch(b) :: Asked(db, TaskIdOf(b)))
  }

  /** Somebody is between moving `id` out of `running` and announcing it. */
  ghost predicate OwedBySomeone(actors: map<int, Actor>, id: int) {
    exists a | a in actors :: Owes(actors[a], id)
  }

  ghost predicate NoticesOk(s: State) {
    forall id | id in s.db.claimed && id in s.db.table.rows && s.db.table.rows[id].status != Running ::
      id in s.db.told || id in s.lost || OwedBySomeone(s.actors, id)
  }

  ghost predicate Inv(s: State) {
    && TableOk(s.db.table) && HistoryOk(s.db.table, s.db.claimed) && ActorsOk(s.db, s.actors)
    && BranchesOk(s.db) && (forall a | a in s.actors :: Unasked(s.db, s.actors[a]))
    && NoticesOk(s)
  }

  /** An empty queue, no actors, and repositories without schema-shaped branches. */
  ghost predicate Init(s: State) {
    && s.db.table == EMPTY_TABLE && s.actors == map[] && s.db.claimed == [] && s.db.asked == []
    && s.db.told == {} && s.lost == {}
    && forall r, b | r in s.db.repos && b in s.db.repos[r].branches :: !IsValidTaskBranch(b)
  }

  lemma InitInv(s: State)
    requires Init(s)
    ensures Inv(s)
  {
  }

  // ---- the effect of a step on the table ----------------------------------

  datatype Effect =
    | Same
    | Wrote(id: int)             // by-id update by an actor that holds the id
    | Inserted(row: Task)
    | Claimed(project: string, now: int)
    | Drained(project: string)

  /** Fields nobody rewrites after the insert. */
  predicate SameIdentity(a: Task, b: Task) {
    a.project == b.project && a.body == b.body && a.priority == b.priority && a.retryOf == b.retryOf
    && a.mutates == b.mutates
  }

  ghost predicate Shows(t: Table, t': Table, claimed: seq<int>, e: Effect) {
    match e
    case Same => t' == t
    case Wrote(id) =>
      && id in claimed && id in t.rows && t'.next == t.next
      && id in t'.rows && t'.rows == t.rows[id := t'.rows[id]]
      && SameIdentity(t.rows[id], t'.rows[id])
      && (t'.rows[id].status == t.rows[id].status || Terminal(t'.rows[id].status))
    case Inserted(row) =>
      && t' == Insert(t, row).0 && row.status in {Pending, RoutedViaAgent}
      && (row.retryOf.Some? ==> row.retryOf.value in t.rows && Terminal(t.rows[row.retryOf.value].status))
    case Claimed(p, now) => t' == Claim(t, p, now).0
    case Drained(p) => t' == Drain(t, p)
  }

  /** The effect of an actor's step. */
  function ActorEffect(actor: Actor, o: Oracle): Effect {
    match actor
    case Worker(p, pc, id, _) =>
      if pc == Polling then Claimed(p, o.now)
      else if pc.RecordingBranch? || pc.Refusing? || pc.Launching? || pc.Waiting? || pc.Marking? then Wrote(id)
      else Same
    case Canceller(p, _, pc, id) =>
      if pc == Cancelling then Wrote(id) else if pc == Draining then Drained(p) else Same
    case Reaper(_, pc, _, id) => if pc.Failing? then Wrote(id) else Same
    case Retrier(id, body, pc) => if pc.Inserting? then Inserted(RetryRow(pc.original, id, body)) else Same
  }

  function EffectOf(s: State, a: Action): Effect {
    match a
    case EnqueueTask(p, body, priority, branch, mutates) => Inserted(NewTask(p, body, priority, None, branch, mutates))
    case EnqueueRouted(p, body, now) => Inserted(RoutedTask(p, body, now))
    case Step(who, o) => if who in s.actors then ActorEffect(s.actors[who], o) else Same
    case _ => Same
  }

  lemma AdvanceShows(db: Shared, repo: Option<string>, actor: Actor, o: Oracle)
    requires HistoryOk(db.table, db.claimed) && ActorOk(db.table, db.claimed, actor)
    ensures Shows(db.table, Advance(db, repo, actor, o).0.table, db.claimed, ActorEffect(actor, o))
  {
    match actor
    case Worker(_, pc, id, _) => if pc != Polling { assert id in Held(actor); }
    case Canceller(_, _, pc, id) => if pc == Cancelling { assert id in Held(actor); }
    case Reaper(_, pc, _, id) => if pc.Failing? { assert id in Held(actor); }
    case _ =>
  }

  lemma StepShows(s: State, a: Action)
    requires Inv(s)
    ensures Shows(s.db.table, Next(s, a).db.table, s.db.claimed, EffectOf(s, a))
  {
    if a.Step? && a.who in s.actors {
      AdvanceShows(s.db, RepoFor(s.repoOf, s.actors[a.who]), s.actors[a.who], a.oracle);
    }
  }

  // ---- table invariants ---------------------------------------------------

  lemma ClaimShape(t: Table, p: string, now: int)
    requires TableOk(t)
    ensures var r := Claim(t, p, now);
            if r.1 == None then r.0 == t
            else
              && IsHead(t, p, r.1.value)
              && (forall x :: !IsRunning(t, p, x))
              && r.0 == t.(rows := t.rows[r.1.value :=
                                            t.rows[r.1.value].(status := Running, startedAt := Stamp.At(now))])
  {
    ClaimMeaning(t, p, now);
  }

  /** A by-id update by a holder never starts or revives a row. */
  lemma WriteKeepsTable(t: Table, t': Table, claimed: seq<int>, id: int)
    requires TableOk(t) && Shows(t, t', claimed, Wrote(id))
    ensures TableOk(t')
  {
    forall x | x in t'.rows && t'.rows[x].retryOf.Some?
      ensures var k := t'.rows[x].retryOf.value; k in t'.rows && k < x && Terminal(t'.rows[k].status)
    {
      assert x in t.rows && t.rows[x].retryOf == t'.rows[x].retryOf;
    }
    forall x, y | x in t'.rows && y in t'.rows && t'.rows[x].status == Running && t'.rows[y].status == Running
                  && t'.rows[x].project == t'.rows[y].project
      ensures x == y
    {
      assert t.rows[x].status == Running && t.rows[y].status == Running;
    }
  }

  lemma InsertKeepsTable(t: Table, t': Table, claimed: seq<int>, row: Task)
    requires TableOk(t) && Shows(t, t', claimed, Inserted(row))
    ensures TableOk(t')
  {
  }

  lemma ClaimKeepsTable(t: Table, t': Table, p: string, now: int)
    requires TableOk(t) && t' == Claim(t, p, now).0
    ensures TableOk(t')
  {
    ClaimShape(t, p, now);
    assert forall x | x in t.rows && t.rows[x].status == Running && t.rows[x].project == p :: IsRunning(t, p, x);
  }

  lemma DrainKeepsTable(t: Table, p: string)
    requires TableOk(t)
    ensures TableOk(Drain(t, p))
  {
  }

  lemma TableKept(t: Table, t': Table, claimed: seq<int>, e: Effect)
    requires TableOk(t) && Shows(t, t', claimed, e)
    ensures TableOk(t')
  {
    match e
    case Same =>
    case Wrote(id) => WriteKeepsTable(t, t', claimed, id);
    case Inserted(row) => InsertKeepsTable(t, t', claimed, row);
    case Claimed(p, now) => ClaimKeepsTable(t, t', p, now);
    case Drained(p) => DrainKeepsTable(t, p);
  }

  // ---- what a step may do to a row ----------------------------------------

  predicate StatusUp(a: Status, b: Status) {
    a == b || (a != RoutedViaAgent && b != RoutedViaAgent && Rank(a) < Rank(b)) || (Terminal(a) && Terminal(b))
  }

  /** Rows stay, keep their identity and only climb; new rows are pending or routed. */
  ghost predicate Evolves(t: Table, t': Table) {
    && t.next <= t'.next
    && (forall id | id in t.rows ::
          && id in t'.rows && SameIdentity(t.rows[id], t'.rows[id])
          && StatusUp(t.rows[id].status, t'.rows[id].status)
          && (t.rows[id].status == t'.rows[id].status == Pending ==> t.rows[id] == t'.rows[id]))
    && (forall id | id in t'.rows && id !in t.rows :: id >= t.next)
  }

  lemma EffectEvolves(t: Table, t': Table, claimed: seq<int>, e: Effect)
    requires TableOk(t) && HistoryOk(t, claimed) && Shows(t, t', claimed, e)
    ensures Evolves(t, t')
  {
    match e
    case Claimed(p, now) => ClaimShape(t, p, now);
    case _ =>
  }

  lemma EvolvesTransitive(t: Table, u: Table, v: Table)
    requires Evolves(t, u) && Evolves(u, v)
    ensures Evolves(t, v)
  {
  }

  // ---- the other invariants -----------------------------------------------

  lemma WasClaimedStays(t: Table, t': Table, claimed: seq<int>)
    requires Evolves(t, t') && forall id | id in claimed :: WasClaimed(t, id)
    ensures forall id | id in claimed :: WasClaimed(t', id)
  {
    forall id | id in claimed ensures WasClaimed(t', id) {
      assert WasClaimed(t, id) && StatusUp(t.rows[id].status, t'.rows[id].status);
    }
  }

  /** The claim log after a step. */
  function ClaimLog(t: Table, claimed: seq<int>, e: Effect): seq<int> {
    if e.Claimed? && Claim(t, e.project, e.now).1.Some? then claimed + [Claim(t, e.project, e.now).1.value]
    else claimed
  }

  lemma StepLogs(s: State, a: Action)
    ensures Next(s, a).db.claimed == ClaimLog(s.db.table, s.db.claimed, EffectOf(s, a))
  {
    if a.Step? && a.who in s.actors {
      AdvanceLogs(s.db, RepoFor(s.repoOf, s.actors[a.who]), s.actors[a.who], a.oracle);
    }
  }

  lemma AdvanceLogs(db: Shared, repo: Option<string>, actor: Actor, o: Oracle)
    ensures Advance(db, repo, actor, o).0.claimed == ClaimLog(db.table, db.claimed, ActorEffect(actor, o))
  {
  }

  lemma HistoryKept(t: Table, t': Table, claimed: seq<int>, e: Effect)
    requires TableOk(t) && HistoryOk(t, claimed) && Shows(t, t', claimed, e)
    ensures HistoryOk(t', ClaimLog(t, claimed, e))
    ensures forall id | id in claimed :: id in ClaimLog(t, claimed, e)
  {
    EffectEvolves(t, t', claimed, e);
    WasClaimedStays(t, t', claimed);
    if e.Claimed? && Claim(t, e.project, e.now).1.Some? {
      ClaimShape(t, e.project, e.now);
      var id := Claim(t, e.project, e.now).1.value;
      assert IsPending(t, e.project, id);
      assert id !in claimed;
      assert forall x | x in claimed + [id] :: x in claimed || x == id;
    }
  }

  // ---- actors -------------------------------------------------------------

  lemma ActorStays(t: Table, t': Table, claimed: seq<int>, claimed': seq<int>, actor: Actor)
    requires Evolves(t, t') && ActorOk(t, claimed, actor) && forall id | id in claimed :: id in claimed'
    ensures ActorOk(t', claimed', actor)
  {
    if actor.Retrier? && actor.tpc.Inserting? {
      assert StatusUp(t.rows[actor.id].status, t'.rows[actor.id].status);
    }
  }

  lemma RunningRowsClaimed(t: Table, claimed: seq<int>, n: nat)
    requires HistoryOk(t, claimed)
    ensures forall i | 0 <= i < |RunningRowsBelow(t, n)| :: RunningRowsBelow(t, n)[i].0 in claimed
  {
    var rows := RunningRowsBelow(t, n);
    forall i | 0 <= i < |rows| ensures rows[i].0 in claimed {
      var id := rows[i].0;
      assert id in t.rows && t.rows[id].status == Running;
    }
  }

  /** The ids an actor holds after its own step: held before, running now, or just claimed. */
  lemma MoverHolds(db: Shared, repo: Option<string>, actor: Actor, o: Oracle)
    requires HistoryOk(db.table, db.claimed) && ActorOk(db.table, db.claimed, actor)
    ensures var (db', actor') := Advance(db, repo, actor, o);
            actor'.Some? ==> forall id | id in Held(actor'.value) :: id in db'.claimed
  {
    match actor
    case Reaper(todo, pc, _, _) =>
      RunningRowsClaimed(db.table, db.claimed, db.table.next);
      if todo != [] {
        assert forall i | 0 <= i < |todo| :: todo[i].0 in Held(actor);
        assert forall i | 0 <= i < |todo[1..]| :: todo[1..][i] == todo[i + 1];
      }
    case _ =>
  }

  lemma MoverRetries(db: Shared, repo: Option<string>, actor: Actor, o: Oracle)
    requires ActorOk(db.table, db.claimed, actor)
    ensures var (db', actor') := Advance(db, repo, actor, o);
            actor'.Some? && actor'.value.Retrier? && actor'.value.tpc.Inserting? ==>
              actor'.value.id in db'.table.rows && Terminal(db'.table.rows[actor'.value.id].status)
  {
  }

  /** A worker enters a task only by claiming it, and never swaps it for another. */
  lemma MoverTask(db: Shared, repo: Option<string>, actor: Actor, o: Oracle)
    requires TableOk(db.table) && HistoryOk(db.table, db.claimed)
    ensures var actor' := Advance(db, repo, actor, o).1;
            actor'.Some? && OnTask(actor'.value) ==>
              || (OnTask(actor) && actor'.value.id == actor.id)
              || actor'.value.id !in db.claimed
  {
    if actor.Worker? && actor.wpc == Polling {
      ClaimShape(db.table, actor.project, o.now);
      var id := Claim(db.table, actor.project, o.now).1;
      if id.Some? {
        assert IsPending(db.table, actor.project, id.value);
        assert id.value !in db.claimed;
      }
    }
  }

  /** Others stay put, and the mover is fine on its own and shares no task. */
  lemma ActorsStay(db: Shared, db': Shared, actors: map<int, Actor>, actors': map<int, Actor>, who: int)
    requires ActorsOk(db, actors) && Evolves(db.table, db'.table)
    requires forall b | b in actors' && b != who :: b in actors && actors'[b] == actors[b]
    requires forall id | id in db.claimed :: id in db'.claimed
    requires who in actors' ==> ActorOk(db'.table, db'.claimed, actors'[who])
    requires who in actors' && OnTask(actors'[who]) ==>
               || (who in actors && OnTask(actors[who]) && actors'[who].id == actors[who].id)
               || actors'[who].id !in db.claimed
    ensures ActorsOk(db', actors')
  {
    forall b | b in actors' ensures ActorOk(db'.table, db'.claimed, actors'[b]) {
      if b != who {
        ActorStays(db.table, db'.table, db.claimed, db'.claimed, actors[b]);
      }
    }
    forall b | b in actors' && b != who && OnTask(actors'[b]) ensures actors'[b].id in db.claimed {
      assert ActorOk(db.table, db.claimed, actors[b]);
      assert actors[b].id in Held(actors[b]);
    }
  }

  lemma ActorsKept(s: State, a: Action)
    requires Inv(s)
    ensures ActorsOk(Next(s, a).db, Next(s, a).actors)
  {
    var s' := Next(s, a);
    StepShows(s, a);
    EffectEvolves(s.db.table, s'.db.table, s.db.claimed, EffectOf(s, a));
    StepLogs(s, a);
    HistoryKept(s.db.table, s'.db.table, s.db.claimed, EffectOf(s, a));
    match a
    case Step(who, o) =>
      if who in s.actors {
        var repo := RepoFor(s.repoOf, s.actors[who]);
        MoverHolds(s.db, repo, s.actors[who], o);
        MoverRetries(s.db, repo, s.actors[who], o);
        MoverTask(s.db, repo, s.actors[who], o);
        ActorsStay(s.db, s'.db, s.actors, s'.actors, who);
      }
    case Start(who, actor) =>
      if who !in s.actors && AtEntry(actor) { ActorsStay(s.db, s'.db, s.actors, s'.actors, who); }
    case Crash(who) =>
      if who in s.actors { ActorsStay(s.db, s'.db, s.actors, s'.actors, who); }
    case _ =>
      forall b | b in s.actors ensures ActorOk(s'.db.table, s'.db.claimed, s.actors[b]) {
        ActorStays(s.db.table, s'.db.table, s.db.claimed, s'.db.claimed, s.actors[b]);
      }
  }

  // ---- branch names -------------------------------------------------------

  /** The `checkout -b` an actor's next step runs, if any. */
  function ActorAsk(db: Shared, repo: Option<string>, actor: Actor): Option<(int, string)> {
    if actor.Worker? && actor.wpc == Creating && repo.Some? && repo.value in db.repos && actor.id >= 0
    then Some((actor.id, TaskBranchName(actor.id, actor.snap.body)))
    else None
  }

  function AskOf(s: State, a: Action): Option<(int, string)> {
    if a.Step? && a.who in s.actors then ActorAsk(s.db, RepoFor(s.repoOf, s.actors[a.who]), s.actors[a.who]) else None
  }

  function AskLog(asked: seq<(int, string)>, ask: Option<(int, string)>): seq<(int, string)> {
    if ask.Some? then asked + [ask.value] else asked
  }

  /** Schema-shaped branches after a step were there before or were just asked for. */
  ghost predicate BranchesFrom(repos: map<string, Repo>, repos': map<string, Repo>, ask: Option<(int, string)>) {
    forall r, b | r in repos' && b in repos'[r].branches && IsValidTaskBranch(b) ::
      (r in repos && b in repos[r].branches) || (ask.Some? && b == ask.value.1)
  }

  lemma PrepareAsks(r: Repo, pc: WorkerPc, id: int, snap: Task, yes: bool)
    ensures var (r', ask, pc') := PrepareStep(r, pc, id, snap, yes);
            && ask == (if pc == Creating && id >= 0 then Some((id, TaskBranchName(id, snap.body))) else None)
            && (forall b | b in r'.branches :: b in r.branches || (ask.Some? && b == ask.value.1))
            && (BeforeCreation(pc') ==> BeforeCreation(pc) && ask == None)
  {
  }

  lemma AdvanceAsks(db: Shared, repo: Option<string>, actor: Actor, o: Oracle)
    ensures Advance(db, repo, actor, o).0.asked == AskLog(db.asked, ActorAsk(db, repo, actor))
    ensures BranchesFrom(db.repos, Advance(db, repo, actor, o).0.repos, ActorAsk(db, repo, actor))
  {
    if actor.Worker? { WorkerAsks(db, repo, actor, o); }
  }

  lemma WorkerAsks(db: Shared, repo: Option<string>, w: Actor, o: Oracle)
    requires w.Worker?
    ensures WorkerStep(db, repo, w, o).0.asked == AskLog(db.asked, ActorAsk(db, repo, w))
    ensures BranchesFrom(db.repos, WorkerStep(db, repo, w, o).0.repos, ActorAsk(db, repo, w))
  {
    if BeforeCreation(w.wpc) && repo.Some? && repo.value in db.repos {
      PrepareAsks(db.repos[repo.value], w.wpc, w.id, w.snap, o.yes);
    } else {
      assert WorkerStep(db, repo, w, o).0.repos == db.repos;
    }
  }

  /** A worker that has not asked yet was there already and asks nothing now, or
      has just claimed. */
  lemma NotYetAsked(db: Shared, repo: Option<string>, actor: Actor, o: Oracle)
    requires TableOk(db.table) && HistoryOk(db.table, db.claimed)
    ensures var actor' := Advance(db, repo, actor, o).1;
            actor'.Some? && actor'.value.Worker? && BeforeCreation(actor'.value.wpc) ==>
              && ActorAsk(db, repo, actor) == None
              && (actor'.value.id !in db.claimed
                  || (actor.Worker? && BeforeCreation(actor.wpc) && actor.id == actor'.value.id))
  {
    MoverTask(db, repo, actor, o);
    if actor.Worker? && repo.Some? && repo.value in db.repos {
      PrepareAsks(db.repos[repo.value], actor.wpc, actor.id, actor.snap, o.yes);
    }
  }

  lemma AskedMore(db: Shared, db': Shared, ask: Option<(int, string)>)
    requires db'.asked == AskLog(db.asked, ask)
    ensures forall id :: Asked(db', id) <==> Asked(db, id) || (ask.Some? && ask.value.0 == id)
  {
    forall id ensures Asked(db', id) <==> Asked(db, id) || (ask.Some? && ask.value.0 == id) {
      if Asked(db, id) {
        var i :| 0 <= i < |db.asked| && db.asked[i].0 == id;
        assert db'.asked[i].0 == id;
      }
      if ask.Some? && ask.value.0 == id {
        assert db'.asked[|db.asked|].0 == id;
      }
    }
  }

  lemma AskedWereClaimed(db: Shared)
    requires BranchesOk(db)
    ensures forall id | Asked(db, id) :: id in db.claimed
  {
  }

  lemma BranchesStay(db: Shared, db': Shared, ask: Option<(int, string)>)
    requires BranchesOk(db) && db'.asked == AskLog(db.asked, ask) && BranchesFrom(db.repos, db'.repos, ask)
    requires forall id | id in db.claimed :: id in db'.claimed
    requires ask.Some? ==> ask.value.0 in db.claimed && ask.value.0 >= 0 && !Asked(db, ask.value.0)
                           && IsValidTaskBranch(ask.value.1) && TaskIdOf(ask.value.1) == ask.value.0
    ensures BranchesOk(db')
  {
    AskedMore(db, db', ask);
    RequestsStay(db, db', ask);
    forall r, b | r in db'.repos && b in db'.repos[r].branches && IsValidTaskBranch(b)
      ensures Asked(db', TaskIdOf(b))
    {
      if r in db.repos && b in db.repos[r].branches {
        assert Asked(db, TaskIdOf(b));
      }
    }
  }

  lemma RequestsStay(db: Shared, db': Shared, ask: Option<(int, string)>)
    requires forall i, j | 0 <= i < j < |db.asked| :: db.asked[i].0 != db.asked[j].0
    requires db'.asked == AskLog(db.asked, ask) && (ask.Some? ==> !Asked(db, ask.value.0))
    ensures forall i, j | 0 <= i < j < |db'.asked| :: db'.asked[i].0 != db'.asked[j].0
  {
    forall i, j | 0 <= i < j < |db'.asked| ensures db'.asked[i].0 != db'.asked[j].0 {
      assert 0 <= i < |db.asked| && db'.asked[i] == db.asked[i];
      assert Asked(db, db.asked[i].0);
    }
  }

  /** An actor's request is for a claimed task that never asked before. */
  lemma AskIsNew(s: State, who: int)
    requires Inv(s) && who in s.actors
    ensures var ask := ActorAsk(s.db, RepoFor(s.repoOf, s.actors[who]), s.actors[who]);
            ask.Some? ==>
              && ask.value.0 in s.db.claimed && ask.value.0 >= 0 && !Asked(s.db, ask.value.0)
              && IsValidTaskBranch(ask.value.1) && TaskIdOf(ask.value.1) == ask.value.0
  {
    var actor := s.actors[who];
    if ActorAsk(s.db, RepoFor(s.repoOf, actor), actor).Some? {
      assert ActorOk(s.db.table, s.db.claimed, actor) && actor.id in Held(actor);
      assert Unasked(s.db, actor);
      TaskBranchNameReadsBack(actor.id, actor.snap.body);
    }
  }

  lemma BranchesKept(s: State, a: Action)
    requires Inv(s)
    ensures BranchesOk(Next(s, a).db)
    ensures forall b | b in Next(s, a).actors :: Unasked(Next(s, a).db, Next(s, a).actors[b])
  {
    if a.Step? && a.who in s.actors {
      StepLogs(s, a);
      StepShows(s, a);
      HistoryKept(s.db.table, Next(s, a).db.table, s.db.claimed, EffectOf(s, a));
      StepBranchesKept(s, a.who, a.oracle);
    } else {
      OtherBranchesKept(s, a);
    }
  }

  lemma OtherBranchesKept(s: State, a: Action)
    requires Inv(s) && !(a.Step? && a.who in s.actors)
    ensures BranchesOk(Next(s, a).db)
    ensures forall b | b in Next(s, a).actors :: Unasked(Next(s, a).db, Next(s, a).actors[b])
  {
    var s' := Next(s, a);
    assert s'.db.asked == s.db.asked && s'.db.claimed == s.db.claimed;
    if a.UserGit? {
      assert BranchesFrom(s.db.repos, s'.db.repos, None);
    } else {
      assert s'.db.repos == s.db.repos;
    }
    BranchesStay(s.db, s'.db, None);
    forall b | b in s'.actors ensures Unasked(s'.db, s'.actors[b]) {
      if b in s.actors { assert Unasked(s.db, s.actors[b]) && s'.actors[b] == s.actors[b]; }
    }
  }

  lemma StepBranchesKept(s: State, who: int, o: Oracle)
    requires Inv(s) && who in s.actors
    requires forall id | id in s.db.claimed :: id in Next(s, Step(who, o)).db.claimed
    ensures BranchesOk(Next(s, Step(who, o)).db)
    ensures forall b | b in Next(s, Step(who, o)).actors ::
              Unasked(Next(s, Step(who, o)).db, Next(s, Step(who, o)).actors[b])
  {
    var s' := Next(s, Step(who, o));
    var actor := s.actors[who];
    var repo := RepoFor(s.repoOf, actor);
    var ask := ActorAsk(s.db, repo, actor);
    AdvanceAsks(s.db, repo, actor, o);
    AskIsNew(s, who);
    BranchesStay(s.db, s'.db, ask);
    AskedMore(s.db, s'.db, ask);
    AskedWereClaimed(s.db);
    NotYetAsked(s.db, repo, actor, o);
    forall b | b in s'.actors ensures Unasked(s'.db, s'.actors[b]) {
      if b != who {
        assert s'.actors[b] == s.actors[b] && Unasked(s.db, s.actors[b]);
      } else {
        assert Unasked(s.db, actor);
      }
    }
  }

  // ---- completion notices -------------------------------------------------

  /** A debtor that steps announces, or was not a debtor. */
  lemma DebtorAnnounces(db: Shared, repo: Option<string>, actor: Actor, o: Oracle, id: int)
    requires Owes(actor, id)
    ensures id in Advance(db, repo, actor, o).0.told
  {
  }

  /** Whoever moves a row out of `running` becomes its debtor. */
  lemma WriterOwes(db: Shared, repo: Option<string>, actor: Actor, o: Oracle)
    requires ActorEffect(actor, o).Wrote? && ActorEffect(actor, o).id in db.table.rows
    ensures var (db', actor') := Advance(db, repo, actor, o);
            var id := ActorEffect(actor, o).id;
            id in db'.table.rows
            && (db'.table.rows[id].status != db.table.rows[id].status ==> actor'.Some? && Owes(actor'.value, id))
  {
  }

  lemma TrailGrows(db: Shared, repo: Option<string>, actor: Actor, o: Oracle)
    ensures db.told <= Advance(db, repo, actor, o).0.told
  {
  }

  lemma DebtsKept(s: State, a: Action, id: int)
    requires OwedBySomeone(s.actors, id)
    ensures var s' := Next(s, a); id in s'.db.told || id in s'.lost || OwedBySomeone(s'.actors, id)
  {
    var s' := Next(s, a);
    var b :| b in s.actors && Owes(s.actors[b], id);
    if a == Crash(b) {
      assert id in Owed(s.actors[b]);
    } else if a.Step? && a.who == b {
      DebtorAnnounces(s.db, RepoFor(s.repoOf, s.actors[b]), s.actors[b], a.oracle, id);
    } else {
      assert b in s'.actors && s'.actors[b] == s.actors[b];
    }
  }

  /** A claimed row outside `running` was so before, or this step wrote it out. */
  lemma LeftRunning(t: Table, t': Table, claimed: seq<int>, e: Effect, id: int)
    requires TableOk(t) && HistoryOk(t, claimed) && Shows(t, t', claimed, e)
    requires id in ClaimLog(t, claimed, e) && id in t'.rows && t'.rows[id].status != Running
    ensures id in claimed && id in t.rows
    ensures t.rows[id].status == Running ==> e == Wrote(id)
  {
    if e.Claimed? {
      ClaimShape(t, e.project, e.now);
    }
    assert id in claimed;
    assert WasClaimed(t, id);
  }

  lemma NoticesKept(s: State, a: Action)
    requires Inv(s)
    ensures NoticesOk(Next(s, a))
  {
    var s' := Next(s, a);
    var e := EffectOf(s, a);
    StepShows(s, a);
    StepLogs(s, a);
    if a.Step? && a.who in s.actors {
      TrailGrows(s.db, RepoFor(s.repoOf, s.actors[a.who]), s.actors[a.who], a.oracle);
    }
    forall id | id in s'.db.claimed && id in s'.db.table.rows && s'.db.table.rows[id].status != Running
      ensures id in s'.db.told || id in s'.lost || OwedBySomeone(s'.actors, id)
    {
      LeftRunning(s.db.table, s'.db.table, s.db.claimed, e, id);
      if s.db.table.rows[id].status == Running {
        WriterOwes(s.db, RepoFor(s.repoOf, s.actors[a.who]), s.actors[a.who], a.oracle);
        assert Owes(s'.actors[a.who], id);
      } else if OwedBySomeone(s.actors, id) {
        DebtsKept(s, a, id);
      }
    }
  }

  // ---- every step ---------------------------------------------------------

  lemma StepInv(s: State, a: Action)
    requires Inv(s)
    ensures Inv(Next(s, a))
    ensures Evolves(s.db.table, Next(s, a).db.table)
    ensures s.db.claimed <= Next(s, a).db.claimed
  {
    StepShows(s, a);
    StepLogs(s, a);
    TableKept(s.db.table, Next(s, a).db.table, s.db.claimed, EffectOf(s, a));
    EffectEvolves(s.db.table, Next(s, a).db.table, s.db.claimed, EffectOf(s, a));
    HistoryKept(s.db.table, Next(s, a).db.table, s.db.claimed, EffectOf(s, a));
    ActorsKept(s, a);
    BranchesKept(s, a);
    NoticesKept(s, a);
  }
}
