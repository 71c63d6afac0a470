/** When a finished row stays as it was finished: over every run, exactly when no
    actor that still holds it may yet write another status to it. */
module QueueFinality {
  import opened Base
  import opened GitModel
  import opened GitNames
  import opened TaskTable
  import opened BranchPrep
  import opened ProjectWorker
  import opened GhostReaper
  import opened QueueMachine
  import opened QueueSafety
  import opened QueueTheorems

  predicate InRepo(db: Shared, repo: Option<string>) { repo.Some? && repo.value in db.repos }

  /** A worker at this point of its preparation can still be refused. */
  predicate MayBeRefused(pc: WorkerPc, snap: Task) {
    match pc
    case Deciding => ValidPrior(snap) != "" || IsMutating(snap)
    case ReadingHead => true
    case CheckingSwitch => true
    case LookingUpPrior => true
    case SwitchingToPrior => true
    case CheckingFresh => true
    case Creating => true
    case _ => false
  }

  /** A snapshot row that a sweep may take for a ghost. */
  predicate MayBeGhost(row: Task, now: int) { PidOf(row) > 0 || !Young(row, now) }

  predicate ListsGhost(todo: seq<(int, Task)>, now: int, id: int) {
    exists i | 0 <= i < |todo| :: todo[i].0 == id && MayBeGhost(todo[i].1, now)
  }

  /** The status an actor may yet write to a finished row `id`, read off its local
      variables; `inRepo` says whether its project is a repository. */
  function MayWrite(actor: Actor, inRepo: bool, id: int): Option<Status> {
    match actor
    case Worker(_, pc, i, snap) =>
      if i != id then None
      else if pc.Refusing? || (inRepo && MayBeRefused(pc, snap)) then Some(Failed)
      else if pc.Marking? then Some(if pc.exit == Code(0) then Done else Failed)
      else None
    case Canceller(_, _, pc, i) => if i == id && pc == Cancelling then Some(Cancelled) else None
    case Reaper(todo, pc, now, i) =>
      if (i == id && pc.Failing?) || ListsGhost(todo, now, id) then Some(Failed) else None
    case Retrier(_, _, _) => None
  }

  function MayWriteIn(s: State, a: int, id: int): Option<Status>
    requires a in s.actors
  {
    MayWrite(s.actors[a], InRepo(s.db, RepoFor(s.repoOf, s.actors[a])), id)
  }

  /** Nobody may yet write anything but `st` to the row. */
  ghost predicate Settled(s: State, id: int, st: Status) {
    forall a | a in s.actors :: MayWriteIn(s, a, id) in {None, Some(st)}
  }

  predicate HasStatus(s: State, id: int, st: Status) { id in s.db.table.rows && s.db.table.rows[id].status == st }

  // ---- settled rows stay --------------------------------------------------

  /** One step of an actor on a finished row: it writes at most what it might,
      and afterwards might write nothing new. */
  ghost predicate Settles(before: Option<Status>, after: Option<Status>, t: Table, t': Table, id: int)
    requires id in t.rows
  {
    && id in t'.rows && after in {None, before}
    && (t'.rows[id].status == t.rows[id].status || before == Some(t'.rows[id].status))
  }

  lemma PrepareSettles(r: Repo, pc: WorkerPc, id: int, snap: Task, yes: bool)
    ensures var pc' := PrepareStep(r, pc, id, snap, yes).2;
            (MayBeRefused(pc', snap) || pc'.Refusing? ==> MayBeRefused(pc, snap) || pc' == pc)
            && (pc'.Marking? ==> pc' == pc)
  {
  }

  lemma PreparingSettles(db: Shared, repo: Option<string>, w: Actor, o: Oracle, id: int)
    requires w.Worker? && BeforeCreation(w.wpc) && id in db.table.rows
    ensures var (db', w') := WorkerStep(db, repo, w, o);
            Settles(MayWrite(w, InRepo(db, repo), id), MayWrite(w', InRepo(db, repo), id), db.table, db'.table, id)
  {
    if InRepo(db, repo) {
      PrepareSettles(db.repos[repo.value], w.wpc, w.id, w.snap, o.yes);
      var pc := PrepareStep(db.repos[repo.value], w.wpc, w.id, w.snap, o.yes).2;
      assert WorkerStep(db, repo, w, o).1 == w.(wpc := pc) && WorkerStep(db, repo, w, o).0.table == db.table;
    } else {
      assert WorkerStep(db, repo, w, o) == (db, if w.wpc == Deciding then w.(wpc := Launching) else w);
    }
  }

  lemma ClaimSettles(db: Shared, repo: Option<string>, w: Actor, o: Oracle, id: int)
    requires w.Worker? && w.wpc == Polling && TableOk(db.table)
    requires id in db.table.rows && Terminal(db.table.rows[id].status)
    ensures var (db', w') := WorkerStep(db, repo, w, o);
            Settles(MayWrite(w, InRepo(db, repo), id), MayWrite(w', InRepo(db, repo), id), db.table, db'.table, id)
  {
    ClaimShape(db.table, w.project, o.now);
  }

  lemma WorkerSettles(db: Shared, repo: Option<string>, w: Actor, o: Oracle, id: int)
    requires w.Worker? && TableOk(db.table) && id in db.table.rows && Terminal(db.table.rows[id].status)
    ensures var (db', w') := WorkerStep(db, repo, w, o);
            Settles(MayWrite(w, InRepo(db, repo), id), MayWrite(w', InRepo(db, repo), id), db.table, db'.table, id)
  {
    if w.wpc == Polling {
      ClaimSettles(db, repo, w, o, id);
    } else if BeforeCreation(w.wpc) {
      PreparingSettles(db, repo, w, o, id);
    }
  }

  lemma SnapshotLists(t: Table, n: nat, now: int, id: int)
    requires id in t.rows && t.rows[id].status != Running
    ensures !ListsGhost(RunningRowsBelow(t, n), now, id)
  {
  }

  lemma ReaperSettles(db: Shared, r: Actor, o: Oracle, id: int)
    requires r.Reaper? && id in db.table.rows && Terminal(db.table.rows[id].status)
    ensures var (db', r') := ReaperStep(db, r, o);
            Settles(MayWrite(r, false, id), MayWrite(r', false, id), db.table, db'.table, id)
  {
    if r.rpc == Sweeping {
      if r.todo == [] {
        SnapshotLists(db.table, db.table.next, o.now, id);
      } else {
        RestListsLess(r.todo, r.now, id);
      }
    }
  }

  lemma RestListsLess(todo: seq<(int, Task)>, now: int, id: int)
    requires todo != []
    ensures ListsGhost(todo, now, id) <==>
              (todo[0].0 == id && MayBeGhost(todo[0].1, now)) || ListsGhost(todo[1..], now, id)
  {
    var rest := todo[1..];
    assert forall i | 0 <= i < |rest| :: rest[i] == todo[i + 1];
    if ListsGhost(todo, now, id) {
      var i :| 0 <= i < |todo| && todo[i].0 == id && MayBeGhost(todo[i].1, now);
      assert i > 0 ==> rest[i - 1] == todo[i];
    }
  }

  lemma AdvanceSettles(db: Shared, repo: Option<string>, actor: Actor, o: Oracle, id: int)
    requires TableOk(db.table) && id in db.table.rows && Terminal(db.table.rows[id].status)
    ensures var (db', actor') := Advance(db, repo, actor, o);
            var inRepo := InRepo(db, repo);
            Settles(MayWrite(actor, inRepo, id), if actor'.Some? then MayWrite(actor'.value, inRepo, id) else None,
                    db.table, db'.table, id)
  {
    match actor
    case Worker(_, _, _, _) => WorkerSettles(db, repo, actor, o, id);
    case Reaper(_, _, _, _) => ReaperSettles(db, actor, o, id);
    case Canceller(_, _, _, _) =>
    case Retrier(_, _, _) =>
  }

  /** No step adds or removes a repository. */
  lemma ReposStay(s: State, a: Action)
    ensures Next(s, a).db.repos.Keys == s.db.repos.Keys && Next(s, a).repoOf == s.repoOf
  {
  }

  /** The mover is the actor it was, or the same kind on the same project. */
  lemma SameProject(db: Shared, repo: Option<string>, actor: Actor, o: Oracle)
    ensures var actor' := Advance(db, repo, actor, o).1;
            actor'.Some? ==>
              (actor'.value.Worker? <==> actor.Worker?) && (actor.Worker? ==> actor'.value.project == actor.project)
  {
  }

  lemma StepSettles(s: State, a: Action, id: int, st: Status)
    requires Inv(s) && Terminal(st) && HasStatus(s, id, st) && Settled(s, id, st)
    ensures HasStatus(Next(s, a), id, st) && Settled(Next(s, a), id, st)
  {
    var s' := Next(s, a);
    ReposStay(s, a);
    if a.Step? && a.who in s.actors {
      var actor := s.actors[a.who];
      AdvanceSettles(s.db, RepoFor(s.repoOf, actor), actor, a.oracle, id);
      SameProject(s.db, RepoFor(s.repoOf, actor), actor, a.oracle);
      assert MayWriteIn(s, a.who, id) in {None, Some(st)};
    }
    forall b | b in s'.actors ensures MayWriteIn(s', b, id) in {None, Some(st)} {
      if b in s.actors && s'.actors[b] == s.actors[b] {
        assert MayWriteIn(s, b, id) == MayWriteIn(s', b, id);
      }
    }
  }

  /** Over every run from there, the row stays finished as it was. */
  lemma {:induction false} SettledStays(s: State, acts: seq<Action>, id: int, st: Status)
    requires Inv(s) && Terminal(st) && HasStatus(s, id, st) && Settled(s, id, st)
    ensures HasStatus(Run(s, acts), id, st) && Settled(Run(s, acts), id, st)
  {
    if acts != [] {
      RunInv(s, acts[..|acts| - 1]);
      SettledStays(s, acts[..|acts| - 1], id, st);
      StepSettles(Run(s, acts[..|acts| - 1]), acts[|acts| - 1], id, st);
    }
  }

  /** In particular when nobody holds the id any more. */
  lemma NobodyHolds(s: State, id: int, st: Status)
    requires Unheld(s, id)
    ensures Settled(s, id, st)
  {
    forall a | a in s.actors ensures MayWriteIn(s, a, id) == None {
      var actor := s.actors[a];
      assert id !in Held(actor);
      if actor.Reaper? { assert forall i | 0 <= i < |actor.todo| :: actor.todo[i].0 in Held(actor); }
    }
  }

  lemma MoverKeepsOff(db: Shared, repo: Option<string>, actor: Actor, o: Oracle, id: int)
    requires TableOk(db.table) && id in db.table.rows && Terminal(db.table.rows[id].status) && id !in Held(actor)
    ensures var actor' := Advance(db, repo, actor, o).1; actor'.Some? ==> id !in Held(actor'.value)
  {
    match actor
    case Worker(_, pc, _, _) =>
      if pc == Polling { ClaimShape(db.table, actor.project, o.now); }
    case Reaper(todo, pc, _, _) =>
      assert forall i | 0 <= i < |todo| :: todo[i].0 in Held(actor);
      if todo != [] { assert forall i | 0 <= i < |todo[1..]| :: todo[1..][i] == todo[i + 1]; }
    case _ =>
  }

  ghost predicate Unheld(s: State, id: int) { forall a | a in s.actors :: id !in Held(s.actors[a]) }

  lemma StepKeepsOff(s: State, a: Action, id: int)
    requires Inv(s) && id in s.db.table.rows && Terminal(s.db.table.rows[id].status) && Unheld(s, id)
    ensures Unheld(Next(s, a), id)
  {
    if a.Step? && a.who in s.actors {
      MoverKeepsOff(s.db, RepoFor(s.repoOf, s.actors[a.who]), s.actors[a.who], a.oracle, id);
    }
  }

  /** A finished row that nobody holds is nobody's for good, and keeps its status. */
  lemma {:induction false} UnheldIsFinal(s: State, acts: seq<Action>, id: int, st: Status)
    requires Inv(s) && Terminal(st) && HasStatus(s, id, st) && Unheld(s, id)
    ensures HasStatus(Run(s, acts), id, st) && Unheld(Run(s, acts), id)
  {
    if acts != [] {
      var front := acts[..|acts| - 1];
      UnheldIsFinal(s, front, id, st);
      RunInv(s, front);
      NobodyHolds(Run(s, front), id, st);
      StepKeepsOff(Run(s, front), acts[|acts| - 1], id);
      StepSettles(Run(s, front), acts[|acts| - 1], id, st);
    }
  }

  // ---- and unsettled ones need not ----------------------------------------

  lemma RunOne(s: State, a: Action)
    ensures Run(s, [a]) == Next(s, a)
  {
    assert [a][..0] == [];
  }

  lemma RunFirst(s: State, a: Action, acts: seq<Action>)
    ensures Run(s, [a] + acts) == Run(Next(s, a), acts)
  {
    RunOne(s, a);
    RunAppend(s, [a], acts);
  }

  /** The world is against it: git refuses, the process is gone. */
  const AGAINST := Oracle(false, 0, 0, TimedOutExit, "")

  function PcRank(pc: WorkerPc): nat {
    match pc
    case Deciding => 6
    case ReadingHead => 5
    case CheckingSwitch => 4
    case LookingUpPrior => 3
    case SwitchingToPrior => 2
    case CheckingFresh => 2
    case Creating => 1
    case _ => 0
  }

  /** Somebody leaves the tree dirty with HEAD elsewhere. */
  function Disturbed(r: Repo, prior: string): Repo {
    r.(head := if prior == "" then Some("x") else None, dirty := true)
  }

  /** A worker that may be refused, and its repository. */
  ghost predicate Refusable(s: State, who: int, id: int) {
    && who in s.actors && s.actors[who].Worker? && s.actors[who].id == id >= 0 && id in s.db.table.rows
    && (s.actors[who].wpc.Refusing?
        || (InRepo(s.db, RepoFor(s.repoOf, s.actors[who])) && MayBeRefused(s.actors[who].wpc, s.actors[who].snap)))
  }

  function Unfriendly(s: State, who: int): State
    requires who in s.actors && s.actors[who].Worker? && InRepo(s.db, RepoFor(s.repoOf, s.actors[who]))
  {
    var repoId := RepoFor(s.repoOf, s.actors[who]).value;
    Next(s, UserGit(repoId, Disturbed(s.db.repos[repoId], ValidPrior(s.actors[who].snap))))
  }

  /** After that, one step of the worker brings it nearer to its refusal. */
  lemma NearerToRefusal(s: State, who: int, id: int)
    requires Refusable(s, who, id) && !s.actors[who].wpc.Refusing?
    ensures var s' := Next(Unfriendly(s, who), Step(who, AGAINST));
            && Refusable(s', who, id)
            && PcRank(s'.actors[who].wpc) < PcRank(s.actors[who].wpc)
  {
    var w := s.actors[who];
    var repoId := RepoFor(s.repoOf, w).value;
    var r := Disturbed(s.db.repos[repoId], ValidPrior(w.snap));
    assert HandMade(s.db.repos[repoId], r);
    var u := Unfriendly(s, who);
    assert u == s.(db := s.db.(repos := s.db.repos[repoId := r]));
    RefusedSoon(r, w.wpc, id, w.snap);
    RefusalStep(u.db, repoId, w);
  }

  lemma RefusalStep(db: Shared, repoId: string, w: Actor)
    requires w.Worker? && BeforeCreation(w.wpc) && repoId in db.repos
    ensures var (db', w') := WorkerStep(db, Some(repoId), w, AGAINST);
            && w' == w.(wpc := PrepareStep(db.repos[repoId], w.wpc, w.id, w.snap, false).2)
            && db'.table == db.table && db'.repos.Keys == db.repos.Keys
  {
  }

  lemma RefusedSoon(r: Repo, pc: WorkerPc, id: int, snap: Task)
    requires MayBeRefused(pc, snap) && id >= 0
    requires r.dirty && CurrentBranch(r) != ValidPrior(snap)
    ensures var pc' := PrepareStep(r, pc, id, snap, false).2;
            (pc'.Refusing? || MayBeRefused(pc', snap)) && PcRank(pc') < PcRank(pc)
  {
    match pc
    case Creating =>
      var name := TaskBranchName(id, snap.body);
      assert PrepareStep(r, pc, id, snap, false).2 == Refusing(CreateRefused(name));
    case SwitchingToPrior =>
      assert PrepareStep(r, pc, id, snap, false).2 == Refusing(CheckoutRefused(ValidPrior(snap)));
    case _ =>
  }

  lemma {:induction false} WorkerCanFail(s: State, who: int, id: int) returns (acts: seq<Action>)
    requires Refusable(s, who, id)
    decreases PcRank(s.actors[who].wpc)
    ensures HasStatus(Run(s, acts), id, Failed)
  {
    var w := s.actors[who];
    if w.wpc.Refusing? {
      acts := [Step(who, AGAINST)];
      RunOne(s, Step(who, AGAINST));
    } else {
      var repoId := RepoFor(s.repoOf, w).value;
      var git := UserGit(repoId, Disturbed(s.db.repos[repoId], ValidPrior(w.snap)));
      NearerToRefusal(s, who, id);
      var rest := WorkerCanFail(Next(Unfriendly(s, who), Step(who, AGAINST)), who, id);
      RunFirst(Unfriendly(s, who), Step(who, AGAINST), rest);
      RunFirst(s, git, [Step(who, AGAINST)] + rest);
      acts := [git] + ([Step(who, AGAINST)] + rest);
    }
  }

  function RpcRank(pc: ReapPc): nat { if pc.Failing? then 2 else if pc == Reporting then 1 else 0 }

  ghost predicate Reapable(s: State, who: int, id: int) {
    && who in s.actors && s.actors[who].Reaper? && id in s.db.table.rows
    && ((s.actors[who].rpc.Failing? && s.actors[who].id == id) || ListsGhost(s.actors[who].todo, s.actors[who].now, id))
  }

  /** One step of a reaper that has the row before it fails it, or comes nearer. */
  lemma NearerToReaping(s: State, who: int, id: int)
    requires Reapable(s, who, id)
    ensures var r, s' := s.actors[who], Next(s, Step(who, AGAINST));
            HasStatus(s', id, Failed)
            || (Reapable(s', who, id)
                && (|s'.actors[who].todo| < |r.todo|
                    || (|s'.actors[who].todo| == |r.todo| && RpcRank(s'.actors[who].rpc) < RpcRank(r.rpc))))
  {
    var r := s.actors[who];
    if r.rpc == Sweeping { RestListsLess(r.todo, r.now, id); }
  }

  lemma {:induction false} ReaperCanFail(s: State, who: int, id: int) returns (acts: seq<Action>)
    requires Reapable(s, who, id)
    decreases |s.actors[who].todo|, RpcRank(s.actors[who].rpc)
    ensures HasStatus(Run(s, acts), id, Failed)
  {
    var next := Next(s, Step(who, AGAINST));
    NearerToReaping(s, who, id);
    if HasStatus(next, id, Failed) {
      acts := [Step(who, AGAINST)];
      RunOne(s, Step(who, AGAINST));
    } else {
      var rest := ReaperCanFail(next, who, id);
      RunFirst(s, Step(who, AGAINST), rest);
      acts := [Step(who, AGAINST)] + rest;
    }
  }

  /** Whatever an actor may write to a finished row, some run has it written. */
  lemma MayMeansCan(s: State, who: int, id: int) returns (acts: seq<Action>)
    requires WellFormed(s.db.table) && id in s.db.table.rows && who in s.actors && MayWriteIn(s, who, id).Some?
    ensures HasStatus(Run(s, acts), id, MayWriteIn(s, who, id).value)
  {
    var actor := s.actors[who];
    if actor.Worker? && MayWriteIn(s, who, id) == Some(Failed) && !actor.wpc.Marking? {
      acts := WorkerCanFail(s, who, id);
    } else if actor.Reaper? {
      acts := ReaperCanFail(s, who, id);
    } else {
      acts := [Step(who, AGAINST)];
      RunOne(s, Step(who, AGAINST));
    }
  }

  /** A finished row keeps its status over every run exactly when no actor may
      yet write another one to it. */
  lemma FinalExactlyWhen(s: State, id: int, st: Status)
    requires Inv(s) && Terminal(st) && HasStatus(s, id, st)
    ensures (forall acts :: HasStatus(Run(s, acts), id, st)) <==> Settled(s, id, st)
  {
    if Settled(s, id, st) {
      forall acts ensures HasStatus(Run(s, acts), id, st) {
        SettledStays(s, acts, id, st);
      }
    } else {
      var a :| a in s.actors && MayWriteIn(s, a, id) !in {None, Some(st)};
      var acts := MayMeansCan(s, a, id);
      assert !HasStatus(Run(s, acts), id, st);
    }
  }
}
