/** The acknowledgement a user reads agrees with what the worker later does. */
module AckAgreement {
  import opened Base
  import opened GitModel
  import opened GitNames
  import opened TaskTable
  import opened BranchPrep
  import opened ReplyRouter
  import opened QueueMachine
  import opened QueueSafety
  import opened QueueTheorems

  /** HEAD after preparation, against the sentence in the acknowledgement. */
  ghost predicate Honours(ack: Ack, before: Repo, after: Repo, id: nat, body: string) {
    match ack
    case ContinuePrior(branch) =>
      || CurrentBranch(after) == branch
      || (branch !in before.branches && CurrentBranch(after) == TaskBranchName(id, body))
    case ReadOnlyTask => after == before
    case Planned(branch) =>
      CurrentBranch(after) == branch && branch !in before.branches && branch in after.branches
  }

  lemma FreshHead(t: Table, r: Repo, id: nat, task: Task, allowed: bool)
    requires CreateFresh(t, r, id, task, allowed).ok
    ensures var p := CreateFresh(t, r, id, task, allowed);
            var name := TaskBranchName(id, task.body);
            CurrentBranch(p.repo) == name && name !in r.branches && name in p.repo.branches
  {
    var name := TaskBranchName(id, task.body);
    assert IsValidTaskBranch(name) by { TaskBranchNameReadsBack(id, task.body); }
    ValidIsNotHead(name);
  }

  /** If the enqueued row is later prepared successfully in a repository, whatever
      state that repository is in by then, the acknowledgement was true. */
  lemma AckAgreesWithPreparation(t: Table, r: Repo, id: nat, task: Task, prior: string, allowed: bool)
    requires prior != "" ==> IsValidTaskBranch(prior) && Strip(prior) == prior
    requires task.branch == prior
    requires Prepare(t, true, r, id, task, allowed).ok
    ensures Honours(FormatAck(id, prior, task.mutates, task.body), r,
                    Prepare(t, true, r, id, task, allowed).repo, id, task.body)
  {
    assert ValidPrior(task) == prior by { assert Strip("") == ""; }
    match Decide(true, r, task)
    case Fresh => FreshHead(t, r, id, task, allowed);
    case PriorGone => FreshHead(t, r, id, task, allowed);
    case Reuse => ValidIsNotHead(prior);
    case _ =>
  }

  /** A row nobody has claimed is still exactly what was enqueued, so the
      snapshot a worker gets is the enqueued row. */
  lemma ClaimedAsEnqueued(s: State, more: seq<Action>, who: int, o: Oracle, p: string, id: int)
    requires Inv(s) && IsPending(s.db.table, p, id)
    requires var now := Run(s, more);
             && who in now.actors && now.actors[who].Worker? && now.actors[who].wpc == Polling
             && ClaimSucceeds(now.db.table, EffectOf(now, Step(who, o)), p)
             && Claim(now.db.table, p, o.now).1 == Some(id)
    ensures var after := Next(Run(s, more), Step(who, o));
            && who in after.actors && after.actors[who].Worker? && after.actors[who].id == id
            && after.actors[who].snap == s.db.table.rows[id].(status := Running, startedAt := Stamp.At(o.now))
  {
    RunInv(s, more);
    var now := Run(s, more);
    ClaimShape(now.db.table, p, o.now);
    assert IsPending(now.db.table, p, id);
    assert StatusUp(s.db.table.rows[id].status, now.db.table.rows[id].status);
  }

  /** End to end: `apply_reply` enqueues with `prior`, the queue runs for however
      long with every actor interleaved, a worker claims the task and prepares it
      successfully: the acknowledgement sent at the start holds. */
  lemma AckHoldsAcrossTheQueue(s: State, project: string, body: string, prior: string, mutates: Option<bool>,
                               more: seq<Action>, who: int, o: Oracle, r: Repo, allowed: bool)
    requires Inv(s)
    requires prior != "" ==> IsValidTaskBranch(prior) && Strip(prior) == prior
    requires var start := Next(s, EnqueueTask(project, body, 0, prior, mutates));
             var now := Run(start, more);
             && who in now.actors && now.actors[who].Worker? && now.actors[who].wpc == Polling
             && ClaimSucceeds(now.db.table, EffectOf(now, Step(who, o)), project)
             && Claim(now.db.table, project, o.now).1 == Some(s.db.table.next)
    ensures var start := Next(s, EnqueueTask(project, body, 0, prior, mutates));
            var after := Next(Run(start, more), Step(who, o));
            && who in after.actors && after.actors[who].Worker?
            && var snap := after.actors[who].snap;
               Prepare(after.db.table, true, r, s.db.table.next, snap, allowed).ok ==>
                 Honours(FormatAck(s.db.table.next, prior, mutates, body), r,
                         Prepare(after.db.table, true, r, s.db.table.next, snap, allowed).repo, s.db.table.next, body)
  {
    var start := Next(s, EnqueueTask(project, body, 0, prior, mutates));
    StepInv(s, EnqueueTask(project, body, 0, prior, mutates));
    ClaimedAsEnqueued(start, more, who, o, project, s.db.table.next);
    var after := Next(Run(start, more), Step(who, o));
    var snap := after.actors[who].snap;
    if Prepare(after.db.table, true, r, s.db.table.next, snap, allowed).ok {
      AckAgreesWithPreparation(after.db.table, r, s.db.table.next, snap, prior, allowed);
    }
  }

  // ---- the same with git's steps interleaved ------------------------------

  predicate Preparing(actor: Actor, id: int) { actor.Worker? && actor.id == id && BeforeCreation(actor.wpc) }

  /** What a preparation reads off its snapshot is what was enqueued. */
  predicate SameRequest(snap: Task, row: Task) {
    snap.body == row.body && snap.branch == row.branch && snap.mutates == row.mutates
  }

  /** The enqueued row is unclaimed and as it was, or its workers have it as it was. */
  ghost predicate AsEnqueued(s: State, id: int, row: Task) {
    && id in s.db.table.rows
    && (s.db.table.rows[id].status == Pending ==> s.db.table.rows[id] == row)
    && (forall a | a in s.actors && Preparing(s.actors[a], id) :: SameRequest(s.actors[a].snap, row))
  }

  lemma MoverAsEnqueued(db: Shared, repo: Option<string>, actor: Actor, o: Oracle, id: int, row: Task)
    requires TableOk(db.table) && id in db.table.rows
    requires db.table.rows[id].status == Pending ==> db.table.rows[id] == row
    requires Preparing(actor, id) ==> SameRequest(actor.snap, row)
    ensures var actor' := Advance(db, repo, actor, o).1;
            actor'.Some? && Preparing(actor'.value, id) ==> SameRequest(actor'.value.snap, row)
  {
    if actor.Worker? && actor.wpc == Polling { ClaimShape(db.table, actor.project, o.now); }
    if actor.Worker? && BeforeCreation(actor.wpc) {
      assert WorkerStep(db, repo, actor, o).1 == actor.(wpc := WorkerStep(db, repo, actor, o).1.wpc);
    }
  }

  lemma StepAsEnqueued(s: State, a: Action, id: int, row: Task)
    requires Inv(s) && AsEnqueued(s, id, row)
    ensures AsEnqueued(Next(s, a), id, row)
  {
    var s' := Next(s, a);
    StepInv(s, a);
    assert StatusUp(s.db.table.rows[id].status, s'.db.table.rows[id].status);
    if a.Step? && a.who in s.actors {
      MoverAsEnqueued(s.db, RepoFor(s.repoOf, s.actors[a.who]), s.actors[a.who], a.oracle, id, row);
    }
    forall b | b in s'.actors && Preparing(s'.actors[b], id) ensures SameRequest(s'.actors[b].snap, row) {
      if b in s.actors && s'.actors[b] == s.actors[b] { assert Preparing(s.actors[b], id); }
    }
  }

  lemma StartAsEnqueued(s: State, project: string, body: string, prior: string, mutates: Option<bool>)
    requires Inv(s)
    ensures AsEnqueued(Next(s, EnqueueTask(project, body, 0, prior, mutates)), s.db.table.next,
                       NewTask(project, body, 0, None, prior, mutates))
    ensures forall a | a in s.actors :: !Preparing(s.actors[a], s.db.table.next)
  {
    NextIdUnheld(s);
  }

  lemma NextIdUnheld(s: State)
    requires Inv(s)
    ensures forall a | a in s.actors :: s.db.table.next !in Held(s.actors[a])
  {
    var id := s.db.table.next;
    assert id !in s.db.table.rows;
    assert !WasClaimed(s.db.table, id);
    assert id !in s.db.claimed;
    assert forall a | a in s.actors :: ActorOk(s.db.table, s.db.claimed, s.actors[a]);
  }

  /** At some point of the run the recorded branch did not exist in the repository. */
  ghost predicate GoneAtSomePoint(start: State, acts: seq<Action>, repoId: string, branch: string) {
    exists i: nat | i <= |acts| :: GoneAt(start, acts, i, repoId, branch)
  }

  predicate GoneAt(start: State, acts: seq<Action>, i: nat, repoId: string, branch: string)
    requires i <= |acts|
  {
    var repos := Run(start, acts[..i]).db.repos;
    repoId in repos && branch !in repos[repoId].branches
  }

  lemma GoneBefore(start: State, acts: seq<Action>, repoId: string, branch: string)
    requires acts != [] && GoneAtSomePoint(start, acts[..|acts| - 1], repoId, branch)
    ensures GoneAtSomePoint(start, acts, repoId, branch)
  {
    var front := acts[..|acts| - 1];
    var i: nat :| i <= |front| && GoneAt(start, front, i, repoId, branch);
    assert acts[..i] == front[..i];
    assert GoneAt(start, acts, i, repoId, branch);
  }

  lemma GoneNow(start: State, acts: seq<Action>, repoId: string, branch: string)
    requires acts != []
    requires var repos := Run(start, acts[..|acts| - 1]).db.repos; repoId in repos && branch !in repos[repoId].branches
    ensures GoneAtSomePoint(start, acts, repoId, branch)
  {
    assert GoneAt(start, acts, |acts| - 1, repoId, branch);
  }

  predicate OnNewBranchPath(pc: WorkerPc) { pc == CheckingFresh || pc == Creating }

  predicate OnPriorPath(pc: WorkerPc) {
    pc == ReadingHead || pc == CheckingSwitch || pc == LookingUpPrior || pc == SwitchingToPrior
  }

  /** A worker takes the path its snapshot asks for. */
  predicate PathOk(w: Actor)
    requires w.Worker?
  {
    && (OnPriorPath(w.wpc) ==> ValidPrior(w.snap) != "")
    && (OnNewBranchPath(w.wpc) && ValidPrior(w.snap) == "" ==> IsMutating(w.snap))
  }

  predicate LacksPrior(db: Shared, repo: Option<string>, snap: Task) {
    repo.Some? && repo.value in db.repos && ValidPrior(snap) !in db.repos[repo.value].branches
  }

  /** One step of a worker keeps it on its path; it enters the new-branch path
      without a usable prior, or finding it gone. */
  lemma MoverPath(db: Shared, repo: Option<string>, w: Actor, o: Oracle)
    requires w.Worker? && (BeforeCreation(w.wpc) ==> PathOk(w))
    ensures var w' := WorkerStep(db, repo, w, o).1;
            && w'.Worker? && w'.project == w.project
            && (BeforeCreation(w'.wpc) ==> PathOk(w'))
            && (OnNewBranchPath(w'.wpc) ==>
                  || OnNewBranchPath(w.wpc) || ValidPrior(w'.snap) == "" || LacksPrior(db, repo, w'.snap))
            && (BeforeCreation(w'.wpc) && w'.wpc != Deciding ==>
                  BeforeCreation(w.wpc) && w'.snap == w.snap && w'.id == w.id)
  {
    if BeforeCreation(w.wpc) && repo.Some? && repo.value in db.repos {
      var pc := PrepareStep(db.repos[repo.value], w.wpc, w.id, w.snap, o.yes).2;
      assert WorkerStep(db, repo, w, o).1 == w.(wpc := pc);
    }
  }

  /** How a worker of the enqueued task got where it is. */
  ghost predicate Story(start: State, acts: seq<Action>, w: Actor, repo: Option<string>, row: Task)
    requires w.Worker?
  {
    && SameRequest(w.snap, row) && PathOk(w)
    && (OnNewBranchPath(w.wpc) && ValidPrior(row) != "" ==>
          repo.Some? && GoneAtSomePoint(start, acts, repo.value, ValidPrior(row)))
  }

  ghost predicate Stories(start: State, acts: seq<Action>, id: int, row: Task) {
    var now := Run(start, acts);
    forall a | a in now.actors && Preparing(now.actors[a], id) ::
      Story(start, acts, now.actors[a], RepoFor(now.repoOf, now.actors[a]), row)
  }

  lemma StoryGoesOn(start: State, acts: seq<Action>, w: Actor, repo: Option<string>, row: Task)
    requires w.Worker? && acts != [] && Story(start, acts[..|acts| - 1], w, repo, row)
    ensures Story(start, acts, w, repo, row)
  {
    if OnNewBranchPath(w.wpc) && ValidPrior(row) != "" { GoneBefore(start, acts, repo.value, ValidPrior(row)); }
  }

  lemma MoverStory(start: State, acts: seq<Action>, who: int, o: Oracle, id: int, row: Task)
    requires acts != [] && acts[|acts| - 1] == Step(who, o)
    requires var front := acts[..|acts| - 1];
             && who in Run(start, front).actors && Run(start, front).actors[who].Worker?
             && Stories(start, front, id, row)
             && (BeforeCreation(Run(start, front).actors[who].wpc) ==> PathOk(Run(start, front).actors[who]))
    requires var now := Run(start, acts);
             who in now.actors && Preparing(now.actors[who], id) && SameRequest(now.actors[who].snap, row)
    ensures var now := Run(start, acts); Story(start, acts, now.actors[who], RepoFor(now.repoOf, now.actors[who]), row)
  {
    var before, now := Run(start, acts[..|acts| - 1]), Run(start, acts);
    var w0, w := before.actors[who], now.actors[who];
    var repo := RepoFor(before.repoOf, w0);
    MoverPath(before.db, repo, w0, o);
    assert WorkerStep(before.db, repo, w0, o).1 == w && RepoFor(now.repoOf, w) == repo;
    if OnNewBranchPath(w.wpc) && ValidPrior(row) != "" {
      if OnNewBranchPath(w0.wpc) {
        GoneBefore(start, acts, repo.value, ValidPrior(row));
      } else {
        GoneNow(start, acts, repo.value, ValidPrior(row));
      }
    }
  }

  /** Every worker in preparation is on its path. */
  ghost predicate PathsOk(s: State) {
    forall a | a in s.actors && s.actors[a].Worker? && BeforeCreation(s.actors[a].wpc) :: PathOk(s.actors[a])
  }

  lemma StepPaths(s: State, a: Action)
    requires PathsOk(s)
    ensures PathsOk(Next(s, a))
  {
    if a.Step? && a.who in s.actors && s.actors[a.who].Worker? {
      MoverPath(s.db, RepoFor(s.repoOf, s.actors[a.who]), s.actors[a.who], a.oracle);
    }
  }

  /** Whoever a step brings into preparation took that step. */
  lemma MoverPrepares(s: State, a: Action, b: int, id: int)
    requires b in Next(s, a).actors && Preparing(Next(s, a).actors[b], id)
    requires b in s.actors ==> s.actors[b] != Next(s, a).actors[b]
    ensures a.Step? && a.who == b && b in s.actors && s.actors[b].Worker?
  {
  }

  lemma StoriesKept(start: State, acts: seq<Action>, id: int, row: Task)
    requires acts != []
    requires var front := acts[..|acts| - 1];
             Stories(start, front, id, row) && PathsOk(Run(start, front))
    requires AsEnqueued(Run(start, acts), id, row)
    ensures Stories(start, acts, id, row)
  {
    var before, now := Run(start, acts[..|acts| - 1]), Run(start, acts);
    var a := acts[|acts| - 1];
    forall b | b in now.actors && Preparing(now.actors[b], id)
      ensures Story(start, acts, now.actors[b], RepoFor(now.repoOf, now.actors[b]), row)
    {
      if b in before.actors && before.actors[b] == now.actors[b] {
        StoryGoesOn(start, acts, now.actors[b], RepoFor(now.repoOf, now.actors[b]), row);
      } else {
        MoverPrepares(before, a, b, id);
        MoverStory(start, acts, b, a.oracle, id, row);
      }
    }
  }

  lemma {:induction false} RunStories(start: State, acts: seq<Action>, id: int, row: Task)
    requires Inv(start) && AsEnqueued(start, id, row) && PathsOk(start)
    requires forall a | a in start.actors :: !Preparing(start.actors[a], id)
    ensures AsEnqueued(Run(start, acts), id, row) && PathsOk(Run(start, acts)) && Stories(start, acts, id, row)
  {
    RunAsEnqueued(start, acts, id, row);
    if acts != [] {
      var front := acts[..|acts| - 1];
      RunStories(start, front, id, row);
      StepPaths(Run(start, front), acts[|acts| - 1]);
      StoriesKept(start, acts, id, row);
    }
  }

  lemma {:induction false} RunAsEnqueued(start: State, acts: seq<Action>, id: int, row: Task)
    requires Inv(start) && AsEnqueued(start, id, row)
    ensures Inv(Run(start, acts)) && AsEnqueued(Run(start, acts), id, row)
  {
    RunInv(start, acts);
    if acts != [] {
      RunAsEnqueued(start, acts[..|acts| - 1], id, row);
      StepAsEnqueued(Run(start, acts[..|acts| - 1]), acts[|acts| - 1], id, row);
    }
  }

  /** The step on which a preparation succeeds, against the acknowledgement. */
  ghost predicate HonouredBy(ack: Ack, before: Repo, after: Repo, id: nat, body: string, gone: bool) {
    match ack
    case ContinuePrior(branch) =>
      CurrentBranch(after) == branch || (gone && CurrentBranch(after) == TaskBranchName(id, body))
    case ReadOnlyTask => after == before
    case Planned(branch) => CurrentBranch(after) == branch && branch !in before.branches && branch in after.branches
  }

  lemma CreationHonours(r: Repo, id: nat, snap: Task, yes: bool)
    requires PrepareStep(r, Creating, id, snap, yes).2.RecordingBranch?
    ensures var (r', ask, pc') := PrepareStep(r, Creating, id, snap, yes);
            var name := TaskBranchName(id, snap.body);
            CurrentBranch(r') == name && name !in r.branches && name in r'.branches
  {
    var name := TaskBranchName(id, snap.body);
    assert IsValidTaskBranch(name) by { TaskBranchNameReadsBack(id, snap.body); }
    ValidIsNotHead(name);
  }

  /** The one git command on which a preparation ends in success. */
  lemma SuccessHonours(r: Repo, w: Actor, id: nat, prior: string, yes: bool, gone: bool)
    requires w.Worker? && BeforeCreation(w.wpc) && PathOk(w) && w.snap.branch == prior
    requires prior != "" ==> IsValidTaskBranch(prior) && Strip(prior) == prior
    requires OnNewBranchPath(w.wpc) ==> prior == "" || gone
    ensures var (r', _, pc') := PrepareStep(r, w.wpc, id, w.snap, yes);
            pc' == Launching || pc'.RecordingBranch? ==>
              HonouredBy(FormatAck(id, prior, w.snap.mutates, w.snap.body), r, r', id, w.snap.body, gone)
  {
    assert ValidPrior(w.snap) == prior by { assert Strip("") == ""; }
    if w.wpc == Creating {
      if PrepareStep(r, Creating, id, w.snap, yes).2.RecordingBranch? { CreationHonours(r, id, w.snap, yes); }
    } else if w.wpc == SwitchingToPrior {
      ValidIsNotHead(prior);
    }
  }

  lemma StepInRepo(s: State, who: int, o: Oracle, repoId: string)
    requires who in s.actors && s.actors[who].Worker? && BeforeCreation(s.actors[who].wpc)
    requires RepoFor(s.repoOf, s.actors[who]) == Some(repoId) && repoId in s.db.repos
    ensures var w, after := s.actors[who], Next(s, Step(who, o));
            var (r', _, pc') := PrepareStep(s.db.repos[repoId], w.wpc, w.id, w.snap, o.yes);
            && who in after.actors && after.actors[who] == w.(wpc := pc')
            && repoId in after.db.repos && after.db.repos[repoId] == r'
  {
  }

  lemma AckHoldsFrom(s: State, project: string, body: string, prior: string, mutates: Option<bool>,
                           acts: seq<Action>, who: int, o: Oracle, repoId: string)
    requires Inv(s) && PathsOk(s)
    requires prior != "" ==> IsValidTaskBranch(prior) && Strip(prior) == prior
    requires var now := Run(Next(s, EnqueueTask(project, body, 0, prior, mutates)), acts);
             && who in now.actors && Preparing(now.actors[who], s.db.table.next)
             && RepoFor(now.repoOf, now.actors[who]) == Some(repoId) && repoId in now.db.repos
    ensures
      var start := Next(s, EnqueueTask(project, body, 0, prior, mutates));
      var now := Run(start, acts);
      var after := Next(now, Step(who, o));
      && who in after.actors && after.actors[who].Worker? && repoId in after.db.repos
      && (after.actors[who].wpc == Launching || after.actors[who].wpc.RecordingBranch? ==>
            HonouredBy(FormatAck(s.db.table.next, prior, mutates, body), now.db.repos[repoId], after.db.repos[repoId],
                       s.db.table.next, body, GoneAtSomePoint(start, acts, repoId, prior)))
  {
    var id, row := s.db.table.next, NewTask(project, body, 0, None, prior, mutates);
    var start := Next(s, EnqueueTask(project, body, 0, prior, mutates));
    StepInv(s, EnqueueTask(project, body, 0, prior, mutates));
    StartAsEnqueued(s, project, body, prior, mutates);
    RunStories(start, acts, id, row);
    var now := Run(start, acts);
    var w := now.actors[who];
    assert Story(start, acts, w, Some(repoId), row);
    assert ValidPrior(row) == prior by { assert Strip("") == ""; }
    StepInRepo(now, who, o, repoId);
    SuccessHonours(now.db.repos[repoId], w, id, prior, o.yes, GoneAtSomePoint(start, acts, repoId, prior));
  }

  /** From an empty queue every worker is on its path. */
  lemma {:induction false} PathsFromStart(s: State, acts: seq<Action>)
    requires Init(s)
    ensures PathsOk(Run(s, acts))
  {
    if acts != [] {
      PathsFromStart(s, acts[..|acts| - 1]);
      StepPaths(Run(s, acts[..|acts| - 1]), acts[|acts| - 1]);
    }
  }
  /** End to end with every git command interleaved: `apply_reply` enqueues with
      `prior` into the state any run from an empty queue left; after any further
      run, when a worker of the task takes the step on which its preparation
      succeeds, that step's repository honours the acknowledgement. A fresh branch
      instead of the prior means the prior was gone at some point of the run after
      the enqueue. */
  lemma AckHoldsStepByStep(s: State, earlier: seq<Action>, project: string, body: string, prior: string,
                           mutates: Option<bool>, acts: seq<Action>, who: int, o: Oracle, repoId: string)
    requires Init(s) && (prior != "" ==> IsValidTaskBranch(prior) && Strip(prior) == prior)
    requires var now := Run(Next(Run(s, earlier), EnqueueTask(project, body, 0, prior, mutates)), acts);
             && who in now.actors && Preparing(now.actors[who], Run(s, earlier).db.table.next)
             && RepoFor(now.repoOf, now.actors[who]) == Some(repoId) && repoId in now.db.repos
    ensures
      var id := Run(s, earlier).db.table.next;
      var start := Next(Run(s, earlier), EnqueueTask(project, body, 0, prior, mutates));
      var now := Run(start, acts);
      var after := Next(now, Step(who, o));
      && who in after.actors && after.actors[who].Worker? && repoId in after.db.repos
      && (after.actors[who].wpc == Launching || after.actors[who].wpc.RecordingBranch? ==>
            HonouredBy(FormatAck(id, prior, mutates, body), now.db.repos[repoId], after.db.repos[repoId],
                       id, body, GoneAtSomePoint(start, acts, repoId, prior)))
  {
    InitInv(s);
    RunInv(s, earlier);
    PathsFromStart(s, earlier);
    AckHoldsFrom(Run(s, earlier), project, body, prior, mutates, acts, who, o, repoId);
  }
}
