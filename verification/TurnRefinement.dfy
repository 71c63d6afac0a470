/** The interleaved worker, left alone, does one turn: the small steps of the
    queue machine refine the one-call turn of the project worker. */
module TurnRefinement {
  import opened Base
  import opened GitModel
  import opened GitNames
  import opened TaskTable
  import opened BranchPrep
  import opened ProjectWorker
  import opened QueueMachine

  /** One step of a worker nobody disturbs, except that somebody may cancel its
      row while the process runs. */
  function Alone(db: Shared, repo: Option<string>, w: Actor, o: Oracle, cancelled: bool): (Shared, Actor)
    requires w.Worker?
    ensures Alone(db, repo, w, o, cancelled).1.Worker?
  {
    WorkerStep(if cancelled && w.wpc == Waiting then db.(table := Cancel(db.table, w.id)) else db, repo, w, o)
  }

  /** At most `n` such steps, until the worker polls again. */
  function Steps(db: Shared, repo: Option<string>, w: Actor, o: Oracle, cancelled: bool, n: nat): (Shared, Actor)
    requires w.Worker?
    decreases n
  {
    if n == 0 || w.wpc == Polling then (db, w)
    else
      var (db', w') := Alone(db, repo, w, o, cancelled);
      Steps(db', repo, w', o, cancelled, n - 1)
  }

  predicate InRepo(db: Shared, repo: Option<string>) { repo.Some? && repo.value in db.repos }

  function With(repos: map<string, Repo>, repo: Option<string>, r: Repo): map<string, Repo> {
    if repo.Some? && repo.value in repos then repos[repo.value := r] else repos
  }

  /** The repository the worker sees; any value where there is none. */
  predicate SeesRepo(db: Shared, repo: Option<string>, r: Repo) { InRepo(db, repo) ==> db.repos[repo.value] == r }

  /** The worker gets back to polling and everything ends as `turn` says. */
  ghost predicate EndsAs(db: Shared, repo: Option<string>, w: Actor, o: Oracle, cancelled: bool, n: nat, turn: Turn)
    requires w.Worker?
  {
    var (db', w') := Steps(db, repo, w, o, cancelled, n);
    && w' == w.(wpc := Polling)
    && db'.table == turn.table && db'.claimed == db.claimed
    && db'.told == db.told + (if turn.told then {w.id} else {})
    && db'.repos == With(db.repos, repo, turn.repo)
  }

  function WorldOf(o: Oracle, cancelled: bool): TurnWorld { TurnWorld(o.yes, o.pid, cancelled, o.exit, o.text) }

  lemma FinishingEnds(db: Shared, repo: Option<string>, r: Repo, w: Actor, o: Oracle, cancelled: bool, n: nat)
    requires w.Worker? && w.wpc == Finishing && n >= 1 && SeesRepo(db, repo, r)
    ensures EndsAs(db, repo, w, o, cancelled, n, Turn(db.table, r, true))
  {
    assert Alone(db, repo, w, o, cancelled) == (db.(told := db.told + {w.id}), w.(wpc := Polling));
  }

  /** One step to `db'` and `pc`, then the rest. */
  lemma EndsAfter(db: Shared, repo: Option<string>, w: Actor, o: Oracle, cancelled: bool, n: nat, turn: Turn,
                  db': Shared, pc: WorkerPc, r: Repo)
    requires w.Worker? && w.wpc != Polling && n >= 1
    requires Alone(db, repo, w, o, cancelled) == (db', w.(wpc := pc))
    requires EndsAs(db', repo, w.(wpc := pc), o, cancelled, n - 1, turn)
    requires db'.claimed == db.claimed && db'.told == db.told && db'.repos == With(db.repos, repo, r)
    ensures EndsAs(db, repo, w, o, cancelled, n, turn)
  {
    assert With(With(db.repos, repo, r), repo, turn.repo) == With(db.repos, repo, turn.repo);
  }

  lemma SeenRepoStays(db: Shared, repo: Option<string>, r: Repo)
    requires SeesRepo(db, repo, r)
    ensures With(db.repos, repo, r) == db.repos
  {
  }

  /** From the last status update on. */
  lemma MarkingEnds(db: Shared, repo: Option<string>, r: Repo, w: Actor, o: Oracle, cancelled: bool, n: nat)
    requires w.Worker? && w.wpc.Marking? && n >= 2 && SeesRepo(db, repo, r)
    ensures EndsAs(db, repo, w, o, cancelled, n, Turn(MarkExit(db.table, w.id, w.wpc.exit), r, true))
  {
    var db' := db.(table := MarkExit(db.table, w.id, w.wpc.exit));
    FinishingEnds(db', repo, r, w.(wpc := Finishing), o, cancelled, n - 1);
    SeenRepoStays(db, repo, r);
    EndsAfter(db, repo, w, o, cancelled, n, Turn(db'.table, r, true), db', Finishing, r);
  }

  /** From looking at the row after the process ended. */
  lemma CheckingEnds(db: Shared, repo: Option<string>, r: Repo, w: Actor, o: Oracle, cancelled: bool, n: nat)
    requires w.Worker? && w.wpc.Checking? && n >= 3 && SeesRepo(db, repo, r)
    ensures var still := w.id in db.table.rows && db.table.rows[w.id].status == Running;
            EndsAs(db, repo, w, o, cancelled, n,
                   Turn(if still then MarkExit(db.table, w.id, w.wpc.exit) else db.table, r,
                        still || w.wpc.exit.TimedOutExit?))
  {
    var still := w.id in db.table.rows && db.table.rows[w.id].status == Running;
    SeenRepoStays(db, repo, r);
    if still {
      MarkingEnds(db, repo, r, w.(wpc := Marking(w.wpc.exit)), o, cancelled, n - 1);
      EndsAfter(db, repo, w, o, cancelled, n, Turn(MarkExit(db.table, w.id, w.wpc.exit), r, true), db,
                Marking(w.wpc.exit), r);
    } else if w.wpc.exit.TimedOutExit? {
      FinishingEnds(db, repo, r, w.(wpc := Finishing), o, cancelled, n - 1);
      EndsAfter(db, repo, w, o, cancelled, n, Turn(db.table, r, true), db, Finishing, r);
    } else {
      assert Alone(db, repo, w, o, cancelled) == (db, w.(wpc := Polling));
    }
  }

  function SupervisedTurn(t: Table, r: Repo, id: int, tw: TurnWorld): Turn {
    var (after, told) := Supervised(t, id, tw);
    Turn(after, r, told)
  }

  /** From launching the process. */
  lemma LaunchingEnds(db: Shared, repo: Option<string>, r: Repo, w: Actor, o: Oracle, cancelled: bool, n: nat)
    requires w.Worker? && w.wpc == Launching && n >= 5 && SeesRepo(db, repo, r)
    ensures EndsAs(db, repo, w, o, cancelled, n, SupervisedTurn(db.table, r, w.id, WorldOf(o, cancelled)))
  {
    var launched := db.(table := SetPid(db.table, w.id, o.pid));
    var ran := launched.(table := AfterProcess(db.table, w.id, WorldOf(o, cancelled)));
    var turn := SupervisedTurn(db.table, r, w.id, WorldOf(o, cancelled));
    SeenRepoStays(db, repo, r);
    CheckingEnds(ran, repo, r, w.(wpc := Checking(o.exit)), o, cancelled, n - 2);
    EndsAfter(launched, repo, w.(wpc := Waiting), o, cancelled, n - 1, turn, ran, Checking(o.exit), r);
    EndsAfter(db, repo, w, o, cancelled, n, turn, launched, Waiting, r);
  }

  /** What follows a preparation. */
  function AfterPreparation(p: Prepared, id: int, tw: TurnWorld): Turn {
    if p.ok then SupervisedTurn(p.table, p.repo, id, tw) else Turn(p.table, p.repo, true)
  }

  lemma RefusingEnds(db: Shared, repo: Option<string>, r: Repo, w: Actor, o: Oracle, cancelled: bool, n: nat)
    requires w.Worker? && w.wpc.Refusing? && n >= 2 && SeesRepo(db, repo, r)
    ensures EndsAs(db, repo, w, o, cancelled, n, Turn(MarkFailed(db.table, w.id, w.wpc.why), r, true))
  {
    var db' := db.(table := MarkFailed(db.table, w.id, w.wpc.why));
    FinishingEnds(db', repo, r, w.(wpc := Finishing), o, cancelled, n - 1);
    SeenRepoStays(db, repo, r);
    EndsAfter(db, repo, w, o, cancelled, n, Turn(db'.table, r, true), db', Finishing, r);
  }

  lemma CreatingStep(db: Shared, repo: Option<string>, r: Repo, w: Actor, o: Oracle, cancelled: bool)
    requires w.Worker? && w.wpc == Creating && w.id >= 0 && InRepo(db, repo) && SeesRepo(db, repo, r)
    ensures var name := TaskBranchName(w.id, w.snap.body);
            var (r', ok) := CheckoutNew(r, name, o.yes);
            Alone(db, repo, w, o, cancelled) ==
              (db.(repos := db.repos[repo.value := r'], asked := db.asked + [(w.id, name)]),
               w.(wpc := if ok then RecordingBranch(name) else Refusing(CreateRefused(name))))
  {
  }

  /** From `checkout -b`. */
  lemma CreatingEnds(db: Shared, repo: Option<string>, r: Repo, w: Actor, o: Oracle, cancelled: bool, n: nat)
    requires w.Worker? && w.wpc == Creating && w.id >= 0 && n >= 7 && InRepo(db, repo) && SeesRepo(db, repo, r)
    ensures EndsAs(db, repo, w, o, cancelled, n,
                   AfterPreparation(CreateFresh(db.table, r, w.id, w.snap, o.yes), w.id, WorldOf(o, cancelled)))
  {
    var name := TaskBranchName(w.id, w.snap.body);
    var (r', ok) := CheckoutNew(r, name, o.yes);
    var turn := AfterPreparation(CreateFresh(db.table, r, w.id, w.snap, o.yes), w.id, WorldOf(o, cancelled));
    var asked := db.(repos := db.repos[repo.value := r'], asked := db.asked + [(w.id, name)]);
    SeenRepoStays(asked, repo, r');
    CreatingStep(db, repo, r, w, o, cancelled);
    if ok {
      var recorded := asked.(table := SetBranch(db.table, w.id, name));
      LaunchingEnds(recorded, repo, r', w.(wpc := Launching), o, cancelled, n - 2);
      EndsAfter(asked, repo, w.(wpc := RecordingBranch(name)), o, cancelled, n - 1, turn, recorded, Launching, r');
      EndsAfter(db, repo, w, o, cancelled, n, turn, asked, RecordingBranch(name), r');
    } else {
      var refused := Refusing(CreateRefused(name));
      RefusingEnds(asked, repo, r', w.(wpc := refused), o, cancelled, n - 1);
      EndsAfter(db, repo, w, o, cancelled, n, turn, asked, refused, r');
    }
  }

  /** From the clean-tree check of `_new_branch`. */
  lemma FreshEnds(db: Shared, repo: Option<string>, r: Repo, w: Actor, o: Oracle, cancelled: bool, n: nat)
    requires w.Worker? && w.wpc == CheckingFresh && w.id >= 0 && n >= 8 && InRepo(db, repo) && SeesRepo(db, repo, r)
    ensures EndsAs(db, repo, w, o, cancelled, n,
                   AfterPreparation(if IsClean(r) then CreateFresh(db.table, r, w.id, w.snap, o.yes)
                                    else Prepared(MarkFailed(db.table, w.id, RepoDirty), r, false),
                                    w.id, WorldOf(o, cancelled)))
  {
    SeenRepoStays(db, repo, r);
    if IsClean(r) {
      CreatingEnds(db, repo, r, w.(wpc := Creating), o, cancelled, n - 1);
      EndsAfter(db, repo, w, o, cancelled, n,
                AfterPreparation(CreateFresh(db.table, r, w.id, w.snap, o.yes), w.id, WorldOf(o, cancelled)),
                db, Creating, r);
    } else {
      RefusingEnds(db, repo, r, w.(wpc := Refusing(RepoDirty)), o, cancelled, n - 1);
      EndsAfter(db, repo, w, o, cancelled, n, Turn(MarkFailed(db.table, w.id, RepoDirty), r, true), db,
                Refusing(RepoDirty), r);
    }
  }

  /** From the switch to the recorded branch. */
  lemma SwitchingEnds(db: Shared, repo: Option<string>, r: Repo, w: Actor, o: Oracle, cancelled: bool, n: nat)
    requires w.Worker? && w.wpc == SwitchingToPrior && n >= 6 && InRepo(db, repo) && SeesRepo(db, repo, r)
    ensures var (r', ok) := CheckoutExisting(r, ValidPrior(w.snap), o.yes);
            EndsAs(db, repo, w, o, cancelled, n,
                   if ok then SupervisedTurn(db.table, r', w.id, WorldOf(o, cancelled))
                   else Turn(MarkFailed(db.table, w.id, CheckoutRefused(ValidPrior(w.snap))), r', true))
  {
    var (r', ok) := CheckoutExisting(r, ValidPrior(w.snap), o.yes);
    var db' := db.(repos := db.repos[repo.value := r']);
    if ok {
      LaunchingEnds(db', repo, r', w.(wpc := Launching), o, cancelled, n - 1);
      EndsAfter(db, repo, w, o, cancelled, n, SupervisedTurn(db.table, r', w.id, WorldOf(o, cancelled)), db',
                Launching, r');
    } else {
      var refused := Refusing(CheckoutRefused(ValidPrior(w.snap)));
      RefusingEnds(db', repo, r', w.(wpc := refused), o, cancelled, n - 1);
      EndsAfter(db, repo, w, o, cancelled, n, Turn(MarkFailed(db.table, w.id, refused.why), r', true), db',
                refused, r');
    }
  }

  /** A preparation on a clean tree that is not on the recorded branch. */
  function AfterLookup(t: Table, r: Repo, id: nat, snap: Task, yes: bool): Prepared {
    var (r', ok) := CheckoutExisting(r, ValidPrior(snap), yes);
    if !BranchExists(r, ValidPrior(snap)) then CreateFresh(t, r, id, snap, yes)
    else Prepared(if ok then t else MarkFailed(t, id, CheckoutRefused(ValidPrior(snap))), r', ok)
  }

  /** From looking the recorded branch up. */
  lemma LookupEnds(db: Shared, repo: Option<string>, r: Repo, w: Actor, o: Oracle, cancelled: bool, n: nat)
    requires w.Worker? && w.wpc == LookingUpPrior && w.id >= 0 && n >= 9 && InRepo(db, repo) && SeesRepo(db, repo, r)
    requires IsClean(r)
    ensures EndsAs(db, repo, w, o, cancelled, n,
                   AfterPreparation(AfterLookup(db.table, r, w.id, w.snap, o.yes), w.id, WorldOf(o, cancelled)))
  {
    var turn := AfterPreparation(AfterLookup(db.table, r, w.id, w.snap, o.yes), w.id, WorldOf(o, cancelled));
    SeenRepoStays(db, repo, r);
    if BranchExists(r, ValidPrior(w.snap)) {
      SwitchingEnds(db, repo, r, w.(wpc := SwitchingToPrior), o, cancelled, n - 1);
      EndsAfter(db, repo, w, o, cancelled, n, turn, db, SwitchingToPrior, r);
    } else {
      FreshEnds(db, repo, r, w.(wpc := CheckingFresh), o, cancelled, n - 1);
      EndsAfter(db, repo, w, o, cancelled, n, turn, db, CheckingFresh, r);
    }
  }

  /** The same from the clean-tree check before a switch. */
  lemma SwitchCheckEnds(db: Shared, repo: Option<string>, r: Repo, w: Actor, o: Oracle, cancelled: bool, n: nat)
    requires w.Worker? && w.wpc == CheckingSwitch && w.id >= 0 && n >= 10 && InRepo(db, repo) && SeesRepo(db, repo, r)
    ensures EndsAs(db, repo, w, o, cancelled, n,
                   AfterPreparation(if IsClean(r) then AfterLookup(db.table, r, w.id, w.snap, o.yes)
                                    else Prepared(MarkFailed(db.table, w.id, DirtyOnSwitch(ValidPrior(w.snap))), r,
                                                  false),
                                    w.id, WorldOf(o, cancelled)))
  {
    SeenRepoStays(db, repo, r);
    if IsClean(r) {
      LookupEnds(db, repo, r, w.(wpc := LookingUpPrior), o, cancelled, n - 1);
      EndsAfter(db, repo, w, o, cancelled, n,
                AfterPreparation(AfterLookup(db.table, r, w.id, w.snap, o.yes), w.id, WorldOf(o, cancelled)),
                db, LookingUpPrior, r);
    } else {
      var dirty := Refusing(DirtyOnSwitch(ValidPrior(w.snap)));
      RefusingEnds(db, repo, r, w.(wpc := dirty), o, cancelled, n - 1);
      EndsAfter(db, repo, w, o, cancelled, n, Turn(MarkFailed(db.table, w.id, dirty.why), r, true), db, dirty, r);
    }
  }

  /** The three branches for a usable recorded branch. */
  function AfterPrior(t: Table, r: Repo, id: nat, snap: Task, yes: bool): Prepared {
    if CurrentBranch(r) == ValidPrior(snap) then Prepared(t, r, true)
    else if !IsClean(r) then Prepared(MarkFailed(t, id, DirtyOnSwitch(ValidPrior(snap))), r, false)
    else AfterLookup(t, r, id, snap, yes)
  }

  lemma PrepareIsAfterPrior(t: Table, r: Repo, id: nat, snap: Task, yes: bool)
    requires ValidPrior(snap) != ""
    ensures Prepare(t, true, r, id, snap, yes) == AfterPrior(t, r, id, snap, yes)
  {
  }

  lemma PrepareIsFresh(t: Table, r: Repo, id: nat, snap: Task, yes: bool)
    requires ValidPrior(snap) == "" && IsMutating(snap)
    ensures Prepare(t, true, r, id, snap, yes) ==
            if IsClean(r) then CreateFresh(t, r, id, snap, yes) else Prepared(MarkFailed(t, id, RepoDirty), r, false)
  {
  }

  lemma PrepareIsNothing(t: Table, isRepo: bool, r: Repo, id: nat, snap: Task, yes: bool)
    requires !isRepo || (ValidPrior(snap) == "" && !IsMutating(snap))
    ensures Prepare(t, isRepo, r, id, snap, yes) == Prepared(t, r, true)
  {
  }

  /** From reading HEAD, on a task with a usable recorded branch. */
  lemma PriorEnds(db: Shared, repo: Option<string>, r: Repo, w: Actor, o: Oracle, cancelled: bool, n: nat)
    requires w.Worker? && w.wpc == ReadingHead && w.id >= 0 && n >= 11 && InRepo(db, repo) && SeesRepo(db, repo, r)
    ensures EndsAs(db, repo, w, o, cancelled, n,
                   AfterPreparation(AfterPrior(db.table, r, w.id, w.snap, o.yes), w.id, WorldOf(o, cancelled)))
  {
    var turn := AfterPreparation(AfterPrior(db.table, r, w.id, w.snap, o.yes), w.id, WorldOf(o, cancelled));
    SeenRepoStays(db, repo, r);
    if CurrentBranch(r) == ValidPrior(w.snap) {
      LaunchingEnds(db, repo, r, w.(wpc := Launching), o, cancelled, n - 1);
      EndsAfter(db, repo, w, o, cancelled, n, turn, db, Launching, r);
    } else {
      SwitchCheckEnds(db, repo, r, w.(wpc := CheckingSwitch), o, cancelled, n - 1);
      EndsAfter(db, repo, w, o, cancelled, n, turn, db, CheckingSwitch, r);
    }
  }

  lemma DecidingStep(db: Shared, repo: Option<string>, r: Repo, w: Actor, o: Oracle, cancelled: bool)
    requires w.Worker? && w.wpc == Deciding && SeesRepo(db, repo, r)
    ensures Alone(db, repo, w, o, cancelled) ==
            (db, w.(wpc := if !InRepo(db, repo) || (ValidPrior(w.snap) == "" && !IsMutating(w.snap)) then Launching
                           else if ValidPrior(w.snap) != "" then ReadingHead else CheckingFresh))
  {
    SeenRepoStays(db, repo, r);
  }

  /** Refinement: from a fresh claim, the worker's small steps, undisturbed but
      for a possible cancellation while the process runs, end after at most
      twelve of them in exactly the state the one-call turn computes: same rows,
      same repository, and a notice precisely when the turn gives one. */
  lemma StepsRefineTurn(db: Shared, repo: Option<string>, r: Repo, w: Actor, o: Oracle, cancelled: bool, n: nat)
    requires w.Worker? && w.wpc == Deciding && w.id >= 0 && SeesRepo(db, repo, r) && n >= 12
    ensures EndsAs(db, repo, w, o, cancelled, n,
                   TurnOf(db.table, InRepo(db, repo), r, w.id, w.snap, WorldOf(o, cancelled)))
  {
    var turn := TurnOf(db.table, InRepo(db, repo), r, w.id, w.snap, WorldOf(o, cancelled));
    SeenRepoStays(db, repo, r);
    DecidingStep(db, repo, r, w, o, cancelled);
    if !InRepo(db, repo) || (ValidPrior(w.snap) == "" && !IsMutating(w.snap)) {
      PrepareIsNothing(db.table, InRepo(db, repo), r, w.id, w.snap, o.yes);
      LaunchingEnds(db, repo, r, w.(wpc := Launching), o, cancelled, n - 1);
      EndsAfter(db, repo, w, o, cancelled, n, turn, db, Launching, r);
    } else if ValidPrior(w.snap) != "" {
      PrepareIsAfterPrior(db.table, r, w.id, w.snap, o.yes);
      PriorEnds(db, repo, r, w.(wpc := ReadingHead), o, cancelled, n - 1);
      EndsAfter(db, repo, w, o, cancelled, n, turn, db, ReadingHead, r);
    } else {
      PrepareIsFresh(db.table, r, w.id, w.snap, o.yes);
      FreshEnds(db, repo, r, w.(wpc := CheckingFresh), o, cancelled, n - 1);
      EndsAfter(db, repo, w, o, cancelled, n, turn, db, CheckingFresh, r);
    }
  }
}
