/** Per-task branch preparation (src/branch_prep.py). */
module BranchPrep {
  import opened Base
  import opened GitModel
  import opened GitNames
  import opened TaskTable
  import opened TaskQueues

  /** NULL counts as mutating. */
  predicate IsMutating(task: Task) { task.mutates != Some(false) }

  /** The recorded branch name when it is usable, else "". */
  function ValidPrior(task: Task): string {
    var name := Strip(task.branch);
    if name != "" && IsValidTaskBranch(name) then name else ""
  }

  /** The cells of the decision matrix in the module's documentation. */
  datatype Cell =
    | NotARepo                // 1
    | ReadOnly                // 2
    | OnPrior                 // 3a
    | PriorBlocked            // 3b
    | Reuse                   // 3c
    | PriorGone               // 3d
    | Fresh                   // 4
    | FreshBlocked            // 5

  function Decide(isRepo: bool, r: Repo, task: Task): Cell {
    var prior := ValidPrior(task);
    if !isRepo then NotARepo
    else if prior == "" then
      if !IsMutating(task) then ReadOnly else if IsClean(r) then Fresh else FreshBlocked
    else if CurrentBranch(r) == prior then OnPrior
    else if !IsClean(r) then PriorBlocked
    else if BranchExists(r, prior) then Reuse
    else PriorGone
  }

  datatype Prepared = Prepared(table: Table, repo: Repo, ok: bool)

  /** What one preparation does to the table and the repository. */
  function Prepare(t: Table, isRepo: bool, r: Repo, id: nat, task: Task, allowed: bool): Prepared {
    match Decide(isRepo, r, task)
    case NotARepo => Prepared(t, r, true)
    case ReadOnly => Prepared(t, r, true)
    case OnPrior => Prepared(t, r, true)
    case PriorBlocked => Prepared(TaskTable.MarkFailed(t, id, DirtyOnSwitch(ValidPrior(task))), r, false)
    case FreshBlocked => Prepared(TaskTable.MarkFailed(t, id, RepoDirty), r, false)
    case Reuse =>
      var (r', ok) := CheckoutExisting(r, ValidPrior(task), allowed);
      Prepared(if ok then t else TaskTable.MarkFailed(t, id, CheckoutRefused(ValidPrior(task))), r', ok)
    case PriorGone => CreateFresh(t, r, id, task, allowed)
    case Fresh => CreateFresh(t, r, id, task, allowed)
  }

  function CreateFresh(t: Table, r: Repo, id: nat, task: Task, allowed: bool): Prepared {
    var name := TaskBranchName(id, task.body);
    var (r', ok) := CheckoutNew(r, name, allowed);
    Prepared(if ok then TaskTable.SetBranch(t, id, name) else TaskTable.MarkFailed(t, id, CreateRefused(name)),
             r', ok)
  }

  /** A project directory: whether git answers there, and the repository. */
  class Checkout {
    const isRepo: bool
    var repo: Repo

    constructor (isRepo: bool, repo: Repo)
      ensures this.isRepo == isRepo && this.repo == repo
    {
      this.isRepo := isRepo;
      this.repo := repo;
    }
  }

  method PrepareBranch(queue: TaskQueue, id: nat, task: Task, dir: Checkout, allowed: bool) returns (ok: bool)
    modifies queue, dir
    ensures Prepared(queue.table, dir.repo, ok) ==
            Prepare(old(queue.table), dir.isRepo, old(dir.repo), id, task, allowed)
  {
    if !dir.isRepo {
      return true;
    }
    var prior := ValidPrior(task);
    if prior == "" && !IsMutating(task) {
      return true;
    }
    if prior != "" {
      ok := HandlePrior(queue, id, task, dir, prior, allowed);
    } else {
      ok := NewBranch(queue, id, task, dir, allowed);
    }
  }

  method HandlePrior(queue: TaskQueue, id: nat, task: Task, dir: Checkout, prior: string, allowed: bool)
    returns (ok: bool)
    requires dir.isRepo && prior == ValidPrior(task) != ""
    modifies queue, dir
    ensures Prepared(queue.table, dir.repo, ok) ==
            Prepare(old(queue.table), dir.isRepo, old(dir.repo), id, task, allowed)
  {
    if CurrentBranch(dir.repo) == prior {
      return true;
    }
    if !IsClean(dir.repo) {
      queue.MarkFailed(id, DirtyOnSwitch(prior));
      return false;
    }
    if !BranchExists(dir.repo, prior) {
      ok := NewBranch(queue, id, task, dir, allowed);
      return;
    }
    var after, done := CheckoutExisting(dir.repo, prior, allowed).0, CheckoutExisting(dir.repo, prior, allowed).1;
    dir.repo := after;
    if !done {
      queue.MarkFailed(id, CheckoutRefused(prior));
      return false;
    }
    ok := true;
  }

  method NewBranch(queue: TaskQueue, id: nat, task: Task, dir: Checkout, allowed: bool) returns (ok: bool)
    modifies queue, dir
    ensures Prepared(queue.table, dir.repo, ok) ==
            if IsClean(old(dir.repo)) then CreateFresh(old(queue.table), old(dir.repo), id, task, allowed)
            else Prepared(TaskTable.MarkFailed(old(queue.table), id, RepoDirty), old(dir.repo), false)
  {
    if !IsClean(dir.repo) {
      queue.MarkFailed(id, RepoDirty);
      return false;
    }
    var branch := TaskBranchName(id, task.body);
    var after, done := CheckoutNew(dir.repo, branch, allowed).0, CheckoutNew(dir.repo, branch, allowed).1;
    dir.repo := after;
    if !done {
      queue.MarkFailed(id, CreateRefused(branch));
      return false;
    }
    queue.SetBranch(id, branch);
    ok := true;
  }

  /** No ref that existed before is moved or removed, and the working tree is
      left as it was unless HEAD moved from a clean one. */
  ghost predicate RefsKept(r: Repo, r': Repo) {
    forall b | b in r.branches :: b in r'.branches && r'.branches[b] == r.branches[b]
  }

  /** Why a preparation that fails does. */
  function Refusal(isRepo: bool, r: Repo, id: nat, task: Task): (why: Reason)
    ensures why != NoReason
  {
    match Decide(isRepo, r, task)
    case PriorBlocked => DirtyOnSwitch(ValidPrior(task))
    case FreshBlocked => RepoDirty
    case Reuse => CheckoutRefused(ValidPrior(task))
    case _ => CreateRefused(TaskBranchName(id, task.body))
  }

  /** The only statements a preparation runs on the table: one failure with a
      reason, or at most one branch recorded. */
  lemma PrepareWrites(t: Table, isRepo: bool, r: Repo, id: nat, task: Task, allowed: bool)
    ensures
      var p := Prepare(t, isRepo, r, id, task, allowed);
      if p.ok then p.table == t || p.table == TaskTable.SetBranch(t, id, TaskBranchName(id, task.body))
      else p.table == TaskTable.MarkFailed(t, id, Refusal(isRepo, r, id, task))
  {
    match Decide(isRepo, r, task)
    case Reuse =>
      var p := Prepare(t, isRepo, r, id, task, allowed);
      assert p.ok ==> p.table == t;
    case PriorGone => CreationWrites(t, r, id, task, allowed);
    case Fresh => CreationWrites(t, r, id, task, allowed);
    case _ =>
  }

  lemma CreationWrites(t: Table, r: Repo, id: nat, task: Task, allowed: bool)
    ensures
      var p := CreateFresh(t, r, id, task, allowed);
      p.table == if p.ok then TaskTable.SetBranch(t, id, TaskBranchName(id, task.body))
                 else TaskTable.MarkFailed(t, id, CreateRefused(TaskBranchName(id, task.body)))
  {
  }

  /** The only git commands that change anything: one checkout, from a clean tree. */
  lemma PrepareMoves(t: Table, isRepo: bool, r: Repo, id: nat, task: Task, allowed: bool)
    ensures
      var p := Prepare(t, isRepo, r, id, task, allowed);
      || p.repo == r
      || (isRepo && IsClean(r) && p.ok
          && (p.repo == CheckoutExisting(r, ValidPrior(task), allowed).0
              || p.repo == CheckoutNew(r, TaskBranchName(id, task.body), allowed).0))
  {
  }

  /** Branch preparation is safe, whatever the repository, row and refusals. */
  lemma PrepareSafe(t: Table, isRepo: bool, r: Repo, id: nat, task: Task, allowed: bool)
    requires id in t.rows
    ensures
      var p := Prepare(t, isRepo, r, id, task, allowed);
      // HEAD (and the commit under it) moves only from a clean tree of a repository
      && (p.repo.head != r.head || p.repo.commit != r.commit ==> isRepo && IsClean(r) && p.ok)
      // refs: none moved, none removed, at most this task's own name added
      && RefsKept(r, p.repo)
      && p.repo.branches.Keys <= r.branches.Keys + {TaskBranchName(id, task.body)}
      && p.repo.dirty == r.dirty
      // refusal: git untouched, this row failed with a reason, no other row changed
      && (!p.ok ==> p.repo == r && p.table == TaskTable.MarkFailed(t, id, Refusal(isRepo, r, id, task)))
      // success keeps the status of every row
      && (p.ok ==> p.table.next == t.next && p.table.rows.Keys == t.rows.Keys
                   && forall x | x in t.rows :: p.table.rows[x] == t.rows[x].(branch := p.table.rows[x].branch)
                                                && (x != id ==> p.table.rows[x] == t.rows[x]))
  {
    PrepareWrites(t, isRepo, r, id, task, allowed);
    PrepareMoves(t, isRepo, r, id, task, allowed);
  }

  /** Why a preparation fails, by the state of the repository and the row: a dirty
      tree in the way of a switch or of a new branch, a refused checkout of the
      recorded branch, or a refused new one. Outside a repository nothing is done. */
  lemma PrepareExplains(t: Table, isRepo: bool, r: Repo, id: nat, task: Task, allowed: bool)
    requires id in t.rows
    ensures
      var p := Prepare(t, isRepo, r, id, task, allowed);
      var prior := Strip(task.branch);
      var usable := prior != "" && IsValidTaskBranch(prior);
      && (!isRepo ==> p == Prepared(t, r, true))
      && (!p.ok ==>
            p.table == t.(rows := t.rows[id := t.rows[id].(status := Failed, error :=
              if !r.statusWorks || r.dirty then if usable then DirtyOnSwitch(prior) else RepoDirty
              else if usable && prior in r.branches then CheckoutRefused(prior)
              else CreateRefused(TaskBranchName(id, task.body)))]))
      // a checkout puts HEAD on the branch's own commit
      && (p.repo != r ==> p.repo.head.Some? && p.repo.head.value in p.repo.branches
                          && p.repo.commit == p.repo.branches[p.repo.head.value])
  {
  }

  lemma ValidIsNotHead(name: string)
    requires IsValidTaskBranch(name)
    ensures name != "HEAD" && name != ""
  {
    assert |name| > |BRANCH_PREFIX|;
  }

  lemma CreateFreshLands(t: Table, r: Repo, id: nat, task: Task, allowed: bool)
    requires id in t.rows && CreateFresh(t, r, id, task, allowed).ok
    ensures
      var p := CreateFresh(t, r, id, task, allowed);
      && CurrentBranch(p.repo) == TaskBranchName(id, task.body) == p.table.rows[id].branch
      && Strip(p.table.rows[id].branch) == p.table.rows[id].branch
      && IsValidTaskBranch(TaskBranchName(id, task.body))
  {
    var name := TaskBranchName(id, task.body);
    assert IsValidTaskBranch(name) && Strip(name) == name by {
      TaskBranchNameReadsBack(id, task.body);
      TaskBranchNameStripped(id, task.body);
    }
    ValidIsNotHead(name);
  }

  /** After a successful preparation that needs a branch, HEAD is the branch on
      the row and passes the schema check; one that needs none changes nothing. */
  lemma PrepareLandsOnRecordedBranch(t: Table, r: Repo, id: nat, task: Task, allowed: bool)
    requires id in t.rows && t.rows[id].branch == task.branch
    requires Prepare(t, true, r, id, task, allowed).ok
    ensures
      var p := Prepare(t, true, r, id, task, allowed);
      if IsMutating(task) || ValidPrior(task) != "" then
        && CurrentBranch(p.repo) == Strip(p.table.rows[id].branch)
        && IsValidTaskBranch(CurrentBranch(p.repo))
      else
        p.repo == r && p.table == t
  {
    match Decide(true, r, task)
    case Fresh => CreateFreshLands(t, r, id, task, allowed);
    case PriorGone => CreateFreshLands(t, r, id, task, allowed);
    case Reuse => ValidIsNotHead(ValidPrior(task));
    case _ =>
  }

  /** In a repository the preparation fails exactly when a switch is needed and
      the tree is dirty, git refuses, or the new name is already taken. */
  lemma PrepareFailsExactlyWhen(t: Table, r: Repo, id: nat, task: Task, allowed: bool)
    ensures
      var prior := ValidPrior(task);
      var needsSwitch := if prior == "" then task.mutates != Some(false) else CurrentBranch(r) != prior;
      var creates := prior == "" || prior !in r.branches;
      !Prepare(t, true, r, id, task, allowed).ok <==>
        needsSwitch && (!r.statusWorks || r.dirty || !allowed
                        || (creates && TaskBranchName(id, task.body) in r.branches))
  {
  }
}
