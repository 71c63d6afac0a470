/** A repository as branch preparation sees it, and the git commands of
    src/git_ops.py as steps on it. `allowed` is the outcome git itself decides
    (hooks, lock files, permissions). */
module GitModel {
  import opened Base

  /** `head` is None when detached; `commit` is the commit checked out;
      `statusWorks` is false when `git status` itself fails. */
  datatype Repo = Repo(
    head: Option<string>,
    commit: int,
    branches: map<string, int>,
    dirty: bool,
    statusWorks: bool)

  function CurrentBranch(r: Repo): string {
    if r.head == None || r.head == Some("HEAD") then "" else r.head.value
  }

  predicate IsClean(r: Repo) { r.statusWorks && !r.dirty }

  predicate BranchExists(r: Repo, name: string) { name in r.branches }

  function CheckoutExisting(r: Repo, name: string, allowed: bool): (Repo, bool) {
    if allowed && name in r.branches
    then (r.(head := Some(name), commit := r.branches[name]), true)
    else (r, false)
  }

  /** `git checkout -b`: refused when the name is taken. */
  function CheckoutNew(r: Repo, name: string, allowed: bool): (Repo, bool) {
    if allowed && name !in r.branches
    then (r.(head := Some(name), branches := r.branches[name := r.commit]), true)
    else (r, false)
  }
}
