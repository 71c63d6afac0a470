/** The `tasks` table and its SQL statements, one total function a statement
    (src/task_queue.py, schema in src/chat_schema.py:41-63). */
module TaskTable {
  import opened Base

  datatype Status = Pending | Running | Done | Failed | Cancelled | RoutedViaAgent

  /** `started_at`: absent, unreadable, or seconds on the clock. */
  datatype Stamp = Missing | Unparsable | At(secs: int)

  /** `error_text`, kept as the reason it was written for. */
  datatype Reason =
    | NoReason
    | RepoDirty
    | DirtyOnSwitch(prior: string)
    | CheckoutRefused(branch: string)
    | CreateRefused(branch: string)
    | TimedOut
    | ExitedWith(rc: int)
    | WorkerGone(pid: int)
    | NeverSetPid

  datatype Task = Task(
    project: string,
    body: string,
    status: Status,
    priority: int,
    retryOf: Option<int>,
    branch: string,           // "" stands for NULL
    mutates: Option<bool>,    // None stands for NULL
    pid: Option<int>,
    startedAt: Stamp,
    error: Reason,
    output: string)

  /** `next` is the AUTOINCREMENT counter; rows are never deleted. */
  datatype Table = Table(rows: map<int, Task>, next: nat)

  const EMPTY_TABLE := Table(map[], 1)

  ghost predicate WellFormed(t: Table) {
    t.next >= 1 && forall id | id in t.rows :: 1 <= id < t.next
  }

  predicate Terminal(s: Status) { s == Done || s == Failed || s == Cancelled }

  /** pending < running < {done, failed, cancelled}; routed rows stand apart. */
  function Rank(s: Status): nat {
    match s
    case Pending => 0
    case Running => 1
    case Done => 2
    case Failed => 2
    case Cancelled => 2
    case RoutedViaAgent => 3
  }

  predicate IsPending(t: Table, p: string, id: int) {
    id in t.rows && t.rows[id].project == p && t.rows[id].status == Pending
  }

  predicate IsRunning(t: Table, p: string, id: int) {
    id in t.rows && t.rows[id].project == p && t.rows[id].status == Running
  }

  /** ORDER BY priority DESC, id ASC. */
  predicate Before(t: Table, a: int, b: int)
    requires a in t.rows && b in t.rows
  {
    t.rows[a].priority > t.rows[b].priority
    || (t.rows[a].priority == t.rows[b].priority && a < b)
  }

  // ---- reads --------------------------------------------------------------

  /** Keep a listing ordered while adding `id`, which is larger than every
      listed id: it goes behind all rows of at least its own priority. */
  function Place(t: Table, ids: seq<int>, id: int): seq<int>
    requires id in t.rows && forall i | 0 <= i < |ids| :: ids[i] in t.rows
  {
    if ids == [] then [id]
    else if t.rows[ids[0]].priority >= t.rows[id].priority then [ids[0]] + Place(t, ids[1..], id)
    else [id] + ids
  }

  function ListPendingBelow(t: Table, p: string, n: nat): (ids: seq<int>)
    ensures forall i | 0 <= i < |ids| :: ids[i] in t.rows && IsPending(t, p, ids[i]) && ids[i] < n
  {
    if n == 0 then []
    else
      var ids := ListPendingBelow(t, p, n - 1);
      if IsPending(t, p, n - 1) then
        PlaceMembers(t, ids, n - 1);
        var placed := Place(t, ids, n - 1);
        assert forall x | x in ids :: IsPending(t, p, x) && x < n;
        assert forall i | 0 <= i < |placed| :: placed[i] in placed && (placed[i] == n - 1 || placed[i] in ids);
        placed
      else ids
  }

  /** `list_pending`. */
  function ListPending(t: Table, p: string): (ids: seq<int>)
    ensures forall i | 0 <= i < |ids| :: IsPending(t, p, ids[i])
  {
    ListPendingBelow(t, p, t.next)
  }

  lemma {:induction false} PlaceMembers(t: Table, ids: seq<int>, id: int)
    requires id in t.rows && forall i | 0 <= i < |ids| :: ids[i] in t.rows
    ensures forall x :: x in Place(t, ids, id) <==> x == id || x in ids
    ensures |Place(t, ids, id)| == |ids| + 1
  {
    if ids != [] && t.rows[ids[0]].priority >= t.rows[id].priority {
      PlaceMembers(t, ids[1..], id);
      assert forall x :: x in ids <==> x == ids[0] || x in ids[1..];
    }
  }

  /** The inner SELECT of `claim_next`: ORDER BY priority DESC, id ASC LIMIT 1. */
  function FirstBelow(t: Table, p: string, n: nat): (first: Option<int>)
    ensures first.Some? ==> IsPending(t, p, first.value) && 0 <= first.value < n
  {
    if n == 0 then None
    else
      var best := FirstBelow(t, p, n - 1);
      if IsPending(t, p, n - 1) && (best == None || t.rows[best.value].priority < t.rows[n - 1].priority)
      then Some(n - 1)
      else best
  }

  function First(t: Table, p: string): Option<int> { FirstBelow(t, p, t.next) }

  /** `get_running` and the EXISTS guard: the running row with the smallest id. */
  function RunningBelow(t: Table, p: string, n: nat): (r: Option<int>)
    ensures r.Some? ==> IsRunning(t, p, r.value) && r.value < n
  {
    if n == 0 then None
    else
      var r := RunningBelow(t, p, n - 1);
      if r == None && IsRunning(t, p, n - 1) then Some(n - 1) else r
  }

  function GetRunning(t: Table, p: string): (r: Option<int>)
    ensures r.Some? ==> IsRunning(t, p, r.value)
  {
    RunningBelow(t, p, t.next)
  }

  /** `list_running`: every running row of every project, by id. */
  function AllRunningBelow(t: Table, n: nat): seq<int> {
    if n == 0 then []
    else AllRunningBelow(t, n - 1) +
         (if n - 1 in t.rows && t.rows[n - 1].status == Running then [n - 1] else [])
  }

  function ListRunning(t: Table): seq<int> { AllRunningBelow(t, t.next) }

  // ---- writes -------------------------------------------------------------

  function Insert(t: Table, row: Task): (Table, int) {
    (Table(t.rows[t.next := row], t.next + 1), t.next)
  }

  function NewTask(p: string, body: string, priority: int, retryOf: Option<int>, branch: string,
                   mutates: Option<bool>): Task {
    Task(p, body, Pending, priority, retryOf, branch, mutates, None, Missing, NoReason, "")
  }

  function RoutedTask(p: string, body: string, now: int): Task {
    Task(p, body, RoutedViaAgent, 0, None, "", None, None, At(now), NoReason, "")
  }

  /** UPDATE ... WHERE id=?: a statement on a missing id changes nothing. */
  function Put(t: Table, id: int, row: Task): Table {
    if id in t.rows then t.(rows := t.rows[id := row]) else t
  }

  function Claim(t: Table, p: string, now: int): (r: (Table, Option<int>)) {
    var first := First(t, p);
    if first == None || GetRunning(t, p) != None then (t, None)
    else (Put(t, first.value, t.rows[first.value].(status := Running, startedAt := At(now))), first)
  }

  function MarkDone(t: Table, id: int): Table {
    if id in t.rows then Put(t, id, t.rows[id].(status := Done)) else t
  }

  function MarkFailed(t: Table, id: int, why: Reason): Table {
    if id in t.rows then Put(t, id, t.rows[id].(status := Failed, error := why)) else t
  }

  function Cancel(t: Table, id: int): Table {
    if id in t.rows then Put(t, id, t.rows[id].(status := Cancelled)) else t
  }

  function SetPid(t: Table, id: int, pid: int): Table {
    if id in t.rows then Put(t, id, t.rows[id].(pid := Some(pid))) else t
  }

  function SetBranch(t: Table, id: int, branch: string): Table {
    if id in t.rows then Put(t, id, t.rows[id].(branch := branch)) else t
  }

  function SetOutput(t: Table, id: int, output: string): Table {
    if id in t.rows then Put(t, id, t.rows[id].(output := output)) else t
  }

  function Drain(t: Table, p: string): Table {
    t.(rows := map id | id in t.rows ::
                 if IsPending(t, p, id) then t.rows[id].(status := Cancelled) else t.rows[id])
  }

  function PendingSet(t: Table, p: string): set<int> {
    set id | id in t.rows && IsPending(t, p, id)
  }

  // ---- what the reads mean ------------------------------------------------

  /** `id` is the row that must be dispatched next. */
  ghost predicate IsHead(t: Table, p: string, id: int) {
    IsPending(t, p, id)
    && forall x | x != id && IsPending(t, p, x) :: Before(t, id, x)
  }

  lemma {:induction false} FirstBelowIsHead(t: Table, p: string, n: nat)
    ensures FirstBelow(t, p, n) == None ==> forall x: int | 0 <= x < n :: !IsPending(t, p, x)
    ensures FirstBelow(t, p, n).Some? ==>
              forall x: int | 0 <= x < n && x != FirstBelow(t, p, n).value && IsPending(t, p, x) ::
                Before(t, FirstBelow(t, p, n).value, x)
  {
    if n > 0 {
      FirstBelowIsHead(t, p, n - 1);
    }
  }

  /** The claim's subquery finds the head of the queue, or proves it empty. */
  lemma FirstIsHead(t: Table, p: string)
    requires WellFormed(t)
    ensures First(t, p) == None <==> forall x :: !IsPending(t, p, x)
    ensures First(t, p).Some? ==> IsHead(t, p, First(t, p).value)
  {
    FirstBelowIsHead(t, p, t.next);
  }

  ghost predicate Sorted(t: Table, ids: seq<int>)
    requires forall i | 0 <= i < |ids| :: ids[i] in t.rows
  {
    forall i, j | 0 <= i < j < |ids| :: Before(t, ids[i], ids[j])
  }

  lemma {:induction false} PlaceSorted(t: Table, ids: seq<int>, id: int)
    requires id in t.rows
    requires forall i | 0 <= i < |ids| :: ids[i] in t.rows && ids[i] < id
    requires Sorted(t, ids)
    ensures forall i | 0 <= i < |Place(t, ids, id)| :: Place(t, ids, id)[i] in t.rows
    ensures Sorted(t, Place(t, ids, id))
  {
    PlaceMembers(t, ids, id);
    var placed := Place(t, ids, id);
    assert forall i | 0 <= i < |placed| :: placed[i] in placed;
    if ids == [] {
    } else if t.rows[ids[0]].priority >= t.rows[id].priority {
      PlaceSorted(t, ids[1..], id);
      PlaceMembers(t, ids[1..], id);
      assert placed[1..] == Place(t, ids[1..], id);
      forall j | 1 <= j < |placed| ensures Before(t, placed[0], placed[j]) {
        assert placed[j] in Place(t, ids[1..], id);
        if placed[j] != id {
          var k :| 0 <= k < |ids[1..]| && ids[1..][k] == placed[j];
          assert Before(t, ids[0], ids[k + 1]);
        }
      }
      forall i, j | 0 <= i < j < |placed| ensures Before(t, placed[i], placed[j]) {
        if i > 0 {
          assert placed[i] == placed[1..][i - 1] && placed[j] == placed[1..][j - 1];
        }
      }
    } else {
      forall i, j | 0 <= i < j < |placed| ensures Before(t, placed[i], placed[j]) {
        if i == 0 {
          assert placed[j] == ids[j - 1];
          if j > 1 { assert Before(t, ids[0], ids[j - 1]); }
        } else {
          assert placed[i] == ids[i - 1] && placed[j] == ids[j - 1];
        }
      }
    }
  }

  lemma {:induction false} ListPendingBelowSorted(t: Table, p: string, n: nat)
    ensures Sorted(t, ListPendingBelow(t, p, n))
    ensures forall x :: x in ListPendingBelow(t, p, n) <==> 0 <= x < n && IsPending(t, p, x)
  {
    if n > 0 {
      ListPendingBelowSorted(t, p, n - 1);
      if IsPending(t, p, n - 1) {
        PlaceSorted(t, ListPendingBelow(t, p, n - 1), n - 1);
        PlaceMembers(t, ListPendingBelow(t, p, n - 1), n - 1);
      }
    }
  }

  /** `list_pending` lists exactly the pending rows in dispatch order, and the
      row `claim_next` picks is its first element. */
  lemma ListPendingMeaning(t: Table, p: string)
    requires WellFormed(t)
    ensures forall x :: x in ListPending(t, p) <==> IsPending(t, p, x)
    ensures Sorted(t, ListPending(t, p))
    ensures First(t, p) == if ListPending(t, p) == [] then None else Some(ListPending(t, p)[0])
  {
    ListPendingBelowSorted(t, p, t.next);
    FirstIsHead(t, p);
    var ids := ListPending(t, p);
    if ids != [] {
      assert IsPending(t, p, ids[0]);
      var head := First(t, p).value;
      assert head in ids;
    }
  }

  lemma {:induction false} RunningBelowMeaning(t: Table, p: string, n: nat)
    ensures RunningBelow(t, p, n) == None ==> forall x: int | 0 <= x < n :: !IsRunning(t, p, x)
  {
    if n > 0 {
      RunningBelowMeaning(t, p, n - 1);
    }
  }

  lemma GetRunningMeaning(t: Table, p: string)
    requires WellFormed(t)
    ensures GetRunning(t, p) == None <==> forall x :: !IsRunning(t, p, x)
  {
    RunningBelowMeaning(t, p, t.next);
  }

  lemma {:induction false} AllRunningBelowMeaning(t: Table, n: nat)
    ensures forall x :: x in AllRunningBelow(t, n) <==>
              0 <= x < n && x in t.rows && t.rows[x].status == Running
    ensures forall i, j | 0 <= i < j < |AllRunningBelow(t, n)| ::
              AllRunningBelow(t, n)[i] < AllRunningBelow(t, n)[j]
  {
    if n > 0 {
      AllRunningBelowMeaning(t, n - 1);
      var ids := AllRunningBelow(t, n - 1);
      assert forall i | 0 <= i < |ids| :: ids[i] in ids;
    }
  }

  lemma ListRunningMeaning(t: Table)
    requires WellFormed(t)
    ensures forall x :: x in ListRunning(t) <==> x in t.rows && t.rows[x].status == Running
    ensures forall i, j | 0 <= i < j < |ListRunning(t)| :: ListRunning(t)[i] < ListRunning(t)[j]
  {
    AllRunningBelowMeaning(t, t.next);
  }

  /** A claim succeeds exactly when the project has pending work and no running
      row; it then moves the head of `list_pending` and nothing else. */
  lemma ClaimMeaning(t: Table, p: string, now: int)
    requires WellFormed(t)
    ensures Claim(t, p, now).1.Some? <==>
              (exists x :: IsPending(t, p, x)) && forall x :: !IsRunning(t, p, x)
    ensures Claim(t, p, now).1 == None ==> Claim(t, p, now).0 == t
    ensures Claim(t, p, now).1.Some? ==>
              var id := Claim(t, p, now).1.value;
              && ListPending(t, p) != [] && id == ListPending(t, p)[0]
              && IsHead(t, p, id)
              && Claim(t, p, now).0 ==
                 t.(rows := t.rows[id := t.rows[id].(status := Running, startedAt := At(now))])
  {
    FirstIsHead(t, p);
    GetRunningMeaning(t, p);
    ListPendingMeaning(t, p);
  }

  // ---- what a drain means -------------------------------------------------

  /** Listings depend on pending rows and priorities only. */
  lemma {:induction false} SamePendingList(t: Table, t': Table, p: string, n: nat)
    requires t.rows.Keys == t'.rows.Keys
    requires forall id | id in t.rows ::
               t'.rows[id].priority == t.rows[id].priority && (IsPending(t', p, id) <==> IsPending(t, p, id))
    ensures ListPendingBelow(t', p, n) == ListPendingBelow(t, p, n)
  {
    if n > 0 {
      SamePendingList(t, t', p, n - 1);
      if IsPending(t, p, n - 1) {
        SamePlace(t, t', ListPendingBelow(t, p, n - 1), n - 1);
      }
    }
  }

  lemma {:induction false} SamePlace(t: Table, t': Table, ids: seq<int>, id: int)
    requires t.rows.Keys == t'.rows.Keys && id in t.rows
    requires forall i | 0 <= i < |ids| :: ids[i] in t.rows
    requires forall x | x in t.rows :: t'.rows[x].priority == t.rows[x].priority
    ensures Place(t', ids, id) == Place(t, ids, id)
  {
    if ids != [] {
      SamePlace(t, t', ids[1..], id);
    }
  }

  lemma {:induction false} SameRunning(t: Table, t': Table, p: string, n: nat)
    requires forall id | 0 <= id < n :: IsRunning(t', p, id) <==> IsRunning(t, p, id)
    ensures RunningBelow(t', p, n) == RunningBelow(t, p, n)
  {
    if n > 0 { SameRunning(t, t', p, n - 1); }
  }

  lemma {:induction false} PendingCount(t: Table, p: string, n: nat)
    ensures |ListPendingBelow(t, p, n)| == |set id | id in t.rows && IsPending(t, p, id) && 0 <= id < n|
  {
    var found := set id | id in t.rows && IsPending(t, p, id) && 0 <= id < n;
    if n == 0 {
      assert found == {};
    } else {
      PendingCount(t, p, n - 1);
      var before := set id | id in t.rows && IsPending(t, p, id) && 0 <= id < n - 1;
      if IsPending(t, p, n - 1) {
        PlaceMembers(t, ListPendingBelow(t, p, n - 1), n - 1);
        assert found == before + {n - 1};
      } else {
        assert found == before;
      }
    }
  }

  /** A drain cancels every pending row of the project, as many as were listed,
      and nothing else: no other column, no other row, no other project's listing,
      nothing that runs. */
  lemma DrainMeaning(t: Table, p: string)
    requires WellFormed(t)
    ensures
      var t' := Drain(t, p);
      && t'.next == t.next && t'.rows.Keys == t.rows.Keys
      && (forall id | id in t.rows ::
            t'.rows[id] == if id in ListPending(t, p) then t.rows[id].(status := Cancelled) else t.rows[id])
      && ListPending(t', p) == []
      && (forall q | q != p :: ListPending(t', q) == ListPending(t, q))
      && (forall q :: GetRunning(t', q) == GetRunning(t, q))
      && |PendingSet(t, p)| == |ListPending(t, p)|
  {
    var t' := Drain(t, p);
    ListPendingMeaning(t, p);
    ListPendingMeaning(t', p);
    assert forall x :: !IsPending(t', p, x);
    assert forall x :: x !in ListPending(t', p);
    forall q | q != p ensures ListPending(t', q) == ListPending(t, q) {
      SamePendingList(t, t', q, t.next);
    }
    forall q ensures GetRunning(t', q) == GetRunning(t, q) {
      SameRunning(t, t', q, t.next);
    }
    PendingCount(t, p, t.next);
    assert PendingSet(t, p) == set id | id in t.rows && IsPending(t, p, id) && 0 <= id < t.next;
  }
}
