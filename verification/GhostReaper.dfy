/** The ghost reaper (src/ghost_reaper.py): fail running rows whose worker is gone. */
module GhostReaper {
  import opened Base
  import opened TaskTable
  import opened TaskQueues
  import opened TaskNotifier

  const STUCK_NO_PID_GRACE_SEC := 120

  function PidOf(row: Task): int { if row.pid.Some? then row.pid.value else 0 }

  /** Started less than the grace period ago. An unreadable start never is. */
  predicate Young(row: Task, now: int) {
    row.startedAt.At? && now - row.startedAt.secs < STUCK_NO_PID_GRACE_SEC
  }

  /** The reason to reap a running row, if there is one. */
  function Verdict(row: Task, alive: int -> bool, now: int): Option<Reason> {
    if PidOf(row) > 0 then
      if alive(PidOf(row)) then None else Some(WorkerGone(PidOf(row)))
    else if Young(row, now) then None
    else Some(NeverSetPid)
  }

  /** What a sweep makes of a row: a running one fails when its process is not
      alive, or when it has no process id 120 seconds after a readable start. */
  ghost predicate Reaped(row: Task, row': Task, alive: int -> bool, now: int) {
    row' ==
    if row.status == Running && row.pid.Some? && row.pid.value > 0 && !alive(row.pid.value)
    then row.(status := Failed, error := WorkerGone(row.pid.value))
    else if row.status == Running && (row.pid == None || row.pid.value <= 0)
            && !(row.startedAt.At? && now - row.startedAt.secs < 120)
    then row.(status := Failed, error := NeverSetPid)
    else row
  }

  /** Every row is what a sweep makes of it, and exactly the rows that changed were
      announced, once each, in id order and as they are now. */
  ghost predicate SweptExactly(t: Table, t': Table, sent: seq<Claimed>, alive: int -> bool, now: int) {
    && t'.next == t.next && t'.rows.Keys == t.rows.Keys
    && (forall id | id in t.rows :: Reaped(t.rows[id], t'.rows[id], alive, now))
    && (forall k | 0 <= k < |sent| ::
          && sent[k].id in t.rows && sent[k].task == t'.rows[sent[k].id]
          && t'.rows[sent[k].id] != t.rows[sent[k].id])
    && (forall j, k | 0 <= j < k < |sent| :: sent[j].id < sent[k].id)
    && (forall id | id in t.rows && t'.rows[id] != t.rows[id] :: exists k :: 0 <= k < |sent| && sent[k].id == id)
  }

  /** The rows of a table that a sweep must reap. */
  ghost predicate IsGhost(t: Table, alive: int -> bool, now: int, id: int) {
    id in t.rows && t.rows[id].status == Running && Verdict(t.rows[id], alive, now).Some?
  }

  /** A row after the sweep. */
  function Swept(row: Task, alive: int -> bool, now: int): Task {
    if row.status == Running && Verdict(row, alive, now).Some?
    then row.(status := Failed, error := Verdict(row, alive, now).value)
    else row
  }

  /** What one row of the snapshot adds: the table after it and its notice. */
  function Reap(t: Table, id: int, row: Task, alive: int -> bool, now: int): (Table, seq<Claimed>)
    requires id in t.rows
    ensures Reap(t, id, row, alive, now).0.rows.Keys == t.rows.Keys
  {
    var verdict := Verdict(row, alive, now);
    if verdict == None then (t, [])
    else
      var failed := TaskTable.MarkFailed(t, id, verdict.value);
      (failed, [Claimed(id, failed.rows[id])])
  }

  ghost predicate RowsOf(t: Table, ids: seq<int>) {
    forall i | 0 <= i < |ids| :: ids[i] in t.rows
  }

  /** The listing a sweep works through: running rows in id order. */
  ghost predicate Snapshot(t: Table, ids: seq<int>) {
    && RowsOf(t, ids)
    && (forall i | 0 <= i < |ids| :: t.rows[ids[i]].status == Running)
    && (forall i, j | 0 <= i < j < |ids| :: ids[i] < ids[j])
  }

  /** The sweep over a snapshot of running ids: the table and the notices after it. */
  ghost function Sweep(t: Table, ids: seq<int>, alive: int -> bool, now: int): (Table, seq<Claimed>)
    requires RowsOf(t, ids)
    ensures Sweep(t, ids, alive, now).0.rows.Keys == t.rows.Keys
  {
    if ids == [] then (t, [])
    else
      var (t', sent) := Sweep(t, ids[..|ids| - 1], alive, now);
      var id := ids[|ids| - 1];
      var (t'', notice) := Reap(t', id, t.rows[id], alive, now);
      (t'', sent + notice)
  }

  lemma SweepStep(t: Table, ids: seq<int>, i: nat, alive: int -> bool, now: int)
    requires RowsOf(t, ids) && i < |ids|
    ensures RowsOf(t, ids[..i]) && RowsOf(t, ids[..i + 1])
    ensures var (t', sent) := Sweep(t, ids[..i], alive, now);
            var (t'', notice) := Reap(t', ids[i], t.rows[ids[i]], alive, now);
            Sweep(t, ids[..i + 1], alive, now) == (t'', sent + notice)
  {
    assert ids[..i + 1][..i] == ids[..i];
  }

  lemma RunningIsSnapshot(t: Table)
    requires WellFormed(t)
    ensures Snapshot(t, ListRunning(t))
  {
    var ids := ListRunning(t);
    ListRunningMeaning(t);
    assert forall i | 0 <= i < |ids| :: ids[i] in ids;
  }

  method SweepGhosts(queue: TaskQueue, notices: Notices, alive: int -> bool, now: int) returns (reaped: nat)
    requires WellFormed(queue.table)
    modifies queue, notices
    ensures Snapshot(old(queue.table), ListRunning(old(queue.table)))
    ensures var (t', sent) := Sweep(old(queue.table), ListRunning(old(queue.table)), alive, now);
            && queue.table == t' && notices.sent == old(notices.sent) + sent && reaped == |sent|
            && SweptExactly(old(queue.table), queue.table, sent, alive, now)
  {
    ghost var before := queue.table;
    RunningIsSnapshot(before);
    var rows := queue.ListRunningRows();
    ghost var ids := ListRunning(before);
    ghost var swept := (before, []);
    reaped := 0;
    assert ids[..0] == [];
    for i := 0 to |rows|
      invariant RowsOf(before, ids[..i]) && swept == Sweep(before, ids[..i], alive, now)
      invariant queue.table == swept.0 && notices.sent == old(notices.sent) + swept.1 && reaped == |swept.1|
    {
      SweepStep(before, ids, i, alive, now);
      swept := Sweep(before, ids[..i + 1], alive, now);
      var one := ReapRow(queue, notices, rows[i].id, rows[i].task, alive, now);
      reaped := reaped + one;
    }
    assert ids[..|ids|] == ids;
    SweepExactly(before, alive, now);
  }

  /** The body of the sweep for one row of the snapshot. */
  method ReapRow(queue: TaskQueue, notices: Notices, id: int, row: Task, alive: int -> bool, now: int)
    returns (reaped: nat)
    requires id in queue.table.rows
    modifies queue, notices
    ensures var (t', notice) := Reap(old(queue.table), id, row, alive, now);
            queue.table == t' && notices.sent == old(notices.sent) + notice && reaped == |notice|
    ensures row.status == Running && old(queue.table).rows[id] == row ==>
              && Reaped(row, queue.table.rows[id], alive, now)
              && notices.sent == old(notices.sent) +
                                 if queue.table.rows[id] == row then [] else [Claimed(id, queue.table.rows[id])]
  {
    var verdict := Verdict(row, alive, now);
    if verdict == None {
      return 0;
    }
    queue.MarkFailed(id, verdict.value);
    var refreshed := queue.Get(id);
    notices.NotifyTaskDone(id, refreshed.value);
    reaped := 1;
  }

  lemma {:induction false} SweptRows(t: Table, ids: seq<int>, alive: int -> bool, now: int)
    requires Snapshot(t, ids)
    ensures Sweep(t, ids, alive, now).0.next == t.next
    ensures forall id | id in t.rows :: Sweep(t, ids, alive, now).0.rows[id] ==
                                        if id in ids then Swept(t.rows[id], alive, now) else t.rows[id]
  {
    if ids != [] {
      var front, id := ids[..|ids| - 1], ids[|ids| - 1];
      SweptRows(t, front, alive, now);
      assert ids == front + [id] && id !in front;
    }
  }

  /** The notices of a sweep: the ghosts among `ids`, in order, each with its final row. */
  ghost predicate Announces(t: Table, ids: seq<int>, alive: int -> bool, now: int, sent: seq<Claimed>) {
    && (forall k | 0 <= k < |sent| :: sent[k].id in ids && IsGhost(t, alive, now, sent[k].id)
                                      && sent[k].task == Swept(t.rows[sent[k].id], alive, now))
    && (forall j, k | 0 <= j < k < |sent| :: sent[j].id < sent[k].id)
    && (forall id | id in ids && IsGhost(t, alive, now, id) :: exists k :: 0 <= k < |sent| && sent[k].id == id)
  }

  lemma AnnouncesOneMore(t: Table, front: seq<int>, id: int, alive: int -> bool, now: int, sent: seq<Claimed>)
    requires Announces(t, front, alive, now, sent) && IsGhost(t, alive, now, id)
    requires forall i | 0 <= i < |front| :: front[i] < id
    ensures Announces(t, front + [id], alive, now, sent + [Claimed(id, Swept(t.rows[id], alive, now))])
  {
    var ids, all := front + [id], sent + [Claimed(id, Swept(t.rows[id], alive, now))];
    assert id in ids && forall x | x in front :: x in ids;
    forall j, k | 0 <= j < k < |all| ensures all[j].id < all[k].id {
      if k == |sent| { assert sent[j].id in front; }
    }
    forall x | x in ids && IsGhost(t, alive, now, x) ensures exists k :: 0 <= k < |all| && all[k].id == x {
      if x == id {
        assert all[|sent|].id == x;
      } else {
        assert x in front;
        var k :| 0 <= k < |sent| && sent[k].id == x;
        assert all[k].id == x;
      }
    }
  }

  lemma AnnouncesNoMore(t: Table, front: seq<int>, id: int, alive: int -> bool, now: int, sent: seq<Claimed>)
    requires Announces(t, front, alive, now, sent) && !IsGhost(t, alive, now, id)
    ensures Announces(t, front + [id], alive, now, sent)
  {
    assert forall x :: x in front + [id] <==> x in front || x == id;
  }

  lemma {:induction false} SweepNotices(t: Table, ids: seq<int>, alive: int -> bool, now: int)
    requires Snapshot(t, ids)
    ensures Announces(t, ids, alive, now, Sweep(t, ids, alive, now).1)
  {
    if ids != [] {
      var n := |ids| - 1;
      var front, id := ids[..n], ids[n];
      SweepNotices(t, front, alive, now);
      SweptRows(t, front, alive, now);
      assert ids == front + [id] && id !in front;
      var (t', sent) := Sweep(t, front, alive, now);
      SweepStep(t, ids, n, alive, now);
      assert ids[..n + 1] == ids;
      if IsGhost(t, alive, now, id) {
        assert t'.rows[id] == t.rows[id];
        AnnouncesOneMore(t, front, id, alive, now, sent);
      } else {
        assert sent + [] == sent;
        AnnouncesNoMore(t, front, id, alive, now, sent);
      }
    }
  }

  lemma SweepOfSnapshot(t: Table, ids: seq<int>, alive: int -> bool, now: int)
    requires Snapshot(t, ids)
    requires forall x | x in t.rows && t.rows[x].status == Running :: x in ids
    ensures Sweep(t, ids, alive, now).0 == SweptTable(t, alive, now)
  {
    SweptRows(t, ids, alive, now);
    var rows, swept := Sweep(t, ids, alive, now).0.rows, SweptTable(t, alive, now).rows;
    assert forall x | x in t.rows :: rows[x] == swept[x];
    assert rows == swept;
  }

  /** A sweep fails every ghost with its reason and touches nothing else; each
      ghost is announced exactly once, in id order, with its final row. */
  lemma SweepMeaning(t: Table, alive: int -> bool, now: int)
    requires WellFormed(t)
    ensures Snapshot(t, ListRunning(t))
    ensures Sweep(t, ListRunning(t), alive, now).0 == SweptTable(t, alive, now)
    ensures Announces(t, ListRunning(t), alive, now, Sweep(t, ListRunning(t), alive, now).1)
    ensures forall id | IsGhost(t, alive, now, id) :: id in ListRunning(t)
  {
    RunningIsSnapshot(t);
    ListRunningMeaning(t);
    SweepOfSnapshot(t, ListRunning(t), alive, now);
    SweepNotices(t, ListRunning(t), alive, now);
  }

  /** The same written out, without the reaper's own verdict. */
  lemma SweepExactly(t: Table, alive: int -> bool, now: int)
    requires WellFormed(t)
    ensures Snapshot(t, ListRunning(t))
    ensures var (t', sent) := Sweep(t, ListRunning(t), alive, now); SweptExactly(t, t', sent, alive, now)
  {
    SweepMeaning(t, alive, now);
    var (t', sent) := Sweep(t, ListRunning(t), alive, now);
    forall id | id in t.rows
      ensures Reaped(t.rows[id], t'.rows[id], alive, now) && (t'.rows[id] != t.rows[id] <==> IsGhost(t, alive, now, id))
    {
      assert t'.rows[id] == Swept(t.rows[id], alive, now);
    }
  }

  /** What a sweep leaves running: a live worker, or a fresh claim without a pid. */
  ghost predicate Excused(row: Task, alive: int -> bool, now: int) {
    (PidOf(row) > 0 && alive(PidOf(row))) || (PidOf(row) <= 0 && Young(row, now))
  }

  /** The table right after a sweep of `t`. */
  function SweptTable(t: Table, alive: int -> bool, now: int): Table {
    t.(rows := map id | id in t.rows :: Swept(t.rows[id], alive, now))
  }

  /** The single-running guard cannot wedge a project: after a sweep, a project
      either has a running row that is excused, or its next claim succeeds with
      the head of its queue whenever there is pending work. */
  lemma SweepUnwedges(t: Table, alive: int -> bool, now: int, p: string, later: int)
    requires WellFormed(t)
    ensures
      var t' := SweptTable(t, alive, now);
      && (forall id | id in t'.rows && t'.rows[id].status == Running :: Excused(t'.rows[id], alive, now))
      && ListPending(t', p) == ListPending(t, p)
      && ((forall id | IsRunning(t, p, id) :: !Excused(t.rows[id], alive, now)) ==>
            Claim(t', p, later).1 == if ListPending(t, p) == [] then None else Some(ListPending(t, p)[0]))
  {
    var t' := SweptTable(t, alive, now);
    SamePendingList(t, t', p, t.next);
    ListPendingMeaning(t', p);
    ClaimMeaning(t', p, later);
    GetRunningMeaning(t', p);
    if forall id | IsRunning(t, p, id) :: !Excused(t.rows[id], alive, now) {
      assert forall x :: !IsRunning(t', p, x) by {
        forall x ensures !IsRunning(t', p, x) {
          assert IsRunning(t', p, x) ==> IsRunning(t, p, x);
        }
      }
    }
  }
}
