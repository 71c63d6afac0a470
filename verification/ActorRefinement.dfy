/** The interleaved canceller and reaper, left alone, do what their one-call code
    does (src/task_control.py:38-70, src/ghost_reaper.py:30-69). */
module ActorRefinement {
  import opened Base
  import opened TaskTable
  import opened TaskQueues
  import opened GhostReaper
  import opened TaskControl
  import opened QueueMachine

  // ---- the canceller ------------------------------------------------------

  function CancelSteps(db: Shared, c: Actor, n: nat): (Shared, Option<Actor>)
    requires c.Canceller?
    decreases n
  {
    if n == 0 then (db, Some(c))
    else
      var (db', c') := CancellerStep(db, c);
      if c' == None || !c'.value.Canceller? then (db', c') else CancelSteps(db', c'.value, n - 1)
  }

  /** Refinement: undisturbed, a canceller is done after at most four steps, with
      the table the one call leaves and the one notice it gives. */
  lemma StepsRefineCancel(db: Shared, c: Actor, n: nat)
    requires c.Canceller? && c.cpc == ReadingRunning && n >= 4
    ensures
      var running := GetRunning(db.table, c.project);
      CancelSteps(db, c, n) ==
        (db.(table := CancelledTable(db.table, c.project, c.drain),
             told := db.told + if running.Some? then {running.value} else {}),
         None)
  {
    var running := GetRunning(db.table, c.project);
    if running == None {
      assert db.told + {} == db.told;
      if c.drain { assert CancelSteps(db, c, n) == CancelSteps(db, c.(cpc := Draining), n - 1); }
    } else {
      var cancelled := db.(table := Cancel(db.table, running.value));
      var told := cancelled.(told := db.told + {running.value});
      assert CancelSteps(db, c, n) == CancelSteps(db, c.(cpc := Cancelling, id := running.value), n - 1);
      assert CancelSteps(db, c.(cpc := Cancelling, id := running.value), n - 1)
          == CancelSteps(cancelled, c.(cpc := Announcing, id := running.value), n - 2);
      if c.drain {
        assert CancelSteps(cancelled, c.(cpc := Announcing, id := running.value), n - 2)
            == CancelSteps(told, c.(cpc := Draining, id := running.value), n - 3);
      }
    }
  }

  // ---- the reaper ---------------------------------------------------------

  /** What the system answers a reaper that looks at this row. */
  function LivenessOf(r: Actor, alive: int -> bool): Oracle
    requires r.Reaper?
  {
    Oracle(if r.todo != [] then alive(PidOf(r.todo[0].1)) else true, r.now, 0, ProjectWorker.TimedOutExit, "")
  }

  /** Steps until the snapshot is dealt with, at most `n` of them. */
  function ReapSteps(db: Shared, r: Actor, alive: int -> bool, n: nat): (Shared, Actor)
    requires r.Reaper?
    decreases n
  {
    if n == 0 || (r.rpc == Sweeping && r.todo == []) then (db, r)
    else
      var (db', r') := ReaperStep(db, r, LivenessOf(r, alive));
      if r'.Reaper? then ReapSteps(db', r', alive, n - 1) else (db', r')
  }

  function Noticed(notice: seq<Claimed>, id: int): set<int> { if notice == [] then {} else {id} }

  /** A sweep from the first row of the snapshot on. */
  function SweepFrom(t: Table, rows: seq<(int, Task)>, alive: int -> bool, now: int): (Table, set<int>)
    requires forall i | 0 <= i < |rows| :: rows[i].0 in t.rows
    ensures SweepFrom(t, rows, alive, now).0.rows.Keys == t.rows.Keys
    decreases |rows|
  {
    if rows == [] then (t, {})
    else
      var (t', notice) := Reap(t, rows[0].0, rows[0].1, alive, now);
      var (t'', rest) := SweepFrom(t', rows[1..], alive, now);
      (t'', Noticed(notice, rows[0].0) + rest)
  }

  /** The next row of the snapshot is dealt with in one step or in three. */
  lemma RowIsReaped(db: Shared, r: Actor, alive: int -> bool, n: nat)
    requires r.Reaper? && r.rpc == Sweeping && r.todo != [] && n >= 3 && r.todo[0].0 in db.table.rows
    ensures
      var (id, row) := r.todo[0];
      var (t', notice) := Reap(db.table, id, row, alive, r.now);
      ReapSteps(db, r, alive, n) ==
        if notice == [] then ReapSteps(db, r.(todo := r.todo[1..]), alive, n - 1)
        else ReapSteps(db.(table := t', told := db.told + {id}), Reaper(r.todo[1..], Sweeping, r.now, id), alive, n - 3)
  {
    var (id, row) := r.todo[0];
    var o := LivenessOf(r, alive);
    var verdict := Verdict(row, alive, r.now);
    assert Verdict(row, pid => o.yes, r.now) == verdict;
    if verdict.Some? {
      var failing := Reaper(r.todo[1..], Failing(verdict.value), r.now, id);
      var failed := db.(table := MarkFailed(db.table, id, verdict.value));
      assert ReapSteps(db, r, alive, n) == ReapSteps(db, failing, alive, n - 1);
      assert ReapSteps(db, failing, alive, n - 1) == ReapSteps(failed, failing.(rpc := Reporting), alive, n - 2);
    }
  }

  lemma {:induction false} TodoIsSwept(db: Shared, r: Actor, alive: int -> bool, n: nat)
    requires r.Reaper? && r.rpc == Sweeping && n >= 3 * |r.todo|
    requires forall i | 0 <= i < |r.todo| :: r.todo[i].0 in db.table.rows
    decreases |r.todo|
    ensures var (db', r') := ReapSteps(db, r, alive, n);
            var (t, told) := SweepFrom(db.table, r.todo, alive, r.now);
            && db' == db.(table := t, told := db.told + told)
            && r'.Reaper? && r'.rpc == Sweeping && r'.todo == []
  {
    if r.todo == [] {
      assert db.told + {} == db.told;
    } else {
      var (id, row) := r.todo[0];
      RowIsReaped(db, r, alive, n);
      var (t', notice) := Reap(db.table, id, row, alive, r.now);
      var rest := SweepFrom(t', r.todo[1..], alive, r.now).1;
      if notice == [] {
        TodoIsSwept(db, r.(todo := r.todo[1..]), alive, n - 1);
        assert {} + rest == rest;
      } else {
        TodoIsSwept(db.(table := t', told := db.told + {id}), Reaper(r.todo[1..], Sweeping, r.now, id), alive, n - 3);
        assert (db.told + {id}) + rest == db.told + ({id} + rest);
      }
    }
  }

  /** The snapshot of the machine is the listing of the table. */
  lemma {:induction false} SnapshotIsListing(t: Table, n: nat)
    ensures |RunningRowsBelow(t, n)| == |AllRunningBelow(t, n)|
    ensures forall i | 0 <= i < |RunningRowsBelow(t, n)| ::
              var id := AllRunningBelow(t, n)[i]; id in t.rows && RunningRowsBelow(t, n)[i] == (id, t.rows[id])
  {
    if n > 0 { SnapshotIsListing(t, n - 1); }
  }

  /** The ids of a list of notices. */
  function Announced(sent: seq<Claimed>): set<int> { set i | 0 <= i < |sent| :: sent[i].id }

  lemma AnnouncedAppend(a: seq<Claimed>, b: seq<Claimed>)
    ensures Announced(a + b) == Announced(a) + Announced(b)
  {
    forall x | x in Announced(a) + Announced(b) ensures x in Announced(a + b) {
      if x in Announced(a) {
        var i :| 0 <= i < |a| && a[i].id == x;
        assert (a + b)[i].id == x;
      } else {
        var i :| 0 <= i < |b| && b[i].id == x;
        assert (a + b)[|a| + i].id == x;
      }
    }
  }

  lemma {:induction false} SweepFromSnoc(t: Table, rows: seq<(int, Task)>, last: (int, Task), alive: int -> bool,
                                        now: int)
    requires last.0 in t.rows && forall i | 0 <= i < |rows| :: rows[i].0 in t.rows
    decreases |rows|
    ensures forall i | 0 <= i < |rows| + 1 :: (rows + [last])[i].0 in t.rows
    ensures var (t', told) := SweepFrom(t, rows, alive, now);
            var (t'', notice) := Reap(t', last.0, last.1, alive, now);
            SweepFrom(t, rows + [last], alive, now) == (t'', told + Noticed(notice, last.0))
  {
    if rows == [] {
      assert rows + [last] == [last] && [last][1..] == [];
      var (t'', notice) := Reap(t, last.0, last.1, alive, now);
      assert SweepFrom(t'', [], alive, now) == (t'', {});
      assert Noticed(notice, last.0) + {} == {} + Noticed(notice, last.0);
    } else {
      var (t1, first) := Reap(t, rows[0].0, rows[0].1, alive, now);
      SweepFromSnoc(t1, rows[1..], last, alive, now);
      var (t', told) := SweepFrom(t1, rows[1..], alive, now);
      var (t'', notice) := Reap(t', last.0, last.1, alive, now);
      assert (rows + [last])[1..] == rows[1..] + [last] && (rows + [last])[0] == rows[0];
      var a, b := Noticed(first, rows[0].0), Noticed(notice, last.0);
      assert a + (told + b) == (a + told) + b;
    }
  }

  lemma NoticeAnnounced(t: Table, id: int, row: Task, alive: int -> bool, now: int)
    requires id in t.rows
    ensures var notice := Reap(t, id, row, alive, now).1; Announced(notice) == Noticed(notice, id)
  {
    var notice := Reap(t, id, row, alive, now).1;
    if notice != [] { assert notice[0].id == id && id in Announced(notice); }
  }

  /** Sweeping from the front or from the back is the same. */
  lemma {:induction false} SweepFromIsSweep(t: Table, rows: seq<(int, Task)>, ids: seq<int>, alive: int -> bool,
                                           now: int)
    requires |rows| == |ids| && RowsOf(t, ids)
    requires forall i | 0 <= i < |rows| :: ids[i] in t.rows && rows[i] == (ids[i], t.rows[ids[i]])
    ensures var (t', sent) := Sweep(t, ids, alive, now);
            SweepFrom(t, rows, alive, now) == (t', Announced(sent))
  {
    if rows == [] {
      assert Announced([]) == {};
    } else {
      var n := |rows| - 1;
      SweepFromIsSweep(t, rows[..n], ids[..n], alive, now);
      SweepFromSnoc(t, rows[..n], rows[n], alive, now);
      assert rows == rows[..n] + [rows[n]];
      var (t', sent) := Sweep(t, ids[..n], alive, now);
      AnnouncedAppend(sent, Reap(t', ids[n], t.rows[ids[n]], alive, now).1);
      NoticeAnnounced(t', ids[n], t.rows[ids[n]], alive, now);
    }
  }

  /** Refinement: undisturbed, a reaper that takes a snapshot of the table fails
      and announces exactly what one sweep does. */
  lemma StepsRefineSweep(db: Shared, r: Actor, alive: int -> bool, now: int, n: nat)
    requires r.Reaper? && r.rpc == Sweeping && r.todo == [] && WellFormed(db.table)
    requires n >= 3 * |ListRunning(db.table)|
    ensures
      var o := Oracle(true, now, 0, ProjectWorker.TimedOutExit, "");
      var (db0, r0) := ReaperStep(db, r, o);
      && r0.Reaper? && Snapshot(db.table, ListRunning(db.table))
      && var (db', r') := ReapSteps(db0, r0, alive, n);
         var (t', sent) := Sweep(db.table, ListRunning(db.table), alive, now);
         && db' == db.(table := t', told := db.told + Announced(sent))
         && r'.Reaper? && r'.rpc == Sweeping && r'.todo == []
  {
    var rows := RunningRowsBelow(db.table, db.table.next);
    SnapshotIsListing(db.table, db.table.next);
    RunningIsSnapshot(db.table);
    TodoIsSwept(db, r.(todo := rows, now := now), alive, n);
    SweepFromIsSweep(db.table, rows, ListRunning(db.table), alive, now);
  }
}
