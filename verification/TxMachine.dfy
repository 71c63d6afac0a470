/** Any number of threads on one wrapped connection (src/chat_db_tx.py:83-184):
    the re-entrant lock, per-thread depth, shared connection and shared hook list,
    interleaved one step at a time with other processes and with leftovers of
    unwrapped statements. What a body does next is chosen step by step. */
module TxMachine {
  import opened Base
  import opened TxWrapper

  /** What the world, or the body, does in a step. */
  datatype Choice<W> =
    | Ok
    | Fail(e: Exc)             // BEGIN or COMMIT raises
    | DoWrite(w: W)
    | DoHook(h: Hook)
    | Enter(caught: bool)      // nested `_run_tx`; `caught` if its caller swallows exceptions
    | DoRaise(e: Exc)
    | Finish                   // the innermost function returns

  /** Where a thread stands. `nest` holds one flag per open nested call, innermost
      last; `wrote` and `hooks` are what this attempt has done so far. */
  datatype Thread<W> =
    | Idle
    | WantLock(call: int, reading: bool)
    | Guarding(call: int, reading: bool)
    | Beginning(call: int, attempt: nat)
    | InBody(call: int, attempt: nat, nest: seq<bool>, wrote: seq<W>, hooks: seq<Hook>)
    | Committing(call: int, attempt: nat, wrote: seq<W>, hooks: seq<Hook>)
    | Unwinding(call: int, attempt: nat, exc: Exc)
    | Deciding(call: int, attempt: nat, exc: Exc)
    | Firing(call: int, left: seq<Hook>)
    | Reading(call: int)

  /** One commit that reached the file. `call` is None for another process. */
  datatype Commit<W> = Commit(call: Option<int>, wrote: seq<W>, hooks: seq<Hook>)

  /** What the threads share. `log`, `fired` and `results` are history: commits in
      order, hooks fired per call, and how finished calls ended. */
  datatype Shared<S, W> = Shared(
    durable: S,
    working: S,
    inTx: bool,
    holder: Option<int>,
    afterCommit: seq<Hook>,
    log: seq<Commit<W>>,
    fired: map<int, seq<Hook>>,
    results: map<int, Outcome>)

  /** `used` maps every call made to whether it is a `_read`. */
  datatype State<S, W> = State(db: Shared<S, W>, threads: map<int, Thread<W>>, used: map<int, bool>)

  datatype Action<W> =
    | Call(tid: int, call: int, reading: bool)
    | Step(tid: int, choice: Choice<W>)
    | OtherProcess(wrote: seq<W>)     // another process commits
    | LeaveOpen(wrote: seq<W>)        // an unwrapped statement leaves a transaction open

  predicate HoldsLock<W>(t: Thread<W>) { !t.Idle? && !t.WantLock? && !t.Firing? }

  /** The thread's `_tx_depth`. */
  function DepthOf<W>(t: Thread<W>): nat {
    match t
    case InBody(_, _, nest, _, _) => 1 + |nest|
    case Committing(_, _, _, _) => 1
    case Unwinding(_, _, _) => 1
    case _ => 0
  }

  /** The frames an exception unwinds: up to and including the innermost catching one. */
  function Unwind(nest: seq<bool>): Option<seq<bool>> {
    if nest == [] then None
    else if nest[|nest| - 1] then Some(nest[..|nest| - 1])
    else Unwind(nest[..|nest| - 1])
  }

  /** A rollback, or the replacement of a connection whose rollback failed. */
  function Clean<S, W>(db: Shared<S, W>): Shared<S, W> { db.(inTx := false, working := db.durable) }

  function FiredBy(fired: map<int, seq<Hook>>, call: int): seq<Hook> { if call in fired then fired[call] else [] }

  /** One thing a body does. */
  function BodyStep<S, W>(apply: (S, W) -> S, db: Shared<S, W>, call: int, n: nat, nest: seq<bool>, wrote: seq<W>,
                          hooks: seq<Hook>, c: Choice<W>): (Shared<S, W>, Thread<W>)
  {
    match c
    case DoWrite(w) => (db.(working := apply(db.working, w)), InBody(call, n, nest, wrote + [w], hooks))
    case DoHook(h) => (db.(afterCommit := db.afterCommit + [h]), InBody(call, n, nest, wrote, hooks + [h]))
    case Enter(caught) => (db, InBody(call, n, nest + [caught], wrote, hooks))
    case DoRaise(e) =>
      var caught := Unwind(nest);
      (db, if caught.Some? then InBody(call, n, caught.value, wrote, hooks) else Unwinding(call, n, e))
    case Finish =>
      (db, if nest != [] then InBody(call, n, nest[..|nest| - 1], wrote, hooks) else Committing(call, n, wrote, hooks))
    case _ => (db, InBody(call, n, nest, wrote, hooks))
  }

  function Advance<S, W>(apply: (S, W) -> S, db: Shared<S, W>, tid: int, t: Thread<W>, c: Choice<W>):
    (Shared<S, W>, Thread<W>)
  {
    match t
    case Idle => (db, t)
    case WantLock(call, reading) =>
      if db.holder == None then (db.(holder := Some(tid)), Guarding(call, reading)) else (db, t)
    case Guarding(call, reading) =>
      (if db.inTx then Clean(db) else db, if reading then Reading(call) else Beginning(call, 1))
    case Beginning(call, n) =>
      if c.Fail? then (db, Deciding(call, n, c.e))
      else (db.(inTx := true, working := db.durable), InBody(call, n, [], [], []))
    case InBody(call, n, nest, wrote, hooks) => BodyStep(apply, db, call, n, nest, wrote, hooks, c)
    case Committing(call, n, wrote, hooks) =>
      if c.Fail? then (db, Unwinding(call, n, c.e))
      else (db.(durable := db.working, inTx := false, afterCommit := [], holder := None,
                log := db.log + [Commit(Some(call), wrote, hooks)], fired := db.fired[call := []]),
            Firing(call, db.afterCommit))
    case Unwinding(call, n, e) => (Clean(db).(afterCommit := []), Deciding(call, n, e))
    case Deciding(call, n, e) =>
      if e == Locked && n == 1 then (Clean(db).(afterCommit := []), Beginning(call, 2))
      else (db.(holder := None, results := db.results[call := RaisedExc(e)]), Idle)
    case Firing(call, left) =>
      if left == [] then (db.(results := db.results[call := Returned]), Idle)
      else (db.(fired := db.fired[call := FiredBy(db.fired, call) + [left[0]]]), Firing(call, left[1..]))
    case Reading(call) => (db.(holder := None, results := db.results[call := Returned]), Idle)
  }

  /** A step that is not enabled does nothing. Other writers are shut out while
      our connection holds an open transaction. */
  function Next<S, W>(apply: (S, W) -> S, s: State<S, W>, a: Action<W>): State<S, W> {
    match a
    case Call(tid, call, reading) =>
      if call in s.used || (tid in s.threads && !s.threads[tid].Idle?) then s
      else s.(threads := s.threads[tid := WantLock(call, reading)], used := s.used[call := reading])
    case Step(tid, c) =>
      if tid !in s.threads then s
      else
        var (db, t) := Advance(apply, s.db, tid, s.threads[tid], c);
        s.(db := db, threads := s.threads[tid := t])
    case OtherProcess(wrote) =>
      if s.db.inTx then s
      else s.(db := s.db.(durable := Fold(apply, s.db.durable, wrote), log := s.db.log + [Commit(None, wrote, [])]))
    case LeaveOpen(wrote) =>
      if s.db.holder.Some? || s.db.inTx then s
      else s.(db := s.db.(inTx := true, working := Fold(apply, s.db.durable, wrote)))
  }

  function Run<S, W>(apply: (S, W) -> S, s: State<S, W>, acts: seq<Action<W>>): State<S, W> {
    if acts == [] then s else Next(apply, Run(apply, s, acts[..|acts| - 1]), acts[|acts| - 1])
  }

  function Boot<S, W>(init: S): State<S, W> {
    State(Shared(init, init, false, None, [], [], map[], map[]), map[], map[])
  }

  /** What a read on this connection returns now. */
  function Seen<S, W>(db: Shared<S, W>): S { if db.inTx then db.working else db.durable }

  /** The state after a sequence of commits. */
  function Replay<S, W>(apply: (S, W) -> S, init: S, log: seq<Commit<W>>): S {
    if log == [] then init else Fold(apply, Replay(apply, init, log[..|log| - 1]), log[|log| - 1].wrote)
  }

  // ---- invariant ----------------------------------------------------------

  /** Exactly the holder is inside the locked region. */
  ghost predicate LockOk<S, W>(s: State<S, W>) {
    && (forall t | t in s.threads :: HoldsLock(s.threads[t]) <==> s.db.holder == Some(t))
    && (s.db.holder.Some? ==> s.db.holder.value in s.threads)
  }

  /** What a lock holder at `t` may rely on about connection and hook list. */
  ghost predicate ConnAt<S, W>(apply: (S, W) -> S, db: Shared<S, W>, t: Thread<W>) {
    match t
    case InBody(_, _, _, wrote, hooks) =>
      db.inTx && db.working == Fold(apply, db.durable, wrote) && db.afterCommit == hooks
    case Committing(_, _, wrote, hooks) =>
      db.inTx && db.working == Fold(apply, db.durable, wrote) && db.afterCommit == hooks
    case Unwinding(_, _, _) => db.inTx
    case Guarding(_, _) => db.afterCommit == []
    case _ => !db.inTx && db.afterCommit == []
  }

  ghost predicate ConnOk<S, W>(apply: (S, W) -> S, s: State<S, W>) {
    && (s.db.holder == None ==> s.db.afterCommit == [])
    && (forall t | t in s.threads && HoldsLock(s.threads[t]) :: ConnAt(apply, s.db, s.threads[t]))
  }

  predicate Logged<W>(log: seq<Commit<W>>, call: int) { exists i | 0 <= i < |log| :: log[i].call == Some(call) }

  /** A thread's position fits the kind of its call. */
  predicate KindOk<W>(t: Thread<W>, reading: bool) {
    match t
    case Idle => true
    case WantLock(_, r) => r == reading
    case Guarding(_, r) => r == reading
    case Reading(_) => reading
    case _ => !reading
  }

  /** Calls in progress are distinct, unfinished, and in the log only once they fire. */
  ghost predicate CallsOk<S, W>(s: State<S, W>) {
    && (forall t | t in s.threads && !s.threads[t].Idle? ::
          && s.threads[t].call in s.used && s.threads[t].call !in s.db.results
          && KindOk(s.threads[t], s.used[s.threads[t].call])
          && (Logged(s.db.log, s.threads[t].call) <==> s.threads[t].Firing?))
    && (forall t, u | t in s.threads && u in s.threads && t != u && !s.threads[t].Idle? && !s.threads[u].Idle? ::
          s.threads[t].call != s.threads[u].call)
    && (forall c | c in s.db.results :: c in s.used)
  }

  /** One log entry a call; a write call has one when it returned and none when it
      raised; only logged calls fire. */
  ghost predicate LogOk<S, W>(s: State<S, W>) {
    && (forall i, j | 0 <= i < j < |s.db.log| && s.db.log[i].call.Some? :: s.db.log[i].call != s.db.log[j].call)
    && (forall i | 0 <= i < |s.db.log| && s.db.log[i].call.Some? :: s.db.log[i].call.value in s.used)
    && (forall c | c in s.db.results && c in s.used && !s.used[c] ::
          Logged(s.db.log, c) <==> s.db.results[c] == Returned)
    && (forall c | c in s.db.results && s.db.results[c].RaisedExc? :: !Logged(s.db.log, c))
    && (forall c | c in s.db.fired :: Logged(s.db.log, c))
  }

  /** Somebody is still firing hooks for a call. */
  ghost predicate StillFiring<S, W>(s: State<S, W>, call: int, hooks: seq<Hook>) {
    exists t | t in s.threads ::
      s.threads[t].Firing? && s.threads[t].call == call && FiredBy(s.db.fired, call) + s.threads[t].left == hooks
  }

  /** Hooks fired so far, plus those still to fire, are what the commit recorded. */
  ghost predicate HooksOk<S, W>(s: State<S, W>) {
    forall i | 0 <= i < |s.db.log| && s.db.log[i].call.Some? ::
      var c := s.db.log[i].call.value;
      if c in s.db.results then FiredBy(s.db.fired, c) == s.db.log[i].hooks
      else StillFiring(s, c, s.db.log[i].hooks)
  }

  ghost predicate Inv<S, W>(apply: (S, W) -> S, init: S, s: State<S, W>) {
    && LockOk(s) && ConnOk(apply, s) && CallsOk(s) && LogOk(s) && HooksOk(s)
    && s.db.durable == Replay(apply, init, s.db.log)
  }

  // ---- one thread step, seen from outside ---------------------------------

  /** A thread keeps its call until it finishes with a result. */
  ghost predicate ShapeCall<S, W>(db: Shared<S, W>, db': Shared<S, W>, t: Thread<W>, t': Thread<W>) {
    && (forall r | KindOk(t, r) :: KindOk(t', r))
    && (t.Idle? ==> t' == t && db' == db)
    && (!t.Idle? && !t'.Idle? ==> t'.call == t.call && db'.results == db.results)
    && (!t.Idle? && t'.Idle? ==>
          && (t.Deciding? || t.Reading? || t.Firing?)
          && db'.results == db.results[t.call := if t.Deciding? then RaisedExc(t.exc) else Returned])
  }

  /** The lock moves with the lock-holding steps; others leave the connection alone. */
  ghost predicate ShapeLock<S, W>(db: Shared<S, W>, db': Shared<S, W>, t: Thread<W>, t': Thread<W>, tid: int) {
    && (HoldsLock(t) == HoldsLock(t') ==> db'.holder == db.holder)
    && (!HoldsLock(t) && HoldsLock(t') ==> db.holder == None && db'.holder == Some(tid))
    && (HoldsLock(t) && !HoldsLock(t') ==> db'.holder == None)
    && (!HoldsLock(t) ==> db'.durable == db.durable && db'.working == db.working && db'.inTx == db.inTx
                          && db'.afterCommit == db.afterCommit)
  }

  /** The log grows by a commit and nothing else; hooks fire one at a time. */
  ghost predicate ShapeLog<S, W>(db: Shared<S, W>, db': Shared<S, W>, t: Thread<W>, t': Thread<W>) {
    && (t.Committing? && t'.Firing? ==>
          && db'.log == db.log + [Commit(Some(t.call), t.wrote, t.hooks)]
          && db'.fired == db.fired[t.call := []] && t'.left == db.afterCommit && db'.durable == db.working)
    && (!(t.Committing? && t'.Firing?) ==> db'.log == db.log && db'.durable == db.durable)
    && (t'.Firing? ==> t.Committing? || t.Firing?)
    && (t.Firing? ==>
          if t.left == [] then t'.Idle? && db'.fired == db.fired
          else t' == Firing(t.call, t.left[1..])
               && db'.fired == db.fired[t.call := FiredBy(db.fired, t.call) + [t.left[0]]])
    && (!t.Firing? && !t'.Firing? ==> db'.fired == db.fired)
  }

  ghost predicate Shape<S, W>(db: Shared<S, W>, db': Shared<S, W>, t: Thread<W>, t': Thread<W>, tid: int) {
    ShapeCall(db, db', t, t') && ShapeLock(db, db', t, t', tid) && ShapeLog(db, db', t, t')
  }

  lemma AdvanceHasShape<S, W>(apply: (S, W) -> S, db: Shared<S, W>, tid: int, t: Thread<W>, c: Choice<W>)
    ensures Shape(db, Advance(apply, db, tid, t, c).0, t, Advance(apply, db, tid, t, c).1, tid)
  {
  }

  /** The moving thread's own view of the connection stays right, and it releases
      the lock only over a closed transaction and an empty hook list. */
  lemma MoverConn<S, W>(apply: (S, W) -> S, db: Shared<S, W>, tid: int, t: Thread<W>, c: Choice<W>)
    requires HoldsLock(t) ==> ConnAt(apply, db, t)
    requires db.holder == None ==> db.afterCommit == []
    ensures var (db', t') := Advance(apply, db, tid, t, c);
            && (HoldsLock(t') ==> ConnAt(apply, db', t'))
            && (HoldsLock(t) && !HoldsLock(t') ==> db'.afterCommit == [] && !db'.inTx)
  {
    if t.InBody? && c.DoWrite? {
      assert (t.wrote + [c.w])[..|t.wrote|] == t.wrote;
    }
  }

  // ---- preservation by a thread step --------------------------------------

  /** The state after `tid` moves. */
  function Moved<S, W>(s: State<S, W>, tid: int, db': Shared<S, W>, t': Thread<W>): State<S, W> {
    s.(db := db', threads := s.threads[tid := t'])
  }

  lemma LockKept<S, W>(s: State<S, W>, tid: int, db': Shared<S, W>, t': Thread<W>)
    requires tid in s.threads && LockOk(s) && ShapeLock(s.db, db', s.threads[tid], t', tid)
    ensures LockOk(Moved(s, tid, db', t'))
  {
  }

  lemma ConnKept<S, W>(apply: (S, W) -> S, s: State<S, W>, tid: int, db': Shared<S, W>, t': Thread<W>)
    requires tid in s.threads && LockOk(s) && ConnOk(apply, s) && ShapeLock(s.db, db', s.threads[tid], t', tid)
    requires HoldsLock(t') ==> ConnAt(apply, db', t')
    requires HoldsLock(s.threads[tid]) && !HoldsLock(t') ==> db'.afterCommit == []
    ensures ConnOk(apply, Moved(s, tid, db', t'))
  {
    var s' := Moved(s, tid, db', t');
    LockKept(s, tid, db', t');
    forall u | u in s'.threads && HoldsLock(s'.threads[u]) ensures ConnAt(apply, db', s'.threads[u]) {
      if u != tid {
        assert db'.holder == Some(u) == s.db.holder;
        assert !HoldsLock(s.threads[tid]) && ConnAt(apply, s.db, s.threads[u]);
      }
    }
  }

  lemma LoggedMore<W>(log: seq<Commit<W>>, entry: Commit<W>)
    ensures forall c :: Logged(log + [entry], c) <==> Logged(log, c) || entry.call == Some(c)
  {
    forall c ensures Logged(log + [entry], c) <==> Logged(log, c) || entry.call == Some(c) {
      if Logged(log, c) {
        var i :| 0 <= i < |log| && log[i].call == Some(c);
        assert (log + [entry])[i].call == Some(c);
      }
      if entry.call == Some(c) { assert (log + [entry])[|log|].call == Some(c); }
    }
  }

  /** Who is in the log after a step: who was, and a call that just committed. */
  lemma LoggedAfter<S, W>(db: Shared<S, W>, db': Shared<S, W>, t: Thread<W>, t': Thread<W>)
    requires ShapeLog(db, db', t, t')
    ensures forall c :: Logged(db'.log, c) <==> Logged(db.log, c) || (t.Committing? && t'.Firing? && t.call == c)
  {
    if t.Committing? && t'.Firing? { LoggedMore(db.log, Commit(Some(t.call), t.wrote, t.hooks)); }
  }

  lemma CallsKept<S, W>(s: State<S, W>, tid: int, db': Shared<S, W>, t': Thread<W>)
    requires tid in s.threads && CallsOk(s) && Shape(s.db, db', s.threads[tid], t', tid)
    ensures CallsOk(Moved(s, tid, db', t'))
  {
    var s' := Moved(s, tid, db', t');
    LoggedAfter(s.db, db', s.threads[tid], t');
    forall u | u in s'.threads && !s'.threads[u].Idle?
      ensures s'.threads[u].call in s'.used && s'.threads[u].call !in db'.results
      ensures Logged(db'.log, s'.threads[u].call) <==> s'.threads[u].Firing?
    {
      assert !s.threads[u].Idle? && s.threads[u].call == s'.threads[u].call;
      if u != tid && !s.threads[tid].Idle? { assert s.threads[u].call != s.threads[tid].call; }
    }
  }

  lemma LogKept<S, W>(s: State<S, W>, tid: int, db': Shared<S, W>, t': Thread<W>)
    requires tid in s.threads && CallsOk(s) && LogOk(s) && Shape(s.db, db', s.threads[tid], t', tid)
    ensures LogOk(Moved(s, tid, db', t'))
  {
    var t := s.threads[tid];
    LoggedAfter(s.db, db', t, t');
    if !t.Idle? { assert Logged(s.db.log, t.call) <==> t.Firing?; }
    if t.Committing? && t'.Firing? {
      assert forall i | 0 <= i < |s.db.log| :: s.db.log[i].call == Some(t.call) ==> Logged(s.db.log, t.call);
    }
  }

  /** Hooks of calls other than the mover's are where they were. */
  lemma OthersStillFire<S, W>(s: State<S, W>, tid: int, db': Shared<S, W>, t': Thread<W>, c: int, hooks: seq<Hook>)
    requires tid in s.threads && StillFiring(s, c, hooks) && Shape(s.db, db', s.threads[tid], t', tid)
    requires !s.threads[tid].Idle? ==> s.threads[tid].call != c
    ensures StillFiring(Moved(s, tid, db', t'), c, hooks)
  {
    var u :| u in s.threads && s.threads[u].Firing? && s.threads[u].call == c
             && FiredBy(s.db.fired, c) + s.threads[u].left == hooks;
    var s' := Moved(s, tid, db', t');
    assert u != tid && s'.threads[u] == s.threads[u] && FiredBy(db'.fired, c) == FiredBy(s.db.fired, c);
  }

  /** The mover's own hooks: fired one more, or finished. */
  lemma MoverFires<S, W>(s: State<S, W>, tid: int, db': Shared<S, W>, t': Thread<W>, hooks: seq<Hook>)
    requires tid in s.threads && CallsOk(s) && Shape(s.db, db', s.threads[tid], t', tid)
    requires s.threads[tid].Firing? && StillFiring(s, s.threads[tid].call, hooks)
    ensures var c := s.threads[tid].call;
            if c in db'.results then FiredBy(db'.fired, c) == hooks
            else StillFiring(Moved(s, tid, db', t'), c, hooks)
  {
    var t := s.threads[tid];
    var u :| u in s.threads && s.threads[u].Firing? && s.threads[u].call == t.call
             && FiredBy(s.db.fired, t.call) + s.threads[u].left == hooks;
    assert u == tid;
    var s' := Moved(s, tid, db', t');
    if t.left == [] {
      assert FiredBy(s.db.fired, t.call) + [] == FiredBy(s.db.fired, t.call);
    } else {
      assert [t.left[0]] + t.left[1..] == t.left;
      assert FiredBy(db'.fired, t.call) + t'.left == hooks;
      assert s'.threads[tid] == t';
    }
  }

  lemma HooksKept<S, W>(apply: (S, W) -> S, s: State<S, W>, tid: int, db': Shared<S, W>, t': Thread<W>)
    requires tid in s.threads && CallsOk(s) && LogOk(s) && HooksOk(s) && Shape(s.db, db', s.threads[tid], t', tid)
    requires HoldsLock(s.threads[tid]) ==> ConnAt(apply, s.db, s.threads[tid])
    ensures HooksOk(Moved(s, tid, db', t'))
  {
    var t := s.threads[tid];
    var s' := Moved(s, tid, db', t');
    if !t.Idle? { assert Logged(s.db.log, t.call) <==> t.Firing?; }
    forall i | 0 <= i < |db'.log| && db'.log[i].call.Some?
      ensures var c := db'.log[i].call.value;
              if c in db'.results then FiredBy(db'.fired, c) == db'.log[i].hooks
              else StillFiring(s', c, db'.log[i].hooks)
    {
      var c := db'.log[i].call.value;
      if i < |s.db.log| {
        assert db'.log[i] == s.db.log[i] && Logged(s.db.log, c);
        if !t.Idle? && t.call == c {
          MoverFires(s, tid, db', t', s.db.log[i].hooks);
        } else if c !in s.db.results {
          OthersStillFire(s, tid, db', t', c, s.db.log[i].hooks);
        }
      } else {
        assert t.Committing? && t'.Firing? && c == t.call;
        assert s'.threads[tid] == t' && FiredBy(db'.fired, c) + t'.left == t.hooks;
      }
    }
  }

  lemma ReplayMore<S, W>(apply: (S, W) -> S, init: S, log: seq<Commit<W>>, entry: Commit<W>)
    ensures Replay(apply, init, log + [entry]) == Fold(apply, Replay(apply, init, log), entry.wrote)
  {
    assert (log + [entry])[..|log|] == log;
  }

  lemma StepKept<S, W>(apply: (S, W) -> S, init: S, s: State<S, W>, tid: int, c: Choice<W>)
    requires Inv(apply, init, s) && tid in s.threads
    ensures Inv(apply, init, Next(apply, s, Step(tid, c)))
  {
    var t := s.threads[tid];
    var (db', t') := Advance(apply, s.db, tid, t, c);
    AdvanceHasShape(apply, s.db, tid, t, c);
    MoverConn(apply, s.db, tid, t, c);
    LockKept(s, tid, db', t');
    ConnKept(apply, s, tid, db', t');
    CallsKept(s, tid, db', t');
    LogKept(s, tid, db', t');
    HooksKept(apply, s, tid, db', t');
    if t.Committing? && t'.Firing? {
      ReplayMore(apply, init, s.db.log, Commit(Some(t.call), t.wrote, t.hooks));
    }
  }

  // ---- preservation by the rest -------------------------------------------

  /** Hooks are safe from a step that leaves results, firing threads and the log
      entries of our own calls alone. */
  lemma HooksStay<S, W>(s: State<S, W>, s': State<S, W>)
    requires HooksOk(s) && s'.db.results == s.db.results && s'.db.fired == s.db.fired
    requires forall i | 0 <= i < |s'.db.log| && s'.db.log[i].call.Some? :: i < |s.db.log| && s'.db.log[i] == s.db.log[i]
    requires forall t | t in s.threads && s.threads[t].Firing? :: t in s'.threads && s'.threads[t] == s.threads[t]
    ensures HooksOk(s')
  {
    forall i | 0 <= i < |s'.db.log| && s'.db.log[i].call.Some? && s'.db.log[i].call.value !in s'.db.results
      ensures StillFiring(s', s'.db.log[i].call.value, s'.db.log[i].hooks)
    {
      var c := s.db.log[i].call.value;
      assert StillFiring(s, c, s.db.log[i].hooks);
      var u :| u in s.threads && s.threads[u].Firing? && s.threads[u].call == c
               && FiredBy(s.db.fired, c) + s.threads[u].left == s.db.log[i].hooks;
      assert s'.threads[u] == s.threads[u];
    }
  }

  lemma CallKept<S, W>(apply: (S, W) -> S, init: S, s: State<S, W>, tid: int, call: int, reading: bool)
    requires Inv(apply, init, s)
    ensures Inv(apply, init, Next(apply, s, Call(tid, call, reading)))
  {
    var s' := Next(apply, s, Call(tid, call, reading));
    if s' != s {
      assert !Logged(s.db.log, call);
      assert call !in s.db.results;
      HooksStay(s, s');
    }
  }

  lemma OtherProcessKept<S, W>(apply: (S, W) -> S, init: S, s: State<S, W>, wrote: seq<W>)
    requires Inv(apply, init, s)
    ensures Inv(apply, init, Next(apply, s, OtherProcess(wrote)))
  {
    var s' := Next(apply, s, OtherProcess(wrote));
    if !s.db.inTx {
      LoggedMore(s.db.log, Commit(None, wrote, []));
      ReplayMore(apply, init, s.db.log, Commit(None, wrote, []));
      HooksStay(s, s');
      assert LogOk(s');
      forall t | t in s.threads && HoldsLock(s.threads[t]) ensures ConnAt(apply, s'.db, s.threads[t]) {
        assert ConnAt(apply, s.db, s.threads[t]);
      }
    }
  }

  lemma LeaveOpenKept<S, W>(apply: (S, W) -> S, init: S, s: State<S, W>, wrote: seq<W>)
    requires Inv(apply, init, s)
    ensures Inv(apply, init, Next(apply, s, LeaveOpen(wrote)))
  {
    var s' := Next(apply, s, LeaveOpen(wrote));
    if s' != s { HooksStay(s, s'); }
  }

  lemma {:induction false} RunInv<S, W>(apply: (S, W) -> S, init: S, acts: seq<Action<W>>)
    ensures Inv(apply, init, Run(apply, Boot(init), acts))
  {
    if acts != [] {
      RunInv(apply, init, acts[..|acts| - 1]);
      var s := Run(apply, Boot(init), acts[..|acts| - 1]);
      match acts[|acts| - 1]
      case Call(tid, call, reading) => CallKept(apply, init, s, tid, call, reading);
      case Step(tid, c) => if tid in s.threads { StepKept(apply, init, s, tid, c); }
      case OtherProcess(wrote) => OtherProcessKept(apply, init, s, wrote);
      case LeaveOpen(wrote) => LeaveOpenKept(apply, init, s, wrote);
    }
  }

  // ---- theorems -----------------------------------------------------------

  /** The wrapper refines an atomic step, for any number of threads, any nesting
      and any failures: the file is the replay of the committed bodies in commit
      order; each call committed at most once; a write call that returned
      committed exactly once and fired exactly the hooks that commit recorded; a
      call that raised is in nobody's log and fired nothing. */
  lemma WrapperIsAtomic<S, W>(apply: (S, W) -> S, init: S, acts: seq<Action<W>>, call: int)
    requires call in Run(apply, Boot(init), acts).db.results
    ensures
      var s := Run(apply, Boot(init), acts);
      && call in s.used
      && s.db.durable == Replay(apply, init, s.db.log)
      && (forall i, j | 0 <= i < j < |s.db.log| && s.db.log[i].call.Some? :: s.db.log[i].call != s.db.log[j].call)
      && (!s.used[call] && s.db.results[call] == Returned ==>
            exists i | 0 <= i < |s.db.log| ::
              s.db.log[i].call == Some(call) && FiredBy(s.db.fired, call) == s.db.log[i].hooks)
      && (s.db.results[call].RaisedExc? ==>
            (forall i | 0 <= i < |s.db.log| :: s.db.log[i].call != Some(call)) && FiredBy(s.db.fired, call) == [])
  {
    RunInv(apply, init, acts);
    var s := Run(apply, Boot(init), acts);
    if !s.used[call] && s.db.results[call] == Returned {
      var i :| 0 <= i < |s.db.log| && s.db.log[i].call == Some(call);
      assert FiredBy(s.db.fired, call) == s.db.log[i].hooks;
    }
    if s.db.results[call].RaisedExc? {
      assert forall i | 0 <= i < |s.db.log| :: s.db.log[i].call == Some(call) ==> Logged(s.db.log, call);
    }
  }

  /** At most one thread is inside the wrapper; a `_read` sees committed data only,
      a body sees committed data plus its own writes of this attempt, and nobody
      ever sees what an unwrapped statement or another thread left uncommitted. */
  lemma ReadsAreClean<S, W>(apply: (S, W) -> S, init: S, acts: seq<Action<W>>, tid: int)
    requires tid in Run(apply, Boot(init), acts).threads
    ensures
      var s := Run(apply, Boot(init), acts);
      && (s.threads[tid].Reading? ==> Seen(s.db) == Replay(apply, init, s.db.log))
      && (s.threads[tid].InBody? ==>
            Seen(s.db) == Fold(apply, Replay(apply, init, s.db.log), s.threads[tid].wrote))
      && (forall u | u in s.threads && u != tid && HoldsLock(s.threads[tid]) ::
            !HoldsLock(s.threads[u]) && DepthOf(s.threads[u]) == 0)
  {
    RunInv(apply, init, acts);
    var s := Run(apply, Boot(init), acts);
    if HoldsLock(s.threads[tid]) { assert ConnAt(apply, s.db, s.threads[tid]); }
  }

  /** When a thread leaves the wrapper, whichever way, nothing is left behind: no
      open transaction, no pending hook, depth 0 on every thread, lock free. */
  lemma LeavesNothingOpen<S, W>(apply: (S, W) -> S, init: S, acts: seq<Action<W>>, tid: int, c: Choice<W>)
    requires tid in Run(apply, Boot(init), acts).threads && HoldsLock(Run(apply, Boot(init), acts).threads[tid])
    requires var s' := Next(apply, Run(apply, Boot(init), acts), Step(tid, c));
             tid in s'.threads && !HoldsLock(s'.threads[tid])
    ensures var s' := Next(apply, Run(apply, Boot(init), acts), Step(tid, c));
            && !s'.db.inTx && s'.db.afterCommit == [] && s'.db.holder == None
            && forall u | u in s'.threads :: DepthOf(s'.threads[u]) == 0
  {
    RunInv(apply, init, acts);
    var s := Run(apply, Boot(init), acts);
    StepKept(apply, init, s, tid, c);
    AdvanceHasShape(apply, s.db, tid, s.threads[tid], c);
    MoverConn(apply, s.db, tid, s.threads[tid], c);
    var s' := Next(apply, s, Step(tid, c));
    forall u | u in s'.threads ensures DepthOf(s'.threads[u]) == 0 {
      assert !HoldsLock(s'.threads[u]);
    }
  }

  /** A retry leaves no trace of the first attempt: the second one starts on
      committed data, with no writes and no hooks of its own. */
  lemma RetryStartsClean<S, W>(apply: (S, W) -> S, init: S, acts: seq<Action<W>>, tid: int)
    requires tid in Run(apply, Boot(init), acts).threads
             && Run(apply, Boot(init), acts).threads[tid].Deciding?
             && Run(apply, Boot(init), acts).threads[tid].exc == Locked
             && Run(apply, Boot(init), acts).threads[tid].attempt == 1
    ensures
      var s := Run(apply, Boot(init), acts);
      var again := Next(apply, Next(apply, s, Step(tid, Ok)), Step(tid, Ok));
      && tid in again.threads
      && again.threads[tid] == InBody(s.threads[tid].call, 2, [], [], [])
      && Seen(again.db) == s.db.durable && again.db.afterCommit == [] && again.db.log == s.db.log
  {
  }
}
