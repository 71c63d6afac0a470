/** One wake turn for one agent, and why the watcher stops respawning a failing
    one (src/wake_watcher.py:44-144, src/wake_helpers.py:46-59, 89-121). */
module WakeWatcher {
  import opened Base
  import opened ChatDbs
  import opened WakeSessions
  import T = TaskTable
  import M = MessageTable

  datatype Agent = Agent(project: string, running: bool, pid: Option<int>)

  /** The spawned turn raised, or returned; `isTurn` tells a genuine turn result. */
  datatype SpawnResult = Raised | Returned(isTurn: bool, exit: int)

  /** The surroundings of one turn: the agent row, pid liveness, the clock at the
      lookup, after the spawn and at the store write, a new session id, how the
      spawn ended, the message table it left behind and the events others logged
      meanwhile; the project's folder name, its running task afterwards (None also
      when emitting a status raises, which is swallowed) and its active tasks. */
  datatype World = World(agent: Option<Agent>, alive: int -> bool, now: int, later: int, stored: int, uuid: string,
                         result: SpawnResult, after: M.Messages -> M.Messages, during: seq<LogEvent>,
                         folder: string, running: Option<int>, active: set<int>)

  datatype Config = Config(maxFailures: int, rateLimit: int, userAvatar: string)

  datatype Spawn = Spawn(session: string, resume: bool)

  class AgentLocks {
    var held: set<string>

    constructor ()
      ensures held == {}
    {
      held := {};
    }

    method TryAcquire(name: string) returns (ok: bool)
      modifies this
      ensures ok == (name !in old(held)) && held == old(held) + {name}
    {
      ok := name !in held;
      held := held + {name};
    }

    method Release(name: string)
      modifies this
      ensures held == old(held) - {name}
    {
      held := held - {name};
    }
  }

  type Counts = map<string, int>

  function CountOf(counts: Counts, name: string): int { if name in counts then counts[name] else 0 }

  /** Enough time since the last notice, or none sent yet. */
  predicate MayNotify(notified: Counts, name: string, now: int, rate: int) {
    name !in notified || now - notified[name] >= rate
  }

  class FailureTracker {
    var counts: Counts
    var lastNotified: Counts

    constructor ()
      ensures counts == map[] && lastNotified == map[]
    {
      counts := map[];
      lastNotified := map[];
    }

    method RecordFailure(name: string)
      modifies this`counts
      ensures counts == old(counts)[name := CountOf(old(counts), name) + 1]
    {
      counts := counts[name := CountOf(counts, name) + 1];
    }

    method RecordSuccess(name: string)
      modifies this`counts
      ensures counts == old(counts) - {name}
    {
      counts := counts - {name};
    }

    method MarkNotified(name: string, now: int)
      modifies this`lastNotified
      ensures lastNotified == old(lastNotified)[name := now]
    {
      lastNotified := lastNotified[name := now];
    }
  }

  function PendingSet(t: M.Messages, name: string): set<int> {
    set id | id in t.rows && M.PendingFor(t, name, id)
  }

  /** The mail still waiting for an agent. */
  function Undelivered(t: M.Messages, name: string): nat { |PendingSet(t, name)| }

  /** Mark a set of messages failed. */
  function FailAll(t: M.Messages, ids: set<int>): M.Messages {
    t.(rows := map id | id in t.rows :: if id in ids then t.rows[id].(status := M.Failed) else t.rows[id])
  }

  method MarkAllFailed(db: ChatDb, ids: seq<int>)
    modifies db`messages
    ensures db.messages == FailAll(old(db.messages), set i | 0 <= i < |ids| :: ids[i])
  {
    for i := 0 to |ids|
      invariant db.messages == FailAll(old(db.messages), set k | 0 <= k < i :: ids[k])
    {
      db.MarkMessageFailed(ids[i]);
      assert (set k | 0 <= k < i + 1 :: ids[k]) == (set k | 0 <= k < i :: ids[k]) + {ids[i]};
    }
  }

  const WATCHER := "wake-watcher"

  function Notice(cfg: Config, name: string, now: int): M.Message {
    M.NewMessage(WATCHER, cfg.userAvatar, name, M.Notify, None, None, "", "", now)
  }

  const STALLED := "stalled"

  /** `build_agent_name`. */
  function OwnerName(folder: string): string { "agent-" + folder }

  predicate AlreadySent(lastSent: map<int, string>, task: int, status: string) {
    task in lastSent && lastSent[task] == status
  }

  /** The tables a failure touches: messages, sent statuses, event log. */
  datatype Tables = Tables(messages: M.Messages, lastSent: map<int, string>, events: seq<LogEvent>)

  /** `emit_stalled_for_project`: a status for the running task, once. */
  function Stalled(d: Tables, folder: string, running: Option<int>, now: int): Tables {
    if running == None || AlreadySent(d.lastSent, running.value, STALLED) then d
    else Tables(M.Insert(d.messages, StatusRow(OwnerName(folder), running.value, STALLED, now)).0,
                d.lastSent[running.value := STALLED], d.events + [LogEvent("status_emit", now)])
  }

  datatype Trouble = Trouble(db: Tables, counts: Counts, notified: Counts)

  /** `_handle_failure`: count and report a stalled task; from the limit on, fail
      all waiting mail and notify the user unless rate-limited. */
  function HandledFailure(d: Tables, counts: Counts, notified: Counts, cfg: Config, name: string, folder: string,
                          running: Option<int>, now: int): Trouble {
    var counts' := counts[name := CountOf(counts, name) + 1];
    var reported := Stalled(d, folder, running, now);
    if counts'[name] < cfg.maxFailures then Trouble(reported, counts', notified)
    else
      var cleared := FailAll(reported.messages, PendingSet(reported.messages, name));
      if MayNotify(notified, name, now, cfg.rateLimit)
      then Trouble(Tables(M.Insert(cleared, Notice(cfg, name, now)).0, reported.lastSent,
                          reported.events + [LogEvent("message", now)]),
                   counts', notified[name := now])
      else Trouble(reported.(messages := cleared), counts', notified)
  }

  method EmitStalledForProject(db: ChatDb, folder: string, running: Option<int>, now: int)
    modifies db`messages, db`events, db`lastSent
    ensures Tables(db.messages, db.lastSent, db.events) ==
            Stalled(old(Tables(db.messages, db.lastSent, db.events)), folder, running, now)
  {
    if running == None {
      return;
    }
    var emitted := db.EmitStatusMessage(running.value, STALLED, OwnerName(folder), now);
  }

  method HandleFailure(db: ChatDb, tracker: FailureTracker, cfg: Config, name: string, folder: string,
                       running: Option<int>, now: int)
    requires M.WellFormed(db.messages)
    modifies db`messages, db`events, db`lastSent, tracker
    ensures Trouble(Tables(db.messages, db.lastSent, db.events), tracker.counts, tracker.lastNotified) ==
            HandledFailure(old(Tables(db.messages, db.lastSent, db.events)), old(tracker.counts),
                           old(tracker.lastNotified), cfg, name, folder, running, now)
  {
    tracker.RecordFailure(name);
    EmitStalledForProject(db, folder, running, now);
    if CountOf(tracker.counts, name) < cfg.maxFailures {
      return;
    }
    var pending := M.PendingIds(db.messages, name);
    PendingListIsSet(db.messages, name);
    MarkAllFailed(db, pending);
    if !MayNotify(tracker.lastNotified, name, now, cfg.rateLimit) {
      return;
    }
    var id := db.InsertMessage(Notice(cfg, name, now));
    tracker.MarkNotified(name, now);
  }

  lemma PendingListIsSet(t: M.Messages, name: string)
    requires M.WellFormed(t)
    ensures (set i | 0 <= i < |M.PendingIds(t, name)| :: M.PendingIds(t, name)[i]) == PendingSet(t, name)
  {
    M.PendingIdsMeaning(t, name);
    var ids := M.PendingIds(t, name);
    assert forall id :: id in PendingSet(t, name) <==> id in ids;
  }

  /** What one turn works on. */
  datatype Watch = Watch(db: Tables, cache: Cache, store: Store, counts: Counts, notified: Counts)

  predicate HasLiveOwner(agent: Agent, alive: int -> bool) {
    agent.pid.Some? && agent.pid.value != 0 && alive(agent.pid.value)
  }

  datatype Step = Step(after: Watch, spawned: Option<Spawn>, raised: bool)

  /** The tables when the spawn is over; its second log row is missing when it raised. */
  function AfterSpawn(d: Tables, w: World): Tables {
    Tables(w.after(d.messages), d.lastSent,
           d.events + [LogEvent("wake_spawn_start", w.now)] + w.during
           + if w.result == Raised then [] else [LogEvent("wake_spawn_end", w.later)])
  }

  /** A turn that got as far as spawning. */
  function SpawnedTurn(s: Watch, cfg: Config, idle: int, name: string, w: World): Step {
    var pre := PendingSet(s.db.messages, name);
    var f := Lookup(s.cache, s.store, name, w.now, idle);
    var session := if f.id.Some? then f.id.value else w.uuid;
    var spawn := Some(Spawn(session, f.id.Some?));
    var d := AfterSpawn(s.db, w);
    var h := HandledFailure(d, s.counts, s.notified, cfg, name, w.folder, w.running, w.later);
    match w.result
    case Raised => Step(Watch(d, f.cache, f.store, s.counts, s.notified), spawn, true)
    case Returned(isTurn, exit) =>
      if isTurn && exit == 0 then
        var cache := f.cache[name := (session, w.later)];
        var store := f.store[name := Session(session, T.Stamp.At(w.stored))];
        if pre <= PendingSet(d.messages, name) then Step(Watch(h.db, cache, store, h.counts, h.notified), spawn, false)
        else Step(Watch(d.(lastSent := d.lastSent - w.active), cache, store, s.counts - {name}, s.notified), spawn,
                  false)
      else Step(Watch(h.db, f.cache, f.store, h.counts, h.notified), spawn, false)
  }

  predicate Spawns(s: Watch, name: string, w: World) {
    && w.agent.Some? && w.agent.value.project != "" && PendingSet(s.db.messages, name) != {}
    && w.agent.value.running && !HasLiveOwner(w.agent.value, w.alive)
  }

  /** One call of `process_agent` with the lock free. */
  function TurnStep(s: Watch, cfg: Config, idle: int, name: string, w: World): Step {
    if Spawns(s, name, w) then SpawnedTurn(s, cfg, idle, name, w)
    else if w.agent.Some? && w.agent.value.project != "" && !w.agent.value.running
    then Step(s.(db := s.db.(messages := FailAll(s.db.messages, PendingSet(s.db.messages, name)))), None, false)
    else Step(s, None, false)
  }

  method ProcessAgent(name: string, db: ChatDb, locks: AgentLocks, cache: SessionCache, store: SessionStore,
                      tracker: FailureTracker, cfg: Config, w: World)
    returns (spawned: Option<Spawn>, raised: bool)
    requires M.WellFormed(db.messages) && M.WellFormed(w.after(db.messages))
    modifies db`messages, db`events, db`lastSent, locks, cache, store, tracker
    ensures locks.held == old(locks.held)
    ensures var before := Watch(old(Tables(db.messages, db.lastSent, db.events)), old(cache.data), old(store.rows),
                                old(tracker.counts), old(tracker.lastNotified));
            var after := Watch(Tables(db.messages, db.lastSent, db.events), cache.data, store.rows, tracker.counts,
                               tracker.lastNotified);
            if name in old(locks.held) then spawned == None && !raised && after == before
            else Step(after, spawned, raised) == TurnStep(before, cfg, cache.idleSecs, name, w)
  {
    spawned, raised := None, false;
    var got := locks.TryAcquire(name);
    if !got {
      return;
    }
    if w.agent == None || w.agent.value.project == "" {
      locks.Release(name);
      return;
    }
    var preList := M.PendingIds(db.messages, name);
    PendingListIsSet(db.messages, name);
    var preIds := set i | 0 <= i < |preList| :: preList[i];
    if preIds == {} {
      NothingToFail(db.messages, name);
      locks.Release(name);
      return;
    }
    if !w.agent.value.running {
      MarkAllFailed(db, preList);
      locks.Release(name);
      return;
    }
    if HasLiveOwner(w.agent.value, w.alive) {
      locks.Release(name);
      return;
    }
    spawned, raised := DriveTurn(name, db, cache, store, tracker, cfg, w, preIds);
    locks.Release(name);
  }

  lemma NothingToFail(t: M.Messages, name: string)
    requires PendingSet(t, name) == {}
    ensures FailAll(t, PendingSet(t, name)) == t
  {
    assert FailAll(t, {}).rows == t.rows;
  }

  /** The part of `process_agent` from the session lookup on. */
  method DriveTurn(name: string, db: ChatDb, cache: SessionCache, store: SessionStore, tracker: FailureTracker,
                   cfg: Config, w: World, preIds: set<int>)
    returns (spawned: Option<Spawn>, raised: bool)
    requires M.WellFormed(w.after(db.messages)) && preIds == PendingSet(db.messages, name)
    modifies db`messages, db`events, db`lastSent, cache, store, tracker
    ensures var before := Watch(old(Tables(db.messages, db.lastSent, db.events)), old(cache.data), old(store.rows),
                                old(tracker.counts), old(tracker.lastNotified));
            Step(Watch(Tables(db.messages, db.lastSent, db.events), cache.data, store.rows, tracker.counts,
                       tracker.lastNotified), spawned, raised) ==
            SpawnedTurn(before, cfg, cache.idleSecs, name, w)
  {
    var cached := LookupSession(cache, store, name, w.now);
    var isResume := cached.Some?;
    var session := if cached.Some? then cached.value else w.uuid;
    spawned, raised := Some(Spawn(session, isResume)), false;
    db.LogEventRow("wake_spawn_start", w.now);
    // the turn itself, and everybody else meanwhile
    db.messages, db.events := w.after(db.messages), db.events + w.during;
    if w.result == Raised {
      raised := true;
      return;
    }
    db.LogEventRow("wake_spawn_end", w.later);
    if w.result.isTurn && w.result.exit == 0 {
      cache.Set(name, session, w.later);
      store.Upsert(name, session, w.stored);
      var postIds := PendingSet(db.messages, name);
      if preIds <= postIds {
        HandleFailure(db, tracker, cfg, name, w.folder, w.running, w.later);
      } else {
        tracker.RecordSuccess(name);
        db.ClearStatusDedupForProject(w.active);
      }
    } else {
      HandleFailure(db, tracker, cfg, name, w.folder, w.running, w.later);
    }
  }

  // ---- bounded turns ------------------------------------------------------

  function Cap(maxFailures: int): nat { if maxFailures > 0 then maxFailures else 0 }

  /** U * (max_failures + 1) + max(0, max_failures - count). */
  function Fuel(s: Watch, cfg: Config, name: string): nat {
    Undelivered(s.db.messages, name) * (Cap(cfg.maxFailures) + 1)
    + var left := Cap(cfg.maxFailures) - CountOf(s.counts, name); if left > 0 then left else 0
  }

  /** No new mail for the agent and no recovery. */
  ghost predicate NoNewMail(t: M.Messages, t': M.Messages, name: string) {
    M.WellFormed(t') && PendingSet(t', name) <= PendingSet(t, name)
  }

  lemma SubsetCard(a: set<int>, b: set<int>)
    requires a <= b
    ensures |a| <= |b| && (a != b ==> |a| < |b|)
  {
    assert b == a + (b - a);
  }

  lemma FuelGrowsWithMail(u: nat, v: nat, cap: nat)
    requires u < v
    ensures u * (cap + 1) + cap < v * (cap + 1)
  {
    assert (u + 1) * (cap + 1) == u * (cap + 1) + cap + 1;
    assert (v - u - 1) * (cap + 1) >= 0;
    assert v * (cap + 1) == (u + 1) * (cap + 1) + (v - u - 1) * (cap + 1);
  }

  lemma FuelMonotone(u: nat, v: nat, cap: nat)
    requires u <= v
    ensures u * (cap + 1) <= v * (cap + 1)
  {
    if u < v { FuelGrowsWithMail(u, v, cap); }
  }

  /** Neither the user nor the wake watcher's own addressee. */
  predicate NotTheUser(name: string, cfg: Config) { name != "user" && name != cfg.userAvatar }

  lemma StalledSpares(d: Tables, folder: string, running: Option<int>, now: int, name: string)
    requires M.WellFormed(d.messages) && name != "user"
    ensures var r := Stalled(d, folder, running, now);
            M.WellFormed(r.messages) && PendingSet(r.messages, name) == PendingSet(d.messages, name)
  {
    var r := Stalled(d, folder, running, now);
    assert forall id :: M.PendingFor(r.messages, name, id) <==> M.PendingFor(d.messages, name, id);
  }

  /** The mail of `name` after a handled failure. */
  lemma AfterFailure(d: Tables, counts: Counts, notified: Counts, cfg: Config, name: string, folder: string,
                     running: Option<int>, now: int)
    requires M.WellFormed(d.messages) && NotTheUser(name, cfg)
    ensures var h := HandledFailure(d, counts, notified, cfg, name, folder, running, now);
            && M.WellFormed(h.db.messages)
            && PendingSet(h.db.messages, name) ==
               (if CountOf(counts, name) + 1 < cfg.maxFailures then PendingSet(d.messages, name) else {})
            && CountOf(h.counts, name) == CountOf(counts, name) + 1
  {
    var h := HandledFailure(d, counts, notified, cfg, name, folder, running, now);
    StalledSpares(d, folder, running, now, name);
    if CountOf(counts, name) + 1 >= cfg.maxFailures {
      assert forall id :: !M.PendingFor(h.db.messages, name, id);
    }
  }

  /** The stalled report: one status row to the user, unless the task's last status
      was this one or nothing runs. */
  ghost predicate StalledDone(d: Tables, d': Tables, folder: string, running: Option<int>, now: int) {
    if running.Some? && !(running.value in d.lastSent && d.lastSent[running.value] == "stalled") then
      && d'.lastSent == d.lastSent[running.value := "stalled"]
      && d'.events == d.events + [LogEvent("status_emit", now)]
      && d'.messages.next == d.messages.next + 1
      && d'.messages.rows == d.messages.rows[d.messages.next :=
           M.Message("agent-" + folder, "user", "stalled", M.Notify, M.Pending, None, running, "", "", now)]
    else d' == d
  }

  /** The rest of a failure: from the limit on the agent's waiting mail is failed,
      and one notice goes out unless one did within the rate limit. */
  ghost predicate Escalates(d: Tables, counts: Counts, notified: Counts, cfg: Config, name: string, now: int,
                            h: Trouble) {
    var count := (if name in counts then counts[name] else 0) + 1;
    var notify := count >= cfg.maxFailures && (name !in notified || now - notified[name] >= cfg.rateLimit);
    && h.counts == counts[name := count]
    && h.notified == (if notify then notified[name := now] else notified)
    && h.db.lastSent == d.lastSent
    && h.db.events == d.events + (if notify then [LogEvent("message", now)] else [])
    && h.db.messages.next == d.messages.next + (if notify then 1 else 0)
    && h.db.messages.rows.Keys == d.messages.rows.Keys + (if notify then {d.messages.next} else {})
    && (notify ==> NoticeAt(h.db.messages, d.messages.next, cfg, name, now))
    && (forall id | id in d.messages.rows && id != d.messages.next ::
          h.db.messages.rows[id] ==
          if count >= cfg.maxFailures && M.PendingFor(d.messages, name, id)
          then d.messages.rows[id].(status := M.Failed) else d.messages.rows[id])
  }

  ghost predicate NoticeAt(t: M.Messages, id: int, cfg: Config, name: string, now: int) {
    && id in t.rows
    && t.rows[id] == M.Message("wake-watcher", cfg.userAvatar, name, M.Notify, M.Pending, None, None, "", "", now)
  }

  lemma StalledExactly(d: Tables, folder: string, running: Option<int>, now: int)
    ensures StalledDone(d, Stalled(d, folder, running, now), folder, running, now)
  {
  }

  /** What a failure writes, on top of the stalled report. */
  lemma FailureExactly(d: Tables, counts: Counts, notified: Counts, cfg: Config, name: string, folder: string,
                       running: Option<int>, now: int)
    ensures StalledDone(d, Stalled(d, folder, running, now), folder, running, now)
    ensures Escalates(Stalled(d, folder, running, now), counts, notified, cfg, name, now,
                      HandledFailure(d, counts, notified, cfg, name, folder, running, now))
  {
    StalledExactly(d, folder, running, now);
    Escalated(Stalled(d, folder, running, now), counts, notified, cfg, name, now,
              HandledFailure(d, counts, notified, cfg, name, folder, running, now));
  }

  lemma Escalated(d: Tables, counts: Counts, notified: Counts, cfg: Config, name: string, now: int, h: Trouble)
    requires var counts' := counts[name := CountOf(counts, name) + 1];
             var cleared := FailAll(d.messages, PendingSet(d.messages, name));
             h == if counts'[name] < cfg.maxFailures then Trouble(d, counts', notified)
                  else if MayNotify(notified, name, now, cfg.rateLimit)
                  then Trouble(Tables(M.Insert(cleared, Notice(cfg, name, now)).0, d.lastSent,
                                      d.events + [LogEvent("message", now)]), counts', notified[name := now])
                  else Trouble(d.(messages := cleared), counts', notified)
    ensures Escalates(d, counts, notified, cfg, name, now, h)
  {
  }

  /** Without a spawn at most the mail of an agent that is not running is failed. */
  lemma QuietExactly(s: Watch, cfg: Config, idle: int, name: string, w: World)
    requires TurnStep(s, cfg, idle, name, w).spawned == None
    ensures
      var after := TurnStep(s, cfg, idle, name, w).after;
      && after == s.(db := s.db.(messages := after.db.messages))
      && after.db.messages.next == s.db.messages.next
      && after.db.messages.rows.Keys == s.db.messages.rows.Keys
      && forall id | id in s.db.messages.rows ::
           after.db.messages.rows[id] ==
           if w.agent.Some? && w.agent.value.project != "" && !w.agent.value.running
              && M.PendingFor(s.db.messages, name, id)
           then s.db.messages.rows[id].(status := M.Failed) else s.db.messages.rows[id]
  {
  }

  /** What a spawned turn does to mail, statuses, log and failure counts: one that
      raised leaves its first log row; one that exited well and handled some of the
      waiting mail clears count and statuses; every other is a failure. */
  lemma TurnExactly(s: Watch, cfg: Config, idle: int, name: string, w: World)
    requires TurnStep(s, cfg, idle, name, w).spawned.Some?
    ensures
      var after := TurnStep(s, cfg, idle, name, w).after;
      var t := w.after(s.db.messages);
      var began := s.db.events + [LogEvent("wake_spawn_start", w.now)] + w.during;
      var ran := Tables(t, s.db.lastSent, began + [LogEvent("wake_spawn_end", w.later)]);
      var handled := exists id :: M.PendingFor(s.db.messages, name, id) && !M.PendingFor(t, name, id);
      if w.result == Raised then
        after.counts == s.counts && after.notified == s.notified && after.db == Tables(t, s.db.lastSent, began)
      else if w.result == Returned(true, 0) && handled then
        && after.counts == s.counts - {name} && after.notified == s.notified
        && after.db == ran.(lastSent := s.db.lastSent - w.active)
      else
        Trouble(after.db, after.counts, after.notified) ==
        HandledFailure(ran, s.counts, s.notified, cfg, name, w.folder, w.running, w.later)
  {
    HandledMeans(s.db.messages, w.after(s.db.messages), name);
    RanIs(s, w);
  }

  lemma RanIs(s: Watch, w: World)
    ensures var began := s.db.events + [LogEvent("wake_spawn_start", w.now)] + w.during;
            AfterSpawn(s.db, w) ==
            Tables(w.after(s.db.messages), s.db.lastSent,
                   if w.result == Raised then began else began + [LogEvent("wake_spawn_end", w.later)])
  {
  }

  lemma HandledMeans(t: M.Messages, t': M.Messages, name: string)
    ensures PendingSet(t, name) <= PendingSet(t', name) <==>
            !exists id :: M.PendingFor(t, name, id) && !M.PendingFor(t', name, id)
  {
    if !(PendingSet(t, name) <= PendingSet(t', name)) {
      var id :| id in PendingSet(t, name) && id !in PendingSet(t', name);
      assert M.PendingFor(t, name, id) && !M.PendingFor(t', name, id);
    }
    if id :| M.PendingFor(t, name, id) && !M.PendingFor(t', name, id) {
      assert id in PendingSet(t, name) && id !in PendingSet(t', name);
    }
  }

  /** A stalled task is reported to the user, and only once until the column is
      cleared. */
  lemma StalledIsSentOnce(d: Tables, folder: string, task: int, now: int, later: int)
    ensures var once := Stalled(d, folder, Some(task), now);
            && AlreadySent(once.lastSent, task, STALLED)
            && Stalled(once, folder, Some(task), later) == once
            && (AlreadySent(d.lastSent, task, STALLED) <==> once == d)
            && (!AlreadySent(d.lastSent, task, STALLED) ==>
                  d.messages.next in once.messages.rows && once.messages.rows[d.messages.next].to == "user"
                  && once.messages.rows[d.messages.next].taskId == Some(task))
  {
    var once := Stalled(d, folder, Some(task), now);
    if !AlreadySent(d.lastSent, task, STALLED) { assert |once.events| == |d.events| + 1; }
  }

  /** Every spawned turn that returns strictly burns fuel, or leaves no mail. */
  lemma TurnBurnsFuel(s: Watch, cfg: Config, idle: int, name: string, w: World)
    requires M.WellFormed(s.db.messages) && NotTheUser(name, cfg) && CountOf(s.counts, name) >= 0
    requires Spawns(s, name, w) && w.result.Returned?
    requires NoNewMail(s.db.messages, w.after(s.db.messages), name)
    ensures var s' := TurnStep(s, cfg, idle, name, w).after;
            && M.WellFormed(s'.db.messages) && CountOf(s'.counts, name) >= 0
            && PendingSet(s'.db.messages, name) <= PendingSet(s.db.messages, name)
            && (Fuel(s', cfg, name) < Fuel(s, cfg, name) || Undelivered(s'.db.messages, name) == 0)
  {
    var t := w.after(s.db.messages);
    var pre, post := PendingSet(s.db.messages, name), PendingSet(t, name);
    SubsetCard(post, pre);
    var s' := TurnStep(s, cfg, idle, name, w).after;
    if w.result.isTurn && w.result.exit == 0 && !(pre <= post) {
      FuelGrowsWithMail(|post|, |pre|, Cap(cfg.maxFailures));
    } else {
      AfterFailure(AfterSpawn(s.db, w), s.counts, s.notified, cfg, name, w.folder, w.running, w.later);
      FuelMonotone(|post|, |pre|, Cap(cfg.maxFailures));
    }
  }

  /** Between and during its turns the agent's mail can only be drained. */
  datatype Round = Round(before: M.Messages -> M.Messages, world: World)

  /** The state when the k-th turn starts, other consumers having had their say. */
  function AtTurn(s: Watch, r: Round): Watch { s.(db := s.db.(messages := r.before(s.db.messages))) }

  function After(s: Watch, rounds: seq<Round>, cfg: Config, idle: int, name: string): Watch {
    if rounds == [] then s
    else
      var n := |rounds| - 1;
      var before := AtTurn(After(s, rounds[..n], cfg, idle, name), rounds[n]);
      TurnStep(before, cfg, idle, name, rounds[n].world).after
  }

  function SpawnCount(s: Watch, rounds: seq<Round>, cfg: Config, idle: int, name: string): nat {
    if rounds == [] then 0
    else
      var n := |rounds| - 1;
      var before := AtTurn(After(s, rounds[..n], cfg, idle, name), rounds[n]);
      SpawnCount(s, rounds[..n], cfg, idle, name) + if Spawns(before, name, rounds[n].world) then 1 else 0
  }

  /** Nobody posts new mail to the agent or recovers old mail, and every spawn
      returns a result. */
  ghost predicate QuietInbox(s: Watch, rounds: seq<Round>, cfg: Config, idle: int, name: string) {
    rounds == [] ||
    var n := |rounds| - 1;
    var prev := After(s, rounds[..n], cfg, idle, name);
    var before := AtTurn(prev, rounds[n]);
    && QuietInbox(s, rounds[..n], cfg, idle, name)
    && NoNewMail(prev.db.messages, before.db.messages, name)
    && NoNewMail(before.db.messages, rounds[n].world.after(before.db.messages), name)
    && rounds[n].world.result.Returned?
  }

  lemma QuietTurn(s: Watch, cfg: Config, idle: int, name: string, w: World)
    requires M.WellFormed(s.db.messages) && CountOf(s.counts, name) >= 0 && !Spawns(s, name, w)
    ensures var s' := TurnStep(s, cfg, idle, name, w).after;
            && M.WellFormed(s'.db.messages) && CountOf(s'.counts, name) >= 0 && s'.counts == s.counts
            && PendingSet(s'.db.messages, name) <= PendingSet(s.db.messages, name)
  {
  }

  lemma FuelShrinksWithMail(s: Watch, s': Watch, cfg: Config, name: string)
    requires CountOf(s'.counts, name) == CountOf(s.counts, name)
    requires PendingSet(s'.db.messages, name) <= PendingSet(s.db.messages, name)
    ensures Fuel(s', cfg, name) <= Fuel(s, cfg, name)
  {
    SubsetCard(PendingSet(s'.db.messages, name), PendingSet(s.db.messages, name));
    FuelMonotone(|PendingSet(s'.db.messages, name)|, |PendingSet(s.db.messages, name)|, Cap(cfg.maxFailures));
  }

  /** One round, its prelude included: a spawn costs fuel, and nothing adds any. */
  lemma RoundBurnsFuel(prev: Watch, r: Round, cfg: Config, idle: int, name: string)
    requires M.WellFormed(prev.db.messages) && NotTheUser(name, cfg) && CountOf(prev.counts, name) >= 0
    requires var before := AtTurn(prev, r);
             && NoNewMail(prev.db.messages, before.db.messages, name)
             && NoNewMail(before.db.messages, r.world.after(before.db.messages), name)
    requires r.world.result.Returned?
    ensures var before := AtTurn(prev, r);
            var s' := TurnStep(before, cfg, idle, name, r.world).after;
            var spawned := Spawns(before, name, r.world);
            && M.WellFormed(s'.db.messages) && CountOf(s'.counts, name) >= 0
            && Undelivered(s'.db.messages, name) <= Undelivered(prev.db.messages, name)
            && (spawned ==> Undelivered(prev.db.messages, name) > 0 && Fuel(prev, cfg, name) > 0)
            && (Undelivered(s'.db.messages, name) > 0 ==>
                  Fuel(s', cfg, name) + (if spawned then 1 else 0) <= Fuel(prev, cfg, name))
  {
    var before := AtTurn(prev, r);
    var s' := TurnStep(before, cfg, idle, name, r.world).after;
    SubsetCard(PendingSet(before.db.messages, name), PendingSet(prev.db.messages, name));
    FuelShrinksWithMail(prev, before, cfg, name);
    if Spawns(before, name, r.world) {
      TurnBurnsFuel(before, cfg, idle, name, r.world);
      FuelMonotone(1, Undelivered(prev.db.messages, name), Cap(cfg.maxFailures));
    } else {
      QuietTurn(before, cfg, idle, name, r.world);
      FuelShrinksWithMail(before, s', cfg, name);
    }
    SubsetCard(PendingSet(s'.db.messages, name), PendingSet(before.db.messages, name));
  }

  /** Over any number of rounds the watcher spawns at most `Fuel` turns for the
      agent: spawns so far plus the fuel left never exceed the fuel at the start,
      until no mail is left, and from then on nothing is spawned. */
  lemma {:induction false} SpawnsAreBounded(s: Watch, rounds: seq<Round>, cfg: Config, idle: int, name: string)
    requires M.WellFormed(s.db.messages) && NotTheUser(name, cfg) && CountOf(s.counts, name) >= 0
    requires QuietInbox(s, rounds, cfg, idle, name)
    ensures var s' := After(s, rounds, cfg, idle, name);
            && M.WellFormed(s'.db.messages) && CountOf(s'.counts, name) >= 0
            && SpawnCount(s, rounds, cfg, idle, name) <= Fuel(s, cfg, name)
            && (Undelivered(s'.db.messages, name) > 0 ==>
                  SpawnCount(s, rounds, cfg, idle, name) + Fuel(s', cfg, name) <= Fuel(s, cfg, name))
  {
    if rounds != [] {
      var n := |rounds| - 1;
      SpawnsAreBounded(s, rounds[..n], cfg, idle, name);
      RoundBurnsFuel(After(s, rounds[..n], cfg, idle, name), rounds[n], cfg, idle, name);
    }
  }

  // ---- rate limit ---------------------------------------------------------

  /** Among the rows a turn inserts there is one from the watcher itself: the
      notice to the user. */
  predicate NoticeBetween(t: M.Messages, t': M.Messages) {
    exists id: int :: t.next <= id < t'.next && id in t'.rows && t'.rows[id].sender == WATCHER
  }

  predicate Notified(before: Watch, cfg: Config, idle: int, name: string, w: World) {
    Spawns(before, name, w)
    && NoticeBetween(w.after(before.db.messages), TurnStep(before, cfg, idle, name, w).after.db.messages)
  }

  /** A handled failure inserts a notice exactly when it may and does notify. */
  lemma FailureNotifies(d: Tables, counts: Counts, notified: Counts, cfg: Config, name: string, folder: string,
                        running: Option<int>, now: int)
    ensures var h := HandledFailure(d, counts, notified, cfg, name, folder, running, now);
            if NoticeBetween(d.messages, h.db.messages) then
              MayNotify(notified, name, now, cfg.rateLimit) && h.notified == notified[name := now]
            else h.notified == notified
  {
    var h := HandledFailure(d, counts, notified, cfg, name, folder, running, now);
    var reported := Stalled(d, folder, running, now);
    assert OwnerName(folder)[0] != WATCHER[0];
    assert forall id: int | d.messages.next <= id < reported.messages.next ::
        reported.messages.rows[id].sender == OwnerName(folder);
    if h.db.messages.next > reported.messages.next {
      assert h.db.messages.rows[reported.messages.next].sender == WATCHER;
    }
  }

  lemma SpawnNotifies(before: Watch, cfg: Config, idle: int, name: string, w: World)
    ensures var s' := SpawnedTurn(before, cfg, idle, name, w).after;
            if NoticeBetween(w.after(before.db.messages), s'.db.messages) then
              MayNotify(before.notified, name, w.later, cfg.rateLimit)
              && s'.notified == before.notified[name := w.later]
            else s'.notified == before.notified
  {
    FailureNotifies(AfterSpawn(before.db, w), before.counts, before.notified, cfg, name, w.folder, w.running, w.later);
  }

  /** A notice is sent only when the rate allows, and its time is remembered. */
  lemma NoticeRemembered(before: Watch, cfg: Config, idle: int, name: string, w: World)
    ensures var s' := TurnStep(before, cfg, idle, name, w).after;
            if Notified(before, cfg, idle, name, w) then
              MayNotify(before.notified, name, w.later, cfg.rateLimit)
              && s'.notified == before.notified[name := w.later]
            else s'.notified == before.notified
  {
    if Spawns(before, name, w) { SpawnNotifies(before, cfg, idle, name, w); }
  }

  /** When the agent's notices were sent, in order. */
  function NoticeTimes(s: Watch, rounds: seq<Round>, cfg: Config, idle: int, name: string): seq<int> {
    if rounds == [] then []
    else
      var n := |rounds| - 1;
      var before := AtTurn(After(s, rounds[..n], cfg, idle, name), rounds[n]);
      NoticeTimes(s, rounds[..n], cfg, idle, name) +
      if Notified(before, cfg, idle, name, rounds[n].world) then [rounds[n].world.later] else []
  }

  ghost predicate Spaced(times: seq<int>, rate: int) {
    forall i | 0 < i < |times| :: times[i] - times[i - 1] >= rate
  }

  /** The tracker remembers the last of these times. */
  ghost predicate Remembers(notified: Counts, name: string, times: seq<int>) {
    if times == [] then name !in notified else name in notified && notified[name] == times[|times| - 1]
  }

  lemma OneMoreNotice(times: seq<int>, notified: Counts, notified': Counts, name: string, now: int, rate: int,
                      sent: bool)
    requires Spaced(times, rate) && Remembers(notified, name, times)
    requires if sent then MayNotify(notified, name, now, rate) && notified' == notified[name := now]
             else notified' == notified
    ensures var times' := times + if sent then [now] else [];
            Spaced(times', rate) && Remembers(notified', name, times')
  {
    if !sent { assert times + [] == times; }
  }

  /** Over any rounds, whatever happens to the mail, two notices for the agent
      are at least the rate limit apart. */
  lemma {:induction false} NoticesAreSpaced(s: Watch, rounds: seq<Round>, cfg: Config, idle: int, name: string)
    requires name !in s.notified
    ensures var times := NoticeTimes(s, rounds, cfg, idle, name);
            Spaced(times, cfg.rateLimit) && Remembers(After(s, rounds, cfg, idle, name).notified, name, times)
  {
    if rounds != [] {
      var n := |rounds| - 1;
      NoticesAreSpaced(s, rounds[..n], cfg, idle, name);
      var prev, w := After(s, rounds[..n], cfg, idle, name), rounds[n].world;
      var before := AtTurn(prev, rounds[n]);
      NoticeRemembered(before, cfg, idle, name, w);
      OneMoreNotice(NoticeTimes(s, rounds[..n], cfg, idle, name), prev.notified,
                    TurnStep(before, cfg, idle, name, w).after.notified, name, w.later, cfg.rateLimit,
                    Notified(before, cfg, idle, name, w));
    }
  }
}
