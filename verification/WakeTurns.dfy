/** Which session a wake turn runs in (src/wake_watcher.py:44-144): the watcher's
    turns, of any agents and through restarts, seen as a run of `WakeSessions`. */
module WakeTurns {
  import opened Base
  import opened WakeWatcher
  import S = WakeSessions
  import T = TaskTable
  import M = MessageTable

  // ---- one turn -----------------------------------------------------------

  /** The store holds a session of the agent that is recent enough. */
  ghost predicate Resumable(store: S.Store, name: string, now: int, idle: int) {
    name in store && store[name].lastTurn.At? && now - store[name].lastTurn.secs <= idle
  }

  /** A genuine turn result with exit code 0. */
  predicate ExitsWell(w: World) { w.result == Returned(true, 0) }

  /** What a spawned turn has to do with sessions, in terms of the lookup. */
  ghost predicate Sessioned(c: S.Cache, st: S.Store, idle: int, name: string, w: World, step: Step) {
    var f := S.Lookup(c, st, name, w.now, idle);
    var session := if f.id.Some? then f.id.value else w.uuid;
    && step.spawned == Some(Spawn(session, f.id.Some?))
    && step.after.cache == (if ExitsWell(w) then f.cache[name := (session, w.later)] else f.cache)
    && step.after.store ==
       (if ExitsWell(w) then f.store[name := S.Session(session, T.Stamp.At(w.stored))] else f.store)
  }

  lemma TurnIsSessioned(s: Watch, cfg: Config, idle: int, name: string, w: World)
    ensures var step := TurnStep(s, cfg, idle, name, w);
            && (step.spawned.Some? <==> Spawns(s, name, w))
            && (step.raised <==> Spawns(s, name, w) && w.result == Raised)
            && if Spawns(s, name, w) then Sessioned(s.cache, s.store, idle, name, w, step)
               else step.after.cache == s.cache && step.after.store == s.store
  {
  }

  lemma SpawnsExactlyWhen(s: Watch, name: string, w: World)
    ensures Spawns(s, name, w) <==>
              && w.agent.Some? && w.agent.value.project != "" && w.agent.value.running
              && (match w.agent.value.pid case None => true case Some(pid) => pid == 0 || !w.alive(pid))
              && exists id :: id in s.db.messages.rows && M.PendingFor(s.db.messages, name, id)
  {
    var pending := PendingSet(s.db.messages, name);
    if id :| id in s.db.messages.rows && M.PendingFor(s.db.messages, name, id) {
      assert id in pending;
    }
    if pending != {} {
      var id :| id in pending;
      assert M.PendingFor(s.db.messages, name, id);
    }
  }

  lemma SpawnSession(c: S.Cache, st: S.Store, idle: int, name: string, w: World, step: Step)
    requires S.Agree(c, st) && Sessioned(c, st, idle, name, w, step)
    ensures step.spawned ==
            Some(if Resumable(st, name, w.now, idle) then Spawn(st[name].id, true) else Spawn(w.uuid, false))
  {
    S.LookupIsStoreOnly(c, st, name, w.now, idle);
  }

  /** When `process_agent` spawns, and in which session: that of the store while it
      is recent enough, else a new one. */
  lemma SpawnExactly(s: Watch, cfg: Config, idle: int, name: string, w: World)
    requires S.Agree(s.cache, s.store)
    ensures
      var step := TurnStep(s, cfg, idle, name, w);
      && (step.spawned.Some? <==>
            && w.agent.Some? && w.agent.value.project != "" && w.agent.value.running
            && (match w.agent.value.pid case None => true case Some(pid) => pid == 0 || !w.alive(pid))
            && exists id :: id in s.db.messages.rows && M.PendingFor(s.db.messages, name, id))
      && (step.spawned.Some? ==>
            step.spawned ==
            Some(if Resumable(s.store, name, w.now, idle) then Spawn(s.store[name].id, true)
                 else Spawn(w.uuid, false)))
      && (step.raised <==> step.spawned.Some? && w.result == Raised)
  {
    TurnIsSessioned(s, cfg, idle, name, w);
    SpawnsExactlyWhen(s, name, w);
    if Spawns(s, name, w) {
      SpawnSession(s.cache, s.store, idle, name, w, TurnStep(s, cfg, idle, name, w));
    }
  }

  /** Entries of everybody else stay. */
  ghost predicate OthersKept<V>(m: map<string, V>, m': map<string, V>, name: string) {
    forall n | n != name :: (n in m' <==> n in m) && (n in m ==> m'[n] == m[n])
  }

  /** What a spawned turn leaves in cache and store: after a genuine exit 0 the
      session it ran in, with the given times; otherwise the store loses the agent's
      row when that is too old. */
  ghost predicate Leaves(c: S.Cache, st: S.Store, idle: int, name: string, w: World, step: Step) {
    var c', st' := step.after.cache, step.after.store;
    && OthersKept(c, c', name) && OthersKept(st, st', name)
    && step.spawned.Some?
    && if ExitsWell(w) then
         && name in c' && c'[name] == (step.spawned.value.session, w.later)
         && name in st' && st'[name] == S.Session(step.spawned.value.session, T.Stamp.At(w.stored))
       else
         && (name in c' ==> name in c && c'[name] == c[name])
         && (name in st' <==> Resumable(st, name, w.now, idle)) && (name in st' ==> st'[name] == st[name])
  }

  lemma SpawnLeaves(c: S.Cache, st: S.Store, idle: int, name: string, w: World, step: Step)
    requires S.Agree(c, st) && Sessioned(c, st, idle, name, w, step) && w.later <= w.stored
    ensures S.Agree(step.after.cache, step.after.store) && Leaves(c, st, idle, name, w, step)
  {
    S.LookupIsStoreOnly(c, st, name, w.now, idle);
  }

  /** No turn touches another agent's session, cache and store keep agreeing, and
      the agent's own session is as its turn ended. */
  lemma SessionsAfterTurn(s: Watch, cfg: Config, idle: int, name: string, w: World)
    requires S.Agree(s.cache, s.store) && w.later <= w.stored
    ensures
      var step := TurnStep(s, cfg, idle, name, w);
      && S.Agree(step.after.cache, step.after.store)
      && (step.spawned == None ==> step.after.cache == s.cache && step.after.store == s.store)
      && (step.spawned.Some? ==> Leaves(s.cache, s.store, idle, name, w, step))
  {
    TurnIsSessioned(s, cfg, idle, name, w);
    if Spawns(s, name, w) {
      SpawnLeaves(s.cache, s.store, idle, name, w, TurnStep(s, cfg, idle, name, w));
    }
  }

  // ---- runs of turns ------------------------------------------------------

  /** A turn of any agent, others having had their say before it, or a restart of
      the watcher. */
  datatype Turn = Turn(name: string, round: Round) | Reboot

  function TurnNext(s: Watch, turn: Turn, cfg: Config, idle: int): Watch {
    match turn
    case Turn(name, r) => TurnStep(AtTurn(s, r), cfg, idle, name, r.world).after
    case Reboot => s.(cache := map[], counts := map[], notified := map[])
  }

  function WatchAfter(s: Watch, turns: seq<Turn>, cfg: Config, idle: int): Watch {
    if turns == [] then s
    else TurnNext(WatchAfter(s, turns[..|turns| - 1], cfg, idle), turns[|turns| - 1], cfg, idle)
  }

  /** The session of every agent's latest turn that exited well, and when; at first
      what the store remembers. */
  function LatestGood(s: Watch, turns: seq<Turn>, cfg: Config, idle: int): map<string, (string, int)> {
    if turns == [] then
      map n | n in s.store && s.store[n].lastTurn.At? :: (s.store[n].id, s.store[n].lastTurn.secs)
    else
      var front, last := turns[..|turns| - 1], turns[|turns| - 1];
      GoodSince(LatestGood(s, front, cfg, idle), WatchAfter(s, front, cfg, idle), last, cfg, idle)
  }

  function GoodSince(good: map<string, (string, int)>, s: Watch, turn: Turn, cfg: Config, idle: int):
    map<string, (string, int)>
  {
    match turn
    case Reboot => good
    case Turn(name, r) =>
      var spawned := TurnStep(AtTurn(s, r), cfg, idle, name, r.world).spawned;
      if spawned.Some? && ExitsWell(r.world) then good[name := (spawned.value.session, r.world.stored)] else good
  }

  /** The time after a run that began at `start`. */
  function Clock(turns: seq<Turn>, start: int): int {
    if turns == [] then start
    else if turns[|turns| - 1].Turn? then turns[|turns| - 1].round.world.stored
    else Clock(turns[..|turns| - 1], start)
  }

  /** Time never runs backwards. */
  ghost predicate Timely(turns: seq<Turn>, start: int) {
    turns == [] ||
    var front, last := turns[..|turns| - 1], turns[|turns| - 1];
    Timely(front, start) && (last.Turn? ==> InOrder(Clock(front, start), last.round.world))
  }

  predicate InOrder(clock: int, w: World) { clock <= w.now <= w.later <= w.stored }

  /** The sessions as `WakeSessions` sees them between turns. */
  function SessionsOf(s: Watch, good: map<string, (string, int)>, clock: int): S.State {
    S.State(s.cache, s.store, good, map[], clock)
  }

  /** A spawn in the steps of `WakeSessions`: the lookup, the turn, and its end. */
  function SpawnEvents(clock: int, name: string, w: World): seq<S.Event>
    requires InOrder(clock, w)
  {
    [S.Tick(w.now - clock), S.Begin(name, w.uuid), S.Tick(w.later - w.now)]
    + if ExitsWell(w) then [S.Finish(name, true, w.stored - w.later)]
      else [S.Finish(name, false, 0), S.Tick(w.stored - w.later)]
  }

  function EventsOf(s: Watch, turn: Turn, clock: int): seq<S.Event>
    requires turn.Turn? ==> InOrder(clock, turn.round.world)
  {
    match turn
    case Reboot => [S.Restart]
    case Turn(name, r) =>
      if Spawns(AtTurn(s, r), name, r.world) then SpawnEvents(clock, name, r.world)
      else [S.Tick(r.world.stored - clock)]
  }

  lemma RunOneMore(st: S.State, es: seq<S.Event>, e: S.Event, idle: int)
    ensures S.Run(st, es + [e], idle) == S.Next(S.Run(st, es, idle), e, idle)
  {
    assert (es + [e])[..|es + [e]| - 1] == es;
  }

  lemma RunTwoMore(st: S.State, es: seq<S.Event>, a: S.Event, b: S.Event, idle: int)
    ensures S.Run(st, es + [a, b], idle) == S.Next(S.Next(S.Run(st, es, idle), a, idle), b, idle)
  {
    RunOneMore(st, es, a, idle);
    RunOneMore(st, es + [a], b, idle);
    assert es + [a] + [b] == es + [a, b];
  }

  lemma {:induction false} RunAppend(st: S.State, es: seq<S.Event>, more: seq<S.Event>, idle: int)
    ensures S.Run(st, es + more, idle) == S.Run(S.Run(st, es, idle), more, idle)
  {
    if more == [] {
      assert es + more == es;
    } else {
      var front := more[..|more| - 1];
      RunAppend(st, es, front, idle);
      assert es + more == (es + front) + [more[|more| - 1]];
      RunOneMore(st, es + front, more[|more| - 1], idle);
    }
  }

  lemma RunThree(st: S.State, a: S.Event, b: S.Event, c: S.Event, idle: int)
    ensures S.Run(st, [a], idle) == S.Next(st, a, idle)
    ensures S.Run(st, [a, b], idle) == S.Next(S.Next(st, a, idle), b, idle)
    ensures S.Run(st, [a, b, c], idle) == S.Next(S.Next(S.Next(st, a, idle), b, idle), c, idle)
  {
    RunOneMore(st, [], a, idle);
    RunOneMore(st, [a], b, idle);
    RunOneMore(st, [a, b], c, idle);
    assert [] + [a] == [a] && [a] + [b] == [a, b] && [a, b] + [c] == [a, b, c];
  }

  /** The state in which a spawned turn is under way. */
  function UnderWay(st: S.State, idle: int, name: string, w: World): S.State {
    var f := S.Lookup(st.cache, st.store, name, w.now, idle);
    S.State(f.cache, f.store, st.lastOk, map[name := if f.id.Some? then f.id.value else w.uuid], w.later)
  }

  lemma GetsUnderWay(st: S.State, idle: int, name: string, w: World)
    requires st.inFlight == map[] && InOrder(st.clock, w)
    ensures S.Run(st, [S.Tick(w.now - st.clock), S.Begin(name, w.uuid), S.Tick(w.later - w.now)], idle) ==
            UnderWay(st, idle, name, w)
  {
    RunThree(st, S.Tick(w.now - st.clock), S.Begin(name, w.uuid), S.Tick(w.later - w.now), idle);
  }

  /** The state after the turn. */
  function Landed(st: S.State, name: string, w: World, step: Step): S.State {
    S.State(step.after.cache, step.after.store,
            if ExitsWell(w) && step.spawned.Some? then st.lastOk[name := (step.spawned.value.session, w.stored)]
            else st.lastOk,
            map[], w.stored)
  }

  lemma EndsWell(st: S.State, idle: int, name: string, w: World, step: Step)
    requires Sessioned(st.cache, st.store, idle, name, w, step) && InOrder(st.clock, w) && ExitsWell(w)
    ensures S.Next(UnderWay(st, idle, name, w), S.Finish(name, true, w.stored - w.later), idle) ==
            Landed(st, name, w, step)
  {
    assert UnderWay(st, idle, name, w).inFlight - {name} == map[];
  }

  lemma EndsBadly(st: S.State, idle: int, name: string, w: World, step: Step)
    requires Sessioned(st.cache, st.store, idle, name, w, step) && InOrder(st.clock, w) && !ExitsWell(w)
    ensures S.Next(S.Next(UnderWay(st, idle, name, w), S.Finish(name, false, 0), idle),
                   S.Tick(w.stored - w.later), idle) ==
            Landed(st, name, w, step)
  {
    assert UnderWay(st, idle, name, w).inFlight - {name} == map[];
  }

  lemma SpawnRuns(st: S.State, idle: int, name: string, w: World, step: Step)
    requires st.inFlight == map[] && InOrder(st.clock, w) && Sessioned(st.cache, st.store, idle, name, w, step)
    ensures S.Run(st, SpawnEvents(st.clock, name, w), idle) == Landed(st, name, w, step)
  {
    var begun := [S.Tick(w.now - st.clock), S.Begin(name, w.uuid), S.Tick(w.later - w.now)];
    GetsUnderWay(st, idle, name, w);
    if ExitsWell(w) {
      EndsWell(st, idle, name, w, step);
      RunOneMore(st, begun, S.Finish(name, true, w.stored - w.later), idle);
    } else {
      var bad, wait := S.Finish(name, false, 0), S.Tick(w.stored - w.later);
      EndsBadly(st, idle, name, w, step);
      RunTwoMore(st, begun, bad, wait, idle);
    }
  }

  /** A turn does to cache and store what those steps do. */
  lemma TurnIsSessions(s: Watch, good: map<string, (string, int)>, clock: int, turn: Turn, cfg: Config, idle: int)
    requires turn.Turn? ==> InOrder(clock, turn.round.world)
    ensures S.Run(SessionsOf(s, good, clock), EventsOf(s, turn, clock), idle) ==
            SessionsOf(TurnNext(s, turn, cfg, idle), GoodSince(good, s, turn, cfg, idle),
                       if turn.Turn? then turn.round.world.stored else clock)
  {
    var st := SessionsOf(s, good, clock);
    match turn
    case Reboot => RunThree(st, S.Restart, S.Restart, S.Restart, idle);
    case Turn(name, r) =>
      TurnIsSessioned(AtTurn(s, r), cfg, idle, name, r.world);
      if Spawns(AtTurn(s, r), name, r.world) {
        SpawnRuns(st, idle, name, r.world, TurnStep(AtTurn(s, r), cfg, idle, name, r.world));
      } else {
        var e := S.Tick(r.world.stored - clock);
        RunThree(st, e, e, e, idle);
      }
  }

  function AllEvents(s: Watch, turns: seq<Turn>, cfg: Config, idle: int, start: int): seq<S.Event>
    requires Timely(turns, start)
  {
    if turns == [] then []
    else
      var front := turns[..|turns| - 1];
      AllEvents(s, front, cfg, idle, start)
      + EventsOf(WatchAfter(s, front, cfg, idle), turns[|turns| - 1], Clock(front, start))
  }

  /** Any run of turns is a run of `WakeSessions`: same cache, same store, and
      `lastOk` is each agent's latest turn that exited well. */
  lemma {:induction false} TurnsAreSessions(s: Watch, turns: seq<Turn>, cfg: Config, idle: int, start: int)
    requires Timely(turns, start)
    ensures S.Run(SessionsOf(s, LatestGood(s, [], cfg, idle), start), AllEvents(s, turns, cfg, idle, start), idle) ==
            SessionsOf(WatchAfter(s, turns, cfg, idle), LatestGood(s, turns, cfg, idle), Clock(turns, start))
  {
    if turns != [] {
      var front, last := turns[..|turns| - 1], turns[|turns| - 1];
      var prev, good, clock := WatchAfter(s, front, cfg, idle), LatestGood(s, front, cfg, idle), Clock(front, start);
      TurnsAreSessions(s, front, cfg, idle, start);
      RunAppend(SessionsOf(s, LatestGood(s, [], cfg, idle), start), AllEvents(s, front, cfg, idle, start),
                EventsOf(prev, last, clock), idle);
      TurnIsSessions(prev, good, clock, last, cfg, idle);
    }
  }

  /** Over any turns of any agents, with restarts: when `process_agent` spawns, it
      resumes the session of that agent's latest turn that exited well, if that is
      at most `idle` seconds ago, and else starts the new one it was given. */
  lemma SpawnResumesLatestGood(s: Watch, turns: seq<Turn>, cfg: Config, idle: int, start: int, name: string, r: Round)
    requires s.cache == map[] && Timely(turns, start) && Clock(turns, start) <= r.world.now
    requires Spawns(AtTurn(WatchAfter(s, turns, cfg, idle), r), name, r.world)
    ensures
      var good := LatestGood(s, turns, cfg, idle);
      TurnStep(AtTurn(WatchAfter(s, turns, cfg, idle), r), cfg, idle, name, r.world).spawned ==
      Some(if name in good && r.world.now - good[name].1 <= idle then Spawn(good[name].0, true)
           else Spawn(r.world.uuid, false))
  {
    var st := SessionsOf(s, LatestGood(s, [], cfg, idle), start);
    var es, tick := AllEvents(s, turns, cfg, idle, start), S.Tick(r.world.now - Clock(turns, start));
    TurnsAreSessions(s, turns, cfg, idle, start);
    RunOneMore(st, es, tick, idle);
    S.ResumesLatestGoodTurn(st, es + [tick], idle, name, r.world.uuid);
    var before := AtTurn(WatchAfter(s, turns, cfg, idle), r);
    TurnIsSessioned(before, cfg, idle, name, r.world);
    BeginIsLookup(S.Run(st, es + [tick], idle), idle, name, r.world, TurnStep(before, cfg, idle, name, r.world));
  }

  lemma BeginIsLookup(st: S.State, idle: int, name: string, w: World, step: Step)
    requires name !in st.inFlight && st.clock == w.now && Sessioned(st.cache, st.store, idle, name, w, step)
    ensures step.spawned ==
            Some(Spawn(S.Next(st, S.Begin(name, w.uuid), idle).inFlight[name], S.Resumes(st, name, idle)))
  {
  }
}
