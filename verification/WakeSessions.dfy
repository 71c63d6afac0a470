/** The two-level wake-session lookup: an in-memory cache in front of a persisted
    row per agent (src/wake_helpers.py:27-86, src/wake_session_store.py,
    src/wake_watcher.py:72-93), read under one monotone clock. */
module WakeSessions {
  import opened Base
  import opened TaskTable

  /** A persisted row; `lastTurn` may be missing or unreadable. */
  datatype Session = Session(id: string, lastTurn: Stamp)

  type Cache = map<string, (string, int)>
  type Store = map<string, Session>

  /** `_is_session_fresh`. */
  predicate IsFresh(s: Session, now: int, idle: int) {
    s.lastTurn.At? && now - s.lastTurn.secs <= idle
  }

  /** `_SessionCache.get`: an expired entry is dropped. */
  function CacheGet(c: Cache, name: string, now: int, idle: int): (Cache, Option<string>) {
    if name !in c then (c, None)
    else if now - c[name].1 > idle then (c - {name}, None)
    else (c, Some(c[name].0))
  }

  datatype Found = Found(cache: Cache, store: Store, id: Option<string>)

  /** Cache first, then the store; an expired row is deleted. */
  function Lookup(c: Cache, st: Store, name: string, now: int, idle: int): Found {
    var (c', hit) := CacheGet(c, name, now, idle);
    if hit.Some? then Found(c', st, hit)
    else
      var (st', id) := StoreOnly(st, name, now, idle);
      Found(c', st', id)
  }

  /** The reference: consult the store alone. */
  function StoreOnly(st: Store, name: string, now: int, idle: int): (Store, Option<string>) {
    if name !in st then (st, None)
    else if IsFresh(st[name], now, idle) then (st, Some(st[name].id))
    else (st - {name}, None)
  }

  class SessionCache {
    const idleSecs: int
    var data: Cache

    constructor (idleSecs: int)
      ensures this.idleSecs == idleSecs && data == map[]
    {
      this.idleSecs := idleSecs;
      data := map[];
    }

    method Get(name: string, now: int) returns (id: Option<string>)
      modifies this
      ensures (data, id) == CacheGet(old(data), name, now, idleSecs)
    {
      if name !in data { return None; }
      if now - data[name].1 > idleSecs {
        data := data - {name};
        return None;
      }
      id := Some(data[name].0);
    }

    method Set(name: string, id: string, now: int)
      modifies this
      ensures data == old(data)[name := (id, now)]
    {
      data := data[name := (id, now)];
    }
  }

  class SessionStore {
    var rows: Store

    constructor (rows: Store)
      ensures this.rows == rows
    {
      this.rows := rows;
    }

    method Upsert(name: string, id: string, now: int)
      modifies this
      ensures rows == old(rows)[name := Session(id, At(now))]
    {
      rows := rows[name := Session(id, At(now))];
    }

    method Delete(name: string)
      modifies this
      ensures rows == old(rows) - {name}
    {
      rows := rows - {name};
    }
  }

  method LookupSession(cache: SessionCache, store: SessionStore, name: string, now: int) returns (id: Option<string>)
    modifies cache, store
    ensures Found(cache.data, store.rows, id) == Lookup(old(cache.data), old(store.rows), name, now, cache.idleSecs)
  {
    id := cache.Get(name, now);
    if id == None && name in store.rows {
      var persisted := store.rows[name];
      if IsFresh(persisted, now, cache.idleSecs) {
        id := Some(persisted.id);
      } else {
        store.Delete(name);
      }
    }
  }

  /** A cache entry has a store row with the same id and no older timestamp. */
  ghost predicate Agree(c: Cache, st: Store) {
    forall n | n in c :: n in st && st[n].id == c[n].0 && st[n].lastTurn.At? && st[n].lastTurn.secs >= c[n].1
  }

  /** The two levels answer exactly like the store alone, leave the store exactly
      as it would, and keep agreeing. */
  lemma LookupIsStoreOnly(c: Cache, st: Store, name: string, now: int, idle: int)
    requires Agree(c, st)
    ensures var f := Lookup(c, st, name, now, idle);
            (f.store, f.id) == StoreOnly(st, name, now, idle) && Agree(f.cache, f.store)
  {
  }

  // ---- over runs ----------------------------------------------------------

  /** `lastOk` is history: the id and time of each agent's latest exit-0 turn.
      `inFlight` holds the agents whose lock is taken, with the id in use. */
  datatype State = State(cache: Cache, store: Store, lastOk: map<string, (string, int)>,
                         inFlight: map<string, string>, clock: int)

  datatype Event =
    | Begin(name: string, uuid: string)
    | Finish(name: string, ok: bool, slip: nat)   // slip: time between cache write and store write
    | Tick(d: nat)
    | Restart

  predicate Resumes(s: State, name: string, idle: int) {
    Lookup(s.cache, s.store, name, s.clock, idle).id.Some?
  }

  function Next(s: State, e: Event, idle: int): State {
    match e
    case Begin(name, uuid) =>
      if name in s.inFlight then s
      else
        var f := Lookup(s.cache, s.store, name, s.clock, idle);
        s.(cache := f.cache, store := f.store,
           inFlight := s.inFlight[name := if f.id.Some? then f.id.value else uuid])
    case Finish(name, ok, slip) =>
      if name !in s.inFlight then s
      else if !ok then s.(inFlight := s.inFlight - {name})
      else
        var id := s.inFlight[name];
        State(s.cache[name := (id, s.clock)], s.store[name := Session(id, At(s.clock + slip))],
              s.lastOk[name := (id, s.clock + slip)], s.inFlight - {name}, s.clock + slip)
    case Tick(d) => s.(clock := s.clock + d)
    case Restart => s.(cache := map[], inFlight := map[])
  }

  function Run(s: State, es: seq<Event>, idle: int): State {
    if es == [] then s else Next(Run(s, es[..|es| - 1], idle), es[|es| - 1], idle)
  }

  /** The store holds each agent's latest exit-0 turn while it can still be resumed. */
  ghost predicate Inv(s: State, idle: int) {
    && Agree(s.cache, s.store)
    && (forall n | n in s.store && s.store[n].lastTurn.At? ::
          n in s.lastOk && s.lastOk[n] == (s.store[n].id, s.store[n].lastTurn.secs))
    && (forall n | n in s.lastOk && s.clock - s.lastOk[n].1 <= idle ::
          n in s.store && s.store[n] == Session(s.lastOk[n].0, At(s.lastOk[n].1)))
    && (forall n | n in s.cache :: s.cache[n].1 <= s.clock)
  }

  /** A fresh process on a database whose readable rows are past exit-0 turns. */
  ghost predicate Boot(s: State) {
    && s.cache == map[] && s.inFlight == map[]
    && s.lastOk == map n | n in s.store && s.store[n].lastTurn.At? :: (s.store[n].id, s.store[n].lastTurn.secs)
  }

  lemma BeginInv(s: State, name: string, uuid: string, idle: int)
    requires Inv(s, idle)
    ensures Inv(Next(s, Begin(name, uuid), idle), idle)
  {
    LookupIsStoreOnly(s.cache, s.store, name, s.clock, idle);
    var f := Lookup(s.cache, s.store, name, s.clock, idle);
    assert f.store == s.store || (f.store == s.store - {name} && !(s.store[name].lastTurn.At? &&
                                                                   s.clock - s.store[name].lastTurn.secs <= idle));
    assert forall n | n in f.cache :: n in s.cache && f.cache[n] == s.cache[n];
  }

  lemma FinishInv(s: State, name: string, ok: bool, slip: nat, idle: int)
    requires Inv(s, idle)
    ensures Inv(Next(s, Finish(name, ok, slip), idle), idle)
  {
  }

  lemma {:induction false} RunInv(s: State, es: seq<Event>, idle: int)
    requires Inv(s, idle)
    ensures Inv(Run(s, es, idle), idle)
  {
    if es != [] {
      RunInv(s, es[..|es| - 1], idle);
      var before := Run(s, es[..|es| - 1], idle);
      match es[|es| - 1]
      case Begin(name, uuid) => BeginInv(before, name, uuid, idle);
      case Finish(name, ok, slip) => FinishInv(before, name, ok, slip, idle);
      case _ =>
    }
  }

  /** In every run, through restarts and with turns of different agents in flight
      together: a new turn resumes exactly when the agent's most recent exit-0 turn
      is at most `idle` old, and then it resumes that turn's id; else it starts a
      new session. Consulting the store alone would give the same answer. */
  lemma ResumesLatestGoodTurn(s: State, es: seq<Event>, idle: int, name: string, uuid: string)
    requires Boot(s)
    requires name !in Run(s, es, idle).inFlight
    ensures
      var now := Run(s, es, idle);
      var recent := name in now.lastOk && now.clock - now.lastOk[name].1 <= idle;
      && (Resumes(now, name, idle) <==> recent)
      && Next(now, Begin(name, uuid), idle).inFlight[name] == (if recent then now.lastOk[name].0 else uuid)
      && (Lookup(now.cache, now.store, name, now.clock, idle).store,
          Lookup(now.cache, now.store, name, now.clock, idle).id) == StoreOnly(now.store, name, now.clock, idle)
  {
    assert Inv(s, idle);
    RunInv(s, es, idle);
    var now := Run(s, es, idle);
    LookupIsStoreOnly(now.cache, now.store, name, now.clock, idle);
  }
}
