/** Theorems about every run of the queue machine. */
module QueueTheorems {
  import opened Base
  import opened TaskTable
  import opened QueueMachine
  import opened QueueSafety

  lemma {:induction false} RunInv(s: State, acts: seq<Action>)
    requires Inv(s)
    ensures Inv(Run(s, acts))
    ensures Evolves(s.db.table, Run(s, acts).db.table)
    ensures s.db.claimed <= Run(s, acts).db.claimed
  {
    if acts != [] {
      var front := acts[..|acts| - 1];
      RunInv(s, front);
      StepInv(Run(s, front), acts[|acts| - 1]);
      EvolvesTransitive(s.db.table, Run(s, front).db.table, Run(s, acts).db.table);
    }
  }

  lemma {:induction false} RunAppend(s: State, acts: seq<Action>, more: seq<Action>)
    ensures Run(s, acts + more) == Run(Run(s, acts), more)
  {
    if more == [] {
      assert acts + more == acts;
    } else {
      var front := more[..|more| - 1];
      RunAppend(s, acts, front);
      assert (acts + more)[..|acts + more| - 1] == acts + front;
    }
  }

  /** Rows keep their identity, status only moves up the ranking, routed rows
      stay routed and terminal rows stay terminal. */
  ghost predicate OnlyClimbs(t: Table, t': Table) {
    forall id | id in t.rows ::
      && id in t'.rows
      && SameIdentity(t.rows[id], t'.rows[id])
      && StatusUp(t.rows[id].status, t'.rows[id].status)
      && (t.rows[id].status == RoutedViaAgent ==> t'.rows[id].status == RoutedViaAgent)
      && (Terminal(t.rows[id].status) ==> Terminal(t'.rows[id].status))
  }

  /** What a retry names in `t` is a smaller id, and is terminal in `t'`. */
  ghost predicate RetriesSettled(t: Table, t': Table) {
    forall id | id in t.rows && t.rows[id].retryOf.Some? ::
      var k := t.rows[id].retryOf.value;
      k < id && k in t'.rows && Terminal(t'.rows[k].status)
  }

  lemma EvolvesSafely(t: Table, t': Table)
    requires TableOk(t) && Evolves(t, t')
    ensures OnlyClimbs(t, t') && RetriesSettled(t, t')
  {
    forall id | id in t.rows && t.rows[id].retryOf.Some?
      ensures var k := t.rows[id].retryOf.value; k < id && k in t'.rows && Terminal(t'.rows[k].status)
    {
      var k := t.rows[id].retryOf.value;
      assert k in t.rows && StatusUp(t.rows[k].status, t'.rows[k].status);
    }
  }

  /** Safety of the queue over whole runs, from an empty queue, with any actors,
      crashes and interleaving: `mid` is any reachable state and `end` any later
      one. One row runs per project, each task is claimed at most once ever, rows
      only climb, and retries settle. */
  lemma QueueIsSafe(s: State, acts: seq<Action>, more: seq<Action>)
    requires Init(s)
    ensures
      var mid := Run(s, acts);
      var end := Run(s, acts + more);
      && OneRunning(end.db.table)
      && NoRepeat(end.db.claimed) && mid.db.claimed <= end.db.claimed
      && OnlyClimbs(mid.db.table, end.db.table)
      && RetriesSettled(mid.db.table, end.db.table)
  {
    InitInv(s);
    RunInv(s, acts);
    RunInv(Run(s, acts), more);
    RunAppend(s, acts, more);
    EvolvesSafely(Run(s, acts).db.table, Run(s, acts + more).db.table);
  }

  // ---- retry chains -------------------------------------------------------

  ghost predicate RetriesDescend(t: Table) {
    forall x | x in t.rows && t.rows[x].retryOf.Some? ::
      t.rows[x].retryOf.value in t.rows && 0 < t.rows[x].retryOf.value < x
  }

  /** The lineage of a row: itself, what it retries, what that retries, ... */
  function RetryChain(t: Table, id: int): seq<int>
    requires id in t.rows && RetriesDescend(t)
    decreases id
  {
    if t.rows[id].retryOf == None then [id] else [id] + RetryChain(t, t.rows[id].retryOf.value)
  }

  ghost predicate IsLineage(t: Table, chain: seq<int>) {
    && chain != []
    && (forall i | 0 <= i < |chain| :: chain[i] in t.rows)
    && (forall i, j | 0 <= i < j < |chain| && j == i + 1 ::
          t.rows[chain[i]].retryOf == Some(chain[j]) && chain[j] < chain[i] && Terminal(t.rows[chain[j]].status))
    && t.rows[chain[|chain| - 1]].retryOf == None
  }

  lemma {:induction false} ChainIsLineage(t: Table, id: int)
    requires id in t.rows && RetriesDescend(t)
    requires forall x | x in t.rows && t.rows[x].retryOf.Some? ::
               t.rows[x].retryOf.value in t.rows && Terminal(t.rows[t.rows[x].retryOf.value].status)
    ensures RetryChain(t, id)[0] == id && IsLineage(t, RetryChain(t, id))
    decreases id
  {
    if t.rows[id].retryOf.Some? {
      var rest := RetryChain(t, t.rows[id].retryOf.value);
      ChainIsLineage(t, t.rows[id].retryOf.value);
      var chain := RetryChain(t, id);
      assert chain == [id] + rest;
      forall i, j | 0 <= i < j < |chain| && j == i + 1
        ensures t.rows[chain[i]].retryOf == Some(chain[j]) && chain[j] < chain[i] && Terminal(t.rows[chain[j]].status)
      {
        if i > 0 { assert chain[i] == rest[i - 1] && chain[j] == rest[j - 1]; }
      }
    }
  }

  /** Retry chains are well-founded in every reachable state: following
      `retry_of` strictly descends through terminal rows to an original. */
  lemma RetryChainsEnd(s: State, acts: seq<Action>, id: int)
    requires Init(s) && id in Run(s, acts).db.table.rows
    ensures RetriesDescend(Run(s, acts).db.table)
    ensures RetryChain(Run(s, acts).db.table, id)[0] == id
    ensures IsLineage(Run(s, acts).db.table, RetryChain(Run(s, acts).db.table, id))
  {
    InitInv(s);
    RunInv(s, acts);
    ChainIsLineage(Run(s, acts).db.table, id);
  }

  // ---- branch names -------------------------------------------------------

  /** In every run, git is never asked to create a branch that exists in any
      repository, nor one that was asked for before. */
  lemma BranchNamesAreFresh(s: State, acts: seq<Action>, a: Action)
    requires Init(s)
    ensures var ask := AskOf(Run(s, acts), a);
            ask.Some? ==>
              && (forall r | r in Run(s, acts).db.repos :: ask.value.1 !in Run(s, acts).db.repos[r].branches)
              && (forall i | 0 <= i < |Run(s, acts).db.asked| :: Run(s, acts).db.asked[i] != ask.value)
              && (forall i | 0 <= i < |Run(s, acts).db.asked| :: Run(s, acts).db.asked[i].0 != ask.value.0)
              && ask.value.0 in Run(s, acts).db.claimed
  {
    InitInv(s);
    RunInv(s, acts);
    var now := Run(s, acts);
    var ask := AskOf(now, a);
    if ask.Some? {
      AskIsNew(now, a.who);
    }
  }

  // ---- completion notices -------------------------------------------------

  /** At every moment of every run, a claimed task that has left `running` has
      been announced, or somebody stands between its update and its notice, or
      that somebody crashed there. */
  lemma EveryEndingIsAnnounced(s: State, acts: seq<Action>, id: int)
    requires Init(s)
    requires id in Run(s, acts).db.claimed
    ensures id in Run(s, acts).db.table.rows
    ensures var now := Run(s, acts);
            now.db.table.rows[id].status == Running
            || id in now.db.told || id in now.lost || OwedBySomeone(now.actors, id)
  {
    InitInv(s);
    RunInv(s, acts);
    assert WasClaimed(Run(s, acts).db.table, id);
  }

  /** So once nobody is mid-task and nobody crashed in between, no ending is silent. */
  lemma QuietMeansAnnounced(s: State, acts: seq<Action>)
    requires Init(s) && Run(s, acts).lost == {}
    requires forall a | a in Run(s, acts).actors :: Held(Run(s, acts).actors[a]) == {}
    ensures forall id | id in Run(s, acts).db.claimed ::
              id in Run(s, acts).db.table.rows
              && (Run(s, acts).db.table.rows[id].status != Running ==> id in Run(s, acts).db.told)
  {
    var now := Run(s, acts);
    forall id | id in now.db.claimed
      ensures id in now.db.table.rows && (now.db.table.rows[id].status != Running ==> id in now.db.told)
    {
      EveryEndingIsAnnounced(s, acts, id);
      forall a | a in now.actors ensures !Owes(now.actors[a], id) {
        assert id !in Held(now.actors[a]);
      }
    }
  }

  // ---- waiting ------------------------------------------------------------

  /** The pending tasks of the same project that will be dispatched before `b`. */
  function AheadSet(t: Table, b: int): set<int>
    requires b in t.rows
  {
    set x | x in t.rows && x != b && IsPending(t, t.rows[b].project, x) && Before(t, x, b)
  }

  predicate ClaimSucceeds(t: Table, e: Effect, p: string) {
    e.Claimed? && e.project == p && Claim(t, p, e.now).1.Some?
  }

  predicate Outranks(e: Effect, p: string, priority: int) {
    e.Inserted? && e.row.status == Pending && e.row.project == p && e.row.priority > priority
  }

  /** A successful claim takes the head of `list_pending`; nothing pending in the
      project had a higher priority, or the same one and a smaller id. */
  lemma ClaimTakesHead(s: State, a: Action, p: string)
    requires Inv(s) && ClaimSucceeds(s.db.table, EffectOf(s, a), p)
    ensures ListPending(s.db.table, p) != []
    ensures Next(s, a).db.claimed == s.db.claimed + [ListPending(s.db.table, p)[0]]
    ensures IsHead(s.db.table, p, ListPending(s.db.table, p)[0])
    ensures IsRunning(Next(s, a).db.table, p, ListPending(s.db.table, p)[0])
  {
    StepLogs(s, a);
    StepShows(s, a);
    ClaimMeaning(s.db.table, p, EffectOf(s, a).now);
  }

  lemma AheadWrote(t: Table, t': Table, claimed: seq<int>, id: int, p: string, b: int)
    requires HistoryOk(t, claimed) && Shows(t, t', claimed, Wrote(id))
    requires IsPending(t, p, b) && IsPending(t', p, b)
    ensures AheadSet(t', b) == AheadSet(t, b)
  {
    assert WasClaimed(t, id);
    assert id != b;
    forall x ensures x in AheadSet(t', b) <==> x in AheadSet(t, b) {
      if x == id {
        assert !IsPending(t, p, x) && !IsPending(t', p, x);
      }
    }
  }

  lemma AheadInserted(t: Table, t': Table, claimed: seq<int>, row: Task, p: string, b: int)
    requires WellFormed(t) && Shows(t, t', claimed, Inserted(row)) && IsPending(t, p, b)
    ensures AheadSet(t', b) ==
            AheadSet(t, b) + if Outranks(Inserted(row), p, t.rows[b].priority) then {t.next} else {}
    ensures t.next !in AheadSet(t, b)
  {
  }

  lemma AheadClaimed(t: Table, q: string, now: int, p: string, b: int)
    requires TableOk(t) && IsPending(t, p, b) && IsPending(Claim(t, q, now).0, p, b)
    ensures var claim := Claim(t, q, now).1;
            if claim.Some? && q == p then
              claim.value in AheadSet(t, b) && AheadSet(Claim(t, q, now).0, b) == AheadSet(t, b) - {claim.value}
            else AheadSet(Claim(t, q, now).0, b) == AheadSet(t, b)
  {
    ClaimShape(t, q, now);
  }

  lemma AheadDrained(t: Table, q: string, p: string, b: int)
    requires IsPending(t, p, b) && IsPending(Drain(t, q), p, b)
    ensures AheadSet(Drain(t, q), b) == AheadSet(t, b)
  {
    assert q != p;
  }

  /** One step changes the number of tasks ahead of a waiting one by exactly the
      claim it makes and the higher-priority insert it does. */
  lemma AheadStep(t: Table, t': Table, claimed: seq<int>, e: Effect, p: string, b: int)
    requires TableOk(t) && HistoryOk(t, claimed) && Shows(t, t', claimed, e)
    requires IsPending(t, p, b) && IsPending(t', p, b)
    ensures |AheadSet(t', b)| ==
            |AheadSet(t, b)| + (if Outranks(e, p, t.rows[b].priority) then 1 else 0)
                             - (if ClaimSucceeds(t, e, p) then 1 else 0)
  {
    match e
    case Same =>
    case Wrote(id) => AheadWrote(t, t', claimed, id, p, b);
    case Inserted(row) => AheadInserted(t, t', claimed, row, p, b);
    case Claimed(q, now) => AheadClaimed(t, q, now, p, b);
    case Drained(q) => AheadDrained(t, q, p, b);
  }

  function Claims(s: State, acts: seq<Action>, p: string): nat {
    if acts == [] then 0
    else
      var front := acts[..|acts| - 1];
      var before := Run(s, front);
      Claims(s, front, p) + if ClaimSucceeds(before.db.table, EffectOf(before, acts[|acts| - 1]), p) then 1 else 0
  }

  function Overtakers(s: State, acts: seq<Action>, p: string, priority: int): nat {
    if acts == [] then 0
    else
      var front := acts[..|acts| - 1];
      Overtakers(s, front, p, priority) +
      if Outranks(EffectOf(Run(s, front), acts[|acts| - 1]), p, priority) then 1 else 0
  }

  /** Exact waiting law: while `b` waits, the claims its project makes are the
      tasks that were ahead of it, plus the higher-priority tasks enqueued since,
      minus the tasks still ahead of it. */
  lemma {:induction false} WaitingLaw(s: State, acts: seq<Action>, p: string, b: int)
    requires Inv(s) && IsPending(s.db.table, p, b) && IsPending(Run(s, acts).db.table, p, b)
    ensures Claims(s, acts, p) + |AheadSet(Run(s, acts).db.table, b)| ==
            |AheadSet(s.db.table, b)| + Overtakers(s, acts, p, s.db.table.rows[b].priority)
  {
    if acts != [] {
      var front, last := acts[..|acts| - 1], acts[|acts| - 1];
      var before := Run(s, front);
      RunInv(s, front);
      StepInv(before, last);
      assert IsPending(before.db.table, p, b) by {
        assert SameIdentity(s.db.table.rows[b], before.db.table.rows[b]);
        assert StatusUp(before.db.table.rows[b].status, Run(s, acts).db.table.rows[b].status);
        assert StatusUp(s.db.table.rows[b].status, before.db.table.rows[b].status);
      }
      WaitingLaw(s, front, p, b);
      StepShows(before, last);
      AheadStep(before.db.table, Run(s, acts).db.table, before.db.claimed, EffectOf(before, last), p, b);
    }
  }

  /** No starvation: after as many claims as there were tasks ahead and
      overtakers, a task that still waits is the head of its queue, and after one
      claim more it no longer waits. */
  lemma WaitingIsBounded(s: State, acts: seq<Action>, p: string, b: int)
    requires Inv(s) && IsPending(s.db.table, p, b)
    ensures var bound := |AheadSet(s.db.table, b)| + Overtakers(s, acts, p, s.db.table.rows[b].priority);
            && (Claims(s, acts, p) > bound ==> !IsPending(Run(s, acts).db.table, p, b))
            && (Claims(s, acts, p) == bound && IsPending(Run(s, acts).db.table, p, b) ==>
                  IsHead(Run(s, acts).db.table, p, b) && First(Run(s, acts).db.table, p) == Some(b))
  {
    if IsPending(Run(s, acts).db.table, p, b) {
      WaitingLaw(s, acts, p, b);
      RunInv(s, acts);
      var t := Run(s, acts).db.table;
      if |AheadSet(t, b)| == 0 {
        assert AheadSet(t, b) == {};
        forall x | x != b && IsPending(t, p, x) ensures Before(t, b, x) {
          assert x !in AheadSet(t, b);
        }
        FirstIsHead(t, p);
      }
    }
  }
}
