/** The transaction wrapper around one shared connection
    (src/chat_db_tx.py:83-184), as one thread runs it. */
module TxWrapper {
  import opened Base

  type Hook = int

  /** "database is locked", or anything else that can be raised. */
  datatype Exc = Locked | OtherError

  /** What a transaction body does, in order. `Nested` is a nested `_run_tx`;
      `Guarded` is one whose caller catches whatever it raises. */
  datatype Op<W> =
    | Write(w: W)
    | AfterCommit(h: Hook)
    | Nested(body: seq<Op<W>>)
    | Guarded(body: seq<Op<W>>)
    | Raise(e: Exc)

  /** What a body amounts to: the writes and hooks it leaves behind, and what it raises. */
  datatype Done<W> = Done(writes: seq<W>, hooks: seq<Hook>, exc: Option<Exc>)

  function Then<W>(a: Done<W>, b: Done<W>): Done<W> { Done(a.writes + b.writes, a.hooks + b.hooks, b.exc) }

  function ExecOp<W>(op: Op<W>): Done<W>
    decreases op, 0
  {
    match op
    case Write(w) => Done([w], [], None)
    case AfterCommit(h) => Done([], [h], None)
    case Nested(body) => Exec(body)
    case Guarded(body) => Exec(body).(exc := None)
    case Raise(e) => Done([], [], Some(e))
  }

  function Exec<W>(ops: seq<Op<W>>): Done<W>
    decreases ops, 1
  {
    if ops == [] then Done([], [], None)
    else
      var first := ExecOp(ops[0]);
      if first.exc.Some? then first else Then(first, Exec(ops[1..]))
  }

  function Fold<S, W>(apply: (S, W) -> S, s: S, ws: seq<W>): S {
    if ws == [] then s else apply(Fold(apply, s, ws[..|ws| - 1]), ws[|ws| - 1])
  }

  lemma {:induction false} FoldAppend<S, W>(apply: (S, W) -> S, s: S, a: seq<W>, b: seq<W>)
    ensures Fold(apply, s, a + b) == Fold(apply, Fold(apply, s, a), b)
  {
    if b == [] {
      assert a + b == a;
    } else {
      var front := b[..|b| - 1];
      FoldAppend(apply, s, a, front);
      assert (a + b)[..|a + b| - 1] == a + front;
    }
  }

  /** What sqlite and the body do in one attempt. A rollback that fails makes the
      wrapper replace the connection. */
  datatype Attempt<W> = Attempt(begin: Option<Exc>, body: seq<Op<W>>, commit: Option<Exc>, rollbackFails: bool)

  datatype Verdict<W> = Commits(writes: seq<W>, hooks: seq<Hook>) | Fails(e: Exc)

  function AttemptVerdict<W>(a: Attempt<W>): Verdict<W> {
    var done := Exec(a.body);
    if a.begin.Some? then Fails(a.begin.value)
    else if done.exc.Some? then Fails(done.exc.value)
    else if a.commit.Some? then Fails(a.commit.value)
    else Commits(done.writes, done.hooks)
  }

  /** One retry, and only after "database is locked". */
  function CallVerdict<W>(first: Attempt<W>, second: Attempt<W>): Verdict<W> {
    var v := AttemptVerdict(first);
    if v == Fails(Locked) then AttemptVerdict(second) else v
  }

  datatype Outcome = Returned | RaisedExc(e: Exc)

  class TransactionMixin<S, W> {
    const apply: (S, W) -> S
    var durable: S
    var working: S            // what the connection sees while a transaction is open
    var inTransaction: bool
    var replaced: nat         // connections replaced so far
    var depth: nat            // this thread's nesting depth
    var afterCommit: seq<Hook>
    var fired: seq<Hook>

    constructor (apply: (S, W) -> S, durable: S)
      ensures this.apply == apply && this.durable == durable
      ensures Idle() && fired == [] && !inTransaction
    {
      this.apply := apply;
      this.durable := durable;
      working := durable;
      inTransaction := false;
      replaced := 0;
      depth := 0;
      afterCommit := [];
      fired := [];
    }

    /** No call of this thread is in progress. The connection may still be
        poisoned by an open transaction somebody left behind. */
    predicate Idle()
      reads this
    {
      depth == 0 && afterCommit == []
    }

    method CloseAndReopen()
      modifies this`working, this`inTransaction, this`replaced
      ensures !inTransaction && working == durable && replaced == old(replaced) + 1
    {
      working := durable;
      inTransaction := false;
      replaced := replaced + 1;
    }

    method SafeRollback(fails: bool)
      modifies this`working, this`inTransaction, this`replaced
      ensures !inTransaction && working == durable
      ensures replaced == old(replaced) + if fails then 1 else 0
    {
      if fails {
        CloseAndReopen();
      } else {
        working := durable;
        inTransaction := false;
      }
    }

    method CheckOrRecoverAtDepthZero(rollbackFails: bool)
      modifies this`working, this`inTransaction, this`replaced
      ensures !inTransaction
      ensures old(inTransaction) ==> working == durable
      ensures replaced == old(replaced) + if old(inTransaction) && rollbackFails then 1 else 0
    {
      if !inTransaction { return; }
      SafeRollback(rollbackFails);
    }

    /** Run a body inside the open transaction. */
    method RunBody(body: seq<Op<W>>) returns (exc: Option<Exc>)
      requires inTransaction && depth > 0
      modifies this`working, this`depth, this`afterCommit
      ensures depth == old(depth)
      ensures working == Fold(apply, old(working), Exec(body).writes)
      ensures afterCommit == old(afterCommit) + Exec(body).hooks
      ensures exc == Exec(body).exc
      decreases body, 1
    {
      if body == [] { return None; }
      exc := RunOp(body[0]);
      if exc.Some? { return; }
      FoldAppend(apply, old(working), ExecOp(body[0]).writes, Exec(body[1..]).writes);
      exc := RunBody(body[1..]);
    }

    method RunOp(op: Op<W>) returns (exc: Option<Exc>)
      requires inTransaction && depth > 0
      modifies this`working, this`depth, this`afterCommit
      ensures depth == old(depth)
      ensures working == Fold(apply, old(working), ExecOp(op).writes)
      ensures afterCommit == old(afterCommit) + ExecOp(op).hooks
      ensures exc == ExecOp(op).exc
      decreases op, 0
    {
      exc := None;
      match op
      case Write(w) =>
        working := apply(working, w);
        assert [w][..0] == [];
      case AfterCommit(h) =>
        afterCommit := afterCommit + [h];
      case Raise(e) =>
        exc := Some(e);
      case Nested(body) =>
        depth := depth + 1;  // `_run_tx` at depth > 0 joins the outer transaction
        exc := RunBody(body);
        depth := depth - 1;
      case Guarded(body) =>
        depth := depth + 1;
        var ignored := RunBody(body);
        depth := depth - 1;
    }

    /** One attempt: BEGIN, body, COMMIT, or the inner handler's rollback. */
    method RunAttempt(a: Attempt<W>) returns (exc: Option<Exc>, hooks: seq<Hook>)
      requires Idle() && !inTransaction
      modifies this`durable, this`working, this`inTransaction, this`replaced, this`depth, this`afterCommit
      ensures Idle() && !inTransaction
      ensures match AttemptVerdict(a)
              case Commits(writes, hs) =>
                exc == None && hooks == hs && durable == Fold(apply, old(durable), writes)
              case Fails(e) =>
                exc == Some(e) && hooks == [] && durable == old(durable)
    {
      hooks := [];
      if a.begin.Some? {
        return a.begin, hooks;
      }
      inTransaction := true;
      working := durable;
      depth := 1;
      exc := RunBody(a.body);
      if exc == None {
        exc := a.commit;
      }
      if exc.Some? {
        SafeRollback(a.rollbackFails);
        afterCommit := [];
        depth := 0;
        return;
      }
      durable := working;
      inTransaction := false;
      hooks := afterCommit;
      afterCommit := [];
      depth := 0;
    }

    /** `_run_tx` at depth 0. A call that returns applied exactly one attempt's
        writes, once, and fired exactly the hooks that attempt appended; a call
        that raises changed nothing and fired none; writes found open at entry are
        discarded; afterwards nothing is left open. */
    method RunTxOuter(first: Attempt<W>, second: Attempt<W>, entryRollbackFails: bool) returns (r: Outcome)
      requires Idle()
      modifies this
      ensures Idle() && !inTransaction
      ensures match CallVerdict(first, second)
              case Commits(writes, hs) =>
                r == Returned && durable == Fold(apply, old(durable), writes) && fired == old(fired) + hs
              case Fails(e) =>
                r == RaisedExc(e) && durable == old(durable) && fired == old(fired)
    {
      CheckOrRecoverAtDepthZero(entryRollbackFails);
      var attempt := 1;
      var exc: Option<Exc>, hooks := None, [];
      while attempt <= 2
        invariant Idle() && !inTransaction && fired == old(fired) && durable == old(durable)
        invariant 1 <= attempt <= 2
        invariant attempt == 2 ==> AttemptVerdict(first) == Fails(Locked)
        decreases 2 - attempt
      {
        exc, hooks := RunAttempt(if attempt == 1 then first else second);
        if exc == None { break; }
        if exc != Some(Locked) || attempt == 2 {
          return RaisedExc(exc.value);
        }
        SafeRollback(first.rollbackFails);
        afterCommit := [];
        depth := 0;
        attempt := attempt + 1;
      }
      ghost var before, committed := fired, durable;
      for i := 0 to |hooks|
        invariant Idle() && !inTransaction && fired == before + hooks[..i] && durable == committed
      {
        assert hooks[..i + 1] == hooks[..i] + [hooks[i]];
        fired := fired + [hooks[i]];
      }
      assert hooks[..|hooks|] == hooks;
      r := Returned;
    }

    /** `_read`: outermost it first clears a stale transaction and sees committed
        data only; nested it sees the transaction it is part of. */
    method Read(rollbackFails: bool) returns (seen: S)
      requires depth > 0 ==> inTransaction
      modifies this`working, this`inTransaction, this`replaced
      ensures old(depth) == 0 ==> seen == durable && !inTransaction
      ensures old(depth) > 0 ==> seen == old(working) && inTransaction == old(inTransaction) && working == old(working)
    {
      if depth == 0 {
        CheckOrRecoverAtDepthZero(rollbackFails);
      }
      seen := if inTransaction then working else durable;
    }
  }

  /** A nested call that raises is not undone by itself: when its caller catches
      the exception, its writes and hooks commit with the outer transaction. */
  lemma GuardedNestedWritesSurvive<W>(w: W, h: Hook)
    ensures var body := [Guarded([Write(w), AfterCommit(h), Raise(OtherError)])];
            && Exec([Write(w), AfterCommit(h), Raise(OtherError)]).exc == Some(OtherError)
            && AttemptVerdict(Attempt(None, body, None, false)) == Commits([w], [h])
  {
    var inner: seq<Op<W>> := [Write(w), AfterCommit(h), Raise(OtherError)];
    assert inner[1..] == [AfterCommit(h), Raise(OtherError)];
    assert inner[1..][1..] == [Raise(OtherError)];
    assert Exec(inner[1..][1..]) == Done([], [], Some(OtherError));
    assert Exec(inner[1..]) == Done([], [h], Some(OtherError));
    assert Exec(inner) == Done([w], [h], Some(OtherError));
    var body: seq<Op<W>> := [Guarded(inner)];
    assert body[1..] == [];
    assert ExecOp(body[0]) == Done([w], [h], None);
    assert Then(ExecOp(body[0]), Exec(body[1..])) == Done([w], [h], None);
  }
}
