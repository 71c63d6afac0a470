/** The two models of the transaction wrapper agree: a thread of the interleaved
    machine that runs a given body, alone, does what the wrapper's own code does. */
module TxAgreement {
  import opened Base
  import opened TxWrapper
  import opened TxMachine

  /** The choices that make a machine thread run one operation. */
  function OpScript<W>(op: Op<W>): seq<Choice<W>>
    decreases op, 0
  {
    match op
    case Write(w) => [DoWrite(w)]
    case AfterCommit(h) => [DoHook(h)]
    case Raise(e) => [DoRaise(e)]
    case Nested(body) => [Enter(false)] + Script(body) + if Exec(body).exc == None then [Finish] else []
    case Guarded(body) => [Enter(true)] + Script(body) + if Exec(body).exc == None then [Finish] else []
  }

  /** ... and a body, up to where it raises. */
  function Script<W>(ops: seq<Op<W>>): seq<Choice<W>>
    decreases ops, 1
  {
    if ops == [] then []
    else OpScript(ops[0]) + if ExecOp(ops[0]).exc.Some? then [] else Script(ops[1..])
  }

  /** The steps of one thread, choice by choice. */
  function Drive<S, W>(apply: (S, W) -> S, db: Shared<S, W>, tid: int, t: Thread<W>, script: seq<Choice<W>>):
    (Shared<S, W>, Thread<W>)
    decreases |script|
  {
    if script == [] then (db, t)
    else
      var (db', t') := Advance(apply, db, tid, t, script[0]);
      Drive(apply, db', tid, t', script[1..])
  }

  lemma {:induction false} DriveAppend<S, W>(apply: (S, W) -> S, db: Shared<S, W>, tid: int, t: Thread<W>,
                                             a: seq<Choice<W>>, b: seq<Choice<W>>)
    decreases |a|
    ensures var (db', t') := Drive(apply, db, tid, t, a);
            Drive(apply, db, tid, t, a + b) == Drive(apply, db', tid, t', b)
  {
    if a == [] {
      assert a + b == b;
    } else {
      var (db', t') := Advance(apply, db, tid, t, a[0]);
      DriveAppend(apply, db', tid, t', a[1..], b);
      assert (a + b)[1..] == a[1..] + b;
    }
  }

  /** A thread inside a body. */
  datatype Spot<W> = Spot(call: int, n: nat, nest: seq<bool>, wrote: seq<W>, hooks: seq<Hook>)

  function Inside<W>(p: Spot<W>): Thread<W> { InBody(p.call, p.n, p.nest, p.wrote, p.hooks) }

  /** Where a body's exception lands: the nearest caller that catches, or the wrapper. */
  function Landing<W>(p: Spot<W>, exc: Option<Exc>): Thread<W> {
    if exc == None then Inside(p)
    else
      var caught := Unwind(p.nest);
      if caught.Some? then Inside(p.(nest := caught.value)) else Unwinding(p.call, p.n, exc.value)
  }

  function Grown<W>(p: Spot<W>, done: Done<W>): Spot<W> {
    p.(wrote := p.wrote + done.writes, hooks := p.hooks + done.hooks)
  }

  function DbAfter<S, W>(apply: (S, W) -> S, db: Shared<S, W>, done: Done<W>): Shared<S, W> {
    db.(working := Fold(apply, db.working, done.writes), afterCommit := db.afterCommit + done.hooks)
  }

  /** What running something that amounts to `done` does to the machine. */
  function Ended<S, W>(apply: (S, W) -> S, db: Shared<S, W>, p: Spot<W>, done: Done<W>): (Shared<S, W>, Thread<W>) {
    (DbAfter(apply, db, done), Landing(Grown(p, done), done.exc))
  }

  lemma EndedThen<S, W>(apply: (S, W) -> S, db: Shared<S, W>, p: Spot<W>, a: Done<W>, b: Done<W>)
    ensures Ended(apply, DbAfter(apply, db, a), Grown(p, a), b) == Ended(apply, db, p, Then(a, b))
  {
    FoldAppend(apply, db.working, a.writes, b.writes);
    assert (p.wrote + a.writes) + b.writes == p.wrote + (a.writes + b.writes);
    assert (p.hooks + a.hooks) + b.hooks == p.hooks + (a.hooks + b.hooks);
    assert (db.afterCommit + a.hooks) + b.hooks == db.afterCommit + (a.hooks + b.hooks);
  }

  lemma EndedNothing<S, W>(apply: (S, W) -> S, db: Shared<S, W>, p: Spot<W>)
    ensures Ended(apply, db, p, Done([], [], None)) == (db, Inside(p))
  {
    assert p.wrote + [] == p.wrote && p.hooks + [] == p.hooks && db.afterCommit + [] == db.afterCommit;
  }

  /** A nested call: one frame more while it runs, none when it is over. */
  lemma FrameRuns<S, W>(apply: (S, W) -> S, db: Shared<S, W>, tid: int, p: Spot<W>, body: seq<Op<W>>, caught: bool)
    requires Drive(apply, db, tid, Inside(p.(nest := p.nest + [caught])), Script(body)) ==
             Ended(apply, db, p.(nest := p.nest + [caught]), Exec(body))
    ensures Drive(apply, db, tid, Inside(p),
                  [Enter(caught)] + Script(body) + if Exec(body).exc == None then [Finish] else []) ==
            Ended(apply, db, p, if caught then Exec(body).(exc := None) else Exec(body))
  {
    var inner, done := p.(nest := p.nest + [caught]), Exec(body);
    var last: seq<Choice<W>> := if done.exc == None then [Finish] else [];
    var script := [Enter(caught)] + Script(body) + last;
    assert script[0] == Enter(caught) && script[1..] == Script(body) + last;
    assert Advance(apply, db, tid, Inside(p), Enter(caught)) == (db, Inside(inner));
    DriveAppend(apply, db, tid, Inside(inner), Script(body), last);
    assert inner.nest[..|p.nest|] == p.nest;
    var (db', t') := Ended(apply, db, inner, done);
    if done.exc == None {
      assert last[1..] == [];
      assert Drive(apply, db', tid, t', last) == Advance(apply, db', tid, t', Finish);
    } else {
      assert Unwind(inner.nest) == if caught then Some(p.nest) else Unwind(p.nest);
    }
  }

  lemma OneChoice<S, W>(apply: (S, W) -> S, db: Shared<S, W>, tid: int, t: Thread<W>, c: Choice<W>)
    ensures Drive(apply, db, tid, t, [c]) == Advance(apply, db, tid, t, c)
  {
    assert [c][1..] == [];
  }

  lemma {:induction false} OpRuns<S, W>(apply: (S, W) -> S, db: Shared<S, W>, tid: int, p: Spot<W>, op: Op<W>)
    decreases op, 0
    ensures Drive(apply, db, tid, Inside(p), OpScript(op)) == Ended(apply, db, p, ExecOp(op))
  {
    match op
    case Write(w) =>
      OneChoice(apply, db, tid, Inside(p), DoWrite(w));
      assert [w][..|[w]| - 1] == [] && Fold(apply, db.working, [w]) == apply(db.working, w);
      assert p.hooks + [] == p.hooks && db.afterCommit + [] == db.afterCommit;
    case AfterCommit(h) =>
      OneChoice(apply, db, tid, Inside(p), DoHook(h));
      assert p.wrote + [] == p.wrote;
    case Raise(e) =>
      OneChoice(apply, db, tid, Inside(p), DoRaise(e));
      assert p.wrote + [] == p.wrote && p.hooks + [] == p.hooks && db.afterCommit + [] == db.afterCommit;
    case Nested(body) =>
      BodyRuns(apply, db, tid, p.(nest := p.nest + [false]), body);
      FrameRuns(apply, db, tid, p, body, false);
    case Guarded(body) =>
      BodyRuns(apply, db, tid, p.(nest := p.nest + [true]), body);
      FrameRuns(apply, db, tid, p, body, true);
  }

  /** Whatever the body, at any depth: writes, hooks and exception of the machine
      are those the wrapper's code leaves. */
  lemma {:induction false} BodyRuns<S, W>(apply: (S, W) -> S, db: Shared<S, W>, tid: int, p: Spot<W>, ops: seq<Op<W>>)
    decreases ops, 1
    ensures Drive(apply, db, tid, Inside(p), Script(ops)) == Ended(apply, db, p, Exec(ops))
  {
    if ops == [] {
      EndedNothing(apply, db, p);
    } else {
      var first := ExecOp(ops[0]);
      OpRuns(apply, db, tid, p, ops[0]);
      if first.exc.Some? {
        assert OpScript(ops[0]) + [] == OpScript(ops[0]);
      } else {
        DriveAppend(apply, db, tid, Inside(p), OpScript(ops[0]), Script(ops[1..]));
        BodyRuns(apply, DbAfter(apply, db, first), tid, Grown(p, first), ops[1..]);
        EndedThen(apply, db, p, first, Exec(ops[1..]));
      }
    }
  }

  /** After the body: commit, fail to commit, or unwind. */
  function Ending<W>(a: Attempt<W>): seq<Choice<W>> {
    if Exec(a.body).exc.Some? then [Ok]
    else if a.commit.Some? then [Finish, Fail(a.commit.value), Ok]
    else [Finish, Ok]
  }

  function AttemptScript<W>(a: Attempt<W>): seq<Choice<W>> {
    if a.begin.Some? then [Fail(a.begin.value)] else [Ok] + (Script(a.body) + Ending(a))
  }

  /** What an attempt leaves of the connection and the thread. */
  ghost predicate AttemptEnds<S, W>(apply: (S, W) -> S, db: Shared<S, W>, call: int, n: nat, v: Verdict<W>,
                                    db': Shared<S, W>, t': Thread<W>) {
    && !db'.inTx && db'.afterCommit == []
    && match v
       case Commits(writes, hooks) =>
         && t' == Firing(call, hooks) && db'.durable == Fold(apply, db.durable, writes)
         && db'.log == db.log + [Commit(Some(call), writes, hooks)]
       case Fails(e) => t' == Deciding(call, n, e) && db'.durable == db.durable && db'.log == db.log
  }

  lemma EndingRuns<S, W>(apply: (S, W) -> S, db: Shared<S, W>, tid: int, p: Spot<W>, a: Attempt<W>)
    requires a.begin == None && p.nest == [] && p.wrote == [] && p.hooks == []
    requires db.inTx && db.working == db.durable && db.afterCommit == []
    ensures var (db1, t1) := Ended(apply, db, p, Exec(a.body));
            var (db', t') := Drive(apply, db1, tid, t1, Ending(a));
            AttemptEnds(apply, db, p.call, p.n, AttemptVerdict(a), db', t')
  {
    var done := Exec(a.body);
    var (db1, t1) := Ended(apply, db, p, done);
    assert [] + done.writes == done.writes && [] + done.hooks == done.hooks;
    var script := Ending(a);
    if done.exc.Some? {
      OneChoice(apply, db1, tid, t1, Ok);
    } else {
      var committing := Committing(p.call, p.n, done.writes, done.hooks);
      assert Advance(apply, db1, tid, t1, Finish) == (db1, committing);
      if a.commit.Some? {
        var c := Fail(a.commit.value);
        assert script[0] == Finish && script[1..] == [c, Ok] && [c, Ok][1..] == [Ok];
        OneChoice(apply, db1, tid, Unwinding(p.call, p.n, a.commit.value), Ok);
      } else {
        assert script[1..] == [Ok];
        OneChoice(apply, db1, tid, committing, Ok);
      }
    }
  }

  /** One attempt on a clean connection: the machine commits, fails, fires and
      logs exactly as the wrapper's attempt decides. */
  lemma AttemptRuns<S, W>(apply: (S, W) -> S, db: Shared<S, W>, tid: int, call: int, n: nat, a: Attempt<W>)
    requires !db.inTx && db.afterCommit == []
    ensures var (db', t') := Drive(apply, db, tid, Beginning(call, n), AttemptScript(a));
            AttemptEnds(apply, db, call, n, AttemptVerdict(a), db', t')
  {
    if a.begin.Some? {
      OneChoice(apply, db, tid, Beginning(call, n), Fail(a.begin.value));
    } else {
      var open := db.(inTx := true, working := db.durable);
      var p := Spot(call, n, [], [], []);
      var rest := Script(a.body) + Ending(a);
      assert ([Ok] + rest)[1..] == rest;
      assert Advance(apply, db, tid, Beginning(call, n), Ok) == (open, Inside(p));
      DriveAppend(apply, open, tid, Inside(p), Script(a.body), Ending(a));
      BodyRuns(apply, open, tid, p, a.body);
      EndingRuns(apply, open, tid, p, a);
    }
  }

  function CallScript<W>(first: Attempt<W>, second: Attempt<W>): seq<Choice<W>> {
    AttemptScript(first) + if AttemptVerdict(first) == Fails(Locked) then [Ok] + AttemptScript(second) else []
  }

  /** The whole call under the lock: one retry after "database is locked", and
      the verdict of the wrapper's `_run_tx`; a thread left with a failure goes on
      to raise it, not to try again. */
  lemma CallRuns<S, W>(apply: (S, W) -> S, db: Shared<S, W>, tid: int, call: int, first: Attempt<W>, second: Attempt<W>)
    requires !db.inTx && db.afterCommit == []
    ensures var (db', t') := Drive(apply, db, tid, Beginning(call, 1), CallScript(first, second));
            var n := if AttemptVerdict(first) == Fails(Locked) then 2 else 1;
            && AttemptEnds(apply, db, call, n, CallVerdict(first, second), db', t')
            && (t'.Deciding? ==> Advance(apply, db', tid, t', Ok).0.results == db'.results[call := RaisedExc(t'.exc)])
  {
    var rest: seq<Choice<W>> := if AttemptVerdict(first) == Fails(Locked) then [Ok] + AttemptScript(second) else [];
    DriveAppend(apply, db, tid, Beginning(call, 1), AttemptScript(first), rest);
    AttemptRuns(apply, db, tid, call, 1, first);
    var (db1, t1) := Drive(apply, db, tid, Beginning(call, 1), AttemptScript(first));
    if AttemptVerdict(first) == Fails(Locked) {
      var db2 := Advance(apply, db1, tid, t1, Ok).0;
      assert ([Ok] + AttemptScript(second))[1..] == AttemptScript(second);
      AttemptRuns(apply, db2, tid, call, 2, second);
    }
  }
}
