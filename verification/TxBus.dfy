/** The bus behind the wrapper: with bus statements as the writes of `TxMachine`,
    the file is always a `BusRuns` run, so what holds in every such run holds of it
    under any threads, failures and other processes (src/chat_db_tx.py:113-177,
    src/chat_db_impls.py:19-84). */
module TxBus {
  import opened Base
  import opened TxWrapper
  import TX = TxMachine
  import B = BusRuns
  import M = MessageTable

  /** The machine over bus statements, from a file without messages. */
  function Wrapped(acts: seq<TX.Action<B.Action>>): TX.State<M.Messages, B.Action> {
    TX.Run(B.Next, TX.Boot(M.NO_MESSAGES), acts)
  }

  /** What the commits wrote, one body after the other. */
  function Statements(log: seq<TX.Commit<B.Action>>): seq<B.Action> {
    if log == [] then [] else Statements(log[..|log| - 1]) + log[|log| - 1].wrote
  }

  lemma {:induction false} FoldIsRun(t: M.Messages, wrote: seq<B.Action>)
    ensures Fold(B.Next, t, wrote) == B.Run(t, wrote)
  {
    if wrote != [] { FoldIsRun(t, wrote[..|wrote| - 1]); }
  }

  lemma RunAppend(t: M.Messages, acts: seq<B.Action>, more: seq<B.Action>)
    ensures B.Run(t, acts + more) == B.Run(B.Run(t, acts), more)
  {
    FoldIsRun(t, acts + more);
    FoldIsRun(t, acts);
    FoldIsRun(B.Run(t, acts), more);
    FoldAppend(B.Next, t, acts, more);
  }

  lemma {:induction false} ReplayIsRun(t: M.Messages, log: seq<TX.Commit<B.Action>>)
    ensures TX.Replay(B.Next, t, log) == B.Run(t, Statements(log))
  {
    if log != [] {
      var front := log[..|log| - 1];
      ReplayIsRun(t, front);
      FoldIsRun(B.Run(t, Statements(front)), log[|log| - 1].wrote);
      RunAppend(t, Statements(front), log[|log| - 1].wrote);
    }
  }

  /** The file is the run of the committed statements, a `_read` sees that run, and
      a body that run followed by its own statements so far. */
  lemma FileIsARun(acts: seq<TX.Action<B.Action>>)
    ensures
      var s := Wrapped(acts);
      var run := Statements(s.db.log);
      && s.db.durable == B.Run(M.NO_MESSAGES, run)
      && (forall tid | tid in s.threads && s.threads[tid].Reading? :: TX.Seen(s.db) == B.Run(M.NO_MESSAGES, run))
      && (forall tid | tid in s.threads && s.threads[tid].InBody? ::
            TX.Seen(s.db) == B.Run(M.NO_MESSAGES, run + s.threads[tid].wrote))
  {
    var s := Wrapped(acts);
    TX.RunInv(B.Next, M.NO_MESSAGES, acts);
    ReplayIsRun(M.NO_MESSAGES, s.db.log);
    forall tid | tid in s.threads && s.threads[tid].Reading?
      ensures TX.Seen(s.db) == B.Run(M.NO_MESSAGES, Statements(s.db.log))
    {
      TX.ReadsAreClean(B.Next, M.NO_MESSAGES, acts, tid);
    }
    forall tid | tid in s.threads && s.threads[tid].InBody?
      ensures TX.Seen(s.db) == B.Run(M.NO_MESSAGES, Statements(s.db.log) + s.threads[tid].wrote)
    {
      BodySees(acts, tid);
    }
  }

  lemma BodySees(acts: seq<TX.Action<B.Action>>, tid: int)
    requires tid in Wrapped(acts).threads && Wrapped(acts).threads[tid].InBody?
    ensures var s := Wrapped(acts);
            TX.Seen(s.db) == B.Run(M.NO_MESSAGES, Statements(s.db.log) + s.threads[tid].wrote)
  {
    var s := Wrapped(acts);
    var wrote := s.threads[tid].wrote;
    TX.ReadsAreClean(B.Next, M.NO_MESSAGES, acts, tid);
    ReplayIsRun(M.NO_MESSAGES, s.db.log);
    FoldIsRun(B.Run(M.NO_MESSAGES, Statements(s.db.log)), wrote);
    RunAppend(M.NO_MESSAGES, Statements(s.db.log), wrote);
  }

  lemma {:induction false} BodyInOnePiece(log: seq<TX.Commit<B.Action>>, i: nat)
    requires i < |log|
    ensures exists rest :: Statements(log) == Statements(log[..i]) + log[i].wrote + rest
  {
    var front := log[..|log| - 1];
    if i == |log| - 1 {
      assert Statements(log) == Statements(log[..i]) + log[i].wrote + [];
    } else {
      BodyInOnePiece(front, i);
      assert front[..i] == log[..i];
      var rest :| Statements(front) == Statements(log[..i]) + log[i].wrote + rest;
      assert Statements(log) == Statements(log[..i]) + log[i].wrote + (rest + log[|log| - 1].wrote);
    }
  }

  /** A write call that returned did its statements in one piece of the run, with
      nobody else's in between. */
  lemma ReturnedCallIsOnePiece(acts: seq<TX.Action<B.Action>>, call: int)
    requires var s := Wrapped(acts);
             call in s.db.results && s.db.results[call] == Returned && call in s.used && !s.used[call]
    ensures var s := Wrapped(acts);
            exists i, rest | 0 <= i < |s.db.log| ::
              && s.db.log[i].call == Some(call)
              && Statements(s.db.log) == Statements(s.db.log[..i]) + s.db.log[i].wrote + rest
  {
    TX.WrapperIsAtomic(B.Next, M.NO_MESSAGES, acts, call);
    var log := Wrapped(acts).db.log;
    var i :| 0 <= i < |log| && log[i].call == Some(call);
    BodyInOnePiece(log, i);
  }

  /** So nothing is lost in the file: every id that a commit handed out is a row,
      or was deleted by a committed pruning when it was not pending. */
  lemma NothingIsLostInTheFile(acts: seq<TX.Action<B.Action>>, id: int)
    requires 1 <= id < Wrapped(acts).db.durable.next
    ensures var s := Wrapped(acts);
            var run := Statements(s.db.log);
            || id in s.db.durable.rows
            || exists k | 0 <= k < |run| ::
                 && run[k].PruneBefore?
                 && id in B.Run(M.NO_MESSAGES, run[..k]).rows
                 && B.Run(M.NO_MESSAGES, run[..k]).rows[id].status != M.Pending
                 && id !in B.Run(M.NO_MESSAGES, run[..k + 1]).rows
  {
    FileIsARun(acts);
    B.NothingIsLost(Statements(Wrapped(acts).db.log), id);
  }
}
