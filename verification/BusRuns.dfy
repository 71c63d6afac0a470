/** The life of a message over every run of bus statements. */
module BusRuns {
  import opened MessageTable

  datatype Action =
    | Post(m: Message)
    | ClaimFor(to: string)
    | Deliver(id: int)
    | Fail(id: int)
    | RecoverFor(to: string)
    | StampEmail(id: int, eid: string)
    | PruneBefore(cutoff: int)

  function Next(t: Messages, a: Action): Messages {
    match a
    case Post(m) => Insert(t, m.(status := Pending)).0
    case ClaimFor(to) => Claim(t, to).0
    case Deliver(id) => SetStatus(t, id, Delivered)
    case Fail(id) => SetStatus(t, id, Failed)
    case RecoverFor(to) => Recover(t, to)
    case StampEmail(id, eid) => SetEmailId(t, id, eid)
    case PruneBefore(cutoff) => Prune(t, cutoff)
  }

  function Run(t: Messages, acts: seq<Action>): Messages {
    if acts == [] then t else Next(Run(t, acts[..|acts| - 1]), acts[|acts| - 1])
  }

  /** The ids an action hands to a consumer. */
  function ClaimedBy(t: Messages, a: Action): seq<int> {
    if a.ClaimFor? then PendingIds(t, a.to) else []
  }

  lemma StepKeepsRows(t: Messages, a: Action)
    requires WellFormed(t)
    ensures WellFormed(Next(t, a)) && t.next <= Next(t, a).next
    ensures forall id | id in t.rows && id !in Next(t, a).rows :: a.PruneBefore? && t.rows[id].status != Pending
    ensures forall id | id in Next(t, a).rows && id !in t.rows ::
              id == t.next && a.Post? && Next(t, a).rows[id].status == Pending
    ensures forall id | id in t.rows && id in Next(t, a).rows ::
              t.rows[id].to == Next(t, a).rows[id].to && t.rows[id].sender == Next(t, a).rows[id].sender
  {
  }

  lemma {:induction false} RunKeepsRows(t: Messages, acts: seq<Action>)
    requires WellFormed(t)
    ensures WellFormed(Run(t, acts)) && t.next <= Run(t, acts).next
    ensures forall id | id in t.rows && id in Run(t, acts).rows :: t.rows[id].to == Run(t, acts).rows[id].to
    ensures forall id | id in Run(t, acts).rows && id !in t.rows :: id >= t.next
  {
    if acts != [] {
      var front := acts[..|acts| - 1];
      RunKeepsRows(t, front);
      StepKeepsRows(Run(t, front), acts[|acts| - 1]);
    }
  }

  /** Nothing is lost: an id that was handed out is still a row, which has one of
      the three statuses, or was deleted at a step where it was not pending. */
  lemma {:induction false} NothingIsLost(acts: seq<Action>, id: int)
    requires 1 <= id < Run(NO_MESSAGES, acts).next
    ensures || id in Run(NO_MESSAGES, acts).rows
            || exists k | 0 <= k < |acts| ::
                 && acts[k].PruneBefore?
                 && id in Run(NO_MESSAGES, acts[..k]).rows
                 && Run(NO_MESSAGES, acts[..k]).rows[id].status != Pending
                 && id !in Run(NO_MESSAGES, acts[..k + 1]).rows
  {
    if acts != [] {
      var n := |acts| - 1;
      var front := acts[..n];
      RunKeepsRows(NO_MESSAGES, front);
      StepKeepsRows(Run(NO_MESSAGES, front), acts[n]);
      if id < Run(NO_MESSAGES, front).next {
        NothingIsLost(front, id);
        if id in Run(NO_MESSAGES, front).rows {
          if id !in Run(NO_MESSAGES, acts).rows {
            assert acts[..n + 1] == acts;
          }
        } else {
          var k :| 0 <= k < |front| && front[k].PruneBefore? && id in Run(NO_MESSAGES, front[..k]).rows
                   && Run(NO_MESSAGES, front[..k]).rows[id].status != Pending
                   && id !in Run(NO_MESSAGES, front[..k + 1]).rows;
          assert acts[..k] == front[..k] && acts[..k + 1] == front[..k + 1];
        }
      }
    }
  }

  // ---- double claims ------------------------------------------------------

  lemma {:induction false} FailedMeansMarked(t: Messages, acts: seq<Action>, id: int)
    requires WellFormed(t) && id in t.rows && t.rows[id].status == Delivered
    requires id in Run(t, acts).rows && Run(t, acts).rows[id].status == Failed
    ensures exists k :: 0 <= k < |acts| && acts[k] == Fail(id)
  {
    if acts != [] {
      var n := |acts| - 1;
      var front := acts[..n];
      RunKeepsRows(t, front);
      StepKeepsRows(Run(t, front), acts[n]);
      if acts[n] != Fail(id) {
        FailedMeansMarked(t, front, id);
        var k :| 0 <= k < |front| && front[k] == Fail(id);
        assert acts[k] == Fail(id);
      }
    }
  }

  lemma {:induction false} PendingAgainMeansRecovered(t: Messages, acts: seq<Action>, id: int)
    requires WellFormed(t) && id in t.rows && t.rows[id].status == Delivered
    requires id in Run(t, acts).rows && Run(t, acts).rows[id].status == Pending
    ensures exists k, l :: 0 <= k < l < |acts| && acts[k] == Fail(id) && acts[l] == RecoverFor(t.rows[id].to)
  {
    var n := |acts| - 1;
    var front := acts[..n];
    RunKeepsRows(t, front);
    StepKeepsRows(Run(t, front), acts[n]);
    var before := Run(t, front).rows[id];
    if before.status == Pending {
      PendingAgainMeansRecovered(t, front, id);
      var k, l :| 0 <= k < l < |front| && front[k] == Fail(id) && front[l] == RecoverFor(t.rows[id].to);
      assert acts[k] == Fail(id) && acts[l] == RecoverFor(t.rows[id].to);
    } else {
      assert acts[n] == RecoverFor(t.rows[id].to);
      FailedMeansMarked(t, front, id);
      var k :| 0 <= k < |front| && front[k] == Fail(id);
      assert acts[k] == Fail(id);
    }
  }

  // ---- exactly when -------------------------------------------------------

  /** A failure mark that finds the message. */
  ghost predicate FailHits(t: Messages, acts: seq<Action>, id: int, k: nat)
    requires k < |acts|
  {
    acts[k] == Fail(id) && id in Run(t, acts[..k]).rows
  }

  /** At every moment the message, while it is there, is delivered. */
  ghost predicate StaysDelivered(t: Messages, acts: seq<Action>, id: int) {
    forall i: nat | i <= |acts| :: NotOtherwise(t, acts, id, i)
  }

  /** After `i` steps the message is delivered, or deleted. */
  ghost predicate NotOtherwise(t: Messages, acts: seq<Action>, id: int, i: nat)
    requires i <= |acts|
  {
    var now := Run(t, acts[..i]);
    id in now.rows ==> now.rows[id].status == Delivered
  }

  ghost predicate NeverHit(t: Messages, acts: seq<Action>, id: int) {
    forall k: nat | k < |acts| :: !FailHits(t, acts, id, k)
  }

  lemma StaysGoesOn(t: Messages, acts: seq<Action>, id: int)
    requires acts != []
    ensures StaysDelivered(t, acts, id) <==>
              StaysDelivered(t, acts[..|acts| - 1], id)
              && (id in Run(t, acts).rows ==> Run(t, acts).rows[id].status == Delivered)
  {
    var n := |acts| - 1;
    var front := acts[..n];
    forall i: nat | i <= n ensures NotOtherwise(t, acts, id, i) <==> NotOtherwise(t, front, id, i) {
      assert acts[..i] == front[..i];
    }
    assert acts[..n + 1] == acts;
    var now := Run(t, acts);
    assert NotOtherwise(t, acts, id, n + 1) <==> (id in now.rows ==> now.rows[id].status == Delivered);
  }

  lemma NeverHitGoesOn(t: Messages, acts: seq<Action>, id: int)
    requires acts != []
    ensures var n := |acts| - 1;
            NeverHit(t, acts, id) <==>
              NeverHit(t, acts[..n], id) && !(acts[n] == Fail(id) && id in Run(t, acts[..n]).rows)
  {
    var n := |acts| - 1;
    var front := acts[..n];
    forall k: nat | k < n ensures FailHits(t, acts, id, k) <==> FailHits(t, front, id, k) {
      assert acts[..k] == front[..k];
    }
    assert FailHits(t, acts, id, n) <==> acts[n] == Fail(id) && id in Run(t, front).rows;
  }

  /** A delivered message stays delivered exactly when no failure mark finds it. */
  lemma {:induction false} DeliveredStaysExactlyWhen(t: Messages, acts: seq<Action>, id: int)
    requires WellFormed(t) && id in t.rows && t.rows[id].status == Delivered
    ensures StaysDelivered(t, acts, id) <==> NeverHit(t, acts, id)
  {
    if acts == [] {
      assert forall i: nat | i <= |acts| :: acts[..i] == [] && NotOtherwise(t, acts, id, i);
    } else {
      var n := |acts| - 1;
      var before := Run(t, acts[..n]);
      DeliveredStaysExactlyWhen(t, acts[..n], id);
      StaysGoesOn(t, acts, id);
      NeverHitGoesOn(t, acts, id);
      RunKeepsRows(t, acts[..n]);
      if id in before.rows {
        assert acts[..n][..n] == acts[..n];
        assert StaysDelivered(t, acts[..n], id) ==> NotOtherwise(t, acts[..n], id, n);
        StepOnRow(before, acts[n], id);
      } else {
        StepKeepsRows(before, acts[n]);
      }
    }
  }

  /** Steps that end a failed row's being failed, or the row. */
  predicate EndsFailed(a: Action, m: Message, id: int) {
    a == Fail(id) || a == Deliver(id) || a == RecoverFor(m.to) || (a.PruneBefore? && m.createdAt < a.cutoff)
  }

  /** Steps that end a pending row's being pending. */
  predicate EndsPending(a: Action, m: Message, id: int) {
    a == Fail(id) || a == Deliver(id) || a == ClaimFor(m.to)
  }

  /** The last failure mark at `k` found it, and nothing since has touched it. */
  ghost predicate FailedAt(t: Messages, acts: seq<Action>, id: int, k: nat)
    requires id in t.rows
  {
    k < |acts| && FailHits(t, acts, id, k) && forall m | k < m < |acts| :: !EndsFailed(acts[m], t.rows[id], id)
  }

  ghost predicate FailedBy(t: Messages, acts: seq<Action>, id: int)
    requires id in t.rows
  {
    exists k: nat :: FailedAt(t, acts, id, k)
  }

  /** The recovery at `l` found it failed, and nothing since has touched it. */
  ghost predicate RecoveredAt(t: Messages, acts: seq<Action>, id: int, l: nat)
    requires id in t.rows
  {
    && l < |acts| && acts[l] == RecoverFor(t.rows[id].to) && FailedBy(t, acts[..l], id)
    && forall m | l < m < |acts| :: !EndsPending(acts[m], t.rows[id], id)
  }

  ghost predicate RecoveredBy(t: Messages, acts: seq<Action>, id: int)
    requires id in t.rows
  {
    exists l: nat :: RecoveredAt(t, acts, id, l)
  }

  lemma FailedGoesOn(t: Messages, acts: seq<Action>, id: int)
    requires id in t.rows && acts != []
    ensures FailedBy(t, acts, id) <==>
              var n := |acts| - 1;
              (acts[n] == Fail(id) && id in Run(t, acts[..n]).rows)
              || (FailedBy(t, acts[..n], id) && !EndsFailed(acts[n], t.rows[id], id))
  {
    var n := |acts| - 1;
    var front := acts[..n];
    if FailedBy(t, acts, id) {
      var k: nat :| FailedAt(t, acts, id, k);
      if k < n {
        assert front[..k] == acts[..k];
        assert FailedAt(t, front, id, k);
      }
    }
    if acts[n] == Fail(id) && id in Run(t, front).rows { assert FailedAt(t, acts, id, n); }
    if FailedBy(t, front, id) && !EndsFailed(acts[n], t.rows[id], id) {
      var k: nat :| FailedAt(t, front, id, k);
      assert front[..k] == acts[..k];
      assert FailedAt(t, acts, id, k);
    }
  }

  lemma RecoveredWas(t: Messages, acts: seq<Action>, id: int)
    requires id in t.rows && acts != [] && RecoveredBy(t, acts, id)
    ensures var n := |acts| - 1;
            (acts[n] == RecoverFor(t.rows[id].to) && FailedBy(t, acts[..n], id))
            || (RecoveredBy(t, acts[..n], id) && !EndsPending(acts[n], t.rows[id], id))
  {
    var front := acts[..|acts| - 1];
    var l: nat :| RecoveredAt(t, acts, id, l);
    if l < |acts| - 1 {
      assert front[..l] == acts[..l];
      assert RecoveredAt(t, front, id, l);
    }
  }

  lemma RecoveredStays(t: Messages, acts: seq<Action>, id: int)
    requires id in t.rows && acts != []
    requires RecoveredBy(t, acts[..|acts| - 1], id) && !EndsPending(acts[|acts| - 1], t.rows[id], id)
    ensures RecoveredBy(t, acts, id)
  {
    var front := acts[..|acts| - 1];
    var l: nat :| RecoveredAt(t, front, id, l);
    assert front[..l] == acts[..l];
    assert RecoveredAt(t, acts, id, l);
  }

  lemma RecoveredGoesOn(t: Messages, acts: seq<Action>, id: int)
    requires id in t.rows && acts != []
    ensures RecoveredBy(t, acts, id) <==>
              var n := |acts| - 1;
              (acts[n] == RecoverFor(t.rows[id].to) && FailedBy(t, acts[..n], id))
              || (RecoveredBy(t, acts[..n], id) && !EndsPending(acts[n], t.rows[id], id))
  {
    var n := |acts| - 1;
    if RecoveredBy(t, acts, id) { RecoveredWas(t, acts, id); }
    if acts[n] == RecoverFor(t.rows[id].to) && FailedBy(t, acts[..n], id) { assert RecoveredAt(t, acts, id, n); }
    if RecoveredBy(t, acts[..n], id) && !EndsPending(acts[n], t.rows[id], id) { RecoveredStays(t, acts, id); }
  }

  /** What one step does to one row. */
  lemma StepOnRow(t: Messages, a: Action, id: int)
    requires WellFormed(t) && id in t.rows
    ensures var m := t.rows[id];
            var t' := Next(t, a);
            && (id !in t'.rows <==> a.PruneBefore? && m.status != Pending && m.createdAt < a.cutoff)
            && (id in t'.rows ==>
                  && t'.rows[id].to == m.to && t'.rows[id].createdAt == m.createdAt
                  && t'.rows[id].status ==
                     (if a == Fail(id) then Failed
                      else if a == Deliver(id) then Delivered
                      else if a == ClaimFor(m.to) && m.status == Pending then Delivered
                      else if a == RecoverFor(m.to) && m.status == Failed then Pending
                      else m.status))
  {
  }

  /** From a delivered row: it is failed, or pending again, exactly when the last
      failure mark that found it, the recovery after that, and nothing else since
      say so. */
  lemma {:induction false} StatusExactlyWhen(t: Messages, acts: seq<Action>, id: int)
    requires WellFormed(t) && id in t.rows && t.rows[id].status == Delivered
    ensures var t' := Run(t, acts);
            && WellFormed(t')
            && (id in t'.rows ==> t'.rows[id].to == t.rows[id].to && t'.rows[id].createdAt == t.rows[id].createdAt)
            && (id in t'.rows && t'.rows[id].status == Failed <==> FailedBy(t, acts, id))
            && (id in t'.rows && t'.rows[id].status == Pending <==> RecoveredBy(t, acts, id))
  {
    RunKeepsRows(t, acts);
    if acts != [] {
      var n := |acts| - 1;
      StatusExactlyWhen(t, acts[..n], id);
      FailedGoesOn(t, acts, id);
      RecoveredGoesOn(t, acts, id);
      var before := Run(t, acts[..n]);
      if id in before.rows {
        StepOnRow(before, acts[n], id);
      } else {
        RunKeepsRows(t, acts[..n]);
        StepKeepsRows(before, acts[n]);
      }
    }
  }

  lemma {:induction false} RunSplit(t: Messages, acts: seq<Action>, i: nat)
    requires i <= |acts|
    ensures Run(t, acts) == Run(Run(t, acts[..i]), acts[i..])
  {
    if i == |acts| {
      assert acts[..i] == acts;
    } else {
      var n := |acts| - 1;
      RunSplit(t, acts[..n], i);
      assert acts[..n][..i] == acts[..i] && acts[i..][..n - i] == acts[..n][i..];
    }
  }

  ghost predicate FailThenRecover(acts: seq<Action>, id: int, to: string) {
    exists k, l :: 0 <= k < l < |acts| && acts[k] == Fail(id) && acts[l] == RecoverFor(to)
  }

  /** A claim, any steps, and the same message pending again. */
  lemma ClaimedThenPending(t: Messages, to: string, mid: seq<Action>, id: int)
    requires WellFormed(t) && id in PendingIds(t, to)
    requires id in Run(Claim(t, to).0, mid).rows && Run(Claim(t, to).0, mid).rows[id].status == Pending
    ensures FailThenRecover(mid, id, to)
  {
    PendingIdsMeaning(t, to);
    assert WellFormed(Claim(t, to).0);
    PendingAgainMeansRecovered(Claim(t, to).0, mid, id);
  }

  lemma RunAround(t: Messages, acts: seq<Action>, i: nat, j: nat)
    requires i < j <= |acts|
    ensures Run(t, acts[..j]) == Run(Next(Run(t, acts[..i]), acts[i]), acts[i + 1..j])
  {
    RunSplit(t, acts[..j], i + 1);
    assert acts[..j][..i + 1] == acts[..i + 1] && acts[..j][i + 1..] == acts[i + 1..j];
    assert acts[..i + 1][..i] == acts[..i];
  }

  lemma ClaimedAgainBetween(acts: seq<Action>, i: nat, j: nat, id: int)
    requires i < j < |acts|
    requires id in ClaimedBy(Run(NO_MESSAGES, acts[..i]), acts[i])
    requires id in ClaimedBy(Run(NO_MESSAGES, acts[..j]), acts[j])
    ensures FailThenRecover(acts[i + 1..j], id, acts[i].to)
  {
    RunKeepsRows(NO_MESSAGES, acts[..i]);
    RunKeepsRows(NO_MESSAGES, acts[..j]);
    PendingIdsMeaning(Run(NO_MESSAGES, acts[..j]), acts[j].to);
    RunAround(NO_MESSAGES, acts, i, j);
    ClaimedThenPending(Run(NO_MESSAGES, acts[..i]), acts[i].to, acts[i + 1..j], id);
  }

  /** Two claims return the same message only if, between them, it was marked
      failed and then recovered for its recipient. */
  lemma ClaimedTwice(acts: seq<Action>, i: nat, j: nat, id: int)
    requires i < j < |acts|
    requires id in ClaimedBy(Run(NO_MESSAGES, acts[..i]), acts[i])
    requires id in ClaimedBy(Run(NO_MESSAGES, acts[..j]), acts[j])
    ensures exists k, l :: i < k < l < j && acts[k] == Fail(id) && acts[l] == RecoverFor(acts[i].to)
  {
    ClaimedAgainBetween(acts, i, j, id);
    InBetween(acts, i, j, id, acts[i].to);
  }

  lemma InBetween(acts: seq<Action>, i: nat, j: nat, id: int, to: string)
    requires i < j < |acts| && FailThenRecover(acts[i + 1..j], id, to)
    ensures exists k, l :: i < k < l < j && acts[k] == Fail(id) && acts[l] == RecoverFor(to)
  {
    var mid := acts[i + 1..j];
    var k, l :| 0 <= k < l < |mid| && mid[k] == Fail(id) && mid[l] == RecoverFor(to);
    var k', l' := i + 1 + k, i + 1 + l;
    assert acts[k'] == Fail(id) && acts[l'] == RecoverFor(to);
  }

  /** Exactly when a message is handed out again: its recipient claims, and since
      the first claim it was marked failed, recovered after that, and left alone. */
  lemma ClaimedAgainExactlyWhen(acts: seq<Action>, i: nat, j: nat, id: int)
    requires i < j < |acts|
    requires id in ClaimedBy(Run(NO_MESSAGES, acts[..i]), acts[i])
    ensures var claimed := Next(Run(NO_MESSAGES, acts[..i]), acts[i]);
            && id in claimed.rows
            && (id in ClaimedBy(Run(NO_MESSAGES, acts[..j]), acts[j]) <==>
                  acts[j] == acts[i] && RecoveredBy(claimed, acts[i + 1..j], id))
  {
    var before := Run(NO_MESSAGES, acts[..i]);
    var claimed := Next(before, acts[i]);
    RunKeepsRows(NO_MESSAGES, acts[..i]);
    StepKeepsRows(before, acts[i]);
    PendingIdsMeaning(before, acts[i].to);
    StatusExactlyWhen(claimed, acts[i + 1..j], id);
    RunAround(NO_MESSAGES, acts, i, j);
    var now := Run(NO_MESSAGES, acts[..j]);
    if acts[j].ClaimFor? { PendingIdsMeaning(now, acts[j].to); }
  }

  // ---- order and completeness ---------------------------------------------

  /** Everything claimed for `to`, one claim after the other. */
  function ClaimLog(t: Messages, acts: seq<Action>, to: string): seq<int> {
    if acts == [] then []
    else
      var n := |acts| - 1;
      ClaimLog(t, acts[..n], to) +
      if acts[n] == ClaimFor(to) then PendingIds(Run(t, acts[..n]), to) else []
  }

  /** The ids of the messages posted to `to`, in insertion order. */
  function PostLog(t: Messages, acts: seq<Action>, to: string): seq<int> {
    if acts == [] then []
    else
      var n := |acts| - 1;
      PostLog(t, acts[..n], to) +
      if acts[n].Post? && acts[n].m.to == to then [Run(t, acts[..n]).next] else []
  }

  /** No by-id status update ever hits a message of `to`. */
  predicate Undisturbed(t: Messages, acts: seq<Action>, to: string) {
    acts == [] ||
    var n := |acts| - 1;
    var before := Run(t, acts[..n]);
    && Undisturbed(t, acts[..n], to)
    && (acts[n].Deliver? || acts[n].Fail? ==> acts[n].id in before.rows ==> before.rows[acts[n].id].to != to)
  }

  /** One step on the pending list of an undisturbed recipient. */
  lemma PendingStep(t: Messages, a: Action, to: string)
    requires WellFormed(t) && forall id :: !FailedFor(t, to, id)
    requires a.Deliver? || a.Fail? ==> a.id in t.rows ==> t.rows[a.id].to != to
    ensures forall id :: !FailedFor(Next(t, a), to, id)
    ensures PendingIds(Next(t, a), to) ==
            if a == ClaimFor(to) then []
            else PendingIds(t, to) + if a.Post? && a.m.to == to then [t.next] else []
  {
    var t' := Next(t, a);
    match a
    case Post(m) =>
      assert forall id :: FailedFor(t', to, id) ==> FailedFor(t, to, id);
      SamePending(t, t', to, t.next);
    case ClaimFor(who) =>
      assert forall id :: FailedFor(t', to, id) ==> FailedFor(t, to, id);
      if who == to { NonePending(t', to, t.next); } else { SamePending(t, t', to, t.next); }
    case RecoverFor(who) =>
      assert forall id :: FailedFor(t', to, id) ==> FailedFor(t, to, id);
      SamePending(t, t', to, t.next);
    case _ =>
      assert forall id :: FailedFor(t', to, id) ==> FailedFor(t, to, id);
      SamePending(t, t', to, t.next);
  }

  /** With no by-id marking, delivered or failed, the claims for an agent followed by what is still
      pending are exactly the messages posted to it, in order: no repeat, no gap. */
  lemma {:induction false} ClaimsAreTheInbox(acts: seq<Action>, to: string)
    requires Undisturbed(NO_MESSAGES, acts, to)
    ensures forall id :: !FailedFor(Run(NO_MESSAGES, acts), to, id)
    ensures ClaimLog(NO_MESSAGES, acts, to) + PendingIds(Run(NO_MESSAGES, acts), to) == PostLog(NO_MESSAGES, acts, to)
  {
    if acts == [] {
      NonePending(NO_MESSAGES, to, 1);
    } else {
      var n := |acts| - 1;
      ClaimsAreTheInbox(acts[..n], to);
      RunKeepsRows(NO_MESSAGES, acts[..n]);
      PendingStep(Run(NO_MESSAGES, acts[..n]), acts[n], to);
    }
  }

  /** `delivered` is not final: a late failure mark takes it back, and recovery
      hands the message out again. */
  lemma DeliveredIsNotFinal(m: Message)
    ensures var acts := [Post(m), ClaimFor(m.to), Fail(1), RecoverFor(m.to)];
            && 1 in ClaimedBy(Run(NO_MESSAGES, acts[..1]), acts[1])
            && 1 in ClaimedBy(Run(NO_MESSAGES, acts), ClaimFor(m.to))
  {
    var acts := [Post(m), ClaimFor(m.to), Fail(1), RecoverFor(m.to)];
    assert acts[..4] == acts && acts[..3][..2] == acts[..2] && acts[..2][..1] == acts[..1] && acts[..1][..0] == [];
    assert acts[..4][..3] == acts[..3];
    var t1 := Next(NO_MESSAGES, acts[0]);
    assert Run(NO_MESSAGES, acts[..1]) == t1;
    assert PendingFor(t1, m.to, 1);
    PendingIdsMeaning(t1, m.to);
    var t2 := Next(t1, acts[1]);
    assert Run(NO_MESSAGES, acts[..2]) == t2;
    var t3 := Next(t2, acts[2]);
    assert Run(NO_MESSAGES, acts[..3]) == t3;
    var t4 := Next(t3, acts[3]);
    assert Run(NO_MESSAGES, acts) == t4;
    assert PendingFor(t4, m.to, 1);
    PendingIdsMeaning(t4, m.to);
  }
}
