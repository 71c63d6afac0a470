/** Relaying pending agent-to-user messages as email (src/chat_relay.py). */
module ChatRelay {
  import opened ChatDbs
  import M = MessageTable

  /** What the mailer answers for one message. */
  datatype SendOutcome = Sent(eid: string) | PermanentError | TransientError

  /** The relay's fixed surroundings: tasks with an origin email, the mail
      server's answers, the clock. */
  datatype World = World(originTasks: set<int>, smtp: int -> SendOutcome, now: int)

  predicate ShouldRelay(t: M.Messages, m: M.Message, w: World) {
    || m.kind == M.Ask
    || (m.taskId.Some? && m.taskId.value != 0 && m.taskId.value in w.originTasks)
    || M.UserWroteTo(t, m.sender)
  }

  /** What becomes of one pending message. */
  datatype Fate = Drained | Emailed(eid: string) | Rejected | Stuck

  function FateOf(t: M.Messages, id: int, w: World): Fate
    requires id in t.rows
  {
    if !ShouldRelay(t, t.rows[id], w) then Drained
    else match w.smtp(id)
      case Sent(eid) => Emailed(eid)
      case PermanentError => Rejected
      case TransientError => Stuck
  }

  function Settled(m: M.Message, fate: Fate): M.Message {
    match fate
    case Drained => m.(status := M.Delivered)
    case Emailed(eid) => m.(status := M.Delivered, emailId := if eid != "" then eid else m.emailId)
    case Rejected => m.(status := M.Failed)
    case Stuck => m
  }

  /** Index of the first message the mail server answers with a transient error. */
  function Cut(t: M.Messages, ids: seq<int>, w: World): (cut: nat)
    requires forall i | 0 <= i < |ids| :: ids[i] in t.rows
    ensures cut <= |ids|
    ensures forall i | 0 <= i < cut :: FateOf(t, ids[i], w) != Stuck
    ensures cut < |ids| ==> FateOf(t, ids[cut], w) == Stuck
  {
    if ids == [] || FateOf(t, ids[0], w) == Stuck then 0 else 1 + Cut(t, ids[1..], w)
  }

  /** The emails sent for a list of messages, in list order. */
  function Emails(t: M.Messages, ids: seq<int>, w: World): seq<(int, string)>
    requires forall i | 0 <= i < |ids| :: ids[i] in t.rows
  {
    if ids == [] then []
    else
      var front, id := ids[..|ids| - 1], ids[|ids| - 1];
      var fate := FateOf(t, id, w);
      Emails(t, front, w) + if fate.Emailed? then [(id, fate.eid)] else []
  }

  /** Whom the relay owes an email: whoever asks, whose task came by email, or to
      whom the user has written. */
  ghost predicate OwedEmail(t: M.Messages, id: int, w: World)
    requires id in t.rows
  {
    || t.rows[id].kind == M.Ask
    || (t.rows[id].taskId.Some? && t.rows[id].taskId.value != 0 && t.rows[id].taskId.value in w.originTasks)
    || (exists x :: x in t.rows && t.rows[x].sender == "user" && t.rows[x].to == t.rows[id].sender)
  }

  /** What the batch made of one message before the cut, by what the mail server
      answers for it: delivered by email, failed, or delivered without one. */
  ghost predicate Relayed(t: M.Messages, t': M.Messages, sent: seq<(int, string)>, id: int, w: World)
    requires id in t.rows && id in t'.rows
  {
    var row, row' := t.rows[id], t'.rows[id];
    if !OwedEmail(t, id, w) then NotSent(sent, id) && row' == row.(status := M.Delivered)
    else match w.smtp(id)
      case Sent(eid) =>
        && (id, eid) in sent
        && row' == row.(status := M.Delivered, emailId := if eid != "" then eid else row.emailId)
      case PermanentError => NotSent(sent, id) && row' == row.(status := M.Failed)
      case TransientError => false
  }

  ghost predicate NotSent(sent: seq<(int, string)>, id: int) { forall k | 0 <= k < |sent| :: sent[k].0 != id }

  /** The whole batch: before the cut every message is settled; from the cut on
      nothing is touched, and the message at the cut met a transient error. */
  ghost predicate BatchDone(t: M.Messages, t': M.Messages, ids: seq<int>, cut: nat, sent: seq<(int, string)>, w: World)
    requires cut <= |ids| && forall i | 0 <= i < |ids| :: ids[i] in t.rows
  {
    && t'.next == t.next && t'.rows.Keys == t.rows.Keys
    && (forall i | 0 <= i < cut :: Relayed(t, t', sent, ids[i], w))
    && (forall k | 0 <= k < |sent| :: sent[k].0 in ids[..cut])
    && (forall j, k | 0 <= j < k < |sent| :: sent[j].0 < sent[k].0)
    && (cut < |ids| ==> OwedEmail(t, ids[cut], w) && w.smtp(ids[cut]) == TransientError)
    && (forall id | id in t.rows && id !in ids[..cut] :: t'.rows[id] == t.rows[id])
  }

  function OutboundRow(m: M.Message, now: int): Outbound {
    Outbound(m.kind, m.sender, m.taskId, "", "", now)
  }

  /** The outbound store after those emails. */
  function Recorded(store: map<string, Outbound>, t: M.Messages, ids: seq<int>, w: World): map<string, Outbound>
    requires forall i | 0 <= i < |ids| :: ids[i] in t.rows
  {
    if ids == [] then store
    else
      var front, id := ids[..|ids| - 1], ids[|ids| - 1];
      var fate := FateOf(t, id, w);
      var before := Recorded(store, t, front, w);
      if fate.Emailed? && fate.eid != "" then Record(before, fate.eid, OutboundRow(t.rows[id], w.now)) else before
  }

  lemma RelayableStays(t: M.Messages, t': M.Messages, m: M.Message, m': M.Message, w: World)
    requires t.rows.Keys == t'.rows.Keys
    requires forall id | id in t.rows :: t'.rows[id].sender == t.rows[id].sender && t'.rows[id].to == t.rows[id].to
    requires m'.kind == m.kind && m'.taskId == m.taskId && m'.sender == m.sender
    ensures ShouldRelay(t', m', w) == ShouldRelay(t, m, w)
  {
    if M.UserWroteTo(t, m.sender) {
      var id :| id in t.rows && t.rows[id].sender == "user" && t.rows[id].to == m.sender;
      assert t'.rows[id].sender == "user";
    }
    if M.UserWroteTo(t', m.sender) {
      var id :| id in t'.rows && t'.rows[id].sender == "user" && t'.rows[id].to == m.sender;
      assert t.rows[id].sender == "user";
    }
  }

  /** The first `n` messages of the batch are settled, each by its own outcome;
      nothing else differs. */
  ghost predicate SettledUpTo(t: M.Messages, t': M.Messages, ids: seq<int>, n: nat, w: World)
    requires n <= |ids| && forall i | 0 <= i < |ids| :: ids[i] in t.rows
  {
    && t'.next == t.next && t'.rows.Keys == t.rows.Keys
    && (forall id | id in t.rows && id !in ids[..n] :: t'.rows[id] == t.rows[id])
    && (forall i | 0 <= i < n :: t'.rows[ids[i]] == Settled(t.rows[ids[i]], FateOf(t, ids[i], w)))
  }

  lemma SettleNext(t: M.Messages, t': M.Messages, ids: seq<int>, n: nat, w: World)
    requires n < |ids| && forall i | 0 <= i < |ids| :: ids[i] in t.rows
    requires M.Increasing(ids) && SettledUpTo(t, t', ids, n, w)
    ensures ids[n] in t'.rows && t'.rows[ids[n]] == t.rows[ids[n]]
    ensures FateOf(t', ids[n], w) == FateOf(t, ids[n], w)
    ensures SettledUpTo(t, M.Put(t', ids[n], Settled(t.rows[ids[n]], FateOf(t, ids[n], w))), ids, n + 1, w)
  {
    var id := ids[n];
    var t2 := M.Put(t', id, Settled(t.rows[id], FateOf(t, id, w)));
    assert id !in ids[..n];
    assert ids[..n + 1] == ids[..n] + [id];
    forall x | x in t.rows ensures t'.rows[x].sender == t.rows[x].sender && t'.rows[x].to == t.rows[x].to {
      if x in ids[..n] { var i :| 0 <= i < n && ids[i] == x; }
    }
    RelayableStays(t, t', t.rows[id], t.rows[id], w);
    forall i | 0 <= i < n + 1 ensures t2.rows[ids[i]] == Settled(t.rows[ids[i]], FateOf(t, ids[i], w)) {
      assert i < n ==> ids[i] != id;
    }
  }

  /** Both tables and the emails after the first `n` messages. */
  ghost predicate BatchUpTo(t: M.Messages, store: map<string, Outbound>, t': M.Messages, store': map<string, Outbound>,
                            sent: seq<(int, string)>, ids: seq<int>, n: nat, w: World)
    requires n <= |ids| && forall i | 0 <= i < |ids| :: ids[i] in t.rows
  {
    SettledUpTo(t, t', ids, n, w) && sent == Emails(t, ids[..n], w) && store' == Recorded(store, t, ids[..n], w)
  }

  /** The same as one iteration after the other. */
  datatype Batch = Batch(messages: M.Messages, outbound: map<string, Outbound>, sent: seq<(int, string)>)

  ghost function BatchAfter(t: M.Messages, store: map<string, Outbound>, ids: seq<int>, n: nat, w: World): Batch
    requires n <= |ids| && forall i | 0 <= i < |ids| :: ids[i] in t.rows
  {
    if n == 0 then Batch(t, store, [])
    else BatchStep(BatchAfter(t, store, ids, n - 1, w), t.rows[ids[n - 1]], ids[n - 1], FateOf(t, ids[n - 1], w), w)
  }

  ghost function BatchStep(b: Batch, m: M.Message, id: int, fate: Fate, w: World): Batch {
    Batch(M.Put(b.messages, id, Settled(m, fate)),
          if fate.Emailed? && fate.eid != "" then Record(b.outbound, fate.eid, OutboundRow(m, w.now)) else b.outbound,
          b.sent + if fate.Emailed? then [(id, fate.eid)] else [])
  }

  lemma {:induction false} BatchSettles(t: M.Messages, store: map<string, Outbound>, ids: seq<int>, n: nat, w: World)
    requires n <= |ids| && M.Increasing(ids) && forall i | 0 <= i < |ids| :: ids[i] in t.rows
    ensures SettledUpTo(t, BatchAfter(t, store, ids, n, w).messages, ids, n, w)
  {
    if n > 0 {
      var m := n - 1;
      BatchSettles(t, store, ids, m, w);
      SettleNext(t, BatchAfter(t, store, ids, m, w).messages, ids, m, w);
    }
  }

  lemma {:induction false} BatchSends(t: M.Messages, store: map<string, Outbound>, ids: seq<int>, n: nat, w: World)
    requires n <= |ids| && forall i | 0 <= i < |ids| :: ids[i] in t.rows
    ensures BatchAfter(t, store, ids, n, w).sent == Emails(t, ids[..n], w)
    ensures BatchAfter(t, store, ids, n, w).outbound == Recorded(store, t, ids[..n], w)
  {
    if n == 0 {
      assert ids[..0] == [];
    } else {
      var m := n - 1;
      BatchSends(t, store, ids, m, w);
      RelayOneMore(store, t, ids, m, w);
    }
  }

  /** The next message is as the batch found it. */
  lemma BatchFate(t: M.Messages, store: map<string, Outbound>, ids: seq<int>, n: nat, w: World)
    requires n < |ids| && M.Increasing(ids) && forall i | 0 <= i < |ids| :: ids[i] in t.rows
    ensures var id, t' := ids[n], BatchAfter(t, store, ids, n, w).messages;
            id in t'.rows && t'.rows[id] == t.rows[id] && FateOf(t', id, w) == FateOf(t, id, w)
  {
    BatchSettles(t, store, ids, n, w);
    SettleNext(t, BatchAfter(t, store, ids, n, w).messages, ids, n, w);
  }

  lemma {:induction false} CutIs(t: M.Messages, ids: seq<int>, n: nat, w: World)
    requires forall i | 0 <= i < |ids| :: ids[i] in t.rows
    requires n <= |ids| && forall i | 0 <= i < n :: FateOf(t, ids[i], w) != Stuck
    requires n < |ids| ==> FateOf(t, ids[n], w) == Stuck
    ensures Cut(t, ids, w) == n
  {
    if n > 0 {
      CutIs(t, ids[1..], n - 1, w);
    }
  }

  lemma BatchEnds(t: M.Messages, store: map<string, Outbound>, ids: seq<int>, n: nat, w: World)
    requires n <= |ids| && M.Increasing(ids) && forall i | 0 <= i < |ids| :: ids[i] in t.rows
    requires forall i | 0 <= i < n :: FateOf(t, ids[i], w) != Stuck
    requires n < |ids| ==> FateOf(t, ids[n], w) == Stuck
    ensures var b := BatchAfter(t, store, ids, n, w);
            && n == Cut(t, ids, w)
            && BatchUpTo(t, store, b.messages, b.outbound, b.sent, ids, n, w)
            && BatchDone(t, b.messages, ids, n, b.sent, w)
  {
    var b := BatchAfter(t, store, ids, n, w);
    CutIs(t, ids, n, w);
    BatchSettles(t, store, ids, n, w);
    BatchSends(t, store, ids, n, w);
    RelayExactly(t, b.messages, ids, b.sent, w);
  }

  /** Relay one batch. For any outcomes there is a cut: every message before it
      is settled according to its own outcome, nothing from it on is touched,
      emails went out in id order, and each sent id is stored under its message
      and in the outbound store. */
  method RelayOutboundMessages(db: ChatDb, w: World) returns (sent: seq<(int, string)>, cut: nat)
    requires M.WellFormed(db.messages)
    modifies db`messages, db`outbound
    ensures var t := old(db.messages);
            var ids := M.PendingIds(t, "user");
            && (forall i | 0 <= i < |ids| :: ids[i] in t.rows)
            && M.Increasing(ids)
            && cut == Cut(t, ids, w)
            && BatchUpTo(t, old(db.outbound), db.messages, db.outbound, sent, ids, cut, w)
            && BatchDone(t, db.messages, ids, cut, sent, w)
  {
    ghost var t, store := db.messages, db.outbound;
    var pending := M.PendingIds(db.messages, "user");
    M.PendingIdsMeaning(t, "user");
    assert forall i | 0 <= i < |pending| :: pending[i] in pending;
    sent, cut := [], 0;
    while cut < |pending|
      invariant 0 <= cut <= |pending|
      invariant forall i | 0 <= i < cut :: FateOf(t, pending[i], w) != Stuck
      invariant Batch(db.messages, db.outbound, sent) == BatchAfter(t, store, pending, cut, w)
      decreases |pending| - cut
    {
      BatchFate(t, store, pending, cut, w);
      var fate := RelayMessage(db, pending[cut], w);
      if fate == Stuck { break; }
      assert sent + [] == sent;
      if fate.Emailed? {
        sent := sent + [(pending[cut], fate.eid)];
      }
      cut := cut + 1;
    }
    BatchEnds(t, store, pending, cut, w);
  }

  /** One more message before the cut. */
  lemma RelayOneMore(store: map<string, Outbound>, t: M.Messages, ids: seq<int>, n: nat, w: World)
    requires n < |ids| && forall i | 0 <= i < |ids| :: ids[i] in t.rows
    ensures var fate := FateOf(t, ids[n], w);
            && Emails(t, ids[..n + 1], w) ==
               Emails(t, ids[..n], w) + (if fate.Emailed? then [(ids[n], fate.eid)] else [])
            && Recorded(store, t, ids[..n + 1], w) ==
               if fate.Emailed? && fate.eid != ""
               then Record(Recorded(store, t, ids[..n], w), fate.eid, OutboundRow(t.rows[ids[n]], w.now))
               else Recorded(store, t, ids[..n], w)
  {
    assert ids[..n + 1][..n] == ids[..n];
  }

  /** The loop body for one message, up to what becomes of it. */
  method RelayMessage(db: ChatDb, id: int, w: World) returns (fate: Fate)
    requires id in db.messages.rows
    modifies db`messages, db`outbound
    ensures fate == FateOf(old(db.messages), id, w)
    ensures db.messages == if fate == Stuck then old(db.messages)
                           else M.Put(old(db.messages), id, Settled(old(db.messages).rows[id], fate))
    ensures db.outbound == if fate.Emailed? && fate.eid != ""
                           then Record(old(db.outbound), fate.eid, OutboundRow(old(db.messages).rows[id], w.now))
                           else old(db.outbound)
  {
    var m := db.messages.rows[id];
    if !ShouldRelay(db.messages, m, w) {
      db.MarkMessageDelivered(id);
      return Drained;
    }
    match w.smtp(id)
    case PermanentError =>
      db.MarkMessageFailed(id);
      fate := Rejected;
    case TransientError =>
      fate := Stuck;
    case Sent(eid) =>
      if eid != "" {
        db.SetEmailMessageId(id, eid);
        var r := db.RecordOutboundEmail(eid, OutboundRow(m, w.now));
      }
      db.MarkMessageDelivered(id);
      fate := Emailed(eid);
  }

  /** What that means message by message. */
  lemma {:induction false} EmailsMeaning(t: M.Messages, ids: seq<int>, w: World)
    requires forall i | 0 <= i < |ids| :: ids[i] in t.rows
    requires M.Increasing(ids)
    ensures forall k | 0 <= k < |Emails(t, ids, w)| ::
              && Emails(t, ids, w)[k].0 in ids
              && FateOf(t, Emails(t, ids, w)[k].0, w) == Emailed(Emails(t, ids, w)[k].1)
    ensures forall j, k | 0 <= j < k < |Emails(t, ids, w)| :: Emails(t, ids, w)[j].0 < Emails(t, ids, w)[k].0
    ensures forall id | id in ids && FateOf(t, id, w).Emailed? ::
              exists k :: 0 <= k < |Emails(t, ids, w)| && Emails(t, ids, w)[k].0 == id
  {
    if ids != [] {
      var front, id := ids[..|ids| - 1], ids[|ids| - 1];
      EmailsMeaning(t, front, w);
      assert ids == front + [id];
      var before, all := Emails(t, front, w), Emails(t, ids, w);
      assert forall k | 0 <= k < |before| :: all[k] == before[k];
      forall x | x in ids && FateOf(t, x, w).Emailed? ensures exists k :: 0 <= k < |all| && all[k].0 == x {
        if x == id {
          assert all[|before|].0 == x;
        } else {
          assert x in front;
          var k :| 0 <= k < |before| && before[k].0 == x;
          assert all[k].0 == x;
        }
      }
    }
  }

  /** What becomes of a message, by whether an email is owed and what the mail server
      answers. */
  lemma FateExactly(t: M.Messages, id: int, w: World)
    requires id in t.rows
    ensures FateOf(t, id, w) == if !OwedEmail(t, id, w) then Drained
                                else match w.smtp(id)
                                  case Sent(eid) => Emailed(eid)
                                  case PermanentError => Rejected
                                  case TransientError => Stuck
  {
  }

  lemma SettledIsRelayed(t: M.Messages, t': M.Messages, ids: seq<int>, sent: seq<(int, string)>, w: World, id: int)
    requires M.Increasing(ids) && forall i | 0 <= i < |ids| :: ids[i] in t.rows
    requires id in ids && sent == Emails(t, ids, w) && FateOf(t, id, w) != Stuck
    requires id in t'.rows && t'.rows[id] == Settled(t.rows[id], FateOf(t, id, w))
    ensures Relayed(t, t', sent, id, w)
  {
    FateExactly(t, id, w);
    EmailsMeaning(t, ids, w);
    if FateOf(t, id, w).Emailed? {
      var k :| 0 <= k < |sent| && sent[k].0 == id;
      assert FateOf(t, sent[k].0, w) == Emailed(sent[k].1) && sent[k] == (id, sent[k].1);
    }
  }

  lemma PrefixIncreases(ids: seq<int>, n: nat)
    requires M.Increasing(ids) && n <= |ids|
    ensures M.Increasing(ids[..n])
  {
  }

  lemma PrefixIsRelayed(t: M.Messages, t': M.Messages, ids: seq<int>, n: nat, sent: seq<(int, string)>, w: World,
                        i: nat)
    requires M.Increasing(ids) && forall k | 0 <= k < |ids| :: ids[k] in t.rows
    requires i < n <= |ids| && SettledUpTo(t, t', ids, n, w) && sent == Emails(t, ids[..n], w)
    requires FateOf(t, ids[i], w) != Stuck
    ensures Relayed(t, t', sent, ids[i], w)
  {
    PrefixIncreases(ids, n);
    assert ids[..n][i] == ids[i];
    SettledIsRelayed(t, t', ids[..n], sent, w, ids[i]);
  }

  lemma SentInOrder(t: M.Messages, ids: seq<int>, w: World)
    requires M.Increasing(ids) && forall k | 0 <= k < |ids| :: ids[k] in t.rows
    ensures var sent := Emails(t, ids, w);
            && (forall k | 0 <= k < |sent| :: sent[k].0 in ids)
            && (forall j, k | 0 <= j < k < |sent| :: sent[j].0 < sent[k].0)
  {
    EmailsMeaning(t, ids, w);
  }

  /** Which messages of a batch are emailed, failed or delivered without an email,
      said without the relay's own filter. */
  lemma RelayExactly(t: M.Messages, t': M.Messages, ids: seq<int>, sent: seq<(int, string)>, w: World)
    requires M.Increasing(ids) && forall i | 0 <= i < |ids| :: ids[i] in t.rows
    requires SettledUpTo(t, t', ids, Cut(t, ids, w), w) && sent == Emails(t, ids[..Cut(t, ids, w)], w)
    ensures BatchDone(t, t', ids, Cut(t, ids, w), sent, w)
  {
    var cut := Cut(t, ids, w);
    forall i | 0 <= i < cut ensures Relayed(t, t', sent, ids[i], w) {
      PrefixIsRelayed(t, t', ids, cut, sent, w, i);
    }
    PrefixIncreases(ids, cut);
    SentInOrder(t, ids[..cut], w);
    if cut < |ids| { FateExactly(t, ids[cut], w); }
  }

  /** An `ask` before the cut is never dropped: if it ended delivered, an email
      for it went out and a reply to that email finds it. */
  lemma AskNeverDropped(t: M.Messages, t': M.Messages, w: World, ids: seq<int>, sent: seq<(int, string)>, i: nat)
    requires M.Increasing(ids) && forall j | 0 <= j < |ids| :: ids[j] in t.rows
    requires i < Cut(t, ids, w) && SettledUpTo(t, t', ids, Cut(t, ids, w), w)
    requires sent == Emails(t, ids[..Cut(t, ids, w)], w)
    ensures t'.rows[ids[i]].status != M.Pending
    ensures t'.rows[ids[i]].status == M.Delivered && t.rows[ids[i]].kind == M.Ask ==>
              exists k :: 0 <= k < |sent| && sent[k].0 == ids[i]
                          && (sent[k].1 != "" ==> t'.rows[ids[i]].emailId == sent[k].1)
  {
    var done := ids[..Cut(t, ids, w)];
    var id := ids[i];
    assert done[i] == id;
    assert t'.rows[id] == Settled(t.rows[id], FateOf(t, id, w));
    if t'.rows[id].status == M.Delivered && t.rows[id].kind == M.Ask {
      assert FateOf(t, id, w).Emailed?;
      EmailsMeaning(t, done, w);
      var k :| 0 <= k < |sent| && sent[k].0 == id;
      assert FateOf(t, sent[k].0, w) == Emailed(sent[k].1);
    }
  }

  /** Every sent id is in the outbound store; a new one is there with the
      sender and task of its own message. */
  lemma {:induction false} EmailsAreRecorded(store: map<string, Outbound>, t: M.Messages, ids: seq<int>, w: World,
                                            i: nat)
    requires forall j | 0 <= j < |ids| :: ids[j] in t.rows
    requires i < |ids| && FateOf(t, ids[i], w).Emailed? && FateOf(t, ids[i], w).eid != ""
    ensures var eid := FateOf(t, ids[i], w).eid;
            && eid in Recorded(store, t, ids, w)
            && (eid !in store && (forall j | 0 <= j < |ids| && j != i :: FateOf(t, ids[j], w) != Emailed(eid)) ==>
                  Recorded(store, t, ids, w)[eid] ==
                  Outbound(t.rows[ids[i]].kind, t.rows[ids[i]].sender, t.rows[ids[i]].taskId, "", "", w.now))
  {
    var n := |ids| - 1;
    if i < n {
      EmailsAreRecorded(store, t, ids[..n], w, i);
    } else {
      var eid := FateOf(t, ids[i], w).eid;
      if eid !in store && forall j | 0 <= j < |ids| && j != i :: FateOf(t, ids[j], w) != Emailed(eid) {
        NotRecorded(store, t, ids[..n], w, eid);
      }
    }
  }

  lemma {:induction false} NotRecorded(store: map<string, Outbound>, t: M.Messages, ids: seq<int>, w: World,
                                      eid: string)
    requires forall j | 0 <= j < |ids| :: ids[j] in t.rows && FateOf(t, ids[j], w) != Emailed(eid)
    requires eid !in store
    ensures eid !in Recorded(store, t, ids, w)
  {
    if ids != [] { NotRecorded(store, t, ids[..|ids| - 1], w, eid); }
  }
}
