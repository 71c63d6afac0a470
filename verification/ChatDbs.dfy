/** `ChatDB` as the relay, the reply router and the thread walk use it: the
    message table and the outbound Message-ID store (src/chat_db_impls.py,
    src/outbound_emails_store.py, src/db_maintenance.py). */
module ChatDbs {
  import opened Base
  import M = MessageTable

  datatype Outbound = Outbound(kind: M.Kind, sender: string, taskId: Option<int>, body: string, parentEid: string,
                               sentAt: int)

  function Coalesce<T>(a: Option<T>, b: Option<T>): Option<T> { if a.Some? then a else b }

  function CoalesceText(a: string, b: string): string { if a != "" then a else b }

  /** The upsert: on a known Message-ID only missing columns are filled in. */
  function Record(store: map<string, Outbound>, eid: string, row: Outbound): map<string, Outbound> {
    if eid in store then
      store[eid := store[eid].(taskId := Coalesce(store[eid].taskId, row.taskId),
                               body := CoalesceText(store[eid].body, row.body),
                               parentEid := CoalesceText(store[eid].parentEid, row.parentEid))]
    else store[eid := row]
  }

  /** An upsert touches one id: a new one gets the row, a known one keeps every
      column it has and takes from the row those it lacks. */
  ghost predicate Recorded(store: map<string, Outbound>, store': map<string, Outbound>, eid: string, row: Outbound) {
    && store'.Keys == store.Keys + {eid}
    && (forall e | e in store && e != eid :: store'[e] == store[e])
    && if eid !in store then store'[eid] == row
       else
         var had, has := store[eid], store'[eid];
         && has.kind == had.kind && has.sender == had.sender && has.sentAt == had.sentAt
         && has.taskId == (if had.taskId == None then row.taskId else had.taskId)
         && has.body == (if had.body == "" then row.body else had.body)
         && has.parentEid == (if had.parentEid == "" then row.parentEid else had.parentEid)
  }

  /** A row of the event log. */
  datatype LogEvent = LogEvent(kind: string, createdAt: int)

  /** The rows of the event log written since `cutoff`. */
  function Recent(events: seq<LogEvent>, cutoff: int): seq<LogEvent> {
    if events == [] then []
    else (if events[0].createdAt < cutoff then [] else [events[0]]) + Recent(events[1..], cutoff)
  }

  /** `after` is the rows of `before` written since `cutoff`, in their order: `at`
      says where each of them was. */
  ghost predicate KeepsSince(before: seq<LogEvent>, after: seq<LogEvent>, cutoff: int) {
    exists at: seq<int> :: PickedAt(before, after, cutoff, at)
  }

  ghost predicate PickedAt(before: seq<LogEvent>, after: seq<LogEvent>, cutoff: int, at: seq<int>) {
    && |at| == |after| && M.Increasing(at)
    && (forall k | 0 <= k < |at| :: 0 <= at[k] < |before| && after[k] == before[at[k]])
    && (forall i | 0 <= i < |before| :: i in at <==> before[i].createdAt >= cutoff)
  }

  /** The same places, seen from one event earlier. */
  ghost predicate ShiftedBy1(rest: seq<int>, at: seq<int>) {
    |at| == |rest| && forall k | 0 <= k < |rest| :: at[k] == rest[k] + 1
  }

  lemma PickedLater(first: LogEvent, events: seq<LogEvent>, kept: seq<LogEvent>, cutoff: int, rest: seq<int>,
                    at: seq<int>)
    requires PickedAt(events, kept, cutoff, rest) && ShiftedBy1(rest, at) && first.createdAt < cutoff
    ensures PickedAt([first] + events, kept, cutoff, at)
  {
    var all := [first] + events;
    forall i | 0 <= i < |all| ensures i in at <==> all[i].createdAt >= cutoff {
      InShifted(rest, at, i);
      assert i > 0 ==> all[i] == events[i - 1];
      assert 0 !in at;
    }
  }

  lemma InShifted(rest: seq<int>, at: seq<int>, i: int)
    requires ShiftedBy1(rest, at)
    ensures i in at <==> i - 1 in rest
  {
    if i - 1 in rest {
      var k :| 0 <= k < |rest| && rest[k] == i - 1;
      assert at[k] == i;
    }
  }

  lemma FirstThenShifted(rest: seq<int>, at: seq<int>)
    requires M.Increasing(rest) && ShiftedBy1(rest, at) && forall k | 0 <= k < |rest| :: rest[k] >= 0
    ensures M.Increasing([0] + at)
  {
  }

  lemma RowsFirst(first: LogEvent, events: seq<LogEvent>, kept: seq<LogEvent>, rest: seq<int>, at: seq<int>)
    requires ShiftedBy1(rest, at) && |rest| == |kept|
    requires forall k | 0 <= k < |rest| :: 0 <= rest[k] < |events| && kept[k] == events[rest[k]]
    ensures var at', all := [0] + at, [first] + events;
            forall k | 0 <= k < |at'| :: 0 <= at'[k] < |all| && ([first] + kept)[k] == all[at'[k]]
  {
    var at', all := [0] + at, [first] + events;
    forall k | 0 <= k < |at'| ensures 0 <= at'[k] < |all| && ([first] + kept)[k] == all[at'[k]] {
      if k > 0 { assert at'[k] == rest[k - 1] + 1; }
    }
  }

  lemma PickedFirst(first: LogEvent, events: seq<LogEvent>, kept: seq<LogEvent>, cutoff: int, rest: seq<int>,
                    at: seq<int>)
    requires PickedAt(events, kept, cutoff, rest) && ShiftedBy1(rest, at) && first.createdAt >= cutoff
    ensures PickedAt([first] + events, [first] + kept, cutoff, [0] + at)
  {
    FirstThenShifted(rest, at);
    RowsFirst(first, events, kept, rest, at);
    var all, at' := [first] + events, [0] + at;
    forall i | 0 <= i < |all| ensures i in at' <==> all[i].createdAt >= cutoff {
      InShifted(rest, at, i);
      if i > 0 { assert all[i] == events[i - 1]; }
    }
  }

  lemma {:induction false} RecentIsPicked(events: seq<LogEvent>, cutoff: int) returns (at: seq<int>)
    ensures PickedAt(events, Recent(events, cutoff), cutoff, at)
  {
    at := [];
    if events != [] {
      var rest := RecentIsPicked(events[1..], cutoff);
      at := seq(|rest|, k requires 0 <= k < |rest| => rest[k] + 1);
      assert [events[0]] + events[1..] == events;
      if events[0].createdAt < cutoff {
        PickedLater(events[0], events[1..], Recent(events[1..], cutoff), cutoff, rest, at);
      } else {
        PickedFirst(events[0], events[1..], Recent(events[1..], cutoff), cutoff, rest, at);
        at := [0] + at;
      }
    }
  }

  /** A status row for the user, about one task. */
  function StatusRow(agent: string, task: int, status: string, now: int): M.Message {
    M.NewMessage(agent, "user", status, M.Notify, None, Some(task), "", "", now)
  }

  /** `lastSent` is the column `tasks.last_sent_status`, where it is not NULL. */
  class ChatDb {
    var messages: M.Messages
    var outbound: map<string, Outbound>
    var events: seq<LogEvent>
    var lastSent: map<int, string>

    /** Opens a file that may already hold rows. */
    constructor (messages: M.Messages, outbound: map<string, Outbound>, events: seq<LogEvent>,
                 lastSent: map<int, string>)
      ensures this.messages == messages && this.outbound == outbound
      ensures this.events == events && this.lastSent == lastSent
    {
      this.messages := messages;
      this.outbound := outbound;
      this.events := events;
      this.lastSent := lastSent;
    }

    method InsertMessage(m: M.Message) returns (id: int)
      modifies this`messages, this`events
      ensures (messages, id) == M.Insert(old(messages), m.(status := M.Pending))
      ensures id == old(messages).next && messages.next == id + 1
      ensures messages.rows == old(messages).rows[id := m.(status := M.Pending)]
      ensures events == old(events) + [LogEvent("message", m.createdAt)]
    {
      id := messages.next;
      messages := M.Messages(messages.rows[id := m.(status := M.Pending)], id + 1);
      LogEventRow("message", m.createdAt);
    }

    method LogEventRow(kind: string, now: int)
      modifies this`events
      ensures events == old(events) + [LogEvent(kind, now)]
    {
      events := events + [LogEvent(kind, now)];
    }

    /** A status message, unless the same status was the last one sent. */
    method EmitStatusMessage(task: int, status: string, agent: string, now: int) returns (emitted: bool)
      modifies this`messages, this`events, this`lastSent
      ensures emitted == !(task in old(lastSent) && old(lastSent)[task] == status)
      ensures lastSent == if emitted then old(lastSent)[task := status] else old(lastSent)
      ensures messages == if emitted then M.Insert(old(messages), StatusRow(agent, task, status, now)).0
                          else old(messages)
      ensures emitted ==> messages.rows == old(messages).rows[old(messages).next :=
                            M.Message(agent, "user", status, M.Notify, M.Pending, None, Some(task), "", "", now)]
      ensures events == old(events) + if emitted then [LogEvent("status_emit", now)] else []
    {
      if task in lastSent && lastSent[task] == status {
        return false;
      }
      lastSent := lastSent[task := status];
      messages := M.Messages(messages.rows[messages.next := StatusRow(agent, task, status, now)], messages.next + 1);
      LogEventRow("status_emit", now);
      emitted := true;
    }

    /** `active` are the pending and running tasks of the project. */
    method ClearStatusDedupForProject(active: set<int>)
      modifies this`lastSent
      ensures lastSent == old(lastSent) - active
    {
      lastSent := lastSent - active;
    }

    method ClaimPendingMessagesFor(to: string) returns (ids: seq<int>)
      modifies this`messages
      ensures (messages, ids) == M.Claim(old(messages), to)
    {
      ids := M.PendingIds(messages, to);
      var rows := messages.rows;
      messages := messages.(rows := map id | id in rows ::
                                      if rows[id].to == to && rows[id].status == M.Pending
                                      then rows[id].(status := M.Delivered) else rows[id]);
      assert messages.rows == M.Claim(old(messages), to).0.rows;
    }

    method MarkMessageDelivered(id: int)
      modifies this`messages
      ensures messages == M.SetStatus(old(messages), id, M.Delivered)
    {
      if id in messages.rows {
        messages := messages.(rows := messages.rows[id := messages.rows[id].(status := M.Delivered)]);
      }
    }

    method MarkMessageFailed(id: int)
      modifies this`messages
      ensures messages == M.SetStatus(old(messages), id, M.Failed)
    {
      if id in messages.rows {
        messages := messages.(rows := messages.rows[id := messages.rows[id].(status := M.Failed)]);
      }
    }

    method RecoverFailedMessagesFor(to: string) returns (count: nat)
      modifies this`messages
      ensures messages == M.Recover(old(messages), to)
      ensures count == |set id | id in old(messages).rows && M.FailedFor(old(messages), to, id)|
    {
      count := |set id | id in messages.rows && M.FailedFor(messages, to, id)|;
      var rows := messages.rows;
      messages := messages.(rows := map id | id in rows ::
                                      if rows[id].to == to && rows[id].status == M.Failed
                                      then rows[id].(status := M.Pending) else rows[id]);
    }

    method SetEmailMessageId(id: int, eid: string)
      modifies this`messages
      ensures messages == M.SetEmailId(old(messages), id, eid)
    {
      if id in messages.rows {
        messages := messages.(rows := messages.rows[id := messages.rows[id].(emailId := eid)]);
      }
    }

    method RecordOutboundEmail(eid: string, row: Outbound) returns (r: Result<(), string>)
      modifies this`outbound
      ensures r.Failure? <==> eid == ""
      ensures outbound == if eid == "" then old(outbound) else Record(old(outbound), eid, row)
      ensures eid != "" ==> Recorded(old(outbound), outbound, eid, row)
    {
      if eid == "" { return Failure("email_message_id must not be empty"); }
      outbound := Record(outbound, eid, row);
      r := Success(());
    }

    /** Prune old messages that are not pending, old events and old outbound ids. */
    method CleanupOld(cutoff: int) returns (deletedMessages: nat, deletedEvents: nat, deletedOutbound: nat)
      modifies this`messages, this`events, this`outbound
      ensures messages == M.Prune(old(messages), cutoff)
      ensures events == Recent(old(events), cutoff) && KeepsSince(old(events), events, cutoff)
      ensures outbound == map e | e in old(outbound) && old(outbound)[e].sentAt >= cutoff :: old(outbound)[e]
      ensures deletedMessages == |set id | id in old(messages).rows && M.Prunable(old(messages), cutoff, id)|
      ensures deletedEvents == |old(events)| - |events|
      ensures deletedOutbound == |set e | e in old(outbound) && old(outbound)[e].sentAt < cutoff|
    {
      deletedMessages := |set id | id in messages.rows && M.Prunable(messages, cutoff, id)|;
      var rows := messages.rows;
      messages := messages.(rows := map id |
                                      id in rows && (rows[id].status == M.Pending || rows[id].createdAt >= cutoff) ::
                                      rows[id]);
      RecentIsShorter(events, cutoff);
      ghost var at := RecentIsPicked(events, cutoff);
      deletedEvents := |events| - |Recent(events, cutoff)|;
      events := Recent(events, cutoff);
      deletedOutbound := |set e | e in outbound && outbound[e].sentAt < cutoff|;
      outbound := map e | e in outbound && outbound[e].sentAt >= cutoff :: outbound[e];
    }
  }

  lemma {:induction false} RecentIsShorter(events: seq<LogEvent>, cutoff: int)
    ensures |Recent(events, cutoff)| <= |events|
  {
    if events != [] { RecentIsShorter(events[1..], cutoff); }
  }
}
