/** The dashboard's event stream (chat/dashboard.py:47-70) over its two watermark
    queries (src/dashboard_queries.py:84-135). A table is the ascending list of
    its row ids; events also carry their type. */
module EventStream {

  const PAGE: nat := 200

  const FLOW_EVENT_TYPES: set<string> := {
    "hook_drain_stop", "hook_drain_session", "wake_spawn_start", "wake_spawn_end", "hook_precompact",
    "hook_stop_pending_work"}

  datatype Event = Event(id: int, kind: string)

  datatype Frame = Hello(lastId: int, lastFlowId: int) | MessageFrame(id: int) | EventFrame(id: int) | Keepalive

  /** WHERE id > last ORDER BY id. */
  function Newer(ids: seq<int>, last: int): seq<int> {
    if ids == [] then []
    else if ids[0] > last then [ids[0]] + Newer(ids[1..], last)
    else Newer(ids[1..], last)
  }

  /** ... LIMIT 200. */
  function Page(ids: seq<int>, last: int): seq<int> {
    var newer := Newer(ids, last);
    if |newer| <= PAGE then newer else newer[..PAGE]
  }

  function FlowIds(events: seq<Event>): seq<int> {
    if events == [] then []
    else (if events[0].kind in FLOW_EVENT_TYPES then [events[0].id] else []) + FlowIds(events[1..])
  }

  /** COALESCE(MAX(id), 0) of an ascending list. */
  function Latest(ids: seq<int>): int { if ids == [] then 0 else ids[|ids| - 1] }

  function LastOr(ids: seq<int>, default: int): int { if ids == [] then default else ids[|ids| - 1] }

  function MessageFrames(ids: seq<int>): (f: seq<Frame>)
    ensures |f| == |ids|
  {
    seq(|ids|, i requires 0 <= i < |ids| => MessageFrame(ids[i]))
  }

  function EventFrames(ids: seq<int>): (f: seq<Frame>)
    ensures |f| == |ids|
  {
    seq(|ids|, i requires 0 <= i < |ids| => EventFrame(ids[i]))
  }

  /** The message ids among the frames sent, in sending order. */
  function MessagesIn(frames: seq<Frame>): seq<int> {
    if frames == [] then []
    else
      var last := frames[|frames| - 1];
      MessagesIn(frames[..|frames| - 1]) + if last.MessageFrame? then [last.id] else []
  }

  /** The flow-event ids among the frames sent, in sending order. */
  function EventsIn(frames: seq<Frame>): seq<int> {
    if frames == [] then []
    else
      var last := frames[|frames| - 1];
      EventsIn(frames[..|frames| - 1]) + if last.EventFrame? then [last.id] else []
  }

  lemma {:induction false} SentAppend(a: seq<Frame>, b: seq<Frame>)
    ensures MessagesIn(a + b) == MessagesIn(a) + MessagesIn(b)
    ensures EventsIn(a + b) == EventsIn(a) + EventsIn(b)
  {
    if b == [] {
      assert a + b == a;
    } else {
      SentAppend(a, b[..|b| - 1]);
      assert (a + b)[..|a + b| - 1] == a + b[..|b| - 1];
    }
  }

  lemma {:induction false} MessageFramesSend(ids: seq<int>)
    ensures MessagesIn(MessageFrames(ids)) == ids && EventsIn(MessageFrames(ids)) == []
  {
    if ids != [] {
      var n := |ids| - 1;
      MessageFramesSend(ids[..n]);
      assert MessageFrames(ids)[..n] == MessageFrames(ids[..n]);
    }
  }

  lemma {:induction false} EventFramesSend(ids: seq<int>)
    ensures EventsIn(EventFrames(ids)) == ids && MessagesIn(EventFrames(ids)) == []
  {
    if ids != [] {
      var n := |ids| - 1;
      EventFramesSend(ids[..n]);
      assert EventFrames(ids)[..n] == EventFrames(ids[..n]);
    }
  }

  lemma OtherFrameSends(f: Frame)
    requires f.Hello? || f.Keepalive?
    ensures MessagesIn([f]) == [] && EventsIn([f]) == []
  {
    assert [f][..0] == [];
  }

  lemma AfterMessages(frames: seq<Frame>, ids: seq<int>)
    ensures MessagesIn(frames + MessageFrames(ids)) == MessagesIn(frames) + ids
    ensures EventsIn(frames + MessageFrames(ids)) == EventsIn(frames)
  {
    SentAppend(frames, MessageFrames(ids));
    MessageFramesSend(ids);
  }

  lemma AfterEvents(frames: seq<Frame>, ids: seq<int>)
    ensures EventsIn(frames + EventFrames(ids)) == EventsIn(frames) + ids
    ensures MessagesIn(frames + EventFrames(ids)) == MessagesIn(frames)
  {
    SentAppend(frames, EventFrames(ids));
    EventFramesSend(ids);
  }

  lemma AfterKeepalive(frames: seq<Frame>)
    ensures MessagesIn(frames + [Keepalive]) == MessagesIn(frames) && EventsIn(frames + [Keepalive]) == EventsIn(frames)
  {
    SentAppend(frames, [Keepalive]);
    OtherFrameSends(Keepalive);
  }

  /** What one round adds to the two streams. */
  lemma AfterRound(before: seq<Frame>, after: seq<Frame>, m: seq<int>, e: seq<int>)
    requires after == before + MessageFrames(m) + EventFrames(e) + [Keepalive]
    ensures MessagesIn(after) == MessagesIn(before) + m && EventsIn(after) == EventsIn(before) + e
  {
    AfterMessages(before, m);
    AfterEvents(before + MessageFrames(m), e);
    AfterKeepalive(before + MessageFrames(m) + EventFrames(e));
  }

  /** What a streamer holds: both watermarks and the frames sent so far. */
  datatype Stream = Stream(lastMsg: int, lastFlow: int, frames: seq<Frame>)

  function Opened(messages: seq<int>, events: seq<Event>): Stream {
    var m, f := Latest(messages), Latest(FlowIds(events));
    Stream(m, f, [Hello(m, f)])
  }

  /** 0 for an empty list, else the member that no other exceeds. */
  ghost predicate Highest(mark: int, ids: seq<int>) {
    if ids == [] then mark == 0 else mark in ids && forall id | id in ids :: id <= mark
  }

  predicate IsFlow(e: Event) { e.kind in FLOW_EVENT_TYPES }

  /** The same over the events of a flow type. */
  ghost predicate HighestFlow(mark: int, events: seq<Event>) {
    if forall e | e in events :: !IsFlow(e) then mark == 0
    else
      && (exists e :: e in events && IsFlow(e) && e.id == mark)
      && forall e | e in events && IsFlow(e) :: e.id <= mark
  }

  lemma {:induction false} FlowIdsMeaning(events: seq<Event>, id: int)
    ensures id in FlowIds(events) <==> exists e :: e in events && IsFlow(e) && e.id == id
  {
    if events != [] {
      FlowIdsMeaning(events[1..], id);
      assert forall e :: e in events <==> e == events[0] || e in events[1..];
      if IsFlow(events[0]) && events[0].id == id { assert events[0] in events; }
    }
  }

  lemma LatestIsHighest(ids: seq<int>)
    requires Ascending(ids)
    ensures Highest(Latest(ids), ids)
  {
  }

  lemma HighestOfFlow(mark: int, events: seq<Event>)
    requires Highest(mark, FlowIds(events))
    ensures HighestFlow(mark, events)
  {
    FlowIdsMeaning(events, mark);
    forall e | e in events && IsFlow(e) ensures FlowIds(events) != [] && e.id <= mark {
      FlowIdsMeaning(events, e.id);
    }
    if FlowIds(events) != [] {
      var id := FlowIds(events)[0];
      FlowIdsMeaning(events, id);
    }
  }

  /** A client starts at the highest message and the highest flow event there are. */
  lemma OpensAtHighest(messages: seq<int>, events: seq<Event>)
    requires Ascending(messages) && EventsAscending(events)
    ensures var v := Opened(messages, events); Highest(v.lastMsg, messages) && HighestFlow(v.lastFlow, events)
  {
    FlowIdsAscend(events);
    LatestIsHighest(messages);
    LatestIsHighest(FlowIds(events));
    HighestOfFlow(Latest(FlowIds(events)), events);
  }

  /** One round on the rows of the two tables. */
  function Round(v: Stream, messages: seq<int>, events: seq<Event>): Stream {
    var m, e := Page(messages, v.lastMsg), Page(FlowIds(events), v.lastFlow);
    Stream(LastOr(m, v.lastMsg), LastOr(e, v.lastFlow), v.frames + MessageFrames(m) + EventFrames(e) + [Keepalive])
  }

  function Rounds(v: Stream, tables: seq<(seq<int>, seq<Event>)>): Stream {
    if tables == [] then v
    else
      var n := |tables| - 1;
      Round(Rounds(v, tables[..n]), tables[n].0, tables[n].1)
  }

  class EventStreamer {
    var lastMsg: int
    var lastFlow: int
    var frames: seq<Frame>

    function View(): Stream
      reads this
    {
      Stream(lastMsg, lastFlow, frames)
    }

    constructor (messages: seq<int>, events: seq<Event>)
      ensures View() == Opened(messages, events)
      ensures Ascending(messages) && EventsAscending(events) ==>
                && frames == [Hello(lastMsg, lastFlow)]
                && Highest(lastMsg, messages) && HighestFlow(lastFlow, events)
      ensures MessagesIn(frames) == [] && EventsIn(frames) == []
    {
      if Ascending(messages) && EventsAscending(events) { OpensAtHighest(messages, events); }
      lastMsg := Latest(messages);
      lastFlow := Latest(FlowIds(events));
      frames := [Hello(Latest(messages), Latest(FlowIds(events)))];
    }

    /** The loop, for the rounds before the client disconnects. */
    method StreamEvents(tables: seq<(seq<int>, seq<Event>)>)
      modifies this
      ensures View() == Rounds(old(View()), tables)
    {
      for i := 0 to |tables|
        invariant View() == Rounds(old(View()), tables[..i])
      {
        assert tables[..i + 1][..i] == tables[..i];
        PollOnce(tables[i].0, tables[i].1);
      }
      assert tables[..|tables|] == tables;
    }

    /** One round of the loop. */
    method PollOnce(messages: seq<int>, events: seq<Event>)
      modifies this
      ensures var m := Page(messages, old(lastMsg));
              var e := Page(FlowIds(events), old(lastFlow));
              && View() == Round(old(View()), messages, events)
              && frames == old(frames) + MessageFrames(m) + EventFrames(e) + [Keepalive]
              && lastMsg == (if m == [] then old(lastMsg) else m[|m| - 1])
              && lastFlow == (if e == [] then old(lastFlow) else e[|e| - 1])
              && MessagesIn(frames) == MessagesIn(old(frames)) + m && EventsIn(frames) == EventsIn(old(frames)) + e
    {
      var rows := Page(messages, lastMsg);
      var before := frames;
      for i := 0 to |rows|
        invariant lastFlow == old(lastFlow)
        invariant lastMsg == if i == 0 then old(lastMsg) else rows[i - 1]
        invariant frames == before + MessageFrames(rows[..i])
      {
        assert rows[..i + 1] == rows[..i] + [rows[i]];
        assert MessageFrames(rows[..i + 1]) == MessageFrames(rows[..i]) + [MessageFrame(rows[i])];
        lastMsg := rows[i];
        frames := frames + [MessageFrame(rows[i])];
      }
      assert rows[..|rows|] == rows;
      var flow := Page(FlowIds(events), lastFlow);
      before := frames;
      for i := 0 to |flow|
        invariant lastMsg == LastOr(rows, old(lastMsg))
        invariant lastFlow == if i == 0 then old(lastFlow) else flow[i - 1]
        invariant frames == before + EventFrames(flow[..i])
      {
        assert flow[..i + 1] == flow[..i] + [flow[i]];
        assert EventFrames(flow[..i + 1]) == EventFrames(flow[..i]) + [EventFrame(flow[i])];
        lastFlow := flow[i];
        frames := frames + [EventFrame(flow[i])];
      }
      assert flow[..|flow|] == flow;
      frames := frames + [Keepalive];
      AfterRound(old(frames), frames, rows, flow);
    }
  }

  // ---- the stream against the log -----------------------------------------

  /** `log` is every id committed, in commit order; `gone` the deleted ones;
      `hello` the watermark at connection; `out` the ids emitted so far. */
  datatype State = State(log: seq<int>, gone: set<int>, hello: int, last: int, out: seq<int>)

  datatype Action = Commit(id: int) | Delete(id: int) | Poll

  function Visible(log: seq<int>, gone: set<int>): seq<int> {
    if log == [] then []
    else (if log[0] in gone then [] else [log[0]]) + Visible(log[1..], gone)
  }

  function VisibleEvents(events: seq<Event>, gone: set<int>): seq<Event> {
    if events == [] then []
    else (if events[0].id in gone then [] else [events[0]]) + VisibleEvents(events[1..], gone)
  }

  /** The flow stream follows a log of the same kind: a new event of a flow type
      is a commit on it, and any other event is nothing. */
  lemma {:induction false} FlowLogGrows(events: seq<Event>, e: Event)
    ensures FlowIds(events + [e]) == FlowIds(events) + if e.kind in FLOW_EVENT_TYPES then [e.id] else []
  {
    if events == [] {
      assert events + [e] == [e] && [e][1..] == [];
    } else {
      FlowLogGrows(events[1..], e);
      var all := events + [e];
      assert all[0] == events[0] && all[1..] == events[1..] + [e];
      assert FlowIds(all) == (if all[0].kind in FLOW_EVENT_TYPES then [all[0].id] else []) + FlowIds(all[1..]);
    }
  }

  /** Deleted rows are hidden from it like from the table. */
  lemma {:induction false} FlowLogHides(events: seq<Event>, gone: set<int>)
    ensures FlowIds(VisibleEvents(events, gone)) == Visible(FlowIds(events), gone)
  {
    if events != [] {
      var first, rest := events[0], events[1..];
      FlowLogHides(rest, gone);
      var shown, ids := VisibleEvents(rest, gone), FlowIds(rest);
      assert ([first] + shown)[1..] == shown && ([first.id] + ids)[1..] == ids;
      assert VisibleEvents(events, gone) == if first.id in gone then shown else [first] + shown;
      assert FlowIds(events) == if first.kind in FLOW_EVENT_TYPES then [first.id] + ids else ids;
    }
  }

  /** One table's view of a step. Ids are committed in increasing order and never
      used again, and no row that the query may still return is deleted. Other
      steps do nothing. */
  function Next(s: State, a: Action): State {
    match a
    case Commit(id) => if Follows(s.log, s.hello, s.gone, id) then s.(log := s.log + [id]) else s
    case Delete(id) => if id <= s.last || id !in s.log then s.(gone := s.gone + {id}) else s
    case Poll =>
      var page := Page(Visible(s.log, s.gone), s.last);
      s.(out := s.out + page, last := LastOr(page, s.last))
  }

  predicate Follows(log: seq<int>, hello: int, gone: set<int>, id: int) {
    id > hello && id !in gone && (log == [] || log[|log| - 1] < id)
  }

  ghost predicate Ascending(ids: seq<int>) { forall i, j | 0 <= i < j < |ids| :: ids[i] < ids[j] }

  /** The emitted ids are the beginning of the log above the hello watermark. */
  ghost predicate Inv(s: State) {
    && Ascending(s.log) && s.hello <= s.last
    && (forall id | id in s.gone :: id <= s.last || id !in s.log)
    && s.last == LastOr(s.out, s.hello)
    && Newer(s.log, s.hello) == s.out + Newer(s.log, s.last)
  }

  lemma {:induction false} NewerAppend(ids: seq<int>, id: int, last: int)
    ensures Newer(ids + [id], last) == Newer(ids, last) + if id > last then [id] else []
  {
    if ids == [] {
      assert ids + [id] == [id] && [id][1..] == [];
    } else {
      NewerAppend(ids[1..], id, last);
      assert (ids + [id])[1..] == ids[1..] + [id];
    }
  }

  lemma {:induction false} NewerMeaning(ids: seq<int>, last: int)
    requires Ascending(ids)
    ensures Ascending(Newer(ids, last))
    ensures forall x :: x in Newer(ids, last) <==> x in ids && x > last
  {
    if ids != [] {
      var rest := Newer(ids[1..], last);
      NewerMeaning(ids[1..], last);
      forall i | 0 <= i < |rest| ensures ids[0] < rest[i] {
        assert rest[i] in rest && rest[i] in ids[1..];
      }
      forall x ensures x in Newer(ids, last) <==> x in ids && x > last {
        assert ids == [ids[0]] + ids[1..];
        assert Newer(ids, last) == (if ids[0] > last then [ids[0]] else []) + rest;
      }
    }
  }

  lemma {:induction false} AllNewer(ids: seq<int>, last: int)
    requires forall i | 0 <= i < |ids| :: ids[i] > last
    ensures Newer(ids, last) == ids
  {
    if ids != [] { AllNewer(ids[1..], last); }
  }

  /** Moving the watermark to an element of the tail cuts the tail after it. */
  lemma {:induction false} NewerCut(ids: seq<int>, last: int, k: nat)
    requires Ascending(ids) && k < |Newer(ids, last)|
    ensures Newer(ids, Newer(ids, last)[k]) == Newer(ids, last)[k + 1..]
  {
    if ids[0] > last {
      var tail := ids[1..];
      AllNewer(tail, last);
      AllNewer(ids, last);
      if k == 0 {
        AllNewer(tail, ids[0]);
      } else {
        NewerCut(tail, last, k - 1);
        assert ids[k] > ids[0];
      }
    } else {
      NewerCut(ids[1..], last, k);
      NewerMeaning(ids, last);
      assert Newer(ids, last)[k] in Newer(ids, last);
    }
  }

  /** Deleted rows are not above the watermark, so the query does not miss them. */
  lemma {:induction false} DeletionsUnseen(log: seq<int>, gone: set<int>, last: int)
    requires forall id | id in gone :: id <= last || id !in log
    ensures Newer(Visible(log, gone), last) == Newer(log, last)
  {
    if log != [] {
      DeletionsUnseen(log[1..], gone, last);
      var rest := Visible(log[1..], gone);
      if log[0] in gone {
        assert Visible(log, gone) == rest;
      } else {
        assert Visible(log, gone) == [log[0]] + rest && ([log[0]] + rest)[1..] == rest;
      }
    }
  }

  lemma OutGrows(out: seq<int>, newer: seq<int>, k: nat)
    requires 0 < k <= |newer|
    ensures out + newer == (out + newer[..k]) + newer[k..]
    ensures (out + newer[..k])[|out| + k - 1] == newer[k - 1]
  {
  }

  /** Emitting the next `k` rows of the tail keeps the invariant. */
  lemma EmitKeeps(s: State, k: nat)
    requires Inv(s) && k <= |Newer(s.log, s.last)|
    ensures var page := Newer(s.log, s.last)[..k];
            Inv(s.(out := s.out + page, last := LastOr(page, s.last)))
  {
    var newer := Newer(s.log, s.last);
    if k > 0 {
      NewerMeaning(s.log, s.last);
      assert newer[k - 1] in newer;
      NewerCut(s.log, s.last, k - 1);
      OutGrows(s.out, newer, k);
    } else {
      assert s.out + newer[..k] == s.out;
    }
  }

  lemma PollKeeps(s: State)
    requires Inv(s)
    ensures Inv(Next(s, Poll))
    ensures |Next(s, Poll).out| == |s.out| + if |Newer(s.log, s.last)| <= PAGE then |Newer(s.log, s.last)| else PAGE
  {
    DeletionsUnseen(s.log, s.gone, s.last);
    var newer := Newer(s.log, s.last);
    var page := Page(Visible(s.log, s.gone), s.last);
    assert page == newer[..|page|];
    EmitKeeps(s, |page|);
  }

  lemma CommitKeeps(s: State, id: int)
    requires Inv(s)
    ensures Inv(Next(s, Commit(id)))
  {
    NewerAppend(s.log, id, s.hello);
    NewerAppend(s.log, id, s.last);
    if Follows(s.log, s.hello, s.gone, id) {
      NewerMeaning(s.log, s.hello);
      if s.out != [] { assert s.last in s.out && s.last in Newer(s.log, s.hello); }
    }
  }

  lemma {:induction false} NothingNewer(ids: seq<int>, last: int)
    requires forall i | 0 <= i < |ids| :: ids[i] <= last
    ensures Newer(ids, last) == []
  {
    if ids != [] { NothingNewer(ids[1..], last); }
  }

  // ---- both streams in one database ---------------------------------------

  /** The two tables, what was deleted from them, and one connected client. */
  datatype Bus = Bus(messages: seq<int>, goneMessages: set<int>, events: seq<Event>, goneEvents: set<int>,
                     stream: Stream)

  datatype Happening =
    | PostMessage(id: int)
    | LogEvent(e: Event)
    | DeleteMessage(id: int)
    | DeleteEvent(id: int)
    | PollRound

  /** The watermarks in the hello frame. */
  function HelloOf(frames: seq<Frame>): (int, int) {
    if frames != [] && frames[0].Hello? then (frames[0].lastId, frames[0].lastFlowId) else (0, 0)
  }

  function MessageSide(b: Bus): State {
    State(b.messages, b.goneMessages, HelloOf(b.stream.frames).0, b.stream.lastMsg, MessagesIn(b.stream.frames))
  }

  function FlowSide(b: Bus): State {
    State(FlowIds(b.events), b.goneEvents, HelloOf(b.stream.frames).1, b.stream.lastFlow, EventsIn(b.stream.frames))
  }

  predicate EventFollows(events: seq<Event>, hello: int, gone: set<int>, id: int) {
    id > hello && id !in gone && (events == [] || events[|events| - 1].id < id)
  }

  function Step(b: Bus, h: Happening): Bus {
    match h
    case PostMessage(id) =>
      if Follows(b.messages, HelloOf(b.stream.frames).0, b.goneMessages, id)
      then b.(messages := b.messages + [id]) else b
    case LogEvent(e) =>
      if EventFollows(b.events, HelloOf(b.stream.frames).1, b.goneEvents, e.id)
      then b.(events := b.events + [e]) else b
    case DeleteMessage(id) =>
      if id <= b.stream.lastMsg || id !in b.messages then b.(goneMessages := b.goneMessages + {id}) else b
    case DeleteEvent(id) =>
      if id <= b.stream.lastFlow || id !in FlowIds(b.events) then b.(goneEvents := b.goneEvents + {id}) else b
    case PollRound =>
      b.(stream := Round(b.stream, Visible(b.messages, b.goneMessages), VisibleEvents(b.events, b.goneEvents)))
  }

  function Run(b: Bus, hs: seq<Happening>): Bus {
    if hs == [] then b else Step(Run(b, hs[..|hs| - 1]), hs[|hs| - 1])
  }

  /** A client connects to tables with these rows. */
  function Connect(messages: seq<int>, events: seq<Event>): Bus {
    Bus(messages, {}, events, {}, Opened(messages, events))
  }

  ghost predicate BusInv(b: Bus) {
    && Inv(MessageSide(b)) && Inv(FlowSide(b))
    && b.stream.frames != [] && b.stream.frames[0].Hello?
    && FlowBelowLast(b.events)
  }

  ghost predicate FlowBelowLast(events: seq<Event>) {
    forall id | id in FlowIds(events) :: events != [] && id <= events[|events| - 1].id
  }

  lemma BelowLastMore(events: seq<Event>, e: Event)
    requires FlowBelowLast(events) && (events == [] || events[|events| - 1].id < e.id)
    ensures FlowBelowLast(events + [e])
  {
    FlowLogGrows(events, e);
    forall id | id in FlowIds(events + [e]) ensures id <= e.id {
      if id != e.id { assert id in FlowIds(events); }
    }
  }

  lemma LogEventKeeps(b: Bus, e: Event)
    requires BusInv(b)
    ensures BusInv(Step(b, LogEvent(e)))
  {
    var b' := Step(b, LogEvent(e));
    if b' != b {
      var s := FlowSide(b);
      FlowLogGrows(b.events, e);
      BelowLastMore(b.events, e);
      assert MessageSide(b') == MessageSide(b);
      if e.kind in FLOW_EVENT_TYPES {
        assert s.log != [] ==> s.log[|s.log| - 1] in FlowIds(b.events);
        assert Follows(s.log, s.hello, s.gone, e.id);
        assert FlowSide(b') == Next(s, Commit(e.id));
        CommitKeeps(s, e.id);
      } else {
        assert FlowSide(b').log == s.log;
      }
    }
  }

  lemma PostKeeps(b: Bus, id: int)
    requires BusInv(b)
    ensures BusInv(Step(b, PostMessage(id)))
  {
    assert MessageSide(Step(b, PostMessage(id))) == Next(MessageSide(b), Commit(id));
    CommitKeeps(MessageSide(b), id);
  }

  lemma DeletesKeep(b: Bus, id: int)
    requires BusInv(b)
    ensures BusInv(Step(b, DeleteMessage(id))) && BusInv(Step(b, DeleteEvent(id)))
  {
    assert MessageSide(Step(b, DeleteMessage(id))) == Next(MessageSide(b), Delete(id));
    assert FlowSide(Step(b, DeleteEvent(id))) == Next(FlowSide(b), Delete(id));
  }

  lemma RoundKeeps(b: Bus)
    requires BusInv(b)
    ensures var b' := Step(b, PollRound);
            && BusInv(b')
            && MessageSide(b') == Next(MessageSide(b), Poll) && FlowSide(b') == Next(FlowSide(b), Poll)
  {
    var b' := Step(b, PollRound);
    FlowLogHides(b.events, b.goneEvents);
    AfterRound(b.stream.frames, b'.stream.frames,
               Page(Visible(b.messages, b.goneMessages), b.stream.lastMsg),
               Page(Visible(FlowIds(b.events), b.goneEvents), b.stream.lastFlow));
    assert b'.stream.frames[0] == b.stream.frames[0];
    PollKeeps(MessageSide(b));
    PollKeeps(FlowSide(b));
  }

  ghost predicate EventsAscending(events: seq<Event>) {
    forall i, j | 0 <= i < j < |events| :: events[i].id < events[j].id
  }

  lemma {:induction false} FlowIdIsAnId(events: seq<Event>, id: int) returns (i: nat)
    requires id in FlowIds(events)
    ensures i < |events| && events[i].id == id
  {
    if events[0].kind in FLOW_EVENT_TYPES && events[0].id == id {
      i := 0;
    } else {
      i := FlowIdIsAnId(events[1..], id);
      i := i + 1;
    }
  }

  lemma {:induction false} FlowIdsAscend(events: seq<Event>)
    requires EventsAscending(events)
    ensures Ascending(FlowIds(events))
  {
    if events != [] {
      var rest := FlowIds(events[1..]);
      FlowIdsAscend(events[1..]);
      forall i | 0 <= i < |rest| ensures events[0].id < rest[i] {
        var k := FlowIdIsAnId(events[1..], rest[i]);
      }
    }
  }

  lemma ConnectInv(messages: seq<int>, events: seq<Event>)
    requires Ascending(messages) && EventsAscending(events)
    ensures BusInv(Connect(messages, events))
  {
    var b := Connect(messages, events);
    FlowIdsAscend(events);
    NothingNewer(messages, Latest(messages));
    NothingNewer(FlowIds(events), Latest(FlowIds(events)));
    forall id | id in FlowIds(events) ensures events != [] && id <= events[|events| - 1].id {
      var i := FlowIdIsAnId(events, id);
    }
    OtherFrameSends(b.stream.frames[0]);
  }

  lemma StepKeeps(b: Bus, h: Happening)
    requires BusInv(b)
    ensures BusInv(Step(b, h)) && Step(b, h).stream.frames[0] == b.stream.frames[0]
  {
    match h
    case PostMessage(id) => PostKeeps(b, id);
    case LogEvent(e) => LogEventKeeps(b, e);
    case DeleteMessage(id) => DeletesKeep(b, id);
    case DeleteEvent(id) => DeletesKeep(b, id);
    case PollRound => RoundKeeps(b);
  }

  lemma {:induction false} RunInv(b: Bus, hs: seq<Happening>)
    requires BusInv(b)
    ensures BusInv(Run(b, hs)) && Run(b, hs).stream.frames[0] == b.stream.frames[0]
  {
    if hs != [] {
      RunInv(b, hs[..|hs| - 1]);
      StepKeeps(Run(b, hs[..|hs| - 1]), hs[|hs| - 1]);
    }
  }

  /** What a client has of one log: a prefix, in order, of the rows after its
      hello watermark. */
  ghost predicate PrefixSeen(sent: seq<int>, log: seq<int>, hello: int) {
    && sent <= Newer(log, hello) && Ascending(sent)
    && forall x :: x in Newer(log, hello) <==> x in log && x > hello
  }

  /** Another round sent the next page of that log, or all that was left of it. */
  ghost predicate PageMore(sent: seq<int>, sent': seq<int>, log: seq<int>, hello: int) {
    && sent <= sent' <= Newer(log, hello)
    && |sent'| == if |sent| + 200 <= |Newer(log, hello)| then |sent| + 200 else |Newer(log, hello)|
  }

  lemma SideRefines(s: State)
    requires Inv(s)
    ensures PrefixSeen(s.out, s.log, s.hello) && PageMore(s.out, Next(s, Poll).out, s.log, s.hello)
  {
    NewerMeaning(s.log, s.hello);
    PollKeeps(s);
    var all := Newer(s.log, s.hello);
    assert forall i, j | 0 <= i < j < |s.out| :: s.out[i] == all[i] && s.out[j] == all[j];
  }

  /** No row that was there at connection is among the frames. */
  ghost predicate NothingOld(sent: seq<Frame>, messages: seq<int>, events: seq<Event>) {
    && (forall id | id in messages :: id !in MessagesIn(sent))
    && (forall e | e in events && IsFlow(e) :: e.id !in EventsIn(sent))
  }

  lemma SeenIsAbove(sent: seq<int>, log: seq<int>, hello: int, id: int)
    requires PrefixSeen(sent, log, hello) && id in sent
    ensures id > hello
  {
    assert id in Newer(log, hello);
  }

  lemma SentIsNew(sent: seq<Frame>, messages: seq<int>, events: seq<Event>, log: seq<int>, flowLog: seq<int>, m: int,
                  f: int)
    requires PrefixSeen(MessagesIn(sent), log, m) && PrefixSeen(EventsIn(sent), flowLog, f)
    requires Highest(m, messages) && HighestFlow(f, events)
    ensures NothingOld(sent, messages, events)
  {
    forall id | id in messages ensures id !in MessagesIn(sent) {
      if id in MessagesIn(sent) { SeenIsAbove(MessagesIn(sent), log, m, id); }
    }
    forall e | e in events && IsFlow(e) ensures e.id !in EventsIn(sent) {
      if e.id in EventsIn(sent) { SeenIsAbove(EventsIn(sent), flowLog, f, e.id); }
    }
  }

  /** The hello frame names the highest message and the highest flow event there
      are, and no row a client found is ever sent to it. At every moment of every
      run the message frames sent are a gap-free, duplicate-free prefix, in id order,
      of the messages after the hello watermark, and the event frames of the
      flow-typed events after theirs; one more round sends the next page of each. */
  lemma StreamRefinesLog(messages: seq<int>, events: seq<Event>, hs: seq<Happening>)
    requires Ascending(messages) && EventsAscending(events)
    ensures
      var b := Run(Connect(messages, events), hs);
      var sent, more := b.stream.frames, Step(b, PollRound).stream.frames;
      && sent != [] && sent[0].Hello?
      && var m, f := sent[0].lastId, sent[0].lastFlowId;
      && Highest(m, messages) && HighestFlow(f, events)
      && NothingOld(sent, messages, events)
      && PrefixSeen(MessagesIn(sent), b.messages, m)
      && PrefixSeen(EventsIn(sent), FlowIds(b.events), f)
      && PageMore(MessagesIn(sent), MessagesIn(more), b.messages, m)
      && PageMore(EventsIn(sent), EventsIn(more), FlowIds(b.events), f)
  {
    ConnectInv(messages, events);
    RunInv(Connect(messages, events), hs);
    var b := Run(Connect(messages, events), hs);
    SideRefines(MessageSide(b));
    SideRefines(FlowSide(b));
    RoundKeeps(b);
    OpensAtHighest(messages, events);
    SentIsNew(b.stream.frames, messages, events, b.messages, FlowIds(b.events), Latest(messages),
              Latest(FlowIds(events)));
  }
}
