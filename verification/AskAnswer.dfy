/** Asking the user by email and getting the answer to one's own question
    (chat/tools.py:68-97, src/chat_relay.py:91-115, src/chat_router.py:46-54,
    src/chat_handlers.py:110-134). */
module AskAnswer {
  import opened Base
  import opened ChatDbs
  import opened ReplyRouter
  import opened ReactionRouter
  import opened GitNames
  import M = MessageTable

  datatype AskResult = Answer(body: string) | NoReplyWithin(timeout: int)

  const WAITING := "waiting-on-peer"

  /** Whether the status `ask_user` reports first is written: for a task that
      exists and did not report it last. */
  predicate Reports(lastSent: map<int, string>, task: Option<int>, owner: Option<string>) {
    task.Some? && owner.Some? && !(task.value in lastSent && lastSent[task.value] == WAITING)
  }

  /** The bus after that status. */
  function Reported(t: M.Messages, lastSent: map<int, string>, task: Option<int>, owner: Option<string>, now: int):
    M.Messages
  {
    if Reports(lastSent, task, owner) then M.Insert(t, StatusRow(owner.value, task.value, WAITING, now)).0 else t
  }

  function AskRow(caller: string, message: string, task: Option<int>, now: int): M.Message {
    M.NewMessage(caller, "user", message, M.Ask, None, task, "", "", now)
  }

  /** What `ask_user` writes: the question, after a status row when the task exists
      and its last status was another one. */
  ghost predicate Asked(t: M.Messages, t': M.Messages, lastSent: map<int, string>, caller: string, message: string,
                        task: Option<int>, owner: Option<string>, now: int, id: int) {
    var ask := M.Message(caller, "user", message, M.Ask, M.Pending, None, task, "", "", now);
    if task.Some? && owner.Some? && !(task.value in lastSent && lastSent[task.value] == "waiting-on-peer") then
      var status := M.Message(owner.value, "user", "waiting-on-peer", M.Notify, M.Pending, None, task, "", "", now);
      id == t.next + 1 && t' == M.Messages(t.rows[t.next := status][id := ask], id + 1)
    else id == t.next && t' == M.Messages(t.rows[id := ask], id + 1)
  }

  /** `ask_user`: report, insert the question, then poll. `owner` is the agent of
      the task's project, None without such a task; `view(k)` is the message table
      as the k-th poll finds it, whatever everybody else did meanwhile. The
      source's interval is a positive number of seconds. `acts` is a run of the bus
      up to the call and `more(k)` what followed the question until the k-th poll. */
  method AskUser(db: ChatDb, caller: string, message: string, taskId: Option<int>, owner: Option<string>, poll: int,
                 timeout: int, view: nat -> M.Messages, now: int, ghost acts: seq<Action>,
                 ghost more: nat -> seq<Action>)
    returns (r: AskResult, id: int, polls: nat)
    requires poll > 0
    modifies db`messages, db`events, db`lastSent
    ensures (db.messages, id) ==
            M.Insert(Reported(old(db.messages), old(db.lastSent), taskId, owner, now),
                     AskRow(caller, message, taskId, now))
    ensures Asked(old(db.messages), db.messages, old(db.lastSent), caller, message, taskId, owner, now, id)
    ensures db.events ==
            old(db.events) + (if Reports(old(db.lastSent), taskId, owner) then [LogEvent("status_emit", now)] else [])
            + [LogEvent("message", now)]
    ensures db.lastSent == if taskId == None then old(db.lastSent) else old(db.lastSent) - {taskId.value}
    ensures Polled(view, poll, timeout, polls, id, r)
    ensures var before := Asking(acts, old(db.lastSent), caller, message, taskId, owner, now);
            r.Answer? && old(db.messages) == Run(START, acts).table && Views(view, before, more) ==>
              AnswersAsk(Run(START, before + more(polls - 1)), id, r.body)
  {
    if taskId.Some? && owner.Some? {
      var emitted := db.EmitStatusMessage(taskId.value, WAITING, owner.value, now);
    }
    id := db.InsertMessage(AskRow(caller, message, taskId, now));
    r, polls := PollForReply(id, poll, timeout, view);
    if taskId.Some? {
      db.ClearStatusDedupForProject({taskId.value});
    }
    if r.Answer? {
      AskedAndAnswered(old(db.messages), acts, more, view, polls, old(db.lastSent), caller, message, taskId, owner, now,
                       id, r.body);
    }
  }

  /** Poll number `polls` is the first to find a reply, and `body` is its text. */
  ghost predicate FirstAnswer(view: nat -> M.Messages, polls: nat, id: int, body: string) {
    && polls > 0
    && M.GetReply(view(polls - 1), id).Some?
    && body == view(polls - 1).rows[M.GetReply(view(polls - 1), id).value].body
    && forall k: nat | k < polls - 1 :: M.GetReply(view(k), id) == None
  }

  /** The answer of the first poll that finds a reply, or the timeout after as many
      polls as fit into it. */
  ghost predicate Polled(view: nat -> M.Messages, poll: int, timeout: int, polls: nat, id: int, r: AskResult) {
    match r
    case Answer(body) => polls > 0 && (polls - 1) * poll < timeout && FirstAnswer(view, polls, id, body)
    case NoReplyWithin(t) =>
      && t == timeout && polls * poll >= timeout && (polls == 0 || (polls - 1) * poll < timeout)
      && forall k: nat | k < polls :: M.GetReply(view(k), id) == None
  }

  /** The polling loop. */
  method PollForReply(id: int, poll: int, timeout: int, view: nat -> M.Messages) returns (r: AskResult, polls: nat)
    requires poll > 0
    ensures Polled(view, poll, timeout, polls, id, r)
  {
    var elapsed := 0;
    polls := 0;
    while elapsed < timeout
      invariant elapsed == polls * poll
      invariant polls == 0 || (polls - 1) * poll < timeout
      invariant forall k: nat | k < polls :: M.GetReply(view(k), id) == None
      decreases timeout - elapsed
    {
      var reply := M.GetReply(view(polls), id);
      polls := polls + 1;
      if reply.Some? {
        return Answer(view(polls - 1).rows[reply.value].body), polls;
      }
      elapsed := elapsed + poll;
    }
    r := NoReplyWithin(timeout);
  }

  // ---- the round trip as a machine ----------------------------------------

  datatype Action =
    | Say(sender: string, to: string, body: string, kind: M.Kind, taskId: Option<int>, now: int)  // an insert
    | RelaySend(id: int, eid: string)                           // relay: SMTP gave this Message-ID
    | UserAnswers(inReplyTo: string, text: string, now: int)    // inbound reply or reaction email
    | UserTurn(messageId: string, parent: string, text: string, now: int)  // inbound email for the router
    | Status(id: int, status: M.Status)                         // claims, marks, recovery
    | PruneBefore(cutoff: int)

  /** `issued`: which message each relayed Message-ID was sent for. `posted`:
      every row as it was inserted. `heard`: the email each reply row came in
      with. `seen`: every Message-ID ever stored. All four are history. */
  datatype Email = Email(inReplyTo: string, text: string)

  datatype State = State(
    table: M.Messages,
    issued: map<string, int>,
    posted: map<int, M.Message>,
    heard: map<int, Email>,
    seen: set<string>)

  function Post(s: State, m: M.Message): State {
    s.(table := M.Insert(s.table, m).0, posted := s.posted[s.table.next := m], seen := s.seen + {m.emailId})
  }

  /** Message-IDs are fresh when they first appear; only the routing of replies and
      reactions writes reply rows. Steps outside these assumptions do nothing. */
  function Next(s: State, a: Action): State {
    match a
    case Say(sender, to, body, kind, taskId, now) =>
      if kind == M.Reply || kind == M.EmailInbound then s
      else Post(s, M.NewMessage(sender, to, body, kind, None, taskId, "", "", now))
    case RelaySend(id, eid) =>
      if eid == "" || eid in s.seen || id !in s.table.rows || s.table.rows[id].to != "user" then s
      else s.(table := M.SetEmailId(s.table, id, eid), issued := s.issued[eid := id], seen := s.seen + {eid})
    case UserAnswers(header, text, now) =>
      var reply := ClassifyEmail(s.table, header);
      if reply == None then s
      else Post(s, ReplyRow(reply.value.agent, reply.value.original,
                            RecordedBody(IsAsk(s.table, reply.value.original), text), now))
           .(heard := s.heard[s.table.next := Email(Strip(header), text)])
    case UserTurn(eid, parent, text, now) =>
      if eid != "" && eid in s.seen then s
      else Post(s, M.NewMessage("user", "router", text, M.EmailInbound, None, None, parent, eid, now))
    case Status(id, status) => s.(table := M.SetStatus(s.table, id, status))
    case PruneBefore(cutoff) => s.(table := M.Prune(s.table, cutoff))
  }

  function Run(s: State, acts: seq<Action>): State {
    if acts == [] then s else Next(Run(s, acts[..|acts| - 1]), acts[|acts| - 1])
  }

  const START := State(M.NO_MESSAGES, map[], map[], map[], {})

  /** Rows are what was posted, except status and Message-ID. */
  predicate SameText(a: M.Message, b: M.Message) {
    a.sender == b.sender && a.to == b.to && a.body == b.body && a.kind == b.kind && a.inReplyTo == b.inReplyTo
  }

  ghost predicate RowsOk(s: State) {
    && M.WellFormed(s.table)
    && (forall id | id in s.posted :: 1 <= id < s.table.next)
    && (forall id | id in s.table.rows :: id in s.posted && SameText(s.table.rows[id], s.posted[id]))
  }

  ghost predicate IdsOk(s: State) {
    && "" !in s.issued
    && (forall eid | eid in s.issued :: eid in s.seen && s.issued[eid] in s.posted)
    && (forall id | id in s.table.rows && s.table.rows[id].emailId != "" ::
          && s.table.rows[id].emailId in s.seen
          && (s.table.rows[id].emailId in s.issued ==> s.issued[s.table.rows[id].emailId] == id)
          && (s.table.rows[id].kind != M.EmailInbound ==> s.table.rows[id].emailId in s.issued))
  }

  /** This reply row was heard as an answer to the very message it names. */
  ghost predicate ReplyOk(s: State, id: int) {
    && id in s.posted && id in s.heard && s.posted[id].inReplyTo.Some?
    && var m := s.posted[id].inReplyTo.value;
       && m in s.posted && m < id && s.posted[id].to == s.posted[m].sender && s.posted[id].sender == "user"
       && s.posted[id].body == RecordedBody(s.posted[m].kind == M.Ask, s.heard[id].text)
       && (s.heard[id].inReplyTo in s.issued ==> s.issued[s.heard[id].inReplyTo] == m)
       && (s.posted[m].kind != M.EmailInbound ==> s.heard[id].inReplyTo in s.issued)
  }

  ghost predicate RepliesOk(s: State) {
    && (forall id | id in s.posted && s.posted[id].kind == M.Reply :: ReplyOk(s, id))
    && (forall id | id in s.heard :: id in s.posted && s.posted[id].kind == M.Reply)
    && (forall id | id in s.heard :: s.heard[id].inReplyTo in s.seen)
  }

  ghost predicate Inv(s: State) { RowsOk(s) && IdsOk(s) && RepliesOk(s) }

  lemma SayKeeps(s: State, m: M.Message)
    requires Inv(s) && m.kind != M.Reply && m.status == M.Pending
    requires m.emailId == "" || (m.emailId !in s.seen && m.kind == M.EmailInbound)
    ensures Inv(Post(s, m))
  {
  }

  lemma RelayKeeps(s: State, id: int, eid: string)
    requires Inv(s)
    ensures Inv(Next(s, RelaySend(id, eid)))
  {
  }

  /** Routing an answer posts one reply row to the sender of a message that
      carries the Message-ID the email answers. */
  lemma AnswerPosts(s: State, header: string, text: string, now: int)
    requires Inv(s)
    ensures var id := M.FindByEmailId(s.table, Strip(header));
            var s' := Next(s, UserAnswers(header, text, now));
            if Strip(header) == "" || id == None then s' == s
            else
              var m := id.value;
              && m in s.table.rows && s.table.rows[m].emailId == Strip(header)
              && s' == Hear(s, m, Email(Strip(header), text), now)
  {
    var id := M.FindByEmailId(s.table, Strip(header));
    if Strip(header) != "" && id.Some? {
      assert SameText(s.table.rows[id.value], s.posted[id.value]);
    }
  }

  /** The state after an email that answers message `m`. */
  function Hear(s: State, m: int, email: Email, now: int): State
    requires m in s.posted
  {
    Post(s, ReplyRow(s.posted[m].sender, m, RecordedBody(s.posted[m].kind == M.Ask, email.text), now))
    .(heard := s.heard[s.table.next := email])
  }

  /** A reply row that was fine stays fine when a reply is posted. */
  lemma HeardBefore(s: State, m: int, email: Email, now: int, id: int)
    requires RowsOk(s) && m in s.posted && ReplyOk(s, id)
    ensures ReplyOk(Hear(s, m, email, now), id)
  {
  }

  lemma HearKeepsIds(s: State, m: int, email: Email, now: int)
    requires RowsOk(s) && IdsOk(s) && m in s.posted
    ensures RowsOk(Hear(s, m, email, now)) && IdsOk(Hear(s, m, email, now))
  {
  }

  lemma HeardNow(s: State, m: int, email: Email, now: int)
    requires RowsOk(s) && IdsOk(s) && m in s.table.rows && s.table.rows[m].emailId == email.inReplyTo != ""
    requires m in s.posted
    ensures ReplyOk(Hear(s, m, email, now), s.table.next) && email.inReplyTo in s.seen
  {
    assert SameText(s.table.rows[m], s.posted[m]);
  }

  lemma ReplyKeeps(s: State, m: int, email: Email, now: int)
    requires Inv(s) && m in s.table.rows && s.table.rows[m].emailId == email.inReplyTo != ""
    requires m in s.posted
    ensures Inv(Hear(s, m, email, now))
  {
    var s' := Hear(s, m, email, now);
    HearKeepsIds(s, m, email, now);
    HeardNow(s, m, email, now);
    forall id | id in s'.posted && s'.posted[id].kind == M.Reply ensures ReplyOk(s', id) {
      if id != s.table.next { HeardBefore(s, m, email, now, id); }
    }
  }

  lemma AnswerKeeps(s: State, header: string, text: string, now: int)
    requires Inv(s)
    ensures Inv(Next(s, UserAnswers(header, text, now)))
  {
    AnswerPosts(s, header, text, now);
    var id := M.FindByEmailId(s.table, Strip(header));
    if Strip(header) != "" && id.Some? {
      ReplyKeeps(s, id.value, Email(Strip(header), text), now);
    }
  }

  lemma TableKeeps(s: State, t: M.Messages)
    requires Inv(s) && t.next == s.table.next
    requires forall id | id in t.rows :: id in s.table.rows && SameText(t.rows[id], s.table.rows[id])
                                         && t.rows[id].emailId == s.table.rows[id].emailId
    ensures Inv(s.(table := t))
  {
  }

  lemma StepInv(s: State, a: Action)
    requires Inv(s)
    ensures Inv(Next(s, a))
    ensures forall id | id in s.posted :: id in Next(s, a).posted && Next(s, a).posted[id] == s.posted[id]
  {
    match a
    case Say(sender, to, body, kind, taskId, now) =>
      if kind != M.Reply && kind != M.EmailInbound {
        SayKeeps(s, M.NewMessage(sender, to, body, kind, None, taskId, "", "", now));
      }
    case RelaySend(id, eid) => RelayKeeps(s, id, eid);
    case UserAnswers(header, text, now) => AnswerKeeps(s, header, text, now);
    case UserTurn(eid, parent, text, now) =>
      if eid == "" || eid !in s.seen {
        SayKeeps(s, M.NewMessage("user", "router", text, M.EmailInbound, None, None, parent, eid, now));
      }
    case Status(id, status) => TableKeeps(s, M.SetStatus(s.table, id, status));
    case PruneBefore(cutoff) => TableKeeps(s, M.Prune(s.table, cutoff));
  }

  lemma {:induction false} RunInv(s: State, acts: seq<Action>)
    requires Inv(s)
    ensures Inv(Run(s, acts))
    ensures forall id | id in s.posted :: id in Run(s, acts).posted && Run(s, acts).posted[id] == s.posted[id]
  {
    if acts != [] {
      RunInv(s, acts[..|acts| - 1]);
      StepInv(Run(s, acts[..|acts| - 1]), acts[|acts| - 1]);
    }
  }

  /** Answers never cross: in every reachable state, the row `ask_user` finds for
      an ask came in with an email that answered a Message-ID the relay issued for
      that ask and no other message, is addressed to the asker, and says what the
      email says, or the verdict of the reaction the email is. */
  lemma AnswersNeverCross(acts: seq<Action>, ask: int)
    requires var s := Run(START, acts);
             ask in s.posted && s.posted[ask].kind == M.Ask && M.GetReply(s.table, ask).Some?
    ensures var s := Run(START, acts);
            var b := M.GetReply(s.table, ask).value;
            && b in s.heard && b > ask
            && s.heard[b].inReplyTo in s.issued && s.issued[s.heard[b].inReplyTo] == ask
            && s.table.rows[b].body == RecordedBody(true, s.heard[b].text)
            && s.table.rows[b].to == s.posted[ask].sender && s.table.rows[b].sender == "user"
  {
    assert Inv(START);
    RunInv(START, acts);
    var s := Run(START, acts);
    var b := M.GetReply(s.table, ask).value;
    assert M.IsReplyTo(s.table, b, ask) && SameText(s.table.rows[b], s.posted[b]);
  }

  // ---- the method and the machine ------------------------------------------

  /** The run `acts` followed by what `ask_user` writes. */
  function Asking(acts: seq<Action>, lastSent: map<int, string>, caller: string, message: string, task: Option<int>,
                  owner: Option<string>, now: int): seq<Action> {
    acts
    + (if Reports(lastSent, task, owner) then [Say(owner.value, "user", WAITING, M.Notify, task, now)] else [])
    + [Say(caller, "user", message, M.Ask, task, now)]
  }

  /** Every poll looks at a state some run beyond `before` leads to. */
  ghost predicate Views(view: nat -> M.Messages, before: seq<Action>, more: nat -> seq<Action>) {
    forall k: nat :: view(k) == Run(START, before + more(k)).table
  }

  /** An email that answered a Message-ID issued for `ask` said `body`, or was a
      reaction with that verdict. */
  ghost predicate AnswersAsk(s: State, ask: int, body: string) {
    exists b :: b in s.heard && body == RecordedBody(true, s.heard[b].text)
                && s.heard[b].inReplyTo in s.issued && s.issued[s.heard[b].inReplyTo] == ask
  }

  lemma RunOneMore(s: State, acts: seq<Action>, a: Action)
    ensures Run(s, acts + [a]) == Next(Run(s, acts), a)
  {
    assert (acts + [a])[..|acts + [a]| - 1] == acts;
  }

  lemma {:induction false} RunSplits(s: State, acts: seq<Action>, more: seq<Action>)
    ensures Run(s, acts + more) == Run(Run(s, acts), more)
  {
    if more == [] {
      assert acts + more == acts;
    } else {
      var front := more[..|more| - 1];
      RunSplits(s, acts, front);
      assert acts + more == (acts + front) + [more[|more| - 1]];
      RunOneMore(s, acts + front, more[|more| - 1]);
    }
  }

  /** The run so extended has posted the question under the id that the insert
      returned, on the table that the insert left. */
  lemma AskingPosts(acts: seq<Action>, lastSent: map<int, string>, caller: string, message: string,
                    task: Option<int>, owner: Option<string>, now: int)
    ensures var s := Run(START, Asking(acts, lastSent, caller, message, task, owner, now));
            var (t, id) := M.Insert(Reported(Run(START, acts).table, lastSent, task, owner, now),
                                    AskRow(caller, message, task, now));
            s.table == t && id in s.posted && s.posted[id] == AskRow(caller, message, task, now)
  {
    var ask := Say(caller, "user", message, M.Ask, task, now);
    if Reports(lastSent, task, owner) {
      var status := Say(owner.value, "user", WAITING, M.Notify, task, now);
      RunOneMore(START, acts, status);
      RunOneMore(START, acts + [status], ask);
    } else {
      assert acts + [] == acts;
      RunOneMore(START, acts, ask);
    }
  }

  /** So what `ask_user` returns, when its polls look at states of the bus after
      its question, is what the user wrote in an answer to the very email that
      asked it, or the verdict of the user's reaction to that email. */
  lemma AskUserReturnsItsAnswer(before: seq<Action>, more: nat -> seq<Action>, view: nat -> M.Messages, polls: nat,
                                ask: int, body: string)
    requires ask in Run(START, before).posted && Run(START, before).posted[ask].kind == M.Ask
    requires Views(view, before, more) && FirstAnswer(view, polls, ask, body)
    ensures AnswersAsk(Run(START, before + more(polls - 1)), ask, body)
  {
    var acts := before + more(polls - 1);
    assert Inv(START);
    RunInv(START, before);
    RunSplits(START, before, more(polls - 1));
    RunInv(Run(START, before), more(polls - 1));
    AnswersNeverCross(acts, ask);
    var s := Run(START, acts);
    assert view(polls - 1) == s.table;
    assert s.heard[M.GetReply(s.table, ask).value].inReplyTo in s.issued;
  }

  lemma AskedAndAnswered(t: M.Messages, acts: seq<Action>, more: nat -> seq<Action>, view: nat -> M.Messages,
                         polls: nat, lastSent: map<int, string>, caller: string, message: string, task: Option<int>,
                         owner: Option<string>, now: int, ask: int, body: string)
    requires FirstAnswer(view, polls, ask, body)
    requires ask == M.Insert(Reported(t, lastSent, task, owner, now), AskRow(caller, message, task, now)).1
    ensures var before := Asking(acts, lastSent, caller, message, task, owner, now);
            t == Run(START, acts).table && Views(view, before, more) ==>
              AnswersAsk(Run(START, before + more(polls - 1)), ask, body)
  {
    var before := Asking(acts, lastSent, caller, message, task, owner, now);
    if t == Run(START, acts).table && Views(view, before, more) {
      AskingPosts(acts, lastSent, caller, message, task, owner, now);
      AskUserReturnsItsAnswer(before, more, view, polls, ask, body);
    }
  }

  /** Two different asks are never answered by the same email header. */
  lemma DifferentAsksDifferentHeaders(acts: seq<Action>, ask: int, ask': int)
    requires var s := Run(START, acts);
             && ask in s.posted && s.posted[ask].kind == M.Ask && M.GetReply(s.table, ask).Some?
             && ask' in s.posted && s.posted[ask'].kind == M.Ask && M.GetReply(s.table, ask').Some?
             && ask != ask'
    ensures var s := Run(START, acts);
            && M.GetReply(s.table, ask).value in s.heard && M.GetReply(s.table, ask').value in s.heard
            && s.heard[M.GetReply(s.table, ask).value].inReplyTo != s.heard[M.GetReply(s.table, ask').value].inReplyTo
  {
    AnswersNeverCross(acts, ask);
    AnswersNeverCross(acts, ask');
  }

  lemma AnswerStepReaches(s: State, header: string, text: string, now: int)
    requires Inv(s) && Strip(header) in s.issued
    requires s.issued[Strip(header)] in s.table.rows && s.table.rows[s.issued[Strip(header)]].emailId == Strip(header)
    ensures var m := s.issued[Strip(header)];
            var row := ReplyRow(s.table.rows[m].sender, m, RecordedBody(IsAsk(s.table, m), text), now);
            var s' := Next(s, UserAnswers(header, text, now));
            && s'.table == M.Insert(s.table, row).0 && s'.table.rows[s.table.next] == row
            && M.GetReply(s'.table, m) == Some(s.table.next)
  {
    var m := s.issued[Strip(header)];
    M.FindIsThatRow(s.table, Strip(header), m);
    AnswerPosts(s, header, text, now);
    assert SameText(s.table.rows[m], s.posted[m]);
    NewReplyIsNewest(s.table, ReplyRow(s.table.rows[m].sender, m, RecordedBody(IsAsk(s.table, m), text), now), m);
  }

  lemma NewReplyIsNewest(t: M.Messages, row: M.Message, m: int)
    requires M.WellFormed(t) && row.kind == M.Reply && row.inReplyTo == Some(m)
    ensures M.GetReply(M.Insert(t, row).0, m) == Some(t.next)
  {
    assert M.IsReplyTo(M.Insert(t, row).0, t.next, m);
  }

  /** The other direction: while the relayed Message-ID is still the one stored
      for message m, an email answering it is routed to m's sender and recorded
      against m, and the next poll for m returns exactly its text, or the verdict
      or the tag of the reaction it is. */
  lemma AnswerReachesAsker(acts: seq<Action>, header: string, text: string, now: int)
    requires var s := Run(START, acts);
             && Strip(header) in s.issued
             && s.issued[Strip(header)] in s.table.rows
             && s.table.rows[s.issued[Strip(header)]].emailId == Strip(header)
    ensures var s := Run(START, acts);
            var m := s.issued[Strip(header)];
            var row := ReplyRow(s.table.rows[m].sender, m, RecordedBody(IsAsk(s.table, m), text), now);
            var s' := Next(s, UserAnswers(header, text, now));
            && s'.table == M.Insert(s.table, row).0 && s'.table.rows[s.table.next] == row
            && M.GetReply(s'.table, m) == Some(s.table.next)
  {
    assert Inv(START);
    RunInv(START, acts);
    AnswerStepReaches(Run(START, acts), header, text, now);
  }
}
