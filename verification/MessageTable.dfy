/** The `messages` table and its statements (src/chat_db_impls.py,
    src/db_maintenance.py), one total function a statement. */
module MessageTable {
  import opened Base

  datatype Status = Pending | Delivered | Failed

  datatype Kind = Ask | Notify | Reply | Command | EmailInbound | OtherKind(name: string)

  datatype Message = Message(
    sender: string,
    to: string,
    body: string,
    kind: Kind,
    status: Status,
    inReplyTo: Option<int>,
    taskId: Option<int>,
    emailId: string,          // "" stands for NULL
    parentEid: string,        // "" stands for NULL
    createdAt: int)

  datatype Messages = Messages(rows: map<int, Message>, next: nat)

  const NO_MESSAGES := Messages(map[], 1)

  ghost predicate WellFormed(t: Messages) {
    t.next >= 1 && forall id | id in t.rows :: 1 <= id < t.next
  }

  function NewMessage(sender: string, to: string, body: string, kind: Kind, inReplyTo: Option<int>,
                      taskId: Option<int>, parentEid: string, emailId: string, now: int): Message {
    Message(sender, to, body, kind, Pending, inReplyTo, taskId, emailId, parentEid, now)
  }

  // ---- reads --------------------------------------------------------------

  predicate PendingFor(t: Messages, to: string, id: int) {
    id in t.rows && t.rows[id].to == to && t.rows[id].status == Pending
  }

  function PendingBelow(t: Messages, to: string, n: nat): seq<int> {
    if n == 0 then []
    else PendingBelow(t, to, n - 1) + if PendingFor(t, to, n - 1) then [n - 1] else []
  }

  /** `get_pending_messages_for`: ORDER BY id. */
  function PendingIds(t: Messages, to: string): seq<int> { PendingBelow(t, to, t.next) }

  /** `find_message_by_email_id`: NULL never matches. */
  function FindBelow(t: Messages, eid: string, n: nat): (r: Option<int>)
    ensures r.Some? ==> r.value in t.rows && t.rows[r.value].emailId == eid && eid != "" && 0 <= r.value < n
  {
    if n == 0 || eid == "" then None
    else
      var r := FindBelow(t, eid, n - 1);
      if r == None && n - 1 in t.rows && t.rows[n - 1].emailId == eid then Some(n - 1) else r
  }

  function FindByEmailId(t: Messages, eid: string): Option<int> { FindBelow(t, eid, t.next) }

  predicate IsReplyTo(t: Messages, id: int, original: int) {
    id in t.rows && t.rows[id].kind == Reply && t.rows[id].inReplyTo == Some(original)
  }

  /** `get_reply_to_message`: the newest reply row that names `original`. */
  function ReplyBelow(t: Messages, original: int, n: nat): (r: Option<int>)
    ensures r.Some? ==> IsReplyTo(t, r.value, original) && 0 <= r.value < n
  {
    if n == 0 then None
    else if IsReplyTo(t, n - 1, original) then Some(n - 1)
    else ReplyBelow(t, original, n - 1)
  }

  function GetReply(t: Messages, original: int): Option<int> { ReplyBelow(t, original, t.next) }

  /** `lookup_user_to_agent_message`: has the user ever written to this agent? */
  predicate UserWroteTo(t: Messages, agent: string) {
    exists id | id in t.rows :: t.rows[id].sender == "user" && t.rows[id].to == agent
  }

  // ---- writes -------------------------------------------------------------

  function Insert(t: Messages, m: Message): (Messages, int) {
    (Messages(t.rows[t.next := m], t.next + 1), t.next)
  }

  function Put(t: Messages, id: int, m: Message): Messages {
    if id in t.rows then t.(rows := t.rows[id := m]) else t
  }

  function SetStatus(t: Messages, id: int, status: Status): Messages {
    if id in t.rows then Put(t, id, t.rows[id].(status := status)) else t
  }

  function SetEmailId(t: Messages, id: int, eid: string): Messages {
    if id in t.rows then Put(t, id, t.rows[id].(emailId := eid)) else t
  }

  /** `claim_pending_messages_for`: every pending row of the agent becomes
      delivered in one statement; the claimed ids come back in id order. */
  function Claim(t: Messages, to: string): (Messages, seq<int>) {
    (t.(rows := map id | id in t.rows ::
                  if PendingFor(t, to, id) then t.rows[id].(status := Delivered) else t.rows[id]),
     PendingIds(t, to))
  }

  predicate FailedFor(t: Messages, to: string, id: int) {
    id in t.rows && t.rows[id].to == to && t.rows[id].status == Failed
  }

  function Recover(t: Messages, to: string): Messages {
    t.(rows := map id | id in t.rows ::
                 if FailedFor(t, to, id) then t.rows[id].(status := Pending) else t.rows[id])
  }

  /** Old rows that are no longer pending go. */
  predicate Prunable(t: Messages, cutoff: int, id: int) {
    id in t.rows && t.rows[id].status != Pending && t.rows[id].createdAt < cutoff
  }

  function Prune(t: Messages, cutoff: int): Messages {
    t.(rows := map id | id in t.rows && !Prunable(t, cutoff, id) :: t.rows[id])
  }

  // ---- meanings -----------------------------------------------------------

  ghost predicate Increasing(ids: seq<int>) { forall i, j | 0 <= i < j < |ids| :: ids[i] < ids[j] }

  lemma {:induction false} PendingBelowMeaning(t: Messages, to: string, n: nat)
    ensures forall id :: id in PendingBelow(t, to, n) <==> 0 <= id < n && PendingFor(t, to, id)
    ensures Increasing(PendingBelow(t, to, n))
  {
    if n > 0 {
      PendingBelowMeaning(t, to, n - 1);
      var ids := PendingBelow(t, to, n - 1);
      assert forall i | 0 <= i < |ids| :: ids[i] in ids;
    }
  }

  /** The pending list is exactly the pending rows of the recipient, by id. */
  lemma PendingIdsMeaning(t: Messages, to: string)
    requires WellFormed(t)
    ensures forall id :: id in PendingIds(t, to) <==> PendingFor(t, to, id)
    ensures Increasing(PendingIds(t, to))
  {
    PendingBelowMeaning(t, to, t.next);
  }

  lemma {:induction false} FindBelowComplete(t: Messages, eid: string, n: nat)
    ensures FindBelow(t, eid, n) == None && eid != "" ==>
              forall id: int | 0 <= id < n && id in t.rows :: t.rows[id].emailId != eid
  {
    if n > 0 && eid != "" { FindBelowComplete(t, eid, n - 1); }
  }

  /** With one row per Message-ID the lookup finds precisely that row. */
  lemma FindIsThatRow(t: Messages, eid: string, id: int)
    requires WellFormed(t) && eid != "" && id in t.rows && t.rows[id].emailId == eid
    requires forall x | x in t.rows && t.rows[x].emailId == eid :: x == id
    ensures FindByEmailId(t, eid) == Some(id)
  {
    FindBelowComplete(t, eid, t.next);
  }

  lemma {:induction false} ReplyBelowMeaning(t: Messages, original: int, n: nat)
    ensures ReplyBelow(t, original, n) == None ==> forall id: int | 0 <= id < n :: !IsReplyTo(t, id, original)
    ensures ReplyBelow(t, original, n).Some? ==>
              forall id: int | ReplyBelow(t, original, n).value < id < n :: !IsReplyTo(t, id, original)
  {
    if n > 0 { ReplyBelowMeaning(t, original, n - 1); }
  }

  lemma GetReplyMeaning(t: Messages, original: int)
    requires WellFormed(t)
    ensures GetReply(t, original) == None <==> forall id :: !IsReplyTo(t, id, original)
    ensures GetReply(t, original).Some? ==>
              && IsReplyTo(t, GetReply(t, original).value, original)
              && forall id | IsReplyTo(t, id, original) :: id <= GetReply(t, original).value
  {
    ReplyBelowMeaning(t, original, t.next);
  }

  // ---- what the writes mean, row by row -----------------------------------

  lemma {:induction false} SamePending(t: Messages, t': Messages, to: string, n: nat)
    requires forall id: int | 0 <= id < n :: PendingFor(t', to, id) <==> PendingFor(t, to, id)
    ensures PendingBelow(t', to, n) == PendingBelow(t, to, n)
  {
    if n > 0 { SamePending(t, t', to, n - 1); }
  }

  lemma {:induction false} NonePending(t: Messages, to: string, n: nat)
    requires forall id: int | 0 <= id < n :: !PendingFor(t, to, id)
    ensures PendingBelow(t, to, n) == []
  {
    if n > 0 { NonePending(t, to, n - 1); }
  }

  /** A claim hands out and delivers exactly the pending rows of the agent, in id
      order, and leaves every other recipient's list as it was. */
  lemma ClaimMeaning(t: Messages, to: string)
    requires WellFormed(t)
    ensures
      var (t', ids) := Claim(t, to);
      && (forall id :: id in ids <==> PendingFor(t, to, id)) && Increasing(ids)
      && t'.next == t.next && t'.rows.Keys == t.rows.Keys
      && (forall id | id in t.rows :: t'.rows[id] == if id in ids then t.rows[id].(status := Delivered) else t.rows[id])
      && PendingIds(t', to) == []
      && (forall other | other != to :: PendingIds(t', other) == PendingIds(t, other))
  {
    PendingIdsMeaning(t, to);
    var t' := Claim(t, to).0;
    NonePending(t', to, t.next);
    forall other | other != to ensures PendingIds(t', other) == PendingIds(t, other) {
      SamePending(t, t', other, t.next);
    }
  }

  /** Recovery leaves the agent no failed row; its next claim hands out what was
      pending and what was failed, together in id order. */
  lemma RecoverMeaning(t: Messages, to: string)
    requires WellFormed(t)
    ensures
      var t' := Recover(t, to);
      && WellFormed(t') && t'.rows.Keys == t.rows.Keys
      && (forall id :: !FailedFor(t', to, id))
      && (forall id | id in t.rows && !FailedFor(t, to, id) :: t'.rows[id] == t.rows[id])
      && (forall id :: id in Claim(t', to).1 <==> PendingFor(t, to, id) || FailedFor(t, to, id))
      && Increasing(Claim(t', to).1)
      && (forall other | other != to :: PendingIds(t', other) == PendingIds(t, other))
  {
    var t' := Recover(t, to);
    PendingIdsMeaning(t', to);
    forall other | other != to ensures PendingIds(t', other) == PendingIds(t, other) {
      SamePending(t, t', other, t.next);
    }
  }

  /** Pruning removes exactly the old rows that are not pending, changes no row it
      keeps and no pending list, and an earlier cutoff then finds nothing more. */
  lemma PruneMeaning(t: Messages, cutoff: int, earlier: int)
    requires WellFormed(t) && earlier <= cutoff
    ensures
      var t' := Prune(t, cutoff);
      && (forall id | id in t.rows :: id !in t'.rows <==> t.rows[id].status != Pending && t.rows[id].createdAt < cutoff)
      && (forall id | id in t'.rows :: id in t.rows && t'.rows[id] == t.rows[id])
      && (forall to :: PendingIds(t', to) == PendingIds(t, to))
      && Prune(t', earlier) == t'
  {
    var t' := Prune(t, cutoff);
    forall to ensures PendingIds(t', to) == PendingIds(t, to) {
      SamePending(t, t', to, t.next);
    }
    assert Prune(t', earlier).rows == t'.rows;
  }
}
