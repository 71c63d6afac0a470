/** Rebuilding one email thread as a bounded transcript (src/email_thread.py). */
module EmailThread {
  import opened Base
  import opened ChatDbs
  import opened ThreadWalk
  import M = MessageTable

  const MAX_WALK_DEPTH: nat := 200

  /** The stored turn for a Message-ID; an inbound row wins over an outbound one. */
  function FetchTurn(t: M.Messages, store: map<string, Outbound>, eid: string): Option<Turn<string>> {
    var id := M.FindByEmailId(t, eid);
    if id.Some? then
      var m := t.rows[id.value];
      Some(Turn(if m.sender != "" then m.sender else "user",
                if m.kind != M.OtherKind("") then m.kind else M.EmailInbound, m.body, m.createdAt, m.parentEid))
    else if eid != "" && eid in store then
      var o := store[eid];
      Some(Turn(if o.sender != "" then o.sender else "router",
                if o.kind != M.OtherKind("") then o.kind else M.OtherKind("result"), o.body, o.sentAt, o.parentEid))
    else None
  }

  /** `turn` is the stored message or sent email with this Message-ID: the message if
      there is one, with the sender and kind that stand for missing ones. */
  ghost predicate TurnFor(t: M.Messages, store: map<string, Outbound>, eid: string, turn: Turn<string>) {
    if exists id :: StoredAs(t, id, eid) then
      exists id ::
        && StoredAs(t, id, eid)
        && var m := t.rows[id];
           turn == Turn(if m.sender == "" then "user" else m.sender,
                        if m.kind == M.OtherKind("") then M.EmailInbound else m.kind, m.body, m.createdAt, m.parentEid)
    else
      && eid != "" && eid in store
      && var o := store[eid];
         turn == Turn(if o.sender == "" then "router" else o.sender,
                      if o.kind == M.OtherKind("") then M.OtherKind("result") else o.kind, o.body, o.sentAt,
                      o.parentEid)
  }

  ghost predicate StoredAs(t: M.Messages, id: int, eid: string) {
    0 <= id < t.next && id in t.rows && t.rows[id].emailId == eid != ""
  }

  /** A lookup finds exactly that, or nothing is stored under the id. */
  lemma FetchTurnMeaning(t: M.Messages, store: map<string, Outbound>, eid: string)
    ensures match FetchTurn(t, store, eid)
            case Some(turn) => TurnFor(t, store, eid, turn)
            case None => (forall id :: !StoredAs(t, id, eid)) && (eid == "" || eid !in store)
  {
    M.FindBelowComplete(t, eid, t.next);
    var id := M.FindByEmailId(t, eid);
    if id.Some? { assert StoredAs(t, id.value, eid); }
  }

  /** The turns are what is stored under these Message-IDs, one for one. */
  ghost predicate StoredTurns(t: M.Messages, store: map<string, Outbound>, eids: seq<string>,
                              turns: seq<Turn<string>>) {
    |turns| == |eids| && forall i | 0 <= i < |eids| :: TurnFor(t, store, eids[i], turns[i])
  }

  /** So every turn of a transcript is a stored message or sent email, in its words. */
  lemma TurnsAreStored(t: M.Messages, store: map<string, Outbound>, eids: seq<string>)
    requires Found(Stored(t, store), eids)
    ensures StoredTurns(t, store, eids, TurnsOf(Stored(t, store), eids))
  {
    forall i | 0 <= i < |eids| ensures TurnFor(t, store, eids[i], TurnsOf(Stored(t, store), eids)[i]) {
      FetchTurnMeaning(t, store, eids[i]);
    }
  }

  predicate Known(t: M.Messages, store: map<string, Outbound>, eid: string) {
    FetchTurn(t, store, eid).Some?
  }

  /** The last known id of a References list, or "". */
  function NewestKnown(t: M.Messages, store: map<string, Outbound>, references: seq<string>): string {
    if references == [] then ""
    else
      var last := references[|references| - 1];
      if Known(t, store, last) then last else NewestKnown(t, store, references[..|references| - 1])
  }

  /** Where the walk starts. */
  function Anchor(t: M.Messages, store: map<string, Outbound>, parentEid: string, references: seq<string>): string {
    if Known(t, store, parentEid) then parentEid else NewestKnown(t, store, references)
  }

  /** The explicit parent when it is known, else the newest known reference. */
  method ResolveAnchor(t: M.Messages, store: map<string, Outbound>, parentEid: string, references: seq<string>)
    returns (anchor: string)
    ensures anchor == Anchor(t, store, parentEid, references)
    ensures Known(t, store, parentEid) ==> anchor == parentEid
    ensures !Known(t, store, parentEid) ==>
              if exists i :: 0 <= i < |references| && Known(t, store, references[i]) then
                exists i :: 0 <= i < |references| && anchor == references[i] && Known(t, store, anchor)
                            && forall j | i < j < |references| :: !Known(t, store, references[j])
              else anchor == ""
  {
    if parentEid != "" && FetchTurn(t, store, parentEid) != None {
      return parentEid;
    }
    var i := |references|;
    assert references[..i] == references;
    while i > 0
      invariant 0 <= i <= |references|
      invariant forall j | i <= j < |references| :: !Known(t, store, references[j])
      invariant NewestKnown(t, store, references) == NewestKnown(t, store, references[..i])
    {
      assert references[..i][..i - 1] == references[..i - 1] && references[..i][i - 1] == references[i - 1];
      i := i - 1;
      if FetchTurn(t, store, references[i]) != None {
        return references[i];
      }
    }
    anchor := "";
  }

  /** The lookup the walk uses, one SELECT per Message-ID. */
  function Stored(t: M.Messages, store: map<string, Outbound>): Lookup<string> {
    Lookup(eid => FetchTurn(t, store, eid), "")
  }

  datatype Error = PopFromEmptyList

  /** First truncation loop: at most `turnCap` turns, the newest ones. */
  method CapTurns(all: seq<Turn<string>>, turnCap: int) returns (r: Result<seq<Turn<string>>, Error>)
    ensures r.Failure? <==> turnCap < 0
    ensures turnCap >= 0 ==> r.value == if |all| <= turnCap then all else all[|all| - turnCap..]
  {
    var filtered := all;
    while |filtered| > turnCap
      invariant |filtered| <= |all| && filtered == all[|all| - |filtered|..]
      invariant turnCap >= 0 ==> |filtered| == |all| || |filtered| >= turnCap
      decreases |filtered|
    {
      if filtered == [] { return Failure(PopFromEmptyList); }
      filtered := filtered[1..];
    }
    r := Success(filtered);
  }

  /** Second truncation loop: drop the oldest turn while too many characters remain. */
  method CapChars(all: seq<Turn<string>>, charCap: int) returns (kept: seq<Turn<string>>)
    ensures |kept| <= |all| && kept == all[|all| - |kept|..]
    ensures kept == [] || Chars(kept) <= charCap
    ensures forall k: nat | k < |all| - |kept| :: Over(all, k, charCap)
  {
    kept := all;
    var total := Chars(kept);
    ghost var d := 0;
    while kept != [] && total > charCap
      invariant d <= |all| && kept == all[d..]
      invariant total == Chars(kept)
      invariant forall k: nat | k < d :: Over(all, k, charCap)
      decreases |kept|
    {
      assert kept[1..] == all[d + 1..];
      total := total - |kept[0].body|;
      kept := kept[1..];
      d := d + 1;
    }
  }

  method BuildEmailThreadTranscript(t: M.Messages, store: map<string, Outbound>, parentEid: string,
                                    references: seq<string>, charCap: int, turnCap: int)
    returns (r: Result<seq<Turn<string>>, Error>)
    ensures var anchor := Anchor(t, store, parentEid, references);
            var fetch := Stored(t, store);
            // a negative turn budget makes the first truncation loop pop an empty list
            && (r.Failure? <==> anchor != "" && turnCap < 0)
            && (anchor == "" ==> r == Success([]))
            && (anchor != "" && turnCap >= 0 ==>
                  && LongestSuffix(Thread(fetch, anchor, MAX_WALK_DEPTH), r.value, charCap, turnCap)
                  && r.value == TurnsOf(fetch, ContextIds(fetch, anchor, MAX_WALK_DEPTH, charCap, turnCap)))
  {
    var anchor := ResolveAnchor(t, store, parentEid, references);
    if anchor == "" { return Success([]); }
    var chain := WalkThread(Stored(t, store), anchor, MAX_WALK_DEPTH);
    var filtered := ContentOldestFirst(chain);
    var capped := CapTurns(filtered, turnCap);
    if capped.Failure? { return capped; }
    var kept := CapChars(capped.value, charCap);
    CapsKeepLongest(filtered, capped.value, kept, charCap, turnCap);
    LongestFound(filtered, kept, charCap, turnCap);
    ContextIdsCarry(Stored(t, store), anchor, MAX_WALK_DEPTH, charCap, turnCap);
    r := Success(kept);
  }

  const ROUTER_LIMITS := Limits(MAX_WALK_DEPTH, 8192, 20)

  /** The row `prepare_router_command` stores. */
  function InboundTurn(body: string, parentEid: string, messageId: string, now: int): M.Message {
    M.NewMessage("user", "router", body, M.EmailInbound, None, None, parentEid, messageId, now)
  }

  /** The Message-IDs whose turns become the context of a new inbound message. */
  ghost function ContextOf(t: M.Messages, store: map<string, Outbound>, m: M.Message, references: seq<string>,
                     limits: Limits): seq<string> {
    var t' := M.Insert(t, m).0;
    ContextIds(Stored(t', store), Anchor(t', store, m.parentEid, references), limits.depth, limits.chars, limits.turns)
  }

  /** `prepare_router_command`: the inbound turn is stored first, then the thread
      is walked from its anchor. The references are a parsed header, which names
      no empty id. */
  method PrepareRouterCommand(db: ChatDb, command: string, parentEid: string, messageId: string,
                              references: seq<string>, now: int)
    returns (r: Result<seq<Turn<string>>, Error>)
    modifies db`messages, db`events
    ensures old(db.messages).next in db.messages.rows
    ensures db.messages.rows[old(db.messages).next] ==
            M.Message("user", "router", command, M.EmailInbound, M.Pending, None, None, messageId, parentEid, now)
    ensures var m := InboundTurn(command, parentEid, messageId, now);
            var fetch := Stored(db.messages, db.outbound);
            var anchor := Anchor(db.messages, db.outbound, parentEid, references);
            var context := ContextOf(old(db.messages), db.outbound, m, references, ROUTER_LIMITS);
            && db.messages == M.Insert(old(db.messages), m).0
            && db.events == old(db.events) + [LogEvent("message", now)]
            && r.Success?
            && LongestSuffix(Thread(fetch, anchor, MAX_WALK_DEPTH), r.value, 8192, 20)
            && (forall i | 0 <= i < |context| :: fetch.turn(context[i]).Some?)
            && r.value == TurnsOf(fetch, context)
  {
    var id := db.InsertMessage(InboundTurn(command, parentEid, messageId, now));
    r := BuildEmailThreadTranscript(db.messages, db.outbound, parentEid, references, 8192, 20);
  }

  // ---- the new message and its own context --------------------------------

  lemma {:induction false} FindUnchanged(t: M.Messages, t': M.Messages, eid: string, n: nat)
    requires forall id: int | 0 <= id < n ::
               (id in t.rows <==> id in t'.rows) && (id in t.rows ==> t.rows[id] == t'.rows[id])
    ensures M.FindBelow(t, eid, n) == M.FindBelow(t', eid, n)
  {
    if n > 0 { FindUnchanged(t, t', eid, n - 1); }
  }

  /** Storing a message changes the lookup of its own Message-ID only, and gives
      that one the message when it was unknown. */
  lemma LookupAfterInsert(t: M.Messages, store: map<string, Outbound>, m: M.Message, e: string)
    requires M.WellFormed(t)
    ensures var t' := M.Insert(t, m).0;
            && (e != m.emailId ==> FetchTurn(t', store, e) == FetchTurn(t, store, e))
            && (e == m.emailId != "" && !Known(t, store, e) ==> M.FindByEmailId(t', e) == Some(t.next))
  {
    FindUnchanged(t, M.Insert(t, m).0, e, t.next);
  }

  /** The new message is among the turns of the context it is given. */
  ghost predicate InOwnContext(t: M.Messages, store: map<string, Outbound>, m: M.Message, references: seq<string>,
                         limits: Limits) {
    m.emailId in ContextOf(t, store, m, references, limits)
  }

  /** The thread stored before leads from the anchor to the new message within the
      depth limit, and together with it fits both budgets. */
  ghost predicate MeetsItself(t: M.Messages, store: map<string, Outbound>, m: M.Message, references: seq<string>,
                        limits: Limits) {
    Meets(Stored(t, store), Anchor(M.Insert(t, m).0, store, m.parentEid, references), m.emailId, |m.body|, limits)
  }

  predicate IsInbound(m: M.Message) { m == InboundTurn(m.body, m.parentEid, m.emailId, m.createdAt) }

  /** Storing an inbound message makes one more id known, and a walk from its own
      anchor ends there. */
  lemma StoredWithNew(t: M.Messages, store: map<string, Outbound>, m: M.Message, references: seq<string>)
    requires M.WellFormed(t) && IsInbound(m) && m.emailId != "" && !Known(t, store, m.emailId)
    ensures var t' := M.Insert(t, m).0;
            var fetch' := Stored(t', store);
            && OneMore(Stored(t, store), fetch', m.emailId)
            && EndsAtNew(fetch', Anchor(t', store, m.parentEid, references), m.emailId)
            && fetch'.turn(m.emailId).value.kind == M.EmailInbound && fetch'.turn(m.emailId).value.body == m.body
  {
    LookupAfterInsert(t, store, m, m.emailId);
    forall e | e != m.emailId ensures Stored(M.Insert(t, m).0, store).turn(e) == Stored(t, store).turn(e) {
      LookupAfterInsert(t, store, m, e);
    }
  }

  /** Whether a new inbound message gets into the context it is given: exactly
      when the thread stored before it leads from its anchor back to it, with room
      for it in depth, turns and characters. */
  lemma InOwnContextExactlyWhen(t: M.Messages, store: map<string, Outbound>, m: M.Message, references: seq<string>,
                                limits: Limits)
    requires M.WellFormed(t) && IsInbound(m) && m.emailId != "" && !Known(t, store, m.emailId)
    ensures InOwnContext(t, store, m, references, limits) <==> MeetsItself(t, store, m, references, limits)
  {
    var t' := M.Insert(t, m).0;
    StoredWithNew(t, store, m, references);
    KeptExactlyWhen(Stored(t, store), Stored(t', store), Anchor(t', store, m.parentEid, references), m.emailId, limits);
  }

  /** So a message that nothing stored answers is out of its own context in every
      call that does not anchor at it. */
  lemma UnansweredStaysOut(t: M.Messages, store: map<string, Outbound>, m: M.Message, references: seq<string>,
                           limits: Limits)
    requires M.WellFormed(t) && IsInbound(m) && m.emailId != "" && !Known(t, store, m.emailId)
    requires forall e :: !Answers(Stored(t, store), e, m.emailId)
    requires Anchor(M.Insert(t, m).0, store, m.parentEid, references) != m.emailId
    ensures !InOwnContext(t, store, m, references, limits)
  {
    InOwnContextExactlyWhen(t, store, m, references, limits);
    UnansweredIsNotMet(Stored(t, store), Anchor(M.Insert(t, m).0, store, m.parentEid, references), m.emailId, |m.body|,
                       limits);
  }

  /** A call that anchors its thread at its own new message gets that message as
      its whole context exactly when the body fits, and else none. */
  lemma AnchoredAtItself(t: M.Messages, store: map<string, Outbound>, m: M.Message, references: seq<string>,
                         limits: Limits)
    requires M.WellFormed(t) && IsInbound(m) && m.emailId != "" && !Known(t, store, m.emailId)
    requires Anchor(M.Insert(t, m).0, store, m.parentEid, references) == m.emailId
    requires limits.depth >= 1 && limits.turns >= 1
    ensures ContextOf(t, store, m, references, limits) == if |m.body| <= limits.chars then [m.emailId] else []
  {
    StoredWithNew(t, store, m, references);
    KeptAlone(Stored(t, store), Stored(M.Insert(t, m).0, store), m.emailId, limits);
  }

  /** A message can get in without anchoring at itself: here the progress note that
      was sent about it is stored, and the message names that note as its parent. */
  lemma NoteBringsItIn(limits: Limits)
    requires limits.depth >= 2 && limits.turns >= 1 && limits.chars >= 5
    ensures var store := map["<note>" := Outbound(M.OtherKind("running_ack"), "", None, "Running", "<new>", 0)];
            InOwnContext(M.NO_MESSAGES, store, InboundTurn("do it", "<note>", "<new>", 7), [], limits)
  {
    var store := map["<note>" := Outbound(M.OtherKind("running_ack"), "", None, "Running", "<new>", 0)];
    var m := InboundTurn("do it", "<note>", "<new>", 7);
    var fetch := Stored(M.NO_MESSAGES, store);
    assert "<note>"[2] == 'o' && "<new>"[2] == 'e';
    LookupAfterInsert(M.NO_MESSAGES, store, m, "<note>");
    WalkStep(fetch, "<note>", {}, limits.depth);
    assert Walk(fetch, "<new>", {} + {"<note>"}, limits.depth - 1) == [];
    var ids := ["<note>"];
    assert ids[1..] == [] && ContentIds(fetch, ids) == [];
    InOwnContextExactlyWhen(M.NO_MESSAGES, store, m, [], limits);
  }
}
