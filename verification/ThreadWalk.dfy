/** The walk over parent links and the two caps, for any kind of id: what a bounded
    transcript is, apart from where its turns are stored (src/email_thread.py). */
module ThreadWalk {
  import opened Base
  import M = MessageTable

  const EXCLUDED: set<M.Kind> :=
    {M.OtherKind("running_ack"), M.OtherKind("ack"), M.OtherKind("reply_ack"), M.OtherKind("status")}

  datatype Turn<Id> = Turn(role: string, kind: M.Kind, body: string, ts: int, parent: Id)

  /** One lookup per id, and the id that stands for "no parent". */
  datatype Lookup<!Id> = Lookup(turn: Id -> Option<Turn<Id>>, none: Id)

  /** How far a transcript may reach. */
  datatype Limits = Limits(depth: nat, chars: int, turns: nat)

  /** The parent link of a stored turn. */
  ghost function ParentOf<Id>(fetch: Lookup<Id>, eid: Id): Id {
    var turn := fetch.turn(eid);
    if turn.Some? then turn.value.parent else fetch.none
  }

  /** Every one of these ids names a stored turn. */
  ghost predicate Found<Id>(fetch: Lookup<Id>, ids: seq<Id>) {
    forall i | 0 <= i < |ids| :: fetch.turn(ids[i]).Some?
  }

  /** The Message-IDs visited from `cur`: parent after parent until the link is
      empty, already seen, unknown, or there is no room left. */
  ghost function Walk<Id>(fetch: Lookup<Id>, cur: Id, seen: set<Id>, room: nat): (ids: seq<Id>)
    decreases room
    ensures |ids| <= room
    ensures Found(fetch, ids)
  {
    if cur == fetch.none || cur in seen || room == 0 || fetch.turn(cur) == None then []
    else [cur] + Walk(fetch, ParentOf(fetch, cur), seen + {cur}, room - 1)
  }

  lemma {:induction false} WalkAvoidsSeen<Id>(fetch: Lookup<Id>, cur: Id, seen: set<Id>, room: nat, x: Id)
    requires x in seen
    decreases room
    ensures x !in Walk(fetch, cur, seen, room)
  {
    if Walk(fetch, cur, seen, room) != [] {
      WalkAvoidsSeen(fetch, ParentOf(fetch, cur), seen + {cur}, room - 1, x);
    }
  }

  ghost function TurnsOf<Id>(fetch: Lookup<Id>, ids: seq<Id>): (turns: seq<Turn<Id>>)
    requires Found(fetch, ids)
    ensures |turns| == |ids|
    ensures forall i | 0 <= i < |ids| :: Some(turns[i]) == fetch.turn(ids[i])
  {
    seq(|ids|, i requires 0 <= i < |ids| && fetch.turn(ids[i]).Some? => fetch.turn(ids[i]).value)
  }

  /** The turns that carry content, oldest first. */
  function ContentOldestFirst<Id>(chain: seq<Turn<Id>>): seq<Turn<Id>> {
    if chain == [] then []
    else ContentOldestFirst(chain[1..]) + if chain[0].kind in EXCLUDED then [] else [chain[0]]
  }

  /** `content` is the turns of `chain` that are no progress note, acknowledgement or
      status, from its end to its front: `at` says where each of them was. */
  ghost predicate ContentAt<Id>(chain: seq<Turn<Id>>, content: seq<Turn<Id>>, at: seq<int>) {
    && |at| == |content|
    && (forall j, k | 0 <= j < k < |at| :: at[j] > at[k])
    && (forall k | 0 <= k < |at| :: 0 <= at[k] < |chain| && content[k] == chain[at[k]])
    && (forall i | 0 <= i < |chain| :: i in at <==> !IsNote(chain[i].kind))
  }

  predicate IsNote(kind: M.Kind) {
    kind.OtherKind? && (kind.name == "running_ack" || kind.name == "ack" || kind.name == "reply_ack"
                        || kind.name == "status")
  }

  ghost predicate OneLater(rest: seq<int>, at: seq<int>) {
    |at| == |rest| && forall k | 0 <= k < |rest| :: at[k] == rest[k] + 1
  }

  lemma InLater(rest: seq<int>, at: seq<int>, i: int)
    requires OneLater(rest, at)
    ensures i in at <==> i - 1 in rest
  {
    if i - 1 in rest {
      var k :| 0 <= k < |rest| && rest[k] == i - 1;
      assert at[k] == i;
    }
  }

  lemma ContentLater<Id>(first: Turn<Id>, chain: seq<Turn<Id>>, content: seq<Turn<Id>>, rest: seq<int>, at: seq<int>)
    requires ContentAt(chain, content, rest) && OneLater(rest, at) && IsNote(first.kind)
    ensures ContentAt([first] + chain, content, at)
  {
    var all := [first] + chain;
    forall i | 0 <= i < |all| ensures i in at <==> !IsNote(all[i].kind) {
      InLater(rest, at, i);
      assert i > 0 ==> all[i] == chain[i - 1];
      assert 0 !in at;
    }
  }

  lemma ContentLast<Id>(first: Turn<Id>, chain: seq<Turn<Id>>, content: seq<Turn<Id>>, rest: seq<int>, at: seq<int>)
    requires ContentAt(chain, content, rest) && OneLater(rest, at) && !IsNote(first.kind)
    ensures ContentAt([first] + chain, content + [first], at + [0])
  {
    var all, at' := [first] + chain, at + [0];
    forall k | 0 <= k < |at'| ensures 0 <= at'[k] < |all| && (content + [first])[k] == all[at'[k]] {
      if k < |at| { assert at'[k] == rest[k] + 1; }
    }
    forall i | 0 <= i < |all| ensures i in at' <==> !IsNote(all[i].kind) {
      InLater(rest, at, i);
      if i > 0 { assert all[i] == chain[i - 1]; }
    }
  }

  /** What the caps are applied to: the chain without its notes, oldest first. */
  lemma {:induction false} ContentMeaning<Id>(chain: seq<Turn<Id>>) returns (at: seq<int>)
    ensures ContentAt(chain, ContentOldestFirst(chain), at)
  {
    at := [];
    if chain != [] {
      var rest := ContentMeaning(chain[1..]);
      at := seq(|rest|, k requires 0 <= k < |rest| => rest[k] + 1);
      assert [chain[0]] + chain[1..] == chain;
      if IsNote(chain[0].kind) {
        ContentLater(chain[0], chain[1..], ContentOldestFirst(chain[1..]), rest, at);
      } else {
        ContentLast(chain[0], chain[1..], ContentOldestFirst(chain[1..]), rest, at);
        at := at + [0];
      }
    }
  }

  function Chars<Id>(turns: seq<Turn<Id>>): nat {
    if turns == [] then 0 else |turns[0].body| + Chars(turns[1..])
  }

  /** Within both budgets. The empty transcript is within any character budget. */
  ghost predicate Fits<Id>(turns: seq<Turn<Id>>, charCap: int, turnCap: int) {
    |turns| <= turnCap && (turns == [] || Chars(turns) <= charCap)
  }

  /** From its `k`-th turn on, `turns` is over the character budget. */
  ghost predicate Over<Id>(turns: seq<Turn<Id>>, k: nat, charCap: int)
    requires k <= |turns|
  {
    Chars(turns[k..]) > charCap
  }

  /** `kept` is the longest suffix of `all` within both budgets. */
  ghost predicate LongestSuffix<Id>(all: seq<Turn<Id>>, kept: seq<Turn<Id>>, charCap: int, turnCap: int) {
    && |kept| <= |all| && kept == all[|all| - |kept|..]
    && Fits(kept, charCap, turnCap)
    && forall k | 0 <= k < |all| - |kept| :: !Fits(all[k..], charCap, turnCap)
  }

  /** The same as a search from the oldest turn on. */
  ghost function Longest<Id>(all: seq<Turn<Id>>, charCap: int, turnCap: nat): (kept: seq<Turn<Id>>)
    ensures |kept| <= |all| && kept == all[|all| - |kept|..]
  {
    if all == [] || Fits(all, charCap, turnCap) then all
    else
      var kept := Longest(all[1..], charCap, turnCap);
      assert all[1..][|all[1..]| - |kept|..] == all[|all| - |kept|..];
      kept
  }

  /** There is one longest suffix, and the search finds it. */
  lemma {:induction false} LongestFound<Id>(all: seq<Turn<Id>>, kept: seq<Turn<Id>>, charCap: int, turnCap: nat)
    requires LongestSuffix(all, kept, charCap, turnCap)
    ensures kept == Longest(all, charCap, turnCap)
  {
    if |kept| == |all| {
      assert kept == all;
    } else {
      assert all[0..] == all && !Fits(all, charCap, turnCap);
      forall k | 0 <= k < |all[1..]| - |kept| ensures !Fits(all[1..][k..], charCap, turnCap) {
        assert all[1..][k..] == all[k + 1..];
      }
      assert all[1..][|all[1..]| - |kept|..] == all[|all| - |kept|..];
      LongestFound(all[1..], kept, charCap, turnCap);
    }
  }

  /** The whole thread content the caps are applied to. */
  ghost function Thread<Id>(fetch: Lookup<Id>, anchor: Id, depth: nat): seq<Turn<Id>> {
    ContentOldestFirst(TurnsOf(fetch, Walk(fetch, anchor, {}, depth)))
  }

  lemma WalkStep<Id>(fetch: Lookup<Id>, cur: Id, seen: set<Id>, room: nat)
    requires cur != fetch.none && cur !in seen && room > 0 && fetch.turn(cur).Some?
    ensures Walk(fetch, cur, seen, room) == [cur] + Walk(fetch, ParentOf(fetch, cur), seen + {cur}, room - 1)
  {
  }

  lemma WalkAdvances<Id>(fetch: Lookup<Id>, ids: seq<Id>, cur: Id, seen: set<Id>, room: nat)
    requires cur != fetch.none && cur !in seen && room > 0 && fetch.turn(cur).Some?
    ensures ids + Walk(fetch, cur, seen, room)
            == (ids + [cur]) + Walk(fetch, fetch.turn(cur).value.parent, seen + {cur}, room - 1)
  {
  }

  /** The ids behind `ContentOldestFirst`. */
  ghost function ContentIds<Id>(fetch: Lookup<Id>, ids: seq<Id>): (content: seq<Id>)
    requires Found(fetch, ids)
    ensures Found(fetch, content) && forall e | e in content :: e in ids
  {
    if ids == [] then []
    else ContentIds(fetch, ids[1..]) + if fetch.turn(ids[0]).value.kind in EXCLUDED then [] else [ids[0]]
  }

  lemma {:induction false} ContentIdsCarry<Id>(fetch: Lookup<Id>, ids: seq<Id>)
    requires Found(fetch, ids)
    ensures ContentOldestFirst(TurnsOf(fetch, ids)) == TurnsOf(fetch, ContentIds(fetch, ids))
  {
    if ids != [] {
      ContentIdsCarry(fetch, ids[1..]);
      assert TurnsOf(fetch, ids)[1..] == TurnsOf(fetch, ids[1..]);
    }
  }

  /** The Message-IDs of the turns that survive the caps, oldest first. */
  ghost function ContextIds<Id>(fetch: Lookup<Id>, anchor: Id, depth: nat, charCap: int, turnCap: nat):
    (context: seq<Id>)
    ensures |context| == |Longest(Thread(fetch, anchor, depth), charCap, turnCap)|
    ensures Found(fetch, context)
  {
    var ids := Walk(fetch, anchor, {}, depth);
    ContentIdsCarry(fetch, ids);
    var content := ContentIds(fetch, ids);
    content[|content| - |Longest(Thread(fetch, anchor, depth), charCap, turnCap)|..]
  }

  /** The turns of those ids are the longest suffix. */
  lemma ContextIdsCarry<Id>(fetch: Lookup<Id>, anchor: Id, depth: nat, charCap: int, turnCap: nat)
    ensures TurnsOf(fetch, ContextIds(fetch, anchor, depth, charCap, turnCap)) ==
            Longest(Thread(fetch, anchor, depth), charCap, turnCap)
  {
    ContentIdsCarry(fetch, Walk(fetch, anchor, {}, depth));
  }

  lemma WalkStops<Id>(fetch: Lookup<Id>, cur: Id, seen: set<Id>, room: nat)
    requires cur == fetch.none || cur in seen || room == 0 || fetch.turn(cur) == None
    ensures Walk(fetch, cur, seen, room) == []
  {
  }

  /** The walk over parent links, newest turn first. */
  method WalkThread<Id(==)>(fetch: Lookup<Id>, anchor: Id, depth: nat) returns (chain: seq<Turn<Id>>)
    ensures chain == TurnsOf(fetch, Walk(fetch, anchor, {}, depth))
  {
    chain := [];
    var seen: set<Id> := {};
    var cur := anchor;
    ghost var ids: seq<Id> := [];
    while cur != fetch.none && cur !in seen && |chain| < depth
      invariant |chain| <= depth && Found(fetch, ids)
      invariant chain == TurnsOf(fetch, ids)
      invariant ids + Walk(fetch, cur, seen, depth - |chain|) == Walk(fetch, anchor, {}, depth)
      decreases depth - |chain|
    {
      var turn := fetch.turn(cur);
      if turn == None { break; }
      WalkAdvances(fetch, ids, cur, seen, depth - |chain|);
      ids := ids + [cur];
      seen := seen + {cur};
      chain := chain + [turn.value];
      cur := turn.value.parent;
    }
    WalkStops(fetch, cur, seen, depth - |chain|);
    assert ids == Walk(fetch, anchor, {}, depth);
  }

  lemma SuffixTooLong<Id>(all: seq<Turn<Id>>, d: nat, k: nat, charCap: int, turnCap: nat)
    requires d <= k < |all| && Over(all[d..], k - d, charCap)
    ensures !Fits(all[k..], charCap, turnCap)
  {
    assert all[d..][k - d..] == all[k..];
  }

  /** Together the two loops keep the longest suffix within both budgets. */
  lemma CapsKeepLongest<Id>(all: seq<Turn<Id>>, capped: seq<Turn<Id>>, kept: seq<Turn<Id>>, charCap: int, turnCap: nat)
    requires capped == if |all| <= turnCap then all else all[|all| - turnCap..]
    requires |kept| <= |capped| && kept == capped[|capped| - |kept|..]
    requires kept == [] || Chars(kept) <= charCap
    requires forall k: nat | k < |capped| - |kept| :: Over(capped, k, charCap)
    ensures LongestSuffix(all, kept, charCap, turnCap)
  {
    var d := |all| - |capped|;
    assert capped == all[d..];
    forall k | 0 <= k < |all| - |kept| ensures !Fits(all[k..], charCap, turnCap) {
      if k >= d {
        assert Over(capped, k - d, charCap);
        SuffixTooLong(all, d, k, charCap, turnCap);
      }
    }
  }

  /** The walk ended only where it must: past its last turn there is no link, a
      link already followed, an unknown one, or no room. */
  ghost predicate StopsAt<Id>(fetch: Lookup<Id>, ids: seq<Id>, seen: set<Id>, room: nat)
    requires ids != []
  {
    var beyond := ParentOf(fetch, ids[|ids| - 1]);
    beyond == fetch.none || beyond in seen || beyond in ids || fetch.turn(beyond) == None || |ids| == room
  }

  /** The walk terminates on any table, cyclic or not: it starts at the anchor,
      follows parent links, visits nothing twice and at most 200 ids, and stops
      only where it must. */
  lemma {:induction false} WalkMeaning<Id>(fetch: Lookup<Id>, cur: Id, seen: set<Id>, room: nat)
    requires cur != fetch.none && cur !in seen && room > 0 && fetch.turn(cur).Some?
    decreases room
    ensures var ids := Walk(fetch, cur, seen, room);
            && 0 < |ids| <= room && ids[0] == cur
            && NoRepeats(ids) && Linked(fetch, ids)
            && StopsAt(fetch, ids, seen, room)
  {
    var ids := Walk(fetch, cur, seen, room);
    var parent := ParentOf(fetch, cur);
    var rest := Walk(fetch, parent, seen + {cur}, room - 1);
    assert ids == [cur] + rest;
    if rest == [] {
      assert cur in ids;
    } else {
      WalkMeaning(fetch, parent, seen + {cur}, room - 1);
      WalkAvoidsSeen(fetch, parent, seen + {cur}, room - 1, cur);
      LinkOneMore(fetch, cur, rest);
      StopOneMore(fetch, cur, rest, seen, room);
    }
  }

  lemma StopOneMore<Id>(fetch: Lookup<Id>, cur: Id, rest: seq<Id>, seen: set<Id>, room: nat)
    requires rest != [] && room > 0 && StopsAt(fetch, rest, seen + {cur}, room - 1)
    ensures StopsAt(fetch, [cur] + rest, seen, room)
  {
    var ids := [cur] + rest;
    assert ids[|ids| - 1] == rest[|rest| - 1];
    var beyond := ParentOf(fetch, rest[|rest| - 1]);
    assert beyond in rest ==> beyond in ids;
    assert cur in ids;
  }

  /** Each id is the parent of the one before it. */
  ghost predicate Linked<Id>(fetch: Lookup<Id>, ids: seq<Id>) {
    forall i | 0 < i < |ids| :: ids[i] == ParentOf(fetch, ids[i - 1])
  }

  ghost predicate NoRepeats<Id>(ids: seq<Id>) {
    forall i, j | 0 <= i < j < |ids| :: ids[i] != ids[j]
  }

  lemma LinkOneMore<Id>(fetch: Lookup<Id>, cur: Id, rest: seq<Id>)
    requires Linked(fetch, rest) && NoRepeats(rest) && cur !in rest
    requires rest != [] ==> rest[0] == ParentOf(fetch, cur)
    ensures Linked(fetch, [cur] + rest) && NoRepeats([cur] + rest)
  {
    var ids := [cur] + rest;
    forall i | 0 < i < |ids| ensures ids[i] == ParentOf(fetch, ids[i - 1]) {
      if i > 1 { assert rest[i - 1] == ParentOf(fetch, rest[i - 2]); }
    }
    forall i, j | 0 <= i < j < |ids| ensures ids[i] != ids[j] {
      assert rest[j - 1] in rest;
      if i > 0 { assert rest[i - 1] != rest[j - 1]; }
    }
  }

  lemma {:induction false} CharsOfSuffix<Id>(all: seq<Turn<Id>>, k: nat)
    requires k <= |all|
    ensures Chars(all[k..]) <= Chars(all)
  {
    if k > 0 {
      CharsOfSuffix(all[1..], k - 1);
      assert all[1..][k - 1..] == all[k..];
    }
  }

  /** The answer is unique, and every suffix that fits is inside it: truncation
      never drops a turn it had room for. */
  lemma SuffixIsLongest<Id>(all: seq<Turn<Id>>, kept: seq<Turn<Id>>, charCap: int, turnCap: int, k: nat)
    requires LongestSuffix(all, kept, charCap, turnCap) && k <= |all|
    ensures Fits(all[k..], charCap, turnCap) <==> |all| - k <= |kept|
  {
    if |all| - k <= |kept| && all[k..] != [] {
      CharsOfSuffix(kept, |kept| - (|all| - k));
      assert kept[|kept| - (|all| - k)..] == all[k..];
    }
  }

  /** The newest kept-kind turn survives whenever a turn is allowed and its own
      body fits. */
  lemma NewestSurvives<Id>(all: seq<Turn<Id>>, kept: seq<Turn<Id>>, charCap: int, turnCap: int)
    requires LongestSuffix(all, kept, charCap, turnCap) && turnCap >= 0
    requires all != []
    ensures kept != [] <==> turnCap >= 1 && |all[|all| - 1].body| <= charCap
    ensures kept != [] ==> kept[|kept| - 1] == all[|all| - 1]
  {
    var last := all[|all| - 1..];
    assert Chars(last) == |last[0].body|;
    SuffixIsLongest(all, kept, charCap, turnCap, |all| - 1);
  }

  lemma {:induction false} NotReached<Id(!new)>(fetch: Lookup<Id>, cur: Id, seen: set<Id>, room: nat, eid: Id)
    requires cur != eid && forall e | e != eid && e != fetch.none :: ParentOf(fetch, e) != eid
    decreases room
    ensures eid !in Walk(fetch, cur, seen, room)
  {
    if Walk(fetch, cur, seen, room) != [] {
      NotReached(fetch, ParentOf(fetch, cur), seen + {cur}, room - 1, eid);
    }
  }

  /** No walk that starts elsewhere visits a stored id exactly when no other
      stored turn names it as its parent. */
  lemma UnvisitedExactlyWhen<Id(!new)>(fetch: Lookup<Id>, eid: Id, depth: nat)
    requires eid != fetch.none && fetch.turn(eid).Some? && depth >= 2
    ensures (forall a | a != eid :: eid !in Walk(fetch, a, {}, depth))
            <==> (forall e | e != eid && e != fetch.none :: ParentOf(fetch, e) != eid)
  {
    if forall e | e != eid && e != fetch.none :: ParentOf(fetch, e) != eid {
      forall a | a != eid ensures eid !in Walk(fetch, a, {}, depth) {
        NotReached(fetch, a, {}, depth, eid);
      }
    } else {
      var e :| e != eid && e != fetch.none && ParentOf(fetch, e) == eid;
      WalkStep(fetch, e, {}, depth);
      WalkStep(fetch, eid, {} + {e}, depth - 1);
    }
  }

  /** Where a walk that visited `ids` goes next. */
  ghost function NextLink<Id>(fetch: Lookup<Id>, start: Id, ids: seq<Id>): Id {
    if ids == [] then start else ParentOf(fetch, ids[|ids| - 1])
  }

  /** The same lookup, but for one id that was unknown. */
  ghost predicate OneMore<Id(!new)>(fetch: Lookup<Id>, fetch': Lookup<Id>, eid: Id) {
    && fetch'.none == fetch.none != eid && fetch.turn(eid) == None && fetch'.turn(eid).Some?
    && forall e | e != eid :: fetch'.turn(e) == fetch.turn(e)
  }

  /** A walk that comes to a newly known id ends there, if that id's parent is
      where the walk started, or unknown. */
  lemma {:induction false} WalkWithNew<Id(!new)>(fetch: Lookup<Id>, fetch': Lookup<Id>, eid: Id, cur: Id,
                                               seen: set<Id>, room: nat)
    requires OneMore(fetch, fetch', eid) && eid !in seen
    requires var p := ParentOf(fetch', eid);
             p == fetch.none || p == eid || fetch'.turn(p) == None || p in seen || p == cur
    decreases room
    ensures var ids := Walk(fetch, cur, seen, room);
            Walk(fetch', cur, seen, room) ==
              ids + if |ids| < room && NextLink(fetch, cur, ids) == eid then [eid] else []
  {
    var ids := Walk(fetch, cur, seen, room);
    if cur == eid {
      if room > 0 {
        WalkStep(fetch', eid, seen, room);
        assert Walk(fetch', ParentOf(fetch', eid), seen + {eid}, room - 1) == [];
      }
    } else if ids != [] {
      var p := ParentOf(fetch, cur);
      var rest := Walk(fetch, p, seen + {cur}, room - 1);
      WalkStep(fetch, cur, seen, room);
      WalkStep(fetch', cur, seen, room);
      WalkWithNew(fetch, fetch', eid, p, seen + {cur}, room - 1);
      assert rest != [] ==> ids[|ids| - 1] == rest[|rest| - 1];
    }
  }

  lemma {:induction false} ContentWithNew<Id(!new)>(fetch: Lookup<Id>, fetch': Lookup<Id>, eid: Id, ids: seq<Id>)
    requires OneMore(fetch, fetch', eid) && fetch'.turn(eid).value.kind !in EXCLUDED
    requires Found(fetch, ids)
    ensures Found(fetch', ids + [eid])
    ensures ContentIds(fetch', ids + [eid]) == [eid] + ContentIds(fetch, ids)
  {
    if ids == [] {
      assert ids + [eid] == [eid] && [eid][1..] == [];
    } else {
      ContentWithNew(fetch, fetch', eid, ids[1..]);
      assert (ids + [eid])[1..] == ids[1..] + [eid];
    }
  }

  /** The oldest turn is kept exactly when everything fits. */
  lemma OldestKept<Id>(all: seq<Turn<Id>>, charCap: int, turnCap: nat)
    requires all != []
    ensures |Longest(all, charCap, turnCap)| == |all| <==> Fits(all, charCap, turnCap)
  {
  }

  /** The context is a suffix of the content, so it holds the oldest id exactly
      when it is all of it. */
  lemma OldestInSuffix<Id>(oldest: Id, rest: seq<Id>, context: seq<Id>)
    requires |context| <= |rest| + 1 && context == ([oldest] + rest)[|rest| + 1 - |context|..] && oldest !in rest
    ensures oldest in context <==> |context| == |rest| + 1
  {
    if |context| <= |rest| {
      assert context == rest[|rest| - |context|..];
    }
  }

  lemma TurnsWithNew<Id(!new)>(fetch: Lookup<Id>, fetch': Lookup<Id>, eid: Id, content: seq<Id>)
    requires OneMore(fetch, fetch', eid) && Found(fetch, content)
    ensures Found(fetch', [eid] + content)
    ensures TurnsOf(fetch', [eid] + content) == [fetch'.turn(eid).value] + TurnsOf(fetch, content)
  {
    forall i | 0 <= i < |content| ensures fetch'.turn(content[i]) == fetch.turn(content[i]) {
    }
  }

  lemma CharsOfCons<Id>(turn: Turn<Id>, turns: seq<Turn<Id>>)
    ensures Chars([turn] + turns) == |turn.body| + Chars(turns)
  {
    assert ([turn] + turns)[1..] == turns;
  }

  /** A walk that reached the new id keeps it exactly when everything fits. */
  lemma NewIsKept<Id(!new)>(fetch: Lookup<Id>, fetch': Lookup<Id>, anchor: Id, limits: Limits, eid: Id, ids: seq<Id>)
    requires OneMore(fetch, fetch', eid) && fetch'.turn(eid).value.kind !in EXCLUDED && eid !in ids
    requires Found(fetch, ids)
    requires Walk(fetch', anchor, {}, limits.depth) == ids + [eid]
    ensures var content := ContentIds(fetch, ids);
            eid in ContextIds(fetch', anchor, limits.depth, limits.chars, limits.turns) <==>
              |content| + 1 <= limits.turns
              && |fetch'.turn(eid).value.body| + Chars(TurnsOf(fetch, content)) <= limits.chars
  {
    var content := ContentIds(fetch, ids);
    ContentWithNew(fetch, fetch', eid, ids);
    ContentIdsCarry(fetch', ids + [eid]);
    TurnsWithNew(fetch, fetch', eid, content);
    var turn, turns := fetch'.turn(eid).value, TurnsOf(fetch, content);
    CharsOfCons(turn, turns);
    OldestKept([turn] + turns, limits.chars, limits.turns);
    OldestInSuffix(eid, content, ContextIds(fetch', anchor, limits.depth, limits.chars, limits.turns));
  }

  lemma ContextWasWalked<Id>(fetch: Lookup<Id>, anchor: Id, limits: Limits, eid: Id)
    requires eid in ContextIds(fetch, anchor, limits.depth, limits.chars, limits.turns)
    ensures eid in Walk(fetch, anchor, {}, limits.depth)
  {
  }

  /** The stored turns lead from the anchor to `eid` within the depth limit, and
      together with a turn of this size they fit both budgets. */
  ghost predicate Meets<Id>(fetch: Lookup<Id>, anchor: Id, eid: Id, size: nat, limits: Limits) {
    var ids := Walk(fetch, anchor, {}, limits.depth);
    var content := ContentIds(fetch, ids);
    && |ids| < limits.depth && NextLink(fetch, anchor, ids) == eid
    && |content| + 1 <= limits.turns
    && size + Chars(TurnsOf(fetch, content)) <= limits.chars
  }

  /** A stored turn names this id as its parent. */
  ghost predicate Answers<Id>(fetch: Lookup<Id>, e: Id, eid: Id) {
    fetch.turn(e).Some? && fetch.turn(e).value.parent == eid
  }

  lemma UnansweredIsNotMet<Id(!new)>(fetch: Lookup<Id>, anchor: Id, eid: Id, size: nat, limits: Limits)
    requires anchor != eid && forall e :: !Answers(fetch, e, eid)
    ensures !Meets(fetch, anchor, eid, size, limits)
  {
    var ids := Walk(fetch, anchor, {}, limits.depth);
    if ids != [] { assert !Answers(fetch, ids[|ids| - 1], eid); }
  }

  /** The new id's parent is one at which a walk from `anchor` ends. */
  ghost predicate EndsAtNew<Id>(fetch: Lookup<Id>, anchor: Id, eid: Id) {
    var p := ParentOf(fetch, eid);
    p == fetch.none || p == eid || fetch.turn(p) == None || p == anchor
  }

  lemma WalkFromAnchor<Id(!new)>(fetch: Lookup<Id>, fetch': Lookup<Id>, eid: Id, anchor: Id, depth: nat)
    requires OneMore(fetch, fetch', eid) && EndsAtNew(fetch', anchor, eid)
    ensures var ids := Walk(fetch, anchor, {}, depth);
            && eid !in ids
            && Walk(fetch', anchor, {}, depth) ==
               ids + if |ids| < depth && NextLink(fetch, anchor, ids) == eid then [eid] else []
  {
    WalkWithNew(fetch, fetch', eid, anchor, {}, depth);
  }

  /** A turn that becomes known is in the context built from an anchor exactly when
      the turns known before lead from there to it, with room for it. */
  lemma KeptExactlyWhen<Id(!new)>(fetch: Lookup<Id>, fetch': Lookup<Id>, anchor: Id, eid: Id, limits: Limits)
    requires OneMore(fetch, fetch', eid) && EndsAtNew(fetch', anchor, eid)
    requires fetch'.turn(eid).value.kind !in EXCLUDED
    ensures eid in ContextIds(fetch', anchor, limits.depth, limits.chars, limits.turns)
            <==> Meets(fetch, anchor, eid, |fetch'.turn(eid).value.body|, limits)
  {
    var ids := Walk(fetch, anchor, {}, limits.depth);
    WalkFromAnchor(fetch, fetch', eid, anchor, limits.depth);
    if |ids| < limits.depth && NextLink(fetch, anchor, ids) == eid {
      NewIsKept(fetch, fetch', anchor, limits, eid, ids);
    } else if eid in ContextIds(fetch', anchor, limits.depth, limits.chars, limits.turns) {
      ContextWasWalked(fetch', anchor, limits, eid);
    }
  }

  lemma SuffixOfOne<Id>(eid: Id, content: seq<Id>, context: seq<Id>)
    requires content == [eid] && |context| <= |content| && context == content[|content| - |context|..]
    ensures context == if eid in context then [eid] else []
  {
  }

  /** A walk that starts at the turn that becomes known has no other turn to keep. */
  lemma KeptAlone<Id(!new)>(fetch: Lookup<Id>, fetch': Lookup<Id>, eid: Id, limits: Limits)
    requires OneMore(fetch, fetch', eid) && EndsAtNew(fetch', eid, eid)
    requires fetch'.turn(eid).value.kind !in EXCLUDED
    requires limits.depth >= 1 && limits.turns >= 1
    ensures ContextIds(fetch', eid, limits.depth, limits.chars, limits.turns)
            == if |fetch'.turn(eid).value.body| <= limits.chars then [eid] else []
  {
    KeptExactlyWhen(fetch, fetch', eid, eid, limits);
    WalkFromAnchor(fetch, fetch', eid, eid, limits.depth);
    WalkStops(fetch, eid, {}, limits.depth);
    ContentWithNew(fetch, fetch', eid, []);
    assert [] + [eid] == [eid];
    ContentIdsCarry(fetch', [eid]);
    SuffixOfOne(eid, [eid], ContextIds(fetch', eid, limits.depth, limits.chars, limits.turns));
  }
}
