/** Reaction emails as answers (src/reaction_router.py), and the branch that tells
    them from replies (`_handle_reply` in src/chat_handlers.py). */
module ReactionRouter {
  import opened Base
  import opened GitNames
  import opened ChatDbs
  import opened ReplyRouter
  import TQ = TaskQueues
  import T = TaskTable
  import M = MessageTable

  const TAGS: seq<string> :=
    ["like", "heart", "thumbsup", "thumbsdown", "surprised", "laugh", "sad", "celebrate"]

  const PHRASES: seq<string> :=
    ["reacted to your message", "reacted to your post", "reacted to your email"]

  const POSITIVE: set<string> := {"like", "heart", "thumbsup", "celebrate", "surprised", "laugh"}

  // ---- the pattern --------------------------------------------------------

  const DOTTED_I: char := '\U{0130}'
  const DOTLESS_I: char := '\U{0131}'
  const LONG_S: char := '\U{017F}'
  const KELVIN: char := '\U{212A}'

  /** `c` matches the pattern character `p` whatever its case: the letters i, s and
      k have partners outside ASCII. */
  predicate Matches(c: char, p: char) {
    || LowerChar(c) == p
    || (p == 'i' && (c == DOTTED_I || c == DOTLESS_I)) || (p == 's' && c == LONG_S) || (p == 'k' && c == KELVIN)
  }

  predicate StartsWith(text: string, pattern: string) {
    |pattern| <= |text| && forall i | 0 <= i < |pattern| :: Matches(text[i], pattern[i])
  }

  /** `text` starts with this word in brackets. */
  predicate Bracketed(text: string, word: string) {
    && |text| >= |word| + 2 && text[0] == '[' && text[|word| + 1] == ']'
    && StartsWith(text[1..], word)
  }

  predicate AnyStart(text: string, patterns: seq<string>) {
    exists i | 0 <= i < |patterns| :: StartsWith(text, patterns[i])
  }

  /** One of the patterns occurs somewhere in `text`. */
  predicate Occurs(text: string, patterns: seq<string>) {
    AnyStart(text, patterns) || (text != [] && Occurs(text[1..], patterns))
  }

  function SkipSpaces(s: string): string {
    if s != [] && IsSpace(s[0]) then SkipSpaces(s[1..]) else s
  }

  /** The first of these words that `text` starts with in brackets. */
  function FirstBracketed(text: string, words: seq<string>): Option<string> {
    if words == [] then None
    else if Bracketed(text, words[0]) then Some(words[0])
    else FirstBracketed(text, words[1..])
  }

  function LowerOne(c: char): string {
    if c == DOTTED_I then ['i', '\U{0307}'] else if c == KELVIN then ['k'] else [LowerChar(c)]
  }

  /** `str.lower` on what the pattern lets into a tag. */
  function LowerTag(s: string): string {
    if s == [] then [] else LowerOne(s[0]) + LowerTag(s[1..])
  }

  function ExtractReaction(text: string): Option<string> {
    var body := SkipSpaces(text);
    var tag := FirstBracketed(body, TAGS);
    if tag.Some? && |body| >= |tag.value| + 2 && Occurs(body[|tag.value| + 2..], PHRASES)
    then Some(LowerTag(body[1..|tag.value| + 1]))
    else None
  }

  // ---- what is recorded ---------------------------------------------------

  function Verdict(reaction: string): string { if reaction in POSITIVE then "yes" else "no" }

  function ReactionBody(isAsk: bool, reaction: string): string {
    if isAsk then Verdict(reaction) else "[" + reaction + "]"
  }

  /** The body of the reply row an email with this text becomes. */
  function RecordedBody(isAsk: bool, text: string): string {
    var reaction := ExtractReaction(text);
    if reaction.Some? then ReactionBody(isAsk, reaction.value) else text
  }

  predicate IsAsk(t: M.Messages, id: int) { id in t.rows && t.rows[id].kind == M.Ask }

  datatype ReactionAck = RecordedAs(answer: string) | Noted

  /** `handle_reaction`. */
  method HandleReaction(db: ChatDb, agent: string, original: int, reaction: string, now: int)
    returns (ack: ReactionAck)
    modifies db`messages, db`events
    ensures var isAsk := original in old(db.messages).rows && old(db.messages).rows[original].kind == M.Ask;
            var answer := if reaction in POSITIVE then "yes" else "no";
            var body := if isAsk then answer else "[" + reaction + "]";
            && db.messages == M.Insert(old(db.messages), ReplyRow(agent, original, body, now)).0
            && ack == if isAsk then RecordedAs(answer) else Noted
    ensures db.events == old(db.events) + [LogEvent("message", now)]
  {
    if original in db.messages.rows && db.messages.rows[original].kind == M.Ask {
      var answer := if reaction in POSITIVE then "yes" else "no";
      var id := db.InsertMessage(ReplyRow(agent, original, answer, now));
      return RecordedAs(answer);
    }
    var id := db.InsertMessage(ReplyRow(agent, original, "[" + reaction + "]", now));
    ack := Noted;
  }

  datatype Handled = Reacted(ack: ReactionAck) | Replied(applied: Applied)

  /** `_handle_reply`: a reaction is recorded and never queues work; everything
      else goes through `apply_reply`. Either way one reply row is written. */
  method HandleReply(db: ChatDb, queue: Option<TQ.TaskQueue>, route: ChatReply, text: string, inReplyTo: string,
                     projectOf: Option<string>, here: string, classify: string -> Option<bool>,
                     worker: Option<int>, now: int)
    returns (r: Handled)
    modifies db`messages, db`events, if queue.Some? then {queue.value} else {}
    ensures db.messages ==
            M.Insert(old(db.messages),
                     ReplyRow(route.agent, route.original,
                              RecordedBody(IsAsk(old(db.messages), route.original), text), now)).0
    ensures db.events == old(db.events) + [LogEvent("message", now)] && db.outbound == old(db.outbound)
    ensures r.Reacted? <==> ExtractReaction(text).Some?
    ensures r.Reacted? ==> TableOf(queue) == old(TableOf(queue))
    ensures r.Replied? ==>
              ReplyDone(old(db.messages), route.original, projectOf, old(db.outbound), old(TableOf(queue)),
                        TableOf(queue), Strip(inReplyTo), route.agent, here, text, classify(text), worker, r.applied)
  {
    var reaction := ExtractReaction(text);
    if reaction.Some? {
      var ack := HandleReaction(db, route.agent, route.original, reaction.value, now);
      return Reacted(ack);
    }
    var applied := ApplyReply(db, queue, route.agent, route.original, text, Strip(inReplyTo), projectOf, here,
                              classify, worker, now);
    r := Replied(applied);
  }

  // ---- what counts as a reaction ------------------------------------------

  /** `c` is the letter `p` in lower or upper case, or what counts as its upper or
      lower case outside ASCII; or it is `p` itself. */
  ghost predicate EitherCase(c: char, p: char) {
    || c == p || ('a' <= p <= 'z' && c as int == p as int - 32)
    || (p == 'i' && (c == '\U{0130}' || c == '\U{0131}')) || (p == 's' && c == '\U{017F}')
    || (p == 'k' && c == '\U{212A}')
  }

  /** `text` has this pattern at `i`, in any case. */
  ghost predicate Reads(text: string, i: nat, pattern: string) {
    i + |pattern| <= |text| && forall k | 0 <= k < |pattern| :: EitherCase(text[i + k], pattern[k])
  }

  /** `text` is blanks, a tag in brackets at `i`, anything, and a phrase at `j`. */
  ghost predicate ReactionAt(text: string, i: nat, tag: string, j: nat) {
    && i + |tag| + 2 <= j <= |text| && tag in TAGS
    && (forall k | 0 <= k < i :: IsSpace(text[k]))
    && text[i] == '[' && Reads(text, i + 1, tag) && text[i + |tag| + 1] == ']'
    && exists p | 0 <= p < |PHRASES| :: Reads(text, j, PHRASES[p])
  }

  predicate NoUpper(s: string) { forall i | 0 <= i < |s| :: !IsUpper(s[i]) }

  lemma StartsIsReads(text: string, i: nat, pattern: string)
    requires i <= |text| && NoUpper(pattern)
    ensures StartsWith(text[i..], pattern) <==> Reads(text, i, pattern)
  {
    assert forall k | 0 <= k < |text| - i :: text[i..][k] == text[i + k];
  }

  lemma BracketsAreReads(text: string, i: nat, word: string)
    requires i <= |text| && NoUpper(word)
    ensures Bracketed(text[i..], word) <==>
              i + |word| + 2 <= |text| && text[i] == '[' && Reads(text, i + 1, word) && text[i + |word| + 1] == ']'
  {
    if i < |text| {
      assert text[i..][1..] == text[i + 1..];
      StartsIsReads(text, i + 1, word);
    }
  }

  lemma NoneUpper()
    ensures forall p | 0 <= p < |PHRASES| :: NoUpper(PHRASES[p])
    ensures forall w | w in TAGS :: NoUpper(w)
  {
  }

  lemma AnyReads(text: string, j: nat)
    requires j <= |text|
    ensures AnyStart(text[j..], PHRASES) <==> exists p | 0 <= p < |PHRASES| :: Reads(text, j, PHRASES[p])
  {
    NoneUpper();
    forall p | 0 <= p < |PHRASES| ensures StartsWith(text[j..], PHRASES[p]) <==> Reads(text, j, PHRASES[p]) {
      StartsIsReads(text, j, PHRASES[p]);
    }
  }

  /** The shape as the code looks for it. */
  ghost predicate FoundAt(text: string, i: nat, tag: string, j: nat) {
    && i + |tag| + 2 <= j <= |text| && tag in TAGS
    && (forall k | 0 <= k < i :: IsSpace(text[k]))
    && Bracketed(text[i..], tag)
    && AnyStart(text[j..], PHRASES)
  }

  lemma FoundIsReaction(text: string, i: nat, tag: string, j: nat)
    ensures FoundAt(text, i, tag, j) <==> ReactionAt(text, i, tag, j)
  {
    if i + |tag| + 2 <= j <= |text| && tag in TAGS {
      NoneUpper();
      BracketsAreReads(text, i, tag);
      AnyReads(text, j);
    }
  }

  lemma {:induction false} SkipSpacesMeaning(s: string)
    ensures var n := |s| - |SkipSpaces(s)|;
            && n >= 0 && SkipSpaces(s) == s[n..] && (forall k | 0 <= k < n :: IsSpace(s[k]))
            && (n < |s| ==> !IsSpace(s[n]))
  {
    if s != [] && IsSpace(s[0]) {
      SkipSpacesMeaning(s[1..]);
      assert forall k | 0 < k < |s| :: s[k] == s[1..][k - 1];
    }
  }

  lemma {:induction false} OccursMeaning(text: string, patterns: seq<string>)
    ensures Occurs(text, patterns) <==> exists j | 0 <= j <= |text| :: AnyStart(text[j..], patterns)
  {
    assert text[0..] == text;
    if text != [] {
      OccursMeaning(text[1..], patterns);
      forall j: int | 0 < j <= |text| ensures text[j..] == text[1..][j - 1..] {
      }
      if Occurs(text[1..], patterns) {
        var j :| 0 <= j <= |text[1..]| && AnyStart(text[1..][j..], patterns);
        assert text[j + 1..] == text[1..][j..];
      }
    }
  }

  predicate IsWord(s: string) { forall i | 0 <= i < |s| :: IsLower(s[i]) }

  lemma InsideWord(text: string, word: string, k: nat)
    requires IsWord(word) && Bracketed(text, word) && k < |word|
    ensures text[k + 1] != ']' && Matches(text[k + 1], word[k])
  {
    assert text[1..][k] == text[k + 1] && Matches(text[1..][k], word[k]);
  }

  lemma NotLonger(text: string, a: string, b: string)
    requires IsWord(b) && Bracketed(text, a) && Bracketed(text, b)
    ensures |b| <= |a|
  {
    if |a| < |b| { InsideWord(text, b, |a|); }
  }

  /** Two words that a text starts with in brackets are the same word. */
  lemma OneWord(text: string, a: string, b: string)
    requires IsWord(a) && IsWord(b) && Bracketed(text, a) && Bracketed(text, b)
    ensures a == b
  {
    NotLonger(text, a, b);
    NotLonger(text, b, a);
    forall i | 0 <= i < |a| ensures a[i] == b[i] {
      InsideWord(text, a, i);
      InsideWord(text, b, i);
    }
  }

  lemma {:induction false} FirstBracketedMeaning(text: string, words: seq<string>)
    ensures var r := FirstBracketed(text, words);
            && (r.Some? ==> r.value in words && Bracketed(text, r.value))
            && (r == None ==> forall w | w in words :: !Bracketed(text, w))
  {
    if words != [] { FirstBracketedMeaning(text, words[1..]); }
  }

  lemma TagsAreWords()
    ensures forall w | w in TAGS :: IsWord(w)
  {
  }

  lemma OneWayIn(text: string, i: nat, tag: string, j: nat)
    requires FoundAt(text, i, tag, j)
    ensures SkipSpaces(text) == text[i..] && FirstBracketed(text[i..], TAGS) == Some(tag)
    ensures Occurs(text[i..][|tag| + 2..], PHRASES)
  {
    SkipSpacesMeaning(text);
    assert text[i] == '[';
    var n := |text| - |SkipSpaces(text)|;
    assert n == i;
    FirstBracketedMeaning(text[i..], TAGS);
    TagsAreWords();
    OneWord(text[i..], FirstBracketed(text[i..], TAGS).value, tag);
    var rest := text[i..][|tag| + 2..];
    OccursMeaning(rest, PHRASES);
    assert rest[j - i - |tag| - 2..] == text[j..];
  }

  lemma ShapeIsExtracted(text: string, i: nat, tag: string, j: nat)
    requires ReactionAt(text, i, tag, j)
    ensures ExtractReaction(text) == Some(LowerTag(text[i + 1..i + |tag| + 1]))
  {
    FoundIsReaction(text, i, tag, j);
    OneWayIn(text, i, tag, j);
    assert text[i..][1..|tag| + 1] == text[i + 1..i + |tag| + 1];
  }

  lemma PhraseFrom(text: string, start: nat, patterns: seq<string>) returns (j: nat)
    requires start <= |text| && Occurs(text[start..], patterns)
    ensures start <= j <= |text| && AnyStart(text[j..], patterns)
  {
    var rest := text[start..];
    OccursMeaning(rest, patterns);
    var k :| 0 <= k <= |rest| && AnyStart(rest[k..], patterns);
    j := start + k;
    assert rest[k..] == text[j..];
  }

  lemma TagFound(body: string, words: seq<string>) returns (tag: string)
    requires FirstBracketed(body, words).Some?
    ensures FirstBracketed(body, words) == Some(tag) && tag in words && Bracketed(body, tag)
  {
    FirstBracketedMeaning(body, words);
    tag := FirstBracketed(body, words).value;
  }

  lemma ExtractedHasShape(text: string) returns (i: nat, tag: string, j: nat)
    requires ExtractReaction(text).Some?
    ensures ReactionAt(text, i, tag, j)
  {
    i, tag, j := ExtractedIsFound(text);
    FoundIsReaction(text, i, tag, j);
  }

  lemma ExtractedIsFound(text: string) returns (i: nat, tag: string, j: nat)
    requires ExtractReaction(text).Some?
    ensures FoundAt(text, i, tag, j)
  {
    SkipSpacesMeaning(text);
    var body := SkipSpaces(text);
    i := |text| - |body|;
    tag := TagFound(body, TAGS);
    assert body[|tag| + 2..] == text[i + |tag| + 2..];
    j := PhraseFrom(text, i + |tag| + 2, PHRASES);
  }

  /** An email is a reaction exactly when it has that shape, and then the reaction
      is its tag in lower case. */
  lemma ReactionExactlyWhen(text: string)
    ensures ExtractReaction(text).Some? <==> exists i: nat, tag, j: nat :: ReactionAt(text, i, tag, j)
    ensures forall i: nat, tag, j: nat | ReactionAt(text, i, tag, j) ::
              ExtractReaction(text) == Some(LowerTag(text[i + 1..i + |tag| + 1]))
  {
    forall i: nat, tag, j: nat | ReactionAt(text, i, tag, j)
      ensures ExtractReaction(text) == Some(LowerTag(text[i + 1..i + |tag| + 1]))
    {
      ShapeIsExtracted(text, i, tag, j);
    }
    if ExtractReaction(text).Some? {
      var i, tag, j := ExtractedHasShape(text);
    }
  }

  // ---- which reactions say yes --------------------------------------------

  /** The letters the pattern accepts and lower-casing leaves outside ASCII. */
  predicate IsOdd(c: char) { c == DOTTED_I || c == DOTLESS_I || c == LONG_S }

  ghost predicate IsPlain(s: string) { forall i | 0 <= i < |s| :: !IsOdd(s[i]) }

  lemma {:induction false} PlainTagLowers(s: string, word: string)
    requires IsWord(word) && |s| == |word| && StartsWith(s, word) && IsPlain(s)
    ensures LowerTag(s) == word
  {
    if s != [] {
      forall i | 0 <= i < |s| - 1 ensures s[1..][i] == s[i + 1] && Matches(s[i + 1], word[i + 1]) {
      }
      PlainTagLowers(s[1..], word[1..]);
      assert word == [word[0]] + word[1..];
    }
  }

  lemma {:induction false} OddTagStaysOdd(s: string)
    requires !IsPlain(s)
    ensures !IsWord(LowerTag(s))
  {
    var head, rest := LowerOne(s[0]), LowerTag(s[1..]);
    assert LowerTag(s) == head + rest;
    if IsOdd(s[0]) {
      var k := |head| - 1;
      assert (head + rest)[k] == head[k] && !IsLower(head[k]);
    } else {
      OddTagStaysOdd(s[1..]);
      var k :| 0 <= k < |rest| && !IsLower(rest[k]);
      assert (head + rest)[|head| + k] == rest[k];
    }
  }

  /** A tag is positive unless it is one of the two negative ones. */
  lemma PositiveOrNot(tag: string)
    requires tag in TAGS
    ensures tag in POSITIVE <==> tag != "thumbsdown" && tag != "sad"
  {
  }

  /** A reaction answers a question with "yes" exactly when its tag is not a
      negative one and is spelled without the letters that lower-casing does not
      bring back to ASCII, and else with "no"; anything else gets the tag. */
  lemma SaysYesExactlyWhen(text: string, i: nat, tag: string, j: nat)
    requires ReactionAt(text, i, tag, j)
    ensures var plain := IsPlain(text[i + 1..i + |tag| + 1]);
            && RecordedBody(true, text) == (if tag != "thumbsdown" && tag != "sad" && plain then "yes" else "no")
            && (plain ==> RecordedBody(false, text) == "[" + tag + "]")
  {
    ShapeIsExtracted(text, i, tag, j);
    TagsAreWords();
    PositiveOrNot(tag);
    var spelled := text[i + 1..i + |tag| + 1];
    FoundIsReaction(text, i, tag, j);
    assert forall k | 0 <= k < |tag| :: text[i..][1..][k] == spelled[k];
    if IsPlain(spelled) {
      PlainTagLowers(spelled, tag);
    } else {
      OddTagStaysOdd(spelled);
      assert forall w | w in POSITIVE :: w in TAGS;
    }
  }

  /** Any other text is recorded as it is. */
  lemma PlainReplyIsKept(text: string, isAsk: bool)
    requires forall i: nat, tag, j: nat :: !ReactionAt(text, i, tag, j)
    ensures RecordedBody(isAsk, text) == text
  {
    ReactionExactlyWhen(text);
  }
}
