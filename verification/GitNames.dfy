/** The pure string functions of src/git_ops.py: slugs, task branch names and
    the schema check that decides whether a recorded name may be reused. */
module GitNames {

  const MAX_SLUG: nat := 40
  const BRANCH_PREFIX: string := "claude/task-"

  predicate IsDigit(c: char) { '0' <= c <= '9' }

  predicate IsLower(c: char) { 'a' <= c <= 'z' }

  predicate IsUpper(c: char) { 'A' <= c <= 'Z' }

  predicate IsAlnum(c: char) { IsDigit(c) || IsLower(c) || IsUpper(c) }

  /** One character of the class [a-z0-9-]. */
  predicate IsSlugChar(c: char) { IsDigit(c) || IsLower(c) || c == '-' }

  function LowerChar(c: char): char {
    if IsUpper(c) then (c as int + 32) as char else c
  }

  function Lower(s: string): (r: string)
    ensures |r| == |s|
    ensures forall i | 0 <= i < |s| :: r[i] == LowerChar(s[i])
  {
    seq(|s|, i requires 0 <= i < |s| => LowerChar(s[i]))
  }

  /** Replace every maximal run of non-alphanumerics by one hyphen; `inRun` says
      that the previous character already belonged to such a run. */
  function Collapse(s: string, inRun: bool): string {
    if s == [] then []
    else if IsAlnum(s[0]) then [s[0]] + Collapse(s[1..], false)
    else if inRun then Collapse(s[1..], true)
    else ['-'] + Collapse(s[1..], true)
  }

  function LeftStrip(s: string): string {
    if s != [] && s[0] == '-' then LeftStrip(s[1..]) else s
  }

  function RightStrip(s: string): string {
    if s != [] && s[|s| - 1] == '-' then RightStrip(s[..|s| - 1]) else s
  }

  function Take(s: string, n: nat): string {
    if |s| <= n then s else s[..n]
  }

  /** The slug of a task body (`slugify` with its default length). */
  function Slugify(body: string): string {
    var slug := RightStrip(Take(Lower(RightStrip(LeftStrip(Collapse(body, false)))), MAX_SLUG));
    if slug == [] then "task" else slug
  }

  /** No two hyphens next to each other. */
  ghost predicate NoDouble(s: string) {
    forall i | 0 <= i < |s| - 1 :: s[i] != '-' || s[i + 1] != '-'
  }

  /** What a slug looks like, said without running `Slugify`. */
  ghost predicate SlugShaped(s: string) {
    && 0 < |s| <= MAX_SLUG
    && (forall i | 0 <= i < |s| :: IsSlugChar(s[i]))
    && s[0] != '-' && s[|s| - 1] != '-'
    && NoDouble(s)
  }

  lemma {:induction false} CollapseShape(s: string, inRun: bool)
    ensures NoDouble(Collapse(s, inRun))
    ensures forall i | 0 <= i < |Collapse(s, inRun)| ::
              IsAlnum(Collapse(s, inRun)[i]) || Collapse(s, inRun)[i] == '-'
    ensures inRun && Collapse(s, inRun) != [] ==> Collapse(s, inRun)[0] != '-'
  {
    if s == [] {
    } else if IsAlnum(s[0]) {
      CollapseShape(s[1..], false);
    } else {
      CollapseShape(s[1..], true);
    }
  }

  lemma {:induction false} LeftStripShape(s: string)
    ensures LeftStrip(s) != [] ==> LeftStrip(s)[0] != '-'
    ensures |LeftStrip(s)| <= |s| && LeftStrip(s) == s[|s| - |LeftStrip(s)|..]
  {
    if s != [] && s[0] == '-' {
      LeftStripShape(s[1..]);
    }
  }

  lemma {:induction false} RightStripShape(s: string)
    ensures RightStrip(s) != [] ==> RightStrip(s)[|RightStrip(s)| - 1] != '-'
    ensures |RightStrip(s)| <= |s| && RightStrip(s) == s[..|RightStrip(s)|]
  {
    if s != [] && s[|s| - 1] == '-' {
      RightStripShape(s[..|s| - 1]);
    }
  }

  /** What a contiguous piece of a collapsed string keeps. */
  ghost predicate Plain(s: string) {
    && NoDouble(s)
    && forall i | 0 <= i < |s| :: IsAlnum(s[i]) || s[i] == '-'
  }

  lemma PlainSlice(s: string, lo: nat, hi: nat)
    requires lo <= hi <= |s| && Plain(s)
    ensures Plain(s[lo..hi])
  {
    var t := s[lo..hi];
    forall i | 0 <= i < |t| - 1 ensures t[i] != '-' || t[i + 1] != '-' {
      assert t[i] == s[lo + i] && t[i + 1] == s[lo + i + 1];
    }
  }

  lemma PlainLower(s: string)
    requires Plain(s)
    ensures Plain(Lower(s)) && forall i | 0 <= i < |s| :: IsSlugChar(Lower(s)[i])
  {
    var t := Lower(s);
    forall i | 0 <= i < |t| - 1 ensures t[i] != '-' || t[i + 1] != '-' {
      assert s[i] != '-' || s[i + 1] != '-';
    }
  }

  /** Stripping both ends of a collapsed string leaves no hyphen at either. */
  lemma TrimShape(s: string)
    requires Plain(s)
    ensures Plain(RightStrip(LeftStrip(s)))
    ensures RightStrip(LeftStrip(s)) != [] ==> RightStrip(LeftStrip(s))[0] != '-'
  {
    LeftStripShape(s);
    var left := LeftStrip(s);
    PlainSlice(s, |s| - |left|, |s|);
    assert s[|s| - |left|..|s|] == left;
    RightStripShape(left);
    PlainSlice(left, 0, |RightStrip(left)|);
  }

  /** Every slug has the documented shape. */
  lemma SlugifyShaped(body: string)
    ensures SlugShaped(Slugify(body))
  {
    var collapsed := Collapse(body, false);
    CollapseShape(body, false);
    TrimShape(collapsed);
    var lowered := Lower(RightStrip(LeftStrip(collapsed)));
    PlainLower(RightStrip(LeftStrip(collapsed)));
    var cut := Take(lowered, MAX_SLUG);
    RightStripShape(cut);
    PlainSlice(lowered, 0, |RightStrip(cut)|);
    assert RightStrip(cut) == lowered[0..|RightStrip(cut)|];
  }

  lemma {:induction false} CollapseFixes(s: string, inRun: bool)
    requires forall i | 0 <= i < |s| :: IsSlugChar(s[i])
    requires NoDouble(s)
    requires inRun && s != [] ==> s[0] != '-'
    ensures Collapse(s, inRun) == s
  {
    if s != [] {
      var rest := s[1..];
      assert forall i | 0 <= i < |rest| :: rest[i] == s[i + 1];
      assert rest != [] && s[0] == '-' ==> rest[0] != '-' by {
        if rest != [] { assert s[0] != '-' || s[0 + 1] != '-'; }
      }
      CollapseFixes(rest, !IsAlnum(s[0]));
      assert s == [s[0]] + rest;
    }
  }

  lemma SlugIsFixed(s: string)
    requires SlugShaped(s)
    ensures Slugify(s) == s
  {
    CollapseFixes(s, false);
    assert LeftStrip(s) == s && RightStrip(s) == s;
    assert Lower(s) == s by {
      assert forall i | 0 <= i < |s| :: IsSlugChar(s[i]) && Lower(s)[i] == s[i];
    }
    assert Take(s, MAX_SLUG) == s;
  }

  /** The slugs are exactly the fixed points of `Slugify`. */
  lemma SlugIffFixed(s: string)
    ensures SlugShaped(s) <==> Slugify(s) == s
  {
    SlugifyShaped(s);
    if SlugShaped(s) { SlugIsFixed(s); }
  }

  /** Slugifying twice is slugifying once. */
  lemma SlugifyIdempotent(body: string)
    ensures Slugify(Slugify(body)) == Slugify(body)
  {
    SlugifyShaped(body);
    SlugIffFixed(Slugify(body));
  }

  /** The letters and digits of a string. */
  function Alnums(s: string): string {
    if s == [] then [] else Alnums(s[..|s| - 1]) + if IsAlnum(s[|s| - 1]) then [s[|s| - 1]] else []
  }

  lemma {:induction false} AlnumsAppend(a: string, b: string)
    ensures Alnums(a + b) == Alnums(a) + Alnums(b)
  {
    if b == [] {
      assert a + b == a;
    } else {
      AlnumsAppend(a, b[..|b| - 1]);
      assert (a + b)[..|a + b| - 1] == a + b[..|b| - 1];
    }
  }

  lemma AlnumsFront(s: string)
    requires s != []
    ensures Alnums(s) == (if IsAlnum(s[0]) then [s[0]] else []) + Alnums(s[1..])
  {
    AlnumsAppend([s[0]], s[1..]);
    assert [s[0]] + s[1..] == s && Alnums([s[0]][..0]) == [];
  }

  lemma {:induction false} CollapseKeepsAlnums(s: string, inRun: bool)
    ensures Alnums(Collapse(s, inRun)) == Alnums(s)
  {
    if s != [] {
      AlnumsFront(s);
      CollapseKeepsAlnums(s[1..], !IsAlnum(s[0]));
      if IsAlnum(s[0]) || !inRun { AlnumsFront(Collapse(s, inRun)); }
    }
  }

  lemma {:induction false} StripsKeepAlnums(s: string)
    ensures Alnums(LeftStrip(s)) == Alnums(s) == Alnums(RightStrip(s))
  {
    if s != [] {
      if s[0] == '-' {
        AlnumsFront(s);
        StripsKeepAlnums(s[1..]);
      }
      if s[|s| - 1] == '-' { StripsKeepAlnums(s[..|s| - 1]); }
    }
  }

  lemma {:induction false} LowerKeepsAlnums(s: string)
    ensures Alnums(Lower(s)) == Lower(Alnums(s))
  {
    if s != [] {
      LowerKeepsAlnums(s[..|s| - 1]);
      assert Lower(s)[..|s| - 1] == Lower(s[..|s| - 1]);
    }
  }

  /** A slug says how its body begins: its letters and digits are the first ones
      of the body, in order and in lower case; a body without any gives "task". */
  lemma SlugSpellsBody(body: string)
    ensures Alnums(body) != [] ==> Alnums(Slugify(body)) <= Lower(Alnums(body))
    ensures Alnums(body) == [] ==> Slugify(body) == "task"
  {
    var collapsed := Collapse(body, false);
    var trimmed := RightStrip(LeftStrip(collapsed));
    var lowered := Lower(trimmed);
    var cut := Take(lowered, MAX_SLUG);
    CollapseKeepsAlnums(body, false);
    StripsKeepAlnums(collapsed);
    StripsKeepAlnums(LeftStrip(collapsed));
    LowerKeepsAlnums(trimmed);
    AlnumsAppend(cut, lowered[|cut|..]);
    assert cut + lowered[|cut|..] == lowered;
    StripsKeepAlnums(cut);
    SlugFirst(body);
  }

  /** A slug other than the default starts with a letter or digit of the body. */
  lemma SlugFirst(body: string)
    ensures var slug := RightStrip(Take(Lower(RightStrip(LeftStrip(Collapse(body, false)))), MAX_SLUG));
            slug == [] <==> Alnums(body) == []
  {
    var collapsed := Collapse(body, false);
    var trimmed := RightStrip(LeftStrip(collapsed));
    CollapseShape(body, false);
    TrimShape(collapsed);
    CollapseKeepsAlnums(body, false);
    StripsKeepAlnums(collapsed);
    StripsKeepAlnums(LeftStrip(collapsed));
    var cut := Take(Lower(trimmed), MAX_SLUG);
    StripsKeepAlnums(cut);
    if trimmed != [] {
      assert IsAlnum(trimmed[0]) && IsAlnum(cut[0]);
      AlnumsFront(trimmed);
      AlnumsFront(cut);
    }
  }

  // ---- a slug word by word ------------------------------------------------

  /** Length of the run of letters and digits at the front. */
  function WordLength(s: string): (n: nat)
    ensures n <= |s|
    ensures forall i | 0 <= i < n :: IsAlnum(s[i])
    ensures n < |s| ==> !IsAlnum(s[n])
  {
    if s != [] && IsAlnum(s[0]) then 1 + WordLength(s[1..]) else 0
  }

  /** The maximal runs of letters and digits, in order. */
  function Words(s: string): seq<string>
    decreases |s|
  {
    if s == [] then []
    else if !IsAlnum(s[0]) then Words(s[1..])
    else [s[..WordLength(s)]] + Words(s[WordLength(s)..])
  }

  /** `"-".join(words)`. */
  function Join(words: seq<string>): string {
    if words == [] then "" else if |words| == 1 then words[0] else words[0] + "-" + Join(words[1..])
  }

  lemma JoinOneMore(word: string, words: seq<string>)
    ensures Join([word] + words) == if words == [] then word else word + "-" + Join(words)
  {
    assert ([word] + words)[1..] == words;
  }

  /** The hyphen a collapsed string ends with when its last word is not at its end. */
  function Trail(s: string): string { if s != [] && !IsAlnum(s[|s| - 1]) then "-" else "" }

  lemma {:induction false} NoWords(s: string)
    requires Words(s) == [] && s != []
    ensures !IsAlnum(s[|s| - 1])
    decreases |s|
  {
    if |s| > 1 && !IsAlnum(s[0]) { NoWords(s[1..]); }
  }

  lemma {:induction false} CollapseWord(s: string, inRun: bool)
    ensures var n := WordLength(s);
            Collapse(s, inRun) == s[..n] + Collapse(s[n..], n == 0 && inRun)
  {
    if s != [] && IsAlnum(s[0]) {
      var rest := s[1..];
      var m := WordLength(rest);
      CollapseWord(rest, false);
      assert s[..1 + m] == [s[0]] + rest[..m] && s[1 + m..] == rest[m..];
    } else {
      assert s[0..] == s;
    }
  }

  lemma HyphenFirst(s: string)
    requires s != [] && !IsAlnum(s[0])
    ensures Collapse(s, false) == "-" + Collapse(s, true)
  {
  }

  /** What a collapsed string is: the words joined by hyphens, and one more hyphen
      when something else follows the last of them. */
  lemma {:induction false} CollapseJoins(s: string)
    ensures Collapse(s, true) == if Words(s) == [] then "" else Join(Words(s)) + Trail(s)
    decreases |s|, 0
  {
    if s == [] {
    } else if !IsAlnum(s[0]) {
      CollapseJoins(s[1..]);
    } else {
      var n := WordLength(s);
      CollapseWord(s, true);
      WordThenRest(s, s[..n], s[n..]);
    }
  }

  lemma {:induction false} WordThenRest(s: string, word: string, rest: string)
    requires s == word + rest && word != [] && IsAlnum(word[|word| - 1]) && (rest != [] ==> !IsAlnum(rest[0]))
    requires Words(s) == [word] + Words(rest) && Collapse(s, true) == word + Collapse(rest, false)
    ensures Collapse(s, true) == Join(Words(s)) + Trail(s)
    decreases |rest|, 1
  {
    JoinOneMore(word, Words(rest));
    if rest == [] {
      assert s == word;
    } else {
      HyphenFirst(rest);
      CollapseJoins(rest);
      assert Trail(s) == Trail(rest);
      if Words(rest) == [] { NoWords(rest); }
    }
  }

  lemma {:induction false} JoinEnds(s: string)
    requires Words(s) != []
    ensures Join(Words(s)) != "" && Join(Words(s))[|Join(Words(s))| - 1] != '-'
    decreases |s|
  {
    if !IsAlnum(s[0]) {
      JoinEnds(s[1..]);
    } else {
      var n := WordLength(s);
      JoinOneMore(s[..n], Words(s[n..]));
      if Words(s[n..]) != [] { JoinEnds(s[n..]); }
    }
  }

  lemma StripTrail(joined: string, trail: string)
    requires trail == "" || trail == "-"
    requires joined != "" ==> joined[|joined| - 1] != '-'
    requires joined == "" ==> trail == ""
    ensures RightStrip(joined + trail) == joined
  {
    assert joined + "" == joined && (joined + "-")[..|joined|] == joined;
  }

  lemma TrimmedJoins(body: string)
    ensures RightStrip(LeftStrip(Collapse(body, false))) == Join(Words(body))
  {
    CollapseJoins(body);
    CollapseShape(body, true);
    assert LeftStrip(Collapse(body, false)) == Collapse(body, true) by {
      if body != [] && !IsAlnum(body[0]) { HyphenFirst(body); }
    }
    if Words(body) != [] {
      JoinEnds(body);
      StripTrail(Join(Words(body)), Trail(body));
    }
  }

  lemma StripOne(s: string)
    requires Plain(s) && (s != "" ==> s[0] != '-')
    ensures RightStrip(s) == if s != "" && s[|s| - 1] == '-' then s[..|s| - 1] else s
  {
    if s != "" && s[|s| - 1] == '-' {
      assert s[..|s| - 1][|s| - 2] == s[|s| - 2];
    }
  }

  /** A slug is the body's words in lower case, joined by hyphens and cut at 40
      characters, less the hyphen a cut may leave at the end; without words it is
      the default. */
  lemma SlugJoinsWords(body: string)
    ensures var joined := Lower(Join(Words(body)));
            var cut := if |joined| <= 40 then joined else joined[..40];
            Slugify(body) ==
            if cut == "" then "task" else if cut[|cut| - 1] == '-' then cut[..|cut| - 1] else cut
  {
    TrimmedJoins(body);
    CollapseShape(body, false);
    TrimShape(Collapse(body, false));
    var words := Join(Words(body));
    PlainLower(words);
    var cut := Take(Lower(words), MAX_SLUG);
    PlainSlice(Lower(words), 0, |cut|);
    assert cut == Lower(words)[0..|cut|];
    StripOne(cut);
  }

  // ---- decimal task ids -------------------------------------------------

  function DigitChar(d: nat): char
    requires d < 10
  {
    (d + '0' as int) as char
  }

  /** `str(n)` for a task id. */
  function Decimal(n: nat): string {
    if n < 10 then [DigitChar(n)] else Decimal(n / 10) + [DigitChar(n % 10)]
  }

  function ParseDecimal(s: string): nat
    requires forall i | 0 <= i < |s| :: IsDigit(s[i])
  {
    if s == [] then 0
    else
      assert IsDigit(s[|s| - 1]);
      ParseDecimal(s[..|s| - 1]) * 10 + (s[|s| - 1] as int - '0' as int)
  }

  lemma {:induction false} ParseOfDecimal(n: nat)
    ensures |Decimal(n)| > 0
    ensures forall i | 0 <= i < |Decimal(n)| :: IsDigit(Decimal(n)[i])
    ensures ParseDecimal(Decimal(n)) == n
    ensures Decimal(n)[0] == '0' ==> n == 0 && |Decimal(n)| == 1
  {
    var s := Decimal(n);
    if n < 10 {
      assert s[..|s| - 1] == [];
    } else {
      ParseOfDecimal(n / 10);
      assert s[..|s| - 1] == Decimal(n / 10);
    }
  }

  // ---- branch names -----------------------------------------------------

  /** `claude/task-<id>-<slug>`. */
  function TaskBranchName(id: nat, body: string): string {
    BRANCH_PREFIX + Decimal(id) + "-" + Slugify(body)
  }

  /** Length of the longest run of digits at the front. */
  function DigitRun(s: string): (n: nat)
    ensures n <= |s|
    ensures forall i | 0 <= i < n :: IsDigit(s[i])
    ensures n < |s| ==> !IsDigit(s[n])
  {
    if s != [] && IsDigit(s[0]) then 1 + DigitRun(s[1..]) else 0
  }

  function DropNewline(s: string): string {
    if s != [] && s[|s| - 1] == '\n' then s[..|s| - 1] else s
  }

  /** The schema check. Its `$` also matches before one final newline. */
  predicate IsValidTaskBranch(name: string) {
    && BRANCH_PREFIX <= name
    && var rest := name[|BRANCH_PREFIX|..];
       var run := DigitRun(rest);
       && 0 < run < |rest|
       && rest[run] == '-'
       && var tail := DropNewline(rest[run + 1..]);
          && tail != []
          && forall i | 0 <= i < |tail| :: IsSlugChar(tail[i])
  }

  /** The pieces of a name that passes the schema check. */
  ghost predicate SchemaShaped(name: string, digits: string, slug: string, end: string) {
    && name == "claude/task-" + (digits + ("-" + (slug + end))) && (end == "" || end == "\n")
    && digits != "" && (forall i | 0 <= i < |digits| :: '0' <= digits[i] <= '9')
    && slug != ""
    && (forall i | 0 <= i < |slug| :: 'a' <= slug[i] <= 'z' || '0' <= slug[i] <= '9' || slug[i] == '-')
  }

  /** The check accepts exactly the names of that shape. */
  lemma ValidExactlyWhen(name: string)
    ensures IsValidTaskBranch(name) <==> exists digits, slug, end :: SchemaShaped(name, digits, slug, end)
  {
    if IsValidTaskBranch(name) { var digits, slug, end := ValidHasShape(name); }
    if digits, slug, end :| SchemaShaped(name, digits, slug, end) {
      ShapeIsValid(name, digits, slug, end);
    }
  }

  lemma ValidHasShape(name: string) returns (digits: string, slug: string, end: string)
    requires IsValidTaskBranch(name)
    ensures SchemaShaped(name, digits, slug, end)
  {
    var rest := name[|BRANCH_PREFIX|..];
    var run := DigitRun(rest);
    digits, slug := rest[..run], DropNewline(rest[run + 1..]);
    end := NewlineOf(rest[run + 1..]);
    InThree(rest, run);
    assert name == "claude/task-" + rest;
  }

  lemma NewlineOf(s: string) returns (end: string)
    ensures s == DropNewline(s) + end && (end == "" || end == "\n")
  {
    end := if s != [] && s[|s| - 1] == '\n' then "\n" else "";
  }

  lemma InThree(s: string, i: nat)
    requires i < |s|
    ensures s == s[..i] + ([s[i]] + s[i + 1..])
  {
  }

  lemma ShapeIsValid(name: string, digits: string, slug: string, end: string)
    requires SchemaShaped(name, digits, slug, end)
    ensures IsValidTaskBranch(name)
  {
    var rest, tail := name[|BRANCH_PREFIX|..], slug + end;
    assert rest == digits + ("-" + tail);
    DigitRunOf(digits, "-" + tail);
    assert rest[|digits| + 1..] == tail;
    NewlineDropped(slug, end);
  }

  lemma NewlineDropped(slug: string, end: string)
    requires slug != "" && slug[|slug| - 1] != '\n' && (end == "" || end == "\n")
    ensures DropNewline(slug + end) == slug
  {
    if end == "" { assert slug + end == slug; } else { assert (slug + end)[..|slug|] == slug; }
  }

  /** The task id written into a schema-shaped name. */
  function TaskIdOf(name: string): nat
    requires BRANCH_PREFIX <= name
  {
    var rest := name[|BRANCH_PREFIX|..];
    assert forall i | 0 <= i < DigitRun(rest) :: IsDigit(rest[..DigitRun(rest)][i]);
    ParseDecimal(rest[..DigitRun(rest)])
  }

  lemma {:induction false} DigitRunOf(digits: string, tail: string)
    requires forall i | 0 <= i < |digits| :: IsDigit(digits[i])
    requires tail != [] && !IsDigit(tail[0])
    ensures DigitRun(digits + tail) == |digits|
  {
    if digits != [] {
      DigitRunOf(digits[1..], tail);
      assert (digits + tail)[1..] == digits[1..] + tail;
    } else {
      assert digits + tail == tail;
    }
  }

  /** Every generated name passes the check and carries its task id. */
  lemma TaskBranchNameReadsBack(id: nat, body: string)
    ensures IsValidTaskBranch(TaskBranchName(id, body))
    ensures TaskIdOf(TaskBranchName(id, body)) == id
  {
    var name := TaskBranchName(id, body);
    var slug := Slugify(body);
    var rest := name[|BRANCH_PREFIX|..];
    SlugifyShaped(body);
    ParseOfDecimal(id);
    assert rest == Decimal(id) + ("-" + slug);
    DigitRunOf(Decimal(id), "-" + slug);
    assert rest[..DigitRun(rest)] == Decimal(id);
    assert rest[DigitRun(rest) + 1..] == slug;
  }

  /** Its pieces are the decimal task id and the slug of the body. */
  lemma TaskBranchNameSays(id: nat, body: string)
    ensures SchemaShaped(TaskBranchName(id, body), Decimal(id), Slugify(body), "")
  {
    SlugifyShaped(body);
    ParseOfDecimal(id);
    var digits, slug := Decimal(id), Slugify(body);
    assert BRANCH_PREFIX + digits + "-" + slug == BRANCH_PREFIX + (digits + ("-" + slug));
    assert slug + "" == slug;
  }

  /** Two tasks never share a branch name, whatever their bodies. */
  lemma TaskBranchNameInjective(id: nat, body: string, id': nat, body': string)
    requires TaskBranchName(id, body) == TaskBranchName(id', body')
    ensures id == id'
  {
    TaskBranchNameReadsBack(id, body);
    TaskBranchNameReadsBack(id', body');
  }

  // ---- str.strip() ------------------------------------------------------

  predicate IsSpace(c: char) {
    c == ' ' || '\t' <= c <= '\r' || 28 as char <= c <= 31 as char
  }

  function Strip(s: string): string {
    if s != [] && IsSpace(s[0]) then Strip(s[1..])
    else if s != [] && IsSpace(s[|s| - 1]) then Strip(s[..|s| - 1])
    else s
  }

  lemma {:induction false} StripEdges(s: string)
    ensures Strip(s) != [] ==> !IsSpace(Strip(s)[0]) && !IsSpace(Strip(s)[|Strip(s)| - 1])
    ensures Strip(Strip(s)) == Strip(s)
  {
    if s != [] && IsSpace(s[0]) {
      StripEdges(s[1..]);
    } else if s != [] && IsSpace(s[|s| - 1]) {
      StripEdges(s[..|s| - 1]);
    }
  }

  ghost predicate StrippedTo(s: string, i: int, j: int) {
    && 0 <= i <= j <= |s| && Strip(s) == s[i..j] && (forall k | 0 <= k < i || j <= k < |s| :: IsSpace(s[k]))
    && (i < j ==> !IsSpace(s[i]) && !IsSpace(s[j - 1]))
  }

  lemma StrippedFront(s: string, i: int, j: int)
    requires s != [] && IsSpace(s[0]) && StrippedTo(s[1..], i, j)
    ensures StrippedTo(s, i + 1, j + 1)
  {
    assert s[1..][i..j] == s[i + 1..j + 1];
    assert forall k | 0 < k < |s| :: s[k] == s[1..][k - 1];
  }

  lemma StrippedBack(s: string, i: int, j: int)
    requires s != [] && !IsSpace(s[0]) && IsSpace(s[|s| - 1]) && StrippedTo(s[..|s| - 1], i, j)
    ensures StrippedTo(s, i, j)
  {
    assert s[..|s| - 1][i..j] == s[i..j];
  }

  lemma StrippedBlank(s: string, i: int, j: int)
    requires StrippedTo(s, i, j)
    ensures Strip(s) == "" <==> forall k | 0 <= k < |s| :: IsSpace(s[k])
  {
    if i < j { assert !IsSpace(s[i]); }
  }

  /** Stripping takes blanks off both ends and nothing else. */
  lemma {:induction false} StripExactly(s: string)
    ensures exists i, j :: StrippedTo(s, i, j)
    ensures Strip(s) == "" <==> forall k | 0 <= k < |s| :: IsSpace(s[k])
  {
    if s != [] && IsSpace(s[0]) {
      StripExactly(s[1..]);
      var i, j :| StrippedTo(s[1..], i, j);
      StrippedFront(s, i, j);
    } else if s != [] && IsSpace(s[|s| - 1]) {
      StripExactly(s[..|s| - 1]);
      var i, j :| StrippedTo(s[..|s| - 1], i, j);
      StrippedBack(s, i, j);
    } else {
      assert s[0..|s|] == s;
      assert StrippedTo(s, 0, |s|);
    }
    var i, j :| StrippedTo(s, i, j);
    StrippedBlank(s, i, j);
  }

  /** A generated name has nothing to strip. */
  lemma TaskBranchNameStripped(id: nat, body: string)
    ensures Strip(TaskBranchName(id, body)) == TaskBranchName(id, body)
  {
    SlugifyShaped(body);
    var name := TaskBranchName(id, body);
    var slug := Slugify(body);
    assert name[|name| - 1] == slug[|slug| - 1] && IsSlugChar(slug[|slug| - 1]);
    assert name[0] == 'c';
  }
}
