/**
 The `@username` scanner: a left-to-right, non-overlapping scan with a look-behind, then trimming,
 lowercasing and first-occurrence deduplication.
 */
module Mentions {
  import opened Common
  import opened Text

  predicate IsStart(c: char) {
    'A' <= c <= 'Z' || 'a' <= c <= 'z' || '0' <= c <= '9' || c == '_'
  }

  predicate IsName(c: char) {
    IsStart(c) || c == '.' || c == '-'
  }

  predicate IsPunctuation(c: char) {
    c == '.' || c == '-' || c == '_'
  }

  const MAX_NAME := 64

  /** The look-behind: not after a word character, '@' or '.'. */
  predicate Boundary(text: string, p: int)
    requires 0 <= p < |text|
  {
    p == 0 || !(IsStart(text[p - 1]) || text[p - 1] == '@' || text[p - 1] == '.')
  }

  /** A mention starts at position `p`, whatever stands elsewhere in the text. */
  predicate MentionAt(text: string, p: int) {
    0 <= p && p + 1 < |text| && text[p] == '@' && Boundary(text, p) && IsStart(text[p + 1])
  }

  /** The end of the longest run of name characters from `i`, at most `room` long. */
  function NameEnd(text: string, i: nat, room: nat): (e: nat)
    requires i <= |text|
    ensures i <= e <= |text| && e <= i + room
    ensures forall j :: i <= j < e ==> IsName(text[j])
    ensures e == |text| || e == i + room || !IsName(text[e])
    decreases |text| - i
  {
    if room == 0 || i == |text| || !IsName(text[i]) then i else NameEnd(text, i + 1, room - 1)
  }

  /** `rstrip(".-_")`. */
  function Trim(s: string): (t: string)
    ensures t <= s
    ensures t == [] || !IsPunctuation(t[|t| - 1])
    ensures forall i :: |t| <= i < |s| ==> IsPunctuation(s[i])
  {
    if s != [] && IsPunctuation(s[|s| - 1]) then Trim(s[..|s| - 1]) else s
  }

  function NameIn(text: string, i: nat, end: nat): string
    requires i <= end <= |text|
  {
    Lower(Trim(text[i..end]))
  }

  /** The token of a mention; empty when nothing but punctuation is left. */
  function TokenAt(text: string, p: int): string
    requires MentionAt(text, p)
  {
    NameIn(text, p + 1, NameEnd(text, p + 1, MAX_NAME))
  }

  /** For each of the first `n` positions, the token of the mention there, or "" when there is none. */
  function TokensUpTo(text: string, n: nat): (at: seq<string>)
    requires n <= |text|
    ensures |at| == n
  {
    if n == 0 then [] else TokensUpTo(text, n - 1) + [if MentionAt(text, n - 1) then TokenAt(text, n - 1) else ""]
  }

  lemma {:induction false} TokensUpToAt(text: string, n: nat, p: nat)
    requires p < n <= |text|
    ensures TokensUpTo(text, n)[p] == if MentionAt(text, p) then TokenAt(text, p) else ""
  {
    if p < n - 1 {
      TokensUpToAt(text, n - 1, p);
    }
  }

  function TokensAt(text: string): (at: seq<string>)
    ensures |at| == |text|
  {
    TokensUpTo(text, |text|)
  }

  /** The non-empty strings from index `p` on, in order. */
  function NonEmpty(at: seq<string>, p: nat): seq<string>
    requires p <= |at|
    decreases |at| - p
  {
    if p == |at| then []
    else if at[p] != "" then [at[p]] + NonEmpty(at, p + 1)
    else NonEmpty(at, p + 1)
  }

  /** The tokens of all mention positions from `p` on, in order. */
  function TokensFrom(text: string, p: nat): seq<string>
    requires p <= |text|
  {
    NonEmpty(TokensAt(text), p)
  }

  /** First occurrences, in order. */
  function Dedup(s: seq<string>): (r: seq<string>)
    ensures forall x :: x in r <==> x in s
    ensures Distinct(r)
  {
    if s == [] then [] else
    var init, x := Dedup(s[..|s| - 1]), s[|s| - 1];
    assert s == s[..|s| - 1] + [x];
    if x in init then init else init + [x]
  }

  /** Scans as the regular expression engine does: after a match it resumes at the match's end. */
  method ParseMentionTokens(text: string) returns (ordered: seq<string>)
    ensures ordered == Dedup(TokensFrom(text, 0))
  {
    var seen: set<string> := {};
    ordered := [];
    ghost var tokens: seq<string> := [];
    var pos := 0;
    while pos < |text|
      invariant 0 <= pos <= |text|
      invariant TokensFrom(text, 0) == tokens + TokensFrom(text, pos)
      invariant ordered == Dedup(tokens)
      invariant forall x :: x in seen <==> x in ordered
      decreases |text| - pos
    {
      TokensUpToAt(text, |text|, pos);
      if !MentionAt(text, pos) {
        pos := pos + 1;
        continue;
      }
      var end := NameEnd(text, pos + 1, MAX_NAME);
      var token := Lower(Trim(text[pos + 1..end]));
      ScanStep(text, pos, tokens);
      if token != "" {
        DedupSnoc(tokens, token);
        tokens := tokens + [token];
        if token !in seen {
          seen := seen + {token};
          ordered := ordered + [token];
        }
      }
      pos := end;
    }
    assert tokens + [] == tokens;
  }

  lemma DedupSnoc(s: seq<string>, x: string)
    ensures Dedup(s + [x]) == if x in Dedup(s) then Dedup(s) else Dedup(s) + [x]
  {
    assert (s + [x])[..|s|] == s;
  }

  /** What a shorter text part yields comes first: every string stands where it first occurred. */
  lemma {:induction false} DedupPrefix(s: seq<string>, n: nat)
    requires n <= |s|
    ensures Dedup(s[..n]) <= Dedup(s)
  {
    if n < |s| {
      var init := s[..|s| - 1];
      DedupPrefix(init, n);
      assert init[..n] == s[..n];
      assert Dedup(init) <= Dedup(s);
    } else {
      assert s[..n] == s;
    }
  }

  /** One match: its token, if any, and then whatever the text holds from the end of the match on. */
  lemma ScanStep(text: string, p: nat, before: seq<string>)
    requires MentionAt(text, p)
    ensures var end := NameEnd(text, p + 1, MAX_NAME);
      before + TokensFrom(text, p) ==
        (if TokenAt(text, p) != "" then before + [TokenAt(text, p)] else before) + TokensFrom(text, end)
  {
    var end, at := NameEnd(text, p + 1, MAX_NAME), TokensAt(text);
    NothingInsideAName(text, p + 1, end);
    TokensUpToAt(text, |text|, p);
    assert before + ([at[p]] + NonEmpty(at, end)) == (before + [at[p]]) + NonEmpty(at, end);
  }

  lemma {:induction false} SkipEmpty(at: seq<string>, i: nat, end: nat)
    requires i <= end <= |at| && forall j :: i <= j < end ==> at[j] == ""
    ensures NonEmpty(at, i) == NonEmpty(at, end)
    decreases end - i
  {
    if i < end {
      SkipEmpty(at, i + 1, end);
    }
  }

  /** Resuming at the end of a match skips no mention: a name contains no '@'. */
  lemma NothingInsideAName(text: string, i: nat, end: nat)
    requires i <= end <= |text| && forall j :: i <= j < end ==> IsName(text[j])
    ensures TokensFrom(text, i) == TokensFrom(text, end)
  {
    var at := TokensAt(text);
    forall j | i <= j < end ensures at[j] == "" {
      assert IsName(text[j]);
      TokensUpToAt(text, |text|, j);
    }
    SkipEmpty(at, i, end);
  }

  // ---- What the tokens are ----

  /** The end of a run of name characters is unique. */
  lemma {:induction false} NameEndExact(text: string, i: nat, room: nat, end: nat)
    requires i <= end <= |text| && end - i <= room && forall j :: i <= j < end ==> IsName(text[j])
    requires end == |text| || end == i + room || !IsName(text[end])
    ensures NameEnd(text, i, room) == end
    decreases end - i
  {
    if i < end {
      NameEndExact(text, i + 1, room - 1, end);
    }
  }

  /** A username as the parser returns it. */
  predicate Canonical(u: string) {
    && 1 <= |u| <= 64
    && ('a' <= u[0] <= 'z' || '0' <= u[0] <= '9' || u[0] == '_')
    && (forall i :: 0 <= i < |u| ==>
      'a' <= u[i] <= 'z' || '0' <= u[i] <= '9' || u[i] == '_' || u[i] == '.' || u[i] == '-')
    && u[|u| - 1] != '.' && u[|u| - 1] != '-' && u[|u| - 1] != '_'
  }

  lemma LowerCharName(c: char)
    requires IsName(c)
    ensures IsName(LowerChar(c)) && !('A' <= LowerChar(c) <= 'Z')
    ensures IsStart(c) ==> IsStart(LowerChar(c))
    ensures IsPunctuation(LowerChar(c)) ==> IsPunctuation(c)
  {
  }

  lemma LowerName(s: string)
    requires s != [] && IsStart(s[0]) && !IsPunctuation(s[|s| - 1]) && |s| <= MAX_NAME
    requires forall i :: 0 <= i < |s| ==> IsName(s[i])
    ensures Canonical(Lower(s))
  {
    var t := Lower(s);
    forall i | 0 <= i < |s|
      ensures IsName(t[i]) && !('A' <= t[i] <= 'Z')
    {
      LowerCharName(s[i]);
    }
    LowerCharName(s[0]);
    LowerCharName(s[|s| - 1]);
  }

  lemma TokenCanonical(text: string, p: int)
    requires MentionAt(text, p) && TokenAt(text, p) != ""
    ensures Canonical(TokenAt(text, p))
  {
    var raw := Trim(text[p + 1..NameEnd(text, p + 1, MAX_NAME)]);
    assert raw[0] == text[p + 1];
    LowerName(raw);
  }

  lemma {:induction false} NonEmptyExact(at: seq<string>, p: nat, u: string)
    requires p <= |at|
    ensures u in NonEmpty(at, p) <==> u != "" && u in at[p..]
    decreases |at| - p
  {
    if p < |at| {
      NonEmptyExact(at, p + 1, u);
      assert at[p..] == [at[p]] + at[p + 1..];
    }
  }

  /** A string is a token exactly when some mention position of the text yields it. */
  lemma TokensExact(text: string, u: string)
    ensures u in TokensFrom(text, 0) <==> u != "" && exists q :: MentionAt(text, q) && TokenAt(text, q) == u
  {
    var at := TokensAt(text);
    NonEmptyExact(at, 0, u);
    assert at[0..] == at;
    if u != "" && u in at {
      var q :| 0 <= q < |at| && at[q] == u;
      TokensUpToAt(text, |text|, q);
      assert MentionAt(text, q);
    }
    if q :| MentionAt(text, q) && TokenAt(text, q) == u {
      TokensUpToAt(text, |text|, q);
    }
  }

  /** A letter, a digit or an underscore. */
  predicate Word(c: char) {
    c == '_' || 'a' <= c <= 'z' || 'A' <= c <= 'Z' || '0' <= c <= '9'
  }

  /** `@` at `p`, not after a word character, `@` or `.`, and after it a name of at most 64 up to `e`, no longer one. */
  ghost predicate Runs(text: string, p: nat, e: nat) {
    && p + 1 < e <= |text| && e <= p + 65
    && text[p] == '@' && (p > 0 ==> !Word(text[p - 1]) && text[p - 1] != '@' && text[p - 1] != '.')
    && Word(text[p + 1])
    && (forall i :: p < i < e ==> Word(text[i]) || text[i] == '.' || text[i] == '-')
    && (e == |text| || e == p + 65 || !(Word(text[e]) || text[e] == '.' || text[e] == '-'))
  }

  /** Without the dots, hyphens and underscores at its end the name is its first `n` characters. */
  ghost predicate Strips(name: string, n: nat) {
    && 0 < n <= |name| && name[n - 1] != '.' && name[n - 1] != '-' && name[n - 1] != '_'
    && forall i :: n <= i < |name| ==> name[i] == '.' || name[i] == '-' || name[i] == '_'
  }

  ghost predicate Lowers(name: string, u: string) {
    && |u| == |name|
    && forall i :: 0 <= i < |u| ==> u[i] as int == name[i] as int + if 'A' <= name[i] <= 'Z' then 32 else 0
  }

  ghost predicate Writes(text: string, p: nat, e: nat, n: nat, u: string) {
    Runs(text, p, e) && Strips(text[p + 1..e], n) && Lowers(text[p + 1..e][..n], u)
  }

  lemma RunsMention(text: string, p: nat, e: nat)
    ensures Runs(text, p, e) <==> MentionAt(text, p) && NameEnd(text, p + 1, MAX_NAME) == e
  {
    assert forall c :: Word(c) <==> IsStart(c);
    if Runs(text, p, e) {
      assert forall i :: p < i < e ==> IsName(text[i]);
      NameEndExact(text, p + 1, MAX_NAME, e);
    }
    if MentionAt(text, p) && NameEnd(text, p + 1, MAX_NAME) == e {
      assert IsName(text[p + 1]);
      assert forall i :: p < i < e ==> IsName(text[i]);
    }
  }

  lemma {:induction false} StripsTrim(name: string, n: nat)
    ensures Strips(name, n) <==> 0 < n <= |name| && Trim(name) == name[..n]
  {
    if 0 < n < |name| && IsPunctuation(name[|name| - 1]) {
      var init := name[..|name| - 1];
      StripsTrim(init, n);
      assert init[..n] == name[..n];
    }
  }

  lemma LowersLower(name: string, u: string)
    ensures Lowers(name, u) <==> u == Lower(name)
  {
    forall i | 0 <= i < |name|
      ensures Lower(name)[i] as int == name[i] as int + if 'A' <= name[i] <= 'Z' then 32 else 0
    {
      assert Lower(name)[i] == LowerChar(name[i]);
    }
    if Lowers(name, u) {
      forall i | 0 <= i < |u| ensures u[i] == Lower(name)[i] {
        assert u[i] as int == Lower(name)[i] as int;
      }
    }
  }

  /** The tokens of a text are exactly the names written in it after an `@`. */
  lemma TokensWritten(text: string, u: string)
    ensures u in Dedup(TokensFrom(text, 0)) <==> exists p: nat, e: nat, n: nat :: Writes(text, p, e, n, u)
  {
    TokensExact(text, u);
    if u in TokensFrom(text, 0) {
      var p :| MentionAt(text, p) && TokenAt(text, p) == u;
      var e := NameEnd(text, p + 1, MAX_NAME);
      TokenWritten(text, p, e);
    }
    if p: nat, e: nat, n: nat :| Writes(text, p, e, n, u) {
      RunsMention(text, p, e);
      StripsTrim(text[p + 1..e], n);
      LowersLower(text[p + 1..e][..n], u);
      assert MentionAt(text, p) && TokenAt(text, p) == u;
    }
  }

  lemma TokenWritten(text: string, p: nat, e: nat)
    requires MentionAt(text, p) && NameEnd(text, p + 1, MAX_NAME) == e && TokenAt(text, p) != ""
    ensures exists n: nat :: Writes(text, p, e, n, TokenAt(text, p))
  {
    var name := text[p + 1..e];
    var n := |Trim(name)|;
    RunsMention(text, p, e);
    StripsTrim(name, n);
    LowersLower(name[..n], TokenAt(text, p));
    assert Writes(text, p, e, n, TokenAt(text, p));
  }

  /** Every token is a canonical username, at most 64 long. */
  lemma TokensCanonical(text: string, u: string)
    requires u in TokensFrom(text, 0)
    ensures Canonical(u)
  {
    TokensExact(text, u);
    var q :| MentionAt(text, q) && TokenAt(text, q) == u;
    TokenCanonical(text, q);
  }

  // ---- Round trip ----

  /** "@u1 @u2 ..." */
  function Render(us: seq<string>): string {
    if us == [] then "" else "@" + us[0] + " " + Render(us[1..])
  }

  lemma {:induction false} LowerCanonical(u: string)
    requires forall i :: 0 <= i < |u| ==> !('A' <= u[i] <= 'Z')
    ensures Lower(u) == u
  {
    assert forall i :: 0 <= i < |u| ==> Lower(u)[i] == u[i];
  }

  /** At position `p` the text reads "@" `u` " ". */
  ghost predicate Mentions(text: string, p: nat, u: string) {
    && p + |u| + 2 <= |text|
    && text[p] == '@'
    && (forall i :: p < i <= p + |u| ==> text[i] == u[i - p - 1])
    && text[p + 1 + |u|] == ' '
  }

  /** Trimming and lowercasing leave a canonical username alone. */
  lemma CanonicalStays(u: string)
    requires Canonical(u)
    ensures Lower(Trim(u)) == u
  {
    LowerCanonical(u);
  }

  lemma MentionedSlice(text: string, p: nat, u: string)
    requires Mentions(text, p, u)
    ensures text[p + 1..p + 1 + |u|] == u
  {
  }

  lemma MentionedEnd(text: string, p: nat, u: string)
    requires Canonical(u) && Mentions(text, p, u)
    ensures NameEnd(text, p + 1, MAX_NAME) == p + 1 + |u|
  {
    forall j | p + 1 <= j < p + 1 + |u| ensures IsName(text[j]) {
      assert text[j] == u[j - p - 1];
    }
    NameEndExact(text, p + 1, MAX_NAME, p + 1 + |u|);
  }

  lemma MentionedStart(text: string, p: nat, u: string)
    requires Canonical(u) && Mentions(text, p, u) && Boundary(text, p)
    ensures MentionAt(text, p)
  {
    assert text[p + 1] == u[0];
  }

  lemma TokenOfSlice(text: string, p: nat, u: string)
    requires MentionAt(text, p) && p + 1 + |u| <= |text|
    requires NameEnd(text, p + 1, MAX_NAME) == p + 1 + |u| && text[p + 1..p + 1 + |u|] == u
    ensures TokenAt(text, p) == Lower(Trim(u))
  {
  }

  /** Where a canonical username is mentioned after a boundary, the token is exactly that username. */
  lemma ReadsUsername(text: string, p: nat, u: string)
    requires Canonical(u) && Mentions(text, p, u) && Boundary(text, p)
    ensures MentionAt(text, p) && TokenAt(text, p) == u
  {
    MentionedStart(text, p, u);
    MentionedEnd(text, p, u);
    MentionedSlice(text, p, u);
    TokenOfSlice(text, p, u);
    CanonicalStays(u);
  }

  /** A canonical username mentioned at `p` gives the token there, and the positions up to the space give none. */
  lemma ReadsOnlyUsername(text: string, p: nat, u: string)
    requires Canonical(u) && Mentions(text, p, u) && Boundary(text, p)
    ensures TokensAt(text)[p] == u != ""
    ensures forall j :: p < j < p + |u| + 2 ==> TokensAt(text)[j] == ""
  {
    ReadsUsername(text, p, u);
    TokensUpToAt(text, |text|, p);
    forall j | p < j < p + |u| + 2 ensures TokensAt(text)[j] == "" {
      assert text[j] != '@';
      TokensUpToAt(text, |text|, j);
    }
  }

  lemma ReadsAndResumes(text: string, p: nat, u: string)
    requires Canonical(u) && Mentions(text, p, u) && Boundary(text, p)
    ensures TokensFrom(text, p) == [u] + TokensFrom(text, p + |u| + 2)
  {
    var at := TokensAt(text);
    ReadsOnlyUsername(text, p, u);
    SkipEmpty(at, p + 1, p + |u| + 2);
  }

  /** The first piece of what is left of the text, and the rest after it. */
  lemma Remainder(text: string, p: nat, piece: string, rest: string)
    requires p <= |text| && text[p..] == piece + rest
    ensures p + |piece| <= |text| && text[p + |piece|..] == rest
    ensures forall i :: 0 <= i < |piece| ==> text[p + i] == piece[i]
  {
    assert text[p + |piece|..] == text[p..][|piece|..];
    forall i | 0 <= i < |piece| ensures text[p + i] == piece[i] {
      assert text[p + i] == text[p..][i];
    }
  }

  lemma MentionsFirst(text: string, p: nat, u: string, rest: string)
    requires p <= |text| && text[p..] == "@" + u + " " + rest
    ensures Mentions(text, p, u) && text[p + |u| + 2..] == rest
  {
    var piece := "@" + u + " ";
    Remainder(text, p, piece, rest);
    assert text[p + 0] == piece[0] && text[p + (1 + |u|)] == piece[1 + |u|];
    forall i | p < i <= p + |u| ensures text[i] == u[i - p - 1] {
      assert text[p + (i - p)] == piece[i - p];
    }
  }

  ghost predicate AllCanonical(us: seq<string>) {
    forall i :: 0 <= i < |us| ==> Canonical(us[i])
  }

  ghost predicate RendersFrom(text: string, p: nat, us: seq<string>) {
    p <= |text| && text[p..] == Render(us) && (p == 0 || text[p - 1] == ' ')
  }

  lemma RenderStep(text: string, p: nat, us: seq<string>)
    requires us != [] && RendersFrom(text, p, us)
    ensures Mentions(text, p, us[0]) && Boundary(text, p)
    ensures RendersFrom(text, p + |us[0]| + 2, us[1..])
  {
    MentionsFirst(text, p, us[0], Render(us[1..]));
  }

  lemma {:induction false} RenderReads(text: string, p: nat, us: seq<string>)
    requires AllCanonical(us) && RendersFrom(text, p, us)
    ensures TokensFrom(text, p) == us
    decreases |us|
  {
    if us == [] {
      assert p == |text|;
    } else {
      RenderStep(text, p, us);
      ReadsAndResumes(text, p, us[0]);
      RenderReads(text, p + |us[0]| + 2, us[1..]);
      assert us == [us[0]] + us[1..];
    }
  }

  /** Parsing the rendering of canonical usernames returns them, deduplicated in order. */
  lemma RoundTrip(us: seq<string>)
    requires AllCanonical(us)
    ensures Dedup(TokensFrom(Render(us), 0)) == Dedup(us)
  {
    assert Render(us)[0..] == Render(us);
    RenderReads(Render(us), 0, us);
  }

  lemma {:induction false} DedupDistinct(s: seq<string>)
    requires Distinct(s)
    ensures Dedup(s) == s
  {
    if s != [] {
      var init := s[..|s| - 1];
      assert forall i :: 0 <= i < |init| ==> init[i] == s[i];
      DedupDistinct(init);
      assert s == init + [s[|s| - 1]];
    }
  }

  /** What the parser returns from any text survives being rendered and parsed again. */
  lemma ParseRenderParse(text: string)
    ensures var us := Dedup(TokensFrom(text, 0)); Dedup(TokensFrom(Render(us), 0)) == us
  {
    var us := Dedup(TokensFrom(text, 0));
    forall i | 0 <= i < |us| ensures Canonical(us[i]) {
      assert us[i] in us;
      TokensCanonical(text, us[i]);
    }
    RoundTrip(us);
    DedupDistinct(us);
  }

  // ---- Letter case ----

  ghost predicate Lowered(s: string, t: string) {
    |t| == |s| && forall i :: 0 <= i < |s| ==> t[i] == LowerChar(s[i])
  }

  lemma LowerKeepsKind(c: char)
    ensures IsStart(LowerChar(c)) <==> IsStart(c)
    ensures IsName(LowerChar(c)) <==> IsName(c)
    ensures IsPunctuation(LowerChar(c)) <==> IsPunctuation(c)
    ensures LowerChar(c) == '@' <==> c == '@'
    ensures LowerChar(c) == '.' <==> c == '.'
    ensures LowerChar(LowerChar(c)) == LowerChar(c)
  {
  }

  lemma LoweredMention(s: string, t: string, p: int)
    requires Lowered(s, t)
    ensures MentionAt(t, p) <==> MentionAt(s, p)
  {
    if 0 <= p && p + 1 < |s| {
      LowerKeepsKind(s[p]);
      LowerKeepsKind(s[p + 1]);
      if p > 0 {
        LowerKeepsKind(s[p - 1]);
      }
    }
  }

  lemma LoweredNameEnd(s: string, t: string, i: nat, room: nat)
    requires Lowered(s, t) && i <= |s|
    ensures NameEnd(t, i, room) == NameEnd(s, i, room)
  {
    var e := NameEnd(s, i, room);
    forall j | i <= j < e ensures IsName(t[j]) {
      LowerKeepsKind(s[j]);
    }
    if e < |s| {
      LowerKeepsKind(s[e]);
    }
    NameEndExact(t, i, room, e);
  }

  lemma {:induction false} LoweredTrim(s: string, t: string)
    requires Lowered(s, t)
    ensures Lowered(Trim(s), Trim(t))
  {
    if s != [] {
      LowerKeepsKind(s[|s| - 1]);
      LoweredTrim(s[..|s| - 1], t[..|t| - 1]);
    }
  }

  lemma LoweredLower(s: string, t: string)
    requires Lowered(s, t)
    ensures Lower(t) == Lower(s)
  {
    forall i | 0 <= i < |s| ensures Lower(t)[i] == Lower(s)[i] {
      LowerKeepsKind(s[i]);
    }
  }

  lemma LoweredName(s: string, t: string, i: nat, e: nat)
    requires Lowered(s, t) && i <= e <= |s|
    ensures NameIn(t, i, e) == NameIn(s, i, e)
  {
    var raw, raw' := s[i..e], t[i..e];
    LoweredTrim(raw, raw');
    LoweredLower(Trim(raw), Trim(raw'));
  }

  lemma LoweredToken(s: string, t: string, p: int)
    requires Lowered(s, t) && MentionAt(s, p) && MentionAt(t, p)
    ensures TokenAt(t, p) == TokenAt(s, p)
  {
    var e := NameEnd(s, p + 1, MAX_NAME);
    LoweredNameEnd(s, t, p + 1, MAX_NAME);
    LoweredName(s, t, p + 1, e);
  }

  lemma {:induction false} LoweredTokens(s: string, t: string, n: nat)
    requires Lowered(s, t) && n <= |s|
    ensures TokensUpTo(t, n) == TokensUpTo(s, n)
  {
    if n > 0 {
      LoweredTokens(s, t, n - 1);
      LoweredMention(s, t, n - 1);
      if MentionAt(s, n - 1) {
        LoweredToken(s, t, n - 1);
      }
    }
  }

  /** The letter case of a text does not matter. */
  lemma CaseIrrelevant(text: string)
    ensures TokensFrom(Lower(text), 0) == TokensFrom(text, 0)
  {
    LoweredTokens(text, Lower(text), |text|);
  }
}
