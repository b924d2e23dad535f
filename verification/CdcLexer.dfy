/** The tokenizer of the CDC checker (`tokenize` in tools/cdc_checker/parser.py), for ASCII sources. */
module CdcLexer {
  import opened Chars
  import opened RtlIdentity
  import opened Sequences

  datatype Lexed = Tokens(tokens: seq<string>) | UnterminatedString | UnterminatedComment | Unrecognized

  predicate Base(c: char) {
    c == 'b' || c == 'B' || c == 'o' || c == 'O' || c == 'd' || c == 'D' || c == 'h' || c == 'H'
  }
  predicate BaseDigit(c: char) {
    Digit(c) || 'a' <= c <= 'f' || 'A' <= c <= 'F' || c == '_' || c == 'x' || c == 'X' || c == 'z' || c == 'Z' || c == '?'
  }
  predicate OpChar(c: char) {
    c == '+' || c == '-' || c == '*' || c == '/' || c == '%' || c == '<' || c == '>' || c == '=' || c == '!' ||
    c == '&' || c == '|' || c == '^' || c == '~' || c == '?' || c == ':' || c == ';' || c == ',' || c == '.' ||
    c == '@' || c == '(' || c == ')' || c == '{' || c == '}' || c == '[' || c == ']' || c == '#'
  }

  /** The two-character operators. */
  predicate Pair(a: char, b: char) {
    (b == '=' && (a == '<' || a == '>' || a == '=' || a == '!')) ||
    (a == b && (a == '&' || a == '|' || a == '<' || a == '>' || a == '#' || a == ':'))
  }

  /** The property arrows `|->` and `|=>`. */
  predicate Arrow(a: char, b: char, c: char) { a == '|' && (b == '-' || b == '=') && c == '>' }

  /** After an opening quote: the length up to and including the closing one, 0 if there is none. A backslash
      takes the next character with it, unless that is a line feed. */
  function StringBody(s: string): (n: nat)
    ensures n <= |s|
    decreases |s|
  {
    if s == [] then 0
    else if s[0] == '"' then 1
    else if s[0] == '\\' then
      if |s| >= 2 && s[1] != '\n' && StringBody(s[2..]) > 0 then 2 + StringBody(s[2..]) else 0
    else if StringBody(s[1..]) > 0 then 1 + StringBody(s[1..]) else 0
  }

  /** A sized literal if one is there, else an integer or a decimal. */
  function NumberLength(s: string): (n: nat)
    ensures n <= |s|
  {
    var d := Run(Digit, s);
    if d == 0 then 0
    else if SizedDigits(s, d) > 0 then d + 2 + SizedDigits(s, d)
    else if d + 1 < |s| && s[d] == '.' && Digit(s[d + 1]) then d + 1 + Run(Digit, s[d + 1..])
    else d
  }

  function SizedDigits(s: string, d: nat): (n: nat)
    requires d <= |s|
    ensures n > 0 ==> d + 2 + n <= |s|
  {
    if d + 2 < |s| && s[d] == '\'' && Base(s[d + 1]) then Run(BaseDigit, s[d + 2..]) else 0
  }

  function OpLength(s: string): (n: nat)
    ensures n <= |s|
  {
    if |s| >= 2 && Pair(s[0], s[1]) then 2
    else if |s| >= 3 && Arrow(s[0], s[1], s[2]) then 3
    else if |s| >= 1 && OpChar(s[0]) then 1
    else 0
  }

  /** The token at the head, string literals included; 0 if there is none. */
  function TokenLength(s: string): (n: nat)
    ensures n <= |s|
  {
    if s == [] then 0
    else if s[0] == '"' then (if StringBody(s[1..]) > 0 then 1 + StringBody(s[1..]) else 0)
    else if Digit(s[0]) then NumberLength(s)
    else if Letter(s[0]) then Run(Word, s)
    else if s[0] == '$' then (if |s| >= 2 && Letter(s[1]) then 1 + Run(Word, s[1..]) else 0)
    else OpLength(s)
  }

  predicate CommentStart(s: string) { |s| >= 2 && s[0] == '/' && (s[1] == '/' || s[1] == '*') }

  /** What follows a line comment: the text after its line feed. */
  function AfterLine(s: string): (r: string)
    ensures |r| <= |s| && (s != [] ==> |r| < |s|)
  {
    if s == [] then [] else if s[0] == '\n' then s[1..] else AfterLine(s[1..])
  }

  function Put(token: string, rest: Lexed): Lexed {
    if rest.Tokens? then Tokens([token] + rest.tokens) else rest
  }

  /** The meaning of the tokenizer, on what is left of the text. */
  function Lex(s: string): Lexed
    decreases |s|
  {
    if s == [] then Tokens([])
    else if CommentStart(s) then
      if s[1] == '/' then Lex(AfterLine(s))
      else if AfterClose(s[2..]).0 then Lex(AfterClose(s[2..]).1) else UnterminatedComment
    else if IsSpace(s[0]) then Lex(s[1..])
    else if TokenLength(s) == 0 then (if s[0] == '"' then UnterminatedString else Unrecognized)
    else Put(s[..TokenLength(s)], Lex(s[TokenLength(s)..]))
  }

  // ---------------------------------------------------------------- the tokenizer itself

  function PutAll(out: seq<string>, rest: Lexed): Lexed {
    if rest.Tokens? then Tokens(out + rest.tokens) else rest
  }

  lemma PutOne(out: seq<string>, token: string, rest: Lexed)
    ensures PutAll(out, Put(token, rest)) == PutAll(out + [token], rest)
  {
    if rest.Tokens? { assert out + ([token] + rest.tokens) == out + [token] + rest.tokens; }
  }

  lemma {:induction false} LineSuffix(s: string)
    ensures AfterLine(s) == s[|s| - |AfterLine(s)|..]
  {
    if s != [] && s[0] != '\n' { LineSuffix(s[1..]); }
  }

  lemma {:induction false} CloseSuffixOf(s: string)
    requires AfterClose(s).0
    ensures |AfterClose(s).1| <= |s| && AfterClose(s).1 == s[|s| - |AfterClose(s).1|..]
  {
    if !("*/" <= s) { CloseSuffixOf(s[1..]); }
  }

  lemma DropDrop(text: string, i: nat, k: nat)
    requires i + k <= |text|
    ensures text[i..][k..] == text[i + k..]
  {
  }

  /** How far one round of the loop moves. */
  function StepLength(s: string): (n: nat)
    requires s != []
    ensures n <= |s|
  {
    if CommentStart(s) then
      if s[1] == '/' then |s| - |AfterLine(s)|
      else if AfterClose(s[2..]).0 then |s| - |AfterClose(s[2..]).1| else 0
    else if IsSpace(s[0]) then 1
    else TokenLength(s)
  }

  predicate Skipped(s: string)
    requires s != []
  {
    CommentStart(s) || IsSpace(s[0])
  }

  function Fault(s: string): Lexed
    requires s != []
  {
    if CommentStart(s) then UnterminatedComment else if s[0] == '"' then UnterminatedString else Unrecognized
  }

  /** One round: stop with an error, or move on, putting out a token unless white space or a comment was there. */
  lemma LexStep(s: string)
    requires s != []
    ensures var n := StepLength(s);
      Lex(s) == if n == 0 then Fault(s) else if Skipped(s) then Lex(s[n..]) else Put(s[..n], Lex(s[n..]))
  {
    if CommentStart(s) { CommentRest(s); }
  }

  lemma CommentRest(s: string)
    requires CommentStart(s)
    ensures s[1] == '/' ==> AfterLine(s) == s[StepLength(s)..] && StepLength(s) > 0
    ensures s[1] == '*' && AfterClose(s[2..]).0 ==> AfterClose(s[2..]).1 == s[StepLength(s)..] && StepLength(s) > 0
  {
    if s[1] == '/' {
      LineSuffix(s);
    } else if AfterClose(s[2..]).0 {
      CloseSuffixOf(s[2..]);
      DropDrop(s, 2, |s| - 2 - |AfterClose(s[2..]).1|);
    }
  }

  /** The loop over positions of the source. */
  method Tokenize(text: string) returns (r: Lexed)
    ensures r == Lex(text)
  {
    var out: seq<string> := [];
    var i := 0;
    ghost var rest := text;
    while i < |text|
      invariant i <= |text| && rest == text[i..] && Reads(out, rest, text)
    {
      var here := text[i..];
      var n := StepLength(here);
      if n == 0 {
        LexStep(here);
        return Fault(here);
      }
      ghost var before := out;
      if !Skipped(here) { out := out + [here[..n]]; }
      OneRound(before, out, here, n);
      DropDrop(text, i, n);
      i := i + n;
      rest := here[n..];
    }
    return Tokens(out);
  }

  /** With `out` put out and `rest` still to read, the whole text is accounted for. */
  ghost predicate Reads(out: seq<string>, rest: string, text: string) { PutAll(out, Lex(rest)) == Lex(text) }

  lemma OneRound(before: seq<string>, out: seq<string>, here: string, n: nat)
    requires here != [] && n == StepLength(here) > 0
    requires out == if Skipped(here) then before else before + [here[..n]]
    ensures PutAll(out, Lex(here[n..])) == PutAll(before, Lex(here))
  {
    LexStep(here);
    PutOne(before, here[..n], Lex(here[n..]));
  }

  // ---------------------------------------------------------------- a token does not depend on what follows it

  /** A character that cannot prolong a token: white space, or the slash that opens a comment. */
  predicate Stops(c: char) { IsSpace(c) || c == '/' }

  ghost predicate Gapped(r: string) { r == [] || Stops(r[0]) }

  lemma {:induction false} RunStays(p: char -> bool, s: string, n: nat, r: string)
    requires n == Run(p, s) && (r == [] || !p(r[0]))
    ensures Run(p, s[..n] + r) == n
  {
    if n == 0 {
      assert s[..0] + r == r;
    } else {
      assert (s[..n] + r)[1..] == s[1..][..n - 1] + r;
      RunStays(p, s[1..], n - 1, r);
    }
  }

  lemma {:induction false} BodyStays(s: string, n: nat, r: string)
    requires n == StringBody(s) > 0
    ensures StringBody(s[..n] + r) == n
    decreases |s|
  {
    var t := s[..n] + r;
    if s[0] != '"' {
      var step := if s[0] == '\\' then 2 else 1;
      BodyStays(s[step..], n - step, r);
      assert t[step..] == s[step..][..n - step] + r;
    }
  }

  lemma StopsNothing(c: char)
    requires Stops(c)
    ensures !Word(c) && !Digit(c) && !BaseDigit(c) && !Letter(c) && c != '.' && c != '\'' && c != '>' && !Base(c)
    ensures forall a :: !Pair(a, c)
    ensures c != '-' && c != '='
  {
  }

  lemma HeadStays(p: char -> bool, s: string, d: nat, n: nat, r: string)
    requires d == Run(p, s) && d <= n <= |s| && (n > d ==> !p(s[d])) && (n == d ==> r == [] || !p(r[0]))
    ensures Run(p, s[..n] + r) == d
  {
    assert s[..n] + r == s[..d] + (s[d..n] + r);
    RunStays(p, s, d, s[d..n] + r);
  }

  lemma TailOf(s: string, d: nat, n: nat, r: string)
    requires d <= n <= |s|
    ensures (s[..n] + r)[d..] == s[d..][..n - d] + r
  {
  }

  lemma NumberStays(s: string, n: nat, r: string)
    requires n == NumberLength(s) > 0 && Gapped(r)
    ensures NumberLength(s[..n] + r) == n
  {
    var d, t := Run(Digit, s), s[..n] + r;
    if r != [] { StopsNothing(r[0]); }
    RunEnds(Digit, s);
    HeadStays(Digit, s, d, n, r);
    if SizedDigits(s, d) > 0 {
      RunFrom(BaseDigit, s, d + 2, n, r);
    } else if n > d {
      RunFrom(Digit, s, d + 1, n, r);
    }
  }

  /** A run that starts later and ends where the token ends. */
  lemma RunFrom(p: char -> bool, s: string, from: nat, n: nat, r: string)
    requires from <= n <= |s| && Run(p, s[from..]) == n - from && (r == [] || !p(r[0]))
    ensures Run(p, (s[..n] + r)[from..]) == n - from
  {
    TailOf(s, from, n, r);
    RunStays(p, s[from..], n - from, r);
  }

  lemma OpStays(s: string, n: nat, r: string)
    requires n == OpLength(s) > 0 && Gapped(r)
    ensures OpLength(s[..n] + r) == n
  {
    if r != [] { StopsNothing(r[0]); }
  }

  /** The token at the head is the same whatever follows it, as long as that starts with a gap. */
  lemma TokenStays(s: string, n: nat, r: string)
    requires n == TokenLength(s) > 0 && Gapped(r)
    ensures TokenLength(s[..n] + r) == n
  {
    var t := s[..n] + r;
    if r != [] { StopsNothing(r[0]); }
    assert t[0] == s[0];
    if s[0] == '"' {
      TailOf(s, 1, n, r);
      BodyStays(s[1..], n - 1, r);
    } else if Digit(s[0]) {
      NumberStays(s, n, r);
    } else if Letter(s[0]) {
      RunStays(Word, s, n, r);
    } else if s[0] == '$' {
      TailOf(s, 1, n, r);
      RunStays(Word, s[1..], n - 1, r);
    } else {
      OpStays(s, n, r);
    }
  }

  // ---------------------------------------------------------------- tokens, gaps, layouts

  /** A text that is one token. */
  ghost predicate IsToken(t: string) { t != [] && TokenLength(t) == |t| }

  lemma {:induction false} LexedTokens(s: string, k: nat)
    requires Lex(s).Tokens? && k < |Lex(s).tokens|
    ensures IsToken(Lex(s).tokens[k])
    decreases |s|
  {
    var n := StepLength(s);
    LexStep(s);
    if Skipped(s) {
      LexedTokens(s[n..], k);
    } else if k == 0 {
      TokenStays(s, n, []);
      assert s[..n] + [] == s[..n];
    } else {
      LexedTokens(s[n..], k - 1);
    }
  }

  /** White space and finished comments. */
  ghost predicate Gap(g: string)
    decreases |g|
  {
    || g == []
    || (IsSpace(g[0]) && Gap(g[1..]))
    || (CommentStart(g) && g[1] == '/' && '\n' in g && Gap(AfterLine(g)))
    || (CommentStart(g) && g[1] == '*' && AfterClose(g[2..]).0 && Gap(AfterClose(g[2..]).1))
  }

  lemma {:induction false} LineThen(g: string, r: string)
    requires '\n' in g
    ensures AfterLine(g + r) == AfterLine(g) + r
  {
    assert (g + r)[1..] == g[1..] + r;
    if g[0] != '\n' { LineThen(g[1..], r); }
  }

  /** A gap leaves no trace. */
  lemma {:induction false} GapVanishes(g: string, r: string)
    requires Gap(g)
    ensures Lex(g + r) == Lex(r)
    decreases |g|
  {
    if g == [] {
      assert g + r == r;
    } else if CommentStart(g) {
      if g[1] == '/' {
        LineThen(g, r);
        GapVanishes(AfterLine(g), r);
      } else {
        assert (g + r)[2..] == g[2..] + r;
        CloseThen(g[2..], r);
        GapVanishes(AfterClose(g[2..]).1, r);
      }
    } else {
      assert (g + r)[1..] == g[1..] + r;
      GapVanishes(g[1..], r);
    }
  }

  /** The tokens written out with `gaps[k]` before the k-th and the last gap at the end. */
  function Laid(ts: seq<string>, gaps: seq<string>): string
    requires |gaps| == |ts| + 1
  {
    if ts == [] then gaps[0] else gaps[0] + (ts[0] + Laid(ts[1..], gaps[1..]))
  }

  /** The gap keeps the token apart from the next one: it is not empty, and a slash is not followed by a comment. */
  ghost predicate Parts(t: string, g: string) { g != [] && (t == "/" ==> IsSpace(g[0])) }

  ghost predicate GoodLayout(ts: seq<string>, gaps: seq<string>) {
    && |gaps| == |ts| + 1
    && (forall k :: 0 <= k < |ts| ==> IsToken(ts[k]))
    && (forall k :: 0 <= k < |gaps| ==> Gap(gaps[k]))
    && (forall k :: 0 <= k < |ts| ==> Parts(ts[k], gaps[k + 1]))
  }

  lemma GapStops(g: string)
    requires Gap(g) && g != []
    ensures Stops(g[0])
  {
  }

  lemma {:induction false} LaidHead(ts: seq<string>, gaps: seq<string>)
    requires |gaps| == |ts| + 1 && gaps[0] != []
    ensures Laid(ts, gaps) != [] && Laid(ts, gaps)[0] == gaps[0][0]
  {
  }

  lemma TokenThen(t: string, r: string)
    requires IsToken(t) && Gapped(r) && (t == "/" && r != [] ==> IsSpace(r[0]))
    ensures Lex(t + r) == Put(t, Lex(r))
  {
    TokenStays(t, |t|, r);
    assert t[..|t|] == t;
    var s := t + r;
    assert TokenLength(s) == |t| && s[..|t|] == t && s[|t|..] == r;
    NotBlank(t, r);
  }

  lemma NotBlank(t: string, r: string)
    requires IsToken(t) && Gapped(r) && (t == "/" && r != [] ==> IsSpace(r[0]))
    ensures !CommentStart(t + r) && !IsSpace((t + r)[0])
  {
    if t[0] == '/' {
      assert t == "/";
    }
  }

  /** However tokens are laid out, with any white space and comments between them, they are read back. */
  lemma {:induction false} LayoutLexes(ts: seq<string>, gaps: seq<string>)
    requires GoodLayout(ts, gaps)
    ensures Lex(Laid(ts, gaps)) == Tokens(ts)
  {
    if ts == [] {
      GapVanishes(gaps[0], []);
      assert gaps[0] + [] == gaps[0];
    } else {
      LayoutFirst(ts, gaps);
      LayoutLexes(ts[1..], gaps[1..]);
      LayoutStep(gaps[0], ts[0], Laid(ts[1..], gaps[1..]), ts[1..]);
      assert ts == [ts[0]] + ts[1..];
    }
  }

  /** The first token of a layout, its gap, and a rest that keeps apart from it. */
  lemma LayoutFirst(ts: seq<string>, gaps: seq<string>)
    requires ts != [] && GoodLayout(ts, gaps)
    ensures GoodLayout(ts[1..], gaps[1..]) && Gap(gaps[0]) && IsToken(ts[0])
    ensures var rest := Laid(ts[1..], gaps[1..]); Gapped(rest) && (ts[0] == "/" && rest != [] ==> IsSpace(rest[0]))
  {
    assert Parts(ts[0], gaps[1]) && Gap(gaps[1]);
    LaidHead(ts[1..], gaps[1..]);
    GapStops(gaps[1]);
  }

  lemma LayoutStep(gap: string, t: string, rest: string, more: seq<string>)
    requires Gap(gap) && IsToken(t) && Gapped(rest) && (t == "/" && rest != [] ==> IsSpace(rest[0]))
    requires Lex(rest) == Tokens(more)
    ensures Lex(gap + (t + rest)) == Tokens([t] + more)
  {
    GapVanishes(gap, t + rest);
    TokenThen(t, rest);
  }

  /** `" ".join(tokens)`. */
  function Joined(ts: seq<string>): string {
    if ts == [] then [] else if |ts| == 1 then ts[0] else ts[0] + ([' '] + Joined(ts[1..]))
  }

  lemma {:induction false} JoinedLexes(ts: seq<string>)
    requires forall k :: 0 <= k < |ts| ==> IsToken(ts[k])
    ensures Lex(Joined(ts)) == Tokens(ts)
  {
    if |ts| == 1 {
      TokenThen(ts[0], []);
      assert ts[0] + [] == ts[0] && ts == [ts[0]];
    } else if ts != [] {
      var rest := [' '] + Joined(ts[1..]);
      TokenThen(ts[0], rest);
      assert rest[1..] == Joined(ts[1..]);
      JoinedLexes(ts[1..]);
      assert ts == [ts[0]] + ts[1..];
    }
  }

  /** Tokenizing the space-joined tokens of any accepted source gives the same tokens again. */
  lemma RoundTrip(s: string)
    requires Lex(s).Tokens?
    ensures Lex(Joined(Lex(s).tokens)) == Lex(s)
  {
    var ts := Lex(s).tokens;
    forall k | 0 <= k < |ts| ensures IsToken(ts[k]) { LexedTokens(s, k); }
    JoinedLexes(ts);
  }

  // ---------------------------------------------------------------- every accepted source is a layout

  /** A gap at the end of the source, where a line comment need not be finished. */
  ghost predicate Trailing(g: string)
    decreases |g|
  {
    g == [] ||
    (StepLength(g) > 0 && Skipped(g) && Trailing(g[StepLength(g)..]))
  }

  ghost predicate AllGaps(gaps: seq<string>) {
    forall k :: 0 <= k < |gaps| ==> Gap(gaps[k])
  }

  lemma GapJoins(s: string, n: nat, g: string)
    requires s != [] && n == StepLength(s) > 0 && Skipped(s) && Gap(g) && (CommentStart(s) && s[1] == '/' ==> '\n' in s)
    ensures Gap(s[..n] + g)
  {
    var t := s[..n] + g;
    assert t[0] == s[0];
    if CommentStart(s) {
      if s[1] == '/' {
        LineCut(s, g);
        assert CommentStart(t);
      } else {
        TailOf(s, 2, n, g);
        CloseCut(s[2..], g);
        assert CommentStart(t);
      }
    } else {
      assert t[1..] == g;
    }
  }

  lemma {:induction false} LineCut(s: string, g: string)
    requires '\n' in s
    ensures var n := |s| - |AfterLine(s)|; '\n' in s[..n] && AfterLine(s[..n] + g) == g
  {
    var n := |s| - |AfterLine(s)|;
    if s[0] == '\n' {
      assert (s[..n] + g)[1..] == g;
      assert s[..n][0] == '\n';
    } else {
      LineCut(s[1..], g);
      assert (s[..n] + g)[1..] == s[1..][..n - 1] + g;
      assert s[..n] == [s[0]] + s[1..][..n - 1];
    }
  }

  lemma {:induction false} CloseCut(s: string, g: string)
    requires AfterClose(s).0
    ensures var n := |s| - |AfterClose(s).1|; AfterClose(s[..n] + g) == (true, g)
  {
    var n := |s| - |AfterClose(s).1|;
    CloseSuffixOf(s);
    PairAt(s, '*', '/');
    PairAt(s[..n] + g, '*', '/');
    if "*/" <= s {
      assert (s[..n] + g)[2..] == g;
    } else {
      CloseSuffixOf(s[1..]);
      CloseCut(s[1..], g);
      assert (s[..n] + g)[1..] == s[1..][..n - 1] + g;
    }
  }

  lemma LaidMore(ts: seq<string>, gaps: seq<string>, front: string)
    requires |gaps| == |ts| + 1
    ensures Laid(ts, [front + gaps[0]] + gaps[1..]) == front + Laid(ts, gaps)
  {
    var more := [front + gaps[0]] + gaps[1..];
    assert more[1..] == gaps[1..];
    if ts != [] { Assoc(front, gaps[0], ts[0] + Laid(ts[1..], gaps[1..])); }
  }

  lemma {:induction false} NoFeedNoRest(s: string)
    requires '\n' !in s
    ensures AfterLine(s) == []
  {
    if s != [] { NoFeedNoRest(s[1..]); }
  }

  /** Every accepted source is a layout of its tokens: nothing between them but white space and comments. */
  lemma {:induction false} SourceIsLaid(s: string) returns (gaps: seq<string>)
    requires Lex(s).Tokens?
    ensures var ts := Lex(s).tokens;
      && |gaps| == |ts| + 1 && Laid(ts, gaps) == s
      && AllGaps(gaps[..|ts|]) && Trailing(gaps[|ts|])
    decreases |s|
  {
    if s == [] {
      gaps := [[]];
    } else {
      var n := StepLength(s);
      LexStep(s);
      var rest := SourceIsLaid(s[n..]);
      if Skipped(s) {
        gaps := [s[..n] + rest[0]] + rest[1..];
        SkippedLaid(s, n, rest);
      } else {
        gaps := [[]] + rest;
        TokenLaid(s, n, rest);
      }
    }
  }

  lemma SkippedLaid(s: string, n: nat, rest: seq<string>)
    requires s != [] && n == StepLength(s) > 0 && Skipped(s) && Lex(s) == Lex(s[n..]) && Lex(s).Tokens?
    requires var ts := Lex(s).tokens;
      |rest| == |ts| + 1 && Laid(ts, rest) == s[n..] && AllGaps(rest[..|ts|]) && Trailing(rest[|ts|])
    ensures var ts := Lex(s).tokens; var gaps := [s[..n] + rest[0]] + rest[1..];
      Laid(ts, gaps) == s && AllGaps(gaps[..|ts|]) && Trailing(gaps[|ts|])
  {
    var ts, gaps := Lex(s).tokens, [s[..n] + rest[0]] + rest[1..];
    LaidMore(ts, rest, s[..n]);
    assert s[..n] + s[n..] == s;
    if ts == [] {
      assert gaps[0] == s;
    } else {
      assert rest[..|ts|][0] == rest[0];
      if CommentStart(s) && s[1] == '/' && '\n' !in s { LineOnly(s, n); }
      GapJoins(s, n, rest[0]);
      forall k | 0 <= k < |ts| ensures Gap(gaps[k]) {
        if k > 0 { assert gaps[k] == rest[..|ts|][k]; }
      }
    }
  }

  lemma LineOnly(s: string, n: nat)
    requires CommentStart(s) && s[1] == '/' && '\n' !in s && n == StepLength(s)
    ensures Lex(s) == Tokens([])
  {
    NoFeedNoRest(s);
  }

  lemma TokenLaid(s: string, n: nat, rest: seq<string>)
    requires s != [] && n == StepLength(s) > 0 && Lex(s) == Put(s[..n], Lex(s[n..])) && Lex(s).Tokens?
    requires var ts := Lex(s[n..]).tokens;
      |rest| == |ts| + 1 && Laid(ts, rest) == s[n..] && AllGaps(rest[..|ts|]) && Trailing(rest[|ts|])
    ensures var ts := Lex(s).tokens; var gaps := [[]] + rest;
      |gaps| == |ts| + 1 && Laid(ts, gaps) == s && AllGaps(gaps[..|ts|]) && Trailing(gaps[|ts|])
  {
    var ts, gaps := Lex(s).tokens, [[]] + rest;
    assert ts[1..] == Lex(s[n..]).tokens && gaps[1..] == rest;
    assert s[..n] + s[n..] == s;
    assert gaps[0] + s == s;
    forall k | 0 <= k < |ts| ensures Gap(gaps[k]) {
      if k > 0 { assert gaps[k] == rest[..|ts| - 1][k - 1]; }
    }
  }

  // ---------------------------------------------------------------- operators

  const OPERATORS: set<string> := {"<=", ">=", "==", "!=", "&&", "||", "<<", ">>", "##", "::"}

  /** Two operator characters side by side are one token exactly when they are one of these operators; else, unless they
      open a comment, they are two. */
  lemma TwoOperators(a: char, b: char)
    requires OpChar(a) && OpChar(b) && !CommentStart([a, b])
    ensures Lex([a, b]) == Tokens(if [a, b] in OPERATORS then [[a, b]] else [[a], [b]])
  {
    var s := [a, b];
    OpIsNoSpace(a);
    OpIsNoSpace(b);
    assert s[1..] == [b] && s[2..] == [] && [b][1..] == [];
    assert Lex([b]) == Tokens([[b]]) by { assert [b][..1] == [b]; }
    if Pair(a, b) {
      assert s[..2] == s;
      PairListed(a, b);
    } else {
      assert s[..1] == [a];
      PairListed(a, b);
    }
  }

  lemma OpIsNoSpace(c: char)
    requires OpChar(c)
    ensures !IsSpace(c) && !Letter(c) && !Digit(c) && c != '$' && c != '"'
  {
  }

  lemma PairListed(a: char, b: char)
    ensures Pair(a, b) <==> [a, b] in OPERATORS
  {
    var s := [a, b];
    if s in OPERATORS {
      assert s[0] == a && s[1] == b;
    }
    if Pair(a, b) {
      if a == '<' && b == '=' { assert s == "<="; } else if a == '>' && b == '=' { assert s == ">="; }
      else if a == '=' { assert s == "=="; } else if a == '!' { assert s == "!="; }
      else if a == '&' { assert s == "&&"; } else if a == '|' { assert s == "||"; }
      else if a == '<' { assert s == "<<"; } else if a == '>' { assert s == ">>"; }
      else if a == '#' { assert s == "##"; } else { assert s == "::"; }
    }
  }

  /** The two property arrows are one token each. */
  lemma Arrows(b: char)
    requires b == '-' || b == '='
    ensures Lex(['|', b, '>']) == Tokens([['|', b, '>']])
  {
    var s := ['|', b, '>'];
    assert s[3..] == [] && s[..3] == s;
  }

  // ---------------------------------------------------------------- one token, whole

  lemma WholeToken(s: string)
    requires s != [] && !CommentStart(s) && !IsSpace(s[0]) && TokenLength(s) == |s|
    ensures Lex(s) == Tokens([s])
  {
    assert s[..|s|] == s && s[|s|..] == [];
  }

  lemma RunWhole(p: char -> bool, s: string)
    requires All(p, s)
    ensures Run(p, s) == |s|
  {
    RunIs(p, s, []);
    assert s + [] == s;
  }

  /** An identifier, system functions included, is one token. */
  lemma NameIsToken(name: string)
    requires IsName(name)
    ensures Lex(name) == Tokens([name]) && Lex(['$'] + name) == Tokens([['$'] + name])
  {
    RunWhole(Word, name);
    assert (['$'] + name)[1..] == name;
    WholeToken(name);
    WholeToken(['$'] + name);
  }

  /** Digits are one token, with a decimal point and more digits too, and so is a sized literal. */
  lemma NumberIsToken(digits: string, base: char, more: string)
    requires digits != [] && All(Digit, digits) && more != []
    ensures Lex(digits) == Tokens([digits])
    ensures All(Digit, more) ==> Lex(digits + (['.'] + more)) == Tokens([digits + (['.'] + more)])
    ensures Base(base) && All(BaseDigit, more) ==>
              Lex(digits + (['\'', base] + more)) == Tokens([digits + (['\'', base] + more)])
  {
    RunWhole(Digit, digits);
    WholeToken(digits);
    if All(Digit, more) { DecimalIsToken(digits, more); }
    if Base(base) && All(BaseDigit, more) { SizedIsToken(digits, base, more); }
  }

  lemma DecimalIsToken(digits: string, more: string)
    requires digits != [] && All(Digit, digits) && more != [] && All(Digit, more)
    ensures Lex(digits + (['.'] + more)) == Tokens([digits + (['.'] + more)])
  {
    var s := digits + (['.'] + more);
    RunIs(Digit, digits, ['.'] + more);
    RunWhole(Digit, more);
    assert s[|digits| + 1..] == more;
    WholeToken(s);
  }

  lemma SizedIsToken(digits: string, base: char, more: string)
    requires digits != [] && All(Digit, digits) && more != [] && Base(base) && All(BaseDigit, more)
    ensures Lex(digits + (['\'', base] + more)) == Tokens([digits + (['\'', base] + more)])
  {
    var s := digits + (['\'', base] + more);
    RunIs(Digit, digits, ['\'', base] + more);
    RunWhole(BaseDigit, more);
    assert s[|digits| + 2..] == more;
    WholeToken(s);
  }

  /** So is a string literal; a quote inside it that a backslash precedes does not end it. */
  lemma StringIsToken(body: string)
    requires EscapedBody(body)
    ensures var s := ['"'] + (body + ['"']); Lex(s) == Tokens([s])
  {
    var s := ['"'] + (body + ['"']);
    BodyWhole(body);
    assert s[1..] == body + ['"'];
    WholeToken(s);
  }

  /** No quote but after a backslash, and no backslash but before something. */
  predicate EscapedBody(s: string) {
    if s == [] then true
    else if s[0] == '\\' then |s| >= 2 && s[1] != '\n' && EscapedBody(s[2..])
    else s[0] != '"' && EscapedBody(s[1..])
  }

  lemma {:induction false} BodyWhole(body: string)
    requires EscapedBody(body)
    ensures StringBody(body + ['"']) == |body| + 1
    decreases |body|
  {
    var s := body + ['"'];
    if body != [] {
      if body[0] == '\\' {
        assert s[2..] == body[2..] + ['"'];
        BodyWhole(body[2..]);
      } else {
        assert s[1..] == body[1..] + ['"'];
        BodyWhole(body[1..]);
      }
    }
  }
}
