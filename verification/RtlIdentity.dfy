/** The two normal forms that decide whether a repair candidate is unchanged
    (`_normalize_rtl_for_identity` and the text hashed by `_rtl_identity_hash` in
    src/mind3/core/driver.py). */
module RtlIdentity {
  import opened Sequences

  /** Python's whitespace: what `\s` matches and what `strip` removes. */
  predicate IsSpace(c: char) {
    '\t' <= c <= '\r' || '\U{1C}' <= c <= ' ' || c == '\U{85}' || c == '\U{A0}' || c == '\U{1680}' ||
    '\U{2000}' <= c <= '\U{200A}' || c == '\U{2028}' || c == '\U{2029}' || c == '\U{202F}' ||
    c == '\U{205F}' || c == '\U{3000}'
  }

  // ---------------------------------------------------------------- the wide normal form

  /** The text after the first close marker, if there is one. */
  function AfterClose(s: string): (r: (bool, string))
    ensures r.0 ==> |r.1| < |s|
  {
    if s == [] then (false, []) else if "*/" <= s then (true, s[2..]) else AfterClose(s[1..])
  }

  /** Each block comment becomes one space; an unterminated one stays. */
  function StripBlocks(s: string): string
    decreases |s|
  {
    if s == [] then [] else
    if "/*" <= s && AfterClose(s[2..]).0 then " " + StripBlocks(AfterClose(s[2..]).1)
    else [s[0]] + StripBlocks(s[1..])
  }

  /** The text from the first line feed on. */
  function DropLine(s: string): (r: string)
    ensures |r| <= |s|
  {
    if s == [] || s[0] == '\n' then s else DropLine(s[1..])
  }

  function StripLines(s: string): string
    decreases |s|
  {
    if s == [] then [] else
    if "//" <= s then " " + StripLines(DropLine(s)) else [s[0]] + StripLines(s[1..])
  }

  function LStrip(s: string): (r: string)
    ensures |r| <= |s|
  {
    if s != [] && IsSpace(s[0]) then LStrip(s[1..]) else s
  }

  function RStrip(s: string): (r: string)
    ensures |r| <= |s|
  {
    if s != [] && IsSpace(s[|s| - 1]) then RStrip(s[..|s| - 1]) else s
  }

  function Strip(s: string): string { RStrip(LStrip(s)) }

  function Collapse(s: string): string
    decreases |s|
  {
    if s == [] then [] else
    if IsSpace(s[0]) then " " + Collapse(LStrip(s[1..])) else [s[0]] + Collapse(s[1..])
  }

  /** `_normalize_rtl_for_identity`. */
  function Wide(code: string): string {
    Strip(Collapse(StripLines(StripBlocks(code))))
  }

  // ---------------------------------------------------------------- the narrow normal form

  function ReplaceCrLf(s: string): string
    decreases |s|
  {
    if s == [] then [] else
    if "\r\n" <= s then "\n" + ReplaceCrLf(s[2..]) else [s[0]] + ReplaceCrLf(s[1..])
  }

  function ReplaceCr(s: string): string {
    if s == [] then [] else [if s[0] == '\r' then '\n' else s[0]] + ReplaceCr(s[1..])
  }

  function LineLength(s: string): (n: nat)
    ensures n <= |s| && (n < |s| ==> s[n] == '\n') && forall i :: 0 <= i < n ==> s[i] != '\n'
  {
    if s == [] || s[0] == '\n' then 0 else 1 + LineLength(s[1..])
  }

  /** Every line without its trailing whitespace. */
  function TrimLines(s: string): string
    decreases |s|
  {
    var n := LineLength(s);
    if n == |s| then RStrip(s) else RStrip(s[..n]) + "\n" + TrimLines(s[n + 1..])
  }

  /** The text `_rtl_identity_hash` digests. */
  function Narrow(source: string): string {
    Strip(TrimLines(ReplaceCr(ReplaceCrLf(source))))
  }

  // ---------------------------------------------------------------- a scanner for Strip(Collapse(_))

  /** One space between words, none at the ends, written as a single left-to-right scan. */
  function Words(s: string, gap: bool, started: bool): string {
    if s == [] then [] else
    if IsSpace(s[0]) then Words(s[1..], true, started)
    else (if gap && started then " " else "") + [s[0]] + Words(s[1..], false, true)
  }

  ghost predicate Blank(s: string) { forall c :: c in s ==> IsSpace(c) }

  lemma {:induction false} RStripCons(h: char, t: string)
    ensures RStrip([h] + t) == if IsSpace(h) && RStrip(t) == [] then [] else [h] + RStrip(t)
    decreases |t|
  {
    var s := [h] + t;
    if t != [] && IsSpace(t[|t| - 1]) {
      assert s[..|s| - 1] == [h] + t[..|t| - 1];
      RStripCons(h, t[..|t| - 1]);
    } else if t == [] {
      assert s[..0] == [];
    }
  }

  /** How the two flags of the scan matter. */
  lemma {:induction false} WordsFlags(s: string)
    ensures Words(s, true, false) == Words(s, false, false)
    ensures Words(s, true, true) == (if Words(s, true, false) != [] then " " else "") + Words(s, true, false)
    ensures s != [] && !IsSpace(s[0]) ==> Words(s, false, true) == Words(s, false, false)
    ensures s != [] && IsSpace(s[0]) ==> Words(s, false, true) == Words(s, true, true)
  {
    if s != [] {
      WordsFlags(s[1..]);
      if !IsSpace(s[0]) {
        assert Words(s, true, true) == " " + [s[0]] + Words(s[1..], false, true);
        assert Words(s, true, false) == "" + [s[0]] + Words(s[1..], false, true);
      }
    }
  }

  /** Collapsing and trimming the right end is the scan, up to one leading space. */
  lemma {:induction false} CollapseScan(s: string)
    ensures RStrip(Collapse(s)) == Scanned(s)
    decreases |s|
  {
    if s == [] { return; }
    WordsFlags(s);
    if IsSpace(s[0]) {
      CollapseScan(LStrip(s[1..]));
      CollapseSpace(s);
    } else {
      CollapseScan(s[1..]);
      CollapseWord(s);
    }
  }

  /** What `CollapseScan` says about one text. */
  function Scanned(s: string): string {
    (if s != [] && IsSpace(s[0]) && Words(s, true, false) != [] then " " else "") + Words(s, false, false)
  }

  lemma CollapseSpace(s: string)
    requires s != [] && IsSpace(s[0]) && RStrip(Collapse(LStrip(s[1..]))) == Scanned(LStrip(s[1..]))
    ensures RStrip(Collapse(s)) == Scanned(s)
  {
    var rest := LStrip(s[1..]);
    WordsSkip(s[1..]);
    LStripHead(s[1..]);
    WordsFlags(rest);
    WordsFlags(s[1..]);
    var w := Words(rest, false, false);
    assert Scanned(rest) == [] + w == w;
    assert Words(s, false, false) == w && Words(s, true, false) == w;
    RStripCons(' ', Collapse(rest));
  }

  lemma CollapseWord(s: string)
    requires s != [] && !IsSpace(s[0]) && RStrip(Collapse(s[1..])) == Scanned(s[1..])
    ensures RStrip(Collapse(s)) == Scanned(s)
  {
    WordsFlags(s[1..]);
    RStripCons(s[0], Collapse(s[1..]));
    assert Words(s[1..], false, true) == Scanned(s[1..]);
    assert Words(s, false, false) == [] + [s[0]] + Words(s[1..], false, true);
  }

  lemma {:induction false} WordsSkip(s: string)
    ensures Words(LStrip(s), true, false) == Words(s, true, false)
    ensures Words(LStrip(s), true, true) == Words(s, true, true)
  {
    if s != [] && IsSpace(s[0]) { WordsSkip(s[1..]); }
  }

  lemma {:induction false} LStripHead(s: string)
    ensures LStrip(s) == [] || !IsSpace(LStrip(s)[0])
  {
    if s != [] && IsSpace(s[0]) { LStripHead(s[1..]); }
  }

  lemma {:induction false} StripSwap(s: string)
    ensures RStrip(LStrip(s)) == LStrip(RStrip(s))
    decreases |s|
  {
    if s != [] {
      assert s == [s[0]] + s[1..];
      RStripCons(s[0], s[1..]);
      StripSwap(s[1..]);
    }
  }

  lemma WordsHead(s: string)
    ensures Words(s, false, false) == [] || !IsSpace(Words(s, false, false)[0])
  {
    if s != [] && IsSpace(s[0]) { WordsFlags(s[1..]); WordsHead(s[1..]); }
  }

  lemma StripCollapse(s: string)
    ensures Strip(Collapse(s)) == Words(s, false, false)
  {
    StripSwap(Collapse(s));
    CollapseScan(s);
    WordsHead(s);
    var w := Words(s, false, false);
    assert (" " + w)[1..] == w && ("" + w) == w;
  }

  // ---------------------------------------------------------------- deleting spaces at line ends

  /** Nothing but whitespace up to the next line feed or the end of the text. */
  predicate AtLineEnd(s: string) {
    s == [] || s[0] == '\n' || (IsSpace(s[0]) && AtLineEnd(s[1..]))
  }

  /** `y` is `x` with some whitespace deleted from the ends of lines. */
  ghost predicate Trimmed(x: string, y: string)
    decreases |x|
  {
    || (x == [] && y == [])
    || (x != [] && y != [] && x[0] == y[0] && Trimmed(x[1..], y[1..]))
    || (x != [] && IsSpace(x[0]) && x[0] != '\n' && AtLineEnd(x[1..]) && Trimmed(x[1..], y))
  }

  lemma {:induction false} TrimmedLineEnd(x: string, y: string)
    requires Trimmed(x, y) && AtLineEnd(x)
    ensures y == [] || IsSpace(y[0])
    decreases |x|
  {
    if x != [] && !(y != [] && x[0] == y[0]) { TrimmedLineEnd(x[1..], y); }
  }

  /** Which heads a trimmed pair can have. */
  lemma TrimmedHead(x: string, y: string)
    requires Trimmed(x, y)
    ensures x != [] && !IsSpace(x[0]) ==> y != [] && x[0] == y[0] && Trimmed(x[1..], y[1..])
    ensures y != [] && !IsSpace(y[0]) ==> x != [] && x[0] == y[0] && Trimmed(x[1..], y[1..])
  {
    if x != [] && IsSpace(x[0]) && y != [] && !IsSpace(y[0]) && AtLineEnd(x[1..]) && Trimmed(x[1..], y) {
      TrimmedLineEnd(x[1..], y);
    }
  }

  lemma TrimmedPair(x: string, y: string, a: char, b: char)
    requires Trimmed(x, y) && !IsSpace(a) && !IsSpace(b)
    ensures [a, b] <= x <==> [a, b] <= y
    ensures [a, b] <= x ==> Trimmed(x[2..], y[2..])
  {
    TrimmedHead(x, y);
    if x != [] && y != [] && !IsSpace(x[0]) {
      TrimmedHead(x[1..], y[1..]);
      if [a, b] <= x { assert x[1] == b; assert x[2..] == x[1..][1..] && y[2..] == y[1..][1..]; }
      if [a, b] <= y { assert y[1] == b; }
    }
  }

  lemma {:induction false} TrimmedClose(x: string, y: string)
    requires Trimmed(x, y)
    ensures AfterClose(x).0 == AfterClose(y).0
    ensures AfterClose(x).0 ==> Trimmed(AfterClose(x).1, AfterClose(y).1)
    decreases |x|
  {
    TrimmedPair(x, y, '*', '/');
    if x != [] && !("*/" <= x) {
      if y != [] && x[0] == y[0] && Trimmed(x[1..], y[1..]) { TrimmedClose(x[1..], y[1..]); } else { TrimmedClose(x[1..], y); }
    }
  }

  lemma {:induction false} BlocksLineEnd(x: string)
    requires AtLineEnd(x)
    ensures AtLineEnd(StripBlocks(x))
  {
    if x != [] && x[0] != '\n' { BlocksLineEnd(x[1..]); }
  }

  lemma {:induction false} BlocksTrimmed(x: string, y: string)
    requires Trimmed(x, y)
    ensures Trimmed(StripBlocks(x), StripBlocks(y))
    decreases |x|
  {
    TrimmedPair(x, y, '/', '*');
    if x == [] { return; }
    if "/*" <= x {
      TrimmedClose(x[2..], y[2..]);
      if AfterClose(x[2..]).0 { BlocksTrimmed(AfterClose(x[2..]).1, AfterClose(y[2..]).1); return; }
      TrimmedHead(x, y);
      BlocksTrimmed(x[1..], y[1..]);
    } else if y != [] && x[0] == y[0] && Trimmed(x[1..], y[1..]) {
      BlocksTrimmed(x[1..], y[1..]);
    } else {
      BlocksTrimmed(x[1..], y);
      BlocksLineEnd(x[1..]);
      assert StripBlocks(x)[1..] == StripBlocks(x[1..]);
    }
  }

  lemma {:induction false} DropLineTrimmed(x: string, y: string)
    requires Trimmed(x, y)
    ensures Trimmed(DropLine(x), DropLine(y))
    decreases |x|
  {
    if x != [] {
      if y != [] && x[0] == y[0] && Trimmed(x[1..], y[1..]) {
        if x[0] != '\n' { DropLineTrimmed(x[1..], y[1..]); }
      } else {
        DropLineTrimmed(x[1..], y);
      }
    }
  }

  lemma {:induction false} LinesLineEnd(x: string)
    requires AtLineEnd(x)
    ensures AtLineEnd(StripLines(x))
  {
    if x != [] && x[0] != '\n' { LinesLineEnd(x[1..]); }
  }

  lemma {:induction false} LinesTrimmed(x: string, y: string)
    requires Trimmed(x, y)
    ensures Trimmed(StripLines(x), StripLines(y))
    decreases |x|
  {
    TrimmedPair(x, y, '/', '/');
    if x == [] { return; }
    if "//" <= x {
      DropLineTrimmed(x, y);
      DropShorter(x);
      LinesTrimmed(DropLine(x), DropLine(y));
    } else if y != [] && x[0] == y[0] && Trimmed(x[1..], y[1..]) {
      LinesTrimmed(x[1..], y[1..]);
    } else {
      LinesTrimmed(x[1..], y);
      LinesLineEnd(x[1..]);
      assert StripLines(x)[1..] == StripLines(x[1..]);
    }
  }

  lemma DropShorter(x: string)
    requires "//" <= x
    ensures |DropLine(x)| < |x|
  {
    assert x[0] == '/';
  }

  lemma {:induction false} WordsTrimmed(x: string, y: string, gap: bool, started: bool)
    requires Trimmed(x, y)
    ensures Words(x, gap, started) == Words(y, gap, started)
    decreases |x|
  {
    if x == [] { return; }
    if y != [] && x[0] == y[0] && Trimmed(x[1..], y[1..]) {
      WordsTrimmed(x[1..], y[1..], if IsSpace(x[0]) then true else false, if IsSpace(x[0]) then started else true);
    } else {
      WordsTrimmed(x[1..], y, true, started);
      TrimmedLineEnd(x[1..], y);
    }
  }

  lemma WideWords(code: string)
    ensures Wide(code) == Words(StripLines(StripBlocks(code)), false, false)
  {
    StripCollapse(StripLines(StripBlocks(code)));
  }

  /** Deleting whitespace at line ends never changes the wide form. */
  lemma WideTrimmed(x: string, y: string)
    requires Trimmed(x, y)
    ensures Wide(x) == Wide(y)
  {
    BlocksTrimmed(x, y);
    LinesTrimmed(StripBlocks(x), StripBlocks(y));
    WordsTrimmed(StripLines(StripBlocks(x)), StripLines(StripBlocks(y)), false, false);
    WideWords(x);
    WideWords(y);
  }

  // ---------------------------------------------------------------- one space at either end

  lemma PairSnoc(a: char, b: char, s: string, c: char)
    requires IsSpace(c) && !IsSpace(b)
    ensures [a, b] <= s + [c] <==> [a, b] <= s
  {
    if [a, b] <= s + [c] { assert (s + [c])[1] == b; }
  }

  lemma {:induction false} CloseSnoc(s: string, c: char)
    requires IsSpace(c)
    ensures AfterClose(s + [c]).0 == AfterClose(s).0
    ensures AfterClose(s).0 ==> AfterClose(s + [c]).1 == AfterClose(s).1 + [c]
  {
    if s == [] {
      assert AfterClose([c][1..]) == (false, []);
    } else {
      assert (s + [c])[1..] == s[1..] + [c];
      PairSnoc('*', '/', s, c);
      if !("*/" <= s) { CloseSnoc(s[1..], c); }
    }
  }

  lemma {:induction false} BlocksSnoc(s: string, c: char)
    requires IsSpace(c)
    ensures StripBlocks(s + [c]) == StripBlocks(s) + [c]
    decreases |s|
  {
    var t := s + [c];
    if s == [] { assert t[1..] == []; return; }
    assert t[1..] == s[1..] + [c];
    PairSnoc('/', '*', s, c);
    if "/*" <= s {
      assert t[2..] == s[2..] + [c];
      CloseSnoc(s[2..], c);
      if AfterClose(s[2..]).0 { BlocksSnoc(AfterClose(s[2..]).1, c); return; }
    }
    BlocksSnoc(s[1..], c);
  }

  lemma {:induction false} DropSnoc(s: string, c: char)
    ensures DropLine(s + [c]) == if DropLine(s) == [] && c != '\n' then [] else DropLine(s) + [c]
  {
    var t := s + [c];
    if s == [] { assert t[1..] == []; } else {
      assert t[1..] == s[1..] + [c];
      if s[0] != '\n' { DropSnoc(s[1..], c); }
    }
  }

  /** A trailing space survives the removal of line comments or is swallowed by the last one. */
  lemma {:induction false} LinesSnoc(s: string, c: char)
    requires IsSpace(c)
    ensures StripLines(s + [c]) == StripLines(s) + [c] || StripLines(s + [c]) == StripLines(s)
    decreases |s|
  {
    var t := s + [c];
    if s == [] { assert t[1..] == []; return; }
    assert t[1..] == s[1..] + [c];
    PairSnoc('/', '/', s, c);
    if "//" <= s {
      DropSnoc(s, c);
      DropShorter(s);
      if DropLine(t) != [] { LinesSnoc(DropLine(s), c); }
    } else {
      LinesSnoc(s[1..], c);
    }
  }

  lemma {:induction false} WordsSnoc(s: string, c: char, gap: bool, started: bool)
    requires IsSpace(c)
    ensures Words(s + [c], gap, started) == Words(s, gap, started)
  {
    var t := s + [c];
    if s == [] { assert t[1..] == []; } else {
      assert t[1..] == s[1..] + [c];
      WordsSnoc(s[1..], c, if IsSpace(s[0]) then true else false, if IsSpace(s[0]) then started else true);
    }
  }

  lemma WideSnoc(s: string, c: char)
    requires IsSpace(c)
    ensures Wide(s + [c]) == Wide(s)
  {
    BlocksSnoc(s, c);
    LinesSnoc(StripBlocks(s), c);
    WordsSnoc(StripLines(StripBlocks(s)), c, false, false);
    WideWords(s);
    WideWords(s + [c]);
  }

  lemma WideCons(c: char, s: string)
    requires IsSpace(c)
    ensures Wide([c] + s) == Wide(s)
  {
    var t := [c] + s;
    assert t[1..] == s;
    var u := [c] + StripBlocks(s);
    assert StripBlocks(t) == u && u[1..] == StripBlocks(s);
    var v := [c] + StripLines(u[1..]);
    assert StripLines(u) == v && v[1..] == StripLines(u[1..]);
    WordsFlags(v[1..]);
    WideWords(s);
    WideWords(t);
  }

  lemma {:induction false} WideRStrip(s: string)
    ensures Wide(RStrip(s)) == Wide(s)
    decreases |s|
  {
    if s != [] && IsSpace(s[|s| - 1]) {
      var init := s[..|s| - 1];
      assert s == init + [s[|s| - 1]];
      WideRStrip(init);
      WideSnoc(init, s[|s| - 1]);
    }
  }

  lemma {:induction false} WideLStrip(s: string)
    ensures Wide(LStrip(s)) == Wide(s)
  {
    if s != [] && IsSpace(s[0]) {
      WideLStrip(s[1..]);
      assert s == [s[0]] + s[1..];
      WideCons(s[0], s[1..]);
    }
  }

  // ---------------------------------------------------------------- the narrow form only trims

  /** Turning CR LF into LF deletes whitespace at line ends. */
  lemma {:induction false} CrLfTrimmed(s: string)
    ensures Trimmed(s, ReplaceCrLf(s))
    decreases |s|
  {
    if s == [] { return; }
    var y := ReplaceCrLf(s);
    if "\r\n" <= s {
      assert s[1..][1..] == s[2..];
      CrLfTrimmed(s[2..]);
      assert y == "\n" + ReplaceCrLf(s[2..]);
      assert y[1..] == ReplaceCrLf(s[2..]);
      assert s[1..][0] == '\n' && Trimmed(s[1..], y);
    } else {
      CrLfTrimmed(s[1..]);
      assert y[1..] == ReplaceCrLf(s[1..]);
    }
  }

  lemma {:induction false} SpacesAtLineEnd(a: string, b: string)
    requires Blank(a) && (b == [] || b[0] == '\n')
    ensures AtLineEnd(a + b)
  {
    if a != [] {
      assert (a + b)[1..] == a[1..] + b && (a + b)[0] == a[0];
      assert a[0] in a;
      SpacesAtLineEnd(a[1..], b);
    } else {
      assert a + b == b;
    }
  }

  lemma {:induction false} BlankRStrip(s: string)
    ensures RStrip(s) == [] <==> Blank(s)
  {
    if s != [] {
      var n := |s| - 1;
      if IsSpace(s[n]) { BlankRStrip(s[..n]); assert s == s[..n] + [s[n]]; } else { assert s[n] in s; }
    }
  }

  /** Trimming the end of one line, followed by the rest of the text. */
  lemma {:induction false} LineTrimmed(line: string, rest: string, rest': string)
    requires (forall i :: 0 <= i < |line| ==> line[i] != '\n') && (rest == [] || rest[0] == '\n')
    requires Trimmed(rest, rest')
    ensures Trimmed(line + rest, RStrip(line) + rest')
  {
    if line == [] {
      assert line + rest == rest && RStrip(line) + rest' == rest';
    } else {
      var x := line + rest;
      assert x[1..] == line[1..] + rest && line == [line[0]] + line[1..];
      LineTrimmed(line[1..], rest, rest');
      RStripCons(line[0], line[1..]);
      if IsSpace(line[0]) && RStrip(line[1..]) == [] {
        BlankRStrip(line[1..]);
        SpacesAtLineEnd(line[1..], rest);
        assert [] + rest' == rest';
      } else {
        var y := RStrip(line) + rest';
        assert y[0] == line[0] && y[1..] == RStrip(line[1..]) + rest';
      }
    }
  }

  lemma {:induction false} TrimLinesTrimmed(s: string)
    ensures Trimmed(s, TrimLines(s))
    decreases |s|
  {
    var n := LineLength(s);
    if n == |s| {
      LineTrimmed(s, [], []);
      assert s + [] == s && RStrip(s) + [] == RStrip(s);
    } else {
      TrimLinesTrimmed(s[n + 1..]);
      FirstLineTrimmed(s[..n], s[n + 1..], TrimLines(s[n + 1..]));
      assert s[..n] + "\n" + s[n + 1..] == s;
    }
  }

  lemma FirstLineTrimmed(line: string, rest: string, rest': string)
    requires (forall i :: 0 <= i < |line| ==> line[i] != '\n') && Trimmed(rest, rest')
    ensures Trimmed(line + "\n" + rest, RStrip(line) + "\n" + rest')
  {
    var x, y := "\n" + rest, "\n" + rest';
    assert x[1..] == rest && y[1..] == rest';
    LineTrimmed(line, x, y);
    assert line + "\n" + rest == line + x && RStrip(line) + "\n" + rest' == RStrip(line) + y;
  }

  /** The text with LF for every CR LF and for every CR left. */
  function LineFeeds(s: string): string { ReplaceCr(ReplaceCrLf(s)) }

  /** What the narrow form does besides replacing line ends never changes the wide form. */
  lemma WideOfNarrow(s: string)
    ensures Wide(Narrow(s)) == Wide(LineFeeds(s)) && Wide(ReplaceCrLf(s)) == Wide(s)
  {
    var lf := LineFeeds(s);
    CrLfTrimmed(s);
    WideTrimmed(s, ReplaceCrLf(s));
    TrimLinesTrimmed(lf);
    WideTrimmed(lf, TrimLines(lf));
    WideLStrip(TrimLines(lf));
    WideRStrip(LStrip(TrimLines(lf)));
  }

  // ---------------------------------------------------------------- lone carriage returns

  /** The text from the first carriage return on. */
  function DropReturn(s: string): (r: string)
    ensures |r| <= |s|
  {
    if s == [] || s[0] == '\r' then s else DropReturn(s[1..])
  }

  function Comment(s: string): string { s[..|s| - |DropLine(s)|] }

  /** What lone carriage returns uncover: a line comment runs to the line feed, but once its carriage returns
      are line feeds it ends at the first of them, and the rest of it is text, with comments of its own. */
  function Uncovered(s: string): string
    decreases |s|
  {
    if s == [] then []
    else if "//" <= s then StripLines(ReplaceCr(DropReturn(Comment(s)))) + Uncovered(DropLine(s))
    else Uncovered(s[1..])
  }

  /** No carriage return uncovers anything visible; those of CR LF pairs never do. */
  ghost predicate ReturnsHarmless(s: string) { Blank(Uncovered(StripBlocks(ReplaceCrLf(s)))) }

  /** The visible characters, counted. */
  function Ink(s: string): nat {
    if s == [] then 0 else (if IsSpace(s[0]) then 0 else 1) + Ink(s[1..])
  }

  lemma {:induction false} InkJoins(a: string, b: string)
    ensures Ink(a + b) == Ink(a) + Ink(b)
  {
    if a == [] {
      assert a + b == b;
    } else {
      assert (a + b)[1..] == a[1..] + b;
      InkJoins(a[1..], b);
    }
  }

  lemma {:induction false} InkBlank(s: string)
    ensures Ink(s) == 0 <==> Blank(s)
  {
    if s != [] {
      InkBlank(s[1..]);
      assert s == [s[0]] + s[1..] && s[0] in s;
    }
  }

  lemma {:induction false} InkWords(s: string, gap: bool, started: bool)
    ensures Ink(Words(s, gap, started)) == Ink(s)
  {
    if s != [] {
      if IsSpace(s[0]) {
        InkWords(s[1..], true, started);
      } else {
        InkWords(s[1..], false, true);
        InkOne(if gap && started then " " else "", s[0], Words(s[1..], false, true));
      }
    }
  }

  lemma InkOne(gap: string, c: char, rest: string)
    requires gap == "" || gap == " "
    ensures Ink(gap + [c] + rest) == (if IsSpace(c) then 0 else 1) + Ink(rest)
  {
    InkJoins(gap + [c], rest);
    InkJoins(gap, [c]);
    assert Ink([c]) == if IsSpace(c) then 0 else 1 by { assert [c][1..] == []; }
    if gap == " " { assert gap[1..] == []; }
  }

  lemma {:induction false} WordsBlank(a: string, b: string, started: bool)
    requires Blank(a)
    ensures Words(a + b, true, started) == Words(b, true, started)
  {
    if a == [] {
      assert a + b == b;
    } else {
      assert a[0] in a && (a + b)[1..] == a[1..] + b;
      WordsBlank(a[1..], b, started);
    }
  }

  lemma {:induction false} ReplaceCrJoins(a: string, b: string)
    ensures ReplaceCr(a + b) == ReplaceCr(a) + ReplaceCr(b)
  {
    if a == [] {
      assert a + b == b;
    } else {
      assert (a + b)[1..] == a[1..] + b;
      ReplaceCrJoins(a[1..], b);
    }
  }

  lemma ReplaceCrHead(s: string)
    ensures "//" <= ReplaceCr(s) <==> "//" <= s
    ensures "/*" <= ReplaceCr(s) <==> "/*" <= s
    ensures "*/" <= ReplaceCr(s) <==> "*/" <= s
    ensures |s| >= 2 ==> |ReplaceCr(s)| >= 2 && ReplaceCr(s)[2..] == ReplaceCr(s[2..])
  {
    CrMap(s);
    if |s| >= 2 {
      assert ReplaceCr(s)[1..] == ReplaceCr(s[1..]) && s[1..][1..] == s[2..];
      assert ReplaceCr(s)[2..] == ReplaceCr(s)[1..][1..];
    }
    var r := ReplaceCr(s);
    PairAt(s, '/', '/'); PairAt(s, '/', '*'); PairAt(s, '*', '/');
    PairAt(r, '/', '/'); PairAt(r, '/', '*'); PairAt(r, '*', '/');
  }

  lemma {:induction false} ReplaceCrClose(s: string)
    ensures AfterClose(ReplaceCr(s)).0 == AfterClose(s).0
    ensures AfterClose(s).0 ==> AfterClose(ReplaceCr(s)).1 == ReplaceCr(AfterClose(s).1)
  {
    ReplaceCrHead(s);
    if s != [] && !("*/" <= s) {
      assert ReplaceCr(s)[1..] == ReplaceCr(s[1..]);
      ReplaceCrClose(s[1..]);
    }
  }

  /** Block comments do not care about line ends. */
  lemma {:induction false} ReplaceCrBlocks(s: string)
    ensures StripBlocks(ReplaceCr(s)) == ReplaceCr(StripBlocks(s))
    decreases |s|
  {
    if s != [] {
      ReplaceCrHead(s);
      if "/*" <= s { ReplaceCrClose(s[2..]); }
      if "/*" <= s && AfterClose(s[2..]).0 {
        ReplaceCrBlocks(AfterClose(s[2..]).1);
        ReplaceCrJoins(" ", StripBlocks(AfterClose(s[2..]).1));
        assert ReplaceCr(" ") == " " by { assert " "[1..] == []; }
      } else {
        ReplaceCrBlocks(s[1..]);
        assert ReplaceCr(s)[1..] == ReplaceCr(s[1..]);
        var rest := StripBlocks(s[1..]);
        assert ([s[0]] + rest)[1..] == rest;
      }
    }
  }

  lemma {:induction false} DropLineJoins(a: string, d: string)
    requires d == [] || d[0] == '\n'
    ensures DropLine(a + d) == DropLine(a) + d
  {
    if a == [] {
      assert a + d == d;
    } else if a[0] != '\n' {
      assert (a + d)[1..] == a[1..] + d;
      DropLineJoins(a[1..], d);
    }
  }

  lemma LinesCopy(s: string)
    requires s != [] && !("//" <= s)
    ensures StripLines(s) == [s[0]] + StripLines(s[1..])
  {
  }

  /** Line comments of a text and of what follows from a line feed on are stripped apart. */
  lemma {:induction false} LinesJoin(a: string, d: string)
    requires d == [] || d[0] == '\n'
    ensures StripLines(a + d) == StripLines(a) + StripLines(d)
    decreases |a|
  {
    if a == [] {
      assert a + d == d;
    } else if "//" <= a {
      CommentJoins(a, d);
      LinesJoin(DropLine(a), d);
      Assoc([' '], StripLines(DropLine(a)), StripLines(d));
    } else {
      PairJoins(a, d);
      assert (a + d)[1..] == a[1..] + d;
      LinesJoin(a[1..], d);
      LinesCopy(a);
      LinesCopy(a + d);
      Assoc([a[0]], StripLines(a[1..]), StripLines(d));
    }
  }

  lemma CommentJoins(a: string, d: string)
    requires "//" <= a && (d == [] || d[0] == '\n')
    ensures StripLines(a) == [' '] + StripLines(DropLine(a))
    ensures StripLines(a + d) == [' '] + StripLines(DropLine(a) + d)
    ensures |DropLine(a)| < |a|
  {
    DropShorter(a);
    DropLineJoins(a, d);
    PairAt(a, '/', '/');
    PairAt(a + d, '/', '/');
  }

  lemma PairJoins(a: string, d: string)
    requires a != [] && !("//" <= a) && (d == [] || d[0] == '\n')
    ensures !("//" <= a + d)
  {
    PairAt(a, '/', '/');
    PairAt(a + d, '/', '/');
  }

  /** With line feeds for carriage returns a line ends at its first carriage return. */
  lemma {:induction false} DropLineReturn(s: string)
    ensures DropLine(s) == s[|s| - |DropLine(s)|..]
    ensures DropLine(ReplaceCr(s)) == ReplaceCr(DropReturn(Comment(s))) + ReplaceCr(DropLine(s))
  {
    if s == [] || s[0] == '\n' {
      assert Comment(s) == [];
    } else {
      DropLineReturn(s[1..]);
      assert s == Comment(s) + DropLine(s);
      assert Comment(s) == [s[0]] + Comment(s[1..]);
      assert ReplaceCr(s)[1..] == ReplaceCr(s[1..]);
      if s[0] == '\r' {
        ReplaceCrJoins(Comment(s), DropLine(s));
      } else {
        assert Comment(s)[1..] == Comment(s[1..]);
      }
    }
  }

  /** The two readings of a line comment: to its end, or to its first carriage return. */
  lemma LinesReturn(s: string)
    requires "//" <= s
    ensures StripLines(ReplaceCr(s)) ==
            " " + (StripLines(ReplaceCr(DropReturn(Comment(s)))) + StripLines(ReplaceCr(DropLine(s))))
  {
    ReplaceCrHead(s);
    DropLineReturn(s);
    DropLineEnds(s);
    CrMap(DropLine(s));
    LinesJoin(ReplaceCr(DropReturn(Comment(s))), ReplaceCr(DropLine(s)));
  }

  lemma {:induction false} DropLineEnds(s: string)
    ensures DropLine(s) == [] || DropLine(s)[0] == '\n'
  {
    if s != [] && s[0] != '\n' { DropLineEnds(s[1..]); }
  }

  lemma {:induction false} InkReturns(s: string)
    ensures Ink(StripLines(ReplaceCr(s))) == Ink(StripLines(s)) + Ink(Uncovered(s))
    decreases |s|
  {
    if s != [] {
      ReplaceCrHead(s);
      if "//" <= s {
        DropShorter(s);
        LinesReturn(s);
        InkReturns(DropLine(s));
        var u, r := StripLines(ReplaceCr(DropReturn(Comment(s)))), StripLines(ReplaceCr(DropLine(s)));
        InkJoins(u, r);
        InkJoins(u, Uncovered(DropLine(s)));
        InkSpace(u + r);
        InkSpace(StripLines(DropLine(s)));
      } else {
        InkReturns(s[1..]);
        InkStep(s);
      }
    }
  }

  lemma InkSpace(s: string)
    ensures Ink(" " + s) == Ink(s)
  {
    assert (" " + s)[1..] == s;
  }

  lemma InkStep(s: string)
    requires s != [] && !("//" <= s) && !("//" <= ReplaceCr(s))
    ensures Ink(StripLines(s)) == (if IsSpace(s[0]) then 0 else 1) + Ink(StripLines(s[1..]))
    ensures Ink(StripLines(ReplaceCr(s))) == (if IsSpace(s[0]) then 0 else 1) + Ink(StripLines(ReplaceCr(s[1..])))
  {
    var r := ReplaceCr(s);
    assert r[1..] == ReplaceCr(s[1..]) && IsSpace(r[0]) == IsSpace(s[0]);
    assert ([s[0]] + StripLines(s[1..]))[1..] == StripLines(s[1..]);
    assert ([r[0]] + StripLines(r[1..]))[1..] == StripLines(r[1..]);
  }

  lemma {:induction false} WordsReturns(s: string, gap: bool, started: bool)
    requires Blank(Uncovered(s))
    ensures Words(StripLines(ReplaceCr(s)), gap, started) == Words(StripLines(s), gap, started)
    decreases |s|
  {
    if s != [] {
      ReplaceCrHead(s);
      if "//" <= s {
        DropShorter(s);
        LinesReturn(s);
        var u, r := StripLines(ReplaceCr(DropReturn(Comment(s)))), StripLines(ReplaceCr(DropLine(s)));
        assert Blank(u) && Blank(Uncovered(DropLine(s)));
        WordsReturns(DropLine(s), true, started);
        WordsBlank(u, r, started);
        WordsSpace(u + r, gap, started);
        WordsSpace(StripLines(DropLine(s)), gap, started);
      } else {
        WordsReturns(s[1..], IsSpace(s[0]), if IsSpace(s[0]) then started else true);
        WordsStep(s, gap, started);
      }
    }
  }

  lemma WordsSpace(s: string, gap: bool, started: bool)
    ensures Words(" " + s, gap, started) == Words(s, true, started)
  {
    assert (" " + s)[1..] == s;
  }

  lemma WordsStep(s: string, gap: bool, started: bool)
    requires s != [] && !("//" <= s) && !("//" <= ReplaceCr(s))
    requires var started' := if IsSpace(s[0]) then started else true;
      Words(StripLines(ReplaceCr(s[1..])), IsSpace(s[0]), started') == Words(StripLines(s[1..]), IsSpace(s[0]), started')
    ensures Words(StripLines(ReplaceCr(s)), gap, started) == Words(StripLines(s), gap, started)
  {
    var r := ReplaceCr(s);
    assert r[1..] == ReplaceCr(s[1..]) && IsSpace(r[0]) == IsSpace(s[0]);
    assert ([s[0]] + StripLines(s[1..]))[1..] == StripLines(s[1..]);
    assert ([r[0]] + StripLines(r[1..]))[1..] == StripLines(r[1..]);
  }

  /** The wide form absorbs the narrow one exactly when no lone carriage return uncovers visible text. */
  lemma WideAbsorbsExactly(s: string)
    ensures Wide(Narrow(s)) == Wide(s) <==> ReturnsHarmless(s)
  {
    var t := ReplaceCrLf(s);
    var bare := StripBlocks(t);
    WideOfNarrow(s);
    ReplaceCrBlocks(t);
    WideWords(t);
    WideWords(ReplaceCr(t));
    if ReturnsHarmless(s) {
      WordsReturns(bare, false, false);
    } else {
      InkReturns(bare);
      InkBlank(Uncovered(bare));
      InkWords(StripLines(bare), false, false);
      InkWords(StripLines(ReplaceCr(bare)), false, false);
    }
  }

  /** So of two texts with one narrow form, the first harmless, both have one wide form exactly when the second
      is harmless too. */
  lemma NarrowEqualWideEqual(a: string, b: string)
    requires ReturnsHarmless(a) && Narrow(a) == Narrow(b)
    ensures Wide(a) == Wide(b) <==> ReturnsHarmless(b)
  {
    WideAbsorbsExactly(a);
    WideAbsorbsExactly(b);
  }

  lemma {:induction false} NoReturnsUncoverNothing(s: string)
    requires '\r' !in s
    ensures Blank(Uncovered(s))
    decreases |s|
  {
    if s != [] {
      if "//" <= s {
        DropShorter(s);
        DropLineReturn(s);
        NoReturnsDropAll(Comment(s));
        NoReturnsUncoverNothing(DropLine(s));
      } else {
        NoReturnsUncoverNothing(s[1..]);
      }
    }
  }

  lemma {:induction false} NoReturnsDropAll(s: string)
    requires '\r' !in s
    ensures DropReturn(s) == []
  {
    if s != [] { NoReturnsDropAll(s[1..]); }
  }

  lemma {:induction false} BlocksKeepNoReturns(s: string)
    requires '\r' !in s
    ensures '\r' !in StripBlocks(s)
    decreases |s|
  {
    if s != [] {
      if "/*" <= s && AfterClose(s[2..]).0 {
        CloseInside(s[2..]);
        BlocksKeepNoReturns(AfterClose(s[2..]).1);
      } else {
        BlocksKeepNoReturns(s[1..]);
      }
    }
  }

  lemma {:induction false} CloseInside(s: string)
    ensures AfterClose(s).0 ==> forall c :: c in AfterClose(s).1 ==> c in s
  {
    if s != [] && !("*/" <= s) { CloseInside(s[1..]); }
  }

  /** Carriage returns that all belong to CR LF pairs are harmless. */
  lemma PairedReturnsHarmless(s: string)
    requires PairedReturns(s)
    ensures ReturnsHarmless(s)
  {
    PairedReplaced(s);
    BlocksKeepNoReturns(ReplaceCrLf(s));
    NoReturnsUncoverNothing(StripBlocks(ReplaceCrLf(s)));
  }

  predicate PairedReturns(s: string) {
    forall i :: 0 <= i < |s| && s[i] == '\r' ==> i + 1 < |s| && s[i + 1] == '\n'
  }

  lemma {:induction false} PairedReplaced(s: string)
    requires PairedReturns(s)
    ensures '\r' !in ReplaceCrLf(s)
    decreases |s|
  {
    if s != [] {
      PairAt(s, '\r', '\n');
      if "\r\n" <= s { PairedReplaced(s[2..]); } else { PairedReplaced(s[1..]); }
    }
  }

  // ---------------------------------------------------------------- the wide form is a normal form

  ghost predicate HasClose(s: string) { AfterClose(s).0 }

  /** No block comment, terminated, starts anywhere in the text. */
  ghost predicate BlockFree(s: string) {
    s == [] || (!("/*" <= s && HasClose(s[2..])) && BlockFree(s[1..]))
  }

  ghost predicate LineFree(s: string) {
    s == [] || (!("//" <= s) && LineFree(s[1..]))
  }

  lemma {:induction false} BlockFreeFixed(s: string)
    requires BlockFree(s)
    ensures StripBlocks(s) == s
  {
    if s != [] { BlockFreeFixed(s[1..]); }
  }

  lemma {:induction false} LineFreeFixed(s: string)
    requires LineFree(s)
    ensures StripLines(s) == s
  {
    if s != [] { LineFreeFixed(s[1..]); }
  }

  lemma PairAt(t: string, a: char, b: char)
    ensures [a, b] <= t <==> |t| >= 2 && t[0] == a && t[1] == b
  {
    if |t| >= 2 && t[0] == a && t[1] == b { assert t[..2] == [a, b]; }
  }

  lemma {:induction false} CloseThen(g: string, r: string)
    requires AfterClose(g).0
    ensures AfterClose(g + r) == (true, AfterClose(g).1 + r)
  {
    PairAt(g, '*', '/');
    PairAt(g + r, '*', '/');
    if "*/" <= g {
      assert (g + r)[2..] == g[2..] + r;
    } else {
      assert (g + r)[1..] == g[1..] + r;
      CloseThen(g[1..], r);
    }
  }

  lemma SpaceFirst(t: string)
    requires t != [] && IsSpace(t[0])
    ensures !("/*" <= t) && !("//" <= t) && !("*/" <= t)
  {
    PairAt(t, '/', '*'); PairAt(t, '/', '/'); PairAt(t, '*', '/');
  }

  lemma BlocksHead(s: string)
    ensures StripBlocks(s) != [] && !IsSpace(StripBlocks(s)[0]) ==>
              s != [] && StripBlocks(s) == [s[0]] + StripBlocks(s[1..])
  {
  }

  lemma LinesHead(s: string)
    ensures StripLines(s) != [] && !IsSpace(StripLines(s)[0]) ==>
              s != [] && StripLines(s) == [s[0]] + StripLines(s[1..])
  {
  }

  lemma WordsHeadCopied(s: string, started: bool)
    ensures Words(s, false, started) != [] && !IsSpace(Words(s, false, started)[0]) && (s == [] || !IsSpace(s[0])) ==>
              s != [] && Words(s, false, started) == [s[0]] + Words(s[1..], false, true)
    ensures started && s != [] && IsSpace(s[0]) && Words(s, false, true) != [] ==> Words(s, false, true)[0] == ' '
  {
    WordsFlags(s);
  }

  lemma {:induction false} BlocksClose(s: string)
    requires HasClose(StripBlocks(s))
    ensures HasClose(s)
    decreases |s|
  {
    if "/*" <= s && HasClose(s[2..]) {
      assert s[1..][1..] == s[2..];
    } else {
      assert StripBlocks(s)[1..] == StripBlocks(s[1..]);
      BlocksHead(s[1..]);
      if "*/" <= StripBlocks(s) { assert StripBlocks(s)[1] == '/'; } else { BlocksClose(s[1..]); }
    }
  }

  lemma {:induction false} BlocksFree(s: string)
    ensures BlockFree(StripBlocks(s))
    decreases |s|
  {
    if s == [] { return; }
    var t := StripBlocks(s);
    if "/*" <= s && HasClose(s[2..]) {
      BlocksFree(AfterClose(s[2..]).1);
      assert t[1..] == StripBlocks(AfterClose(s[2..]).1);
      SpaceFirst(t);
    } else {
      BlocksFree(s[1..]);
      assert t[1..] == StripBlocks(s[1..]);
      BlocksHead(s[1..]);
      if "/*" <= t && HasClose(t[2..]) {
        assert t[1] == '*' && t[2..] == StripBlocks(s[1..])[1..] == StripBlocks(s[2..]);
        BlocksClose(s[2..]);
        assert false;
      }
    }
  }

  lemma {:induction false} DropLineKeeps(s: string)
    ensures HasClose(DropLine(s)) ==> HasClose(s)
    ensures BlockFree(s) ==> BlockFree(DropLine(s))
  {
    if s != [] && s[0] != '\n' { DropLineKeeps(s[1..]); }
  }

  lemma {:induction false} LinesClose(s: string)
    requires HasClose(StripLines(s))
    ensures HasClose(s)
    decreases |s|
  {
    if "//" <= s {
      DropShorter(s);
      assert StripLines(s)[1..] == StripLines(DropLine(s));
      SpaceFirst(StripLines(s));
      LinesClose(DropLine(s));
      DropLineKeeps(s);
    } else {
      assert StripLines(s)[1..] == StripLines(s[1..]);
      LinesHead(s[1..]);
      if "*/" <= StripLines(s) { assert StripLines(s)[1] == '/'; } else { LinesClose(s[1..]); }
    }
  }

  lemma {:induction false} LinesFree(s: string)
    ensures LineFree(StripLines(s))
    ensures BlockFree(s) ==> BlockFree(StripLines(s))
    decreases |s|
  {
    if s == [] { return; }
    var t := StripLines(s);
    if "//" <= s {
      DropShorter(s);
      LinesFree(DropLine(s));
      DropLineKeeps(s);
      assert t[1..] == StripLines(DropLine(s));
      SpaceFirst(t);
    } else {
      LinesFree(s[1..]);
      assert t[1..] == StripLines(s[1..]);
      LinesHead(s[1..]);
      PairAt(t, '/', '/');
      PairAt(s, '/', '/');
      if "/*" <= t && HasClose(t[2..]) {
        assert t[1] == '*' && t[2..] == StripLines(s[1..])[1..] == StripLines(s[2..]);
        LinesClose(s[2..]);
      }
    }
  }

  lemma {:induction false} WordsClose(s: string, gap: bool, started: bool)
    requires HasClose(Words(s, gap, started))
    ensures HasClose(s)
  {
    if s == [] { return; }
    if IsSpace(s[0]) { WordsClose(s[1..], true, started); return; }
    var rest := Words(s[1..], false, true);
    var t := [s[0]] + rest;
    assert t[1..] == rest;
    if gap && started {
      assert Words(s, gap, started)[1..] == t;
      SpaceFirst(Words(s, gap, started));
    } else {
      assert Words(s, gap, started) == t;
    }
    WordsHeadCopied(s[1..], true);
    assert HasClose(t);
    if "*/" <= t { assert t[1] == '/'; } else { WordsClose(s[1..], false, true); }
  }

  lemma {:induction false} WordsLineFree(s: string, gap: bool, started: bool)
    requires LineFree(s)
    ensures LineFree(Words(s, gap, started))
  {
    if s == [] { return; }
    if IsSpace(s[0]) { WordsLineFree(s[1..], true, started); return; }
    WordsLineFree(s[1..], false, true);
    WordsHeadCopied(s[1..], true);
    var t := [s[0]] + Words(s[1..], false, true);
    assert t[1..] == Words(s[1..], false, true);
    PairAt(t, '/', '/');
    PairAt(s, '/', '/');
    WordsGap(s, gap, started);
    if gap && started { SpaceFirst(Words(s, gap, started)); }
  }

  lemma {:induction false} WordsBlockFree(s: string, gap: bool, started: bool)
    requires BlockFree(s)
    ensures BlockFree(Words(s, gap, started))
  {
    if s == [] { return; }
    if IsSpace(s[0]) { WordsBlockFree(s[1..], true, started); return; }
    WordsBlockFree(s[1..], false, true);
    WordsHeadCopied(s[1..], true);
    var rest := Words(s[1..], false, true);
    var t := [s[0]] + rest;
    assert t[1..] == rest;
    assert BlockFree(t) by {
      if "/*" <= t && HasClose(t[2..]) {
        assert t[1] == '*' && t[2..] == rest[1..] == Words(s[2..], false, true);
        WordsClose(s[2..], false, true);
      }
    }
    WordsGap(s, gap, started);
    if gap && started { SpaceFirst(Words(s, gap, started)); }
  }

  /** A visible character is copied, behind a space if one is due. */
  lemma WordsGap(s: string, gap: bool, started: bool)
    requires s != [] && !IsSpace(s[0])
    ensures var t := [s[0]] + Words(s[1..], false, true); var w := Words(s, gap, started);
      if gap && started then w != [] && w[0] == ' ' && w[1..] == t else w == t
  {
    var t := [s[0]] + Words(s[1..], false, true);
    if gap && started {
      assert Words(s, gap, started) == " " + [s[0]] + Words(s[1..], false, true) == [' '] + t;
    } else {
      assert Words(s, gap, started) == "" + [s[0]] + Words(s[1..], false, true) == t;
    }
  }

  lemma {:induction false} WordsTwice(s: string, gap: bool, started: bool)
    ensures Words(Words(s, gap, started), false, started) == Words(s, gap, started)
  {
    if s == [] { return; }
    if IsSpace(s[0]) { WordsTwice(s[1..], true, started); return; }
    WordsTwice(s[1..], false, true);
    var rest := Words(s[1..], false, true);
    var t := [s[0]] + rest;
    assert t[1..] == rest;
    if gap && started {
      var u := Words(s, gap, started);
      assert u == [' '] + t && u[1..] == t;
      assert Words(t, true, true) == " " + [s[0]] + Words(rest, false, true);
    } else {
      assert Words(s, gap, started) == t;
      assert Words(t, false, started) == "" + [s[0]] + Words(rest, false, true);
    }
  }

  /** `_normalize_rtl_for_identity` is idempotent: no pass can uncover a comment or a gap for another. */
  lemma WideIdempotent(code: string)
    ensures Wide(Wide(code)) == Wide(code)
  {
    var bare := StripLines(StripBlocks(code));
    BlocksFree(code);
    LinesFree(StripBlocks(code));
    WordsLineFree(bare, false, false);
    WordsBlockFree(bare, false, false);
    WideWords(code);
    var w := Wide(code);
    BlockFreeFixed(w);
    LineFreeFixed(w);
    WideWords(w);
    WordsTwice(bare, false, false);
  }

  // ---------------------------------------------------------------- the two tests differ, and why CR matters

  /** A comment-only change is invisible to the wide form and visible to the narrow one. */
  lemma CommentOnlyChange(s: string, t: string)
    requires s == "a//b" && t == "a"
    ensures Wide(s) == Wide(t) && Narrow(s) != Narrow(t)
  {
    CommentedLetter(s, t);
    CommentedWide(s, t);
    assert |Narrow(s)| == 4 by { NarrowPlain(s); }
    assert |Narrow(t)| == 1 by { NarrowPlain(t); }
  }

  lemma CommentedWide(s: string, t: string)
    requires StripLines(StripBlocks(s)) == t + [' '] && StripLines(StripBlocks(t)) == t
    ensures Wide(s) == Wide(t)
  {
    WordsSnoc(t, ' ', false, false);
    WideWords(s);
    WideWords(t);
  }

  lemma CommentedLetter(s: string, t: string)
    requires s == "a//b" && t == "a"
    ensures StripLines(StripBlocks(s)) == t + [' '] && StripLines(StripBlocks(t)) == t
  {
    PlainBlocks(s);
    PlainBlocks(t);
    DropAll(s[1..]);
    PairAt(s, '/', '/');
    PairAt(s[1..], '/', '/');
    assert StripLines(s[1..]) == [' '] + StripLines([]);
    assert StripLines(s) == t + StripLines(s[1..]);
    assert t[1..] == [];
  }

  lemma {:induction false} PlainBlocks(s: string)
    requires '*' !in s
    ensures StripBlocks(s) == s
  {
    if s != [] {
      assert s == [s[0]] + s[1..];
      PairAt(s, '/', '*');
      PlainBlocks(s[1..]);
    }
  }

  lemma {:induction false} NoFeeds(s: string)
    requires '\n' !in s
    ensures LineLength(s) == |s|
  {
    if s != [] { assert s[0] in s && s == [s[0]] + s[1..]; NoFeeds(s[1..]); }
  }

  lemma NarrowPlain(s: string)
    requires s != [] && forall c :: c in s ==> !IsSpace(c)
    ensures Narrow(s) == s
  {
    PlainReturns(s);
    NoFeeds(s);
    assert s[|s| - 1] in s && s[0] in s;
  }

  lemma {:induction false} PlainReturns(s: string)
    requires forall c :: c in s ==> !IsSpace(c)
    ensures ReplaceCrLf(s) == s && ReplaceCr(s) == s
  {
    if s != [] {
      assert s[0] in s && s == [s[0]] + s[1..];
      PairAt(s, '\r', '\n');
      PlainReturns(s[1..]);
    }
  }

  /** A lone carriage return inside a line comment ends the comment for the narrow form only, so there
      the narrow form keeps what the wide form ignores. */
  lemma LoneReturnMatters(s: string, t: string)
    requires s == "//a\rb" && t == "//a\nb"
    ensures !ReturnsHarmless(s) && Wide(s) == "" && Narrow(s) == t && Wide(t) == "b"
  {
    LoneReturnWide(s);
    LoneReturnNarrow(s, t);
    LineFeedWide(t);
    WideAbsorbsExactly(s);
  }

  lemma LoneReturnWide(s: string)
    requires s == "//a\rb"
    ensures Wide(s) == ""
  {
    PlainBlocks(s);
    DropAll(s);
    PairAt(s, '/', '/');
    assert StripLines(s) == " ";
    assert " "[1..] == "";
    WideWords(s);
  }

  lemma {:induction false} DropAll(s: string)
    requires '\n' !in s
    ensures DropLine(s) == []
  {
    if s != [] { assert s[0] in s && s == [s[0]] + s[1..]; DropAll(s[1..]); }
  }

  lemma LoneReturnNarrow(s: string, t: string)
    requires s == "//a\rb" && t == "//a\nb"
    ensures Narrow(s) == t
  {
    NoPairs(s);
    CrMap(s);
    assert ReplaceCr(s) == t;
    TwoLines(t);
  }

  lemma TwoLines(t: string)
    requires t == "//a\nb"
    ensures Strip(TrimLines(t)) == t
  {
    LineIs(t[..3], t[3..]);
    assert t[..3] + t[3..] == t;
    assert t[..3][2] == 'a';
    LastLine(t[4..]);
    assert TrimLines(t) == t[..3] + "\n" + t[4..] == t;
  }

  lemma {:induction false} LineIs(a: string, b: string)
    requires '\n' !in a && (b == [] || b[0] == '\n')
    ensures LineLength(a + b) == |a|
  {
    if a == [] {
      assert a + b == b;
    } else {
      assert (a + b)[1..] == a[1..] + b;
      LineIs(a[1..], b);
    }
  }

  lemma LastLine(s: string)
    requires |s| == 1 && s[0] == 'b'
    ensures TrimLines(s) == s
  {
    LineIs(s, []);
    assert s + [] == s;
  }

  /** The same text with a final line feed has the same two forms. */
  lemma TwoLinesEnded(t: string, u: string)
    requires t == "//a\nb" && u == t + ['\n']
    ensures Narrow(u) == t && Wide(u) == Wide(t)
  {
    assert '\r' !in u;
    NoReturnsSame(u);
    TwoTrimmed(t, u);
    EndStripped(t, u);
    WideRStrip(u);
  }

  /** Two texts the narrow form cannot tell apart and the wide form can. */
  lemma OnlyWideDiffers(current: string, code: string)
    requires current == "//a\nb\n" && code == "//a\rb"
    ensures LineFeeds(current) == current && Narrow(current) == Narrow(code) && Wide(current) != Wide(code)
  {
    var t := current[..5];
    LoneReturnMatters(code, t);
    TwoLinesEnded(t, current);
    WidthsDiffer(t, code);
    assert '\r' !in current;
    NoReturnsSame(current);
  }

  lemma WidthsDiffer(t: string, code: string)
    requires Wide(t) == "b" && Wide(code) == ""
    ensures Wide(t) != Wide(code)
  {
  }

  lemma EndStripped(t: string, u: string)
    requires t != [] && !IsSpace(t[0]) && !IsSpace(t[|t| - 1]) && u == t + ['\n']
    ensures RStrip(u) == t && Strip(u) == t
  {
    assert u[|u| - 1] == '\n' && u[..|u| - 1] == t && u[0] == t[0];
  }

  lemma TwoTrimmed(t: string, u: string)
    requires t == "//a\nb" && u == t + ['\n']
    ensures TrimLines(u) == u
  {
    var a, b := t[..3], t[4..];
    assert a[2] == 'a' && b[0] == 'b';
    var end := ['\n'] + [];
    assert u == a + (['\n'] + (b + end));
    TrimmedTwice(a, b, end);
  }

  lemma TrimmedTwice(a: string, b: string, end: string)
    requires '\n' !in a && '\n' !in b && RStrip(a) == a && RStrip(b) == b && end == ['\n'] + []
    ensures TrimLines(a + (['\n'] + (b + end))) == a + (['\n'] + (b + end))
  {
    TrimStep(a, b + end);
    TrimStep(b, []);
    NothingToTrim([]);
  }

  lemma NothingToTrim(s: string)
    requires s == []
    ensures TrimLines(s) == s
  {
  }

  lemma TrimStep(a: string, rest: string)
    requires '\n' !in a
    ensures TrimLines(a + (['\n'] + rest)) == RStrip(a) + (['\n'] + TrimLines(rest))
  {
    LineIs(a, ['\n'] + rest);
    var t := a + (['\n'] + rest);
    assert t[..|a|] == a && t[|a| + 1..] == rest;
    assert TrimLines(t) == RStrip(a) + "\n" + TrimLines(rest);
  }

  lemma {:induction false} NoReturnsSame(s: string)
    requires '\r' !in s
    ensures LineFeeds(s) == s && ReplaceCrLf(s) == s
  {
    if s != [] {
      assert s == [s[0]] + s[1..];
      PairAt(s, '\r', '\n');
      NoReturnsSame(s[1..]);
    }
  }

  /** A text read with universal newlines holds no carriage return. */
  lemma LineFeedsOnly(s: string)
    ensures '\r' !in LineFeeds(s)
  {
    CrMap(ReplaceCrLf(s));
  }

  lemma {:induction false} CrMap(s: string)
    ensures |ReplaceCr(s)| == |s|
    ensures forall i :: 0 <= i < |s| ==> ReplaceCr(s)[i] == if s[i] == '\r' then '\n' else s[i]
  {
    if s != [] { CrMap(s[1..]); }
  }

  lemma {:induction false} NoPairs(s: string)
    requires '\n' !in s
    ensures ReplaceCrLf(s) == s
  {
    if s != [] {
      assert s == [s[0]] + s[1..];
      PairAt(s, '\r', '\n');
      NoPairs(s[1..]);
    }
  }

  lemma LineFeedWide(t: string)
    requires t == "//a\nb"
    ensures Wide(t) == "b"
  {
    PlainBlocks(t);
    PairAt(t, '/', '/');
    var tail := "\nb";
    assert t[1..][1..][1..] == tail && tail[1..] == "b" && "b"[1..] == "";
    assert DropLine(tail) == tail;
    assert DropLine(t[1..][1..]) == tail;
    assert DropLine(t) == tail;
    PairAt(tail, '/', '/');
    PairAt(tail[1..], '/', '/');
    assert StripLines(tail[1..][1..]) == [];
    assert StripLines(tail[1..]) == "b" + [] == tail[1..];
    assert StripLines(tail) == ['\n'] + StripLines(tail[1..]) == tail;
    var u := " " + tail;
    assert StripLines(t) == u && u[1..] == tail;
    assert Words(tail[1..], true, false) == "" + "b" + "";
    WideWords(t);
  }

  // ---------------------------------------------------------------- comments are invisible

  /** No comment is opened in the text. */
  ghost predicate CommentFree(s: string) {
    forall i :: 0 <= i && i + 1 < |s| && s[i] == '/' ==> s[i + 1] != '/' && s[i + 1] != '*'
  }

  /** Nor by its end. */
  ghost predicate Bare(s: string) { CommentFree(s) && (s != [] ==> s[|s| - 1] != '/') }

  /** No block comment is opened in the text, nor by its end. */
  ghost predicate NoBlock(s: string) {
    (forall i :: 0 <= i && i + 1 < |s| && s[i] == '/' ==> s[i + 1] != '*') && (s != [] ==> s[|s| - 1] != '/')
  }

  lemma BareTail(s: string)
    requires s != []
    ensures Bare(s) ==> Bare(s[1..])
    ensures NoBlock(s) ==> NoBlock(s[1..])
  {
    var t := s[1..];
    assert forall i :: 0 <= i < |t| ==> t[i] == s[i + 1];
  }

  lemma {:induction false} BareBlocks(a: string, b: string)
    requires NoBlock(a)
    ensures StripBlocks(a + b) == a + StripBlocks(b)
  {
    if a == [] {
      assert a + b == b;
    } else {
      PairAt(a + b, '/', '*');
      assert (a + b)[1..] == a[1..] + b;
      BareTail(a);
      BareBlocks(a[1..], b);
      Assoc([a[0]], a[1..], StripBlocks(b));
      assert [a[0]] + a[1..] == a;
    }
  }

  lemma {:induction false} BareLines(a: string, b: string)
    requires Bare(a)
    ensures StripLines(a + b) == a + StripLines(b)
  {
    if a == [] {
      assert a + b == b;
    } else {
      PairAt(a + b, '/', '/');
      assert (a + b)[1..] == a[1..] + b;
      BareTail(a);
      BareLines(a[1..], b);
      Assoc([a[0]], a[1..], StripLines(b));
      assert [a[0]] + a[1..] == a;
    }
  }

  lemma {:induction false} ClosesThere(c: string, b: string)
    requires !AfterClose(c).0 && (c != [] ==> c[|c| - 1] != '*')
    ensures AfterClose(c + (['*', '/'] + b)) == (true, b)
  {
    var s := c + (['*', '/'] + b);
    PairAt(s, '*', '/');
    if c == [] {
      assert s == ['*', '/'] + b && s[2..] == b;
    } else {
      PairAt(c, '*', '/');
      assert s[1..] == c[1..] + (['*', '/'] + b);
      ClosesThere(c[1..], b);
    }
  }

  /** A block comment, whatever is in it, counts as a space: it separates words and leaves no other trace. */
  lemma BlockInvisible(a: string, c: string, b: string)
    requires Bare(a) && !AfterClose(c).0 && (c != [] ==> c[|c| - 1] != '*')
    ensures Wide(a + (['/', '*'] + (c + (['*', '/'] + b)))) == Wide(a + ([' '] + b))
  {
    var comment := ['/', '*'] + (c + (['*', '/'] + b));
    BareBlocks(a, comment);
    BareBlocks(a, [' '] + b);
    BlockDropped(c, b);
    BareBlocks([' '], b);
  }

  lemma BlockDropped(c: string, b: string)
    requires !AfterClose(c).0 && (c != [] ==> c[|c| - 1] != '*')
    ensures StripBlocks(['/', '*'] + (c + (['*', '/'] + b))) == [' '] + StripBlocks(b)
  {
    var comment := ['/', '*'] + (c + (['*', '/'] + b));
    ClosesThere(c, b);
    PairAt(comment, '/', '*');
    assert comment[2..] == c + (['*', '/'] + b);
  }

  /** So does a line comment that opens no block comment; its line feed stays. */
  lemma LineInvisible(a: string, c: string, b: string)
    requires Bare(a) && '\n' !in c && NoBlock(['/', '/'] + (c + ['\n']))
    ensures Wide(a + ((['/', '/'] + (c + ['\n'])) + b)) == Wide(a + ([' ', '\n'] + b))
  {
    var line, rest := ['/', '/'] + (c + ['\n']), StripBlocks(b);
    BareBlocks(a, line + b);
    BareBlocks(line, b);
    BareBlocks(a, [' ', '\n'] + b);
    BareBlocks([' ', '\n'], b);
    BareLines(a, line + rest);
    BareLines(a, [' ', '\n'] + rest);
    BareLines([' ', '\n'], rest);
    BareLines(['\n'], rest);
    LineDropped(c, rest);
    assert [' ', '\n'] + StripLines(rest) == [' '] + (['\n'] + StripLines(rest));
  }

  lemma LineDropped(c: string, rest: string)
    requires '\n' !in c
    ensures StripLines((['/', '/'] + (c + ['\n'])) + rest) == [' '] + StripLines(['\n'] + rest)
  {
    var line := (['/', '/'] + (c + ['\n'])) + rest;
    PairAt(line, '/', '/');
    LineEndsThere(['/', '/'] + c, rest);
    assert line == (['/', '/'] + c) + (['\n'] + rest);
  }

  lemma {:induction false} LineEndsThere(c: string, b: string)
    requires '\n' !in c
    ensures DropLine(c + (['\n'] + b)) == ['\n'] + b
  {
    if c == [] {
      assert c + (['\n'] + b) == ['\n'] + b;
    } else {
      assert (c + (['\n'] + b))[1..] == c[1..] + (['\n'] + b);
      LineEndsThere(c[1..], b);
    }
  }

  // ---------------------------------------------------------------- texts that are already normal

  /** Words with single spaces between them, and no comment. */
  ghost predicate SingleSpaced(s: string) {
    && Bare(s) && (s != [] ==> !IsSpace(s[0]) && !IsSpace(s[|s| - 1]))
    && forall i :: 0 <= i < |s| && IsSpace(s[i]) ==> s[i] == ' ' && (i + 1 < |s| ==> !IsSpace(s[i + 1]))
  }

  /** The scan copies such a text, from any place in it. */
  lemma {:induction false} WordsCopied(s: string, i: nat, started: bool)
    requires SingleSpaced(s) && i <= |s| && (i > 0 ==> started) && (i > 0 && i < |s| && IsSpace(s[i - 1]) ==> !IsSpace(s[i]))
    ensures Words(s[i..], false, started) == s[i..]
    decreases |s| - i
  {
    if i < |s| {
      assert s[i..][0] == s[i] && s[i..][1..] == s[i + 1..];
      if IsSpace(s[i]) {
        assert i + 1 < |s| && s[i + 1..][0] == s[i + 1] && s[i + 1..][1..] == s[i + 2..];
        WordsCopied(s, i + 2, true);
        assert s[i..] == [' '] + ([s[i + 1]] + s[i + 2..]);
      } else {
        WordsCopied(s, i + 1, true);
        assert s[i..] == [s[i]] + s[i + 1..];
      }
    }
  }

  /** The wide form loses nothing but comments and white space: a text that has none to lose is its own wide form. */
  lemma WideFixed(s: string)
    requires SingleSpaced(s)
    ensures Wide(s) == s
  {
    BareBlocks(s, []);
    BareLines(s, []);
    assert s + [] == s;
    WideWords(s);
    assert s[0..] == s;
    if s != [] { WordsCopied(s, 0, false); }
  }

  /** Nothing blank before a line feed or at the end. */
  ghost predicate CleanLines(s: string) {
    && (s != [] ==> !IsSpace(s[|s| - 1]))
    && forall i :: 0 < i < |s| && s[i] == '\n' && IsSpace(s[i - 1]) ==> s[i - 1] == '\n'
  }

  lemma {:induction false} TrimKept(s: string)
    requires CleanLines(s)
    ensures TrimLines(s) == s
    decreases |s|
  {
    var n := LineLength(s);
    if n < |s| {
      var rest := s[n + 1..];
      CleanRest(s, n + 1);
      TrimKept(rest);
      FirstLineKept(s, n, rest);
    }
  }

  lemma CleanRest(s: string, k: nat)
    requires CleanLines(s) && 0 < k <= |s| && s[k - 1] == '\n'
    ensures CleanLines(s[k..])
  {
    var rest := s[k..];
    assert forall i :: 0 <= i < |rest| ==> rest[i] == s[k + i];
    forall i | 0 < i < |rest| && rest[i] == '\n' && IsSpace(rest[i - 1]) ensures rest[i - 1] == '\n' {
      var j := k + i;
      assert s[j] == '\n' && s[j - 1] == rest[i - 1];
    }
  }

  lemma FirstLineKept(s: string, n: nat, rest: string)
    requires CleanLines(s) && n == LineLength(s) < |s| && rest == s[n + 1..] && TrimLines(rest) == rest
    ensures TrimLines(s) == s
  {
    var line := s[..n];
    if n > 0 { assert !IsSpace(s[n - 1]) && line[|line| - 1] == s[n - 1]; }
    assert RStrip(line) == line;
    assert s == line + "\n" + rest;
  }

  /** The narrow form loses nothing but blanks at line ends, blank ends and the kind of line end: a text that has none
      to lose is its own narrow form. */
  lemma NarrowFixed(s: string)
    requires '\r' !in s && CleanLines(s) && (s != [] ==> !IsSpace(s[0]))
    ensures Narrow(s) == s
  {
    NoReturnsSame(s);
    CrMap(s);
    assert ReplaceCr(s) == s;
    TrimKept(s);
  }
}
