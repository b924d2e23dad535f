/** Printing a contract as a module header and reading a header back (src/mind3/core/contracts.py:
    `to_verilog_declaration`, `to_header_template`, `_parse_header_ports`), for ASCII text. */
module ContractHeader {
  import opened Options
  import opened Chars
  import opened RtlIdentity
  import opened Sequences

  datatype Direction = Input | Output | Inout

  datatype Port = Port(name: string, direction: Direction, width: nat)

  /** The interface part of a contract; parameters are name and value, in order, names distinct. */
  datatype Contract = Contract(moduleName: string, parameters: seq<(string, string)>, ports: seq<Port>)

  // ---------------------------------------------------------------- printing

  function Decimal(n: nat): (s: string)
    ensures s != []
  {
    var digit := ['0' + (n % 10) as char];
    if n < 10 then digit else Decimal(n / 10) + digit
  }

  function DirectionText(d: Direction): string {
    match d
    case Input => ['i', 'n', 'p', 'u', 't']
    case Output => ['o', 'u', 't', 'p', 'u', 't']
    case Inout => ['i', 'n', 'o', 'u', 't']
  }

  const WIRE := ['w', 'i', 'r', 'e', ' ']

  function RangeText(width: nat): string {
    if width <= 1 then [] else ['['] + Decimal(width - 1) + [':', '0', ']', ' ']
  }

  function Declaration(p: Port): string {
    DirectionText(p.direction) + [' '] + WIRE + RangeText(p.width) + p.name
  }

  /** `",\n".join("  " + item)`. */
  function Lines(items: seq<string>): string {
    if items == [] then []
    else if |items| == 1 then [' ', ' '] + items[0]
    else [' ', ' '] + items[0] + [',', '\n'] + Lines(items[1..])
  }

  const PARAMETER := ['p', 'a', 'r', 'a', 'm', 'e', 't', 'e', 'r']

  function ParameterText(p: (string, string)): string { PARAMETER + [' '] + p.0 + [' ', '=', ' '] + p.1 }

  function ParameterTexts(ps: seq<(string, string)>): seq<string> {
    if ps == [] then [] else [ParameterText(ps[0])] + ParameterTexts(ps[1..])
  }

  function ParameterLines(ps: seq<(string, string)>): string { Lines(ParameterTexts(ps)) }

  function Declarations(ports: seq<Port>): seq<string> {
    if ports == [] then [] else [Declaration(ports[0])] + Declarations(ports[1..])
  }

  function PortLines(ports: seq<Port>): string { Lines(Declarations(ports)) }

  function ParameterBlock(ps: seq<(string, string)>): string {
    if ps == [] then [] else [' ', '#', '(', '\n'] + ParameterLines(ps) + ['\n', ')']
  }

  const MODULE := ['m', 'o', 'd', 'u', 'l', 'e']

  /** Up to the semicolon of the header. */
  function HeaderText(c: Contract): string {
    MODULE + [' '] + c.moduleName + ParameterBlock(c.parameters) + [' ', '(', '\n'] + PortLines(c.ports) + ['\n', ')', ';']
  }

  const REST := "\n  // Implement synthesizable " + "RTL logic here\n" + "endmodule\n"

  function HeaderTemplate(c: Contract): string { HeaderText(c) + REST }

  // ---------------------------------------------------------------- reading: comments

  /** A block comment, opened and closed. */
  predicate BlockAt(s: string) { "/*" <= s && AfterClose(s[2..]).0 }

  function DropBlocks(s: string): string
    decreases |s|
  {
    if s == [] then [] else
    if BlockAt(s) then DropBlocks(AfterClose(s[2..]).1) else [s[0]] + DropBlocks(s[1..])
  }

  function DropLines(s: string): string
    decreases |s|
  {
    if s == [] then [] else
    if "//" <= s then DropLines(DropLine(s)) else [s[0]] + DropLines(s[1..])
  }

  /** `_strip_rtl_comments`. */
  function WithoutComments(code: string): string { DropLines(DropBlocks(code)) }

  // ---------------------------------------------------------------- reading: the declaration

  function Spaces(s: string): nat { Run(IsSpace, s) }

  function SkipSpaces(s: string): (r: string)
    ensures |r| <= |s|
  {
    s[Spaces(s)..]
  }

  /** `(?P<ports>.*?)\)\s*;`, after the opening parenthesis: the length of the port text. */
  function PortsEnd(s: string): (e: Option<nat>)
    ensures e.Some? ==> e.value < |s|
  {
    if s == [] then None
    else if s[0] == ')' && SkipSpaces(s[1..]) != [] && SkipSpaces(s[1..])[0] == ';' then Some(0)
    else
      var rest := PortsEnd(s[1..]);
      if rest.Some? then Some(rest.value + 1) else None
  }

  /** `\s*\((?P<ports>.*?)\)\s*;`: the port text. */
  function PortsText(s: string): Option<string> {
    var t := SkipSpaces(s);
    if t == [] || t[0] != '(' then None
    else if PortsEnd(t[1..]).Some? then Some(t[1..][..PortsEnd(t[1..]).value]) else None
  }

  /** `(?P<param_body>.*?)\)\s*\((?P<ports>.*?)\)\s*;`, after `#(`: the two texts. */
  function ParamsAndPorts(s: string): (r: Option<(string, string)>)
    ensures r.Some? ==> |r.value.0| < |s|
  {
    if s == [] then None
    else if s[0] == ')' && PortsText(s[1..]).Some? then Some(([], PortsText(s[1..]).value))
    else
      var rest := ParamsAndPorts(s[1..]);
      if rest.Some? then Some(([s[0]] + rest.value.0, rest.value.1)) else None
  }

  datatype Found = Found(name: string, params: string, ports: string)

  predicate Keyword(kw: string, s: string) { |kw| <= |s| && s[..|kw|] == kw }

  /** The whole declaration, at the head. */
  function DeclarationAt(s: string): Option<Found> {
    if !Keyword(MODULE, s) || Spaces(s[6..]) == 0 then None else
    var t := SkipSpaces(s[6..]);
    if t == [] || !Letter(t[0]) then None else
    AfterName(t[..Run(Word, t)], SkipSpaces(t[Run(Word, t)..]))
  }

  /** What follows the name, white space skipped. */
  function AfterName(name: string, u: string): Option<Found> {
    if u != [] && u[0] == '#' then
      var v := SkipSpaces(u[1..]);
      if v == [] || v[0] != '(' then None else
      match ParamsAndPorts(v[1..])
      case None => None
      case Some(both) => Some(Found(name, both.0, both.1))
    else
      match PortsText(u)
      case None => None
      case Some(ports) => Some(Found(name, [], ports))
  }

  /** The first declaration; `inWord` says whether a word character comes just before. */
  function FindDeclaration(s: string, inWord: bool): Option<Found> {
    if s == [] then None
    else if !inWord && DeclarationAt(s).Some? then DeclarationAt(s)
    else FindDeclaration(s[1..], Word(s[0]))
  }

  // ---------------------------------------------------------------- reading: ports

  function Lower(c: char): char { if 'A' <= c <= 'Z' then 'a' + (c - 'A') else c }

  predicate NoCase(kw: string, s: string) {
    |kw| <= |s| && forall i :: 0 <= i < |kw| ==> Lower(s[i]) == kw[i]
  }

  /** A direction keyword at the head that ends at a word boundary: the direction and its length. */
  function DirectionAt(s: string): Option<(Direction, nat)> {
    var d := if NoCase(DirectionText(Input), s) then Some(Input)
             else if NoCase(DirectionText(Output), s) then Some(Output)
             else if NoCase(DirectionText(Inout), s) then Some(Inout) else None;
    if d.None? then None else
    var n := |DirectionText(d.value)|;
    if n < |s| && Word(s[n]) then None else Some((d.value, n))
  }

  /** Split at the commas that a direction follows. */
  function Chunks(s: string): (r: seq<string>)
    ensures r != []
  {
    if s == [] then [[]]
    else if s[0] == ',' && DirectionAt(SkipSpaces(s[1..])).Some? then [[]] + Chunks(s[1..])
    else
      var rest := Chunks(s[1..]);
      [[s[0]] + rest[0]] + rest[1..]
  }

  /** `(?:(?:wire|logic|reg|tri)\s+)*`: what follows it. */
  function AfterNets(s: string): (r: string)
    decreases |s|
  {
    var n := NetLength(s);
    if 0 < n < |s| && IsSpace(s[n]) && Spaces(s[n..]) > 0 then AfterNets(SkipSpaces(s[n..])) else s
  }

  function NetLength(s: string): (n: nat)
    ensures n <= |s|
  {
    if NoCase(['w', 'i', 'r', 'e'], s) then 4
    else if NoCase(['l', 'o', 'g', 'i', 'c'], s) then 5
    else if NoCase(['r', 'e', 'g'], s) || NoCase(['t', 'r', 'i'], s) then 3
    else 0
  }

  const SIGNED := ['s', 'i', 'g', 'n', 'e', 'd']

  /** `(?:signed\s+)?`: what follows it. */
  function AfterSigned(s: string, ignoreCase: bool): string {
    if (if ignoreCase then NoCase(SIGNED, s) else Keyword(SIGNED, s)) && Spaces(s[6..]) > 0 then SkipSpaces(s[6..]) else s
  }

  predicate NotBracket(c: char) { c != ']' }

  /** `\[[^\]]+\]`: its length, 0 if it is not there. */
  function RangeLength(s: string): (n: nat)
    ensures n <= |s|
  {
    if s == [] || s[0] != '[' then 0 else
    var k := Run(NotBracket, s[1..]);
    if k == 0 || 1 + k == |s| then 0 else k + 2
  }

  /** An ANSI declaration of a stripped chunk: direction, range text, name text. */
  datatype Ansi = Ansi(direction: Direction, range: string, name: string)

  function AnsiAt(chunk: string): Option<Ansi> {
    var d := DirectionAt(chunk);
    if d.None? then None else
    AnsiTail(d.value.0, AfterSigned(AfterNets(SkipSpaces(chunk[d.value.1..])), true))
  }

  /** The optional range and the name text. A range with no text after it is taken for the name. */
  function AnsiTail(d: Direction, t: string): Option<Ansi> {
    var n := RangeLength(t);
    var ranged := n > 0 && SkipSpaces(t[n..]) != [];
    var name := if ranged then SkipSpaces(t[n..]) else t;
    if name == [] || ',' in name then None else Some(Ansi(d, if ranged then t[..n] else [], name))
  }

  function Value(s: string): nat {
    if s == [] || !Digit(s[|s| - 1]) then 0 else Value(s[..|s| - 1]) * 10 + (s[|s| - 1] - '0') as nat
  }

  function Abs(i: int): nat { if i < 0 then -i else i }

  /** `\[\s*(\d+)\s*:\s*(\d+)\s*\]` on the whole range text: the width. */
  function RangeWidth(range: string): Option<nat> {
    if range == [] || range[0] != '[' then None else LeftEnd(SkipSpaces(range[1..]))
  }

  function LeftEnd(a: string): Option<nat> {
    var n := Run(Digit, a);
    var b := SkipSpaces(a[n..]);
    if n == 0 || b == [] || b[0] != ':' then None else RightEnd(Value(a[..n]), SkipSpaces(b[1..]))
  }

  function RightEnd(left: nat, c: string): Option<nat> {
    var n := Run(Digit, c);
    if n == 0 || SkipSpaces(c[n..]) != [']'] then None else Some(Abs(left - Value(c[..n])) + 1)
  }

  /** Names between commas, stripped, the empty ones left out. */
  function SplitNames(s: string): seq<string>
    decreases |s|
  {
    var n := Run(c => c != ',', s);
    var name := Strip(s[..n]);
    (if name == [] then [] else [name]) + if n < |s| then SplitNames(s[n + 1..]) else []
  }

  /** A name of a chunk without a direction of its own: a net keyword in front is dropped if a name is left. */
  function ContinuedName(s: string): Option<string> {
    var t := AfterSigned(s, true);
    var n := NetLength(t);
    var rest := SkipSpaces(t[n..]);
    if n > 0 && IsName(rest) then Some(rest) else if IsName(t) then Some(t) else None
  }

  datatype Parsed = Ports(ports: seq<Port>) | Unparseable

  /** The names of a continuation chunk, in order, unless one is not a name. */
  function Continued(names: seq<string>, d: Direction, width: nat): Parsed {
    if names == [] then Ports([]) else
    var name := ContinuedName(names[0]);
    if name.None? then Unparseable else
    match Continued(names[1..], d, width)
    case Unparseable => Unparseable
    case Ports(rest) => Ports([Port(name.value, d, width)] + rest)
  }

  /** The loop over stripped chunks, carrying the current direction and width. */
  function ReadChunks(chunks: seq<string>, d: Option<Direction>, width: nat): Parsed {
    if chunks == [] then Ports([]) else
    var chunk := Strip(chunks[0]);
    if chunk == [] then ReadChunks(chunks[1..], d, width) else
    match AnsiAt(chunk)
    case Some(a) =>
      var w := if Strip(a.range) == [] then Some(1) else RangeWidth(Strip(a.range));
      var name := AfterSigned(Strip(a.name), false);
      if w.None? || !IsName(name) then Unparseable else
      match ReadChunks(chunks[1..], Some(a.direction), w.value) {
        case Unparseable => Unparseable
        case Ports(rest) => Ports([Port(name, a.direction, w.value)] + rest)
      }
    case None =>
      if d.None? then Unparseable else
      match Continued(SplitNames(chunk), d.value, width) {
        case Unparseable => Unparseable
        case Ports(here) =>
          match ReadChunks(chunks[1..], d, width) {
            case Unparseable => Unparseable
            case Ports(rest) => Ports(here + rest)
          }
      }
  }

  // ---------------------------------------------------------------- reading: parameters

  /** `([A-Za-z_]\w*)\s*=` at the head: the name and the length matched. */
  function NamedEquals(s: string): (r: Option<(string, nat)>)
    ensures r.Some? ==> 0 < r.value.1 <= |s|
  {
    if s == [] || !Letter(s[0]) then None else
    var n := Run(Word, s);
    var k := Spaces(s[n..]);
    if n + k < |s| && s[n + k] == '=' then Some((s[..n], n + k + 1)) else None
  }

  /** A match that starts `from` characters further on. */
  function Shifted(r: Option<(string, nat)>, from: nat): Option<(string, nat)> {
    if r.Some? then Some((r.value.0, from + r.value.1)) else None
  }

  /** `parameter\s+(?:\w+\s+)?([A-Za-z_]\w*)\s*=` at the head. */
  function ParameterAt(s: string): (r: Option<(string, nat)>)
    ensures r.Some? ==> 0 < r.value.1 <= |s|
  {
    if !Keyword(PARAMETER, s) || Spaces(s[9..]) == 0 then None else
    var from := 9 + Spaces(s[9..]);
    Shifted(ParameterTail(s[from..]), from)
  }

  /** `(?:\w+\s+)?([A-Za-z_]\w*)\s*=`: with a type in front if that matches, else without. */
  function ParameterTail(t: string): (r: Option<(string, nat)>)
    ensures r.Some? ==> 0 < r.value.1 <= |t|
  {
    var skip := TypeLength(t);
    var second := if skip > 0 then NamedEquals(t[skip..]) else None;
    if second.Some? then Some((second.value.0, skip + second.value.1)) else NamedEquals(t)
  }

  /** `\w+\s+`: its length, 0 if it is not there. */
  function TypeLength(t: string): (n: nat)
    ensures n <= |t|
  {
    var n := Run(Word, t);
    if n > 0 && Spaces(t[n..]) > 0 then n + Spaces(t[n..]) else 0
  }

  function ParameterNames(s: string, inWord: bool): seq<string>
    decreases |s|
  {
    if s == [] then []
    else if !inWord && ParameterAt(s).Some? then
      [ParameterAt(s).value.0] + ParameterNames(s[ParameterAt(s).value.1..], false)
    else ParameterNames(s[1..], Word(s[0]))
  }

  // ---------------------------------------------------------------- reading: all together

  datatype Header = Header(name: string, ports: seq<Port>, params: seq<string>) | NoHeader

  /** `_parse_header_ports`; `NoHeader` is its `ValueError`. */
  function ParseHeader(code: string): Header {
    match FindDeclaration(WithoutComments(code), false)
    case None => NoHeader
    case Some(found) =>
      match ReadChunks(Chunks(found.ports), None, 1)
      case Unparseable => NoHeader
      case Ports(ports) => Header(found.name, ports, ParameterNames(found.params, false))
  }

  // ---------------------------------------------------------------- decimals

  lemma {:induction false} DecimalValue(n: nat)
    ensures Value(Decimal(n)) == n && All(Digit, Decimal(n))
  {
    var s := Decimal(n);
    assert s[|s| - 1] == '0' + (n % 10) as char;
    if n >= 10 {
      DecimalValue(n / 10);
      assert s[..|s| - 1] == Decimal(n / 10);
    } else {
      assert s[..|s| - 1] == [];
    }
  }

  // ---------------------------------------------------------------- white space

  lemma SkipIs(a: string, b: string)
    requires All(IsSpace, a) && (b == [] || !IsSpace(b[0]))
    ensures Spaces(a + b) == |a| && SkipSpaces(a + b) == b
  {
    RunIs(IsSpace, a, b);
  }

  lemma NoSkip(b: string)
    requires b == [] || !IsSpace(b[0])
    ensures Spaces(b) == 0 && SkipSpaces(b) == b
  {
  }

  lemma {:induction false} LStripIs(a: string, x: string)
    requires All(IsSpace, a) && x != [] && !IsSpace(x[0])
    ensures LStrip(a + x) == x
  {
    if a == [] {
      assert a + x == x;
    } else {
      assert (a + x)[1..] == a[1..] + x;
      LStripIs(a[1..], x);
    }
  }

  lemma {:induction false} RStripIs(x: string, b: string)
    requires All(IsSpace, b) && x != [] && !IsSpace(x[|x| - 1])
    ensures RStrip(x + b) == x
  {
    if b == [] {
      assert x + b == x;
    } else {
      assert (x + b)[..|x + b| - 1] == x + b[..|b| - 1];
      RStripIs(x, b[..|b| - 1]);
    }
  }

  /** A text that starts and ends with something visible. */
  ghost predicate Solid(x: string) { x != [] && !IsSpace(x[0]) && !IsSpace(x[|x| - 1]) }

  lemma StripIs(a: string, x: string, b: string)
    requires All(IsSpace, a) && All(IsSpace, b) && Solid(x)
    ensures Strip(a + x + b) == x
  {
    assert a + x + b == a + (x + b);
    LStripIs(a, x + b);
    RStripIs(x, b);
  }

  lemma StripSolid(x: string)
    requires Solid(x)
    ensures Strip(x) == x
  {
    StripIs([], x, []);
    assert [] + x + [] == x;
  }

  lemma NameSolid(name: string)
    requires IsName(name)
    ensures Solid(name) && !IsSpace(name[0]) && ',' !in name && ')' !in name && '/' !in name
    ensures forall i :: 0 <= i < |name| ==> !IsSpace(name[i])
  {
  }

  // ---------------------------------------------------------------- one port declaration

  /** `[ left : right ]`: two numerals and the white space around them. */
  datatype Range = Range(beforeLeft: string, left: string, afterLeft: string,
                         beforeRight: string, right: string, afterRight: string)

  function RangeString(r: Range): string {
    ['['] + (r.beforeLeft + (r.left + (r.afterLeft + ([':'] + (r.beforeRight + (r.right + (r.afterRight + [']'])))))))
  }

  predicate Numeral(s: string) { s != [] && All(Digit, s) }

  predicate GoodRange(r: Range) {
    && All(IsSpace, r.beforeLeft) && Numeral(r.left) && All(IsSpace, r.afterLeft)
    && All(IsSpace, r.beforeRight) && Numeral(r.right) && All(IsSpace, r.afterRight)
  }

  /** The number of bits from one end to the other, whichever is the higher. */
  function Bits(a: nat, b: nat): nat { if a < b then b - a + 1 else a - b + 1 }

  lemma NumeralRead(s: string, more: string)
    requires Numeral(s) && (more == [] || !Digit(more[0]))
    ensures Run(Digit, s + more) == |s| && (s + more)[..|s|] == s && (s + more)[|s|..] == more
    ensures !IsSpace((s + more)[0])
  {
    RunIs(Digit, s, more);
  }

  lemma GapRead(gap: string, more: string)
    requires All(IsSpace, gap) && more != [] && !IsSpace(more[0])
    ensures SkipSpaces(gap + more) == more
  {
    SkipIs(gap, more);
  }

  lemma NoDigit(gap: string, more: string)
    requires All(IsSpace, gap) && more != [] && !Digit(more[0])
    ensures gap + more != [] && !Digit((gap + more)[0])
  {
  }

  /** Two numerals give the number of bits between them. */
  lemma RangeRead(r: Range)
    requires GoodRange(r)
    ensures RangeWidth(RangeString(r)) == Some(Bits(Value(r.left), Value(r.right)))
  {
    var c := r.right + (r.afterRight + [']']);
    var b := [':'] + (r.beforeRight + c);
    var a := r.left + (r.afterLeft + b);
    assert RangeString(r)[1..] == r.beforeLeft + a;
    assert b[1..] == r.beforeRight + c;
    RightRead(r, Value(r.left), c);
    GapRead(r.beforeRight, c);
    LeftRead(r, b, a);
  }

  lemma RightRead(r: Range, left: nat, c: string)
    requires GoodRange(r) && c == r.right + (r.afterRight + [']'])
    ensures RightEnd(left, c) == Some(Bits(left, Value(r.right))) && !IsSpace(c[0])
  {
    NoDigit(r.afterRight, [']']);
    NumeralRead(r.right, r.afterRight + [']']);
    GapRead(r.afterRight, [']']);
  }

  lemma LeftRead(r: Range, b: string, a: string)
    requires GoodRange(r) && b != [] && b[0] == ':' && a == r.left + (r.afterLeft + b)
    ensures LeftEnd(a) == RightEnd(Value(r.left), SkipSpaces(b[1..])) && SkipSpaces(r.beforeLeft + a) == a
  {
    NoDigit(r.afterLeft, b);
    NumeralRead(r.left, r.afterLeft + b);
    GapRead(r.afterLeft, b);
    GapRead(r.beforeLeft, a);
  }

  lemma SplitSpaces(s: string)
    ensures All(IsSpace, s[..Spaces(s)]) && s == s[..Spaces(s)] + SkipSpaces(s)
  {
    forall i | 0 <= i < Spaces(s) ensures IsSpace(s[i]) { RunAll(IsSpace, s, i); }
  }

  lemma SplitDigits(s: string)
    requires Run(Digit, s) > 0
    ensures Numeral(s[..Run(Digit, s)]) && s == s[..Run(Digit, s)] + s[Run(Digit, s)..]
  {
    forall i | 0 <= i < Run(Digit, s) ensures Digit(s[i]) { RunAll(Digit, s, i); }
  }

  /** Nothing else has a width. */
  lemma RangeShape(range: string) returns (r: Range)
    requires RangeWidth(range).Some?
    ensures GoodRange(r) && range == RangeString(r)
  {
    var a := SkipSpaces(range[1..]);
    var n := Run(Digit, a);
    var b := SkipSpaces(a[n..]);
    var c := SkipSpaces(b[1..]);
    var k := Run(Digit, c);
    SplitSpaces(range[1..]);
    SplitDigits(a);
    SplitSpaces(a[n..]);
    SplitSpaces(b[1..]);
    SplitDigits(c);
    SplitSpaces(c[k..]);
    r := Range(range[1..][..Spaces(range[1..])], a[..n], a[n..][..Spaces(a[n..])], b[1..][..Spaces(b[1..])], c[..k],
               c[k..][..Spaces(c[k..])]);
    RangeGlued(range, r, a, b, c);
  }

  lemma RangeGlued(range: string, r: Range, a: string, b: string, c: string)
    requires range != [] && range[0] == '[' && range[1..] == r.beforeLeft + a && a == r.left + (r.afterLeft + b)
    requires b != [] && b[0] == ':' && b[1..] == r.beforeRight + c && c == r.right + (r.afterRight + [']'])
    ensures range == RangeString(r)
  {
    assert b == [':'] + b[1..];
    assert range == ['['] + range[1..];
  }

  /** The range runs between these two numbers. */
  predicate Spans(r: Range, a: nat, b: nat) { GoodRange(r) && Value(r.left) == a && Value(r.right) == b }

  /** A range text has a width exactly when it is two numerals in brackets with a colon between them, and the width is
      then the number of bits. */
  lemma RangeExactly(range: string, width: nat)
    ensures RangeWidth(range) == Some(width) <==>
            exists r, a, b :: Spans(r, a, b) && range == RangeString(r) && width == Bits(a, b)
  {
    if RangeWidth(range).Some? {
      var r := RangeShape(range);
      RangeRead(r);
      assert Spans(r, Value(r.left), Value(r.right));
    }
    if r, a, b :| Spans(r, a, b) && range == RangeString(r) && width == Bits(a, b) { RangeRead(r); }
  }

  /** In particular the printed decimals of any two numbers, in either order. */
  lemma DecimalSpans(r: Range, a: nat, b: nat)
    requires r.left == Decimal(a) && r.right == Decimal(b)
    requires All(IsSpace, r.beforeLeft) && All(IsSpace, r.afterLeft) && All(IsSpace, r.beforeRight) && All(IsSpace, r.afterRight)
    ensures Spans(r, a, b)
  {
    DecimalNumeral(a);
    DecimalNumeral(b);
  }

  lemma {:induction false} DecimalNumeral(n: nat)
    ensures Numeral(Decimal(n)) && Value(Decimal(n)) == n
  {
    DecimalValue(n);
  }

  /** A port declaration: keywords in any letter case, nets and `signed` if any, a range if any, and the white space
      after each part. */
  datatype Declared = Declared(keyword: string, direction: Direction, gap: string, nets: seq<(string, string)>,
                               sign: Option<(string, string)>, range: Option<(Range, string)>, name: string)

  function NetsText(nets: seq<(string, string)>): string {
    if nets == [] then [] else nets[0].0 + (nets[0].1 + NetsText(nets[1..]))
  }

  function SignText(sign: Option<(string, string)>): string {
    if sign.Some? then sign.value.0 + sign.value.1 else []
  }

  function RangePart(range: Option<(Range, string)>): string {
    if range.Some? then RangeString(range.value.0) + range.value.1 else []
  }

  function Ending(t: Declared): string { RangePart(t.range) + t.name }

  function AfterKeyword(t: Declared): string { t.gap + (NetsText(t.nets) + (SignText(t.sign) + Ending(t))) }

  function Text(t: Declared): string { t.keyword + AfterKeyword(t) }

  predicate Gap(s: string) { s != [] && All(IsSpace, s) }

  /** The same word, in any letter case. */
  predicate Spells(word: string, s: string) { |s| == |word| && NoCase(word, s) }

  predicate Net(s: string) {
    || Spells(['w', 'i', 'r', 'e'], s) || Spells(['l', 'o', 'g', 'i', 'c'], s)
    || Spells(['r', 'e', 'g'], s) || Spells(['t', 'r', 'i'], s)
  }

  predicate GoodDeclared(t: Declared) {
    && Spells(DirectionText(t.direction), t.keyword) && All(IsSpace, t.gap)
    && (t.gap == [] ==> t.nets == [] && t.sign == None && t.range.Some?)
    && (forall i :: 0 <= i < |t.nets| ==> Net(t.nets[i].0) && Gap(t.nets[i].1))
    && (t.sign.Some? ==> Spells(SIGNED, t.sign.value.0) && Gap(t.sign.value.1))
    && (t.range.Some? ==> GoodRange(t.range.value.0) && All(IsSpace, t.range.value.1))
    && IsName(t.name)
  }

  /** What a declaration declares. */
  function PortOf(t: Declared): Port {
    Port(t.name, t.direction,
         if t.range.Some? then Bits(Value(t.range.value.0.left), Value(t.range.value.0.right)) else 1)
  }

  lemma SpelledLetters(word: string, s: string)
    requires Spells(word, s) && All(Letter, word)
    ensures All(Letter, s)
  {
    forall i | 0 <= i < |s| ensures Letter(s[i]) { assert Lower(s[i]) == word[i]; }
  }

  lemma NoCaseFront(word: string, s: string, more: string)
    requires |word| <= |s|
    ensures NoCase(word, s + more) <==> NoCase(word, s)
  {
    assert forall i :: 0 <= i < |word| ==> (s + more)[i] == s[i];
  }

  lemma DirectionRead(d: Direction, keyword: string, more: string)
    requires Spells(DirectionText(d), keyword) && (more == [] || !Word(more[0]))
    ensures DirectionAt(keyword + more) == Some((d, |keyword|))
  {
    var s := keyword + more;
    NoCaseFront(DirectionText(d), keyword, more);
    assert forall i :: 0 <= i < |keyword| ==> Lower(s[i]) == DirectionText(d)[i];
    match d
    case Input =>
    case Output => assert Lower(s[0]) == 'o';
    case Inout => assert Lower(s[2]) == 'o';
  }

  /** A declaration ends with its range and name. */
  ghost predicate Closing(x: string) { x != [] && (IsName(x) || x[0] == '[') }

  lemma NetStays(s: string)
    requires Closing(s)
    ensures AfterNets(s) == s && AfterSigned(s, true) == s && !IsSpace(s[0])
  {
    if IsName(s) {
      NameSolid(s);
      NameAfterNets(s);
      NameAfterSigned(s);
    }
  }

  lemma NameAfterNets(name: string)
    requires forall i :: 0 <= i < |name| ==> !IsSpace(name[i])
    ensures AfterNets(name) == name
  {
    var n := NetLength(name);
    if 0 < n < |name| { assert !IsSpace(name[n]); }
  }

  lemma NameAfterSigned(name: string)
    requires forall i :: 0 <= i < |name| ==> !IsSpace(name[i])
    ensures AfterSigned(name, true) == name
  {
    if NoCase(SIGNED, name) && 6 < |name| { assert name[6..][0] == name[6]; }
  }

  lemma NetRead(net: string, more: string)
    requires Net(net)
    ensures NetLength(net + more) == |net| && Letter((net + more)[0])
  {
    var s := net + more;
    assert forall i :: 0 <= i < |net| ==> s[i] == net[i];
    if Spells(['w', 'i', 'r', 'e'], net) {
      SpelledLetters(['w', 'i', 'r', 'e'], net);
      NoCaseFront(['w', 'i', 'r', 'e'], net, more);
    } else if Spells(['l', 'o', 'g', 'i', 'c'], net) {
      SpelledLetters(['l', 'o', 'g', 'i', 'c'], net);
      assert Lower(s[0]) == 'l';
      NoCaseFront(['l', 'o', 'g', 'i', 'c'], net, more);
    } else if Spells(['r', 'e', 'g'], net) {
      SpelledLetters(['r', 'e', 'g'], net);
      assert Lower(s[0]) == 'r';
      NoCaseFront(['r', 'e', 'g'], net, more);
    } else {
      SpelledLetters(['t', 'r', 'i'], net);
      assert Lower(s[0]) == 't';
      NoCaseFront(['t', 'r', 'i'], net, more);
    }
  }

  lemma {:induction false} NetsRead(nets: seq<(string, string)>, x: string)
    requires forall i :: 0 <= i < |nets| ==> Net(nets[i].0) && Gap(nets[i].1)
    requires x != [] && !IsSpace(x[0]) && AfterNets(x) == x
    ensures AfterNets(NetsText(nets) + x) == x
    ensures NetsText(nets) + x != [] && !IsSpace((NetsText(nets) + x)[0])
  {
    if nets == [] {
      assert NetsText(nets) + x == x;
    } else {
      var net, gap, rest := nets[0].0, nets[0].1, NetsText(nets[1..]) + x;
      NetsRead(nets[1..], x);
      NetsSplit(nets, x);
      NetRead(net, gap + rest);
      NetSkipped(net, gap, rest);
    }
  }

  lemma NetsSplit(nets: seq<(string, string)>, x: string)
    requires nets != []
    ensures NetsText(nets) + x == nets[0].0 + (nets[0].1 + (NetsText(nets[1..]) + x))
  {
  }

  lemma NetSkipped(net: string, gap: string, rest: string)
    requires Gap(gap) && rest != [] && !IsSpace(rest[0]) && net != [] && NetLength(net + (gap + rest)) == |net|
    ensures AfterNets(net + (gap + rest)) == AfterNets(rest)
  {
    var s := net + (gap + rest);
    assert s[|net|..] == gap + rest;
    SkipIs(gap, rest);
  }

  lemma SignRead(sign: Option<(string, string)>, x: string)
    requires sign.Some? ==> Spells(SIGNED, sign.value.0) && Gap(sign.value.1)
    requires Closing(x)
    ensures var t := SignText(sign) + x; t != [] && !IsSpace(t[0]) && AfterNets(t) == t && AfterSigned(t, true) == x
  {
    NetStays(x);
    if sign.None? {
      assert SignText(sign) + x == x;
    } else {
      assert SignText(sign) + x == sign.value.0 + (sign.value.1 + x);
      SignSkipped(sign.value.0, sign.value.1, x);
    }
  }

  lemma SignSkipped(word: string, gap: string, x: string)
    requires Spells(SIGNED, word) && Gap(gap) && x != [] && !IsSpace(x[0])
    ensures var t := word + (gap + x); t != [] && !IsSpace(t[0]) && AfterNets(t) == t && AfterSigned(t, true) == x
  {
    var t := word + (gap + x);
    SpelledLetters(SIGNED, word);
    NoCaseFront(SIGNED, word, gap + x);
    assert t[6..] == gap + x;
    SkipIs(gap, x);
    assert Lower(t[0]) == 's';
    assert NetLength(t) == 0;
  }

  lemma HeadRead(t: Declared)
    requires GoodDeclared(t) && Closing(Ending(t))
    ensures AnsiAt(Text(t)) == AnsiTail(t.direction, Ending(t))
  {
    var signed := SignText(t.sign) + Ending(t);
    var nets := NetsText(t.nets) + signed;
    var more := AfterKeyword(t);
    SignRead(t.sign, Ending(t));
    NetsRead(t.nets, signed);
    GapRead(t.gap, nets);
    KeywordEnds(t);
    DirectionRead(t.direction, t.keyword, more);
    HeadSteps(Text(t), t.direction, |t.keyword|, more, Ending(t));
  }

  lemma HeadSteps(chunk: string, d: Direction, n: nat, more: string, x: string)
    requires DirectionAt(chunk) == Some((d, n)) && n <= |chunk| && chunk[n..] == more
    requires AfterSigned(AfterNets(SkipSpaces(more)), true) == x
    ensures AnsiAt(chunk) == AnsiTail(d, x)
  {
  }

  lemma KeywordEnds(t: Declared)
    requires GoodDeclared(t) && Closing(Ending(t))
    ensures AfterKeyword(t) != [] && !Word(AfterKeyword(t)[0])
  {
    if t.gap == [] { assert AfterKeyword(t) == Ending(t); }
  }

  lemma TailRead(t: Declared)
    requires GoodDeclared(t)
    ensures Closing(Ending(t))
    ensures AnsiTail(t.direction, Ending(t)) ==
            Some(Ansi(t.direction, if t.range.Some? then RangeString(t.range.value.0) else [], t.name))
  {
    NameSolid(t.name);
    if t.range.None? {
      assert Ending(t) == t.name;
    } else {
      BracketRead(t.range.value.0, t.range.value.1, t.name);
    }
  }

  lemma RangeInside(r: Range)
    requires GoodRange(r)
    ensures var inner := RangeString(r)[1..|RangeString(r)| - 1];
      inner != [] && All(NotBracket, inner) && RangeString(r) == ['['] + (inner + [']']) && All(PortChar, inner)
  {
    var inner := r.beforeLeft + (r.left + (r.afterLeft + ([':'] + (r.beforeRight + (r.right + r.afterRight)))));
    assert RangeString(r) == ['['] + (inner + [']']);
    assert RangeString(r)[1..|RangeString(r)| - 1] == inner;
    PartsChar(r.right, r.afterRight);
    PartsChar(r.beforeRight, r.right + r.afterRight);
    PartsChar([':'], r.beforeRight + (r.right + r.afterRight));
    PartsChar(r.afterLeft, [':'] + (r.beforeRight + (r.right + r.afterRight)));
    PartsChar(r.left, r.afterLeft + ([':'] + (r.beforeRight + (r.right + r.afterRight))));
    PartsChar(r.beforeLeft, r.left + (r.afterLeft + ([':'] + (r.beforeRight + (r.right + r.afterRight)))));
    NoBrackets(r, inner);
  }

  lemma NoBrackets(r: Range, inner: string)
    requires GoodRange(r)
    requires inner == r.beforeLeft + (r.left + (r.afterLeft + ([':'] + (r.beforeRight + (r.right + r.afterRight)))))
    ensures All(NotBracket, inner)
  {
    forall i | 0 <= i < |inner| ensures inner[i] != ']' {
      assert inner[i] in inner;
      assert IsSpace(inner[i]) || Digit(inner[i]) || inner[i] == ':';
    }
  }

  lemma BracketRead(r: Range, gap: string, name: string)
    requires GoodRange(r) && All(IsSpace, gap) && IsName(name)
    ensures var range := RangeString(r); var t := (range + gap) + name;
      RangeLength(t) == |range| && t[..|range|] == range && SkipSpaces(t[|range|..]) == name
  {
    var range := RangeString(r);
    var inner := range[1..|range| - 1];
    var t, after := (range + gap) + name, [']'] + (gap + name);
    RangeInside(r);
    assert t[1..] == inner + after;
    RunIs(NotBracket, inner, after);
    assert t[|range|..] == gap + name;
    NameSolid(name);
    SkipIs(gap, name);
  }

  lemma AnsiRead(t: Declared)
    requires GoodDeclared(t)
    ensures AnsiAt(Text(t)) == Some(Ansi(t.direction, if t.range.Some? then RangeString(t.range.value.0) else [], t.name))
  {
    TailRead(t);
    HeadRead(t);
  }

  /** The characters a declaration is made of. */
  predicate PortChar(c: char) { Word(c) || IsSpace(c) || c == '[' || c == ']' || c == ':' }

  lemma PartsChar(a: string, b: string)
    requires All(PortChar, a) && All(PortChar, b)
    ensures All(PortChar, a + b)
  {
  }

  lemma {:induction false} NetsChar(nets: seq<(string, string)>)
    requires forall i :: 0 <= i < |nets| ==> Net(nets[i].0) && Gap(nets[i].1)
    ensures All(PortChar, NetsText(nets))
  {
    if nets != [] {
      NetsChar(nets[1..]);
      NetChar(nets[0].0);
      PartsChar(nets[0].1, NetsText(nets[1..]));
      PartsChar(nets[0].0, nets[0].1 + NetsText(nets[1..]));
    }
  }

  lemma NetChar(net: string)
    requires Net(net)
    ensures All(PortChar, net)
  {
    forall i | 0 <= i < |net| ensures PortChar(net[i]) { NetLetters(net, i); }
  }

  lemma NetLetters(net: string, i: nat)
    requires Net(net) && i < |net|
    ensures Letter(net[i])
  {
    if Spells(['w', 'i', 'r', 'e'], net) { SpelledLetters(['w', 'i', 'r', 'e'], net); }
    else if Spells(['l', 'o', 'g', 'i', 'c'], net) { SpelledLetters(['l', 'o', 'g', 'i', 'c'], net); }
    else if Spells(['r', 'e', 'g'], net) { SpelledLetters(['r', 'e', 'g'], net); }
    else { SpelledLetters(['t', 'r', 'i'], net); }
  }

  lemma TextChar(t: Declared)
    requires GoodDeclared(t)
    ensures All(PortChar, Text(t))
  {
    SpelledLetters(DirectionText(t.direction), t.keyword);
    NetsChar(t.nets);
    EndingChar(t);
    if t.sign.Some? {
      SpelledLetters(SIGNED, t.sign.value.0);
      PartsChar(t.sign.value.0, t.sign.value.1);
    }
    PartsChar(SignText(t.sign), Ending(t));
    PartsChar(NetsText(t.nets), SignText(t.sign) + Ending(t));
    PartsChar(t.gap, NetsText(t.nets) + (SignText(t.sign) + Ending(t)));
    PartsChar(t.keyword, AfterKeyword(t));
  }

  lemma EndingChar(t: Declared)
    requires GoodDeclared(t)
    ensures All(PortChar, Ending(t))
  {
    if t.range.Some? {
      var r, gap := t.range.value.0, t.range.value.1;
      var inner := RangeString(r)[1..|RangeString(r)| - 1];
      RangeInside(r);
      PartsChar(inner, [']']);
      PartsChar(['['], inner + [']']);
      PartsChar(RangeString(r), gap);
    }
    PartsChar(RangePart(t.range), t.name);
  }

  lemma TextSolid(t: Declared)
    requires GoodDeclared(t)
    ensures Solid(Text(t)) && NoComma(Text(t)) && Tame(Text(t))
  {
    TextChar(t);
    CharsTame(Text(t));
    SpelledLetters(DirectionText(t.direction), t.keyword);
    NameSolid(t.name);
    LastOfText(t);
    assert Text(t)[0] == t.keyword[0];
  }

  lemma LastOfText(t: Declared)
    requires t.name != []
    ensures Text(t)[|Text(t)| - 1] == t.name[|t.name| - 1]
  {
  }

  lemma CharsTame(s: string)
    requires All(PortChar, s)
    ensures NoComma(s) && Tame(s)
  {
  }

  // ---------------------------------------------------------------- a list of port declarations

  ghost predicate NoComma(s: string) { forall i :: 0 <= i < |s| ==> s[i] != ',' }

  lemma {:induction false} ChunksFront(a: string, s: string)
    requires NoComma(a)
    ensures Chunks(a + s) == [a + Chunks(s)[0]] + Chunks(s)[1..]
  {
    var rest := Chunks(s);
    if a == [] {
      assert a + s == s && a + rest[0] == rest[0];
    } else {
      ChunksFront(a[1..], s);
      OneMore(a, s, Chunks(a[1..] + s));
      assert [a[0]] + (a[1..] + rest[0]) == a + rest[0];
    }
  }

  lemma OneMore(a: string, s: string, rest: seq<string>)
    requires a != [] && a[0] != ',' && rest == Chunks(a[1..] + s)
    ensures Chunks(a + s) == [[a[0]] + rest[0]] + rest[1..]
  {
    assert (a + s)[1..] == a[1..] + s;
  }

  /** A declaration with the white space around it. */
  datatype Item = Item(lead: string, decl: Declared, tail: string)

  predicate GoodItem(item: Item) { All(IsSpace, item.lead) && GoodDeclared(item.decl) && All(IsSpace, item.tail) }

  ghost predicate GoodItems(items: seq<Item>) { forall i :: 0 <= i < |items| ==> GoodItem(items[i]) }

  function ItemText(item: Item): string { item.lead + (Text(item.decl) + item.tail) }

  function ListText(items: seq<Item>): string {
    if items == [] then [] else
    if |items| == 1 then ItemText(items[0]) else ItemText(items[0]) + ([','] + ListText(items[1..]))
  }

  function PortsOf(items: seq<Item>): seq<Port> {
    if items == [] then [] else [PortOf(items[0].decl)] + PortsOf(items[1..])
  }

  lemma ItemTame(item: Item)
    requires GoodItem(item)
    ensures NoComma(ItemText(item)) && Tame(ItemText(item))
  {
    TextSolid(item.decl);
    JoinTame(Text(item.decl), item.tail);
    JoinTame(item.lead, Text(item.decl) + item.tail);
  }

  lemma {:induction false} ListTame(items: seq<Item>)
    requires GoodItems(items)
    ensures Tame(ListText(items))
  {
    if items != [] {
      ItemTame(items[0]);
      if |items| > 1 {
        ListTame(items[1..]);
        JoinTame([','], ListText(items[1..]));
        JoinTame(ItemText(items[0]), [','] + ListText(items[1..]));
      }
    }
  }

  /** Before a declaration a comma starts a new chunk. */
  lemma ItemStarts(item: Item, more: string)
    requires GoodItem(item)
    ensures var s := ItemText(item) + more; Chunks([','] + s) == [[]] + Chunks(s)
  {
    TailRead(item.decl);
    KeywordEnds(item.decl);
    KeywordStarts(item.lead, item.decl.direction, item.decl.keyword, AfterKeyword(item.decl), item.tail, more);
  }

  lemma KeywordStarts(lead: string, d: Direction, keyword: string, after: string, tail: string, more: string)
    requires All(IsSpace, lead) && Spells(DirectionText(d), keyword) && after != [] && !Word(after[0])
    ensures var s := (lead + ((keyword + after) + tail)) + more; Chunks([','] + s) == [[]] + Chunks(s)
  {
    var rest := after + (tail + more);
    DirectionRead(d, keyword, rest);
    SpelledLetters(DirectionText(d), keyword);
    SkipIs(lead, keyword + rest);
    ItemParts(lead, keyword, after, tail, more);
    NextChunk(lead + (keyword + rest), keyword + rest);
  }

  lemma ItemParts(lead: string, keyword: string, after: string, tail: string, more: string)
    ensures (lead + ((keyword + after) + tail)) + more == lead + (keyword + (after + (tail + more)))
  {
  }

  lemma NextChunk(s: string, d: string)
    requires SkipSpaces(s) == d && DirectionAt(d).Some?
    ensures Chunks([','] + s) == [[]] + Chunks(s)
  {
    assert ([','] + s)[1..] == s;
  }

  lemma ListStarts(items: seq<Item>)
    requires items != [] && GoodItems(items)
    ensures Chunks([','] + ListText(items)) == [[]] + Chunks(ListText(items))
  {
    if |items| == 1 {
      assert ItemText(items[0]) + [] == ListText(items);
      ItemStarts(items[0], []);
    } else {
      ItemStarts(items[0], [','] + ListText(items[1..]));
    }
  }

  /** The chunks of a list are its declarations. */
  lemma {:induction false} ListChunks(items: seq<Item>)
    requires items != [] && GoodItems(items)
    ensures Chunks(ListText(items)) == [ItemText(items[0])] + if |items| == 1 then [] else Chunks(ListText(items[1..]))
  {
    var first := ItemText(items[0]);
    ItemTame(items[0]);
    if |items| == 1 {
      assert first + [] == first;
      ChunksFront(first, []);
      assert Chunks([]) == [[]];
    } else {
      ListStarts(items[1..]);
      ChunksFront(first, [','] + ListText(items[1..]));
      FirstOnly(first, Chunks(ListText(items[1..])));
    }
  }

  lemma FirstOnly(first: string, more: seq<string>)
    ensures var chunks := [[]] + more; [first + chunks[0]] + chunks[1..] == [first] + more
  {
    assert first + [] == first;
  }

  /** Declarations of any form are read in order: name, direction, and the number of bits between the two ends of the
      range, one bit without a range. */
  lemma {:induction false} ListRead(items: seq<Item>, d: Option<Direction>, width: nat)
    requires items != [] && GoodItems(items)
    ensures ReadChunks(Chunks(ListText(items)), d, width) == Ports(PortsOf(items))
  {
    var p := PortOf(items[0].decl);
    ListChunks(items);
    if |items| == 1 {
      ItemRead(items[0], [], d, width);
      assert PortsOf(items[1..]) == [];
      assert [ItemText(items[0])] + [] == [ItemText(items[0])];
    } else {
      ListRead(items[1..], Some(p.direction), p.width);
      ItemRead(items[0], Chunks(ListText(items[1..])), d, width);
    }
  }

  /** One round of the port loop on a declaration. */
  lemma ItemRead(item: Item, more: seq<string>, d: Option<Direction>, width: nat)
    requires GoodItem(item) && var p := PortOf(item.decl); ReadChunks(more, Some(p.direction), p.width).Ports?
    ensures var p := PortOf(item.decl);
      ReadChunks([ItemText(item)] + more, d, width) == Ports([p] + ReadChunks(more, Some(p.direction), p.width).ports)
  {
    var t := item.decl;
    TextSolid(t);
    StripIs(item.lead, Text(t), item.tail);
    assert ItemText(item) == item.lead + Text(t) + item.tail;
    AnsiRead(t);
    AnsiParts(t);
    RoundRead([ItemText(item)] + more, Text(t), PortOf(t), d, width);
    assert ([ItemText(item)] + more)[1..] == more;
  }

  lemma AnsiParts(t: Declared)
    requires GoodDeclared(t)
    ensures AfterSigned(Strip(t.name), false) == t.name
    ensures var range := if t.range.Some? then RangeString(t.range.value.0) else [];
      (if Strip(range) == [] then Some(1) else RangeWidth(Strip(range))) == Some(PortOf(t).width)
  {
    NameSolid(t.name);
    StripSolid(t.name);
    SignedStays(t.name);
    if t.range.Some? { StrippedRange(t.range.value.0); }
  }

  lemma StrippedRange(r: Range)
    requires GoodRange(r)
    ensures Strip(RangeString(r)) == RangeString(r) != []
    ensures RangeWidth(Strip(RangeString(r))) == Some(Bits(Value(r.left), Value(r.right)))
  {
    RangeSolid(r);
    StripSolid(RangeString(r));
    RangeRead(r);
  }

  lemma RangeSolid(r: Range)
    ensures Solid(RangeString(r))
  {
    var s := RangeString(r);
    assert s[0] == '[' && s[|s| - 1] == ']';
  }

  lemma RoundRead(chunks: seq<string>, chunk: string, p: Port, d: Option<Direction>, width: nat)
    requires chunks != [] && Strip(chunks[0]) == chunk != [] && IsName(p.name)
    requires AnsiAt(chunk).Some? && AnsiAt(chunk).value.direction == p.direction
    requires AfterSigned(Strip(AnsiAt(chunk).value.name), false) == p.name
    requires var range := AnsiAt(chunk).value.range;
      (if Strip(range) == [] then Some(1) else RangeWidth(Strip(range))) == Some(p.width)
    requires ReadChunks(chunks[1..], Some(p.direction), p.width).Ports?
    ensures ReadChunks(chunks, d, width) == Ports([p] + ReadChunks(chunks[1..], Some(p.direction), p.width).ports)
  {
  }

  // ---------------------------------------------------------------- the printed declarations

  ghost predicate GoodPorts(ports: seq<Port>) { forall i :: 0 <= i < |ports| ==> IsName(ports[i].name) && ports[i].width >= 1 }

  /** What the port loop is given. */
  function PortBody(ports: seq<Port>): string { ['\n'] + PortLines(ports) + ['\n'] }

  function PrintedRange(width: nat): Range
    requires width > 1
  {
    Range([], Decimal(width - 1), [], [], ['0'], [])
  }

  function Printed(p: Port): Declared {
    Declared(DirectionText(p.direction), p.direction, [' '], [(['w', 'i', 'r', 'e'], [' '])], None,
             if p.width <= 1 then None else Some((PrintedRange(p.width), [' '])), p.name)
  }

  function PrintedItems(ports: seq<Port>): seq<Item> {
    if ports == [] then [] else
    [Item(['\n', ' ', ' '], Printed(ports[0]), if |ports| == 1 then ['\n'] else [])] + PrintedItems(ports[1..])
  }

  lemma PrintedGood(p: Port)
    requires IsName(p.name) && p.width >= 1
    ensures GoodDeclared(Printed(p)) && PortOf(Printed(p)) == p && Text(Printed(p)) == Declaration(p)
  {
    if p.width > 1 {
      DecimalValue(p.width - 1);
      assert Value(['0']) == 0 by { assert ['0'][..0] == []; }
    }
    PrintedText(p);
    DirectionLetters(p.direction);
  }

  lemma DirectionLetters(d: Direction)
    ensures All(Letter, DirectionText(d)) && Spells(DirectionText(d), DirectionText(d))
  {
  }

  lemma PrintedText(p: Port)
    ensures Text(Printed(p)) == Declaration(p)
  {
    var nets, name := [(['w', 'i', 'r', 'e'], [' '])], p.name;
    assert NetsText(nets[1..]) == [];
    assert NetsText(nets) == WIRE;
    if p.width > 1 { assert RangePart(Printed(p).range) == RangeText(p.width); }
    assert AfterKeyword(Printed(p)) == [' '] + (WIRE + ([] + (RangeText(p.width) + name)));
    PrintedParts(DirectionText(p.direction), RangeText(p.width), name);
  }

  lemma PrintedParts(d: string, range: string, name: string)
    ensures d + ([' '] + (WIRE + ([] + (range + name)))) == d + [' '] + WIRE + range + name
  {
  }

  lemma {:induction false} PrintedList(ports: seq<Port>)
    requires ports != [] && GoodPorts(ports)
    ensures GoodItems(PrintedItems(ports)) && PortsOf(PrintedItems(ports)) == ports
    ensures ListText(PrintedItems(ports)) == PortBody(ports) && |PrintedItems(ports)| == |ports|
  {
    if |ports| == 1 {
      OnePrinted(ports);
    } else {
      PrintedList(ports[1..]);
      MorePrinted(ports);
    }
  }

  lemma {:induction false} OnePrinted(ports: seq<Port>)
    requires |ports| == 1 && GoodPorts(ports)
    ensures var items := PrintedItems(ports);
      GoodItems(items) && PortsOf(items) == ports && ListText(items) == PortBody(ports) && |items| == 1
  {
    var items := PrintedItems(ports);
    PrintedGood(ports[0]);
    OneBody(ports);
    assert PrintedItems(ports[1..]) == [];
    assert PortsOf(items[1..]) == [] && ports == [ports[0]];
  }

  lemma {:induction false} MorePrinted(ports: seq<Port>)
    requires |ports| > 1 && GoodPorts(ports)
    requires var rest := PrintedItems(ports[1..]);
      GoodItems(rest) && PortsOf(rest) == ports[1..] && ListText(rest) == PortBody(ports[1..]) && |rest| == |ports| - 1
    ensures var items := PrintedItems(ports);
      GoodItems(items) && PortsOf(items) == ports && ListText(items) == PortBody(ports) && |items| == |ports|
  {
    var items, rest := PrintedItems(ports), PrintedItems(ports[1..]);
    var first := Item(['\n', ' ', ' '], Printed(ports[0]), []);
    PrintedGood(ports[0]);
    assert items == [first] + rest;
    assert ports == [ports[0]] + ports[1..];
    FirstPrinted(first, ports[0]);
    OnePortMore(first, rest);
    BodySplits(ports);
  }

  lemma {:induction false} FirstPrinted(first: Item, p: Port)
    requires first == Item(['\n', ' ', ' '], Printed(p), []) && Text(Printed(p)) == Declaration(p)
    ensures ItemText(first) == ['\n', ' ', ' '] + Declaration(p)
  {
    assert Declaration(p) + [] == Declaration(p);
  }

  lemma {:induction false} OnePortMore(first: Item, rest: seq<Item>)
    requires rest != []
    ensures ListText([first] + rest) == ItemText(first) + ([','] + ListText(rest))
    ensures PortsOf([first] + rest) == [PortOf(first.decl)] + PortsOf(rest)
    ensures GoodItem(first) && GoodItems(rest) ==> GoodItems([first] + rest)
  {
    assert ([first] + rest)[1..] == rest;
  }

  lemma LinesSplit(items: seq<string>)
    requires |items| > 1
    ensures Lines(items) == [' ', ' '] + (items[0] + ([','] + (['\n'] + Lines(items[1..]))))
  {
  }

  lemma {:induction false} OneBody(ports: seq<Port>)
    requires |ports| == 1
    ensures PortBody(ports) == ['\n', ' ', ' '] + (Declaration(ports[0]) + ['\n'])
  {
    var d := Declaration(ports[0]);
    assert Declarations(ports[1..]) == [];
    assert Declarations(ports) == [d];
    assert Lines([d]) == [' ', ' '] + d;
    OneLine(d);
  }

  lemma OneLine(d: string)
    ensures ['\n'] + ([' ', ' '] + d) + ['\n'] == ['\n', ' ', ' '] + (d + ['\n'])
  {
  }

  lemma BodySplits(ports: seq<Port>)
    requires |ports| > 1
    ensures PortBody(ports) == (['\n', ' ', ' '] + Declaration(ports[0])) + ([','] + PortBody(ports[1..]))
  {
    assert Declarations(ports)[1..] == Declarations(ports[1..]);
    LinesSplit(Declarations(ports));
    Regrouped(Declaration(ports[0]), PortLines(ports[1..]));
  }

  lemma Regrouped(t: string, lines: string)
    ensures ['\n'] + ([' ', ' '] + (t + ([','] + (['\n'] + lines)))) + ['\n'] ==
            (['\n', ' ', ' '] + t) + ([','] + (['\n'] + lines + ['\n']))
  {
  }

  lemma PortsRead(ports: seq<Port>, d: Option<Direction>, width: nat)
    requires ports != [] && GoodPorts(ports)
    ensures ReadChunks(Chunks(PortBody(ports)), d, width) == Ports(ports)
  {
    PrintedList(ports);
    ListRead(PrintedItems(ports), d, width);
  }

  lemma SignedStays(name: string)
    requires IsName(name)
    ensures AfterSigned(name, false) == name
  {
    NameSolid(name);
    if Keyword(SIGNED, name) && 6 < |name| { assert name[6..][0] == name[6]; }
  }

  // ---------------------------------------------------------------- all parameters

  predicate WordOrSpace(c: char) { Word(c) || IsSpace(c) }

  /** A match ends at an equals sign with nothing but words and white space before it. */
  ghost predicate EndsAtEquals(s: string, n: nat) {
    0 < n <= |s| && s[n - 1] == '=' && forall i :: 0 <= i < n - 1 ==> WordOrSpace(s[i])
  }

  lemma NamedEqualsShape(s: string)
    requires NamedEquals(s).Some?
    ensures EndsAtEquals(s, NamedEquals(s).value.1)
  {
    var n := Run(Word, s);
    var k := Spaces(s[n..]);
    forall i | 0 <= i < n + k ensures WordOrSpace(s[i]) {
      if i < n { RunAll(Word, s, i); } else { RunAll(IsSpace, s[n..], i - n); }
    }
  }

  lemma Deeper(s: string, from: nat, rest: string, n: nat, end: nat)
    requires from <= |s| && rest == s[from..] && EndsAtEquals(rest, n) && end == from + n
    requires forall i :: 0 <= i < from ==> WordOrSpace(s[i])
    ensures EndsAtEquals(s, end)
  {
    forall i | 0 <= i < end - 1 ensures WordOrSpace(s[i]) {
      if i >= from { assert s[i] == rest[i - from]; }
    }
    assert s[end - 1] == rest[n - 1];
  }

  lemma TailShape(t: string)
    requires ParameterTail(t).Some?
    ensures EndsAtEquals(t, ParameterTail(t).value.1)
  {
    var skip := TypeLength(t);
    if skip > 0 && NamedEquals(t[skip..]).Some? {
      var rest := t[skip..];
      NamedEqualsShape(rest);
      TypeShape(t, skip);
      var n := NamedEquals(rest).value.1;
      Deeper(t, skip, rest, n, skip + n);
    } else {
      NamedEqualsShape(t);
    }
  }

  lemma TypeShape(t: string, skip: nat)
    requires skip == TypeLength(t) > 0
    ensures forall i :: 0 <= i < skip ==> WordOrSpace(t[i])
  {
    var n := Run(Word, t);
    forall i | 0 <= i < skip ensures WordOrSpace(t[i]) {
      if i < n { RunAll(Word, t, i); } else { RunAll(IsSpace, t[n..], i - n); }
    }
  }

  lemma ParameterShape(s: string)
    requires ParameterAt(s).Some?
    ensures EndsAtEquals(s, ParameterAt(s).value.1)
  {
    var from := 9 + Spaces(s[9..]);
    var rest := s[from..];
    ParameterFrom(s, from);
    TailShape(rest);
    HeadShape(s, from);
    Deeper(s, from, rest, ParameterTail(rest).value.1, ParameterAt(s).value.1);
  }

  lemma HeadShape(s: string, from: nat)
    requires Keyword(PARAMETER, s) && from == 9 + Spaces(s[9..])
    ensures forall i :: 0 <= i < from ==> WordOrSpace(s[i])
  {
    forall i | 0 <= i < from ensures WordOrSpace(s[i]) {
      if i < 9 { assert s[i] == s[..9][i] == PARAMETER[i]; } else { RunAll(IsSpace, s[9..], i - 9); }
    }
  }

  /** What may follow a parameter value in the printed list. */
  ghost predicate ValueEnd(more: string) { more != [] && (more[0] == ',' || more == ['\n']) }

  /** A run ends at the latest where a character outside the class stops it. */
  lemma {:induction false} RunStop(p: char -> bool, u: string, c: char, b: string)
    requires !p(c)
    ensures Run(p, u + ([c] + b)) == Run(p, u + [c]) <= |u|
  {
    if u != [] {
      assert (u + ([c] + b))[1..] == u[1..] + ([c] + b) && (u + [c])[1..] == u[1..] + [c];
      RunStop(p, u[1..], c, b);
    }
  }

  predicate Stops(c: char) { !Word(c) && !IsSpace(c) }

  lemma DropStop(u: string, c: char, b: string, n: nat)
    requires n <= |u|
    ensures (u + ([c] + b))[n..] == u[n..] + ([c] + b) && (u + ([c] + b))[..n] == u[..n]
    ensures (u + [c])[n..] == u[n..] + [c] && (u + [c])[..n] == u[..n]
  {
  }

  lemma NamedEqualsStop(u: string, c: char, b: string)
    requires Stops(c)
    ensures NamedEquals(u + ([c] + b)) == NamedEquals(u + [c])
  {
    var n := Run(Word, u + [c]);
    RunStop(Word, u, c, b);
    DropStop(u, c, b, n);
    RunStop(IsSpace, u[n..], c, b);
  }

  lemma TypeLengthStop(u: string, c: char, b: string)
    requires Stops(c)
    ensures TypeLength(u + ([c] + b)) == TypeLength(u + [c]) <= |u|
  {
    var n := Run(Word, u + [c]);
    RunStop(Word, u, c, b);
    DropStop(u, c, b, n);
    RunStop(IsSpace, u[n..], c, b);
  }

  lemma TailStop(u: string, c: char, b: string)
    requires Stops(c)
    ensures ParameterTail(u + ([c] + b)) == ParameterTail(u + [c])
  {
    TypeLengthStop(u, c, b);
    var skip := TypeLength(u + [c]);
    DropStop(u, c, b, skip);
    NamedEqualsStop(u[skip..], c, b);
    NamedEqualsStop(u, c, b);
  }

  lemma KeywordLetters(s: string)
    ensures Keyword(PARAMETER, s) ==> forall i :: 0 <= i < 9 ==> !Stops(s[i])
  {
    if Keyword(PARAMETER, s) {
      forall i | 0 <= i < 9 ensures !Stops(s[i]) { assert s[i] == s[..9][i] == PARAMETER[i]; }
    }
  }

  lemma KeywordStop(u: string, c: char, b: string)
    requires Stops(c)
    ensures Keyword(PARAMETER, u + ([c] + b)) <==> Keyword(PARAMETER, u + [c])
    ensures Keyword(PARAMETER, u + [c]) ==> 9 <= |u|
  {
    if |u| < 9 {
      KeywordLetters(u + [c]);
      KeywordLetters(u + ([c] + b));
      assert (u + [c])[|u|] == c && (u + ([c] + b))[|u|] == c;
    } else {
      DropStop(u, c, b, 9);
    }
  }

  lemma ParameterFrom(s: string, from: nat)
    requires Keyword(PARAMETER, s) && from == 9 + Spaces(s[9..])
    ensures ParameterAt(s) == if from == 9 then None else Shifted(ParameterTail(s[from..]), from)
  {
  }

  /** Whether a declaration matches is decided by the text up to any character that is neither word nor space. */
  lemma MatchDecided(u: string, c: char, b: string)
    requires Stops(c)
    ensures ParameterAt(u + ([c] + b)) == ParameterAt(u + [c])
  {
    KeywordStop(u, c, b);
    if Keyword(PARAMETER, u + [c]) { TailDecided(u, c, b); }
  }

  lemma TailDecided(u: string, c: char, b: string)
    requires Stops(c) && 9 <= |u| && Keyword(PARAMETER, u + [c]) && Keyword(PARAMETER, u + ([c] + b))
    ensures ParameterAt(u + ([c] + b)) == ParameterAt(u + [c])
  {
    DropStop(u, c, b, 9);
    RunStop(IsSpace, u[9..], c, b);
    var from := 9 + Spaces(u[9..] + [c]);
    ParameterFrom(u + [c], from);
    ParameterFrom(u + ([c] + b), from);
    DropStop(u, c, b, from);
    TailStop(u[from..], c, b);
  }

  lemma NoEquals(u: string, more: string, n: nat)
    requires '=' !in u && (more == [] || ValueEnd(more))
    ensures !EndsAtEquals(u + more, n)
  {
    var s := u + more;
    if 0 < n <= |s| {
      if n - 1 < |u| { assert s[n - 1] == u[n - 1]; } else { assert s[|u|] == more[0]; }
    }
  }

  /** Words and spaces alone match nothing, whatever end of a value follows. */
  lemma NoMatchInWords(u: string, more: string)
    requires All(WordOrSpace, u) && (more == [] || ValueEnd(more))
    ensures ParameterAt(u + more) == None
  {
    WordsHaveNoEquals(u);
    if ParameterAt(u + more).Some? {
      ParameterShape(u + more);
      NoEquals(u, more, ParameterAt(u + more).value.1);
    }
  }

  lemma WordsHaveNoEquals(u: string)
    requires All(WordOrSpace, u)
    ensures '=' !in u
  {
    forall i | 0 <= i < |u| ensures u[i] != '=' { assert WordOrSpace(u[i]); }
  }

  /** The end of a value adds no match to those inside it. */
  lemma MatchInValue(v: string, more: string)
    requires ValueEnd(more)
    ensures ParameterAt(v + more) == ParameterAt(v)
  {
    var i := Run(WordOrSpace, v);
    RunEnds(WordOrSpace, v);
    forall k | 0 <= k < i ensures WordOrSpace(v[k]) { RunAll(WordOrSpace, v, k); }
    if i == |v| {
      NoMatchInWords(v, more);
      NoMatchInWords(v, []);
      assert v + [] == v;
    } else {
      var u, c, b := v[..i], v[i], v[i + 1..];
      assert v == u + ([c] + b) && v + more == u + ([c] + (b + more));
      MatchDecided(u, c, b);
      MatchDecided(u, c, b + more);
    }
  }

  /** What a value declares, then what follows the value. */
  lemma {:induction false} NamesJoin(v: string, more: string, inWord: bool)
    requires ValueEnd(more)
    ensures ParameterNames(v + more, inWord) == ParameterNames(v, inWord) + ParameterNames(more[1..], false)
    decreases |v|
  {
    MatchInValue(v, more);
    if v == [] {
      assert v + more == more;
      NamesSkip(more, inWord);
    } else if !inWord && ParameterAt(v).Some? {
      NamesJoin(v[ParameterAt(v).value.1..], more, false);
      NamesJoinTaken(v, more, ParameterNames(more[1..], false));
    } else {
      NamesJoin(v[1..], more, Word(v[0]));
      NamesJoinSkipped(v, more, inWord, ParameterNames(more[1..], false));
    }
  }

  lemma SliceJoins(v: string, more: string, k: nat)
    requires k <= |v|
    ensures (v + more)[k..] == v[k..] + more
  {
  }

  lemma FirstOfJoin(v: string, more: string)
    requires v != []
    ensures (v + more)[0] == v[0]
  {
  }

  lemma NamesJoinTaken(v: string, more: string, rest: seq<string>)
    requires ParameterAt(v).Some? && ParameterAt(v + more) == ParameterAt(v)
    requires var k := ParameterAt(v).value.1; ParameterNames(v[k..] + more, false) == ParameterNames(v[k..], false) + rest
    ensures ParameterNames(v + more, false) == ParameterNames(v, false) + rest
  {
    var name, k := ParameterAt(v).value.0, ParameterAt(v).value.1;
    SliceJoins(v, more, k);
    NamesTake(v, name, k);
    NamesTake(v + more, name, k);
    Assoc([name], ParameterNames(v[k..], false), rest);
  }

  lemma NamesJoinSkipped(v: string, more: string, inWord: bool, rest: seq<string>)
    requires v != [] && (inWord || (ParameterAt(v) == None && ParameterAt(v + more) == None))
    requires ParameterNames(v[1..] + more, Word(v[0])) == ParameterNames(v[1..], Word(v[0])) + rest
    ensures ParameterNames(v + more, inWord) == ParameterNames(v, inWord) + rest
  {
    SliceJoins(v, more, 1);
    FirstOfJoin(v, more);
    NamesSkip(v, inWord);
    NamesSkip(v + more, inWord);
  }

  lemma NamesSkip(s: string, inWord: bool)
    requires s != [] && (inWord || ParameterAt(s) == None)
    ensures ParameterNames(s, inWord) == ParameterNames(s[1..], Word(s[0]))
  {
  }

  lemma NamesTake(s: string, name: string, k: nat)
    requires ParameterAt(s) == Some((name, k))
    ensures ParameterNames(s, false) == [name] + ParameterNames(s[k..], false)
  {
  }

  lemma NameEqualsRead(name: string, after: string)
    requires IsName(name)
    ensures var t := name + ([' ', '='] + after);
      TypeLength(t) == |name| + 1 && NamedEquals(t[|name| + 1..]) == None && NamedEquals(t) == Some((name, |name| + 2))
  {
    var tail := [' ', '='] + after;
    var t := name + tail;
    RunIs(Word, name, tail);
    assert t[|name|..] == tail == [' '] + (['='] + after);
    SkipIs([' '], ['='] + after);
    assert t[|name| + 1..][0] == '=';
    assert t[..|name|] == name;
  }

  lemma ParameterRead(name: string, after: string)
    requires IsName(name)
    ensures ParameterAt(PARAMETER + ([' '] + (name + ([' ', '='] + after)))) == Some((name, 12 + |name|))
  {
    var t := name + ([' ', '='] + after);
    var s := PARAMETER + ([' '] + t);
    assert s[..9] == PARAMETER && s[9..] == [' '] + t && s[10..] == t;
    NameSolid(name);
    assert t[0] == name[0];
    SkipIs([' '], t);
    NameEqualsRead(name, after);
  }

  function ParameterBody(ps: seq<(string, string)>): string { ['\n'] + ParameterLines(ps) + ['\n'] }

  function Names(ps: seq<(string, string)>): seq<string> {
    if ps == [] then [] else [ps[0].0] + Names(ps[1..])
  }

  /** No closing parenthesis is followed, white space apart, by an opening one. */
  ghost predicate NoCall(s: string) {
    forall i :: 0 <= i < |s| && s[i] == ')' ==> !Opens(s[i + 1..])
  }

  ghost predicate Opens(s: string) { SkipSpaces(s) != [] && SkipSpaces(s)[0] == '(' }

  /** No word goes on here. */
  predicate Boundary(v: string, inWord: bool, i: int)
    requires 0 <= i < |v|
  {
    !(if i == 0 then inWord else Word(v[i - 1]))
  }

  /** No parameter declaration (the keyword at a word boundary, a name, an equals sign) starts in the text. */
  ghost predicate DeclaresNone(v: string, inWord: bool) {
    forall i :: 0 <= i < |v| && Boundary(v, inWord, i) ==> ParameterAt(v[i..]) == None
  }

  /** Values open no comment, and no parenthesis in them is opened right after one is closed. */
  ghost predicate PlainValue(v: string) {
    NoCall(v) && CommentFree(v)
  }

  ghost predicate NamedParameters(ps: seq<(string, string)>) { forall i :: 0 <= i < |ps| ==> IsName(ps[i].0) }

  ghost predicate GoodParameters(ps: seq<(string, string)>) {
    NamedParameters(ps) && forall i :: 0 <= i < |ps| ==> PlainValue(ps[i].1)
  }

  lemma BodyOfParameters(ps: seq<(string, string)>) returns (more: string)
    requires ps != []
    ensures ParameterBody(ps) == ['\n', ' ', ' '] + (ParameterText(ps[0]) + more)
    ensures more == if |ps| == 1 then ['\n'] else [','] + ParameterBody(ps[1..])
  {
    var t := ParameterText(ps[0]);
    if |ps| == 1 {
      more := ['\n'];
      assert ParameterTexts(ps[1..]) == [];
      assert ParameterTexts(ps) == [t];
    } else {
      more := [','] + ParameterBody(ps[1..]);
      assert ParameterTexts(ps)[1..] == ParameterTexts(ps[1..]);
      LinesSplit(ParameterTexts(ps));
      Regrouped(t, ParameterLines(ps[1..]));
      Assoc(['\n', ' ', ' '], t, more);
    }
  }

  lemma {:induction false} DeclaresNoneExactly(v: string, inWord: bool)
    ensures ParameterNames(v, inWord) == [] <==> DeclaresNone(v, inWord)
    decreases |v|
  {
    if v == [] {
    } else if !inWord && ParameterAt(v).Some? {
      NamesTake(v, ParameterAt(v).value.0, ParameterAt(v).value.1);
      assert v[0..] == v;
    } else {
      NamesSkip(v, inWord);
      DeclaresNoneExactly(v[1..], Word(v[0]));
      DeclaresNoneTail(v, inWord);
    }
  }

  lemma DeclaresNoneTail(v: string, inWord: bool)
    requires v != [] && (inWord || ParameterAt(v) == None)
    ensures DeclaresNone(v, inWord) <==> DeclaresNone(v[1..], Word(v[0]))
  {
    var t, w := v[1..], Word(v[0]);
    if DeclaresNone(v, inWord) {
      forall i | 0 <= i < |t| && Boundary(t, w, i) ensures ParameterAt(t[i..]) == None { OnePlaceOn(v, t, inWord, i, i + 1); }
    }
    if DeclaresNone(t, w) {
      forall i | 0 <= i < |v| && Boundary(v, inWord, i) ensures ParameterAt(v[i..]) == None {
        if i == 0 { assert v[0..] == v; } else { OnePlaceOn(v, t, inWord, i - 1, i); }
      }
    }
  }

  lemma OnePlaceOn(v: string, t: string, inWord: bool, i: nat, j: nat)
    requires v != [] && t == v[1..] && j == i + 1 && i < |t|
    ensures v[j..] == t[i..] && (Boundary(v, inWord, j) <==> Boundary(t, Word(v[0]), i))
  {
  }

  /** Every parameter's name, and after it the names its value declares. */
  function NamesAndMore(ps: seq<(string, string)>): seq<string> {
    if ps == [] then [] else [ps[0].0] + (ParameterNames(ps[0].1, false) + NamesAndMore(ps[1..]))
  }

  lemma {:induction false} ParametersRead(ps: seq<(string, string)>)
    requires ps != [] && NamedParameters(ps)
    ensures ParameterNames(ParameterBody(ps), false) == NamesAndMore(ps)
  {
    var more := BodyOfParameters(ps);
    OneParameterRead(ps[0].0, ps[0].1, more);
    if |ps| == 1 {
      assert NamesAndMore(ps[1..]) == [];
      assert more[1..] == [];
    } else {
      assert more[1..] == ParameterBody(ps[1..]);
      ParametersRead(ps[1..]);
    }
  }

  /** No value declares a parameter. */
  ghost predicate NothingDeclared(ps: seq<(string, string)>) {
    ps == [] || (DeclaresNone(ps[0].1, false) && NothingDeclared(ps[1..]))
  }

  lemma {:induction false} MoreThanNames(ps: seq<(string, string)>)
    ensures |NamesAndMore(ps)| >= |Names(ps)| == |ps|
    ensures NothingDeclared(ps) ==> NamesAndMore(ps) == Names(ps)
    ensures !NothingDeclared(ps) ==> |NamesAndMore(ps)| > |ps|
  {
    if ps != [] {
      MoreThanNames(ps[1..]);
      DeclaresNoneExactly(ps[0].1, false);
      NamesStep(ps[0].0, ParameterNames(ps[0].1, false), NamesAndMore(ps[1..]));
    }
  }

  lemma NamesStep(name: string, inner: seq<string>, rest: seq<string>)
    ensures |[name] + (inner + rest)| == 1 + |inner| + |rest|
    ensures inner == [] ==> [name] + (inner + rest) == [name] + rest
  {
    if inner == [] { assert inner + rest == rest; }
  }

  /** The parameter names of a printed list are read back, in order and nothing else, exactly when no value declares
      a parameter of its own. */
  lemma ParametersReadExactly(ps: seq<(string, string)>)
    requires ps != [] && NamedParameters(ps)
    ensures ParameterNames(ParameterBody(ps), false) == Names(ps) <==> NothingDeclared(ps)
  {
    ParametersRead(ps);
    MoreThanNames(ps);
  }

  lemma OneParameterRead(name: string, value: string, more: string)
    requires IsName(name) && ValueEnd(more)
    ensures ParameterNames(['\n', ' ', ' '] + (ParameterText((name, value)) + more), false) ==
            [name] + (ParameterNames(value, false) + ParameterNames(more[1..], false))
  {
    var after := [' '] + (value + more);
    var x := PARAMETER + ([' '] + (name + ([' ', '='] + after)));
    ParameterTextForm(name, value, more, x);
    LeadSkipped(x);
    ParameterRead(name, after);
    ParameterTaken(x, name, after);
    SpaceSkipped(' ', value + more);
    NamesJoin(value, more, false);
  }

  lemma ParameterTextForm(name: string, value: string, more: string, x: string)
    requires x == PARAMETER + ([' '] + (name + ([' ', '='] + ([' '] + (value + more)))))
    ensures ParameterText((name, value)) + more == x
  {
  }

  lemma ParameterTaken(x: string, name: string, after: string)
    requires x == PARAMETER + ([' '] + (name + ([' ', '='] + after))) && ParameterAt(x) == Some((name, 12 + |name|))
    ensures ParameterNames(x, false) == [name] + ParameterNames(after, false)
  {
    NamesTake(x, name, 12 + |name|);
    DropFront(name, after);
  }

  lemma DropFront(name: string, after: string)
    ensures (PARAMETER + ([' '] + (name + ([' ', '='] + after))))[12 + |name|..] == after
  {
  }

  lemma LeadSkipped(x: string)
    ensures ParameterNames(['\n', ' ', ' '] + x, false) == ParameterNames(x, false)
  {
    SpaceSkipped(' ', x);
    SpaceSkipped(' ', [' '] + x);
    SpaceSkipped('\n', [' '] + ([' '] + x));
    assert ['\n', ' ', ' '] + x == ['\n'] + ([' '] + ([' '] + x));
  }

  lemma SpaceSkipped(c: char, x: string)
    requires IsSpace(c)
    ensures ParameterNames([c] + x, false) == ParameterNames(x, false)
  {
    NoKeyword(c, x);
    NamesSkip([c] + x, false);
    assert ([c] + x)[1..] == x;
  }

  lemma NoKeyword(c: char, x: string)
    requires IsSpace(c)
    ensures ParameterAt([c] + x) == None
  {
    if Keyword(PARAMETER, [c] + x) { KeywordHead([c] + x); }
  }

  lemma KeywordHead(s: string)
    requires Keyword(PARAMETER, s)
    ensures s[0] == 'p'
  {
    assert s[0] == s[..9][0];
  }

  // ---------------------------------------------------------------- the declaration

  ghost predicate NoClose(s: string) { forall i :: 0 <= i < |s| ==> s[i] != ')' }

  lemma {:induction false} PortsEndAt(body: string, tail: string)
    requires NoClose(body) && tail != [] && tail[0] == ')' && SkipSpaces(tail[1..]) != [] && SkipSpaces(tail[1..])[0] == ';'
    ensures PortsEnd(body + tail) == Some(|body|)
  {
    if body == [] {
      assert body + tail == tail;
    } else {
      assert (body + tail)[1..] == body[1..] + tail;
      PortsEndAt(body[1..], tail);
    }
  }

  lemma PortsTextRead(body: string, rest: string)
    requires NoClose(body)
    ensures PortsText([' ', '('] + (body + ([')', ';'] + rest))) == Some(body)
  {
    var tail := [')', ';'] + rest;
    var inner := body + tail;
    assert [' ', '('] + inner == [' '] + (['('] + inner);
    SkipIs([' '], ['('] + inner);
    assert (['('] + inner)[1..] == inner;
    assert tail[1..] == [';'] + rest;
    NoSkip([';'] + rest);
    PortsEndAt(body, tail);
    assert inner[..|body|] == body;
  }

  lemma OpensNot(s: string, more: string)
    requires !Opens(s) && (more == [] || (!IsSpace(more[0]) && more[0] != '('))
    ensures !Opens(s + more)
  {
    var n := Spaces(s);
    RunEnds(IsSpace, s);
    forall i | 0 <= i < n ensures IsSpace(s[i]) { RunAll(IsSpace, s, i); }
    assert s + more == s[..n] + (s[n..] + more);
    SkipIs(s[..n], s[n..] + more);
  }

  lemma {:induction false} ParamsRead(params: string, after: string, body: string)
    requires NoCall(params) && PortsText(after) == Some(body)
    ensures ParamsAndPorts(params + ([')'] + after)) == Some((params, body))
  {
    var s := params + ([')'] + after);
    if params == [] {
      assert s == [')'] + after && s[1..] == after;
    } else {
      var rest := params[1..];
      assert s[1..] == rest + ([')'] + after);
      forall i | 0 <= i < |rest| && rest[i] == ')' ensures !Opens(rest[i + 1..]) {
        assert rest[i + 1..] == params[i + 2..];
      }
      ParamsRead(rest, after, body);
      if params[0] == ')' { OpensNot(rest, [')'] + after); }
      assert params == [params[0]] + rest;
    }
  }

  lemma {:induction false} PortsEndJoins(x: string, more: string)
    requires PortsEnd(more).Some?
    ensures PortsEnd(x + more).Some?
  {
    if x == [] {
      assert x + more == more;
    } else {
      assert (x + more)[1..] == x[1..] + more;
      PortsEndJoins(x[1..], more);
    }
  }

  lemma PortsTextJoins(u: string, more: string)
    requires Opens(u) && PortsEnd(more).Some?
    ensures PortsText(u + more).Some?
  {
    var n := Spaces(u);
    forall i | 0 <= i < n ensures IsSpace(u[i]) { RunAll(IsSpace, u, i); }
    assert u + more == u[..n] + (u[n..] + more);
    SkipIs(u[..n], u[n..] + more);
    assert (u[n..] + more)[1..] == u[n..][1..] + more;
    PortsEndJoins(u[n..][1..], more);
  }

  lemma PortsFollow(after: string)
    requires PortsText(after).Some?
    ensures PortsEnd([')'] + after).Some?
  {
    var n := Spaces(after);
    PortsEndJoins([')'] + after[..n + 1], after[n..][1..]);
    assert [')'] + after == ([')'] + after[..n + 1]) + after[n..][1..];
  }

  /** Where a parenthesis is opened right after one is closed, the parameter text ends, or before. */
  lemma {:induction false} EarlierSplit(params: string, i: nat, after: string)
    requires i < |params| && params[i] == ')' && Opens(params[i + 1..]) && PortsEnd([')'] + after).Some?
    ensures var r := ParamsAndPorts(params + ([')'] + after)); r.Some? && |r.value.0| <= i
  {
    var tail := [')'] + after;
    var s := params + tail;
    assert s[1..] == params[1..] + tail;
    if i == 0 {
      PortsTextJoins(params[1..], tail);
    } else {
      assert params[1..][i - 1 + 1..] == params[i + 1..];
      EarlierSplit(params[1..], i - 1, after);
    }
  }

  /** The parameter text is told from the port text exactly when in it no parenthesis is opened right after one is
      closed. */
  lemma ParamsSplitExactly(params: string, after: string, body: string)
    requires PortsText(after) == Some(body)
    ensures var r := ParamsAndPorts(params + ([')'] + after)); r.Some? && (r == Some((params, body)) <==> NoCall(params))
  {
    if NoCall(params) {
      ParamsRead(params, after, body);
    } else {
      var i :| 0 <= i < |params| && params[i] == ')' && Opens(params[i + 1..]);
      PortsFollow(after);
      EarlierSplit(params, i, after);
    }
  }

  /** The name, and what follows it. */
  lemma NameRead(name: string, u: string)
    requires IsName(name) && u != [] && u[0] == ' '
    ensures DeclarationAt(MODULE + ([' '] + (name + u))) == AfterName(name, SkipSpaces(u))
  {
    var t := name + u;
    var s := MODULE + ([' '] + t);
    assert s[..6] == MODULE && s[6..] == [' '] + t;
    NameSolid(name);
    assert t[0] == name[0];
    SkipIs([' '], t);
    RunIs(Word, name, u);
    assert t[..|name|] == name && t[|name|..] == u;
  }

  /** The text of the header after the module name. */
  function AfterModuleName(params: string, body: string, rest: string): string {
    var ports := [' ', '('] + (body + ([')', ';'] + rest));
    if params == [] then ports else [' ', '#', '('] + (params + ([')'] + ports))
  }

  /** A whole declaration and what follows it. */
  function DeclarationText(f: Found, rest: string): string {
    MODULE + ([' '] + (f.name + AfterModuleName(f.params, f.ports, rest)))
  }

  lemma AfterNameRead(f: Found, rest: string)
    requires NoClose(f.ports)
    ensures var r := AfterName(f.name, SkipSpaces(AfterModuleName(f.params, f.ports, rest)));
      r.Some? && (r == Some(f) <==> NoCall(f.params))
  {
    var ports := [' ', '('] + (f.ports + ([')', ';'] + rest));
    PortsTextRead(f.ports, rest);
    if f.params == [] {
      BarePorts(ports);
    } else {
      ParamsSplitExactly(f.params, ports, f.ports);
      HashRead(f.name, f.params + ([')'] + ports));
    }
  }

  lemma HashRead(name: string, v: string)
    requires ParamsAndPorts(v).Some?
    ensures var both := ParamsAndPorts(v).value;
      AfterName(name, SkipSpaces([' ', '#', '('] + v)) == Some(Found(name, both.0, both.1))
  {
    HashSkipped(v);
    assert (['('] + v)[1..] == v;
  }

  /** What is left of the printed parameters once comments are removed. */
  function ParametersLeft(ps: seq<(string, string)>): string {
    if ps == [] then [] else WithoutComments(ParameterBody(ps))
  }

  /** The parts of a printed header. */
  function FoundIn(c: Contract): Found { Found(c.moduleName, ParametersLeft(c.parameters), PortBody(c.ports)) }

  lemma BareParts(m: string, name: string, ports: string, rest: string)
    ensures (m + [' '] + name + [] + [' ', '(', '\n'] + ports + ['\n', ')', ';']) + rest ==
            m + ([' '] + (name + ([' ', '('] + ((['\n'] + ports + ['\n']) + ([')', ';'] + rest)))))
  {
  }

  lemma FullParts(m: string, name: string, params: string, ports: string)
    ensures m + [' '] + name + ([' ', '#', '(', '\n'] + params + ['\n', ')']) + [' ', '(', '\n'] + ports + ['\n', ')', ';'] ==
            (m + ([' '] + (name + [' ', '#', '(']))) + ((['\n'] + params) +
              (['\n', ')'] + ([' ', '('] + ((['\n'] + ports + ['\n']) + [')', ';']))))
  {
  }

  lemma DeclarationExactly(f: Found, rest: string)
    requires IsName(f.name) && NoClose(f.ports)
    ensures var r := DeclarationAt(DeclarationText(f, rest)); r.Some? && (r == Some(f) <==> NoCall(f.params))
  {
    NameRead(f.name, AfterModuleName(f.params, f.ports, rest));
    AfterNameRead(f, rest);
  }

  lemma BarePorts(ports: string)
    requires |ports| >= 2 && ports[0] == ' ' && ports[1] == '('
    ensures SkipSpaces(ports) == ports[1..] && PortsText(ports[1..]) == PortsText(ports)
  {
    assert ports == [' '] + ports[1..];
    SkipIs([' '], ports[1..]);
    NoSkip(ports[1..]);
  }

  lemma HashSkipped(v: string)
    ensures SkipSpaces([' ', '#', '('] + v) == ['#', '('] + v
    ensures SkipSpaces((['#', '('] + v)[1..]) == ['('] + v
  {
    assert [' ', '#', '('] + v == [' '] + (['#', '('] + v);
    SkipIs([' '], ['#', '('] + v);
    assert (['#', '('] + v)[1..] == ['('] + v;
    NoSkip(['('] + v);
  }

  // ---------------------------------------------------------------- comments

  lemma JoinFree(a: string, b: string)
    requires CommentFree(a) && CommentFree(b)
    requires a == [] || a[|a| - 1] != '/' || b == [] || (b[0] != '/' && b[0] != '*')
    ensures CommentFree(a + b)
  {
    var s := a + b;
    forall i | 0 <= i && i + 1 < |s| && s[i] == '/' ensures s[i + 1] != '/' && s[i + 1] != '*' {
      if i >= |a| { assert b[i - |a|] == '/'; }
    }
  }

  lemma {:induction false} BlocksKept(a: string, b: string)
    requires CommentFree(a) && (a != [] ==> a[|a| - 1] != '/')
    ensures DropBlocks(a + b) == a + DropBlocks(b)
  {
    if a == [] {
      assert a + b == b;
    } else {
      PairAt(a + b, '/', '*');
      assert (a + b)[1..] == a[1..] + b;
      BlocksKept(a[1..], b);
      FirstKept(a, DropBlocks(b));
    }
  }

  lemma {:induction false} LinesKept(a: string, b: string)
    requires CommentFree(a) && (a != [] ==> a[|a| - 1] != '/')
    ensures DropLines(a + b) == a + DropLines(b)
  {
    if a == [] {
      assert a + b == b;
    } else {
      PairAt(a + b, '/', '/');
      assert (a + b)[1..] == a[1..] + b;
      LinesKept(a[1..], b);
      FirstKept(a, DropLines(b));
    }
  }

  lemma FirstKept(a: string, b: string)
    requires a != []
    ensures [a[0]] + (a[1..] + b) == a + b
  {
  }

  /** No closing parenthesis, slash or asterisk. */
  ghost predicate Tame(s: string) { forall i :: 0 <= i < |s| ==> s[i] != ')' && s[i] != '/' && s[i] != '*' }

  lemma JoinTame(a: string, b: string)
    requires Tame(a) && Tame(b)
    ensures Tame(a + b)
  {
  }

  lemma PortBodyTame(ports: seq<Port>)
    requires ports != [] && GoodPorts(ports)
    ensures Tame(PortBody(ports))
  {
    PrintedList(ports);
    ListTame(PrintedItems(ports));
  }

  lemma JoinCalls(a: string, b: string)
    requires NoCall(a) && NoCall(b) && (')' in a ==> !Opens(b))
    ensures NoCall(a + b)
  {
    forall i | 0 <= i < |a + b| && (a + b)[i] == ')' ensures !Opens((a + b)[i + 1..]) {
      if i >= |a| { LaterTail(a, b, i, i - |a|); } else { EarlierTail(a, b, i); }
    }
  }

  lemma LaterTail(a: string, b: string, i: nat, k: nat)
    requires NoCall(b) && k == i - |a| && k < |b| && b[k] == ')'
    ensures !Opens((a + b)[i + 1..])
  {
    assert (a + b)[i + 1..] == b[k + 1..];
  }

  lemma EarlierTail(a: string, b: string, i: nat)
    requires NoCall(a) && i < |a| && a[i] == ')' && !Opens(b)
    ensures !Opens((a + b)[i + 1..])
  {
    assert (a + b)[i + 1..] == a[i + 1..] + b;
    NotOpened(a[i + 1..], b);
  }

  lemma NotOpened(u: string, b: string)
    requires !Opens(u) && !Opens(b)
    ensures !Opens(u + b)
  {
    var n := Spaces(u);
    RunEnds(IsSpace, u);
    forall i | 0 <= i < n ensures IsSpace(u[i]) { RunAll(IsSpace, u, i); }
    if n < |u| {
      assert u + b == u[..n] + (u[n..] + b);
      SkipIs(u[..n], u[n..] + b);
    } else {
      var k := Spaces(b);
      RunEnds(IsSpace, b);
      forall i | 0 <= i < k ensures IsSpace(b[i]) { RunAll(IsSpace, b, i); }
      assert u + b == (u + b[..k]) + b[k..];
      SkipIs(u + b[..k], b[k..]);
    }
  }

  /** The fixed text in front of a parameter value. */
  function ValueFront(name: string): string {
    ['\n', ' ', ' '] + (PARAMETER + ([' '] + (name + [' ', '=', ' '])))
  }

  lemma {:induction false} ParameterBodyPlain(ps: seq<(string, string)>)
    requires ps != [] && GoodParameters(ps)
    ensures Harmless(ParameterBody(ps))
  {
    var more := BodyOfParameters(ps);
    if |ps| == 1 {
      assert Harmless(['\n']);
    } else {
      ParameterBodyPlain(ps[1..]);
      NoCallHead([','], ParameterBody(ps[1..]));
    }
    ValuePlain(ps[0].0, ps[0].1, more);
    ValueJoins(ps[0].0, ps[0].1, more);
  }

  /** A text that breaks neither the parameter list nor the comments. */
  ghost predicate Harmless(s: string) { NoCall(s) && CommentFree(s) }

  lemma ValueJoins(name: string, v: string, more: string)
    ensures ['\n', ' ', ' '] + (ParameterText((name, v)) + more) == ValueFront(name) + (v + more)
  {
  }

  lemma ValuePlain(name: string, v: string, more: string)
    requires IsName(name) && PlainValue(v) && ValueEnd(more) && Harmless(more)
    ensures Harmless(ValueFront(name) + (v + more))
  {
    MorePlain(more);
    JoinCalls(v, more);
    JoinFree(v, more);
    FrontPlain(name, v + more);
  }

  lemma NoCallHead(a: string, b: string)
    requires Tame(a) && Harmless(b)
    ensures Harmless(a + b)
  {
    JoinCalls(a, b);
    JoinFree(a, b);
  }

  lemma MorePlain(more: string)
    requires ValueEnd(more)
    ensures !Opens(more) && more[0] != '/' && more[0] != '*'
  {
    if more == ['\n'] {
      assert more + [] == more;
      SkipIs(['\n'], []);
    } else {
      NoSkip(more);
    }
  }

  lemma FrontPlain(name: string, rest: string)
    requires IsName(name) && Harmless(rest)
    ensures Harmless(ValueFront(name) + rest)
  {
    NameSolid(name);
    JoinTame(name, [' ', '=', ' ']);
    JoinTame([' '], name + [' ', '=', ' ']);
    JoinTame(PARAMETER, [' '] + (name + [' ', '=', ' ']));
    JoinTame(['\n', ' ', ' '], PARAMETER + ([' '] + (name + [' ', '=', ' '])));
    NoCallHead(ValueFront(name), rest);
  }

  // Text on both sides of a line feed keeps its comments to itself, if no comment is closed after it.

  lemma {:induction false} CloseApart(a: string, d: string)
    requires d != [] && d[0] == '\n' && !AfterClose(d).0
    ensures AfterClose(a + d).0 == AfterClose(a).0
    ensures AfterClose(a).0 ==> AfterClose(a + d).1 == AfterClose(a).1 + d
  {
    if AfterClose(a).0 {
      CloseThen(a, d);
    } else if a == [] {
      assert a + d == d;
    } else {
      PairAt(a, '*', '/');
      PairAt(a + d, '*', '/');
      assert (a + d)[1..] == a[1..] + d;
      CloseApart(a[1..], d);
    }
  }

  lemma {:induction false} BlocksApart(a: string, d: string)
    requires d != [] && d[0] == '\n' && !AfterClose(d).0
    ensures DropBlocks(a + d) == DropBlocks(a) + DropBlocks(d)
    decreases |a|
  {
    if a == [] {
      assert a + d == d;
    } else {
      BlockApart(a, d);
      if BlockAt(a) {
        BlocksApart(AfterClose(a[2..]).1, d);
      } else {
        BlocksApart(a[1..], d);
        Assoc([a[0]], DropBlocks(a[1..]), DropBlocks(d));
      }
    }
  }

  lemma BlockApart(a: string, d: string)
    requires a != [] && d != [] && d[0] == '\n' && !AfterClose(d).0
    ensures BlockAt(a + d) <==> BlockAt(a)
    ensures BlockAt(a) ==> DropBlocks(a + d) == DropBlocks(AfterClose(a[2..]).1 + d)
    ensures !BlockAt(a) ==> DropBlocks(a + d) == [a[0]] + DropBlocks(a[1..] + d)
  {
    var s := a + d;
    PairAt(a, '/', '*');
    PairAt(s, '/', '*');
    if "/*" <= a {
      SliceJoins(a, d, 2);
      CloseApart(a[2..], d);
    }
    if BlockAt(a) {
      BlockDropped(s);
    } else {
      FirstOfJoin(a, d);
      SliceJoins(a, d, 1);
      FirstCopied(s);
    }
  }

  lemma BlockDropped(s: string)
    requires BlockAt(s)
    ensures DropBlocks(s) == DropBlocks(AfterClose(s[2..]).1)
  {
  }

  lemma FirstCopied(s: string)
    requires s != [] && !BlockAt(s)
    ensures DropBlocks(s) == [s[0]] + DropBlocks(s[1..])
  {
  }

  lemma {:induction false} LinesApart(a: string, d: string)
    requires d != [] && d[0] == '\n'
    ensures DropLines(a + d) == DropLines(a) + DropLines(d)
    decreases |a|
  {
    if a == [] {
      assert a + d == d;
    } else if "//" <= a {
      CommentJoins(a, d);
      PairAt(a, '/', '/');
      PairAt(a + d, '/', '/');
      DropLineJoins(a, d);
      LinesApart(DropLine(a), d);
    } else {
      PairJoins(a, d);
      assert (a + d)[1..] == a[1..] + d;
      LinesApart(a[1..], d);
      Assoc([a[0]], DropLines(a[1..]), DropLines(d));
    }
  }

  lemma WithoutApart(a: string, d: string)
    requires d != [] && d[0] == '\n' && !AfterClose(d).0
    ensures WithoutComments(a + d) == WithoutComments(a) + WithoutComments(d)
  {
    PairAt(d, '/', '*');
    BlocksApart(a, d);
    LinesApart(DropBlocks(a), DropBlocks(d));
  }

  lemma WithoutKept(a: string, b: string)
    requires CommentFree(a) && a != [] && a[|a| - 1] != '/'
    ensures WithoutComments(a + b) == a + WithoutComments(b)
  {
    BlocksKept(a, b);
    LinesKept(a, DropBlocks(b));
  }

  lemma {:induction false} NothingCloses(s: string)
    requires '*' !in s
    ensures !AfterClose(s).0
  {
    PairAt(s, '*', '/');
    if s != [] { NothingCloses(s[1..]); }
  }

  // ---------------------------------------------------------------- the round trip

  /** What a contract's own validation demands of names, and widths that can be printed. */
  ghost predicate GoodContract(c: Contract) {
    IsName(c.moduleName) && c.ports != [] && GoodPorts(c.ports) && NamedParameters(c.parameters)
  }

  /** The port list as printed, between the parameters and the body. */
  function PortsBlock(ports: seq<Port>): string { [' ', '('] + (PortBody(ports) + [')', ';']) }

  lemma PortsBlockFree(ports: seq<Port>)
    requires ports != [] && GoodPorts(ports)
    ensures var b := PortsBlock(ports); CommentFree(b) && b[|b| - 1] == ';' && '*' !in b
  {
    PortBodyTame(ports);
    JoinFree(PortBody(ports), [')', ';']);
    JoinFree([' ', '('], PortBody(ports) + [')', ';']);
  }

  lemma NameFree(name: string, after: string)
    requires IsName(name) && CommentFree(after) && after != [] && after[0] == ' '
    ensures CommentFree(MODULE + ([' '] + (name + after)))
  {
    NameSolid(name);
    JoinFree(name, after);
    JoinFree([' '], name + after);
    JoinFree(MODULE, [' '] + (name + after));
  }

  lemma RestClosesNothing()
    ensures '*' !in REST
  {
  }

  /** A printed header with its comments removed. */
  lemma TemplateBare(c: Contract)
    requires GoodContract(c)
    ensures WithoutComments(HeaderTemplate(c)) == DeclarationText(FoundIn(c), WithoutComments(REST))
    ensures c.parameters != [] ==> FoundIn(c).params != []
  {
    if c.parameters == [] { BareTemplate(c); } else { FullTemplate(c); }
  }

  lemma BareTemplate(c: Contract)
    requires GoodContract(c) && c.parameters == []
    ensures WithoutComments(HeaderTemplate(c)) == DeclarationText(FoundIn(c), WithoutComments(REST))
  {
    var h := HeaderText(c);
    PortsBlockFree(c.ports);
    BareParts(MODULE, c.moduleName, PortLines(c.ports), []);
    BareParts(MODULE, c.moduleName, PortLines(c.ports), WithoutComments(REST));
    assert h == h + [] == MODULE + ([' '] + (c.moduleName + PortsBlock(c.ports)));
    NameFree(c.moduleName, PortsBlock(c.ports));
    WithoutKept(h, REST);
  }

  lemma FullTemplate(c: Contract)
    requires GoodContract(c) && c.parameters != []
    ensures WithoutComments(HeaderTemplate(c)) == DeclarationText(FoundIn(c), WithoutComments(REST))
    ensures ParametersLeft(c.parameters) != []
  {
    var name, lines, ports := c.moduleName, ParameterLines(c.parameters), PortLines(c.ports);
    var front, all := MODULE + ([' '] + (name + [' ', '#', '('])), ['\n'] + lines;
    var tail := ['\n', ')'] + PortsBlock(c.ports);
    FullParts(MODULE, name, lines, ports);
    FullJoined(front, all, tail, REST);
    NameFree(name, [' ', '#', '(']);
    WithoutKept(front, all + (tail + REST));
    TailApart(all, c.ports);
    LeftParts(c.parameters);
    FullBare(MODULE, name, WithoutComments(all), PortBody(c.ports), WithoutComments(REST));
  }

  /** The comments of the parameters end with the parameters. */
  lemma TailApart(all: string, ports: seq<Port>)
    requires ports != [] && GoodPorts(ports)
    ensures var tail := ['\n', ')'] + PortsBlock(ports);
      WithoutComments(all + (tail + REST)) == WithoutComments(all) + (tail + WithoutComments(REST))
  {
    var tail := ['\n', ')'] + PortsBlock(ports);
    PortsBlockFree(ports);
    JoinFree(['\n', ')'], PortsBlock(ports));
    RestClosesNothing();
    NothingCloses(tail + REST);
    WithoutApart(all, tail + REST);
    WithoutKept(tail, REST);
  }

  lemma LeftParts(ps: seq<(string, string)>)
    requires ps != []
    ensures ParametersLeft(ps) == WithoutComments(['\n'] + ParameterLines(ps)) + ['\n']
  {
    NothingCloses(['\n']);
    WithoutApart(['\n'] + ParameterLines(ps), ['\n']);
    WithoutKept(['\n'], []);
    assert ['\n'] + [] == ['\n'];
  }

  lemma FullJoined(front: string, lines: string, t: string, rest: string)
    ensures (front + (lines + t)) + rest == front + (lines + (t + rest))
  {
  }

  lemma FullBare(m: string, name: string, left: string, body: string, rest: string)
    ensures (m + ([' '] + (name + [' ', '#', '(']))) + (left + ((['\n', ')'] + ([' ', '('] + (body + [')', ';']))) + rest)) ==
            m + ([' '] + (name + ([' ', '#', '('] + ((left + ['\n']) + ([')'] + ([' ', '('] + (body + ([')', ';'] + rest))))))))
  {
  }

  /** A printed header is taken apart into module name, parameters and ports exactly when in the parameters, comments
      removed, no parenthesis is opened right after one is closed. The ports then come back in order with direction
      and width, and the parameter names are those declared in what comments leave. */
  lemma HeaderRoundTrip(c: Contract)
    requires GoodContract(c)
    ensures FindDeclaration(WithoutComments(HeaderTemplate(c)), false) == Some(FoundIn(c)) <==>
            NoCall(ParametersLeft(c.parameters))
    ensures NoCall(ParametersLeft(c.parameters)) ==>
            ParseHeader(HeaderTemplate(c)) == Header(c.moduleName, c.ports, ParameterNames(ParametersLeft(c.parameters), false))
  {
    TemplateBare(c);
    PortBodyTame(c.ports);
    DeclarationExactly(FoundIn(c), WithoutComments(REST));
    PortsRead(c.ports, None, 1);
  }

  /** A header with port declarations of any form, in any list layout, is read: module name, every port in order with
      its direction and its number of bits, and the names the parameter text declares. */
  lemma DeclarationsRead(name: string, params: string, items: seq<Item>, rest: string)
    requires IsName(name) && items != [] && GoodItems(items)
    requires NoCall(params) && CommentFree(params) && (params != [] ==> params[|params| - 1] != '/')
    ensures ParseHeader(DeclarationText(Found(name, params, ListText(items)), rest)) ==
            Header(name, PortsOf(items), ParameterNames(params, false))
  {
    var f := Found(name, params, ListText(items));
    ListTame(items);
    BareDeclaration(f, rest);
    DeclarationExactly(f, WithoutComments(rest));
    ListRead(items, None, 1);
  }

  lemma BareDeclaration(f: Found, rest: string)
    requires IsName(f.name) && Tame(f.ports) && CommentFree(f.params) && (f.params != [] ==> f.params[|f.params| - 1] != '/')
    ensures WithoutComments(DeclarationText(f, rest)) == DeclarationText(f, WithoutComments(rest))
  {
    var h := DeclarationText(f, []);
    AfterNameFree(f.params, f.ports);
    NameFree(f.name, AfterModuleName(f.params, f.ports, []));
    DeclarationSplits(f, rest);
    DeclarationSplits(f, WithoutComments(rest));
    LastOfDeclaration(f);
    WithoutKept(h, rest);
  }

  lemma DeclarationSplits(f: Found, rest: string)
    ensures DeclarationText(f, rest) == DeclarationText(f, []) + rest
  {
    var ports := [' ', '('] + (f.ports + ([')', ';'] + rest));
    if f.params == [] {
      SplitBare(f.name, f.ports, rest);
    } else {
      SplitFull(f.name, f.params, f.ports, rest);
    }
  }

  lemma SplitBare(name: string, ports: string, rest: string)
    ensures MODULE + ([' '] + (name + ([' ', '('] + (ports + ([')', ';'] + rest))))) ==
            MODULE + ([' '] + (name + ([' ', '('] + (ports + ([')', ';'] + []))))) + rest
  {
  }

  lemma SplitFull(name: string, params: string, ports: string, rest: string)
    ensures MODULE + ([' '] + (name + ([' ', '#', '('] + (params + ([')'] + ([' ', '('] + (ports + ([')', ';'] + rest)))))))) ==
            MODULE + ([' '] + (name + ([' ', '#', '('] + (params + ([')'] + ([' ', '('] + (ports + ([')', ';'] + [])))))))) + rest
  {
  }

  lemma LastOfDeclaration(f: Found)
    ensures var h := DeclarationText(f, []); h[|h| - 1] == ';'
  {
  }

  lemma AfterNameFree(params: string, body: string)
    requires CommentFree(params) && (params != [] ==> params[|params| - 1] != '/') && Tame(body)
    ensures CommentFree(AfterModuleName(params, body, []))
    ensures AfterModuleName(params, body, [])[0] == ' '
  {
    JoinFree(body, [')', ';'] + []);
    JoinFree([' ', '('], body + ([')', ';'] + []));
    var ports := [' ', '('] + (body + ([')', ';'] + []));
    if params != [] {
      JoinFree([')'], ports);
      JoinFree(params, [')'] + ports);
      JoinFree([' ', '#', '('], params + ([')'] + ports));
    }
  }

  /** A declaration whose range is not two numerals with a colon between them makes the whole header unreadable,
      wherever it stands. */
  lemma RangeRefused(code: string, found: Found, i: nat)
    requires FindDeclaration(WithoutComments(code), false) == Some(found)
    requires i < |Chunks(found.ports)| && OddRange(Strip(Chunks(found.ports)[i]))
    ensures ParseHeader(code) == NoHeader
  {
    OddIsBad(Strip(Chunks(found.ports)[i]));
    BadRangeRejected(Chunks(found.ports), i, None, 1);
  }

  /** A declaration with a range text of another shape. */
  ghost predicate OddRange(chunk: string) {
    && chunk != [] && AnsiAt(chunk).Some?
    && var range := Strip(AnsiAt(chunk).value.range); range != [] && forall r :: GoodRange(r) ==> range != RangeString(r)
  }

  lemma OddIsBad(chunk: string)
    requires OddRange(chunk)
    ensures BadRange(chunk)
  {
    NoWidth(Strip(AnsiAt(chunk).value.range));
  }

  lemma NoWidth(range: string)
    requires forall r :: GoodRange(r) ==> range != RangeString(r)
    ensures RangeWidth(range) == None
  {
    if RangeWidth(range).Some? { var r := RangeShape(range); }
  }

  predicate BadRange(chunk: string) {
    && chunk != [] && AnsiAt(chunk).Some?
    && var range := Strip(AnsiAt(chunk).value.range); range != [] && RangeWidth(range) == None
  }

  lemma BadRangeRejected(chunks: seq<string>, i: nat, d: Option<Direction>, width: nat)
    requires i < |chunks| && BadRange(Strip(chunks[i]))
    ensures ReadChunks(chunks, d, width) == Unparseable
  {
    assert chunks[i..][0] == chunks[i];
    forall e, w ensures ReadChunks(chunks[i..], e, w) == Unparseable { BadRangeFirst(chunks[i..], e, w); }
    RejectedFrom(chunks, i);
  }

  lemma BadRangeFirst(chunks: seq<string>, d: Option<Direction>, width: nat)
    requires chunks != [] && BadRange(Strip(chunks[0]))
    ensures ReadChunks(chunks, d, width) == Unparseable
  {
  }

  // ---------------------------------------------------------------- closed comments in values

  /** The parameters with the block comments in their values removed. */
  function Shown(ps: seq<(string, string)>): seq<(string, string)> {
    if ps == [] then [] else [(ps[0].0, DropBlocks(ps[0].1))] + Shown(ps[1..])
  }

  lemma {:induction false} BlocksThen(v: string, more: string)
    requires CommentFree(DropBlocks(v)) && more != [] && more[0] != '*'
    ensures DropBlocks(v + more) == DropBlocks(v) + DropBlocks(more)
    decreases |v|
  {
    PairAt(v, '/', '*');
    PairAt(v + more, '/', '*');
    if v == [] {
      assert v + more == more;
    } else if BlockAt(v) {
      assert (v + more)[2..] == v[2..] + more;
      CloseThen(v[2..], more);
      BlocksThen(AfterClose(v[2..]).1, more);
    } else {
      assert (v + more)[1..] == v[1..] + more;
      FreeTail(v[0], DropBlocks(v[1..]));
      if "/*" <= v { StarStays(v); }
      BlocksThen(v[1..], more);
      Assoc([v[0]], DropBlocks(v[1..]), DropBlocks(more));
    }
  }

  lemma FreeTail(c: char, s: string)
    requires CommentFree([c] + s)
    ensures CommentFree(s) && (c == '/' ==> s == [] || s[0] != '*')
  {
    var t := [c] + s;
    forall i | 0 <= i && i + 1 < |s| && s[i] == '/' ensures s[i + 1] != '/' && s[i + 1] != '*' {
      assert t[i + 1] == '/' && t[i + 1 + 1] == s[i + 1];
    }
    assert s != [] ==> t[0] == c && t[0 + 1] == s[0];
  }

  lemma StarStays(v: string)
    requires "/*" <= v
    ensures DropBlocks(v[1..]) != [] && DropBlocks(v[1..])[0] == '*'
  {
    PairAt(v, '/', '*');
    PairAt(v[1..], '/', '*');
  }

  lemma {:induction false} BodyShown(ps: seq<(string, string)>)
    requires ps != [] && NamedParameters(ps) && GoodParameters(Shown(ps))
    ensures DropBlocks(ParameterBody(ps)) == ParameterBody(Shown(ps))
  {
    var more := BodyOfParameters(ps);
    var shown := BodyOfParameters(Shown(ps));
    ShownRest(ps);
    if |ps| == 1 {
      PairAt(['\n'], '/', '*');
    } else {
      BodyShown(ps[1..]);
      BlocksKept([','], ParameterBody(ps[1..]));
    }
    MorePlain(more);
    ValueShown(ps[0].0, ps[0].1, more, shown);
  }

  lemma ShownRest(ps: seq<(string, string)>)
    requires ps != [] && GoodParameters(Shown(ps))
    ensures Shown(ps)[1..] == Shown(ps[1..]) && GoodParameters(Shown(ps[1..]))
    ensures Shown(ps)[0] == (ps[0].0, DropBlocks(ps[0].1)) && PlainValue(DropBlocks(ps[0].1))
    ensures |ps| == 1 <==> |Shown(ps)| == 1
  {
    var rest := Shown(ps[1..]);
    assert Shown(ps)[1..] == rest;
    assert Shown(ps)[0] == (ps[0].0, DropBlocks(ps[0].1));
    forall i | 0 <= i < |rest| ensures IsName(rest[i].0) && PlainValue(rest[i].1) { assert rest[i] == Shown(ps)[i + 1]; }
    assert |ps| == 1 ==> rest == [];
  }

  lemma ValueShown(name: string, v: string, more: string, shown: string)
    requires IsName(name) && CommentFree(DropBlocks(v)) && ValueEnd(more) && more[0] != '*' && shown == DropBlocks(more)
    ensures DropBlocks(['\n', ' ', ' '] + (ParameterText((name, v)) + more)) ==
            ['\n', ' ', ' '] + (ParameterText((name, DropBlocks(v))) + shown)
  {
    ValueJoins(name, v, more);
    ValueJoins(name, DropBlocks(v), shown);
    FrontPlain(name, []);
    assert ValueFront(name) + [] == ValueFront(name);
    BlocksKept(ValueFront(name), v + more);
    BlocksThen(v, more);
  }

  lemma {:induction false} NamesShown(ps: seq<(string, string)>)
    ensures |Shown(ps)| == |ps| && Names(Shown(ps)) == Names(ps)
    ensures NamedParameters(ps) ==> NamedParameters(Shown(ps))
  {
    if ps != [] {
      NamesShown(ps[1..]);
      assert Shown(ps)[1..] == Shown(ps[1..]);
    }
  }

  lemma LeftPlain(ps: seq<(string, string)>)
    requires ps != [] && NamedParameters(ps) && GoodParameters(Shown(ps))
    ensures ParametersLeft(ps) == ParameterBody(Shown(ps)) && NoCall(ParametersLeft(ps))
  {
    var body := ParameterBody(Shown(ps));
    BodyShown(ps);
    NamesShown(ps);
    ParameterBodyPlain(Shown(ps));
    LinesKept(body, []);
    assert body + [] == body;
  }

  /** Values whose comments are closed block comments, and that else open none and no parenthesis right after one is
      closed, are read with the comments removed: each name and after it the names its value declares, so exactly the
      contract's names when no value declares one. */
  lemma ClosedCommentsRead(c: Contract)
    requires GoodContract(c) && GoodParameters(Shown(c.parameters))
    ensures ParseHeader(HeaderTemplate(c)) == Header(c.moduleName, c.ports, NamesAndMore(Shown(c.parameters)))
    ensures ParseHeader(HeaderTemplate(c)) == Header(c.moduleName, c.ports, Names(c.parameters)) <==>
            NothingDeclared(Shown(c.parameters))
  {
    var ps := c.parameters;
    if ps != [] {
      LeftPlain(ps);
      NamesShown(ps);
      ParametersRead(Shown(ps));
    }
    HeaderRoundTrip(c);
    NamesShown(ps);
    MoreThanNames(Shown(ps));
  }

  // ---------------------------------------------------------------- one direction for several names

  predicate NotComma(c: char) { c != ',' }

  /** The text before the first comma. */
  function Head(chunk: string): string { chunk[..Run(NotComma, chunk)] }

  /** A stripped chunk that gives its direction to several names: a direction, then something visible, then a comma. */
  predicate Shares(chunk: string) {
    var d := DirectionAt(chunk);
    && d.Some? && ',' in chunk
    && d.value.1 < |Head(chunk)| && Strip(Head(chunk)[d.value.1..]) != []
  }

  lemma HeadEnds(chunk: string)
    ensures ',' !in Head(chunk)
    ensures ',' in chunk <==> |Head(chunk)| < |chunk|
    ensures |Head(chunk)| < |chunk| ==> chunk[|Head(chunk)|] == ','
  {
    var n := Run(NotComma, chunk);
    RunEnds(NotComma, chunk);
    forall i | 0 <= i < n ensures chunk[i] != ',' { RunAll(NotComma, chunk, i); }
  }

  // Skipping white space and keywords skips no comma.

  lemma SkipKeepsComma(s: string)
    requires ',' in s
    ensures ',' in SkipSpaces(s)
  {
    var i :| 0 <= i < |s| && s[i] == ',';
    if i < Spaces(s) { RunAll(IsSpace, s, i); }
    assert SkipSpaces(s)[i - Spaces(s)] == ',';
  }

  lemma DropKeepsComma(s: string, n: nat)
    requires ',' in s && n <= |s| && forall i :: 0 <= i < n ==> s[i] != ','
    ensures ',' in s[n..]
  {
    var i :| 0 <= i < |s| && s[i] == ',';
    assert s[n..][i - n] == ',';
  }

  lemma KeywordHasNoComma(kw: string, s: string)
    requires NoCase(kw, s) && ',' !in kw
    ensures forall i :: 0 <= i < |kw| ==> s[i] != ','
  {
    forall i | 0 <= i < |kw| ensures s[i] != ',' { assert Lower(s[i]) == kw[i]; assert kw[i] in kw; }
  }

  lemma NetHasNoComma(s: string)
    ensures forall i :: 0 <= i < NetLength(s) ==> s[i] != ','
  {
    if NoCase(['w', 'i', 'r', 'e'], s) { KeywordHasNoComma(['w', 'i', 'r', 'e'], s); }
    else if NoCase(['l', 'o', 'g', 'i', 'c'], s) { KeywordHasNoComma(['l', 'o', 'g', 'i', 'c'], s); }
    else if NoCase(['r', 'e', 'g'], s) { KeywordHasNoComma(['r', 'e', 'g'], s); }
    else if NoCase(['t', 'r', 'i'], s) { KeywordHasNoComma(['t', 'r', 'i'], s); }
  }

  lemma {:induction false} NetsKeepComma(s: string)
    requires ',' in s
    ensures ',' in AfterNets(s)
    decreases |s|
  {
    var n := NetLength(s);
    if 0 < n < |s| && IsSpace(s[n]) && Spaces(s[n..]) > 0 {
      NetHasNoComma(s);
      DropKeepsComma(s, n);
      SkipKeepsComma(s[n..]);
      NetsKeepComma(SkipSpaces(s[n..]));
    }
  }

  lemma SignedKeepsComma(s: string)
    requires ',' in s
    ensures ',' in AfterSigned(s, true)
  {
    if NoCase(SIGNED, s) {
      KeywordHasNoComma(SIGNED, s);
      DropKeepsComma(s, 6);
      SkipKeepsComma(s[6..]);
    }
  }

  lemma DirectionKeepsComma(chunk: string)
    requires ',' in chunk && DirectionAt(chunk).Some?
    ensures ',' in chunk[DirectionAt(chunk).value.1..]
  {
    var d := DirectionAt(chunk).value.0;
    assert NoCase(DirectionText(d), chunk);
    KeywordHasNoComma(DirectionText(d), chunk);
    DropKeepsComma(chunk, |DirectionText(d)|);
  }

  /** If a chunk with a comma matches the pattern at all, the comma is inside the brackets. */
  lemma CommaInRange(chunk: string)
    requires ',' in chunk && AnsiAt(chunk).Some?
    ensures ',' in AnsiAt(chunk).value.range
  {
    var d := DirectionAt(chunk).value;
    DirectionKeepsComma(chunk);
    SkipKeepsComma(chunk[d.1..]);
    var u := SkipSpaces(chunk[d.1..]);
    NetsKeepComma(u);
    SignedKeepsComma(AfterNets(u));
    TailComma(d.0, AfterSigned(AfterNets(u), true));
  }

  lemma TailComma(d: Direction, t: string)
    requires ',' in t && AnsiTail(d, t).Some?
    ensures ',' in AnsiTail(d, t).value.range
  {
    var n := RangeLength(t);
    if ',' !in t[..n] {
      forall i | 0 <= i < n ensures t[i] != ',' { assert t[..n][i] in t[..n]; }
      DropKeepsComma(t, n);
      SkipKeepsComma(t[n..]);
    }
  }

  /** No width is read from a range with a comma in it. */
  lemma WidthHasNoComma(range: string)
    requires RangeWidth(range).Some?
    ensures ',' !in range
  {
    var a := SkipSpaces(range[1..]);
    var b := SkipSpaces(a[Run(Digit, a)..]);
    LowHasNoComma(SkipSpaces(b[1..]));
    SpacesThen(b[1..]);
    HeadThen(b);
    SpacesThen(a[Run(Digit, a)..]);
    DigitsThen(a);
    SpacesThen(range[1..]);
    HeadThen(range);
  }

  lemma LowHasNoComma(c: string)
    requires SkipSpaces(c[Run(Digit, c)..]) == [']']
    ensures ',' !in c
  {
    SpacesThen(c[Run(Digit, c)..]);
    DigitsThen(c);
  }

  lemma SpacesThen(s: string)
    requires ',' !in SkipSpaces(s)
    ensures ',' !in s
  {
    if ',' in s { SkipKeepsComma(s); }
  }

  lemma DigitsThen(s: string)
    requires ',' !in s[Run(Digit, s)..]
    ensures ',' !in s
  {
    if ',' in s {
      forall i | 0 <= i < Run(Digit, s) ensures s[i] != ',' { RunAll(Digit, s, i); }
      DropKeepsComma(s, Run(Digit, s));
    }
  }

  lemma HeadThen(s: string)
    requires s != [] && s[0] != ',' && ',' !in s[1..]
    ensures ',' !in s
  {
    forall i | 0 <= i < |s| ensures s[i] != ',' {
      if i > 0 { assert s[i] == s[1..][i - 1]; }
    }
  }

  lemma {:induction false} LStripKeeps(s: string, c: char)
    requires c in s && !IsSpace(c)
    ensures c in LStrip(s)
  {
    if IsSpace(s[0]) { assert s == [s[0]] + s[1..]; LStripKeeps(s[1..], c); }
  }

  lemma {:induction false} RStripKeeps(s: string, c: char)
    requires c in s && !IsSpace(c)
    ensures c in RStrip(s)
  {
    var n := |s| - 1;
    if IsSpace(s[n]) { assert s == s[..n] + [s[n]]; RStripKeeps(s[..n], c); }
  }

  lemma StripKeeps(s: string, c: char)
    requires c in s && !IsSpace(c)
    ensures c in Strip(s)
  {
    LStripKeeps(s, c);
    RStripKeeps(LStrip(s), c);
  }

  /** Trimming the end keeps everything up to the last visible character. */
  lemma {:induction false} RStripFront(s: string)
    ensures RStrip(s) <= s
    ensures forall i :: |RStrip(s)| <= i < |s| ==> IsSpace(s[i])
  {
    if s != [] && IsSpace(s[|s| - 1]) {
      var t := s[..|s| - 1];
      RStripFront(t);
      assert RStrip(s) == RStrip(t) && t <= s;
      forall i | |RStrip(s)| <= i < |s| ensures IsSpace(s[i]) {
        if i < |t| { assert s[i] == t[i]; }
      }
    }
  }

  lemma {:induction false} StripBlank(s: string)
    requires forall i :: 0 <= i < |s| ==> IsSpace(s[i])
    ensures LStrip(s) == [] && Strip(s) == []
  {
    if s != [] { StripBlank(s[1..]); }
  }

  lemma BlankPast(head: string, n: nat)
    requires |RStrip(head)| <= n <= |head|
    ensures Strip(head[n..]) == []
  {
    RStripFront(head);
    StripBlank(head[n..]);
  }

  /** The first name of a shared chunk taken for a continuation still starts with the direction: it is no name. */
  lemma SharedHeadNoName(chunk: string)
    requires Solid(chunk) && Shares(chunk)
    ensures Strip(Head(chunk)) != [] && ContinuedName(Strip(Head(chunk))) == None
  {
    var head, n := Head(chunk), DirectionAt(chunk).value.1;
    var name := RStrip(head);
    RStripFront(head);
    assert head[0] == chunk[0] && Strip(head) == name;
    if |name| <= n { BlankPast(head, n); }
    assert name == head[..|name|] && name[n] == head[n] == chunk[n] && !Word(chunk[n]);
    DirectionIsNoKeyword(chunk, name);
  }

  lemma DirectionIsNoKeyword(chunk: string, name: string)
    requires DirectionAt(chunk).Some? && chunk != [] && name != [] && name[0] == chunk[0]
    requires exists i :: 0 <= i < |name| && !Word(name[i])
    ensures ContinuedName(name) == None
  {
    var t := DirectionText(DirectionAt(chunk).value.0);
    assert Lower(chunk[0]) == t[0];
    assert NetLength(name) == 0 && AfterSigned(name, true) == name;
  }

  lemma NamesStart(s: string)
    requires Strip(Head(s)) != []
    ensures SplitNames(s) != [] && SplitNames(s)[0] == Strip(Head(s))
  {
    SameRun(c => c != ',', s);
  }

  lemma {:induction false} SameRun(p: char -> bool, s: string)
    requires forall c :: p(c) <==> NotComma(c)
    ensures Run(p, s) == Run(NotComma, s)
  {
    if s != [] { SameRun(p, s[1..]); }
  }

  /** One round on a chunk that shares its direction. */
  lemma SharedRound(chunks: seq<string>, d: Option<Direction>, width: nat)
    requires chunks != [] && Solid(Strip(chunks[0])) && Shares(Strip(chunks[0]))
    ensures ReadChunks(chunks, d, width) == Unparseable
  {
    var chunk := Strip(chunks[0]);
    match AnsiAt(chunk)
    case Some(a) => SharedRange(chunk);
    case None =>
      SharedHeadNoName(chunk);
      NamesStart(chunk);
      if d.Some? { assert Continued(SplitNames(chunk), d.value, width) == Unparseable; }
  }

  lemma SharedRange(chunk: string)
    requires Solid(chunk) && Shares(chunk) && AnsiAt(chunk).Some?
    ensures BadRange(chunk)
  {
    var range := AnsiAt(chunk).value.range;
    CommaInRange(chunk);
    StripKeeps(range, ',');
    if RangeWidth(Strip(range)).Some? { WidthHasNoComma(Strip(range)); }
  }

  lemma StrippedSolid(s: string)
    ensures Strip(s) == [] || Solid(Strip(s))
  {
    LStripHead(s);
    RStripFront(LStrip(s));
    RStripEnds(LStrip(s));
  }

  lemma {:induction false} RStripEnds(s: string)
    ensures RStrip(s) == [] || !IsSpace(RStrip(s)[|RStrip(s)| - 1])
  {
    if s != [] && IsSpace(s[|s| - 1]) { RStripEnds(s[..|s| - 1]); }
  }

  /** A list in which a chunk gives its direction to several names is not read: whatever comes before and after the
      chunk, whatever its net, range and names. */
  lemma SharedDirectionRejected(chunks: seq<string>, i: nat, d: Option<Direction>, width: nat)
    requires i < |chunks| && Shares(Strip(chunks[i]))
    ensures ReadChunks(chunks, d, width) == Unparseable
  {
    assert chunks[i..][0] == chunks[i];
    StrippedSolid(chunks[i]);
    assert !Shares([]);
    forall e, w ensures ReadChunks(chunks[i..], e, w) == Unparseable { SharedRound(chunks[i..], e, w); }
    RejectedFrom(chunks, i);
  }

  ghost predicate Rejected(chunks: seq<string>) { forall e, w :: ReadChunks(chunks, e, w) == Unparseable }

  /** What is rejected stays so with chunks in front of it. */
  lemma {:induction false} RejectedFrom(chunks: seq<string>, i: nat)
    requires i <= |chunks| && Rejected(chunks[i..])
    ensures Rejected(chunks)
  {
    if i == 0 {
      assert chunks[0..] == chunks;
    } else {
      var rest, k := chunks[1..], i - 1;
      assert rest[k..] == chunks[i..];
      RejectedFrom(rest, k);
      forall e, w ensures ReadChunks(chunks, e, w) == Unparseable { RestRejected(chunks, e, w); }
    }
  }

  lemma RestRejected(chunks: seq<string>, d: Option<Direction>, width: nat)
    requires chunks != [] && Rejected(chunks[1..])
    ensures ReadChunks(chunks, d, width) == Unparseable
  {
    if Strip(chunks[0]) != [] {
      match AnsiAt(Strip(chunks[0]))
      case Some(a) => RestAfterAnsi(chunks, d, width, a);
      case None => RestAfterNames(chunks, d, width);
    }
  }

  lemma RestAfterAnsi(chunks: seq<string>, d: Option<Direction>, width: nat, a: Ansi)
    requires chunks != [] && Strip(chunks[0]) != [] && AnsiAt(Strip(chunks[0])) == Some(a)
    requires forall e, w :: ReadChunks(chunks[1..], e, w) == Unparseable
    ensures ReadChunks(chunks, d, width) == Unparseable
  {
    var w := if Strip(a.range) == [] then Some(1) else RangeWidth(Strip(a.range));
    if w.Some? { assert ReadChunks(chunks[1..], Some(a.direction), w.value) == Unparseable; }
  }

  lemma RestAfterNames(chunks: seq<string>, d: Option<Direction>, width: nat)
    requires chunks != [] && Strip(chunks[0]) != [] && AnsiAt(Strip(chunks[0])) == None
    requires forall e, w :: ReadChunks(chunks[1..], e, w) == Unparseable
    ensures ReadChunks(chunks, d, width) == Unparseable
  {
    assert ReadChunks(chunks[1..], d, width) == Unparseable;
  }

  /** What a stripped chunk has before its first comma is, on its own, a declaration. */
  predicate Declares(chunk: string) {
    DirectionAt(chunk).Some? && ReadChunks([Head(chunk)], None, 1).Ports?
  }

  ghost predicate AllDeclare(chunks: seq<string>) {
    forall i :: 0 <= i < |chunks| ==> Strip(chunks[i]) == [] || Declares(Strip(chunks[i]))
  }

  ghost predicate NoCommas(chunks: seq<string>) {
    forall i :: 0 <= i < |chunks| ==> ',' !in Strip(chunks[i])
  }

  /** A declaration followed by a comma shares its direction. */
  lemma DeclaredShares(chunk: string)
    requires Solid(chunk) && Declares(chunk) && ',' in chunk
    ensures Shares(chunk)
  {
    var head, n := Head(chunk), DirectionAt(chunk).value.1;
    DirectionBeforeComma(chunk);
    NothingLeft(head, n);
    if Strip(head[n..]) == [] { BlankHead(chunk, head, n); }
  }

  lemma NothingLeft(head: string, n: nat)
    requires n <= |head|
    ensures Strip(head[n..]) != [] ==> n < |head|
  {
    if n == |head| { assert head[n..] == []; }
  }

  lemma BlankHead(chunk: string, head: string, n: nat)
    requires head <= chunk && DirectionAt(chunk).Some? && n == DirectionAt(chunk).value.1 <= |head|
    requires Strip(head[n..]) == []
    ensures ReadChunks([head], None, 1) == Unparseable
  {
    BlankStrip(head[n..]);
    forall i | n <= i < |head| ensures IsSpace(head[i]) { assert head[n..][i - n] == head[i]; }
    DirectionAlone(chunk, head, n);
  }

  lemma DirectionBeforeComma(chunk: string)
    requires DirectionAt(chunk).Some?
    ensures DirectionAt(chunk).value.1 <= |Head(chunk)|
  {
    var t := DirectionText(DirectionAt(chunk).value.0);
    KeywordHasNoComma(t, chunk);
    HeadEnds(chunk);
  }

  lemma BlankStrip(s: string)
    requires Strip(s) == []
    ensures forall i :: 0 <= i < |s| ==> IsSpace(s[i])
  {
    forall i | 0 <= i < |s| ensures IsSpace(s[i]) {
      if !IsSpace(s[i]) { StripKeeps(s, s[i]); }
    }
  }

  /** A direction with nothing behind it is no declaration. */
  lemma DirectionAlone(chunk: string, head: string, n: nat)
    requires head <= chunk && DirectionAt(chunk).Some? && n == DirectionAt(chunk).value.1 <= |head|
    requires forall i :: n <= i < |head| ==> IsSpace(head[i])
    ensures ReadChunks([head], None, 1) == Unparseable
  {
    var x := head[..n];
    DirectionSolid(chunk, x);
    StripIs([], x, head[n..]);
    assert [] + x + head[n..] == head;
    AloneAnsi(x);
    NoAnsiNoPorts(head);
  }

  lemma NoAnsiNoPorts(head: string)
    requires Strip(head) != [] && AnsiAt(Strip(head)) == None
    ensures ReadChunks([head], None, 1) == Unparseable
  {
    assert [head][0] == head;
  }

  lemma DirectionSolid(chunk: string, x: string)
    requires DirectionAt(chunk).Some? && x <= chunk && |x| == DirectionAt(chunk).value.1
    ensures Solid(x)
    ensures DirectionAt(x).Some? ==> DirectionAt(x).value.1 == |x|
  {
    var d := DirectionAt(chunk).value.0;
    var t := DirectionText(d);
    assert NoCase(t, chunk);
    assert Lower(x[0]) == t[0] && Lower(x[|x| - 1]) == t[|x| - 1];
    if DirectionAt(x).Some? { SameDirection(chunk, x, DirectionAt(x).value.0); }
  }

  lemma SameDirection(chunk: string, x: string, e: Direction)
    requires DirectionAt(chunk).Some? && x <= chunk && NoCase(DirectionText(e), x)
    ensures DirectionAt(chunk).value.0 == e
  {
    var d := DirectionAt(chunk).value.0;
    assert NoCase(DirectionText(d), chunk) && NoCase(DirectionText(e), chunk);
    assert Lower(chunk[0]) == DirectionText(d)[0] == DirectionText(e)[0];
    assert Lower(chunk[2]) == DirectionText(d)[2] == DirectionText(e)[2];
  }

  lemma AloneAnsi(x: string)
    requires DirectionAt(x).Some? ==> DirectionAt(x).value.1 == |x|
    ensures AnsiAt(x) == None
  {
    if DirectionAt(x).Some? {
      var d, n := DirectionAt(x).value.0, DirectionAt(x).value.1;
      assert x[n..] == [];
      NothingThere();
      HeadSteps(x, d, n, [], []);
      NoTail(d);
    }
  }

  lemma NothingThere()
    ensures AfterSigned(AfterNets(SkipSpaces([])), true) == []
  {
    NoSkip([]);
    NoNets([]);
    NoSign([]);
  }

  lemma NoNets(s: string)
    requires s == []
    ensures AfterNets(s) == s
  {
  }

  lemma NoSign(s: string)
    requires s == []
    ensures AfterSigned(s, true) == s
  {
  }

  lemma NoTail(d: Direction)
    ensures AnsiTail(d, []) == None
  {
  }

  /** A chunk without a comma is read as it is read on its own. */
  lemma CommaFreeRound(chunks: seq<string>, d: Option<Direction>, width: nat)
    requires chunks != [] && Solid(Strip(chunks[0])) && Declares(Strip(chunks[0])) && ',' !in Strip(chunks[0])
    requires forall e, w :: ReadChunks(chunks[1..], e, w).Ports?
    ensures ReadChunks(chunks, d, width).Ports?
  {
    var chunk := Strip(chunks[0]);
    HeadEnds(chunk);
    assert Head(chunk) == chunk;
    StripSolid(chunk);
    ReadAlone(chunk);
    ReadFirst(chunks, chunk, d, width);
  }

  /** The pattern matches, its width is readable and its name is one. */
  predicate Readable(chunk: string) {
    AnsiAt(chunk).Some? &&
    var a := AnsiAt(chunk).value;
    (Strip(a.range) == [] || RangeWidth(Strip(a.range)).Some?) && IsName(AfterSigned(Strip(a.name), false))
  }

  lemma ReadAlone(chunk: string)
    requires Strip(chunk) == chunk != [] && ReadChunks([chunk], None, 1).Ports?
    ensures Readable(chunk)
  {
    assert [chunk][0] == chunk;
  }

  lemma ReadFirst(chunks: seq<string>, chunk: string, d: Option<Direction>, width: nat)
    requires chunks != [] && Strip(chunks[0]) == chunk != [] && Readable(chunk)
    requires forall e, w :: ReadChunks(chunks[1..], e, w).Ports?
    ensures ReadChunks(chunks, d, width).Ports?
  {
  }

  lemma {:induction false} CommaFreeRead(chunks: seq<string>, d: Option<Direction>, width: nat)
    requires AllDeclare(chunks) && NoCommas(chunks)
    ensures ReadChunks(chunks, d, width).Ports?
  {
    if chunks != [] {
      forall e, w ensures ReadChunks(chunks[1..], e, w).Ports? { CommaFreeRead(chunks[1..], e, w); }
      StrippedSolid(chunks[0]);
      if Strip(chunks[0]) != [] { CommaFreeRound(chunks, d, width); }
    }
  }

  /** A port list whose chunks start with declarations is read exactly when none of them goes on after a comma. */
  lemma SharedDirectionExactly(chunks: seq<string>, d: Option<Direction>, width: nat)
    requires AllDeclare(chunks)
    ensures ReadChunks(chunks, d, width).Ports? <==> NoCommas(chunks)
  {
    if NoCommas(chunks) {
      CommaFreeRead(chunks, d, width);
    } else {
      var i :| 0 <= i < |chunks| && ',' in Strip(chunks[i]);
      StrippedSolid(chunks[i]);
      DeclaredShares(Strip(chunks[i]));
      SharedDirectionRejected(chunks, i, d, width);
    }
  }
}
