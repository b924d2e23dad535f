/** The recursive-descent parser of the CDC checker (`_Parser` in tools/cdc_checker/parser.py): a cursor over
    the tokens. What is kept of a construct is the tokens of its parts; whether their content is in the
    supported subset (constant ranges, names, drivers) is asked of two predicates. The grammar is given twice: as
    functions that say what is read from a position on, which the parser's methods are proved to compute, and as
    the printed form of a construct with conditions on its parts, which is proved to be what they read. */
module CdcParser {
  import opened Options
  import opened Chars
  import Lexer = CdcLexer

  type Token = string

  const OPEN: Token := ['(']
  const CLOSE: Token := [')']
  const SEMI: Token := [';']
  const COMMA: Token := [',']
  const DOT: Token := ['.']
  const HASH: Token := ['#']
  const AT: Token := ['@']
  const STAR: Token := ['*']
  const EQUALS: Token := ['=']
  const LBRACKET: Token := ['[']
  const RBRACKET: Token := [']']

  /** The end of the tokens reads as an empty token. */
  const END: Token := []

  // ---------------------------------------------------------------- what is read, and its tokens

  datatype Connection = Connection(formal: Token, actual: seq<Token>, comma: bool)

  datatype EventControl = NoEvent | AnyChange | Sensitivity(signals: seq<Token>)

  datatype Item =
    | Parameter(keyword: Token, body: seq<Token>)
    | Declaration(body: seq<Token>)
    | Assign(lhs: seq<Token>, rhs: seq<Token>)
    | Always(keyword: Token, event: EventControl, body: seq<Token>)
    | Instance(moduleName: Token, parameters: Option<seq<Token>>, name: Token, connections: seq<Connection>)
    | Empty

  datatype Module = Module(name: Token, parameters: Option<seq<Token>>, header: seq<Token>, items: seq<Item>)

  function ConnectionTokens(c: Connection): seq<Token> {
    [DOT, c.formal, OPEN] + (c.actual + [CLOSE]) + if c.comma then [COMMA] else []
  }

  function ConnectionsTokens(cs: seq<Connection>): seq<Token> {
    if cs == [] then [] else ConnectionTokens(cs[0]) + ConnectionsTokens(cs[1..])
  }

  function ParametersTokens(p: Option<seq<Token>>): seq<Token> {
    if p.Some? then [HASH, OPEN] + (p.value + [CLOSE]) else []
  }

  function EventTokens(e: EventControl): seq<Token> {
    match e
    case NoEvent => []
    case AnyChange => [AT, STAR]
    case Sensitivity(signals) => [AT, OPEN] + (signals + [CLOSE])
  }

  function ItemTokens(item: Item): seq<Token> {
    match item
    case Parameter(keyword, body) => [keyword] + (body + [SEMI])
    case Declaration(body) => body + [SEMI]
    case Assign(lhs, rhs) => ["assign"] + ((lhs + [EQUALS]) + (rhs + [SEMI]))
    case Always(keyword, event, body) => [keyword] + (EventTokens(event) + body)
    case Instance(moduleName, parameters, name, connections) =>
      HeadTokens(moduleName, parameters, name) + (ConnectionsTokens(connections) + [CLOSE, SEMI])
    case Empty => [SEMI]
  }

  function HeadTokens(moduleName: Token, parameters: Option<seq<Token>>, name: Token): seq<Token> {
    [moduleName] + (ParametersTokens(parameters) + [name, OPEN])
  }

  function ItemsTokens(items: seq<Item>): seq<Token> {
    if items == [] then [] else ItemTokens(items[0]) + ItemsTokens(items[1..])
  }

  function ModuleTokens(m: Module): seq<Token> {
    ["module", m.name] + (ParametersTokens(m.parameters) + (([OPEN] + (m.header + [CLOSE])) + ([SEMI] +
      (ItemsTokens(m.items) + ["endmodule"]))))
  }

  /** A file: modules, and semicolons between them. */
  datatype Unit = Stray | Unit(m: Module)

  function UnitTokens(u: Unit): seq<Token> { if u.Stray? then [SEMI] else ModuleTokens(u.m) }

  function UnitsTokens(us: seq<Unit>): seq<Token> {
    if us == [] then [] else UnitTokens(us[0]) + UnitsTokens(us[1..])
  }

  // ---------------------------------------------------------------- scanning to the end of a part

  /** What a scan that carries a depth does at a token: stop after it, or go on with a new depth. */
  type Step = (int, Token) -> Option<int>

  /** The position after the token that stops the scan from `i` on. */
  function Scan(step: Step, toks: seq<Token>, i: nat, depth: int): (r: Option<nat>)
    ensures r.Some? ==> i < r.value <= |toks|
    decreases |toks| - i
  {
    if i >= |toks| then None else
    match step(depth, toks[i])
    case None => Some(i + 1)
    case Some(d) => Scan(step, toks, i + 1, d)
  }

  /** The first `stop`. */
  function Only(stop: Token): Step { (d, t) => if t == stop then None else Some(d) }

  /** The parenthesis that closes `depth` open ones. */
  function Parens(d: int, t: Token): Option<int> {
    if t == OPEN then Some(d + 1) else if t != CLOSE then Some(d) else if d == 1 then None else Some(d - 1)
  }

  /** The closing parenthesis outside nested parentheses and brackets, which are counted together. */
  function Nested(d: int, t: Token): Option<int> {
    if t == OPEN || t == LBRACKET then Some(d + 1)
    else if t == CLOSE && d == 0 then None
    else if t == CLOSE || t == RBRACKET then Some(d - 1) else Some(d)
  }

  /** The `end` of `depth` open blocks. */
  function Blocks(d: int, t: Token): Option<int> {
    if t == "begin" then Some(d + 1) else if t != "end" then Some(d) else if d == 1 then None else Some(d - 1)
  }

  /** The semicolon outside parentheses and brackets. */
  function Simple(d: int, t: Token): Option<int> {
    if t == OPEN || t == LBRACKET then Some(d + 1)
    else if t == CLOSE || t == RBRACKET then Some(d - 1)
    else if t == SEMI && d <= 0 then None else Some(d)
  }

  /** The tokens from `i` up to `j` are `ts`. */
  ghost predicate Spells(toks: seq<Token>, i: nat, j: nat, ts: seq<Token>) { i <= j <= |toks| && toks[i..j] == ts }

  lemma SpellsJoin(toks: seq<Token>, i: nat, k: nat, j: nat, a: seq<Token>, b: seq<Token>)
    requires Spells(toks, i, k, a) && Spells(toks, k, j, b)
    ensures Spells(toks, i, j, a + b)
  {
  }

  lemma SpellsSplit(toks: seq<Token>, i: nat, j: nat, a: seq<Token>, b: seq<Token>) returns (k: nat)
    requires Spells(toks, i, j, a + b)
    ensures k == i + |a| && Spells(toks, i, k, a) && Spells(toks, k, j, b)
  {
    k := i + |a|;
    assert toks[i..k] == toks[i..j][..|a|] && toks[k..j] == toks[i..j][|a|..];
  }

  lemma SpellsOne(toks: seq<Token>, i: nat, t: Token)
    ensures Spells(toks, i, i + 1, [t]) <==> i < |toks| && toks[i] == t
  {
    if i < |toks| { assert toks[i..i + 1] == [toks[i]]; }
  }

  lemma SpellsTwo(toks: seq<Token>, i: nat, t: Token, u: Token)
    ensures Spells(toks, i, i + 2, [t, u]) <==> i + 1 < |toks| && toks[i] == t && toks[i + 1] == u
  {
    if i + 1 < |toks| { assert toks[i..i + 2] == [toks[i], toks[i + 1]]; }
  }

  /** Where a scan stops depends on nothing after that. */
  lemma {:induction false} ScanLocal(step: Step, toks: seq<Token>, i: nat, d: int, part: seq<Token>, n: nat, j: nat)
    requires n <= |part| && Spells(toks, i, j, part[n..])
    ensures Scan(step, toks, i, d) == Some(j) <==> Scan(step, part, n, d) == Some(|part|)
    decreases |part| - n
  {
    if n == |part| {
      ScanAdvances(step, toks, i, d);
    } else {
      assert toks[i] == toks[i..j][0] == part[n];
      assert toks[i + 1..j] == toks[i..j][1..] && part[n + 1..] == part[n..][1..];
      match step(d, toks[i])
      case None =>
      case Some(e) => ScanLocal(step, toks, i + 1, e, part, n + 1, j);
    }
  }

  lemma ScanAdvances(step: Step, toks: seq<Token>, i: nat, d: int)
    ensures Scan(step, toks, i, d) != Some(i)
  {
  }

  ghost predicate StopsOnlyAt(step: Step, last: Token) { forall d, t :: step(d, t) == None ==> t == last }

  lemma {:induction false} ScanLast(step: Step, toks: seq<Token>, i: nat, d: int, last: Token)
    requires StopsOnlyAt(step, last) && Scan(step, toks, i, d).Some?
    ensures toks[Scan(step, toks, i, d).value - 1] == last
    decreases |toks| - i
  {
    match step(d, toks[i])
    case None =>
    case Some(e) => ScanLast(step, toks, i + 1, e, last);
  }

  /** What was read, and where the reading goes on. */
  datatype Reading<+T> = Got(value: T, next: nat) | Failed

  /** The tokens before the one that stops the scan. */
  function Until(step: Step, d: int, toks: seq<Token>, i: nat): (r: Reading<seq<Token>>)
    ensures r.Got? ==> i < r.next <= |toks|
  {
    match Scan(step, toks, i, d)
    case None => Failed
    case Some(j) => Got(toks[i..j - 1], j)
  }

  /** The scan of `body` and `last` stops there and not before. */
  ghost predicate Ended(step: Step, d: int, body: seq<Token>, last: Token) {
    Scan(step, body + [last], 0, d) == Some(|body| + 1)
  }

  lemma UntilExactly(step: Step, d: int, last: Token, toks: seq<Token>, i: nat, body: seq<Token>, j: nat)
    requires StopsOnlyAt(step, last)
    ensures Until(step, d, toks, i) == Got(body, j) <==> Spells(toks, i, j, body + [last]) && Ended(step, d, body, last)
  {
    var part := body + [last];
    assert part[0..] == part;
    if Until(step, d, toks, i) == Got(body, j) {
      ScanLast(step, toks, i, d, last);
      assert toks[i..j] == toks[i..j - 1] + [toks[j - 1]];
      ScanLocal(step, toks, i, d, part, 0, j);
    }
    if Spells(toks, i, j, part) && Ended(step, d, body, last) {
      ScanLocal(step, toks, i, d, part, 0, j);
      assert toks[i..j - 1] == toks[i..j][..|body|];
    }
  }

  // ---------------------------------------------------------------- what is read from a position on

  predicate TokenAt(toks: seq<Token>, i: nat, t: Token) { i < |toks| && toks[i] == t }

  function ConnectionAt(toks: seq<Token>, i: nat): (r: Reading<Connection>)
    ensures r.Got? ==> i < r.next <= |toks|
  {
    if !TokenAt(toks, i, DOT) || !TokenAt(toks, i + 2, OPEN) then Failed else
    match Until(Parens, 1, toks, i + 3)
    case Failed => Failed
    case Got(actual, j) =>
      if TokenAt(toks, j, COMMA) then Got(Connection(toks[i + 1], actual, true), j + 1)
      else Got(Connection(toks[i + 1], actual, false), j)
  }

  /** Connections up to a closing parenthesis or the end. */
  function ConnectionsAt(toks: seq<Token>, i: nat, before: seq<Connection>): (r: Reading<seq<Connection>>)
    requires i <= |toks|
    ensures r.Got? ==> i <= r.next <= |toks|
    decreases |toks| - i
  {
    if i == |toks| || toks[i] == CLOSE then Got(before, i) else
    match ConnectionAt(toks, i)
    case Failed => Failed
    case Got(c, j) => ConnectionsAt(toks, j, before + [c])
  }

  /** `#( ... )` if it is there. */
  function ParametersAt(step: Step, d: int, toks: seq<Token>, i: nat): (r: Reading<Option<seq<Token>>>)
    requires i <= |toks|
    ensures r.Got? ==> i <= r.next <= |toks|
  {
    if !TokenAt(toks, i, HASH) then Got(None, i)
    else if !TokenAt(toks, i + 1, OPEN) then Failed else
    match Until(step, d, toks, i + 2)
    case Failed => Failed
    case Got(body, j) => Got(Some(body), j)
  }

  datatype Head = Head(moduleName: Token, parameters: Option<seq<Token>>, name: Token)

  /** A name, perhaps a parameter list that closes, a name, a parenthesis. */
  function HeadAt(toks: seq<Token>, i: nat): (r: Reading<Head>)
    ensures r.Got? ==> i < r.next <= |toks|
  {
    if i >= |toks| || !IsName(toks[i]) then Failed else
    match ParametersAt(Parens, 1, toks, i + 1)
    case Failed => Failed
    case Got(parameters, j) =>
      if j < |toks| && IsName(toks[j]) && TokenAt(toks, j + 1, OPEN)
      then Got(Head(toks[i], parameters, toks[j]), j + 2) else Failed
  }

  function InstanceAt(toks: seq<Token>, i: nat): (r: Reading<Item>)
    ensures r.Got? ==> i < r.next <= |toks|
  {
    match HeadAt(toks, i)
    case Failed => Failed
    case Got(h, k) =>
      match ConnectionsAt(toks, k, [])
      case Failed => Failed
      case Got(cs, j) =>
        if TokenAt(toks, j, CLOSE) && TokenAt(toks, j + 1, SEMI)
        then Got(Instance(h.moduleName, h.parameters, h.name, cs), j + 2) else Failed
  }

  function EventAt(keyword: Token, toks: seq<Token>, i: nat): (r: Reading<EventControl>)
    requires i <= |toks|
    ensures r.Got? ==> i <= r.next <= |toks|
  {
    if !TokenAt(toks, i, AT) then (if keyword == "always_ff" then Failed else Got(NoEvent, i))
    else if TokenAt(toks, i + 1, STAR) then Got(AnyChange, i + 2)
    else if !TokenAt(toks, i + 1, OPEN) then Failed else
    match Until(Parens, 1, toks, i + 2)
    case Failed => Failed
    case Got(signals, j) => Got(Sensitivity(signals), j)
  }

  predicate Unsupported(t: Token) { t == "for" || t == "function" || t == "task" || t == "generate" }

  /** The position after a statement: a `begin` ... `end` block, or up to a semicolon. */
  function StatementEnd(toks: seq<Token>, i: nat): (r: Option<nat>)
    ensures r.Some? ==> i < r.value <= |toks|
  {
    if i >= |toks| || Unsupported(toks[i]) then None
    else if toks[i] == "begin" then Scan(Blocks, toks, i + 1, 1)
    else Scan(Simple, toks, i, 0)
  }

  function AlwaysAt(toks: seq<Token>, i: nat): (r: Reading<Item>)
    requires i < |toks|
    ensures r.Got? ==> i < r.next <= |toks|
  {
    match EventAt(toks[i], toks, i + 1)
    case Failed => Failed
    case Got(event, k) =>
      match StatementEnd(toks, k)
      case None => Failed
      case Some(j) => Got(Always(toks[i], event, toks[k..j]), j)
  }

  function ParameterAt(toks: seq<Token>, i: nat): (r: Reading<Item>)
    requires i < |toks|
    ensures r.Got? ==> i < r.next <= |toks|
  {
    match Until(Only(SEMI), 0, toks, i + 1)
    case Failed => Failed
    case Got(body, j) => Got(Parameter(toks[i], body), j)
  }

  function DeclarationAt(toks: seq<Token>, i: nat): (r: Reading<Item>)
    ensures r.Got? ==> i < r.next <= |toks|
  {
    match Until(Only(SEMI), 0, toks, i)
    case Failed => Failed
    case Got(body, j) => Got(Declaration(body), j)
  }

  function AssignAt(toks: seq<Token>, i: nat): (r: Reading<Item>)
    ensures r.Got? ==> i < r.next <= |toks|
  {
    match Until(Only(EQUALS), 0, toks, i + 1)
    case Failed => Failed
    case Got(lhs, k) =>
      match Until(Only(SEMI), 0, toks, k)
      case Failed => Failed
      case Got(rhs, j) => Got(Assign(lhs, rhs), j)
  }

  predicate ParameterKeyword(t: Token) { t == "parameter" || t == "localparam" }

  predicate DeclarationKeyword(t: Token) {
    t == "input" || t == "output" || t == "inout" || t == "wire" || t == "reg" || t == "logic" || t == "tri"
  }

  predicate AlwaysKeyword(t: Token) {
    t == "always" || t == "always_ff" || t == "always_comb" || t == "always_latch"
  }

  function ItemAt(toks: seq<Token>, i: nat): (r: Reading<Item>)
    requires i < |toks|
    ensures r.Got? ==> i < r.next <= |toks|
  {
    if ParameterKeyword(toks[i]) then ParameterAt(toks, i)
    else if DeclarationKeyword(toks[i]) then DeclarationAt(toks, i)
    else if toks[i] == "assign" then AssignAt(toks, i)
    else if AlwaysKeyword(toks[i]) then AlwaysAt(toks, i)
    else if HeadAt(toks, i).Got? then InstanceAt(toks, i)
    else if toks[i] == SEMI then Got(Empty, i + 1)
    else Failed
  }

  /** What a module has before its items: the parameter list and the port list. */
  datatype Front = Front(parameters: Option<seq<Token>>, ports: seq<Token>)

  /** What the source checks of the content of a front, and of an item after that front and the items before it. */
  datatype Subset = Subset(front: Front -> bool, item: (Front, seq<Item>, Item) -> bool)

  /** Items up to `endmodule` or the end. */
  function ItemsAt(ok: Subset, front: Front, toks: seq<Token>, i: nat, before: seq<Item>): (r: Reading<seq<Item>>)
    requires i <= |toks|
    ensures r.Got? ==> i <= r.next <= |toks|
    decreases |toks| - i
  {
    if i == |toks| || toks[i] == "endmodule" then Got(before, i) else
    match ItemAt(toks, i)
    case Failed => Failed
    case Got(item, j) => if ok.item(front, before, item) then ItemsAt(ok, front, toks, j, before + [item]) else Failed
  }

  /** The port list, from its opening parenthesis to the semicolon. */
  function PortListAt(toks: seq<Token>, i: nat): (r: Reading<seq<Token>>)
    ensures r.Got? ==> i < r.next <= |toks|
  {
    if !TokenAt(toks, i, OPEN) then Failed else
    match Until(Parens, 1, toks, i + 1)
    case Failed => Failed
    case Got(ports, j) => if TokenAt(toks, j, SEMI) then Got(ports, j + 1) else Failed
  }

  /** Name and optional parameters. */
  function ModuleHeadAt(toks: seq<Token>, i: nat): (r: Reading<(Token, Option<seq<Token>>)>)
    ensures r.Got? ==> i < r.next <= |toks|
  {
    if !TokenAt(toks, i, "module") || i + 1 >= |toks| || !IsName(toks[i + 1]) then Failed else
    match ParametersAt(Nested, 0, toks, i + 2)
    case Failed => Failed
    case Got(parameters, j) => Got((toks[i + 1], parameters), j)
  }

  function ModuleAt(ok: Subset, toks: seq<Token>, i: nat): (r: Reading<Module>)
    ensures r.Got? ==> i < r.next <= |toks|
  {
    match ModuleHeadAt(toks, i)
    case Failed => Failed
    case Got(head, k) =>
      match PortListAt(toks, k)
      case Failed => Failed
      case Got(header, b) =>
        var front := Front(head.1, header);
        if !ok.front(front) then Failed else
        match ItemsAt(ok, front, toks, b, [])
        case Failed => Failed
        case Got(items, j) =>
          if TokenAt(toks, j, "endmodule") then Got(Module(head.0, head.1, header, items), j + 1) else Failed
  }

  /** A stray semicolon, or a module. */
  function UnitAt(ok: Subset, toks: seq<Token>, i: nat): (r: Reading<Unit>)
    ensures r.Got? ==> i < r.next <= |toks|
  {
    if TokenAt(toks, i, SEMI) then Got(Stray, i + 1) else
    match ModuleAt(ok, toks, i)
    case Failed => Failed
    case Got(m, j) => Got(Unit(m), j)
  }

  /** The modules of a file by name. */
  function ModulesOf(units: seq<Unit>): map<Token, Module> {
    if units == [] then map[] else
    var before, last := ModulesOf(units[..|units| - 1]), units[|units| - 1];
    if last.Unit? then before[last.m.name := last.m] else before
  }

  predicate NewName(before: seq<Unit>, u: Unit) { u.Unit? ==> u.m.name !in ModulesOf(before) }

  /** The whole file. */
  function UnitsAt(ok: Subset, toks: seq<Token>, i: nat, before: seq<Unit>): Option<seq<Unit>>
    requires i <= |toks|
    decreases |toks| - i
  {
    if i == |toks| then Some(before) else
    match UnitAt(ok, toks, i)
    case Failed => None
    case Got(u, j) => if NewName(before, u) then UnitsAt(ok, toks, j, before + [u]) else None
  }

  // ---------------------------------------------------------------- what the grammar reads is what is printed

  // The conditions on the parts of a construct under which its printed form is read back.

  ghost predicate GoodBody(body: seq<Token>, last: Token) { last !in body }

  function Count(t: Token, s: seq<Token>): nat { multiset(s)[t] }

  /** How many more parentheses are opened than closed. */
  function Parentheses(s: seq<Token>): int { Count(OPEN, s) - Count(CLOSE, s) }

  /** The same for parentheses and brackets together. */
  function Nesting(s: seq<Token>): int { Count(OPEN, s) + Count(LBRACKET, s) - Count(CLOSE, s) - Count(RBRACKET, s) }

  function BlockDepth(s: seq<Token>): int { Count("begin", s) - Count("end", s) }

  /** As many parentheses closed as opened, and nowhere more. */
  ghost predicate InParens(body: seq<Token>) {
    Parentheses(body) == 0 && forall k :: 0 <= k <= |body| ==> Parentheses(body[..k]) >= 0
  }

  /** As many parentheses and brackets closed as opened, and no parenthesis closed where that holds already. */
  ghost predicate InBrackets(body: seq<Token>) {
    Nesting(body) == 0 && forall k :: 0 <= k < |body| && body[k] == CLOSE ==> Nesting(body[..k]) != 0
  }

  /** From a `begin` to the first place where as many `end`. */
  ghost predicate BlockStatement(body: seq<Token>) {
    && body != [] && body[0] == "begin" && BlockDepth(body) == 0
    && forall k :: 0 < k < |body| ==> BlockDepth(body[..k]) > 0
  }

  /** Up to the first semicolon where no more parentheses and brackets are opened than closed. */
  ghost predicate SimpleStatement(body: seq<Token>) {
    && body != [] && body[0] != "begin" && !Unsupported(body[0])
    && var n := |body| - 1;
       && body[n] == SEMI && Nesting(body[..n]) <= 0
       && forall k :: 0 <= k < n && body[k] == SEMI ==> Nesting(body[..k]) > 0
  }

  ghost predicate GoodStatement(body: seq<Token>) { BlockStatement(body) || SimpleStatement(body) }

  ghost predicate GoodEvent(keyword: Token, event: EventControl, body: seq<Token>) {
    match event
    case NoEvent => keyword != "always_ff" && !TokenAt(body, 0, AT)
    case AnyChange => true
    case Sensitivity(signals) => InParens(signals)
  }

  predicate Reserved(t: Token) { ParameterKeyword(t) || DeclarationKeyword(t) || t == "assign" || AlwaysKeyword(t) }

  ghost predicate GoodParameters(p: Option<seq<Token>>) { p.Some? ==> InParens(p.value) }

  ghost predicate GoodHeaderParameters(p: Option<seq<Token>>) { p.Some? ==> InBrackets(p.value) }

  ghost predicate GoodConnections(cs: seq<Connection>) { forall k :: 0 <= k < |cs| ==> InParens(cs[k].actual) }

  ghost predicate GoodItem(item: Item) {
    match item
    case Parameter(keyword, body) => ParameterKeyword(keyword) && GoodBody(body, SEMI)
    case Declaration(body) => body != [] && DeclarationKeyword(body[0]) && GoodBody(body, SEMI)
    case Assign(lhs, rhs) => GoodBody(lhs, EQUALS) && GoodBody(rhs, SEMI)
    case Always(keyword, event, body) => AlwaysKeyword(keyword) && GoodEvent(keyword, event, body) && GoodStatement(body)
    case Instance(moduleName, parameters, name, connections) =>
      && IsName(moduleName) && !Reserved(moduleName) && IsName(name)
      && GoodParameters(parameters) && GoodConnections(connections)
    case Empty => true
  }

  lemma OnlyStops(stop: Token)
    ensures StopsOnlyAt(Only(stop), stop)
  {
  }

  lemma ParensStop()
    ensures StopsOnlyAt(Parens, CLOSE) && StopsOnlyAt(Nested, CLOSE)
  {
  }

  lemma BodyExactly(last: Token, toks: seq<Token>, i: nat, body: seq<Token>, j: nat)
    ensures Until(Only(last), 0, toks, i) == Got(body, j) <==> Spells(toks, i, j, body + [last]) && GoodBody(body, last)
  {
    OnlyStops(last);
    OnlyFrom(last, body, 0);
    UntilExactly(Only(last), 0, last, toks, i, body, j);
  }

  lemma ParensExactly(toks: seq<Token>, i: nat, body: seq<Token>, j: nat)
    ensures Until(Parens, 1, toks, i) == Got(body, j) <==> Spells(toks, i, j, body + [CLOSE]) && InParens(body)
  {
    ParensStop();
    ParensEnded(body);
    UntilExactly(Parens, 1, CLOSE, toks, i, body, j);
  }

  lemma ClosedAt(toks: seq<Token>, i: nat, j: nat)
    requires i <= j < |toks| && toks[j] == CLOSE
    ensures Until(Parens, 1, toks, i) == Got(toks[i..j], j + 1) <==> InParens(toks[i..j])
  {
    ParensExactly(toks, i, toks[i..j], j + 1);
    assert toks[i..j + 1] == toks[i..j] + [CLOSE];
  }

  // What the scans count.

  lemma Counted(t: Token, s: seq<Token>, k: nat)
    requires k < |s|
    ensures Count(t, s[..k + 1]) == Count(t, s[..k]) + if s[k] == t then 1 else 0
  {
    assert s[..k + 1] == s[..k] + [s[k]];
  }

  lemma ParenthesesStep(s: seq<Token>, k: nat)
    requires k < |s|
    ensures Parentheses(s[..k + 1]) == Parentheses(s[..k]) + if s[k] == OPEN then 1 else if s[k] == CLOSE then -1 else 0
  {
    Counted(OPEN, s, k);
    Counted(CLOSE, s, k);
  }

  lemma NestingStep(s: seq<Token>, k: nat)
    requires k < |s|
    ensures Nesting(s[..k + 1]) == Nesting(s[..k]) +
            if s[k] == OPEN || s[k] == LBRACKET then 1 else if s[k] == CLOSE || s[k] == RBRACKET then -1 else 0
  {
    Counted(OPEN, s, k);
    Counted(LBRACKET, s, k);
    Counted(CLOSE, s, k);
    Counted(RBRACKET, s, k);
  }

  lemma BlockStep(s: seq<Token>, k: nat)
    requires k < |s|
    ensures BlockDepth(s[..k + 1]) == BlockDepth(s[..k]) + if s[k] == "begin" then 1 else if s[k] == "end" then -1 else 0
  {
    Counted("begin", s, k);
    Counted("end", s, k);
  }

  lemma {:induction false} OnlyFrom(last: Token, body: seq<Token>, i: nat)
    requires i <= |body|
    ensures Scan(Only(last), body + [last], i, 0) == Some(|body| + 1) <==> last !in body[i..]
    decreases |body| - i
  {
    if i < |body| {
      OnlyFrom(last, body, i + 1);
      assert body[i..] == [body[i]] + body[i + 1..];
    }
  }

  lemma {:induction false} ParensFrom(body: seq<Token>, i: nat, d: int)
    requires i <= |body| && d == 1 + Parentheses(body[..i]) && d > 0
    ensures Scan(Parens, body + [CLOSE], i, d) == Some(|body| + 1) <==>
            Parentheses(body) == 0 && forall k :: i <= k <= |body| ==> Parentheses(body[..k]) >= 0
    decreases |body| - i
  {
    assert body[..|body|] == body;
    if i < |body| {
      ParenthesesStep(body, i);
      if Parens(d, body[i]).Some? {
        ParensFrom(body, i + 1, Parens(d, body[i]).value);
      } else {
        assert Parentheses(body[..i + 1]) < 0;
      }
    }
  }

  lemma ParensEnded(body: seq<Token>)
    ensures Ended(Parens, 1, body, CLOSE) <==> InParens(body)
  {
    assert body[..0] == [];
    ParensFrom(body, 0, 1);
  }

  /** From `i` on no parenthesis is closed where the nesting is at its start. */
  ghost predicate NestedOn(body: seq<Token>, i: nat) {
    forall k :: i <= k < |body| && body[k] == CLOSE ==> Nesting(body[..k]) != 0
  }

  lemma NestedOnStep(body: seq<Token>, i: nat)
    requires i < |body|
    ensures NestedOn(body, i) <==> (body[i] == CLOSE ==> Nesting(body[..i]) != 0) && NestedOn(body, i + 1)
  {
  }

  lemma {:induction false} NestedFrom(body: seq<Token>, all: seq<Token>, i: nat, d: int)
    requires i <= |body| && d == Nesting(body[..i]) && all == body + [CLOSE]
    ensures Scan(Nested, all, i, d) == Some(|body| + 1) <==> Nesting(body) == 0 && NestedOn(body, i)
    decreases |body| - i
  {
    if i == |body| {
      assert body[..i] == body && all[i] == CLOSE;
    } else {
      assert all[i] == body[i];
      NestedOnStep(body, i);
      if Nested(d, body[i]).Some? {
        NestingStep(body, i);
        NestedFrom(body, all, i + 1, Nested(d, body[i]).value);
        ScanOn(Nested, all, i, d);
      }
    }
  }

  lemma ScanOn(step: Step, toks: seq<Token>, i: nat, d: int)
    requires i < |toks| && step(d, toks[i]).Some?
    ensures Scan(step, toks, i, d) == Scan(step, toks, i + 1, step(d, toks[i]).value)
  {
  }

  lemma NestedEnded(body: seq<Token>)
    ensures Ended(Nested, 0, body, CLOSE) <==> InBrackets(body)
  {
    assert body[..0] == [];
    NestedFrom(body, body + [CLOSE], 0, 0);
  }

  lemma {:induction false} BlocksFrom(body: seq<Token>, i: nat, d: int)
    requires i <= |body| && d == BlockDepth(body[..i]) && d > 0
    ensures Scan(Blocks, body, i, d) == Some(|body|) <==>
            BlockDepth(body) == 0 && forall k :: i <= k < |body| ==> BlockDepth(body[..k]) > 0
    decreases |body| - i
  {
    assert body[..|body|] == body;
    if i < |body| {
      BlockStep(body, i);
      if Blocks(d, body[i]).Some? { BlocksFrom(body, i + 1, Blocks(d, body[i]).value); }
    }
  }

  lemma {:induction false} SimpleFrom(body: seq<Token>, i: nat, d: int)
    requires i < |body| && d == Nesting(body[..i])
    ensures var n := |body| - 1; Scan(Simple, body, i, d) == Some(|body|) <==>
            && body[n] == SEMI && Nesting(body[..n]) <= 0
            && forall k :: i <= k < n && body[k] == SEMI ==> Nesting(body[..k]) > 0
    decreases |body| - i
  {
    NestingStep(body, i);
    if i + 1 < |body| && Simple(d, body[i]).Some? { SimpleFrom(body, i + 1, Simple(d, body[i]).value); }
  }

  lemma StatementEnded(body: seq<Token>)
    ensures StatementEnd(body, 0) == Some(|body|) <==> GoodStatement(body)
  {
    if body != [] {
      assert body[..0] == [];
      BlockStep(body, 0);
      if body[0] == "begin" { BlocksFrom(body, 1, 1); } else { SimpleFrom(body, 0, 0); }
    }
  }

  // ---------------------------------------------------------------- simple items

  lemma ParameterExactly(toks: seq<Token>, i: nat, keyword: Token, body: seq<Token>, j: nat)
    requires i < |toks|
    ensures ParameterAt(toks, i) == Got(Parameter(keyword, body), j) <==>
            Spells(toks, i, j, [keyword] + (body + [SEMI])) && GoodBody(body, SEMI)
  {
    BodyExactly(SEMI, toks, i + 1, body, j);
    SpellsOne(toks, i, keyword);
    if ParameterAt(toks, i) == Got(Parameter(keyword, body), j) {
      SpellsJoin(toks, i, i + 1, j, [keyword], body + [SEMI]);
    }
    if Spells(toks, i, j, [keyword] + (body + [SEMI])) && GoodBody(body, SEMI) {
      var k := SpellsSplit(toks, i, j, [keyword], body + [SEMI]);
    }
  }

  lemma DeclarationExactly(toks: seq<Token>, i: nat, body: seq<Token>, j: nat)
    ensures DeclarationAt(toks, i) == Got(Declaration(body), j) <==> Spells(toks, i, j, body + [SEMI]) && GoodBody(body, SEMI)
  {
    BodyExactly(SEMI, toks, i, body, j);
  }

  lemma AssignExactly(toks: seq<Token>, i: nat, lhs: seq<Token>, rhs: seq<Token>, j: nat)
    requires TokenAt(toks, i, "assign")
    ensures AssignAt(toks, i) == Got(Assign(lhs, rhs), j) <==>
            Spells(toks, i, j, ItemTokens(Assign(lhs, rhs))) && GoodBody(lhs, EQUALS) && GoodBody(rhs, SEMI)
  {
    var a, l, r := ["assign"], lhs + [EQUALS], rhs + [SEMI];
    SpellsOne(toks, i, "assign");
    if AssignAt(toks, i) == Got(Assign(lhs, rhs), j) {
      var k := Until(Only(EQUALS), 0, toks, i + 1).next;
      BodyExactly(EQUALS, toks, i + 1, lhs, k);
      BodyExactly(SEMI, toks, k, rhs, j);
      SpellsJoin(toks, i + 1, k, j, l, r);
      SpellsJoin(toks, i, i + 1, j, a, l + r);
    }
    if Spells(toks, i, j, a + (l + r)) && GoodBody(lhs, EQUALS) && GoodBody(rhs, SEMI) {
      var b := SpellsSplit(toks, i, j, a, l + r);
      var k := SpellsSplit(toks, b, j, l, r);
      BodyExactly(EQUALS, toks, b, lhs, k);
      BodyExactly(SEMI, toks, k, rhs, j);
    }
  }

  // ---------------------------------------------------------------- always blocks

  /** A statement is read exactly where one stands. */
  lemma StatementExactly(toks: seq<Token>, i: nat, body: seq<Token>, j: nat)
    requires Spells(toks, i, j, body)
    ensures StatementEnd(toks, i) == Some(j) <==> GoodStatement(body)
  {
    StatementEnded(body);
    assert body[0..] == body;
    if body != [] {
      assert toks[i] == toks[i..j][0] == body[0];
      assert toks[i + 1..j] == toks[i..j][1..];
      ScanLocal(Blocks, toks, i + 1, 1, body, 1, j);
      ScanLocal(Simple, toks, i, 0, body, 0, j);
    }
  }

  /** An event control, given what follows it. */
  lemma EventExactly(keyword: Token, toks: seq<Token>, i: nat, event: EventControl, j: nat, body: seq<Token>, end: nat)
    requires i <= |toks| && Spells(toks, j, end, body) && body != []
    ensures EventAt(keyword, toks, i) == Got(event, j) <==>
            Spells(toks, i, j, EventTokens(event)) && GoodEvent(keyword, event, body)
  {
    assert toks[j] == toks[j..end][0] == body[0];
    match event
    case NoEvent => assert Spells(toks, i, j, []) <==> i == j;
    case AnyChange => SpellsTwo(toks, i, AT, STAR);
    case Sensitivity(signals) =>
      SpellsTwo(toks, i, AT, OPEN);
      ParensExactly(toks, i + 2, signals, j);
      PrefixedExactly(toks, i, AT, OPEN, signals + [CLOSE], j);
  }

  lemma PrefixedExactly(toks: seq<Token>, i: nat, t: Token, u: Token, rest: seq<Token>, j: nat)
    ensures Spells(toks, i, j, [t, u] + rest) <==>
            i + 1 < |toks| && toks[i] == t && toks[i + 1] == u && Spells(toks, i + 2, j, rest)
  {
    SpellsTwo(toks, i, t, u);
    if Spells(toks, i, j, [t, u] + rest) { var k := SpellsSplit(toks, i, j, [t, u], rest); }
    if i + 1 < |toks| && toks[i] == t && toks[i + 1] == u && Spells(toks, i + 2, j, rest) {
      SpellsJoin(toks, i, i + 2, j, [t, u], rest);
    }
  }

  lemma AlwaysSound(toks: seq<Token>, i: nat)
    requires i < |toks| && AlwaysAt(toks, i).Got?
    ensures var r := AlwaysAt(toks, i); var item := r.value;
      item.Always? && item.keyword == toks[i] && Spells(toks, i, r.next, ItemTokens(item))
      && GoodEvent(item.keyword, item.event, item.body) && GoodStatement(item.body)
  {
    var keyword := toks[i];
    var event, k := EventAt(keyword, toks, i + 1).value, EventAt(keyword, toks, i + 1).next;
    var j := StatementEnd(toks, k).value;
    var body := toks[k..j];
    StatementExactly(toks, k, body, j);
    EventExactly(keyword, toks, i + 1, event, k, body, j);
    SpellsOne(toks, i, keyword);
    SpellsJoin(toks, i + 1, k, j, EventTokens(event), body);
    SpellsJoin(toks, i, i + 1, j, [keyword], EventTokens(event) + body);
  }

  lemma AlwaysComplete(toks: seq<Token>, i: nat, keyword: Token, event: EventControl, body: seq<Token>, j: nat)
    requires Spells(toks, i, j, ItemTokens(Always(keyword, event, body)))
    requires GoodEvent(keyword, event, body) && GoodStatement(body)
    ensures i < |toks| && toks[i] == keyword && AlwaysAt(toks, i) == Got(Always(keyword, event, body), j)
  {
    var b := SpellsSplit(toks, i, j, [keyword], EventTokens(event) + body);
    SpellsOne(toks, i, keyword);
    var k := SpellsSplit(toks, b, j, EventTokens(event), body);
    StatementExactly(toks, k, body, j);
    EventExactly(keyword, toks, b, event, k, body, j);
  }

  // ---------------------------------------------------------------- instances

  function CommaTokens(comma: bool): seq<Token> { if comma then [COMMA] else [] }

  lemma ConnectionForm(c: Connection)
    ensures ConnectionTokens(c) == [DOT, c.formal] + ([OPEN] + ((c.actual + [CLOSE]) + CommaTokens(c.comma)))
  {
  }

  lemma ConnectionSound(toks: seq<Token>, i: nat)
    requires ConnectionAt(toks, i).Got?
    ensures var c, j := ConnectionAt(toks, i).value, ConnectionAt(toks, i).next;
      Spells(toks, i, j, ConnectionTokens(c)) && InParens(c.actual)
  {
    var c, j := ConnectionAt(toks, i).value, ConnectionAt(toks, i).next;
    var k := Until(Parens, 1, toks, i + 3).next;
    ParensExactly(toks, i + 3, c.actual, k);
    SpellsOne(toks, k, COMMA);
    SpellsJoin(toks, i + 3, k, j, c.actual + [CLOSE], CommaTokens(c.comma));
    SpellsOne(toks, i + 2, OPEN);
    SpellsJoin(toks, i + 2, i + 3, j, [OPEN], (c.actual + [CLOSE]) + CommaTokens(c.comma));
    PrefixedExactly(toks, i, DOT, c.formal, [OPEN] + ((c.actual + [CLOSE]) + CommaTokens(c.comma)), j);
    ConnectionForm(c);
  }

  lemma ConnectionComplete(toks: seq<Token>, i: nat, c: Connection, j: nat)
    requires Spells(toks, i, j, ConnectionTokens(c)) && InParens(c.actual) && (!c.comma ==> !TokenAt(toks, j, COMMA))
    ensures TokenAt(toks, i, DOT) && ConnectionAt(toks, i) == Got(c, j)
  {
    ConnectionForm(c);
    PrefixedExactly(toks, i, DOT, c.formal, [OPEN] + ((c.actual + [CLOSE]) + CommaTokens(c.comma)), j);
    var b := SpellsSplit(toks, i + 2, j, [OPEN], (c.actual + [CLOSE]) + CommaTokens(c.comma));
    SpellsOne(toks, i + 2, OPEN);
    var k := SpellsSplit(toks, b, j, c.actual + [CLOSE], CommaTokens(c.comma));
    ParensExactly(toks, i + 3, c.actual, k);
    SpellsOne(toks, k, COMMA);
  }

  predicate ListEnds(toks: seq<Token>, j: nat, stop: Token) { j == |toks| || TokenAt(toks, j, stop) }

  lemma {:induction false} ConnectionsSound(toks: seq<Token>, i: nat, before: seq<Connection>)
    requires i <= |toks| && ConnectionsAt(toks, i, before).Got?
    ensures var all, j := ConnectionsAt(toks, i, before).value, ConnectionsAt(toks, i, before).next;
      && before <= all && Spells(toks, i, j, ConnectionsTokens(all[|before|..])) && GoodConnections(all[|before|..])
      && ListEnds(toks, j, CLOSE)
    decreases |toks| - i
  {
    if !(i == |toks| || toks[i] == CLOSE) {
      var c, k := ConnectionAt(toks, i).value, ConnectionAt(toks, i).next;
      ConnectionSound(toks, i);
      ConnectionsSound(toks, k, before + [c]);
      var all, j := ConnectionsAt(toks, i, before).value, ConnectionsAt(toks, i, before).next;
      var rest := all[|before| + 1..];
      OneMoreFrom(before, c, all);
      SpellsJoin(toks, i, k, j, ConnectionTokens(c), ConnectionsTokens(rest));
    }
  }

  lemma OneMoreFrom<T>(before: seq<T>, x: T, all: seq<T>)
    requires before + [x] <= all
    ensures before <= all && all[|before|..] == [x] + all[|before| + 1..] && all[|before + [x]|..] == all[|before| + 1..]
    ensures all[|before|..][0] == x && all[|before|..][1..] == all[|before| + 1..]
  {
  }

  lemma ConnectionsStep(toks: seq<Token>, i: nat, before: seq<Connection>, c: Connection, k: nat, all: seq<Connection>, j: nat)
    requires TokenAt(toks, i, DOT) && ConnectionAt(toks, i) == Got(c, k) && ConnectionsAt(toks, k, before + [c]) == Got(all, j)
    ensures ConnectionsAt(toks, i, before) == Got(all, j)
  {
  }

  lemma NoCommaNext(toks: seq<Token>, k: nat)
    requires TokenAt(toks, k, DOT) || ListEnds(toks, k, CLOSE)
    ensures !TokenAt(toks, k, COMMA)
  {
  }

  lemma {:induction false} ConnectionsComplete(toks: seq<Token>, i: nat, before: seq<Connection>, cs: seq<Connection>, j: nat)
    requires Spells(toks, i, j, ConnectionsTokens(cs)) && GoodConnections(cs) && ListEnds(toks, j, CLOSE)
    ensures ConnectionsAt(toks, i, before) == Got(before + cs, j)
    ensures cs != [] ==> TokenAt(toks, i, DOT)
    decreases |cs|
  {
    if cs == [] {
      assert before + cs == before;
    } else {
      var c, rest := cs[0], cs[1..];
      var k := SpellsSplit(toks, i, j, ConnectionTokens(c), ConnectionsTokens(rest));
      var more := before + [c];
      ConnectionsComplete(toks, k, more, rest, j);
      NoCommaNext(toks, k);
      ConnectionComplete(toks, i, c, k);
      Snoc(before, cs);
      ConnectionsStep(toks, i, before, c, k, more + rest, j);
    }
  }

  lemma Snoc<T>(before: seq<T>, xs: seq<T>)
    requires xs != []
    ensures before + [xs[0]] + xs[1..] == before + xs
  {
  }

  lemma ParametersExactly(toks: seq<Token>, i: nat, p: Option<seq<Token>>, j: nat)
    requires i <= |toks|
    ensures ParametersAt(Parens, 1, toks, i) == Got(p, j) <==>
            Spells(toks, i, j, ParametersTokens(p)) && GoodParameters(p) && (p.None? ==> !TokenAt(toks, i, HASH))
  {
    match p
    case None => assert Spells(toks, i, j, []) <==> i == j;
    case Some(body) =>
      ParensExactly(toks, i + 2, body, j);
      PrefixedExactly(toks, i, HASH, OPEN, body + [CLOSE], j);
  }

  lemma HeaderParametersExactly(toks: seq<Token>, i: nat, p: Option<seq<Token>>, j: nat)
    requires i <= |toks|
    ensures ParametersAt(Nested, 0, toks, i) == Got(p, j) <==>
            Spells(toks, i, j, ParametersTokens(p)) && GoodHeaderParameters(p) && (p.None? ==> !TokenAt(toks, i, HASH))
  {
    match p
    case None => assert Spells(toks, i, j, []) <==> i == j;
    case Some(body) =>
      ParensStop();
      NestedEnded(body);
      UntilExactly(Nested, 0, CLOSE, toks, i + 2, body, j);
      PrefixedExactly(toks, i, HASH, OPEN, body + [CLOSE], j);
  }

  lemma HeadSound(toks: seq<Token>, i: nat)
    requires HeadAt(toks, i).Got?
    ensures var h, j := HeadAt(toks, i).value, HeadAt(toks, i).next;
      && Spells(toks, i, j, HeadTokens(h.moduleName, h.parameters, h.name))
      && IsName(h.moduleName) && IsName(h.name) && GoodParameters(h.parameters) && toks[i] == h.moduleName
  {
    var h, j := HeadAt(toks, i).value, HeadAt(toks, i).next;
    var k := ParametersAt(Parens, 1, toks, i + 1).next;
    ParametersExactly(toks, i + 1, h.parameters, k);
    SpellsTwo(toks, k, h.name, OPEN);
    SpellsOne(toks, i, h.moduleName);
    SpellsJoin(toks, i + 1, k, j, ParametersTokens(h.parameters), [h.name, OPEN]);
    SpellsJoin(toks, i, i + 1, j, [h.moduleName], ParametersTokens(h.parameters) + [h.name, OPEN]);
  }

  lemma HeadComplete(toks: seq<Token>, i: nat, h: Head, j: nat)
    requires Spells(toks, i, j, HeadTokens(h.moduleName, h.parameters, h.name))
    requires IsName(h.moduleName) && IsName(h.name) && GoodParameters(h.parameters)
    ensures HeadAt(toks, i) == Got(h, j) && i < |toks| && toks[i] == h.moduleName
  {
    var b := SpellsSplit(toks, i, j, [h.moduleName], ParametersTokens(h.parameters) + [h.name, OPEN]);
    SpellsOne(toks, i, h.moduleName);
    var k := SpellsSplit(toks, b, j, ParametersTokens(h.parameters), [h.name, OPEN]);
    SpellsTwo(toks, k, h.name, OPEN);
    ParametersExactly(toks, b, h.parameters, k);
  }

  lemma InstanceSound(toks: seq<Token>, i: nat)
    requires InstanceAt(toks, i).Got?
    ensures var item, j := InstanceAt(toks, i).value, InstanceAt(toks, i).next;
      && item.Instance? && Spells(toks, i, j, ItemTokens(item)) && toks[i] == item.moduleName
      && IsName(item.moduleName) && IsName(item.name)
      && GoodParameters(item.parameters) && GoodConnections(item.connections)
  {
    var item, j := InstanceAt(toks, i).value, InstanceAt(toks, i).next;
    var k := HeadAt(toks, i).next;
    var e := ConnectionsAt(toks, k, []).next;
    HeadSound(toks, i);
    ConnectionsSound(toks, k, []);
    var cs := item.connections;
    assert cs[0..] == cs;
    SpellsTwo(toks, e, CLOSE, SEMI);
    SpellsJoin(toks, k, e, j, ConnectionsTokens(cs), [CLOSE, SEMI]);
    SpellsJoin(toks, i, k, j, HeadTokens(item.moduleName, item.parameters, item.name), ConnectionsTokens(cs) + [CLOSE, SEMI]);
  }

  lemma InstanceComplete(toks: seq<Token>, i: nat, item: Item, j: nat)
    requires item.Instance? && GoodItem(item) && Spells(toks, i, j, ItemTokens(item))
    ensures HeadAt(toks, i).Got? && InstanceAt(toks, i) == Got(item, j) && i < |toks| && toks[i] == item.moduleName
  {
    var h, cs := Head(item.moduleName, item.parameters, item.name), item.connections;
    var k := SpellsSplit(toks, i, j, HeadTokens(h.moduleName, h.parameters, h.name), ConnectionsTokens(cs) + [CLOSE, SEMI]);
    var e := SpellsSplit(toks, k, j, ConnectionsTokens(cs), [CLOSE, SEMI]);
    HeadComplete(toks, i, h, k);
    SpellsTwo(toks, e, CLOSE, SEMI);
    ConnectionsComplete(toks, k, [], cs, e);
    assert [] + cs == cs;
    InstanceParts(toks, i, h, k, cs, e, j);
  }

  lemma InstanceParts(toks: seq<Token>, i: nat, h: Head, k: nat, cs: seq<Connection>, e: nat, j: nat)
    requires HeadAt(toks, i) == Got(h, k) && ConnectionsAt(toks, k, []) == Got(cs, e)
    requires TokenAt(toks, e, CLOSE) && TokenAt(toks, e + 1, SEMI) && j == e + 2
    ensures InstanceAt(toks, i) == Got(Instance(h.moduleName, h.parameters, h.name, cs), j)
  {
  }

  // ---------------------------------------------------------------- any item

  lemma ItemSound(toks: seq<Token>, i: nat)
    requires i < |toks| && ItemAt(toks, i).Got?
    ensures var item, j := ItemAt(toks, i).value, ItemAt(toks, i).next;
      GoodItem(item) && Spells(toks, i, j, ItemTokens(item))
  {
    var item, j := ItemAt(toks, i).value, ItemAt(toks, i).next;
    if ParameterKeyword(toks[i]) {
      ParameterExactly(toks, i, item.keyword, item.body, j);
    } else if DeclarationKeyword(toks[i]) {
      DeclarationExactly(toks, i, item.body, j);
      DeclaredFirst(toks, i, item.body, j);
    } else if toks[i] == "assign" {
      AssignExactly(toks, i, item.lhs, item.rhs, j);
    } else if AlwaysKeyword(toks[i]) {
      AlwaysSound(toks, i);
    } else if HeadAt(toks, i).Got? {
      InstanceSound(toks, i);
    } else {
      SpellsOne(toks, i, SEMI);
    }
  }

  lemma DeclaredFirst(toks: seq<Token>, i: nat, body: seq<Token>, j: nat)
    requires Spells(toks, i, j, body + [SEMI]) && DeclarationKeyword(toks[i])
    ensures body != [] && body[0] == toks[i]
  {
    assert toks[i] == toks[i..j][0] == (body + [SEMI])[0];
  }

  lemma FirstToken(item: Item)
    requires GoodItem(item)
    ensures ItemTokens(item) != []
  {
  }

  lemma ItemComplete(toks: seq<Token>, i: nat, item: Item, j: nat)
    requires GoodItem(item) && Spells(toks, i, j, ItemTokens(item))
    ensures i < |toks| && ItemAt(toks, i) == Got(item, j)
  {
    FirstToken(item);
    assert toks[i] == toks[i..j][0] == ItemTokens(item)[0];
    match item
    case Parameter(keyword, body) => ParameterExactly(toks, i, keyword, body, j);
    case Declaration(body) => DeclarationExactly(toks, i, body, j);
    case Assign(lhs, rhs) => AssignExactly(toks, i, lhs, rhs, j);
    case Always(keyword, event, body) => AlwaysComplete(toks, i, keyword, event, body, j);
    case Instance(_, _, _, _) => InstanceComplete(toks, i, item, j);
    case Empty => NoHeadAtSemicolon(toks, i, j);
  }

  lemma NoHeadAtSemicolon(toks: seq<Token>, i: nat, j: nat)
    requires Spells(toks, i, j, [SEMI])
    ensures TokenAt(toks, i, SEMI) && j == i + 1 && ItemAt(toks, i) == Got(Empty, j)
  {
    assert toks[i] == toks[i..j][0];
  }

  /** An item is read exactly where its tokens stand, if it is one of the subset. */
  lemma ItemExactly(toks: seq<Token>, i: nat, item: Item, j: nat)
    requires i < |toks|
    ensures ItemAt(toks, i) == Got(item, j) <==> GoodItem(item) && Spells(toks, i, j, ItemTokens(item))
  {
    if ItemAt(toks, i) == Got(item, j) { ItemSound(toks, i); }
    if GoodItem(item) && Spells(toks, i, j, ItemTokens(item)) { ItemComplete(toks, i, item, j); }
  }

  // ---------------------------------------------------------------- bodies, modules, files

  /** Each item is one of the subset, starts with another word than `endmodule`, and its content is approved after
      the items before it. */
  ghost predicate GoodItems(ok: Subset, front: Front, before: seq<Item>, items: seq<Item>)
    decreases |items|
  {
    items == [] ||
    (GoodItem(items[0]) && !TokenAt(ItemTokens(items[0]), 0, "endmodule") && ok.item(front, before, items[0])
     && GoodItems(ok, front, before + [items[0]], items[1..]))
  }

  lemma {:induction false} ItemsSound(ok: Subset, front: Front, toks: seq<Token>, i: nat, before: seq<Item>)
    requires i <= |toks| && ItemsAt(ok, front, toks, i, before).Got?
    ensures var all, j := ItemsAt(ok, front, toks, i, before).value, ItemsAt(ok, front, toks, i, before).next;
      && before <= all && Spells(toks, i, j, ItemsTokens(all[|before|..])) && GoodItems(ok, front, before, all[|before|..])
      && ListEnds(toks, j, "endmodule")
    decreases |toks| - i
  {
    if !(i == |toks| || toks[i] == "endmodule") {
      var item, k := ItemAt(toks, i).value, ItemAt(toks, i).next;
      ItemSound(toks, i);
      ItemsSound(ok, front, toks, k, before + [item]);
      var all, j := ItemsAt(ok, front, toks, i, before).value, ItemsAt(ok, front, toks, i, before).next;
      OneMoreFrom(before, item, all);
      SpellsJoin(toks, i, k, j, ItemTokens(item), ItemsTokens(all[|before| + 1..]));
      SpelledFirst(toks, i, k, ItemTokens(item), "endmodule");
    }
  }

  lemma SpelledFirst(toks: seq<Token>, i: nat, j: nat, ts: seq<Token>, t: Token)
    requires Spells(toks, i, j, ts) && ts != []
    ensures TokenAt(toks, i, t) <==> TokenAt(ts, 0, t)
  {
    assert toks[i] == toks[i..j][0];
  }

  lemma {:induction false} ItemsComplete(ok: Subset, front: Front, toks: seq<Token>, i: nat, before: seq<Item>, items: seq<Item>,
                                         j: nat)
    requires Spells(toks, i, j, ItemsTokens(items)) && GoodItems(ok, front, before, items) && ListEnds(toks, j, "endmodule")
    ensures ItemsAt(ok, front, toks, i, before) == Got(before + items, j)
    decreases |items|
  {
    if items == [] {
      assert before + items == before;
    } else {
      var item, rest := items[0], items[1..];
      var k := SpellsSplit(toks, i, j, ItemTokens(item), ItemsTokens(rest));
      FirstToken(item);
      SpelledFirst(toks, i, k, ItemTokens(item), "endmodule");
      ItemComplete(toks, i, item, k);
      ItemsComplete(ok, front, toks, k, before + [item], rest, j);
      Snoc(before, items);
    }
  }

  ghost predicate GoodModule(ok: Subset, m: Module) {
    && IsName(m.name) && GoodHeaderParameters(m.parameters) && InParens(m.header)
    && var front := Front(m.parameters, m.header); ok.front(front) && GoodItems(ok, front, [], m.items)
  }

  lemma PortListExactly(toks: seq<Token>, i: nat, header: seq<Token>, j: nat)
    ensures PortListAt(toks, i) == Got(header, j) <==>
            Spells(toks, i, j, ([OPEN] + (header + [CLOSE])) + [SEMI]) && InParens(header)
  {
    var inner := header + [CLOSE];
    SpellsOne(toks, i, OPEN);
    if PortListAt(toks, i) == Got(header, j) {
      var k := Until(Parens, 1, toks, i + 1).next;
      ParensExactly(toks, i + 1, header, k);
      SpellsOne(toks, k, SEMI);
      SpellsJoin(toks, i, i + 1, k, [OPEN], inner);
      SpellsJoin(toks, i, k, j, [OPEN] + inner, [SEMI]);
    }
    if Spells(toks, i, j, ([OPEN] + inner) + [SEMI]) && InParens(header) {
      var k := SpellsSplit(toks, i, j, [OPEN] + inner, [SEMI]);
      var b := SpellsSplit(toks, i, k, [OPEN], inner);
      ParensExactly(toks, b, header, k);
      SpellsOne(toks, k, SEMI);
    }
  }

  function ModuleHeadTokens(name: Token, p: Option<seq<Token>>): seq<Token> { ["module", name] + ParametersTokens(p) }

  /** The head of a module, given that no parameter list follows it where it has none. */
  lemma ModuleHeadExactly(toks: seq<Token>, i: nat, name: Token, p: Option<seq<Token>>, j: nat)
    requires !TokenAt(toks, j, HASH)
    ensures ModuleHeadAt(toks, i) == Got((name, p), j) <==>
            Spells(toks, i, j, ModuleHeadTokens(name, p)) && IsName(name) && GoodHeaderParameters(p)
  {
    PrefixedExactly(toks, i, "module", name, ParametersTokens(p), j);
    if i + 2 <= |toks| { HeaderParametersExactly(toks, i + 2, p, j); }
    if p.None? && Spells(toks, i + 2, j, ParametersTokens(p)) { assert j == i + 2; }
  }

  lemma ModuleForm(m: Module)
    ensures ModuleTokens(m) == ModuleHeadTokens(m.name, m.parameters) +
              ((([OPEN] + (m.header + [CLOSE])) + [SEMI]) + (ItemsTokens(m.items) + ["endmodule"]))
  {
    Reassociated(["module", m.name], ParametersTokens(m.parameters), [OPEN] + (m.header + [CLOSE]), [SEMI],
                 ItemsTokens(m.items) + ["endmodule"]);
  }

  lemma Reassociated<T>(a: seq<T>, b: seq<T>, c: seq<T>, d: seq<T>, e: seq<T>)
    ensures a + (b + (c + (d + e))) == (a + b) + ((c + d) + e)
  {
  }

  lemma ModuleSound(ok: Subset, toks: seq<Token>, i: nat)
    requires ModuleAt(ok, toks, i).Got?
    ensures var m, j := ModuleAt(ok, toks, i).value, ModuleAt(ok, toks, i).next;
      GoodModule(ok, m) && Spells(toks, i, j, ModuleTokens(m))
  {
    var m, j := ModuleAt(ok, toks, i).value, ModuleAt(ok, toks, i).next;
    var k := ModuleHeadAt(toks, i).next;
    var b := PortListAt(toks, k).next;
    var front := Front(m.parameters, m.header);
    var e := ItemsAt(ok, front, toks, b, []).next;
    var ports := ([OPEN] + (m.header + [CLOSE])) + [SEMI];
    PortListExactly(toks, k, m.header, b);
    ModuleHeadExactly(toks, i, m.name, m.parameters, k);
    ItemsSound(ok, front, toks, b, []);
    assert m.items[0..] == m.items;
    SpellsOne(toks, e, "endmodule");
    SpellsJoin(toks, b, e, j, ItemsTokens(m.items), ["endmodule"]);
    SpellsJoin(toks, k, b, j, ports, ItemsTokens(m.items) + ["endmodule"]);
    SpellsJoin(toks, i, k, j, ModuleHeadTokens(m.name, m.parameters), ports + (ItemsTokens(m.items) + ["endmodule"]));
    ModuleForm(m);
  }

  lemma ModuleComplete(ok: Subset, toks: seq<Token>, i: nat, m: Module, j: nat)
    requires GoodModule(ok, m) && Spells(toks, i, j, ModuleTokens(m))
    ensures TokenAt(toks, i, "module") && ModuleAt(ok, toks, i) == Got(m, j)
  {
    ModuleForm(m);
    var ports, body := ([OPEN] + (m.header + [CLOSE])) + [SEMI], ItemsTokens(m.items) + ["endmodule"];
    var k := SpellsSplit(toks, i, j, ModuleHeadTokens(m.name, m.parameters), ports + body);
    var b := SpellsSplit(toks, k, j, ports, body);
    var e := SpellsSplit(toks, b, j, ItemsTokens(m.items), ["endmodule"]);
    SpelledFirst(toks, k, b, ports, HASH);
    ModuleHeadExactly(toks, i, m.name, m.parameters, k);
    PortListExactly(toks, k, m.header, b);
    SpellsOne(toks, e, "endmodule");
    ItemsComplete(ok, Front(m.parameters, m.header), toks, b, [], m.items, e);
    assert [] + m.items == m.items;
  }

  /** A module is read exactly where its tokens stand, if its parts are good and approved. */
  lemma ModuleExactly(ok: Subset, toks: seq<Token>, i: nat, m: Module, j: nat)
    ensures ModuleAt(ok, toks, i) == Got(m, j) <==> GoodModule(ok, m) && Spells(toks, i, j, ModuleTokens(m))
  {
    if ModuleAt(ok, toks, i) == Got(m, j) { ModuleSound(ok, toks, i); }
    if GoodModule(ok, m) && Spells(toks, i, j, ModuleTokens(m)) { ModuleComplete(ok, toks, i, m, j); }
  }

  ghost predicate GoodUnit(ok: Subset, u: Unit) { u.Unit? ==> GoodModule(ok, u.m) }

  lemma UnitExactly(ok: Subset, toks: seq<Token>, i: nat, u: Unit, j: nat)
    ensures UnitAt(ok, toks, i) == Got(u, j) <==> GoodUnit(ok, u) && Spells(toks, i, j, UnitTokens(u))
  {
    match u
    case Stray => SpellsOne(toks, i, SEMI);
    case Unit(m) =>
      ModuleExactly(ok, toks, i, m, j);
      if GoodModule(ok, m) && Spells(toks, i, j, ModuleTokens(m)) { ModuleComplete(ok, toks, i, m, j); }
  }

  /** Modules are good, and their names new. */
  ghost predicate GoodUnits(ok: Subset, before: seq<Unit>, us: seq<Unit>)
    decreases |us|
  {
    us == [] || (GoodUnit(ok, us[0]) && NewName(before, us[0]) && GoodUnits(ok, before + [us[0]], us[1..]))
  }

  lemma {:induction false} UnitsSound(ok: Subset, toks: seq<Token>, i: nat, before: seq<Unit>)
    requires i <= |toks| && UnitsAt(ok, toks, i, before).Some?
    ensures var all := UnitsAt(ok, toks, i, before).value;
      before <= all && Spells(toks, i, |toks|, UnitsTokens(all[|before|..])) && GoodUnits(ok, before, all[|before|..])
    decreases |toks| - i
  {
    if i < |toks| {
      var u, k := UnitAt(ok, toks, i).value, UnitAt(ok, toks, i).next;
      UnitExactly(ok, toks, i, u, k);
      UnitsSound(ok, toks, k, before + [u]);
      var all := UnitsAt(ok, toks, i, before).value;
      OneMoreFrom(before, u, all);
      SpellsJoin(toks, i, k, |toks|, UnitTokens(u), UnitsTokens(all[|before| + 1..]));
    }
  }

  lemma {:induction false} UnitsComplete(ok: Subset, toks: seq<Token>, i: nat, before: seq<Unit>, us: seq<Unit>)
    requires Spells(toks, i, |toks|, UnitsTokens(us)) && GoodUnits(ok, before, us)
    ensures UnitsAt(ok, toks, i, before) == Some(before + us)
    decreases |us|
  {
    if us == [] {
      assert before + us == before;
    } else {
      var u, rest := us[0], us[1..];
      var k := SpellsSplit(toks, i, |toks|, UnitTokens(u), UnitsTokens(rest));
      UnitExactly(ok, toks, i, u, k);
      UnitsComplete(ok, toks, k, before + [u], rest);
      Snoc(before, us);
    }
  }

  /** A list of modules and stray semicolons that prints as these tokens and whose parts are good. */
  ghost predicate Derives(ok: Subset, toks: seq<Token>, us: seq<Unit>) { UnitsTokens(us) == toks && GoodUnits(ok, [], us) }

  /** A token list is read as a file exactly when it derives from one, and as that one: there is no other. */
  lemma FileExactly(ok: Subset, toks: seq<Token>, us: seq<Unit>)
    ensures UnitsAt(ok, toks, 0, []) == Some(us) <==> Derives(ok, toks, us)
  {
    assert toks[0..|toks|] == toks;
    if UnitsAt(ok, toks, 0, []) == Some(us) {
      UnitsSound(ok, toks, 0, []);
      assert us[0..] == us;
    }
    if Derives(ok, toks, us) {
      UnitsComplete(ok, toks, 0, [], us);
      assert [] + us == us;
    }
  }

  // ---------------------------------------------------------------- the parser

  class Parser {
    const toks: seq<Token>
    const ok: Subset
    var pos: nat

    /** No token of a source is empty, so the empty token means the end. */
    ghost predicate Valid() {
      forall i :: 0 <= i < |toks| ==> toks[i] != END
    }

    constructor (toks: seq<Token>, ok: Subset)
      requires forall i :: 0 <= i < |toks| ==> toks[i] != END
      ensures Valid() && pos == 0 && this.toks == toks && this.ok == ok
    {
      this.toks, this.ok, pos := toks, ok, 0;
    }

    /** The method has read what the grammar reads, or refused as it does. */
    ghost predicate Reads<T>(out: Option<T>, r: Reading<T>)
      reads this
    {
      match r
      case Failed => out.None?
      case Got(value, next) => out == Some(value) && pos == next
    }

    function Peek(): Token
      reads this
    {
      if pos < |toks| then toks[pos] else END
    }

    method Next() returns (tok: Token)
      modifies this
      ensures tok == old(Peek()) && pos == old(pos) + 1
    {
      tok := Peek();
      pos := pos + 1;
    }

    method Expect(tok: Token) returns (found: bool)
      requires Valid() && tok != END
      modifies this
      ensures pos == old(pos) + 1
      ensures found <==> TokenAt(toks, old(pos), tok)
    {
      var got := Next();
      found := got == tok;
    }

    /** Everything up to, and without, the next `stop` or the end. */
    method CollectTo(stop: Token) returns (out: seq<Token>)
      requires Valid() && pos <= |toks| && stop != END
      modifies this
      ensures old(pos) <= pos <= |toks|
      ensures match Until(Only(stop), 0, toks, old(pos))
        case Failed => pos == |toks|
        case Got(body, next) => out == body && pos + 1 == next && toks[pos] == stop
    {
      out := [];
      while Peek() != stop && Peek() != END
        invariant old(pos) <= pos <= |toks| && toks[old(pos)..pos] == out
        invariant Scan(Only(stop), toks, pos, 0) == Scan(Only(stop), toks, old(pos), 0)
        decreases |toks| - pos
      {
        var tok := Next();
        out := out + [tok];
      }
    }

    /** Everything up to the parenthesis that closes the one just read, which is read too; nothing if the
        source ends first. */
    method CollectClosed() returns (out: Option<seq<Token>>)
      requires Valid() && pos <= |toks|
      modifies this
      ensures Reads(out, Until(Parens, 1, toks, old(pos)))
      ensures out.Some? ==> Spells(toks, old(pos), pos, out.value + [CLOSE]) && InParens(out.value)
      ensures out.None? ==> forall j :: old(pos) <= j < |toks| && toks[j] == CLOSE ==> !InParens(toks[old(pos)..j])
    {
      forall j | pos <= j < |toks| && toks[j] == CLOSE
        ensures Until(Parens, 1, toks, pos) == Got(toks[pos..j], j + 1) <==> InParens(toks[pos..j])
      {
        ClosedAt(toks, pos, j);
      }
      var read := [];
      var depth := 1;
      while true
        invariant old(pos) <= pos <= |toks| && toks[old(pos)..pos] == read && depth > 0
        invariant Scan(Parens, toks, pos, depth) == Scan(Parens, toks, old(pos), 1)
        decreases |toks| - pos
      {
        var tok := Next();
        if tok == END { return None; }
        if tok == OPEN {
          depth := depth + 1;
        } else if tok == CLOSE {
          depth := depth - 1;
          if depth == 0 { return Some(read); }
        }
        read := read + [tok];
      }
    }

    /** The same loop as `_parse_instance` writes it, without a test for the end of the source: it ends because
        the lookahead has found the closing parenthesis. The source drops what it reads here. */
    method SkipClosed() returns (read: seq<Token>)
      requires Valid() && pos <= |toks| && Until(Parens, 1, toks, pos).Got?
      modifies this
      ensures Reads(Some(read), Until(Parens, 1, toks, old(pos)))
    {
      read := [];
      var depth := 1;
      while depth != 0
        invariant old(pos) <= pos <= |toks| && depth >= 0
        invariant depth == 0 ==> old(pos) < pos && Scan(Parens, toks, old(pos), 1) == Some(pos) && toks[old(pos)..pos - 1] == read
        invariant depth != 0 ==> Scan(Parens, toks, pos, depth) == Scan(Parens, toks, old(pos), 1) && toks[old(pos)..pos] == read
        decreases if depth == 0 then 0 else 1 + |toks| - pos
      {
        var tok := Next();
        if tok == OPEN {
          depth := depth + 1;
        } else if tok == CLOSE {
          depth := depth - 1;
        }
        if depth != 0 { read := read + [tok]; }
      }
    }

    /** `_collect_until`: up to, and without, the next closing parenthesis outside nested parentheses and brackets. */
    method CollectUntilClose() returns (out: Option<seq<Token>>)
      requires Valid() && pos <= |toks|
      modifies this
      ensures match Until(Nested, 0, toks, old(pos))
        case Failed => out.None?
        case Got(body, next) => out == Some(body) && pos + 1 == next && TokenAt(toks, pos, CLOSE)
    {
      var read := [];
      var depth := 0;
      while true
        invariant old(pos) <= pos <= |toks| && toks[old(pos)..pos] == read
        invariant Scan(Nested, toks, pos, depth) == Scan(Nested, toks, old(pos), 0)
        decreases |toks| - pos
      {
        var tok := Next();
        if tok == END { return None; }
        if tok == OPEN || tok == LBRACKET {
          depth := depth + 1;
        } else if tok == CLOSE || tok == RBRACKET {
          if tok == CLOSE && depth == 0 {
            pos := pos - 1;
            return Some(read);
          }
          depth := depth - 1;
        }
        read := read + [tok];
      }
    }

    // -------------------------------------------------------------- instances

    /** The lookahead for an instance. */
    method LooksLikeInstance() returns (yes: bool)
      requires Valid()
      ensures yes <==> HeadAt(toks, pos).Got?
    {
      var i := pos;
      if !(i < |toks| && IsName(toks[i])) { return false; }
      i := i + 1;
      if i < |toks| && toks[i] == HASH {
        i := i + 1;
        if i >= |toks| || toks[i] != OPEN { return false; }
        var depth := 0;
        ghost var found := false;
        while i < |toks|
          invariant pos + 2 <= i <= |toks| && (depth == 0 <==> i == pos + 2) && !found
          invariant depth >= 0 && (i > pos + 2 ==> depth > 0 && Scan(Parens, toks, i, depth) == Scan(Parens, toks, pos + 3, 1))
        {
          if toks[i] == OPEN {
            depth := depth + 1;
          } else if toks[i] == CLOSE {
            depth := depth - 1;
            if depth == 0 {
              i := i + 1;
              found := true;
              break;
            }
          }
          i := i + 1;
        }
        assert Scan(Parens, toks, pos + 3, 1) == if found then Some(i) else None;
      }
      if i + 1 >= |toks| { return false; }
      yes := IsName(toks[i]) && toks[i + 1] == OPEN;
    }

    method ParseConnection() returns (c: Option<Connection>)
      requires Valid() && pos < |toks|
      modifies this
      ensures Reads(c, ConnectionAt(toks, old(pos)))
    {
      var dot := Next();
      if dot != DOT { return None; }
      var formal := Next();
      var open := Expect(OPEN);
      if !open { return None; }
      var actual := CollectClosed();
      if actual.None? { return None; }
      if Peek() != COMMA { return Some(Connection(formal, actual.value, false)); }
      var _ := Next();
      return Some(Connection(formal, actual.value, true));
    }

    method ParseConnections() returns (cs: Option<seq<Connection>>)
      requires Valid() && pos <= |toks|
      modifies this
      ensures Reads(cs, ConnectionsAt(toks, old(pos), []))
    {
      var list := [];
      while Peek() != CLOSE && Peek() != END
        invariant pos <= |toks| && ConnectionsAt(toks, pos, list) == ConnectionsAt(toks, old(pos), [])
        decreases |toks| - pos
      {
        var c := ParseConnection();
        if c.None? { return None; }
        list := list + [c.value];
      }
      return Some(list);
    }

    method ParseInstanceHead() returns (h: Head)
      requires Valid() && HeadAt(toks, pos).Got?
      modifies this
      ensures Reads(Some(h), HeadAt(toks, old(pos)))
    {
      var moduleName := Next();
      var parameters := None;
      if Peek() == HASH {
        var _ := Next();
        var _ := Expect(OPEN);
        var read := SkipClosed();
        parameters := Some(read);
      }
      var name := Next();
      var _ := Expect(OPEN);
      h := Head(moduleName, parameters, name);
    }

    method ParseInstance() returns (item: Option<Item>)
      requires Valid() && HeadAt(toks, pos).Got?
      modifies this
      ensures Reads(item, InstanceAt(toks, old(pos)))
    {
      var h := ParseInstanceHead();
      var connections := ParseConnections();
      if connections.None? { return None; }
      var closed := Expect(CLOSE);
      if !closed { return None; }
      var ended := Expect(SEMI);
      if !ended { return None; }
      return Some(Instance(h.moduleName, h.parameters, h.name, connections.value));
    }

    // -------------------------------------------------------------- always blocks

    method ParseEvent(keyword: Token) returns (event: Option<EventControl>)
      requires Valid() && pos <= |toks|
      modifies this
      ensures Reads(event, EventAt(keyword, toks, old(pos)))
    {
      if Peek() == AT {
        var _ := Next();
        if Peek() == STAR {
          var _ := Next();
          return Some(AnyChange);
        }
        var open := Expect(OPEN);
        if !open { return None; }
        var signals := CollectClosed();
        return if signals.Some? then Some(Sensitivity(signals.value)) else None;
      }
      if keyword == "always_ff" { return None; }
      return Some(NoEvent);
    }

    /** A `begin` ... `end` block, or the tokens up to a semicolon outside parentheses and brackets. */
    method CollectStatement() returns (out: Option<seq<Token>>)
      requires Valid() && pos <= |toks|
      modifies this
      ensures match StatementEnd(toks, old(pos))
        case None => out.None?
        case Some(end) => out == Some(toks[old(pos)..end]) && pos == end
      ensures out.Some? ==> Spells(toks, old(pos), pos, out.value) && GoodStatement(out.value)
      ensures out.None? ==> forall j :: old(pos) <= j <= |toks| ==> !GoodStatement(toks[old(pos)..j])
    {
      forall j | pos <= j <= |toks| ensures StatementEnd(toks, pos) == Some(j) <==> GoodStatement(toks[pos..j]) {
        StatementExactly(toks, pos, toks[pos..j], j);
      }
      var tok := Next();
      if Unsupported(tok) || tok == END { return None; }
      if tok == "begin" { out := CollectBlock([tok]); } else { out := CollectSimple(tok); }
    }

    method CollectSimple(first: Token) returns (out: Option<seq<Token>>)
      requires Valid() && 0 < pos <= |toks| && first == toks[pos - 1]
      modifies this
      ensures match Scan(Simple, toks, old(pos) - 1, 0)
        case None => out.None?
        case Some(end) => out == Some(toks[old(pos) - 1..end]) && pos == end
    {
      ghost var from := pos - 1;
      var tok, read, depth := first, [first], 0;
      while true
        invariant tok != END && from < pos <= |toks| && toks[from..pos] == read && tok == toks[pos - 1]
        invariant Scan(Simple, toks, pos - 1, depth) == Scan(Simple, toks, from, 0)
        decreases |toks| - pos
      {
        if tok == OPEN || tok == LBRACKET { depth := depth + 1; }
        else if tok == CLOSE || tok == RBRACKET { depth := depth - 1; }
        if tok == SEMI && depth <= 0 { break; }
        tok := Next();
        if tok == END { return None; }
        read := read + [tok];
      }
      return Some(read);
    }

    method CollectBlock(first: seq<Token>) returns (out: Option<seq<Token>>)
      requires Valid() && 0 < pos <= |toks| && first == [toks[pos - 1]]
      modifies this
      ensures match Scan(Blocks, toks, old(pos), 1)
        case None => out.None?
        case Some(end) => out == Some(toks[old(pos) - 1..end]) && pos == end
    {
      var read := first;
      var depth := 1;
      while depth != 0
        invariant 0 < old(pos) <= pos <= |toks| && toks[old(pos) - 1..pos] == read && depth >= 0
        invariant if depth == 0 then Scan(Blocks, toks, old(pos), 1) == Some(pos)
                  else Scan(Blocks, toks, pos, depth) == Scan(Blocks, toks, old(pos), 1)
        decreases |toks| - pos
      {
        var tok := Next();
        if tok == END { return None; }
        read := read + [tok];
        if tok == "begin" { depth := depth + 1; } else if tok == "end" { depth := depth - 1; }
      }
      return Some(read);
    }

    method ParseAlways() returns (item: Option<Item>)
      requires Valid() && pos < |toks|
      modifies this
      ensures Reads(item, AlwaysAt(toks, old(pos)))
    {
      var keyword := Next();
      var event := ParseEvent(keyword);
      if event.None? { return None; }
      var body := CollectStatement();
      if body.None? { return None; }
      return Some(Always(keyword, event.value, body.value));
    }

    // -------------------------------------------------------------- declarations, assignments, the body

    /** `parameter` or `localparam` up to the semicolon. */
    method ParseParameter() returns (item: Option<Item>)
      requires Valid() && pos < |toks|
      modifies this
      ensures Reads(item, ParameterAt(toks, old(pos)))
    {
      var keyword := Next();
      var body := CollectTo(SEMI);
      var ended := Expect(SEMI);
      return if ended then Some(Parameter(keyword, body)) else None;
    }

    method ParseDeclaration() returns (item: Option<Item>)
      requires Valid() && pos < |toks|
      modifies this
      ensures Reads(item, DeclarationAt(toks, old(pos)))
    {
      var body := CollectTo(SEMI);
      var ended := Expect(SEMI);
      return if ended then Some(Declaration(body)) else None;
    }

    method ParseAssign() returns (item: Option<Item>)
      requires Valid() && pos < |toks|
      modifies this
      ensures Reads(item, AssignAt(toks, old(pos)))
    {
      var keyword := Next();
      var lhs := CollectTo(EQUALS);
      var equals := Expect(EQUALS);
      if !equals { return None; }
      var rhs := CollectTo(SEMI);
      var ended := Expect(SEMI);
      return if ended then Some(Assign(lhs, rhs)) else None;
    }

    method ParseItem() returns (item: Option<Item>)
      requires Valid() && pos < |toks|
      modifies this
      ensures Reads(item, ItemAt(toks, old(pos)))
    {
      var tok := Peek();
      if ParameterKeyword(tok) { item := ParseParameter(); return; }
      if DeclarationKeyword(tok) { item := ParseDeclaration(); return; }
      if tok == "assign" { item := ParseAssign(); return; }
      if AlwaysKeyword(tok) { item := ParseAlways(); return; }
      var instance := LooksLikeInstance();
      if instance { item := ParseInstance(); return; }
      if tok == SEMI {
        var _ := Next();
        return Some(Empty);
      }
      return None;
    }

    method ParseBody(front: Front) returns (items: Option<seq<Item>>)
      requires Valid() && pos <= |toks|
      modifies this
      ensures Reads(items, ItemsAt(ok, front, toks, old(pos), []))
    {
      var list: seq<Item> := [];
      while Peek() != "endmodule" && Peek() != END
        invariant pos <= |toks| && ItemsAt(ok, front, toks, pos, list) == ItemsAt(ok, front, toks, old(pos), [])
        decreases |toks| - pos
      {
        var item := ParseItem();
        if item.None? || !ok.item(front, list, item.value) { return None; }
        list := list + [item.value];
      }
      return Some(list);
    }

    // -------------------------------------------------------------- modules

    /** `#( ... )` of a module header, if it is there. */
    method ParseHeaderParameters() returns (parameters: Option<Option<seq<Token>>>)
      requires Valid() && pos <= |toks|
      modifies this
      ensures Reads(parameters, ParametersAt(Nested, 0, toks, old(pos)))
    {
      if Peek() != HASH { return Some(None); }
      var _ := Next();
      var open := Expect(OPEN);
      if !open { return None; }
      var body := CollectUntilClose();
      if body.None? { return None; }
      var closed := Expect(CLOSE);
      return if closed then Some(body) else None;
    }

    method ParsePortList() returns (header: Option<seq<Token>>)
      requires Valid() && pos <= |toks|
      modifies this
      ensures Reads(header, PortListAt(toks, old(pos)))
    {
      var open := Expect(OPEN);
      if !open { return None; }
      var ports := CollectClosed();
      if ports.None? { return None; }
      var ended := Expect(SEMI);
      return if ended then ports else None;
    }

    method ParseModuleHead() returns (head: Option<(Token, Option<seq<Token>>)>)
      requires Valid() && pos <= |toks|
      modifies this
      ensures Reads(head, ModuleHeadAt(toks, old(pos)))
    {
      var keyword := Next();
      if keyword != "module" { return None; }
      var name := Next();
      if !IsName(name) { return None; }
      var parameters := ParseHeaderParameters();
      return if parameters.Some? then Some((name, parameters.value)) else None;
    }

    method ParseModule() returns (m: Option<Module>)
      requires Valid() && pos <= |toks|
      modifies this
      ensures Reads(m, ModuleAt(ok, toks, old(pos)))
    {
      var head := ParseModuleHead();
      if head.None? { return None; }
      var header := ParsePortList();
      if header.None? { return None; }
      var front := Front(head.value.1, header.value);
      if !ok.front(front) { return None; }
      var items := ParseBody(front);
      if items.None? { return None; }
      var keyword := Next();
      if keyword != "endmodule" { return None; }
      return Some(Module(head.value.0, head.value.1, header.value, items.value));
    }

    /** One round of the loop over the file: a stray semicolon, or a module. */
    method ParseUnit() returns (u: Option<Unit>)
      requires Valid() && pos < |toks|
      modifies this
      ensures Reads(u, UnitAt(ok, toks, old(pos)))
    {
      if Peek() == SEMI {
        var _ := Next();
        return Some(Stray);
      }
      var m := ParseModule();
      return if m.Some? then Some(Unit(m.value)) else None;
    }
  }

  // ---------------------------------------------------------------- a whole file

  /** A reading of the tokens as a file with at least one module. */
  ghost predicate IsFile(ok: Subset, toks: seq<Token>, us: seq<Unit>) { Derives(ok, toks, us) && ModulesOf(us) != map[] }

  /** No token list has two readings. */
  lemma OneReading(ok: Subset, toks: seq<Token>, a: seq<Unit>, b: seq<Unit>)
    requires Derives(ok, toks, a) && Derives(ok, toks, b)
    ensures a == b
  {
    FileExactly(ok, toks, a);
    FileExactly(ok, toks, b);
  }

  /** `parse_modules` on a token list: accepted exactly when it is a file with at least one module; and the result
      then has each module of that file, whose tokens are all there are, under its name. */
  method ParseModules(toks: seq<Token>, ok: Subset) returns (modules: Option<map<Token, Module>>)
    requires forall i :: 0 <= i < |toks| ==> toks[i] != END
    ensures modules.Some? <==> exists us :: IsFile(ok, toks, us)
    ensures forall us :: IsFile(ok, toks, us) ==> modules == Some(ModulesOf(us))
  {
    var parser := new Parser(toks, ok);
    var found: map<Token, Module> := map[];
    ghost var units: seq<Unit> := [];
    while parser.pos < |toks|
      invariant fresh(parser) && parser.Valid() && parser.toks == toks && parser.ok == ok && parser.pos <= |toks|
      invariant UnitsAt(ok, toks, parser.pos, units) == UnitsAt(ok, toks, 0, []) && found == ModulesOf(units)
      decreases |toks| - parser.pos
    {
      var u := parser.ParseUnit();
      if u.None? || (u.value.Unit? && u.value.m.name in found) {
        FilesRead(ok, toks);
        return None;
      }
      MoreModules(units, u.value);
      units := units + [u.value];
      if u.value.Unit? { found := found[u.value.m.name := u.value.m]; }
    }
    FilesRead(ok, toks);
    assert found != map[] ==> IsFile(ok, toks, units);
    modules := if found == map[] then None else Some(found);
  }

  /** What is read is the file, if there is one. */
  lemma FilesRead(ok: Subset, toks: seq<Token>)
    ensures forall us :: Derives(ok, toks, us) <==> UnitsAt(ok, toks, 0, []) == Some(us)
  {
    forall us ensures Derives(ok, toks, us) <==> UnitsAt(ok, toks, 0, []) == Some(us) { FileExactly(ok, toks, us); }
  }

  lemma MoreModules(units: seq<Unit>, u: Unit)
    ensures ModulesOf(units + [u]) == if u.Unit? then ModulesOf(units)[u.m.name := u.m] else ModulesOf(units)
  {
    assert (units + [u])[..|units|] == units;
  }

  /** The whole front end. */
  method ParseSource(text: string, ok: Subset) returns (modules: Option<map<Token, Module>>)
    ensures modules.Some? <==> Lexer.Lex(text).Tokens? && exists us :: IsFile(ok, Lexer.Lex(text).tokens, us)
    ensures Lexer.Lex(text).Tokens? ==>
              forall us :: IsFile(ok, Lexer.Lex(text).tokens, us) ==> modules == Some(ModulesOf(us))
  {
    var lexed := Lexer.Tokenize(text);
    if !lexed.Tokens? { return None; }
    forall i | 0 <= i < |lexed.tokens| ensures lexed.tokens[i] != END { Lexer.LexedTokens(text, i); }
    modules := ParseModules(lexed.tokens, ok);
  }
}
