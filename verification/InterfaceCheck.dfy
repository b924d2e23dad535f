/** The interface part of `validate_rtl_against_contract` (src/mind3/core/contracts.py): module name, ports
    and parameters of the returned RTL against the contract. */
module InterfaceCheck {
  import opened Options
  import opened ContractHeader

  datatype Violation =
    | SyntaxError
    | WrongModule
    | MissingPort(name: string)
    | WrongDirection(name: string)
    | WrongWidth(name: string)
    | UnexpectedPort(name: string)
    | MissingParameter(name: string)
    | UnexpectedParameter(name: string)

  /** `{p.name: (p.direction, p.width) for p in ports}`: of two ports with one name the later counts. */
  function PortMap(ports: seq<Port>): map<string, (Direction, nat)> {
    if ports == [] then map[] else
    var p := ports[|ports| - 1];
    PortMap(ports[..|ports| - 1])[p.name := (p.direction, p.width)]
  }

  function Elements(names: seq<string>): set<string> { set n | n in names }

  ghost predicate Violates(c: Contract, h: Header, v: Violation) {
    if h.NoHeader? then v == SyntaxError else
    var expected, actual := PortMap(c.ports), PortMap(h.ports);
    match v
    case SyntaxError => false
    case WrongModule => h.name != c.moduleName
    case MissingPort(n) => n in expected && n !in actual
    case WrongDirection(n) => n in expected && n in actual && actual[n].0 != expected[n].0
    case WrongWidth(n) => n in expected && n in actual && actual[n].1 != expected[n].1
    case UnexpectedPort(n) => n in actual && n !in expected
    case MissingParameter(n) => n in Elements(Names(c.parameters)) && n !in Elements(h.params)
    case UnexpectedParameter(n) => n in Elements(h.params) && n !in Elements(Names(c.parameters))
  }

  method BuildMap(ports: seq<Port>) returns (m: map<string, (Direction, nat)>)
    ensures m == PortMap(ports)
  {
    m := map[];
    for i := 0 to |ports|
      invariant m == PortMap(ports[..i])
    {
      assert ports[..i + 1][..i] == ports[..i];
      m := m[ports[i].name := (ports[i].direction, ports[i].width)];
    }
    assert ports[..|ports|] == ports;
  }

  /** What the loop over the expected ports reports about one of them. */
  ghost predicate PortViolation(expected: map<string, (Direction, nat)>, actual: map<string, (Direction, nat)>, n: string,
                                v: Violation) {
    n in expected &&
    if n !in actual then v == MissingPort(n)
    else (v == WrongDirection(n) && actual[n].0 != expected[n].0) || (v == WrongWidth(n) && actual[n].1 != expected[n].1)
  }

  /** The loop over the expected ports, in some order. */
  method ComparePorts(expected: map<string, (Direction, nat)>, actual: map<string, (Direction, nat)>)
    returns (found: seq<Violation>)
    ensures forall v :: v in found <==> exists n :: PortViolation(expected, actual, n, v)
  {
    found := [];
    var left := expected.Keys;
    while left != {}
      invariant left <= expected.Keys
      invariant forall v :: v in found <==> exists n :: n !in left && PortViolation(expected, actual, n, v)
    {
      var n :| n in left;
      ghost var before := found;
      if n !in actual {
        found := found + [MissingPort(n)];
      } else {
        if actual[n].0 != expected[n].0 { found := found + [WrongDirection(n)]; }
        if actual[n].1 != expected[n].1 { found := found + [WrongWidth(n)]; }
      }
      assert forall v :: v in found <==> v in before || PortViolation(expected, actual, n, v);
      left := left - {n};
    }
  }

  datatype Kind = Unexpected | Missing | Surplus

  function Report(kind: Kind, n: string): Violation {
    match kind
    case Unexpected => UnexpectedPort(n)
    case Missing => MissingParameter(n)
    case Surplus => UnexpectedParameter(n)
  }

  /** One violation for every name of a set, in some order. */
  method ReportAll(kind: Kind, names: set<string>) returns (found: seq<Violation>)
    ensures forall v :: v in found <==> exists n :: n in names && Report(kind, n) == v
  {
    found := [];
    var left := names;
    while left != {}
      invariant left <= names
      invariant forall v :: v in found <==> exists n :: n in names && n !in left && Report(kind, n) == v
    {
      var n :| n in left;
      found := found + [Report(kind, n)];
      left := left - {n};
    }
  }

  /** Exactly the violations there are. */
  method Check(c: Contract, h: Header) returns (found: seq<Violation>)
    ensures forall v :: v in found <==> Violates(c, h, v)
  {
    if h.NoHeader? { return [SyntaxError]; }
    var name := if h.name != c.moduleName then [WrongModule] else [];
    var expected := BuildMap(c.ports);
    var actual := BuildMap(h.ports);
    var ports := ComparePorts(expected, actual);
    var unexpected := ReportAll(Unexpected, actual.Keys - expected.Keys);
    var wanted, given := Elements(Names(c.parameters)), Elements(h.params);
    var missing := ReportAll(Missing, wanted - given);
    var surplus := ReportAll(Surplus, given - wanted);
    found := name + ports + unexpected + missing + surplus;
    forall v ensures v in found <==> Violates(c, h, v) {
      PortCases(expected, actual, v);
      assert v in unexpected <==> v.UnexpectedPort? && v.name in actual.Keys - expected.Keys;
      assert v in missing <==> v.MissingParameter? && v.name in wanted - given;
      assert v in surplus <==> v.UnexpectedParameter? && v.name in given - wanted;
    }
  }

  lemma PortCases(expected: map<string, (Direction, nat)>, actual: map<string, (Direction, nat)>, v: Violation)
    ensures (exists n :: PortViolation(expected, actual, n, v)) <==>
            ((v.MissingPort? || v.WrongDirection? || v.WrongWidth?) && PortViolation(expected, actual, v.name, v))
  {
  }

  /** Same module name, same ports with the same directions and widths, same parameter names. */
  ghost predicate Conforms(c: Contract, h: Header) {
    && h.Header? && h.name == c.moduleName
    && PortMap(h.ports) == PortMap(c.ports)
    && Elements(h.params) == Elements(Names(c.parameters))
  }

  /** There is no violation exactly when the interface is the contract's. */
  lemma CleanExactly(c: Contract, h: Header)
    ensures (forall v :: !Violates(c, h, v)) <==> Conforms(c, h)
  {
    if forall v :: !Violates(c, h, v) {
      assert !Violates(c, h, SyntaxError) && !Violates(c, h, WrongModule);
      var expected, actual := PortMap(c.ports), PortMap(h.ports);
      forall n ensures (n in expected <==> n in actual) && (n in expected ==> expected[n] == actual[n]) {
        assert !Violates(c, h, MissingPort(n)) && !Violates(c, h, UnexpectedPort(n));
        assert !Violates(c, h, WrongDirection(n)) && !Violates(c, h, WrongWidth(n));
      }
      forall n ensures n in Elements(h.params) <==> n in Elements(Names(c.parameters)) {
        assert !Violates(c, h, MissingParameter(n)) && !Violates(c, h, UnexpectedParameter(n));
      }
    }
  }

  /** The names that parameter values declare. */
  function InsideNames(ps: seq<(string, string)>): seq<string> {
    if ps == [] then [] else ParameterNames(ps[0].1, false) + InsideNames(ps[1..])
  }

  lemma {:induction false} NamesOrInside(ps: seq<(string, string)>, n: string)
    ensures n in NamesAndMore(ps) <==> n in Names(ps) || n in InsideNames(ps)
  {
    if ps != [] { NamesOrInside(ps[1..], n); }
  }

  lemma SetsAgree(all: seq<string>, names: seq<string>, inside: seq<string>)
    requires forall n :: n in all <==> n in names || n in inside
    ensures Elements(all) == Elements(names) <==> forall n :: n in inside ==> n in names
  {
    if Elements(all) == Elements(names) {
      forall n | n in inside ensures n in names { assert n in Elements(all); }
    }
  }

  lemma AllNames(ps: seq<(string, string)>)
    ensures Elements(NamesAndMore(ps)) == Elements(Names(ps)) <==> forall n :: n in InsideNames(ps) ==> n in Names(ps)
  {
    forall n ensures n in NamesAndMore(ps) <==> n in Names(ps) || n in InsideNames(ps) { NamesOrInside(ps, n); }
    SetsAgree(NamesAndMore(ps), Names(ps), InsideNames(ps));
  }

  /** The template a contract prints, where it is taken apart as printed, passes its own interface check exactly when
      what comments leave of the parameters declares the contract's names and no others. */
  lemma TemplateConforms(c: Contract)
    requires GoodContract(c) && NoCall(ParametersLeft(c.parameters))
    ensures Conforms(c, ParseHeader(HeaderTemplate(c))) <==>
            Elements(ParameterNames(ParametersLeft(c.parameters), false)) == Elements(Names(c.parameters))
  {
    HeaderRoundTrip(c);
    SameButParameters(c, ParseHeader(HeaderTemplate(c)), ParameterNames(ParametersLeft(c.parameters), false));
  }

  /** With no comments in the values but closed block comments: exactly when the values declare no name that is not a
      parameter already. */
  lemma ClosedCommentsConform(c: Contract)
    requires GoodContract(c) && GoodParameters(Shown(c.parameters))
    ensures Conforms(c, ParseHeader(HeaderTemplate(c))) <==>
            forall n :: n in InsideNames(Shown(c.parameters)) ==> n in Names(c.parameters)
  {
    ClosedCommentsRead(c);
    NamesShown(c.parameters);
    AllNames(Shown(c.parameters));
    SameButParameters(c, ParseHeader(HeaderTemplate(c)), NamesAndMore(Shown(c.parameters)));
  }

  lemma SameButParameters(c: Contract, h: Header, names: seq<string>)
    requires h == Header(c.moduleName, c.ports, names)
    ensures Conforms(c, h) <==> Elements(names) == Elements(Names(c.parameters))
  {
  }
}
