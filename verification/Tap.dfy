/** The IEEE 1149.1 test access port that `generate_tap_controller` in src/mind3/core/dft.py emits: a case
    table for the next state, and registers clocked on both edges of the test clock. The instruction width is
    a parameter; bit 0 of a register is element 0 of its sequence. */
module Tap {

  datatype TapState =
    | TlReset | RtIdle
    | SelDrScan | CaptureDr | ShiftDr | Exit1Dr | PauseDr | Exit2Dr | UpdateDr
    | SelIrScan | CaptureIr | ShiftIr | Exit1Ir | PauseIr | Exit2Ir | UpdateIr

  /** The pins during one clock; `trst` is true while the reset pin is held active. */
  datatype Pins = Pins(tms: bool, tdi: bool, trst: bool, drTdo: bool, irCapture: seq<bool>)

  /** The registers. The emitted text never assigns the bypass register, so it keeps whatever it held. */
  datatype Regs = Regs(state: TapState, irShift: seq<bool>, irLatch: seq<bool>, tdo: bool, tdoEn: bool, bypass: bool)

  function NextState(s: TapState, tms: bool): TapState {
    match s
    case TlReset => if tms then TlReset else RtIdle
    case RtIdle => if tms then SelDrScan else RtIdle
    case SelDrScan => if tms then SelIrScan else CaptureDr
    case CaptureDr => if tms then Exit1Dr else ShiftDr
    case ShiftDr => if tms then Exit1Dr else ShiftDr
    case Exit1Dr => if tms then UpdateDr else PauseDr
    case PauseDr => if tms then Exit2Dr else PauseDr
    case Exit2Dr => if tms then UpdateDr else ShiftDr
    case UpdateDr => if tms then SelDrScan else RtIdle
    case SelIrScan => if tms then TlReset else CaptureIr
    case CaptureIr => if tms then Exit1Ir else ShiftIr
    case ShiftIr => if tms then Exit1Ir else ShiftIr
    case Exit1Ir => if tms then UpdateIr else PauseIr
    case PauseIr => if tms then Exit2Ir else PauseIr
    case Exit2Ir => if tms then UpdateIr else ShiftIr
    case UpdateIr => if tms then SelDrScan else RtIdle
  }

  function Ones(width: nat): seq<bool> { seq(width, i => true) }

  /** The rising edge: state register and instruction shift register. */
  function Rise(r: Regs, p: Pins): Regs {
    r.(state := if p.trst then TlReset else NextState(r.state, p.tms),
       irShift := if r.state == CaptureIr then p.irCapture
                  else if r.state == ShiftIr && r.irShift != [] then r.irShift[1..] + [p.tdi]
                  else r.irShift)
  }

  /** The falling edge: instruction latch and output steering. */
  function Fall(r: Regs, p: Pins): Regs {
    r.(irLatch := if r.state == TlReset then Ones(|r.irLatch|) else if r.state == UpdateIr then r.irShift else r.irLatch,
       tdo := if r.state == ShiftIr && r.irShift != [] then r.irShift[0]
              else if r.state == ShiftDr then (if r.irLatch == Ones(|r.irLatch|) then r.bypass else p.drTdo)
              else false,
       tdoEn := r.state == ShiftIr || r.state == ShiftDr)
  }

  function Cycle(r: Regs, p: Pins): Regs { Fall(Rise(r, p), p) }

  function Run(r: Regs, ins: seq<Pins>): Regs {
    if ins == [] then r else Cycle(Run(r, ins[..|ins| - 1]), ins[|ins| - 1])
  }

  /** The controller as the clocked object it is. */
  class Controller {
    var state: TapState
    var irShift: seq<bool>
    var irLatch: seq<bool>
    var tdo: bool
    var tdoEn: bool
    var bypass: bool

    ghost function Now(): Regs
      reads this
    {
      Regs(state, irShift, irLatch, tdo, tdoEn, bypass)
    }

    /** Non-blocking assignments: every register is updated from the values before the edge. */
    method PosEdge(p: Pins)
      modifies this`state, this`irShift
      ensures Now() == Rise(old(Now()), p)
    {
      var before := state;
      state := if p.trst then TlReset else NextState(before, p.tms);
      if before == CaptureIr {
        irShift := p.irCapture;
      } else if before == ShiftIr && irShift != [] {
        irShift := irShift[1..] + [p.tdi];
      }
    }

    method NegEdge(p: Pins)
      modifies this`irLatch, this`tdo, this`tdoEn
      ensures Now() == Fall(old(Now()), p)
    {
      var latched := irLatch;
      if state == TlReset { irLatch := Ones(|latched|); } else if state == UpdateIr { irLatch := irShift; }
      if state == ShiftIr && irShift != [] {
        tdo, tdoEn := irShift[0], true;
      } else if state == ShiftDr {
        tdo, tdoEn := if latched == Ones(|latched|) then bypass else p.drTdo, true;
      } else {
        tdo, tdoEn := false, state == ShiftIr;
      }
    }

    method Clock(ins: seq<Pins>)
      modifies this
      ensures Now() == Run(old(Now()), ins)
    {
      for i := 0 to |ins|
        invariant Now() == Run(old(Now()), ins[..i])
      {
        assert ins[..i + 1][..i] == ins[..i];
        PosEdge(ins[i]);
        NegEdge(ins[i]);
      }
      assert ins[..|ins|] == ins;
    }
  }

  // ---------------------------------------------------------------- reset

  ghost predicate AllOnesOnTms(ins: seq<Pins>) {
    forall i :: 0 <= i < |ins| ==> ins[i].tms
  }

  /** How many ones on TMS a state is away from reset. */
  function Distance(s: TapState): nat {
    match s
    case TlReset => 0
    case SelIrScan => 1
    case SelDrScan => 2
    case RtIdle => 3
    case UpdateDr => 3
    case UpdateIr => 3
    case Exit1Dr => 4
    case Exit2Dr => 4
    case Exit1Ir => 4
    case Exit2Ir => 4
    case _ => 5
  }

  lemma Closer(r: Regs, p: Pins)
    requires p.tms
    ensures var d := Distance(r.state); var e := Distance(Cycle(r, p).state);
      if p.trst then e == 0 else e == if d == 0 then 0 else d - 1
  {
  }

  lemma {:induction false} OnesApproach(r: Regs, ins: seq<Pins>)
    requires AllOnesOnTms(ins)
    ensures Distance(Run(r, ins).state) <= if |ins| < Distance(r.state) then Distance(r.state) - |ins| else 0
  {
    if ins != [] {
      var init := ins[..|ins| - 1];
      OnesApproach(r, init);
      Closer(Run(r, init), ins[|ins| - 1]);
    }
  }

  /** From any state, any run that ends in five clocks with TMS high ends in reset with an all-ones latch. */
  lemma FiveOnesReset(r: Regs, ins: seq<Pins>, ones: seq<Pins>)
    requires |ones| == 5 && AllOnesOnTms(ones)
    ensures Run(r, ins + ones).state == TlReset
    ensures Run(r, ins + ones).irLatch == Ones(|Run(r, ins + ones).irLatch|)
  {
    RunSplits(r, ins, ones);
    OnesApproach(Run(r, ins), ones);
    var last := Run(Run(r, ins), ones[..4]);
    assert Run(Run(r, ins), ones) == Cycle(last, ones[4]);
  }

  lemma RunSnoc(r: Regs, ins: seq<Pins>, last: Pins)
    ensures Run(r, ins + [last]) == Cycle(Run(r, ins), last)
  {
    assert (ins + [last])[..|ins|] == ins;
  }

  lemma {:induction false} RunSplits(r: Regs, a: seq<Pins>, b: seq<Pins>)
    ensures Run(r, a + b) == Run(Run(r, a), b)
  {
    if b == [] {
      assert a + b == a;
    } else {
      var init, last := b[..|b| - 1], b[|b| - 1];
      RunSplits(r, a, init);
      SplitLast(a, b, init, last);
      RunSnoc(r, a + init, last);
      RunSnoc(Run(r, a), init, last);
    }
  }

  lemma SplitLast(a: seq<Pins>, b: seq<Pins>, init: seq<Pins>, last: Pins)
    requires b != [] && init == b[..|b| - 1] && last == b[|b| - 1]
    ensures b == init + [last] && a + b == (a + init) + [last]
  {
  }

  /** Four are not enough from every state: exactly the capture, shift and pause states need the fifth. */
  lemma {:induction false} OnesExactly(r: Regs, ins: seq<Pins>)
    requires AllOnesOnTms(ins) && forall i :: 0 <= i < |ins| ==> !ins[i].trst
    ensures Run(r, ins).state == TlReset <==> |ins| >= Distance(r.state)
    ensures Distance(Run(r, ins).state) == if |ins| < Distance(r.state) then Distance(r.state) - |ins| else 0
  {
    if ins != [] {
      var init := ins[..|ins| - 1];
      OnesExactly(r, init);
      Closer(Run(r, init), ins[|ins| - 1]);
    }
  }

  // ---------------------------------------------------------------- the instruction scan

  predicate InScan(s: TapState) { s in {ShiftIr, Exit1Ir, PauseIr, Exit2Ir} }

  /** From CAPTURE_IR the run stays inside the scan column: any mix of shifting and pausing. */
  ghost predicate Scanning(r: Regs, ins: seq<Pins>) {
    && r.state == CaptureIr && ins != [] && InScan(Run(r, ins).state)
    && (|ins| > 1 ==> Scanning(r, ins[..|ins| - 1]))
  }

  /** The bits taken from TDI: one at each rising edge in SHIFT_IR. */
  ghost function Taken(r: Regs, ins: seq<Pins>): seq<bool> {
    if ins == [] then [] else
    var init := ins[..|ins| - 1];
    Taken(r, init) + if Run(r, init).state == ShiftIr then [ins[|ins| - 1].tdi] else []
  }

  /** The bits shown on TDO: one at each falling edge in SHIFT_IR. */
  ghost function Emitted(r: Regs, ins: seq<Pins>): seq<bool> {
    if ins == [] then [] else
    Emitted(r, ins[..|ins| - 1]) + if Run(r, ins).state == ShiftIr then [Run(r, ins).tdo] else []
  }

  /** What the scan moves through the register: the captured value followed by the bits from TDI. */
  ghost function Stream(r: Regs, ins: seq<Pins>): seq<bool>
    requires ins != []
  {
    ins[0].irCapture + Taken(r, ins)
  }

  ghost predicate ScanState(r: Regs, ins: seq<Pins>, width: nat)
    requires ins != [] && width > 0
  {
    var stream, n, now := Stream(r, ins), |Taken(r, ins)|, Run(r, ins);
    && |stream| == width + n
    && now.irShift == stream[n..]
    && now.irLatch == r.irLatch
    && Emitted(r, ins) == stream[..n + if now.state == ShiftIr then 1 else 0]
  }

  /** However the scan is split by pauses: after n bits taken from TDI the register holds bits n to n + width of
      captured value followed by TDI, TDO has shown every bit that left (and shows the next one while
      shifting), and the latch has not moved. */
  lemma {:induction false} IrScan(r: Regs, ins: seq<Pins>, width: nat)
    requires width > 0 && Scanning(r, ins) && |ins[0].irCapture| == width
    ensures ScanState(r, ins, width)
  {
    var init, p := ins[..|ins| - 1], ins[|ins| - 1];
    var now := Run(r, ins);
    if |ins| == 1 {
      FirstInScan(r, ins, p);
    } else {
      IrScan(r, init, width);
      ScanStep(r, ins, width);
    }
  }

  /** The captured value is in the register, and its first bit shows if the scan starts by shifting. */
  lemma FirstInScan(r: Regs, ins: seq<Pins>, p: Pins)
    requires ins == [p] && Scanning(r, ins) && p.irCapture != []
    ensures ScanState(r, ins, |p.irCapture|)
  {
    var init := ins[..0];
    NothingYet(r, init);
    assert Taken(r, ins) == [];
    assert Stream(r, ins) == p.irCapture;
    EmittedStep(r, ins);
  }

  lemma NothingYet(r: Regs, none: seq<Pins>)
    requires none == []
    ensures Run(r, none) == r && Taken(r, none) == [] && Emitted(r, none) == []
  {
  }

  lemma EmittedStep(r: Regs, ins: seq<Pins>)
    requires ins != []
    ensures Emitted(r, ins) == Emitted(r, ins[..|ins| - 1]) + if Run(r, ins).state == ShiftIr then [Run(r, ins).tdo] else []
  {
  }

  lemma ScanStep(r: Regs, ins: seq<Pins>, width: nat)
    requires width > 0 && |ins| > 1 && Scanning(r, ins) && |ins[0].irCapture| == width
    requires ScanState(r, ins[..|ins| - 1], width)
    ensures ScanState(r, ins, width)
  {
    assert InScan(Run(r, ins[..|ins| - 1]).state) && InScan(Run(r, ins).state);
    if Run(r, ins[..|ins| - 1]).state == ShiftIr { ShiftStep(r, ins, width); } else { PauseStep(r, ins, width); }
  }

  lemma ShiftStep(r: Regs, ins: seq<Pins>, width: nat)
    requires width > 0 && |ins| > 1 && Scanning(r, ins) && |ins[0].irCapture| == width
    requires ScanState(r, ins[..|ins| - 1], width) && Run(r, ins[..|ins| - 1]).state == ShiftIr && InScan(Run(r, ins).state)
    ensures ScanState(r, ins, width)
  {
    var init, p := ins[..|ins| - 1], ins[|ins| - 1];
    var now, stream, n := Run(r, ins), Stream(r, init), |Taken(r, init)|;
    ShiftTaken(r, ins);
    EmitStep(r, ins);
    ShiftHolds(stream, n, p.tdi, Run(r, init), now, Emitted(r, init), Emitted(r, ins));
  }

  /** One shift along the stream: what the register holds and what TDO has shown. */
  lemma ShiftHolds(stream: seq<bool>, n: nat, bit: bool, before: Regs, now: Regs, shown: seq<bool>, shown': seq<bool>)
    requires n < |stream| && before.irShift == stream[n..] && now.irShift == before.irShift[1..] + [bit]
    requires shown == stream[..n + 1] && shown' == shown + if now.state == ShiftIr then [now.irShift[0]] else []
    ensures now.irShift == (stream + [bit])[n + 1..]
    ensures shown' == (stream + [bit])[..n + 1 + if now.state == ShiftIr then 1 else 0]
  {
    OneBitOn(stream, n, bit);
  }

  lemma ShiftTaken(r: Regs, ins: seq<Pins>)
    requires |ins| > 1 && Run(r, ins[..|ins| - 1]).state == ShiftIr
    ensures Taken(r, ins) == Taken(r, ins[..|ins| - 1]) + [ins[|ins| - 1].tdi]
    ensures Stream(r, ins) == Stream(r, ins[..|ins| - 1]) + [ins[|ins| - 1].tdi]
  {
  }

  lemma PauseStep(r: Regs, ins: seq<Pins>, width: nat)
    requires width > 0 && |ins| > 1 && Scanning(r, ins) && |ins[0].irCapture| == width
    requires ScanState(r, ins[..|ins| - 1], width) && InScan(Run(r, ins).state)
    requires InScan(Run(r, ins[..|ins| - 1]).state) && Run(r, ins[..|ins| - 1]).state != ShiftIr
    ensures ScanState(r, ins, width)
  {
    var init := ins[..|ins| - 1];
    var now, stream, n := Run(r, ins), Stream(r, init), |Taken(r, init)|;
    PauseTaken(r, ins);
    assert now.irShift == stream[n..];
    EmitStep(r, ins);
    NextShown(stream, n);
    assert Emitted(r, ins) == stream[..n + if now.state == ShiftIr then 1 else 0];
  }

  lemma NextShown(stream: seq<bool>, n: nat)
    requires n < |stream|
    ensures stream[..n + 1] == stream[..n] + [stream[n]] && stream[n..][0] == stream[n]
  {
  }

  lemma PauseTaken(r: Regs, ins: seq<Pins>)
    requires |ins| > 1 && Run(r, ins[..|ins| - 1]).state != ShiftIr
    ensures Taken(r, ins) == Taken(r, ins[..|ins| - 1])
    ensures Stream(r, ins) == Stream(r, ins[..|ins| - 1])
  {
  }

  /** Shifting one bit: what is seen and what is held both move one place along the stream. */
  lemma OneBitOn(stream: seq<bool>, n: nat, bit: bool)
    requires n < |stream|
    ensures stream[n..][1..] + [bit] == (stream + [bit])[n + 1..]
    ensures (stream + [bit])[..n + 1] == stream[..n + 1]
    ensures (stream + [bit])[..n + 2] == stream[..n + 1] + [(stream + [bit])[n + 1]]
  {
  }

  lemma EmitStep(r: Regs, ins: seq<Pins>)
    requires |ins| > 1 && Scanning(r, ins) && Run(r, ins).irShift != []
    ensures Emitted(r, ins) ==
            Emitted(r, ins[..|ins| - 1]) + if Run(r, ins).state == ShiftIr then [Run(r, ins).irShift[0]] else []
  {
  }

  /** Leaving the scan for UPDATE_IR latches what the register holds: after exactly `width` bits the new
      instruction is the TDI bits in order, and the bits shown on TDO are the captured value. */
  lemma UpdateLatches(r: Regs, ins: seq<Pins>, last: Pins, width: nat)
    requires width > 0 && Scanning(r, ins) && |ins[0].irCapture| == width
    requires Run(r, ins + [last]).state == UpdateIr
    ensures var n := |Taken(r, ins)|;
      && Run(r, ins + [last]).irLatch == Stream(r, ins)[n..]
      && Emitted(r, ins) == Stream(r, ins)[..n]
      && (n == width ==> Run(r, ins + [last]).irLatch == Taken(r, ins) && Emitted(r, ins) == ins[0].irCapture)
  {
    IrScan(r, ins, width);
    RunSnoc(r, ins, last);
    Latched(Run(r, ins), last);
    StreamParts(ins[0].irCapture, Taken(r, ins));
    var stream, n := Stream(r, ins), |Taken(r, ins)|;
    assert Emitted(r, ins) == stream[..n];
  }

  /** UPDATE_IR is entered from EXIT1_IR or EXIT2_IR, and there the register goes into the latch. */
  lemma Latched(now: Regs, last: Pins)
    requires InScan(now.state) && Cycle(now, last).state == UpdateIr
    ensures Cycle(now, last).irLatch == now.irShift && now.state != ShiftIr
  {
  }

  lemma StreamParts(capture: seq<bool>, taken: seq<bool>)
    ensures |taken| == |capture| ==> (capture + taken)[|taken|..] == taken && (capture + taken)[..|taken|] == capture
  {
  }

  // ---------------------------------------------------------------- the instruction latch

  /** The latch changes only in reset and in UPDATE_IR. */
  lemma {:induction false} LatchOnlyOnUpdate(r: Regs, ins: seq<Pins>)
    requires forall k :: 0 < k <= |ins| ==> Run(r, ins[..k]).state != TlReset && Run(r, ins[..k]).state != UpdateIr
    ensures Run(r, ins).irLatch == r.irLatch
  {
    if ins != [] {
      var init := ins[..|ins| - 1];
      forall k | 0 < k <= |init| ensures Run(r, init[..k]).state != TlReset && Run(r, init[..k]).state != UpdateIr {
        assert init[..k] == ins[..k];
      }
      LatchOnlyOnUpdate(r, init);
      assert ins[..|ins|] == ins;
    }
  }

  // ---------------------------------------------------------------- the data column

  predicate InDataColumn(s: TapState) { s in {CaptureDr, ShiftDr, Exit1Dr, PauseDr, Exit2Dr, UpdateDr} }

  /** The state of the instruction column in the same place. */
  function Mirror(s: TapState): TapState {
    match s
    case CaptureDr => CaptureIr
    case ShiftDr => ShiftIr
    case Exit1Dr => Exit1Ir
    case PauseDr => PauseIr
    case Exit2Dr => Exit2Ir
    case UpdateDr => UpdateIr
    case _ => s
  }

  /** The data column moves as the instruction column does. */
  lemma ColumnsMirror(r: Regs, q: Regs, p: Pins)
    requires InDataColumn(r.state) && q.state == Mirror(r.state)
    ensures Cycle(q, p).state == Mirror(Cycle(r, p).state)
  {
  }

  ghost predicate Lows(ins: seq<Pins>) { forall i :: 0 <= i < |ins| ==> !ins[i].tms && !ins[i].trst }

  /** Where a state comes to rest with TMS low. */
  function RestOf(s: TapState): TapState {
    match s
    case TlReset => RtIdle
    case RtIdle => RtIdle
    case UpdateDr => RtIdle
    case UpdateIr => RtIdle
    case SelIrScan => ShiftIr
    case CaptureIr => ShiftIr
    case ShiftIr => ShiftIr
    case Exit2Ir => ShiftIr
    case Exit1Ir => PauseIr
    case PauseIr => PauseIr
    case Exit1Dr => PauseDr
    case PauseDr => PauseDr
    case _ => ShiftDr
  }

  /** And how many clocks it takes. */
  function ToRest(s: TapState): nat { if RestOf(s) == s then 0 else if s == SelDrScan || s == SelIrScan then 2 else 1 }

  /** With TMS low a state comes to rest after exactly that many clocks, and then stays. */
  lemma {:induction false} LowsExactly(r: Regs, ins: seq<Pins>)
    requires Lows(ins)
    ensures Run(r, ins).state == RestOf(r.state) <==> |ins| >= ToRest(r.state)
    ensures RestOf(Run(r, ins).state) == RestOf(r.state)
    ensures ToRest(Run(r, ins).state) == if |ins| < ToRest(r.state) then ToRest(r.state) - |ins| else 0
  {
    if ins != [] {
      var init := ins[..|ins| - 1];
      LowsExactly(r, init);
      LowStep(Run(r, init), ins[|ins| - 1]);
    }
  }

  lemma LowStep(r: Regs, p: Pins)
    requires !p.tms && !p.trst
    ensures var t := Cycle(r, p).state;
      RestOf(t) == RestOf(r.state) && ToRest(t) == if ToRest(r.state) == 0 then 0 else ToRest(r.state) - 1
  {
  }

  /** Where a sequence of TMS bits leads. */
  ghost function Route(s: TapState, tms: seq<bool>): TapState
    decreases |tms|
  {
    if tms == [] then s else Route(NextState(s, tms[0]), tms[1..])
  }

  lemma {:induction false} RouteTaken(r: Regs, ins: seq<Pins>, tms: seq<bool>)
    requires |ins| == |tms| && forall i :: 0 <= i < |ins| ==> ins[i].tms == tms[i] && !ins[i].trst
    ensures Run(r, ins).state == Route(r.state, tms)
    decreases |ins|
  {
    if ins != [] {
      assert ins == [ins[0]] + ins[1..];
      RunSplits(r, [ins[0]], ins[1..]);
      assert Run(r, [ins[0]]) == Cycle(Run(r, []), ins[0]) by { assert [ins[0]][..0] == []; }
      RouteTaken(Cycle(r, ins[0]), ins[1..], tms[1..]);
    }
  }

  /** A data scan by its TMS bits: from reset by way of idle into SHIFT_DR; from there through the pause and back; and by
      way of the update to idle or to the next scan. */
  lemma DataScan()
    ensures Route(TlReset, [false, true, false, false]) == ShiftDr
    ensures Route(ShiftDr, [true, false]) == PauseDr && Route(PauseDr, [true, false]) == ShiftDr
    ensures Route(ShiftDr, [true, true]) == UpdateDr && Route(PauseDr, [true, true]) == UpdateDr
    ensures Route(UpdateDr, [false]) == RtIdle && Route(UpdateDr, [true]) == SelDrScan
  {
    FourBits(TlReset, false, true, false, false);
    TwoBits(ShiftDr, true, false);
    TwoBits(PauseDr, true, false);
    TwoBits(ShiftDr, true, true);
    TwoBits(PauseDr, true, true);
  }

  lemma OneBit(s: TapState, a: bool)
    ensures Route(s, [a]) == NextState(s, a)
  {
    assert Route(NextState(s, a), [a][1..]) == NextState(s, a);
  }

  lemma TwoBits(s: TapState, a: bool, b: bool)
    ensures Route(s, [a, b]) == NextState(NextState(s, a), b)
  {
    assert [a, b][1..] == [b];
    OneBit(NextState(s, a), b);
  }

  lemma FourBits(s: TapState, a: bool, b: bool, c: bool, d: bool)
    ensures Route(s, [a, b, c, d]) == NextState(NextState(NextState(NextState(s, a), b), c), d)
  {
    assert [a, b, c, d][1..] == [b, c, d] && [b, c, d][1..] == [c, d];
    TwoBits(NextState(NextState(s, a), b), c, d);
  }

  // ---------------------------------------------------------------- the bypass register and the reset pin

  lemma {:induction false} BypassKept(r: Regs, ins: seq<Pins>)
    ensures Run(r, ins).bypass == r.bypass
  {
    if ins != [] { BypassKept(r, ins[..|ins| - 1]); }
  }

  /** In SHIFT_DR with the bypass instruction TDO shows, at every clock of every run, the one value the bypass
      register started with. */
  lemma BypassShown(r: Regs, ins: seq<Pins>)
    requires ins != [] && Run(r, ins).state == ShiftDr && Run(r, ins).irLatch == Ones(|Run(r, ins).irLatch|)
    ensures Run(r, ins).tdo == r.bypass && Run(r, ins).tdoEn
  {
    var init := ins[..|ins| - 1];
    BypassKept(r, init);
    assert Rise(Run(r, init), ins[|ins| - 1]).bypass == r.bypass;
  }

  /** A data scan with the bypass instruction: every clock ends in SHIFT_DR. */
  ghost predicate BypassScan(r: Regs, ins: seq<Pins>) {
    && r.irLatch == Ones(|r.irLatch|) && forall k :: 0 < k <= |ins| ==> Run(r, ins[..k]).state == ShiftDr
  }

  /** The bits TDO shows, clock by clock. */
  ghost function ShownBits(r: Regs, ins: seq<Pins>): seq<bool> {
    if ins == [] then [] else ShownBits(r, ins[..|ins| - 1]) + [Run(r, ins).tdo]
  }

  lemma {:induction false} LatchStays(r: Regs, ins: seq<Pins>)
    requires BypassScan(r, ins)
    ensures Run(r, ins).irLatch == r.irLatch
  {
    if ins != [] {
      var init := ins[..|ins| - 1];
      ScanFront(r, ins);
      LatchStays(r, init);
      assert ins[..|ins|] == ins;
    }
  }

  lemma ScanFront(r: Regs, ins: seq<Pins>)
    requires BypassScan(r, ins) && ins != []
    ensures BypassScan(r, ins[..|ins| - 1]) && Run(r, ins).state == ShiftDr
  {
    var init := ins[..|ins| - 1];
    assert ins[..|ins|] == ins;
    forall k | 0 < k <= |init| ensures Run(r, init[..k]).state == ShiftDr { assert init[..k] == ins[..k]; }
  }

  lemma {:induction false} BypassConstant(r: Regs, ins: seq<Pins>)
    requires BypassScan(r, ins)
    ensures ShownBits(r, ins) == seq(|ins|, i => r.bypass)
  {
    if ins != [] {
      ScanFront(r, ins);
      BypassConstant(r, ins[..|ins| - 1]);
      LatchStays(r, ins);
      BypassShown(r, ins);
    }
  }

  /** What a one-bit register between TDI and TDO would show: the bit it captured, and TDI one clock late. */
  ghost function OneLate(first: bool, ins: seq<Pins>): seq<bool> {
    ([first] + seq(|ins|, i requires 0 <= i < |ins| => ins[i].tdi))[..|ins|]
  }

  /** The emitted register shows that exactly when all these bits are the value it started with. */
  lemma BypassShiftsExactly(r: Regs, ins: seq<Pins>, first: bool)
    requires BypassScan(r, ins)
    ensures ShownBits(r, ins) == OneLate(first, ins) <==> forall b :: b in OneLate(first, ins) ==> b == r.bypass
  {
    BypassConstant(r, ins);
    SameBits(OneLate(first, ins), |ins|, r.bypass);
  }

  lemma SameBits(bits: seq<bool>, n: nat, b: bool)
    requires |bits| == n
    ensures bits == seq(n, i => b) <==> forall x :: x in bits ==> x == b
  {
    if forall x :: x in bits ==> x == b {
      forall k | 0 <= k < n ensures bits[k] == b { assert bits[k] in bits; }
    }
  }

  /** The edges of the test clock, each with the pins at that moment. */
  datatype Tick = Up(pins: Pins) | Down(pins: Pins)

  function Ticks(r: Regs, ticks: seq<Tick>): Regs {
    if ticks == [] then r else
    var before := Ticks(r, ticks[..|ticks| - 1]);
    match ticks[|ticks| - 1]
    case Up(p) => Rise(before, p)
    case Down(p) => Fall(before, p)
  }

  /** However long the reset pin is active, nothing is reset before the next rising edge, and there it is. */
  lemma {:induction false} TrstWaits(r: Regs, ticks: seq<Tick>, p: Pins)
    requires (forall k :: 0 <= k < |ticks| ==> ticks[k].Down?) && p.trst
    ensures Ticks(r, ticks).state == r.state
    ensures Ticks(r, ticks + [Up(p)]).state == TlReset
  {
    assert (ticks + [Up(p)])[..|ticks|] == ticks;
    if ticks != [] { TrstWaits(r, ticks[..|ticks| - 1], p); }
  }
}
