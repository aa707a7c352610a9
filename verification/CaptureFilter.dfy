/**
  The classic-BPF capture filter: its symbolic rows, their resolution to relative jumps, an
  interpreter for the instructions they use, and exactly which packets the program accepts.
 */
module CaptureFilter {
  import opened Wrappers

  const SNAPLEN := 65599
  const ETHERTYPE_IPV4 := 0x0800
  const TCP := 6

  // The instruction codes.
  const LOAD_WORD := 0x20
  const LOAD_HALF := 0x28
  const LOAD_BYTE := 0x30
  const LOAD_HALF_INDEXED := 0x48
  const LOAD_HEADER_LENGTH := 0xB1
  const JUMP_EQUAL := 0x15
  const JUMP_SET := 0x45
  const RETURN := 0x06

  datatype Label =
    | EtherType | Protocol | Fragment | Destination | Source | DestinationPort | SourcePort | Accept | Reject

  datatype Jump = To(name: Label) | By(distance: int)

  datatype Row = Row(name: Option<Label>, code: nat, yes: Jump, no: Jump, k: nat)

  datatype Instruction = Instruction(code: nat, jt: int, jf: int, k: nat)

  // ----- The filter and its resolution -----

  function Rows(target: nat, port: nat): seq<Row> {
    [ Row(Some(EtherType), LOAD_HALF, By(0), By(0), 12),
      Row(None, JUMP_EQUAL, To(Protocol), To(Reject), ETHERTYPE_IPV4),
      Row(Some(Protocol), LOAD_BYTE, By(0), By(0), 23),
      Row(None, JUMP_EQUAL, To(Fragment), To(Reject), TCP),
      Row(Some(Fragment), LOAD_HALF, By(0), By(0), 20),
      Row(None, JUMP_SET, To(Reject), To(Destination), 0x1FFF),
      Row(Some(Destination), LOAD_WORD, By(0), By(0), 30),
      Row(None, JUMP_EQUAL, To(DestinationPort), To(Source), target),
      Row(Some(Source), LOAD_WORD, By(0), By(0), 26),
      Row(None, JUMP_EQUAL, To(SourcePort), To(Reject), target),
      Row(Some(DestinationPort), LOAD_HEADER_LENGTH, By(0), By(0), 14),
      Row(None, LOAD_HALF_INDEXED, By(0), By(0), 16),
      Row(None, JUMP_EQUAL, To(Accept), To(Reject), port),
      Row(Some(SourcePort), LOAD_HEADER_LENGTH, By(0), By(0), 14),
      Row(None, LOAD_HALF_INDEXED, By(0), By(0), 14),
      Row(None, JUMP_EQUAL, To(Accept), To(Reject), port),
      Row(Some(Accept), RETURN, By(0), By(0), SNAPLEN),
      Row(Some(Reject), RETURN, By(0), By(0), 0) ]
  }

  /** The position of the last row that carries `name`; a missing name gives -1. */
  function IndexOf(rows: seq<Row>, name: Label): int {
    if rows == [] then -1
    else if rows[|rows| - 1].name == Some(name) then |rows| - 1
    else IndexOf(rows[..|rows| - 1], name)
  }

  function Offset(rows: seq<Row>, index: nat, jump: Jump): int {
    match jump
    case To(name) => IndexOf(rows, name) - index - 1
    case By(distance) => distance
  }

  /** `capture_filter`. */
  function Resolve(rows: seq<Row>): seq<Instruction> {
    seq(|rows|, i requires 0 <= i < |rows| =>
      Instruction(rows[i].code, Offset(rows, i, rows[i].yes), Offset(rows, i, rows[i].no), rows[i].k))
  }

  lemma {:induction false} IndexIs(rows: seq<Row>, name: Label, index: nat)
    requires index < |rows| && rows[index].name == Some(name)
    requires forall i | index < i < |rows| :: rows[i].name != Some(name)
    ensures IndexOf(rows, name) == index
  {
    if index < |rows| - 1 {
      IndexIs(rows[..|rows| - 1], name, index);
    }
  }

  // ----- The interpreter -----

  /** Bitwise conjunction of natural numbers. */
  function And(a: nat, b: nat): nat {
    if a == 0 || b == 0 then 0 else 2 * And(a / 2, b / 2) + (a % 2) * (b % 2)
  }

  function Power(n: nat): nat { if n == 0 then 1 else 2 * Power(n - 1) }

  lemma {:induction false} PowerPositive(n: nat)
    ensures Power(n) >= 1
  {
    if n > 0 { PowerPositive(n - 1); }
  }

  lemma HalfRemainder(a: nat, m: nat)
    requires 0 < m
    ensures a % (2 * m) == 2 * ((a / 2) % m) + a % 2
  {
    var q, r := (a / 2) / m, (a / 2) % m;
    assert a == 2 * (q * m + r) + a % 2;
    assert a == q * (2 * m) + (2 * r + a % 2);
    RemainderIs(a, 2 * m, q, 2 * r + a % 2);
  }

  lemma RemainderIs(a: int, m: int, q: int, r: int)
    requires a == q * m + r && 0 <= r < m
    ensures a % m == r
  {
    var p, s := a / m, a % m;
    assert a == p * m + s;
    assert (p - q) * m == r - s;
    assert p - q >= 1 ==> (p - q) * m >= m;
    assert p - q <= -1 ==> (p - q) * m <= -m;
  }

  /** Masking the low bits is a remainder. */
  lemma {:induction false} LowMask(a: nat, n: nat)
    ensures Power(n) >= 1 && And(a, Power(n) - 1) == a % Power(n)
    decreases n
  {
    PowerPositive(n);
    if n > 0 {
      PowerPositive(n - 1);
      LowMask(a / 2, n - 1);
      HalfRemainder(a, Power(n - 1));
      var mask := Power(n) - 1;
      assert mask == 2 * (Power(n - 1) - 1) + 1 && mask / 2 == Power(n - 1) - 1 && mask % 2 == 1;
    }
  }

  function Half(p: seq<byte>, i: nat): nat
    requires i + 2 <= |p|
  {
    var high: int, low: int := p[i], p[i + 1];
    256 * high + low
  }

  function Word(p: seq<byte>, i: nat): nat
    requires i + 4 <= |p|
  {
    65536 * Half(p, i) + Half(p, i + 2)
  }

  datatype Next = Halt(result: nat) | Go(pc: nat, a: nat, x: nat)

  /** One instruction; a load beyond the packet, like an unknown code, rejects. */
  function Step(ins: Instruction, p: seq<byte>, pc: nat, a: nat, x: nat): Next
    requires ins.jt >= 0 && ins.jf >= 0
  {
    var k := ins.k;
    if ins.code == LOAD_WORD then (if k + 4 <= |p| then Go(pc + 1, Word(p, k), x) else Halt(0))
    else if ins.code == LOAD_HALF then (if k + 2 <= |p| then Go(pc + 1, Half(p, k), x) else Halt(0))
    else if ins.code == LOAD_BYTE then (if k < |p| then Go(pc + 1, p[k], x) else Halt(0))
    else if ins.code == LOAD_HALF_INDEXED then (if x + k + 2 <= |p| then Go(pc + 1, Half(p, x + k), x) else Halt(0))
    else if ins.code == LOAD_HEADER_LENGTH then (if k < |p| then Go(pc + 1, a, 4 * And(p[k], 0xF)) else Halt(0))
    else if ins.code == JUMP_EQUAL then Go(pc + 1 + (if a == k then ins.jt else ins.jf), a, x)
    else if ins.code == JUMP_SET then Go(pc + 1 + (if And(a, k) != 0 then ins.jt else ins.jf), a, x)
    else if ins.code == RETURN then Halt(k)
    else Halt(0)
  }

  /** Jumps only go forward, fit their eight bits and stay inside; the last row returns. */
  predicate Loadable(program: seq<Instruction>) {
    && program != [] && program[|program| - 1].code == RETURN
    && forall i | 0 <= i < |program| ::
         && 0 <= program[i].jt < 256 && 0 <= program[i].jf < 256
         && (program[i].code != RETURN ==> i + 1 + program[i].jt < |program| && i + 1 + program[i].jf < |program|)
  }

  function Run(program: seq<Instruction>, p: seq<byte>, pc: nat, a: nat, x: nat): nat
    requires Loadable(program) && pc < |program|
    decreases |program| - pc
  {
    match Step(program[pc], p, pc, a, x)
    case Halt(result) => result
    case Go(next, a', x') => Run(program, p, next, a', x')
  }

  // ----- Exactness -----

  function Program(target: nat, port: nat): seq<Instruction> {
    [ Instruction(LOAD_HALF, 0, 0, 12),
      Instruction(JUMP_EQUAL, 0, 15, ETHERTYPE_IPV4),
      Instruction(LOAD_BYTE, 0, 0, 23),
      Instruction(JUMP_EQUAL, 0, 13, TCP),
      Instruction(LOAD_HALF, 0, 0, 20),
      Instruction(JUMP_SET, 11, 0, 0x1FFF),
      Instruction(LOAD_WORD, 0, 0, 30),
      Instruction(JUMP_EQUAL, 2, 0, target),
      Instruction(LOAD_WORD, 0, 0, 26),
      Instruction(JUMP_EQUAL, 3, 7, target),
      Instruction(LOAD_HEADER_LENGTH, 0, 0, 14),
      Instruction(LOAD_HALF_INDEXED, 0, 0, 16),
      Instruction(JUMP_EQUAL, 3, 4, port),
      Instruction(LOAD_HEADER_LENGTH, 0, 0, 14),
      Instruction(LOAD_HALF_INDEXED, 0, 0, 14),
      Instruction(JUMP_EQUAL, 0, 1, port),
      Instruction(RETURN, 0, 0, SNAPLEN),
      Instruction(RETURN, 0, 0, 0) ]
  }

  lemma Labels(target: nat, port: nat)
    ensures var rows := Rows(target, port);
            && IndexOf(rows, Protocol) == 2 && IndexOf(rows, Fragment) == 4 && IndexOf(rows, Destination) == 6
            && IndexOf(rows, Source) == 8 && IndexOf(rows, DestinationPort) == 10 && IndexOf(rows, SourcePort) == 13
            && IndexOf(rows, Accept) == 16 && IndexOf(rows, Reject) == 17
  {
    var rows := Rows(target, port);
    IndexIs(rows, Protocol, 2);
    IndexIs(rows, Fragment, 4);
    IndexIs(rows, Destination, 6);
    IndexIs(rows, Source, 8);
    IndexIs(rows, DestinationPort, 10);
    IndexIs(rows, SourcePort, 13);
    IndexIs(rows, Accept, 16);
    IndexIs(rows, Reject, 17);
  }

  lemma ProgramIsLoadable(target: nat, port: nat)
    ensures Loadable(Program(target, port))
  {
  }

  lemma ResolvesAt(target: nat, port: nat, i: nat)
    requires i < 18
    ensures Resolve(Rows(target, port))[i] == Program(target, port)[i]
  {
    Labels(target, port);
  }

  /** The labels resolve to short forward jumps, so the kernel can load the program and every run ends. */
  lemma ResolvesForward(target: nat, port: nat)
    ensures Resolve(Rows(target, port)) == Program(target, port) && Loadable(Resolve(Rows(target, port)))
  {
    forall i | 0 <= i < 18
      ensures Resolve(Rows(target, port))[i] == Program(target, port)[i]
    {
      ResolvesAt(target, port, i);
    }
    ProgramIsLoadable(target, port);
  }

  function HeaderLength(p: seq<byte>): nat
    requires 14 < |p|
  {
    var b: int := p[14];
    4 * (b % 16)
  }

  /** The packet carries a readable port field at `offset` of its TCP header, and it is `port`. */
  predicate PortIs(p: seq<byte>, offset: nat, port: nat) {
    && 14 < |p|
    && 14 + HeaderLength(p) + offset + 2 <= |p|
    && Half(p, 14 + HeaderLength(p) + offset) == port
  }

  /** Untagged IPv4 TCP with fragment offset zero, to `target` and its port, or (not to `target`)
      from `target` and its port, for every header length. */
  predicate Wanted(p: seq<byte>, target: nat, port: nat) {
    && 34 <= |p|
    && Half(p, 12) == ETHERTYPE_IPV4
    && p[23] == TCP
    && Half(p, 20) % 0x2000 == 0
    && (if Word(p, 30) == target then PortIs(p, 2, port)
        else Word(p, 26) == target && PortIs(p, 0, port))
  }

  lemma HeaderMask(b: byte)
    ensures And(b, 0xF) == b % 16
  {
    LowMask(b, 4);
    assert Power(4) == 16;
  }

  lemma FragmentMask(h: nat)
    ensures And(h, 0x1FFF) == h % 0x2000
  {
    LowMask(h, 13);
    assert Power(13) == 2 * Power(12) && Power(12) == 2 * Power(11) && Power(11) == 2 * Power(10)
       && Power(10) == 2 * Power(9);
    assert Power(9) == 2 * Power(8) && Power(8) == 2 * Power(7) && Power(7) == 2 * Power(6) && Power(6) == 2 * Power(5)
       && Power(5) == 32;
  }

  /** From the row that loads the header length, `offset` away from the port field. */
  lemma PortRows(target: nat, port: nat, p: seq<byte>, pc: nat, offset: nat, a: nat, x: nat)
    requires (pc == 10 && offset == 2) || (pc == 13 && offset == 0)
    requires Loadable(Program(target, port))
    ensures Run(Program(target, port), p, pc, a, x) == if PortIs(p, offset, port) then SNAPLEN else 0
  {
    var program := Program(target, port);
    if 14 < |p| {
      HeaderMask(p[14]);
      var length := HeaderLength(p);
      assert Run(program, p, pc, a, x) == Run(program, p, pc + 1, a, length);
      if length + 14 + offset + 2 <= |p| {
        var field := Half(p, length + 14 + offset);
        assert Run(program, p, pc + 1, a, length) == Run(program, p, pc + 2, field, length);
        assert Run(program, p, pc + 2, field, length) ==
          Run(program, p, if field == port then 16 else 17, field, length);
      }
    }
  }

  lemma AddressRows(target: nat, port: nat, p: seq<byte>, a: nat, x: nat)
    requires Loadable(Program(target, port)) && 34 <= |p|
    ensures Run(Program(target, port), p, 6, a, x) ==
            if (if Word(p, 30) == target then PortIs(p, 2, port) else Word(p, 26) == target && PortIs(p, 0, port))
              then SNAPLEN else 0
  {
    var program := Program(target, port);
    var destination, source := Word(p, 30), Word(p, 26);
    assert Run(program, p, 6, a, x) == Run(program, p, 7, destination, x);
    if destination == target {
      assert Run(program, p, 7, destination, x) == Run(program, p, 10, destination, x);
      PortRows(target, port, p, 10, 2, destination, x);
    } else {
      assert Run(program, p, 7, destination, x) == Run(program, p, 8, destination, x);
      assert Run(program, p, 8, destination, x) == Run(program, p, 9, source, x);
      if source == target {
        assert Run(program, p, 9, source, x) == Run(program, p, 13, source, x);
        PortRows(target, port, p, 13, 0, source, x);
      } else {
        assert Run(program, p, 9, source, x) == Run(program, p, 17, source, x);
      }
    }
  }

  lemma FragmentRows(target: nat, port: nat, p: seq<byte>, a: nat, x: nat)
    requires Loadable(Program(target, port))
    ensures |p| < 34 ==> Run(Program(target, port), p, 4, a, x) == 0
    ensures 34 <= |p| && Half(p, 20) % 0x2000 == 0 ==>
              Run(Program(target, port), p, 4, a, x) == Run(Program(target, port), p, 6, Half(p, 20), x)
    ensures 34 <= |p| && Half(p, 20) % 0x2000 != 0 ==> Run(Program(target, port), p, 4, a, x) == 0
  {
    var program := Program(target, port);
    if 22 <= |p| {
      var h := Half(p, 20);
      FragmentMask(h);
      assert Run(program, p, 4, a, x) == Run(program, p, 5, h, x);
      assert Run(program, p, 5, h, x) == Run(program, p, if h % 0x2000 != 0 then 17 else 6, h, x);
    }
  }

  /** The filter as resolved, on any packet of any length: it accepts exactly the wanted packets. */
  lemma AcceptsExactly(target: nat, port: nat, p: seq<byte>)
    ensures Loadable(Resolve(Rows(target, port)))
    ensures Run(Resolve(Rows(target, port)), p, 0, 0, 0) == if Wanted(p, target, port) then SNAPLEN else 0
  {
    ResolvesForward(target, port);
    var program := Program(target, port);
    if 14 <= |p| {
      var kind := Half(p, 12);
      assert Run(program, p, 0, 0, 0) == Run(program, p, 1, kind, 0);
      if kind == ETHERTYPE_IPV4 {
        assert Run(program, p, 1, kind, 0) == Run(program, p, 2, kind, 0);
        if 23 < |p| {
          assert Run(program, p, 2, kind, 0) == Run(program, p, 3, p[23], 0);
          if p[23] == TCP {
            assert Run(program, p, 3, p[23], 0) == Run(program, p, 4, p[23], 0);
            FragmentRows(target, port, p, p[23], 0);
            if 34 <= |p| { AddressRows(target, port, p, Half(p, 20), 0); }
          } else {
            assert Run(program, p, 3, p[23], 0) == Run(program, p, 17, p[23], 0);
          }
        }
      } else {
        assert Run(program, p, 1, kind, 0) == Run(program, p, 17, kind, 0);
      }
    }
  }
}
