/**
 The part of the Lua virtual machine that the code of logical and comparison
 expressions uses: values, instructions and what running them does.
 */
module LuaCode {

  import opened Options

  datatype Value = Nil | Bool(b: bool) | Int(i: int) | Str(s: string)

  predicate Truthy(v: Value) {
    v != Nil && v != Bool(false)
  }

  predicate StrLess(a: string, b: string) {
    b != [] && (a == [] || a[0] < b[0] || (a[0] == b[0] && StrLess(a[1..], b[1..])))
  }

  datatype CmpOp = EqOp | LtOp | LeOp

  /** A comparison; ordering values of different types, or values other than
      numbers and strings, raises an error. */
  function Compare(op: CmpOp, x: Value, y: Value): Option<bool> {
    match op
    case EqOp => Some(x == y)
    case LtOp =>
      if x.Int? && y.Int? then Some(x.i < y.i)
      else if x.Str? && y.Str? then Some(StrLess(x.s, y.s)) else None
    case LeOp =>
      if x.Int? && y.Int? then Some(x.i <= y.i)
      else if x.Str? && y.Str? then Some(!StrLess(y.s, x.s)) else None
  }

  /** Invalid register that fits in 8 bits; also the number of registers an
      instruction can address, less one. */
  const NO_REG: nat := 255

  /** End of a jump list: an offset that makes a jump point to itself. */
  const NO_JUMP: int := -1

  const OFFSET_sC: int := 127
  const MAXARG_C: int := 255
  const MAXINDEXRK: int := 255
  const MAXARG_Bx: int := 131071
  const OFFSET_sBx: int := 65535
  const MAXARG_sJ: int := 33554431
  const OFFSET_sJ: int := 16777215

  type Regs = r: seq<Value> | |r| == 256 witness seq(256, i => Nil)

  type Reg = r: nat | r < 256

  datatype Instr =
    | MOVE(a: Reg, b: Reg)
    | LOADI(a: Reg, i: int)
    | LOADK(a: Reg, bx: nat)
    | LOADKX(a: Reg)
    | EXTRAARG(ax: nat)
    | LOADFALSE(a: Reg)
    | LFALSESKIP(a: Reg)
    | LOADTRUE(a: Reg)
    | LOADNIL(a: Reg, n: nat)
    | NOT(a: Reg, b: Reg)
    | JMP(sj: int)
    | CMP(cmp: CmpOp, a: Reg, b: Reg, k: bool)         // EQ, LT, LE
    | EQK(a: Reg, kb: nat, k: bool)
    | CMPI(cmp: CmpOp, a: Reg, sb: int, k: bool)       // EQI, LTI, LEI
    | CMPR(cmp: CmpOp, a: Reg, sb: int, k: bool)       // GTI, GEI: operands exchanged
    | TEST(a: Reg, k: bool)
    | TESTSET(a: Reg, b: Reg, k: bool)
    | OTHER(opcode: nat)                                 // any other instruction

  /** An instruction that decides whether the jump after it is taken. */
  predicate IsTest(i: Instr) {
    i.CMP? || i.EQK? || i.CMPI? || i.CMPR? || i.TEST? || i.TESTSET?
  }

  /** What a test tests; the jump is taken when this equals the test's `k`. */
  function Tested(i: Instr, ks: seq<Value>, R: Regs): Option<bool>
    requires IsTest(i)
  {
    match i
    case CMP(op, a, b, _) => Compare(op, R[a], R[b])
    case EQK(a, kb, _) => if kb < |ks| then Some(R[a] == ks[kb]) else None
    case CMPI(op, a, sb, _) => Compare(op, R[a], Int(sb - OFFSET_sC))
    case CMPR(op, a, sb, _) => Compare(op, Int(sb - OFFSET_sC), R[a])
    case TEST(a, _) => Some(Truthy(R[a]))
    case TESTSET(_, b, _) => Some(Truthy(R[b]))
  }

  /** Writing a register; NO_REG stands for no register. */
  function Write(R: Regs, a: Reg, v: Value): Regs {
    if a == NO_REG then R else R[a := v]
  }

  /** Registers when the jump of a test is taken. */
  function Taken(i: Instr, R: Regs): Regs {
    if i.TESTSET? then Write(R, i.a, R[i.b]) else R
  }

  function WriteNil(R: Regs, a: nat, n: nat): Regs
    decreases n
  {
    var S := if a + n < 256 then R[a + n := Nil] else R;
    if n == 0 then S else WriteNil(S, a, n - 1)
  }

  /** Instructions that only write a register and go on. */
  predicate IsPlain(i: Instr) {
    i.MOVE? || i.LOADI? || i.LOADK? || i.LOADFALSE? || i.LOADTRUE? || i.LOADNIL? || i.NOT?
  }

  function Plain(i: Instr, ks: seq<Value>, R: Regs): Regs
    requires IsPlain(i)
  {
    match i
    case MOVE(a, b) => R[a := R[b]]
    case LOADI(a, n) => R[a := Int(n)]
    case LOADK(a, bx) => if bx < |ks| then R[a := ks[bx]] else R
    case LOADFALSE(a) => R[a := Bool(false)]
    case LOADTRUE(a) => R[a := Bool(true)]
    case LOADNIL(a, n) => WriteNil(R, a, n)
    case NOT(a, b) => R[a := Bool(!Truthy(R[b]))]
  }

  /**
   Code being generated. Code from `base` on is the straight-line stretch under
   consideration; what comes before it is arbitrary and never looked at. `last`
   is the last position that may be the target of a jump (the field
   `lasttarget`); `pend` holds the jumps whose destination is not known yet:
   their arguments only link them into jump lists.
   */
  datatype Code = Code(base: nat, last: nat, ins: seq<Instr>, ks: seq<Value>, pend: set<nat>)

  /** Running a stretch ends by falling off its end, by taking a jump whose
      destination is not known yet, with an error, or in ill-formed code. */
  datatype Outcome = Fall(R: Regs) | Exit(j: nat, R: Regs) | Error | Stuck

  /** One step ends in the next place to execute or ends the run. */
  datatype Next = Go(pc: nat, R: Regs) | Halt(o: Outcome)

  /** Executing the jump at `j`. */
  function Leap(c: Code, j: nat, R: Regs): Next {
    if j >= |c.ins| || !c.ins[j].JMP? then Halt(Stuck)
    else if j in c.pend then Halt(Exit(j, R))
    else if c.ins[j].sj >= 0 then Go(j + 1 + c.ins[j].sj, R)
    else Halt(Stuck)
  }

  /** One instruction; a test whose jump is taken takes it at once. */
  function Step(c: Code, pc: nat, R: Regs): (n: Next)
    requires pc < |c.ins|
    ensures n.Go? ==> n.pc > pc
  {
    var i := c.ins[pc];
    if IsPlain(i) then Go(pc + 1, Plain(i, c.ks, R))
    else if IsTest(i) then
      match Tested(i, c.ks, R)
      case None => Halt(Error)
      case Some(b) => if b == i.k then Leap(c, pc + 1, Taken(i, R)) else Go(pc + 2, R)
    else match i
      case LOADKX(a) =>
        if pc + 1 < |c.ins| && c.ins[pc + 1].EXTRAARG? && c.ins[pc + 1].ax < |c.ks| then
          Go(pc + 2, R[a := c.ks[c.ins[pc + 1].ax]])
        else Halt(Stuck)
      case LFALSESKIP(a) => Go(pc + 2, R[a := Bool(false)])
      case JMP(_) => Leap(c, pc, R)
      case _ => Halt(Stuck)
  }

  function Exec(c: Code, pc: nat, R: Regs): Outcome
    decreases |c.ins| - pc
  {
    if pc > |c.ins| then Stuck
    else if pc == |c.ins| then Fall(R)
    else
      match Step(c, pc, R)
      case Go(q, S) => Exec(c, q, S)
      case Halt(o) => o
  }

  function Run(c: Code, R: Regs): Outcome {
    Exec(c, c.base, R)
  }
}
