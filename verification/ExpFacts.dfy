/**
 Expressions in the middle of being compiled: where their value will be, which
 pending jumps carry part of it, and what each code-generation step does to the
 value they stand for.
 */
module ExpFacts {
  import opened LuaCode
  import opened Options
  import opened CodeFacts

  datatype Kind =
    | VNIL | VTRUE | VFALSE
    | VKINT(i: int) | VKSTR(s: string) | VK(idx: nat)
    | VLOCAL(ridx: Reg)
    | VNONRELOC(reg: Reg)
    | VRELOC(pc: nat)
    | VJMP(jmp: nat)

  /** An expression descriptor: its kind and the heads of the lists of jumps to
      take when it is true and when it is false. */
  datatype Exp = Exp(k: Kind, t: int, f: int)

  /** The members of the two jump lists, in order. */
  datatype Lists = Lists(ts: seq<nat>, fs: seq<nat>)

  const NOLISTS := Lists([], [])

  ghost function Elems(l: seq<nat>): set<nat> {
    set j | j in l
  }

  // ----- jump lists -----

  /** The jump after `j` in its list. */
  function NextJump(ins: seq<Instr>, j: nat): int
    requires j < |ins| && ins[j].JMP?
  {
    if ins[j].sj == NO_JUMP then NO_JUMP else j + 1 + ins[j].sj
  }

  function Head(l: seq<nat>, i: nat): int {
    if i < |l| then l[i] else NO_JUMP
  }

  /** Following the links stored in the jumps from `head` visits exactly `l`. */
  ghost predicate Chain(ins: seq<Instr>, head: int, l: seq<nat>) {
    && head == Head(l, 0)
    && (forall i :: 0 <= i < |l| ==> l[i] < |ins| && ins[l[i]].JMP? && NextJump(ins, l[i]) == Head(l, i + 1))
    && (forall i, n :: 0 <= i < n < |l| ==> l[i] != l[n])
  }

  /** A jump list of an expression: its jumps are pending, and a test in it that
      produces a value lets `cond` values through. */
  ghost predicate WfList(c: Code, head: int, l: seq<nat>, cond: bool) {
    && Chain(c.ins, head, l)
    && forall j :: j in l ==> j in c.pend && 0 < j < |c.ins| && (c.ins[j - 1].TESTSET? ==> c.ins[j - 1].k == cond)
  }

  // ----- what a descriptor means -----

  /** Code without its last `n` instructions. */
  function Cut(c: Code, n: nat): Code
    requires 0 < n <= |c.ins|
  {
    c.(ins := c.ins[..|c.ins| - n], pend := c.pend - {|c.ins| - 1})
  }

  predicate IsCompare(i: Instr) {
    i.CMP? || i.EQK? || i.CMPI? || i.CMPR?
  }

  /** The descriptor fits the code: a relocatable value is made by the last
      instruction, a condition is the last test with its jump. */
  predicate Shape(c: Code, e: Exp) {
    match e.k
    case VK(i) => i < |c.ks|
    case VRELOC(pc) => c.base <= pc == |c.ins| - 1 && c.ins[pc].NOT? && pc !in c.pend
    case VJMP(j) =>
      && c.base < j == |c.ins| - 1 && j in c.pend && c.ins[j] == JMP(NO_JUMP)
      && IsCompare(c.ins[j - 1]) && (c.ins[j - 1].EQK? ==> c.ins[j - 1].kb < |c.ks|)
    case _ => true
  }

  /** The code before the value itself is made. */
  function Eff(c: Code, e: Exp): Code
    requires Shape(c, e)
  {
    match e.k
    case VRELOC(_) => Cut(c, 1)
    case VJMP(_) => Cut(c, 2)
    case _ => c
  }

  ghost predicate WfExp(c: Code, e: Exp, l: Lists) {
    && Shape(c, e)
    && Wf(Eff(c, e))
    && WfList(Eff(c, e), e.t, l.ts, true)
    && WfList(Eff(c, e), e.f, l.fs, false)
    && (forall j :: j in l.ts ==> j !in l.fs)
  }

  /** The jumps that belong to the expression. */
  ghost function Own(e: Exp, l: Lists): set<nat> {
    Elems(l.ts) + Elems(l.fs) + (if e.k.VJMP? then {e.k.jmp} else {})
  }

  /** The jumps that belong to enclosing expressions. */
  ghost function Rest(c: Code, e: Exp, l: Lists): set<nat> {
    c.pend - Own(e, l)
  }

  /** What code computes on the way to an expression: its value, an exit of an
      enclosing expression, or an error. */
  datatype Meaning = Val(v: Value, R: Regs) | Out(j: nat, R: Regs) | Err | Bad

  /** The value with which the jump at `j` leaves an expression: the value its
      test keeps, or the truth value that makes it jump. */
  function JumpVal(c: Code, j: nat, R: Regs, cond: bool): Value {
    if 0 < j <= |c.ins| && c.ins[j - 1].TESTSET? then R[c.ins[j - 1].b] else Bool(cond)
  }

  /** The value made once execution gets to the end of the effective code. */
  function Finish(c: Code, e: Exp, R: Regs): (m: Meaning)
    requires Shape(c, e)
    ensures m == Err || (m.Val? && m.R == R)
    ensures !e.k.VJMP? ==> m.Val?
  {
    match e.k
    case VNIL => Val(Nil, R)
    case VTRUE => Val(Bool(true), R)
    case VFALSE => Val(Bool(false), R)
    case VKINT(i) => Val(Int(i), R)
    case VKSTR(s) => Val(Str(s), R)
    case VK(i) => Val(c.ks[i], R)
    case VLOCAL(r) => Val(R[r], R)
    case VNONRELOC(r) => Val(R[r], R)
    case VRELOC(pc) => Val(Bool(!Truthy(R[c.ins[pc].b])), R)
    case VJMP(j) =>
      var i := c.ins[j - 1];
      match Tested(i, c.ks, R)
      case None => Err
      case Some(b) => Val(Bool(b == i.k), R)
  }

  /** What the expression described by `e` stands for in a run of the code. */
  ghost function Den(c: Code, e: Exp, l: Lists, R0: Regs): Meaning
    requires Shape(c, e)
  {
    match Run(Eff(c, e), R0)
    case Fall(R) => Finish(c, e, R)
    case Exit(j, R) =>
      if j in l.ts then Val(JumpVal(c, j, R, true), R)
      else if j in l.fs then Val(JumpVal(c, j, R, false), R)
      else Out(j, R)
    case Error => Err
    case Stuck => Bad
  }

  /** Registers below `lo` are the same. */
  predicate Agree(R: Regs, S: Regs, lo: nat) {
    forall r :: 0 <= r < lo && r < 256 ==> R[r] == S[r]
  }

  predicate SameMeaning(m: Meaning, n: Meaning, lo: nat) {
    match m
    case Val(v, R) => n.Val? && n.v == v && Agree(R, n.R, lo)
    case _ => n == m
  }

  // ----- frames -----

  /** The jumps in `P` and the tests before them are untouched. */
  ghost predicate Kept(c: Code, d: Code, P: set<nat>) {
    forall j :: j in P ==> 0 < j < |c.ins| && j < |d.ins| && d.ins[j] == c.ins[j] && d.ins[j - 1] == c.ins[j - 1]
  }

  /** Code before the stretch is untouched and constants are only added. */
  ghost predicate Grown(c: Code, d: Code) {
    && d.base == c.base
    && c.base <= |c.ins| && c.base <= |d.ins|
    && (forall pc :: 0 <= pc < c.base ==> d.ins[pc] == c.ins[pc])
    && |c.ks| <= |d.ks|
    && (forall k :: 0 <= k < |c.ks| ==> d.ks[k] == c.ks[k])
  }

  // ----- appending instructions -----

  lemma EndNotMid(c: Code)
    requires Wf(c)
    ensures !Mid(c, |c.ins|) && !Mid(c, c.base) && c.base <= |c.ins|
  {
    if c.base < |c.ins| {
      assert WfAt(c, |c.ins| - 1);
    }
  }

  /** `o` followed by the plain instruction `i`. */
  function Also(o: Outcome, i: Instr, ks: seq<Value>): Outcome
    requires IsPlain(i)
  {
    if o.Fall? then Fall(Plain(i, ks, o.R)) else o
  }

  lemma AppendOneRun(c: Code, d: Code, i: Instr, R0: Regs)
    requires Wf(c) && Prefix(c, d)
    requires |d.ins| == |c.ins| + 1 && d.ins[|c.ins|] == i && IsPlain(i)
    ensures Run(d, R0) == Also(Run(c, R0), i, d.ks)
  {
    EndNotMid(c);
    ExecAppend(c, d, c.base, R0);
    var o := Run(c, R0);
    if o.Fall? {
      hide Wf, Prefix, Mid, Plain;
      assert Step(d, |c.ins|, o.R) == Go(|c.ins| + 1, Plain(i, d.ks, o.R));
      assert Exec(d, |c.ins| + 1, Plain(i, d.ks, o.R)) == Fall(Plain(i, d.ks, o.R));
    }
  }

  lemma TargetStays(c: Code, d: Code, t: int)
    requires Wf(c) && Prefix(c, d) && c.last <= d.last && Target(c, t)
    ensures Target(d, t)
  {
  }

  /** Appending complete instructions to well-formed code. */
  lemma AppendWf(c: Code, d: Code)
    requires Wf(c) && Prefix(c, d) && c.last <= d.last <= |d.ins|
    requires forall pc :: |c.ins| <= pc < |d.ins| ==> WfAt(d, pc)
    requires forall j :: j in d.pend && j !in c.pend ==> d.base < j < |d.ins| && d.ins[j].JMP? && IsTest(d.ins[j - 1])
    ensures Wf(d)
  {
    forall pc | d.base <= pc < |d.ins| ensures WfAt(d, pc) {
      if pc < |c.ins| {
        AppendWfAt(c, d, pc);
      }
    }
  }

  lemma AppendWfAt(c: Code, d: Code, pc: nat)
    requires Wf(c) && Prefix(c, d) && c.last <= d.last <= |d.ins|
    requires c.base <= pc < |c.ins|
    ensures WfAt(d, pc)
  {
    var i := c.ins[pc];
    assert WfAt(c, pc) && d.ins[pc] == i;
    if pc + 1 < |c.ins| {
      assert d.ins[pc + 1] == c.ins[pc + 1];
    }
    if i.LFALSESKIP? {
      TargetStays(c, d, pc + 2);
    } else if i.JMP? && pc !in c.pend {
      TargetStays(c, d, pc + 1 + i.sj);
    } else if i.TESTSET? {
      assert WfAt(c, pc + 1);
    }
  }

  /** Appending a plain instruction. */
  lemma AppendOne(c: Code, d: Code, i: Instr)
    requires Wf(c) && Prefix(c, d) && d.pend == c.pend && d.last == c.last
    requires |d.ins| == |c.ins| + 1 && d.ins[|c.ins|] == i
    requires IsPlain(i) && (i.LOADK? ==> i.bx < |d.ks|)
    ensures Wf(d)
    ensures forall R0 :: Run(d, R0) == Also(Run(c, R0), i, d.ks)
  {
    assert WfAt(d, |c.ins|) by {
      assert c.base < |c.ins| ==> WfAt(c, |c.ins| - 1);
    }
    AppendWf(c, d);
    forall R0 ensures Run(d, R0) == Also(Run(c, R0), i, d.ks) {
      AppendOneRun(c, d, i, R0);
    }
  }

  /** `o` followed by writing `v` to a register. */
  function Put(o: Outcome, reg: Reg, v: Value): Outcome {
    if o.Fall? then Fall(o.R[reg := v]) else o
  }

  /** `o` followed by writing nil to the registers from `from` to `from + m`. */
  function Nils(o: Outcome, from: nat, m: nat): Outcome {
    if o.Fall? then Fall(WriteNil(o.R, from, m)) else o
  }

  /** Loading a constant whose index needs an extra argument. */
  lemma AppendLoadKX(c: Code, d: Code, reg: Reg, k: nat)
    requires Wf(c) && Prefix(c, d) && d.pend == c.pend && d.last == c.last
    requires |d.ins| == |c.ins| + 2 && d.ins[|c.ins|] == LOADKX(reg) && d.ins[|c.ins| + 1] == EXTRAARG(k)
    requires k < |d.ks|
    ensures Wf(d)
    ensures forall R0 :: Run(d, R0) == Put(Run(c, R0), reg, d.ks[k])
  {
    assert WfAt(d, |c.ins|) && WfAt(d, |c.ins| + 1);
    AppendWf(c, d);
    EndNotMid(c);
    forall R0 ensures Run(d, R0) == Put(Run(c, R0), reg, d.ks[k]) {
      ExecAppend(c, d, c.base, R0);
      var o := Run(c, R0);
      if o.Fall? {
        assert Step(d, |c.ins|, o.R) == Go(|d.ins|, o.R[reg := d.ks[k]]);
        assert Exec(d, |d.ins|, o.R[reg := d.ks[k]]) == Fall(o.R[reg := d.ks[k]]);
      }
    }
  }

  /** Dropping a last instruction that no jump skips. */
  lemma CutWf(c: Code)
    requires Wf(c) && c.base < |c.ins| && c.last < |c.ins| && IsPlain(c.ins[|c.ins| - 1])
    ensures Wf(Cut(c, 1)) && Prefix(Cut(c, 1), c) && Cut(c, 1).pend == c.pend
  {
    var d := Cut(c, 1);
    assert |c.ins| - 1 !in c.pend;
    forall pc | d.base <= pc < |d.ins| ensures WfAt(d, pc) {
      assert WfAt(c, pc) && d.ins[pc] == c.ins[pc];
      if pc + 1 < |c.ins| {
        assert WfAt(c, pc + 1);
      }
    }
  }

  lemma WriteNilAt(R: Regs, a: nat, n: nat, r: nat)
    requires r < 256
    ensures WriteNil(R, a, n)[r] == if a <= r <= a + n then Nil else R[r]
    decreases n
  {
    if n > 0 {
      WriteNilAt(if a + n < 256 then R[a + n := Nil] else R, a, n - 1, r);
    }
  }

  /** One LOADNIL does the work of two with touching ranges. */
  lemma WriteNilJoin(R: Regs, a: nat, n: nat, b: nat, m: nat, lo: nat, hi: nat)
    requires lo == (if a < b then a else b)
    requires lo + hi == (if a + n > b + m then a + n else b + m)
    requires a <= b <= a + n + 1 || b <= a <= b + m + 1
    ensures WriteNil(R, lo, hi) == WriteNil(WriteNil(R, a, n), b, m)
  {
    var S, T := WriteNil(R, lo, hi), WriteNil(WriteNil(R, a, n), b, m);
    forall r: nat | r < 256 ensures S[r] == T[r] {
      WriteNilAt(R, lo, hi, r);
      WriteNilAt(R, a, n, r);
      WriteNilAt(WriteNil(R, a, n), b, m, r);
    }
  }

  /** Widening the last LOADNIL instead of appending another one. */
  lemma NilMerged(c: Code, d: Code, from: nat, m: nat)
    requires Wf(c) && c.base < |c.ins| && c.last < |c.ins| && c.ins[|c.ins| - 1].LOADNIL?
    requires |d.ins| == |c.ins| && d.ins[|c.ins| - 1].LOADNIL?
    requires Prefix(Cut(c, 1), d) && d.ks == c.ks && d.pend == c.pend && d.last == c.last
    requires var i, i' := c.ins[|c.ins| - 1], d.ins[|c.ins| - 1];
             && i'.a == (if i.a < from then i.a else from)
             && i'.a + i'.n == (if i.a + i.n > from + m then i.a + i.n else from + m)
             && (i.a <= from <= i.a + i.n + 1 || from <= i.a <= from + m + 1)
    ensures Wf(d)
    ensures forall R0 :: Run(d, R0) == Nils(Run(c, R0), from, m)
  {
    var b, i, i' := Cut(c, 1), c.ins[|c.ins| - 1], d.ins[|c.ins| - 1];
    CutWf(c);
    AppendOne(b, d, i');
    forall R0 ensures Run(d, R0) == Nils(Run(c, R0), from, m) {
      AppendOneRun(b, c, i, R0);
      var o := Run(b, R0);
      if o.Fall? {
        WriteNilJoin(o.R, i.a, i.n, from, m, i'.a, i'.n);
      }
    }
  }

  /** What a test with its pending jump does at the end of a run. */
  function Branch(o: Outcome, i: Instr, ks: seq<Value>, j: nat): Outcome
    requires IsTest(i)
  {
    match o
    case Fall(R) =>
      (match Tested(i, ks, R)
       case None => Error
       case Some(b) => if b == i.k then Exit(j, R) else Fall(R))
    case _ => o
  }

  /** Appending a test and a pending jump. */
  lemma AppendCond(c: Code, d: Code, i: Instr)
    requires Wf(c) && Prefix(c, d) && d.pend == c.pend + {|c.ins| + 1} && d.last == c.last
    requires |d.ins| == |c.ins| + 2 && d.ins[|c.ins|] == i && d.ins[|c.ins| + 1].JMP?
    requires IsTest(i) && (i.TESTSET? ==> i.a == NO_REG) && (i.EQK? ==> i.kb < |d.ks|)
    ensures Wf(d)
    ensures forall R0 :: Run(d, R0) == Branch(Run(c, R0), i, d.ks, |c.ins| + 1)
  {
    EndNotMid(c);
    assert WfAt(d, |c.ins|) && WfAt(d, |c.ins| + 1);
    AppendWf(c, d);
    forall R0 ensures Run(d, R0) == Branch(Run(c, R0), i, d.ks, |c.ins| + 1) {
      ExecAppend(c, d, c.base, R0);
      var o := Run(c, R0);
      if o.Fall? {
        hide Wf, Prefix, Mid, Tested;
        assert Taken(i, o.R) == o.R;
        assert Exec(d, |c.ins| + 2, o.R) == Fall(o.R);
      }
    }
  }
}
