/**
 What the steps of compiling an expression do to the value it stands for:
 loading it, branching on it, negating it and joining its jumps.
 */
module ExpSteps {
  import opened LuaCode
  import opened Options
  import opened CodeFacts
  import opened ExpFacts

  // ----- jump lists and patches -----

  lemma WfListStays(c: Code, d: Code, head: int, l: seq<nat>, cond: bool)
    requires WfList(c, head, l, cond) && Kept(c, d, Elems(l)) && Elems(l) <= d.pend
    ensures WfList(d, head, l, cond)
  {
    forall j | j in l ensures j in d.pend && 0 < j < |d.ins| && d.ins[j] == c.ins[j] && d.ins[j - 1] == c.ins[j - 1] {
      assert j in Elems(l);
    }
    ChainStays(c.ins, d.ins, head, l);
    hide Chain;
  }

  lemma ChainStays(ins: seq<Instr>, ins': seq<Instr>, head: int, l: seq<nat>)
    requires Chain(ins, head, l) && forall j :: j in l ==> j < |ins'| && j < |ins| && ins'[j] == ins[j]
    ensures Chain(ins', head, l)
  {
    forall i | 0 <= i < |l| ensures l[i] < |ins'| && ins'[l[i]].JMP? && NextJump(ins', l[i]) == Head(l, i + 1) {
      assert l[i] in l;
    }
  }

  lemma WfListPend(c: Code, head: int, l: seq<nat>, cond: bool)
    requires WfList(c, head, l, cond)
    ensures Elems(l) <= c.pend
  {
  }

  lemma MidStays(c: Code, d: Code, S: set<nat>, t: nat)
    requires Wf(c) && Patched(c, d, S) && t <= |c.ins|
    ensures Mid(d, t) == Mid(c, t)
  {
    if c.base < t {
      assert PatchedAt(c, d, t - 1) && WfAt(c, t - 1);
    }
  }

  /** Patching keeps code well formed when the settled jumps lead to labels. */
  lemma PatchWf(c: Code, d: Code, S: set<nat>)
    requires Wf(c) && Patched(c, d, S) && c.last <= d.last <= |d.ins|
    requires forall j :: j in S && j in c.pend ==> j < |d.ins| && d.ins[j].JMP? && d.ins[j].sj >= 0 && Target(d, j + 1 + d.ins[j].sj)
    requires forall j :: j in d.pend ==> c.base < j < |d.ins| && (d.ins[j - 1].TESTSET? ==> d.ins[j - 1].a == NO_REG)
    ensures Wf(d)
  {
    forall pc | d.base <= pc < |d.ins| ensures WfAt(d, pc) {
      assert WfAt(c, pc) && PatchedAt(c, d, pc);
      if pc + 1 < |c.ins| {
        assert WfAt(c, pc + 1) && PatchedAt(c, d, pc + 1);
      }
      if pc > c.base {
        assert WfAt(c, pc - 1) && PatchedAt(c, d, pc - 1);
      }
      var i := c.ins[pc];
      if i.LFALSESKIP? {
        MidStays(c, d, S, pc + 2);
      } else if i.JMP? && pc !in c.pend {
        MidStays(c, d, S, pc + 1 + i.sj);
      }
    }
    forall j | j in d.pend ensures d.ins[j].JMP? && IsTest(d.ins[j - 1]) {
      assert PatchedAt(c, d, j) && PatchedAt(c, d, j - 1);
    }
  }

  /** Changing only links of pending jumps changes no run. */
  lemma RunLinked(c: Code, d: Code)
    requires Wf(c) && Wf(d) && Patched(c, d, {})
    ensures forall R0 :: Run(d, R0) == Run(c, R0)
  {
    EndNotMid(c);
    forall R0 ensures Run(d, R0) == Run(c, R0) {
      ExecPatched(c, d, {}, c.base, R0);
    }
  }

  // ----- loading a value -----

  /** `n` is `m` with the value possibly also written to `reg`. */
  predicate Loads(m: Meaning, n: Meaning, reg: Reg) {
    match m
    case Val(v, R) => n.Val? && n.v == v && (n.R == R || n.R == R[reg := v])
    case _ => n == m
  }

  /** The value of `e` is written to `reg` at the end of the run `o`. */
  function Into(c: Code, e: Exp, o: Outcome, reg: Reg): Outcome
    requires Shape(c, e)
  {
    if o.Fall? then
      match Finish(c, e, o.R)
      case Val(v, R) => Fall(R[reg := v])
      case _ => Error
    else o
  }

  /** From one descriptor to another: outer jumps untouched, inner ones kept track of. */
  ghost predicate Moved(c: Code, e: Exp, l: Lists, d: Code, e': Exp, l': Lists) {
    && WfExp(c, e, l)
    && WfExp(d, e', l')
    && Grown(c, d)
    && Rest(d, e', l') == Rest(c, e, l)
    && Kept(c, d, Rest(c, e, l))
  }

  lemma OwnKept(c: Code, e: Exp, l: Lists, j: nat)
    requires WfExp(c, e, l) && (j in l.ts || j in l.fs)
    ensures j in Eff(c, e).pend && j in c.pend && 0 < j < |Eff(c, e).ins| <= |c.ins|
    ensures Eff(c, e).ins[j] == c.ins[j] && Eff(c, e).ins[j - 1] == c.ins[j - 1]
  {
  }

  /** A descriptor after its value has been loaded. */
  lemma DischargedWf(c: Code, e: Exp, l: Lists, d: Code, reg: Reg)
    requires WfExp(c, e, l) && !e.k.VJMP? && Wf(d) && Grown(c, d)
    requires d.pend == Eff(c, e).pend && Kept(Eff(c, e), d, d.pend)
    ensures Moved(c, e, l, d, Exp(VNONRELOC(reg), e.t, e.f), l)
  {
    hide Wf, WfList, Mid, WfAt;
    var b := Eff(c, e);
    assert b.pend == c.pend && |b.ins| <= |c.ins| && forall pc :: 0 <= pc < |b.ins| ==> b.ins[pc] == c.ins[pc];
    assert Elems(l.ts) <= d.pend by { WfListPend(b, e.t, l.ts, true); }
    assert Elems(l.fs) <= d.pend by { WfListPend(b, e.f, l.fs, false); }
    WfListStays(b, d, e.t, l.ts, true);
    WfListStays(b, d, e.f, l.fs, false);
  }

  lemma Discharged(c: Code, e: Exp, l: Lists, d: Code, reg: Reg)
    requires WfExp(c, e, l) && !e.k.VJMP? && Wf(d) && Grown(c, d)
    requires d.pend == Eff(c, e).pend && Kept(Eff(c, e), d, d.pend)
    requires forall R0 :: Run(d, R0) == Into(c, e, Run(Eff(c, e), R0), reg)
    ensures Moved(c, e, l, d, Exp(VNONRELOC(reg), e.t, e.f), l)
    ensures forall R0 :: Loads(Den(c, e, l, R0), Den(d, Exp(VNONRELOC(reg), e.t, e.f), l, R0), reg)
  {
    assert Shape(c, e) && Shape(d, Exp(VNONRELOC(reg), e.t, e.f));
    hide Wf, Run, WfExp, Kept, Den, Into, Loads, Shape;
    DischargedWf(c, e, l, d, reg);
    forall R0 ensures Loads(Den(c, e, l, R0), Den(d, Exp(VNONRELOC(reg), e.t, e.f), l, R0), reg) {
      assert Run(d, R0) == Into(c, e, Run(Eff(c, e), R0), reg);
      DischargedAt(c, e, l, d, reg, R0);
    }
  }

  lemma DischargedAt(c: Code, e: Exp, l: Lists, d: Code, reg: Reg, R0: Regs)
    requires WfExp(c, e, l) && !e.k.VJMP? && Kept(Eff(c, e), d, d.pend) && d.pend == Eff(c, e).pend
    requires Run(d, R0) == Into(c, e, Run(Eff(c, e), R0), reg)
    ensures Loads(Den(c, e, l, R0), Den(d, Exp(VNONRELOC(reg), e.t, e.f), l, R0), reg)
  {
    hide Wf, Run, WfList;
    var o := Run(Eff(c, e), R0);
    if o.Exit? && (o.j in l.ts || o.j in l.fs) {
      OwnKept(c, e, l, o.j);
      hide WfExp;
    }
  }

  // ----- branching on a value -----

  function Same(l: Lists, go: bool): seq<nat> {
    if go then l.ts else l.fs
  }

  /**
   How the run `o` of code that branches on an expression relates to what the
   expression stands for: it falls through, or leaves by a jump in `same`, when
   the value is `go`; it leaves by a jump in `diff` when it is not. Either way the
   jump knows the value.
   */
  ghost predicate GoRel(m: Meaning, o: Outcome, d: Code, same: seq<nat>, diff: seq<nat>, go: bool, lo: nat) {
    match m
    case Val(v, R) =>
      if o.Fall? then Truthy(v) == go && Agree(R, o.R, lo)
      else
        && o.Exit? && Agree(R, o.R, lo)
        && (if Truthy(v) == go then o.j in same && JumpVal(d, o.j, o.R, go) == v
            else o.j in diff && JumpVal(d, o.j, o.R, !go) == v)
    case Out(j, R) => o == Exit(j, R) && j !in same && j !in diff
    case Err => o == Error
    case Bad => o == Stuck
  }

  /** Jumps out of an expression carry values of the right truth. */
  lemma ExitTruth(c: Code, e: Exp, l: Lists, R0: Regs)
    requires WfExp(c, e, l) && Run(Eff(c, e), R0).Exit?
    ensures var o := Run(Eff(c, e), R0);
            && o.j in Eff(c, e).pend
            && (o.j in l.ts ==> Truthy(JumpVal(c, o.j, o.R, true)))
            && (o.j in l.fs ==> !Truthy(JumpVal(c, o.j, o.R, false)))
  {
    hide Wf, WfList, Eff, Mid, Exec;
    var b := Eff(c, e);
    EndNotMid(b);
    ExitFacts(b, b.base, R0);
    var o := Run(b, R0);
    if o.j in l.ts {
      OwnKept(c, e, l, o.j);
      ListTruth(b, e.t, l.ts, true, o.j);
    } else if o.j in l.fs {
      OwnKept(c, e, l, o.j);
      ListTruth(b, e.f, l.fs, false, o.j);
    }
  }

  lemma ListTruth(c: Code, head: int, l: seq<nat>, cond: bool, j: nat)
    requires WfList(c, head, l, cond) && j in l
    ensures 0 < j < |c.ins| && (c.ins[j - 1].TESTSET? ==> c.ins[j - 1].k == cond)
  {
  }

  /** Code `d` branches on the value of `e`, leaving by the jumps `extra`. */
  ghost predicate Forks(c: Code, e: Exp, d: Code, extra: seq<nat>, go: bool, lo: nat, R0: Regs)
    requires Shape(c, e)
  {
    var o := Run(Eff(c, e), R0);
    if o.Fall? then GoRel(Finish(c, e, o.R), Run(d, R0), d, [], extra, go, lo) else Run(d, R0) == o
  }

  /** The new jumps are pending jumps after the code of `e`. */
  ghost predicate Forked(c: Code, e: Exp, d: Code, extra: seq<nat>, go: bool)
    requires Shape(c, e)
  {
    && Wf(d) && Grown(c, d) && d.pend == Eff(c, e).pend + Elems(extra)
    && WfList(d, Head(extra, 0), extra, !go)
    && (forall j :: j in extra ==> j !in Eff(c, e).pend)
    && Kept(Eff(c, e), d, Eff(c, e).pend)
  }

  lemma GoFrom(c: Code, e: Exp, l: Lists, d: Code, extra: seq<nat>, go: bool, lo: nat, R0: Regs)
    requires WfExp(c, e, l) && Forked(c, e, d, extra, go) && Forks(c, e, d, extra, go, lo, R0)
    ensures GoRel(Den(c, e, l, R0), Run(d, R0), d, Same(l, go), Same(l, !go) + extra, go, lo)
  {
    var b := Eff(c, e);
    var o := Run(b, R0);
    if o.Exit? {
      ExitTruth(c, e, l, R0);
      if o.j in l.ts || o.j in l.fs {
        OwnKept(c, e, l, o.j);
      }
    }
  }

  /** A constant of the known truth needs no code. */
  lemma ForkConst(c: Code, e: Exp, l: Lists, go: bool, lo: nat)
    requires WfExp(c, e, l) && !e.k.VJMP? && !e.k.VRELOC? && Wf(c) && c.base <= |c.ins|
    requires forall R :: Finish(c, e, R).Val? && Truthy(Finish(c, e, R).v) == go && Finish(c, e, R).R == R
    ensures Forked(c, e, c, [], go)
    ensures forall R0 :: Forks(c, e, c, [], go, lo, R0)
  {
  }

  /** A test and a pending jump appended to the code of an expression. */
  ghost predicate Tail(c: Code, e: Exp, d: Code, i: Instr, j: nat)
    requires Shape(c, e)
  {
    && Grown(c, d) && Prefix(Eff(c, e), d) && d.last == Eff(c, e).last
    && |d.ins| == |Eff(c, e).ins| + 2 && j == |Eff(c, e).ins| + 1
    && d.ins[j - 1] == i && d.ins[j] == JMP(NO_JUMP)
    && d.pend == Eff(c, e).pend + {j}
    && IsTest(i) && (i.TESTSET? ==> i.a == NO_REG) && (i.EQK? ==> i.kb < |d.ks|)
  }

  lemma TailForked(c: Code, e: Exp, l: Lists, d: Code, i: Instr, j: nat, go: bool)
    requires WfExp(c, e, l) && Tail(c, e, d, i, j) && (i.TESTSET? ==> i.k == !go)
    ensures Forked(c, e, d, [j], go)
    ensures forall R0 :: Run(d, R0) == Branch(Run(Eff(c, e), R0), i, d.ks, j)
  {
    hide Mid, WfAt, Run, Branch, WfList, Eff, Wf, Prefix, Kept;
    var b := Eff(c, e);
    AppendCond(b, d, i);
    TailKept(b, d, j, i, !go);
  }

  lemma TailKept(b: Code, d: Code, j: nat, i: Instr, cond: bool)
    requires Wf(b) && Prefix(b, d) && |d.ins| == |b.ins| + 2 && j == |b.ins| + 1
    requires d.ins[j - 1] == i && d.ins[j] == JMP(NO_JUMP) && d.pend == b.pend + {j} && (i.TESTSET? ==> i.k == cond)
    ensures Kept(b, d, b.pend) && WfList(d, Head([j], 0), [j], cond) && Elems([j]) == {j} && j !in b.pend
  {
    hide Mid, WfAt;
  }

  /** `i` with its condition flipped if `go`. */
  function Flip(i: Instr, go: bool): Instr {
    match i
    case CMP(o, a, b, k) => CMP(o, a, b, k != go)
    case EQK(a, b, k) => EQK(a, b, k != go)
    case CMPI(o, a, b, k) => CMPI(o, a, b, k != go)
    case CMPR(o, a, b, k) => CMPR(o, a, b, k != go)
    case _ => i
  }

  /** A condition becomes a branch by negating its test if it has to jump when false. */
  lemma ForkJump(c: Code, e: Exp, l: Lists, d: Code, i: Instr, go: bool, lo: nat)
    requires WfExp(c, e, l) && e.k.VJMP? && d.ks == c.ks && Tail(c, e, d, i, e.k.jmp)
    requires i == Flip(c.ins[|c.ins| - 2], go)
    ensures Forked(c, e, d, [e.k.jmp], go)
    ensures forall R0 :: Forks(c, e, d, [e.k.jmp], go, lo, R0)
  {
    TailForked(c, e, l, d, i, e.k.jmp, go);
    forall R0 ensures Forks(c, e, d, [e.k.jmp], go, lo, R0) {
      ForkJumpAt(c, e, d, i, go, lo, R0);
    }
  }

  lemma ForkJumpAt(c: Code, e: Exp, d: Code, i: Instr, go: bool, lo: nat, R0: Regs)
    requires Shape(c, e) && e.k.VJMP? && d.ks == c.ks && |d.ins| == |c.ins| && d.ins[|c.ins| - 2] == i
    requires i == Flip(c.ins[|c.ins| - 2], go)
    requires Run(d, R0) == Branch(Run(Eff(c, e), R0), i, d.ks, e.k.jmp)
    ensures Forks(c, e, d, [e.k.jmp], go, lo, R0)
  {
    hide Run, Eff;
    var o := Run(Eff(c, e), R0);
    if o.Fall? {
      assert Tested(i, d.ks, o.R) == Tested(c.ins[|c.ins| - 2], c.ks, o.R);
    }
  }

  /** A removed `not` inverts the test of its operand. */
  lemma ForkNot(c: Code, e: Exp, l: Lists, d: Code, i: Instr, j: nat, go: bool, lo: nat)
    requires WfExp(c, e, l) && e.k.VRELOC? && Tail(c, e, d, i, j)
    requires i == TEST(c.ins[|c.ins| - 1].b, go)
    ensures Forked(c, e, d, [j], go)
    ensures forall R0 :: Forks(c, e, d, [j], go, lo, R0)
  {
    TailForked(c, e, l, d, i, j, go);
    forall R0 ensures Forks(c, e, d, [j], go, lo, R0) {
      ForkTestAt(c, e, d, i, j, go, lo, R0);
    }
  }

  /** A value in a register is tested, and kept by the test. */
  lemma ForkReg(c: Code, e: Exp, l: Lists, d: Code, i: Instr, j: nat, go: bool, lo: nat)
    requires WfExp(c, e, l) && e.k.VNONRELOC? && Tail(c, e, d, i, j)
    requires i == TESTSET(NO_REG, e.k.reg, !go)
    ensures Forked(c, e, d, [j], go)
    ensures forall R0 :: Forks(c, e, d, [j], go, lo, R0)
  {
    TailForked(c, e, l, d, i, j, go);
    forall R0 ensures Forks(c, e, d, [j], go, lo, R0) {
      ForkTestAt(c, e, d, i, j, go, lo, R0);
    }
  }

  lemma ForkTestAt(c: Code, e: Exp, d: Code, i: Instr, j: nat, go: bool, lo: nat, R0: Regs)
    requires Shape(c, e) && 0 < j < |d.ins| && d.ins[j - 1] == i
    requires (e.k.VRELOC? && i == TEST(c.ins[|c.ins| - 1].b, go)) || (e.k.VNONRELOC? && i == TESTSET(NO_REG, e.k.reg, !go))
    requires Run(d, R0) == Branch(Run(Eff(c, e), R0), i, d.ks, j)
    ensures Forks(c, e, d, [j], go, lo, R0)
  {
    hide Run, Eff;
  }

  // ----- joining and redirecting jumps -----

  /** Relinking one pending jump changes no run and no other jump. */
  lemma Relinked(c: Code, d: Code, x: nat, sj: int)
    requires Wf(c) && x in c.pend && x < |c.ins| && d == c.(ins := c.ins[x := JMP(sj)])
    ensures Wf(d)
    ensures forall R0 :: Run(d, R0) == Run(c, R0)
    ensures Kept(c, d, c.pend - {x})
    ensures forall j, R, cond :: JumpVal(d, j, R, cond) == JumpVal(c, j, R, cond)
  {
    assert Patched(c, d, {}) by {
      forall pc | c.base <= pc < |c.ins| ensures PatchedAt(c, d, pc) {}
    }
    forall j | j in d.pend ensures c.base < j < |d.ins| && (d.ins[j - 1].TESTSET? ==> d.ins[j - 1].a == NO_REG) {
      assert WfAt(c, j - 1);
    }
    PatchWf(c, d, {});
    RunLinked(c, d);
  }

  /** A test before a redirected jump: it writes `reg`, unless that would be useless. */
  function PatchTest(i: Instr, reg: Reg): Instr {
    if !i.TESTSET? then i
    else if reg != NO_REG && reg != i.b then TESTSET(reg, i.b, i.k)
    else TEST(i.b, i.k)
  }

  /** Where a jump goes: tests that produce a value to `vt`, others to `dt`. */
  function Dest(ins: seq<Instr>, j: nat, vt: nat, dt: nat): nat {
    if 0 < j <= |ins| && ins[j - 1].TESTSET? then vt else dt
  }

  /** The instruction at `pc` once the jumps in `S` are redirected. */
  function Redirect(ins: seq<Instr>, S: set<nat>, vt: nat, reg: Reg, dt: nat, pc: nat): Instr
    requires pc < |ins|
  {
    if pc in S then JMP(Dest(ins, pc, vt, dt) - (pc + 1))
    else if pc + 1 in S then PatchTest(ins[pc], reg)
    else ins[pc]
  }

  ghost predicate Redirected(c: Code, d: Code, S: set<nat>, vt: nat, reg: Reg, dt: nat) {
    && S <= c.pend
    && c.base == d.base && |c.ins| == |d.ins| && c.ks == d.ks && d.pend == c.pend - S
    && c.last <= d.last <= |d.ins|
    && (forall pc :: 0 <= pc < |c.ins| ==> d.ins[pc] == Redirect(c.ins, S, vt, reg, dt, pc))
  }

  /** Registers carried by a redirected jump. */
  function Carry(i: Instr, reg: Reg, R: Regs): Regs {
    if i.TESTSET? then Write(R, reg, R[i.b]) else R
  }

  /** How a run goes on once the jumps in `S` are redirected. */
  ghost function Resolve(c: Code, d: Code, S: set<nat>, o: Outcome, vt: nat, reg: Reg, dt: nat): Outcome {
    if o.Exit? && o.j in S && 0 < o.j <= |c.ins| then
      Exec(d, Dest(c.ins, o.j, vt, dt), Carry(c.ins[o.j - 1], reg, o.R))
    else o
  }

  lemma RedirectedPatched(c: Code, d: Code, S: set<nat>, vt: nat, reg: Reg, dt: nat)
    requires Wf(c) && Redirected(c, d, S, vt, reg, dt)
    ensures Patched(c, d, S)
    ensures Kept(c, d, c.pend - S)
  {
    forall pc | c.base <= pc < |c.ins| ensures PatchedAt(c, d, pc) {
      assert d.ins[pc] == Redirect(c.ins, S, vt, reg, dt, pc);
    }
    forall j | j in c.pend - S ensures 0 < j < |c.ins| && d.ins[j] == c.ins[j] && d.ins[j - 1] == c.ins[j - 1] {
      assert d.ins[j] == Redirect(c.ins, S, vt, reg, dt, j);
      assert d.ins[j - 1] == Redirect(c.ins, S, vt, reg, dt, j - 1);
      assert WfAt(c, j - 1);
    }
  }

  lemma RedirectedWf(c: Code, d: Code, S: set<nat>, vt: nat, reg: Reg, dt: nat)
    requires Wf(c) && Redirected(c, d, S, vt, reg, dt)
    requires forall j :: j in S ==> j < Dest(c.ins, j, vt, dt) && Target(d, Dest(c.ins, j, vt, dt))
    ensures Wf(d)
  {
    RedirectedPatched(c, d, S, vt, reg, dt);
    forall j | j in S && j in c.pend
      ensures j < |d.ins| && d.ins[j].JMP? && d.ins[j].sj >= 0 && Target(d, j + 1 + d.ins[j].sj)
    {
      assert d.ins[j] == Redirect(c.ins, S, vt, reg, dt, j);
    }
    forall j | j in d.pend ensures c.base < j < |d.ins| && (d.ins[j - 1].TESTSET? ==> d.ins[j - 1].a == NO_REG) {
      assert WfAt(c, j - 1);
    }
    PatchWf(c, d, S);
  }

  lemma RedirectedRun(c: Code, d: Code, S: set<nat>, vt: nat, reg: Reg, dt: nat, R0: Regs)
    requires Wf(c) && Wf(d) && Redirected(c, d, S, vt, reg, dt)
    requires forall j :: j in S ==> j < Dest(c.ins, j, vt, dt)
    ensures Run(d, R0) == Resolve(c, d, S, Run(c, R0), vt, reg, dt)
  {
    hide Wf, Patched, Kept, Mid, Exec, Land, Carry, Leap, Dest;
    RedirectedPatched(c, d, S, vt, reg, dt);
    EndNotMid(c);
    ExecPatched(c, d, S, c.base, R0);
    ExitFacts(c, c.base, R0);
    var o := Run(c, R0);
    if o.Exit? && o.j in S {
      LandCarry(c, d, S, vt, reg, dt, o.j, o.R);
    }
  }

  lemma LandCarry(c: Code, d: Code, S: set<nat>, vt: nat, reg: Reg, dt: nat, j: nat, R: Regs)
    requires Wf(c) && Redirected(c, d, S, vt, reg, dt) && j in S && j < Dest(c.ins, j, vt, dt)
    ensures 0 < j < |c.ins| && Leap(d, j, Land(d, j, R)) == Go(Dest(c.ins, j, vt, dt), Carry(c.ins[j - 1], reg, R))
  {
    assert d.ins[j] == Redirect(c.ins, S, vt, reg, dt, j);
    assert d.ins[j - 1] == Redirect(c.ins, S, vt, reg, dt, j - 1);
    assert IsTest(c.ins[j - 1]);
  }

  lemma JumpValKept(c: Code, d: Code, P: set<nat>, j: nat, R: Regs, cond: bool)
    requires Kept(c, d, P) && j in P
    ensures JumpVal(d, j, R, cond) == JumpVal(c, j, R, cond)
  {
  }

  /** Once the jumps in `same` lead here, the code only falls through for `go` values. */
  lemma GoHere(m: Meaning, c: Code, d: Code, same: seq<nat>, diff: seq<nat>, go: bool, lo: nat, R0: Regs)
    requires Wf(c) && Redirected(c, d, Elems(same), |c.ins|, NO_REG, |c.ins|) && d.last == |c.ins|
    requires GoRel(m, Run(c, R0), c, same, diff, go, lo)
    requires forall j :: j in diff ==> j in c.pend && j !in same
    ensures GoRel(m, Run(d, R0), d, [], diff, go, lo)
  {
    var S, n := Elems(same), |c.ins|;
    HereWf(c, d, S);
    RedirectedPatched(c, d, S, n, NO_REG, n);
    RedirectedRun(c, d, S, n, NO_REG, n, R0);
    var o := Run(c, R0);
    assert Dest(c.ins, 0, n, n) == n;
    hide Wf, Redirected, Kept, Run, JumpVal, Elems;
    if o.Exit? {
      assert o.j in S <==> o.j in same by { ElemsIn(same, o.j); }
      if o.j in S {
        assert Resolve(c, d, S, o, n, NO_REG, n) == Fall(o.R);
      } else if o.j in diff {
        JumpValKept(c, d, c.pend - S, o.j, o.R, !go);
      }
    }
  }

  lemma ElemsIn(l: seq<nat>, j: nat)
    ensures j in Elems(l) <==> j in l
  {
  }

  lemma HereWf(c: Code, d: Code, S: set<nat>)
    requires Wf(c) && Redirected(c, d, S, |c.ins|, NO_REG, |c.ins|) && d.last == |c.ins|
    ensures Wf(d)
    ensures forall j :: j in S ==> j < Dest(c.ins, j, |c.ins|, |c.ins|)
  {
    RedirectedPatched(c, d, S, |c.ins|, NO_REG, |c.ins|);
    EndNotMid(c);
    MidStays(c, d, S, |c.ins|);
    RedirectedWf(c, d, S, |c.ins|, NO_REG, |c.ins|);
  }

  // ----- bringing a value and its jumps together -----

  /** What is left to do: a run that falls through has the value in `reg`, one that
      leaves by a jump of the expression still knows it. */
  ghost predicate Ready(m: Meaning, o: Outcome, d: Code, ts: seq<nat>, fs: seq<nat>, reg: Reg) {
    match m
    case Val(v, R) =>
      if o.Fall? then o.R == R[reg := v]
      else
        && o.Exit? && (o.R == R || o.R == R[reg := v])
        && ((o.j in ts && JumpVal(d, o.j, o.R, true) == v) || (o.j in fs && JumpVal(d, o.j, o.R, false) == v))
    case Out(j, R) => o == Exit(j, R) && j !in ts && j !in fs
    case Err => o == Error
    case Bad => o == Stuck
  }

  /** What the code does once the value is in `reg` on every way to its end. */
  function Landed(m: Meaning, reg: Reg): Outcome {
    match m
    case Val(v, R) => Fall(R[reg := v])
    case Out(j, R) => Exit(j, R)
    case Err => Error
    case Bad => Stuck
  }

  /** Redirecting one of the two lists: tests that keep a value write it to `reg` and go
      to the end, the others go to code at `dt` that loads their truth value. */
  lemma ReadyPatch(m: Meaning, c: Code, d: Code, l: seq<nat>, other: seq<nat>, cond: bool, reg: Reg, dt: nat, R0: Regs)
    requires Wf(c) && Wf(d) && Redirected(c, d, Elems(l), |c.ins|, reg, dt)
    requires forall j :: j in l ==> j < Dest(c.ins, j, |c.ins|, dt)
    requires forall j :: j in other ==> j in c.pend && j !in l
    requires forall j, R: Regs :: j in l && 0 < j <= |c.ins| && !c.ins[j - 1].TESTSET? ==> Exec(d, dt, R) == Fall(R[reg := Bool(cond)])
    requires reg != NO_REG
    requires Ready(m, Run(c, R0), c, if cond then l else other, if cond then other else l, reg)
    ensures Ready(m, Run(d, R0), d, if cond then [] else other, if cond then other else [], reg)
  {
    var S, n := Elems(l), |c.ins|;
    RedirectedPatched(c, d, S, n, reg, dt);
    RedirectedRun(c, d, S, n, reg, dt, R0);
    var o := Run(c, R0);
    hide Wf, Redirected, Kept, Run, Elems;
    if o.Exit? {
      ElemsIn(l, o.j);
      if o.j in l {
        hide Ready;
        if o.j <= |c.ins| && 0 < o.j {
          ReadyLand(m, c, d, l, other, cond, reg, dt, o);
        }
      } else if o.j in other {
        JumpValKept(c, d, c.pend - S, o.j, o.R, !cond);
      }
    }
  }

  lemma ReadyLand(m: Meaning, c: Code, d: Code, l: seq<nat>, other: seq<nat>, cond: bool, reg: Reg, dt: nat, o: Outcome)
    requires o.Exit? && o.j in l && 0 < o.j <= |c.ins| == |d.ins| && reg != NO_REG && o.j !in other
    requires !c.ins[o.j - 1].TESTSET? ==> Exec(d, dt, o.R) == Fall(o.R[reg := Bool(cond)])
    requires Ready(m, o, c, if cond then l else other, if cond then other else l, reg)
    ensures m.Val? && Exec(d, Dest(c.ins, o.j, |c.ins|, dt), Carry(c.ins[o.j - 1], reg, o.R)) == Fall(m.R[reg := m.v])
  {
    var i := c.ins[o.j - 1];
    if i.TESTSET? {
      assert m.R[reg := m.v][reg := m.v] == m.R[reg := m.v];
      assert Exec(d, |d.ins|, Carry(i, reg, o.R)) == Fall(Carry(i, reg, o.R));
    } else {
      assert m.R[reg := m.v][reg := m.v] == m.R[reg := m.v];
    }
  }

  /** The code that loads a truth value for the tests that keep none. */
  predicate Bools(c: Code, pf: nat, reg: Reg) {
    && c.base < pf && |c.ins| == pf + 2 && c.last == |c.ins|
    && c.ins[pf] == LFALSESKIP(reg) && c.ins[pf + 1] == LOADTRUE(reg)
    && !Mid(c, pf)
  }

  lemma BoolsExec(c: Code, pf: nat, reg: Reg, R: Regs)
    requires Bools(c, pf, reg)
    ensures Exec(c, pf, R) == Fall(R[reg := Bool(false)])
    ensures Exec(c, pf + 1, R) == Fall(R[reg := Bool(true)])
  {
    assert Exec(c, pf + 2, R[reg := Bool(false)]) == Fall(R[reg := Bool(false)]);
    assert Exec(c, pf + 2, R[reg := Bool(true)]) == Fall(R[reg := Bool(true)]);
  }

  /** Loading code is appended after a jump around it. */
  lemma AppendAround(c: Code, d: Code, reg: Reg)
    requires Wf(c) && Prefix(c, d) && d.pend == c.pend && d.last == |d.ins| == |c.ins| + 3
    requires c.base < |c.ins| && d.ins[|c.ins|] == JMP(2) && Bools(d, |c.ins| + 1, reg)
    ensures Wf(d)
    ensures forall R0 :: Run(d, R0) == Run(c, R0)
  {
    var n := |c.ins|;
    EndNotMid(c);
    assert WfAt(d, n) && WfAt(d, n + 1) && WfAt(d, n + 2);
    AppendWf(c, d);
    hide Wf, Mid, WfAt, Bools;
    assert n !in d.pend;
    forall R0 ensures Run(d, R0) == Run(c, R0) {
      AroundRun(c, d, R0);
    }
  }

  /** The jump leads past the loading code. */
  lemma AroundRun(c: Code, d: Code, R0: Regs)
    requires Wf(c) && Wf(d) && Prefix(c, d) && |d.ins| == |c.ins| + 3 && d.ins[|c.ins|] == JMP(2) && |c.ins| !in d.pend
    requires c.base == d.base <= |c.ins|
    ensures Run(d, R0) == Run(c, R0)
  {
    hide Wf, Prefix;
    var n := |c.ins|;
    ExecAppend(c, d, c.base, R0);
    var o := Run(c, R0);
    if o.Fall? {
      assert Exec(d, n + 3, o.R) == Fall(o.R);
    }
  }

  /** Loading code right after a condition loads false when it falls through. */
  lemma AppendAfter(c: Code, d: Code, reg: Reg)
    requires Wf(c) && Prefix(c, d) && d.pend == c.pend && d.last == |d.ins| == |c.ins| + 2
    requires Bools(d, |c.ins|, reg)
    ensures Wf(d)
    ensures forall R0 :: Run(d, R0) == Put(Run(c, R0), reg, Bool(false))
  {
    var n := |c.ins|;
    EndNotMid(c);
    assert WfAt(d, n) && WfAt(d, n + 1);
    AppendWf(c, d);
    forall R0 ensures Run(d, R0) == Put(Run(c, R0), reg, Bool(false)) {
      ExecAppend(c, d, c.base, R0);
      var o := Run(c, R0);
      if o.Fall? {
        BoolsExec(d, n, reg, o.R);
      }
    }
  }

  /** Every jump in the list keeps its value. */
  predicate AllValues(c: Code, l: seq<nat>) {
    forall j :: j in l ==> 0 < j <= |c.ins| && c.ins[j - 1].TESTSET?
  }

  lemma RedirectBools(c: Code, d: Code, l: seq<nat>, reg: Reg, pf: nat, dt: nat)
    requires Wf(c) && c.last == |c.ins| && Redirected(c, d, Elems(l), |c.ins|, reg, dt)
    requires AllValues(c, l) || (Bools(c, pf, reg) && (dt == pf || dt == pf + 1))
    ensures Wf(d) && d.last == |d.ins|
    ensures Bools(c, pf, reg) ==> Bools(d, pf, reg)
    ensures forall j :: j in l ==> j < Dest(c.ins, j, |c.ins|, dt)
  {
    var S, n := Elems(l), |c.ins|;
    RedirectedPatched(c, d, S, n, reg, dt);
    EndNotMid(c);
    MidStays(c, d, S, n);
    if Bools(c, pf, reg) {
      MidStays(c, d, S, pf);
      MidStays(c, d, S, pf + 1);
      assert d.ins[pf] == Redirect(c.ins, S, n, reg, dt, pf);
      assert d.ins[pf + 1] == Redirect(c.ins, S, n, reg, dt, pf + 1);
    }
    forall j | j in S ensures j < Dest(c.ins, j, n, dt) && Target(d, Dest(c.ins, j, n, dt)) {
      assert IsTest(c.ins[j - 1]);
      if !c.ins[j - 1].TESTSET? {
        assert c.ins[j].JMP?;
      }
    }
    RedirectedWf(c, d, S, n, reg, dt);
  }

  /** After both lists are redirected, the value is in the register. */
  lemma PatchBoth(c: Code, d1: Code, d2: Code, ts: seq<nat>, fs: seq<nat>, reg: Reg, pf: nat, df: nat, dt: nat)
    requires Wf(c) && c.last == |c.ins| && reg != NO_REG
    requires Redirected(c, d1, Elems(fs), |c.ins|, reg, df) && Redirected(d1, d2, Elems(ts), |c.ins|, reg, dt)
    requires (AllValues(c, ts) && AllValues(c, fs)) || (Bools(c, pf, reg) && df == pf && dt == pf + 1)
    requires forall j :: j in ts ==> j in c.pend && j !in fs
    ensures Wf(d2) && Kept(c, d2, c.pend - Elems(ts) - Elems(fs))
    ensures forall R0, m :: Ready(m, Run(c, R0), c, ts, fs, reg) ==> Run(d2, R0) == Landed(m, reg)
  {
    RedirectBools(c, d1, fs, reg, pf, df);
    RedirectedPatched(c, d1, Elems(fs), |c.ins|, reg, df);
    ValuesKept(c, d1, ts, fs);
    RedirectBools(d1, d2, ts, reg, pf, dt);
    RedirectedPatched(d1, d2, Elems(ts), |c.ins|, reg, dt);
    forall R0, m | Ready(m, Run(c, R0), c, ts, fs, reg) ensures Run(d2, R0) == Landed(m, reg) {
      PatchBothRun(c, d1, d2, ts, fs, reg, pf, df, dt, R0, m);
    }
  }

  lemma ValuesKept(c: Code, d: Code, ts: seq<nat>, fs: seq<nat>)
    requires Kept(c, d, c.pend - Elems(fs))
    requires forall j :: j in ts ==> j in c.pend && j !in fs
    ensures AllValues(c, ts) ==> AllValues(d, ts)
  {
    forall j | j in ts ensures j in c.pend - Elems(fs) {}
  }

  lemma PatchBothRun(c: Code, d1: Code, d2: Code, ts: seq<nat>, fs: seq<nat>, reg: Reg, pf: nat, df: nat, dt: nat, R0: Regs, m: Meaning)
    requires Wf(c) && Wf(d1) && Wf(d2) && c.last == |c.ins| && reg != NO_REG
    requires Redirected(c, d1, Elems(fs), |c.ins|, reg, df) && Redirected(d1, d2, Elems(ts), |c.ins|, reg, dt)
    requires (AllValues(c, fs) && AllValues(d1, ts)) || (Bools(d1, pf, reg) && Bools(d2, pf, reg) && df == pf && dt == pf + 1)
    requires forall j :: j in ts ==> j in c.pend && j !in fs
    requires forall j :: j in fs ==> j < Dest(c.ins, j, |c.ins|, df)
    requires forall j :: j in ts ==> j < Dest(d1.ins, j, |c.ins|, dt)
    requires Ready(m, Run(c, R0), c, ts, fs, reg)
    ensures Run(d2, R0) == Landed(m, reg)
  {
    hide Wf, Exec, Run, Dest, Ready, Redirect, Elems, Bools;
    forall j, R: Regs | j in fs && 0 < j <= |c.ins| && !c.ins[j - 1].TESTSET?
      ensures Exec(d1, df, R) == Fall(R[reg := Bool(false)])
    {
      BoolsExec(d1, pf, reg, R);
    }
    ReadyPatch(m, c, d1, fs, ts, false, reg, df, R0);
    forall j, R: Regs | j in ts && 0 < j <= |d1.ins| && !d1.ins[j - 1].TESTSET?
      ensures Exec(d2, dt, R) == Fall(R[reg := Bool(true)])
    {
      BoolsExec(d2, pf, reg, R);
    }
    ReadyPatch(m, d1, d2, ts, [], true, reg, dt, R0);
    ReadyLanded(m, Run(d2, R0), d2, reg);
  }

  lemma ReadyLanded(m: Meaning, o: Outcome, d: Code, reg: Reg)
    requires Ready(m, o, d, [], [], reg)
    ensures o == Landed(m, reg)
  {
  }

  // ----- negation -----

  /** The instruction at `pc` once no test before a jump in `S` keeps its value. */
  function Unvalued(ins: seq<Instr>, S: set<nat>, pc: nat): Instr
    requires pc < |ins|
  {
    if pc + 1 in S then PatchTest(ins[pc], NO_REG) else ins[pc]
  }

  ghost predicate ValuesRemoved(c: Code, d: Code, S: set<nat>) {
    && |d.ins| == |c.ins| && d == c.(ins := d.ins)
    && (forall pc :: 0 <= pc < |c.ins| ==> d.ins[pc] == Unvalued(c.ins, S, pc))
  }

  lemma RemovedRun(c: Code, d: Code, S: set<nat>)
    requires Wf(c) && ValuesRemoved(c, d, S) && S <= c.pend
    ensures Wf(d) && Kept(c, d, c.pend - S)
    ensures forall R0 :: Run(d, R0) == Run(c, R0)
    ensures forall j :: j in S ==> 0 < j < |d.ins| && !d.ins[j - 1].TESTSET? && d.ins[j] == c.ins[j]
  {
    assert Patched(c, d, {}) by {
      forall pc | c.base <= pc < |c.ins| ensures PatchedAt(c, d, pc) {
        assert d.ins[pc] == Unvalued(c.ins, S, pc);
      }
    }
    forall j | j in c.pend
      ensures c.base < j < |d.ins| && (d.ins[j - 1].TESTSET? ==> d.ins[j - 1].a == NO_REG)
      ensures d.ins[j] == c.ins[j]
      ensures d.ins[j - 1] == if j in S then PatchTest(c.ins[j - 1], NO_REG) else c.ins[j - 1]
    {
      assert WfAt(c, j - 1);
      assert d.ins[j - 1] == Unvalued(c.ins, S, j - 1);
      assert d.ins[j] == Unvalued(c.ins, S, j);
    }
    PatchWf(c, d, {});
    RunLinked(c, d);
  }

  function Negate(m: Meaning): Meaning {
    if m.Val? then Val(Bool(!Truthy(m.v)), m.R) else m
  }

  /** A descriptor whose lists are exchanged and keep no values, and whose own value
      is negated, stands for the negation. */
  lemma NotMeaning(c: Code, e: Exp, l: Lists, d: Code, e': Exp, R0: Regs)
    requires WfExp(c, e, l) && Shape(d, e')
    requires Run(Eff(d, e'), R0) == Run(Eff(c, e), R0)
    requires forall j :: j in l.ts || j in l.fs ==> 0 < j < |d.ins| && !d.ins[j - 1].TESTSET?
    requires forall R :: Finish(d, e', R) == Negate(Finish(c, e, R))
    ensures Den(d, e', Lists(l.fs, l.ts), R0) == Negate(Den(c, e, l, R0))
  {
    hide Wf, WfList, Eff, Run, Finish;
    if Run(Eff(c, e), R0).Exit? {
      ExitTruth(c, e, l, R0);
    }
  }

  // ----- what appending keeps -----

  lemma PrefixKept(c: Code, d: Code)
    requires Wf(c) && Prefix(c, d)
    ensures Kept(c, d, c.pend) && Grown(c, d)
  {
  }

  lemma MergeKept(c: Code, d: Code)
    requires Wf(c) && c.base < |c.ins| && c.last < |c.ins| && IsPlain(c.ins[|c.ins| - 1])
    requires Prefix(Cut(c, 1), d) && |d.ins| == |c.ins|
    ensures Kept(c, d, c.pend) && Grown(c, d)
  {
    CutWf(c);
    PrefixKept(Cut(c, 1), d);
  }

  lemma AppendNil(c: Code, d: Code, from: nat, m: nat)
    requires Wf(c) && Prefix(c, d) && d.pend == c.pend && d.last == c.last && from < 256
    requires |d.ins| == |c.ins| + 1 && d.ins[|c.ins|] == LOADNIL(from, m)
    ensures Wf(d) && Kept(c, d, c.pend) && Grown(c, d)
    ensures forall R0 :: Run(d, R0) == Nils(Run(c, R0), from, m)
  {
    AppendOne(c, d, LOADNIL(from, m));
    PrefixKept(c, d);
    assert forall R: Regs, ks :: Plain(LOADNIL(from, m), ks, R) == WriteNil(R, from, m);
  }

  lemma ChainAt(ins: seq<Instr>, head: int, l: seq<nat>, i: nat)
    requires Chain(ins, head, l) && i < |l|
    ensures l[i] < |ins| && ins[l[i]].JMP? && NextJump(ins, l[i]) == Head(l, i + 1) && l[i] in l
  {
  }

  /** The first `i` members of a list. */
  ghost function Upto(l: seq<nat>, i: nat): set<nat>
    requires i <= |l|
  {
    set n | 0 <= n < i :: l[n]
  }

  lemma UptoNext(ins: seq<Instr>, head: int, l: seq<nat>, i: nat)
    requires Chain(ins, head, l) && i < |l|
    ensures Upto(l, i + 1) == Upto(l, i) + {l[i]} && l[i] !in Upto(l, i)
    ensures forall j :: j in Upto(l, i) ==> j < |ins| && ins[j].JMP?
  {
  }

  lemma UptoAll(l: seq<nat>)
    ensures Upto(l, 0) == {} && Upto(l, |l|) == Elems(l)
  {
  }

  /** The code once the last jump of the first list links to the second. */
  function Joined(ins: seq<Instr>, s1: seq<nat>, s2: seq<nat>): seq<Instr> {
    if s1 == [] || s2 == [] || s1[|s1| - 1] >= |ins| then ins
    else ins[s1[|s1| - 1] := JMP(s2[0] as int - s1[|s1| - 1] - 1)]
  }

  lemma ChainJoin(ins: seq<Instr>, l1: int, l2: int, s1: seq<nat>, s2: seq<nat>)
    requires Chain(ins, l1, s1) && Chain(ins, l2, s2) && s1 != [] && s2 != []
    requires forall j :: j in s1 ==> j !in s2
    ensures Chain(Joined(ins, s1, s2), l1, s1 + s2)
  {
    hide Chain;
    var s, n, ins' := s1 + s2, |s1|, Joined(ins, s1, s2);
    ChainAt(ins, l1, s1, n - 1);
    assert s2[0] in s2;
    forall i | 0 <= i < |s|
      ensures s[i] < |ins'| && ins'[s[i]].JMP? && NextJump(ins', s[i]) == Head(s, i + 1)
    {
      if i < n {
        ChainAt(ins, l1, s1, i);
        if i < n - 1 {
          ChainDistinct(ins, l1, s1, i, n - 1);
        }
      } else {
        ChainAt(ins, l2, s2, i - n);
        assert s2[i - n] in s2 && s1[n - 1] in s1;
      }
    }
    forall i, m | 0 <= i < m < |s| ensures s[i] != s[m] {
      if m < n {
        ChainDistinct(ins, l1, s1, i, m);
      } else if i < n {
        assert s[i] in s1 && s[m] in s2;
      } else {
        ChainDistinct(ins, l2, s2, i - n, m - n);
      }
    }
    ChainHead(ins, l1, s1);
    ChainIs(ins', l1, s);
  }

  lemma ChainDistinct(ins: seq<Instr>, head: int, l: seq<nat>, i: nat, m: nat)
    requires Chain(ins, head, l) && i < m < |l|
    ensures l[i] != l[m]
  {
  }

  lemma ChainHead(ins: seq<Instr>, head: int, l: seq<nat>)
    requires Chain(ins, head, l)
    ensures head == Head(l, 0)
  {
  }

  lemma ChainIs(ins: seq<Instr>, head: int, l: seq<nat>)
    requires head == Head(l, 0)
    requires forall i :: 0 <= i < |l| ==> l[i] < |ins| && ins[l[i]].JMP? && NextJump(ins, l[i]) == Head(l, i + 1)
    requires forall i, n :: 0 <= i < n < |l| ==> l[i] != l[n]
    ensures Chain(ins, head, l)
  {
  }

  /** One more test loses its value. */
  lemma UnvaluedMore(ins: seq<Instr>, S: set<nat>, j: nat)
    requires 0 < j < |ins| && ins[j].JMP? && j !in S
    requires forall x :: x in S ==> x < |ins| && ins[x].JMP?
    ensures Unvalued(ins, S, j) == ins[j]
    ensures Unvalued(ins, S + {j}, j) == ins[j]
    ensures Unvalued(ins, S + {j}, j - 1) == PatchTest(Unvalued(ins, S, j - 1), NO_REG)
    ensures forall pc :: 0 <= pc < |ins| && pc != j - 1 ==> Unvalued(ins, S + {j}, pc) == Unvalued(ins, S, pc)
  {
  }

  lemma RedirectNone(ins: seq<Instr>, vt: nat, reg: Reg, dt: nat)
    ensures forall pc :: 0 <= pc < |ins| ==> Redirect(ins, {}, vt, reg, dt, pc) == ins[pc]
  {
  }

  /** One more jump is redirected. */
  lemma RedirectMore(ins: seq<Instr>, S: set<nat>, vt: nat, reg: Reg, dt: nat, j: nat)
    requires 0 < j < |ins| && ins[j].JMP? && j !in S
    requires forall x :: x in S ==> x < |ins| && ins[x].JMP?
    ensures Redirect(ins, S, vt, reg, dt, j) == ins[j]
    ensures Redirect(ins, S, vt, reg, dt, j - 1).TESTSET? == ins[j - 1].TESTSET?
    ensures Redirect(ins, S + {j}, vt, reg, dt, j) == JMP(Dest(ins, j, vt, dt) - (j + 1))
    ensures Redirect(ins, S + {j}, vt, reg, dt, j - 1) == PatchTest(Redirect(ins, S, vt, reg, dt, j - 1), reg)
    ensures forall pc :: 0 <= pc < |ins| && pc != j && pc != j - 1 ==>
              Redirect(ins, S + {j}, vt, reg, dt, pc) == Redirect(ins, S, vt, reg, dt, pc)
  {
  }

  // ----- ways to load a value -----

  /** One plain instruction after the code of `e` writes its value to `reg`. */
  lemma DischargeOne(c: Code, e: Exp, l: Lists, d: Code, reg: Reg, i: Instr)
    requires WfExp(c, e, l) && !e.k.VJMP? && Grown(c, d)
    requires Prefix(Eff(c, e), d) && d.pend == Eff(c, e).pend && d.last == Eff(c, e).last
    requires |d.ins| == |Eff(c, e).ins| + 1 && d.ins[|Eff(c, e).ins|] == i
    requires IsPlain(i) && (i.LOADK? ==> i.bx < |d.ks|)
    requires forall R :: Into(c, e, Fall(R), reg) == Fall(Plain(i, d.ks, R))
    ensures Moved(c, e, l, d, Exp(VNONRELOC(reg), e.t, e.f), l)
    ensures forall R0 :: Loads(Den(c, e, l, R0), Den(d, Exp(VNONRELOC(reg), e.t, e.f), l, R0), reg)
  {
    hide Wf, Prefix, Eff, Plain, Run, Kept, Finish, WfList, Moved, Den, Loads, Grown;
    var b := Eff(c, e);
    AppendOne(b, d, i);
    PrefixKept(b, d);
    forall R0 ensures Run(d, R0) == Into(c, e, Run(b, R0), reg) {
      var o := Run(b, R0);
      if o.Fall? {
        assert Into(c, e, Fall(o.R), reg) == Fall(Plain(i, d.ks, o.R));
      }
    }
    Discharged(c, e, l, d, reg);
  }

  /** What loading constant `k` appends. */
  function LoadK(reg: Reg, k: nat): seq<Instr> {
    if k <= MAXARG_Bx then [LOADK(reg, k)] else [LOADKX(reg), EXTRAARG(k)]
  }

  lemma DischargeK(c: Code, e: Exp, l: Lists, d: Code, reg: Reg, k: nat)
    requires WfExp(c, e, l) && !e.k.VJMP? && !e.k.VRELOC? && Grown(c, d)
    requires d.ins == c.ins + LoadK(reg, k) && d.pend == c.pend && d.last == c.last && k < |d.ks|
    requires forall R :: Finish(c, e, R) == Val(d.ks[k], R)
    ensures Moved(c, e, l, d, Exp(VNONRELOC(reg), e.t, e.f), l)
    ensures forall R0 :: Loads(Den(c, e, l, R0), Den(d, Exp(VNONRELOC(reg), e.t, e.f), l, R0), reg)
  {
    hide Wf, Run, Kept, WfList, Moved, Den, Loads;
    assert Eff(c, e) == c;
    assert Prefix(c, d);
    if k <= MAXARG_Bx {
      var i := LOADK(reg, k);
      forall R ensures Into(c, e, Fall(R), reg) == Fall(Plain(i, d.ks, R)) {
        assert Finish(c, e, R) == Val(d.ks[k], R);
      }
      DischargeOne(c, e, l, d, reg, i);
    } else {
      AppendLoadKX(c, d, reg, k);
      PrefixKept(c, d);
      forall R0 ensures Run(d, R0) == Into(c, e, Run(c, R0), reg) {
        var o := Run(c, R0);
        if o.Fall? {
          assert Finish(c, e, o.R) == Val(d.ks[k], o.R);
        }
      }
      Discharged(c, e, l, d, reg);
    }
  }

  lemma DischargeNil(c: Code, e: Exp, l: Lists, d: Code, reg: Reg)
    requires WfExp(c, e, l) && e.k.VNIL? && Grown(c, d)
    requires Wf(d) && d.pend == c.pend && Kept(c, d, d.pend)
    requires forall R0 :: Run(d, R0) == Nils(Run(c, R0), reg, 0)
    ensures Moved(c, e, l, d, Exp(VNONRELOC(reg), e.t, e.f), l)
    ensures forall R0 :: Loads(Den(c, e, l, R0), Den(d, Exp(VNONRELOC(reg), e.t, e.f), l, R0), reg)
  {
    hide Wf, Run, Kept, WfList, Moved, Den, Loads, Grown;
    forall R0 ensures Run(d, R0) == Into(c, e, Run(c, R0), reg) {
      assert Run(d, R0) == Nils(Run(c, R0), reg, 0);
    }
    Discharged(c, e, l, d, reg);
  }

  /** A value already in the register. */
  lemma DischargeNone(c: Code, e: Exp, l: Lists, reg: Reg)
    requires WfExp(c, e, l) && (e.k == VNONRELOC(reg) || e.k == VLOCAL(reg))
    ensures Moved(c, e, l, c, Exp(VNONRELOC(reg), e.t, e.f), l)
    ensures forall R0 :: Loads(Den(c, e, l, R0), Den(c, Exp(VNONRELOC(reg), e.t, e.f), l, R0), reg)
  {
    hide Run, WfList;
    PrefixKept(c, c);
  }

  /** The instruction that brings the value of `e` to `reg`. */
  function Loader(c: Code, e: Exp, reg: Reg): Instr
    requires Shape(c, e)
  {
    match e.k
    case VFALSE => LOADFALSE(reg)
    case VTRUE => LOADTRUE(reg)
    case VKINT(i) => LOADI(reg, i)
    case VLOCAL(r) => MOVE(reg, r)
    case VNONRELOC(r) => MOVE(reg, r)
    case VRELOC(pc) => NOT(reg, c.ins[pc].b)
    case _ => LOADNIL(reg, 0)
  }

  lemma DischargeLoad(c: Code, e: Exp, l: Lists, d: Code, reg: Reg)
    requires WfExp(c, e, l) && !e.k.VJMP? && !e.k.VK? && !e.k.VKSTR?
    requires d.base == c.base && d.last == c.last && d.ks == c.ks && d.pend == c.pend
    requires d.ins == Eff(c, e).ins + [Loader(c, e, reg)]
    ensures Moved(c, e, l, d, Exp(VNONRELOC(reg), e.t, e.f), l)
    ensures forall R0 :: Loads(Den(c, e, l, R0), Den(d, Exp(VNONRELOC(reg), e.t, e.f), l, R0), reg)
  {
    hide Wf, Run, Kept, WfList, Moved, Den, Loads;
    assert Grown(c, d) && Prefix(Eff(c, e), d) by { LoadGrown(c, e, l, d, reg); }
    DischargeOne(c, e, l, d, reg, Loader(c, e, reg));
  }

  lemma LoadGrown(c: Code, e: Exp, l: Lists, d: Code, reg: Reg)
    requires WfExp(c, e, l) && !e.k.VJMP?
    requires d.base == c.base && d.last == c.last && d.ks == c.ks && d.pend == c.pend
    requires d.ins == Eff(c, e).ins + [Loader(c, e, reg)]
    ensures Grown(c, d) && Prefix(Eff(c, e), d)
  {
  }

  // ----- the final result in a register -----

  /** Every way out of `e` but to its end is a jump in one of its lists that knows the value. */
  ghost predicate Prepared(c: Code, e: Exp, l: Lists, d: Code, ts: seq<nat>, fs: seq<nat>, reg: Reg)
    requires Shape(c, e)
  {
    && Wf(d) && Grown(c, d)
    && d.pend == Rest(c, e, l) + Elems(ts) + Elems(fs)
    && (forall j :: j in ts ==> j !in fs)
    && (forall j :: j in Rest(c, e, l) ==> j !in ts && j !in fs)
    && Kept(c, d, Rest(c, e, l))
    && forall R0 :: Ready(Den(c, e, l, R0), Run(d, R0), d, ts, fs, reg)
  }

  /** The code leaves the value of `e` in `reg`, changes nothing else, and goes
      everywhere else as before. */
  ghost predicate Materialized(c: Code, e: Exp, l: Lists, d: Code, reg: Reg)
    requires Shape(c, e)
  {
    && Wf(d) && Grown(c, d)
    && d.pend == Rest(c, e, l)
    && Kept(c, d, Rest(c, e, l))
    && forall R0 :: Run(d, R0) == Landed(Den(c, e, l, R0), reg)
  }

  lemma ReadyLoads(m: Meaning, d: Code, e: Exp, l: Lists, reg: Reg, R0: Regs)
    requires e.k == VNONRELOC(reg) && Loads(m, Den(d, e, l, R0), reg)
    ensures Ready(m, Run(d, R0), d, l.ts, l.fs, reg)
  {
    hide Run;
  }

  lemma PlainPrepared(c: Code, e: Exp, l: Lists, d: Code, e': Exp, reg: Reg)
    requires Moved(c, e, l, d, e', l) && e'.k == VNONRELOC(reg)
    requires forall R0 :: Loads(Den(c, e, l, R0), Den(d, e', l, R0), reg)
    ensures Prepared(c, e, l, d, l.ts, l.fs, reg)
  {
    hide Run, Wf, Ready, Den, Loads, Kept, Grown, Chain;
    forall R0 ensures Ready(Den(c, e, l, R0), Run(d, R0), d, l.ts, l.fs, reg) {
      ReadyLoads(Den(c, e, l, R0), d, e', l, reg, R0);
    }
    assert Own(e', l) == Elems(l.ts) + Elems(l.fs);
    assert Elems(l.ts) <= d.pend && Elems(l.fs) <= d.pend;
  }

  lemma PreparedNone(c: Code, e: Exp, l: Lists, d: Code, reg: Reg)
    requires Shape(c, e) && Prepared(c, e, l, d, [], [], reg)
    ensures Materialized(c, e, l, d, reg)
  {
    hide Run, Wf, Ready, Den, Kept, Grown, Rest;
    forall R0 ensures Run(d, R0) == Landed(Den(c, e, l, R0), reg) {
      ReadyLanded(Den(c, e, l, R0), Run(d, R0), d, reg);
    }
  }

  lemma LabelRun(c: Code, d: Code)
    requires Wf(c) && d == c.(last := |c.ins|)
    ensures Wf(d) && Kept(c, d, c.pend)
    ensures forall R0 :: Run(d, R0) == Run(c, R0)
  {
    AppendWf(c, d);
    EndNotMid(c);
    forall R0 ensures Run(d, R0) == Run(c, R0) {
      ExecAppend(c, d, c.base, R0);
      assert forall R :: Exec(d, |d.ins|, R) == Fall(R);
    }
  }

  /** Appended code that falls through to the end changes nothing. */
  lemma PreparedOn(c: Code, e: Exp, l: Lists, d: Code, d': Code, ts: seq<nat>, fs: seq<nat>, reg: Reg)
    requires Shape(c, e) && Prepared(c, e, l, d, ts, fs, reg)
    requires Wf(d') && Grown(d, d') && d'.pend == d.pend && Kept(d, d', d.pend)
    requires forall R0 :: Run(d', R0) == Run(d, R0)
    ensures Prepared(c, e, l, d', ts, fs, reg)
  {
    hide Run, Wf, Den, Rest;
    forall R0 ensures Ready(Den(c, e, l, R0), Run(d', R0), d', ts, fs, reg) {
      assert Ready(Den(c, e, l, R0), Run(d, R0), d, ts, fs, reg);
      hide Grown;
      var o := Run(d, R0);
      if o.Exit? && (o.j in ts || o.j in fs) {
        JumpValKept(d, d', d.pend, o.j, o.R, true);
        JumpValKept(d, d', d.pend, o.j, o.R, false);
      }
    }
  }

  /** Both lists redirected: the value is in the register. */
  lemma PreparedPatch(c: Code, e: Exp, l: Lists, d: Code, d1: Code, d2: Code,
                      ts: seq<nat>, fs: seq<nat>, reg: Reg, pf: nat, df: nat, dt: nat)
    requires Shape(c, e) && Prepared(c, e, l, d, ts, fs, reg) && d.last == |d.ins| && reg != NO_REG
    requires Redirected(d, d1, Elems(fs), |d.ins|, reg, df) && Redirected(d1, d2, Elems(ts), |d.ins|, reg, dt)
    requires (AllValues(d, ts) && AllValues(d, fs)) || (Bools(d, pf, reg) && df == pf && dt == pf + 1)
    requires Grown(d, d2)
    ensures Materialized(c, e, l, d2, reg)
  {
    hide Run, Wf, Den, Rest, Ready, AllValues, Bools, Landed, Redirect;
    PatchBoth(d, d1, d2, ts, fs, reg, pf, df, dt);
    forall R0 ensures Run(d2, R0) == Landed(Den(c, e, l, R0), reg) {
      assert Ready(Den(c, e, l, R0), Run(d, R0), d, ts, fs, reg);
    }
    assert d.pend - Elems(ts) - Elems(fs) == Rest(c, e, l);
  }

  /** A condition with its jump is complete code. */
  lemma CondWf(c: Code, e: Exp, l: Lists)
    requires WfExp(c, e, l) && e.k.VJMP?
    ensures Wf(c) && e.k.jmp == |c.ins| - 1 && IsTest(c.ins[|c.ins| - 2])
    ensures forall R0 :: Run(c, R0) == Branch(Run(Eff(c, e), R0), c.ins[|c.ins| - 2], c.ks, e.k.jmp)
    ensures Kept(Eff(c, e), c, Eff(c, e).pend) && Eff(c, e).pend == c.pend - {e.k.jmp} && |Eff(c, e).ins| == |c.ins| - 2
  {
    hide Branch, Run, WfList, Mid, WfAt;
    var b := Eff(c, e);
    assert Prefix(b, c);
    AppendCond(b, c, c.ins[|c.ins| - 2]);
    PrefixKept(b, c);
  }

  /** Linking the last jump of a list to a new jump. */
  lemma JoinedWf(c: Code, d: Code, s1: seq<nat>, s2: seq<nat>)
    requires Wf(c) && d == c.(ins := Joined(c.ins, s1, s2)) && Elems(s1) <= c.pend
    ensures Wf(d) && |d.ins| == |c.ins| && Kept(c, d, c.pend - Elems(s1))
    ensures forall R0 :: Run(d, R0) == Run(c, R0)
    ensures forall j, R, cond :: JumpVal(d, j, R, cond) == JumpVal(c, j, R, cond)
    ensures forall pc :: 0 <= pc <= c.base && pc < |c.ins| ==> d.ins[pc] == c.ins[pc]
  {
    hide Run, Mid, WfAt;
    if s1 == [] || s2 == [] || s1[|s1| - 1] >= |c.ins| {
      assert d == c;
    } else {
      var x := s1[|s1| - 1];
      assert x in Elems(s1);
      Relinked(c, d, x, s2[0] as int - x - 1);
    }
  }

  lemma JumpReady(c: Code, e: Exp, l: Lists, d: Code, reg: Reg, R0: Regs)
    requires WfExp(c, e, l) && e.k.VJMP?
    requires Run(d, R0) == Put(Branch(Run(Eff(c, e), R0), c.ins[|c.ins| - 2], c.ks, e.k.jmp), reg, Bool(false))
    requires forall j, R, cond :: j in l.ts + [e.k.jmp] || j in l.fs ==> JumpVal(d, j, R, cond) == JumpVal(c, j, R, cond)
    ensures Ready(Den(c, e, l, R0), Run(d, R0), d, l.ts + [e.k.jmp], l.fs, reg)
  {
    var o, j := Run(Eff(c, e), R0), e.k.jmp;
    if o.Exit? {
      ExitTruth(c, e, l, R0);
    }
    hide Run, Eff, WfExp;
    assert j in l.ts + [j];
    assert o.Exit? && o.j in l.ts ==> o.j in l.ts + [j];
  }

  /** A condition that is the value itself: its jump joins the true list, and code
      that loads the truth values follows. */
  lemma JumpPrepared(c: Code, e: Exp, l: Lists, c1: Code, d: Code, reg: Reg)
    requires WfExp(c, e, l) && e.k.VJMP? && c1 == c.(ins := Joined(c.ins, l.ts, [e.k.jmp]))
    requires Prefix(c1, d) && d.pend == c1.pend && d.last == |d.ins| == |c1.ins| + 2 && Bools(d, |c1.ins|, reg)
    ensures Prepared(c, e, l, d, l.ts + [e.k.jmp], l.fs, reg) && Wf(d)
  {
    hide Run, Mid, WfAt, WfList, Ready, Den, Bools, Branch, Put, Joined;
    CondWf(c, e, l);
    var j := e.k.jmp;
    JumpLists(c, e, l);
    JoinedWf(c, c1, l.ts, [j]);
    AppendAfter(c1, d, reg);
    PrefixKept(c1, d);
    JumpPreparedFrame(c, e, l, c1, d);
    forall jj, R, cond | jj in l.ts + [j] || jj in l.fs ensures JumpVal(d, jj, R, cond) == JumpVal(c, jj, R, cond) {
      JumpValKept(c1, d, c1.pend, jj, R, cond);
    }
    forall R0 ensures Ready(Den(c, e, l, R0), Run(d, R0), d, l.ts + [j], l.fs, reg) {
      JumpReady(c, e, l, d, reg, R0);
    }
  }

  lemma JumpLists(c: Code, e: Exp, l: Lists)
    requires WfExp(c, e, l) && e.k.VJMP?
    ensures Elems(l.ts) <= c.pend && Elems(l.fs) <= c.pend && e.k.jmp in c.pend && e.k.jmp !in l.ts && e.k.jmp !in l.fs
    ensures Elems(l.ts + [e.k.jmp]) == Elems(l.ts) + {e.k.jmp}
    ensures forall j :: j in l.ts + [e.k.jmp] || j in l.fs ==> j in c.pend
  {
    hide Wf, Chain;
    assert forall j :: j in Eff(c, e).pend ==> j in c.pend && j != e.k.jmp;
  }

  lemma JumpPreparedFrame(c: Code, e: Exp, l: Lists, c1: Code, d: Code)
    requires WfExp(c, e, l) && e.k.VJMP? && Wf(c)
    requires Kept(c, c1, c.pend - Elems(l.ts)) && Kept(c1, d, c1.pend) && c1.pend == c.pend == d.pend
    requires c1.base == c.base && |c1.ins| == |c.ins| && c1.ks == c.ks && Grown(c1, d)
    requires forall pc :: 0 <= pc <= c.base && pc < |c.ins| ==> c1.ins[pc] == c.ins[pc]
    ensures Grown(c, d) && d.pend == Rest(c, e, l) + Elems(l.ts + [e.k.jmp]) + Elems(l.fs)
    ensures forall j :: j in l.ts + [e.k.jmp] ==> j !in l.fs
    ensures forall j :: j in Rest(c, e, l) ==> j !in l.ts + [e.k.jmp] && j !in l.fs
    ensures Kept(c, d, Rest(c, e, l))
  {
    JumpLists(c, e, l);
    hide WfList, Wf;
  }

  lemma LoadBoolsDone(c: Code, d: Code, was: seq<Instr>, around: bool, reg: Reg, pf: nat)
    requires Wf(c) && c.base < |c.ins| && !Mid(c, |c.ins|)
    requires d == Code(c.base, |was|, d.ins, c.ks, c.pend) && |d.ins| == |was|
    requires was == c.ins + (if around then [JMP(NO_JUMP)] else []) + [LFALSESKIP(reg)] + [LOADTRUE(reg)] && pf == |was| - 2
    requires forall pc :: 0 <= pc < |was| ==>
               d.ins[pc] == Redirect(was, Elems(if around then [|c.ins|] else []), |was|, NO_REG, |was|, pc)
    ensures Prefix(c, d) && Bools(d, pf, reg) && (around ==> d.ins[|c.ins|] == JMP(2))
  {
    var n := |c.ins|;
    forall pc | 0 <= pc < n ensures was[pc] == c.ins[pc] {
    }
    hide Wf, Redirect, Elems;
    forall pc | 0 <= pc < |was| ensures d.ins[pc] == if around && pc == n then JMP(2) else was[pc] {
      RedirectOne(was, n, around, pc);
    }
  }

  /** The jump at `n`, if there is one, is led past the two instructions after it. */
  lemma RedirectOne(was: seq<Instr>, n: nat, around: bool, pc: nat)
    requires 0 < n && pc < |was| && (around ==> |was| == n + 3) && n <= |was| && !IsTest(was[n - 1])
    ensures Redirect(was, Elems(if around then [n] else []), |was|, NO_REG, |was|, pc)
            == if around && pc == n then JMP(2) else was[pc]
  {
    assert Elems([n]) == {n};
  }

  /** A list of pending jumps. */
  ghost predicate Linked(c: Code, head: int, l: seq<nat>) {
    && Chain(c.ins, head, l)
    && forall j :: j in l ==> 0 < j < |c.ins| && j in c.pend
  }

  lemma LinkedKept(c: Code, d: Code, head: int, l: seq<nat>, P: set<nat>)
    requires Linked(c, head, l) && Kept(c, d, P) && Elems(l) <= P && Elems(l) <= d.pend
    ensures Linked(d, head, l)
  {
    forall j | j in l ensures j in d.pend && 0 < j < |d.ins| && d.ins[j] == c.ins[j] {
      assert j in Elems(l);
    }
  }

  lemma WfListLinked(c: Code, head: int, l: seq<nat>, cond: bool)
    requires WfList(c, head, l, cond)
    ensures Linked(c, head, l)
  {
  }

  /** The lists of an expression in the whole code. */
  lemma ExpLinked(c: Code, e: Exp, l: Lists)
    requires WfExp(c, e, l)
    ensures Linked(c, e.t, l.ts) && Linked(c, e.f, l.fs)
    ensures forall j :: j in l.ts ==> j !in l.fs
    ensures Elems(l.ts) <= c.pend && Elems(l.fs) <= c.pend
  {
    var b := Eff(c, e);
    assert Elems(l.ts) <= b.pend by { WfListPend(b, e.t, l.ts, true); }
    assert Elems(l.fs) <= b.pend by { WfListPend(b, e.f, l.fs, false); }
    hide Wf, WfAt, Mid;
    assert b.pend <= c.pend;
    assert Kept(b, c, b.pend) by { EffKept(c, e, l); }
    WfListLinked(b, e.t, l.ts, true);
    WfListLinked(b, e.f, l.fs, false);
    LinkedKept(b, c, e.t, l.ts, b.pend);
    LinkedKept(b, c, e.f, l.fs, b.pend);
  }

  lemma EffKept(c: Code, e: Exp, l: Lists)
    requires WfExp(c, e, l)
    ensures Kept(Eff(c, e), c, Eff(c, e).pend) && Eff(c, e).pend <= c.pend
  {
    hide WfList;
  }

  lemma HasJumpsIff(c: Code, t: int, ts: seq<nat>, f: int, fs: seq<nat>)
    requires Linked(c, t, ts) && Linked(c, f, fs) && (forall j :: j in ts ==> j !in fs)
    ensures t != f <==> ts != [] || fs != []
  {
    if ts != [] && fs != [] {
      assert ts[0] in ts && fs[0] in fs;
    }
  }

  /** The jump of a condition is a list of its own. */
  lemma JumpLinked(c: Code, e: Exp, l: Lists)
    requires WfExp(c, e, l) && e.k.VJMP?
    ensures Chain(c.ins, e.k.jmp, [e.k.jmp])
    ensures forall j :: j in l.ts ==> j !in [e.k.jmp]
  {
    JumpLists(c, e, l);
  }

  lemma JoinedLinked(c: Code, d: Code, e: Exp, l: Lists, t: int)
    requires WfExp(c, e, l) && e.k.VJMP?
    requires d == c.(ins := d.ins) && |d.ins| == |c.ins| && Kept(c, d, c.pend - Elems(l.ts))
    requires forall j, R, cond :: JumpVal(d, j, R, cond) == JumpVal(c, j, R, cond)
    requires Chain(d.ins, t, l.ts + [e.k.jmp]) && Linked(c, e.f, l.fs)
    ensures Linked(d, t, l.ts + [e.k.jmp]) && Linked(d, e.f, l.fs)
    ensures forall j :: j in l.ts + [e.k.jmp] ==> j !in l.fs
    ensures c.base < |d.ins| && !AllValues(d, l.ts + [e.k.jmp])
  {
    JumpLists(c, e, l);
    ExpLinked(c, e, l);
    JumpNoValue(c, d, e);
    assert e.k.jmp in l.ts + [e.k.jmp];
    hide Wf, WfList, Chain;
    LinkedKept(c, d, e.f, l.fs, c.pend - Elems(l.ts));
  }

  lemma PreparedSplit(c: Code, e: Exp, l: Lists, d: Code, ts: seq<nat>, fs: seq<nat>, reg: Reg)
    requires Shape(c, e) && Prepared(c, e, l, d, ts, fs, reg)
    ensures forall j :: j in ts ==> j !in fs
    ensures Elems(ts) <= d.pend && Elems(fs) <= d.pend
    ensures Elems(ts) <= d.pend - Elems(fs)
  {
  }

  /** After the false list is redirected the true list is as it was. */
  lemma RedirectedFirst(d: Code, d1: Code, t: int, ts: seq<nat>, fs: seq<nat>, reg: Reg, df: nat)
    requires Wf(d) && d.last == |d.ins| && Linked(d, t, ts)
    requires d1 == d.(ins := d1.ins, pend := d.pend - Elems(fs)) && |d1.ins| == |d.ins|
    requires forall pc :: 0 <= pc < |d.ins| ==> d1.ins[pc] == Redirect(d.ins, Elems(fs), |d.ins|, reg, df, pc)
    requires Elems(fs) <= d.pend && Elems(ts) <= d.pend - Elems(fs) && forall j :: j in ts ==> j !in fs
    ensures Redirected(d, d1, Elems(fs), |d.ins|, reg, df)
    ensures Linked(d1, t, ts) && (AllValues(d, ts) ==> AllValues(d1, ts))
  {
    hide Redirect, Wf;
    assert Redirected(d, d1, Elems(fs), |d.ins|, reg, df);
    RedirectedPatched(d, d1, Elems(fs), |d.ins|, reg, df);
    LinkedKept(d, d1, t, ts, d.pend - Elems(fs));
    ValuesKept(d, d1, ts, fs);
  }

  lemma RedirectedGrown(d: Code, d1: Code, d2: Code, ts: seq<nat>, fs: seq<nat>, reg: Reg, df: nat, dt: nat)
    requires Wf(d) && d.last == |d.ins| && Redirected(d, d1, Elems(fs), |d.ins|, reg, df)
    requires d2 == d1.(ins := d2.ins, pend := d1.pend - Elems(ts)) && |d2.ins| == |d.ins|
    requires forall pc :: 0 <= pc < |d.ins| ==> d2.ins[pc] == Redirect(d1.ins, Elems(ts), |d.ins|, reg, dt, pc)
    requires Elems(ts) <= d1.pend
    ensures Redirected(d1, d2, Elems(ts), |d.ins|, reg, dt) && Grown(d, d2)
  {
    forall pc | 0 <= pc < d.base ensures d2.ins[pc] == d.ins[pc] {
      assert d1.ins[pc] == Redirect(d.ins, Elems(fs), |d.ins|, reg, df, pc);
      assert d2.ins[pc] == Redirect(d1.ins, Elems(ts), |d.ins|, reg, dt, pc);
    }
  }

  lemma PlainLinked(c: Code, e: Exp, l: Lists, d: Code, e': Exp)
    requires Moved(c, e, l, d, e', l) && e'.k.VNONRELOC?
    ensures Wf(d) && Linked(d, e'.t, l.ts) && Linked(d, e'.f, l.fs) && (forall j :: j in l.ts ==> j !in l.fs)
    ensures l.ts != [] || l.fs != [] ==> d.base < |d.ins|
  {
    ExpLinked(d, e', l);
    assert l.ts != [] ==> l.ts[0] in d.pend;
    assert l.fs != [] ==> l.fs[0] in d.pend;
  }

  lemma LinkedOn(c: Code, d: Code, head: int, l: seq<nat>)
    requires Linked(c, head, l) && Prefix(c, d)
    ensures Linked(d, head, l)
  {
  }

  lemma AroundPrepared(c: Code, e: Exp, l: Lists, d: Code, d': Code, ts: seq<nat>, fs: seq<nat>, reg: Reg)
    requires Shape(c, e) && Prepared(c, e, l, d, ts, fs, reg) && Wf(d)
    requires Prefix(d, d') && d'.pend == d.pend && d'.last == |d'.ins| == |d.ins| + 3
    requires d.base < |d.ins| && d'.ins[|d.ins|] == JMP(2) && Bools(d', |d.ins| + 1, reg)
    ensures Prepared(c, e, l, d', ts, fs, reg) && Wf(d')
  {
    hide Prepared, Wf, Prefix, Bools, Run;
    AppendAround(d, d', reg);
    PrefixKept(d, d');
    PreparedOn(c, e, l, d, d', ts, fs, reg);
  }

  lemma LabelPrepared(c: Code, e: Exp, l: Lists, d: Code, d': Code, ts: seq<nat>, fs: seq<nat>, reg: Reg)
    requires Shape(c, e) && Prepared(c, e, l, d, ts, fs, reg) && Wf(d) && d' == d.(last := |d.ins|)
    ensures Prepared(c, e, l, d', ts, fs, reg) && Wf(d') && Prefix(d, d')
    ensures (AllValues(d, ts) ==> AllValues(d', ts)) && (AllValues(d, fs) ==> AllValues(d', fs))
  {
    LabelRun(d, d');
    PrefixKept(d, d');
    hide Prepared, Wf, Run;
    PreparedOn(c, e, l, d, d', ts, fs, reg);
  }

  lemma MaterializedGrown(c: Code, e: Exp, l: Lists, d: Code, reg: Reg)
    requires Shape(c, e) && Materialized(c, e, l, d, reg)
    ensures Wf(d) && Grown(c, d)
  {
  }

  lemma JumpNoValue(c: Code, d: Code, e: Exp)
    requires Shape(c, e) && e.k.VJMP? && |d.ins| == |c.ins|
    requires forall j, R, cond :: JumpVal(d, j, R, cond) == JumpVal(c, j, R, cond)
    ensures !d.ins[e.k.jmp - 1].TESTSET?
  {
    var j := e.k.jmp;
    var N: Regs := seq(256, i => Nil);
    assert JumpVal(d, j, N, true) == Bool(true);
  }

  /** A local variable is read where it is. */
  lemma VarsDischarged(c: Code, e: Exp, l: Lists, e': Exp)
    requires WfExp(c, e, l) && (e' == e || (e.k.VLOCAL? && e' == e.(k := VNONRELOC(e.k.ridx))))
    ensures WfExp(c, e', l) && Rest(c, e', l) == Rest(c, e, l)
    ensures forall R0 :: Den(c, e', l, R0) == Den(c, e, l, R0)
  {
    hide Wf, WfList, Run;
  }

  lemma MaterializedVars(c: Code, e: Exp, l: Lists, e': Exp, d: Code, reg: Reg)
    requires WfExp(c, e, l) && (e' == e || (e.k.VLOCAL? && e' == e.(k := VNONRELOC(e.k.ridx))))
    requires Shape(c, e') && Materialized(c, e', l, d, reg)
    ensures Materialized(c, e, l, d, reg)
  {
    VarsDischarged(c, e, l, e');
    hide Wf, WfList, Run, Den, Kept, Rest;
  }

  /** The value is in register `r`, and registers below `lo` are unchanged. */
  ghost predicate HasIn(m: Meaning, o: Outcome, r: Reg, lo: nat) {
    match m
    case Val(v, R) => o.Fall? && o.R[r] == v && Agree(R, o.R, lo)
    case Out(j, R) => o == Exit(j, R)
    case Err => o == Error
    case Bad => o == Stuck
  }

  ghost predicate InReg(c: Code, e: Exp, l: Lists, d: Code, r: Reg, lo: nat)
    requires Shape(c, e)
  {
    && Wf(d) && Grown(c, d)
    && d.pend == Rest(c, e, l)
    && Kept(c, d, Rest(c, e, l))
    && forall R0 :: HasIn(Den(c, e, l, R0), Run(d, R0), r, lo)
  }

  lemma InRegMaterialized(c: Code, e: Exp, l: Lists, d: Code, r: Reg, lo: nat)
    requires Shape(c, e) && Materialized(c, e, l, d, r) && r >= lo
    ensures InReg(c, e, l, d, r, lo)
  {
    hide Wf, Run, Den, Kept, Rest, Grown;
    forall R0 ensures HasIn(Den(c, e, l, R0), Run(d, R0), r, lo) {
      assert Run(d, R0) == Landed(Den(c, e, l, R0), r);
    }
  }

  lemma InRegAlready(c: Code, e: Exp, l: Lists, r: Reg, lo: nat)
    requires WfExp(c, e, l) && (e.k == VNONRELOC(r) || e.k == VLOCAL(r)) && e.t == e.f
    ensures InReg(c, e, l, c, r, lo) && l == NOLISTS && WfExp(c, Exp(VNONRELOC(r), NO_JUMP, NO_JUMP), NOLISTS)
  {
    ExpLinked(c, e, l);
    HasJumpsIff(c, e.t, l.ts, e.f, l.fs);
    PrefixKept(c, c);
    hide Wf, Run, Kept, Chain;
    assert Elems([]) == {};
  }

  // ----- branching on an expression with jumps -----

  /** The code branches on the value of `e`: its own lists and the new jumps carry
      the value away, everything else is as before. */
  ghost predicate Diverged(c: Code, e: Exp, l: Lists, d: Code, extra: seq<nat>, go: bool, lo: nat)
    requires Shape(c, e)
  {
    && Wf(d) && Grown(c, d)
    && DivergedLists(c, e, l, d, extra, go)
    && Kept(c, d, Rest(c, e, l))
    && forall R0 :: GoRel(Den(c, e, l, R0), Run(d, R0), d, Same(l, go), Same(l, !go) + extra, go, lo)
  }

  ghost predicate DivergedLists(c: Code, e: Exp, l: Lists, d: Code, extra: seq<nat>, go: bool) {
    && d.pend == Rest(c, e, l) + Elems(l.ts) + Elems(l.fs) + Elems(extra)
    && WfList(d, e.t, l.ts, true) && WfList(d, e.f, l.fs, false) && WfList(d, Head(extra, 0), extra, !go)
    && (forall j :: j in l.ts ==> j !in l.fs && j !in extra && j !in Rest(c, e, l))
    && (forall j :: j in l.fs ==> j !in extra && j !in Rest(c, e, l))
    && (forall j :: j in extra ==> j !in Rest(c, e, l))
  }

  lemma DivergedFrom(c: Code, e: Exp, l: Lists, d: Code, extra: seq<nat>, go: bool, lo: nat)
    requires WfExp(c, e, l) && Forked(c, e, d, extra, go) && forall R0 :: Forks(c, e, d, extra, go, lo, R0)
    ensures Diverged(c, e, l, d, extra, go, lo)
  {
    DivergedFromLists(c, e, l, d, extra, go);
    forall R0 ensures GoRel(Den(c, e, l, R0), Run(d, R0), d, Same(l, go), Same(l, !go) + extra, go, lo) {
      assert Forks(c, e, d, extra, go, lo, R0);
      hide Forks, Forked, GoRel, Den, Run;
      GoFrom(c, e, l, d, extra, go, lo, R0);
    }
  }

  lemma DivergedFromLists(c: Code, e: Exp, l: Lists, d: Code, extra: seq<nat>, go: bool)
    requires WfExp(c, e, l) && Forked(c, e, d, extra, go)
    ensures DivergedLists(c, e, l, d, extra, go) && Kept(c, d, Rest(c, e, l)) && Wf(d) && Grown(c, d)
  {
    hide Wf, Chain;
    var b := Eff(c, e);
    assert Elems(l.ts) <= b.pend by { WfListPend(b, e.t, l.ts, true); }
    assert Elems(l.fs) <= b.pend by { WfListPend(b, e.f, l.fs, false); }
    WfListStays(b, d, e.t, l.ts, true);
    WfListStays(b, d, e.f, l.fs, false);
    hide WfList;
    EffPend(c, e, l);
    EffKept(c, e, l);
  }

  lemma EffPend(c: Code, e: Exp, l: Lists)
    requires WfExp(c, e, l)
    ensures Eff(c, e).pend == c.pend - (if e.k.VJMP? then {e.k.jmp} else {})
    ensures forall j :: j in l.ts || j in l.fs ==> j in Eff(c, e).pend
  {
    hide Wf;
  }

  lemma MovedWf(c: Code, e: Exp, l: Lists, d: Code, e': Exp, l': Lists)
    requires Moved(c, e, l, d, e', l')
    ensures WfExp(d, e', l') && Shape(d, e') && Grown(c, d)
    ensures Wf(Eff(d, e'))
  {
  }

  lemma DivergedOn(c: Code, e: Exp, l: Lists, d: Code, e': Exp, d': Code, extra: seq<nat>, go: bool, lo: nat)
    requires Moved(c, e, l, d, e', l) && Shape(d, e') && e'.t == e.t && e'.f == e.f && lo < 256
    requires forall R0 :: Loads(Den(c, e, l, R0), Den(d, e', l, R0), lo)
    requires Diverged(d, e', l, d', extra, go, lo)
    ensures Diverged(c, e, l, d', extra, go, lo)
  {
    hide Wf, WfList, Run, Den, Rest, Chain;
    forall R0 ensures GoRel(Den(c, e, l, R0), Run(d', R0), d', Same(l, go), Same(l, !go) + extra, go, lo) {
      assert Loads(Den(c, e, l, R0), Den(d, e', l, R0), lo);
      hide Diverged, Kept, Grown;
      GoRelOn(Den(c, e, l, R0), Den(d, e', l, R0), Run(d', R0), d', Same(l, go), Same(l, !go) + extra, go, lo);
    }
  }

  lemma GoRelOn(m: Meaning, n: Meaning, o: Outcome, d: Code, same: seq<nat>, diff: seq<nat>, go: bool, lo: nat)
    requires lo < 256 && Loads(m, n, lo) && GoRel(n, o, d, same, diff, go, lo)
    ensures GoRel(m, o, d, same, diff, go, lo)
  {
    if m.Val? {
      assert Agree(m.R, n.R, lo);
    }
  }

  lemma DischargeSame(c: Code, e: Exp, l: Lists, lo: nat)
    requires WfExp(c, e, l) && e.k.VNONRELOC?
    ensures Moved(c, e, l, c, e, l)
    ensures lo < 256 ==> forall R0 :: Loads(Den(c, e, l, R0), Den(c, e, l, R0), lo)
  {
    hide Run, WfList;
    PrefixKept(c, c);
  }

  lemma TailNot(c: Code, e: Exp, l: Lists, d: Code, i: Instr, j: nat)
    requires WfExp(c, e, l) && e.k.VRELOC? && i.TEST? && j == |c.ins|
    requires d == c.(ins := c.ins[..|c.ins| - 1] + [i, JMP(NO_JUMP)], pend := c.pend + {j})
    ensures Tail(c, e, d, i, j)
  {
    hide WfList;
    assert c.base <= |c.ins| - 1;
    assert forall pc :: 0 <= pc < |c.ins| - 1 ==> d.ins[pc] == c.ins[pc];
  }

  lemma TailReg(c: Code, e: Exp, l: Lists, d: Code, i: Instr, j: nat)
    requires WfExp(c, e, l) && e.k.VNONRELOC? && i.TESTSET? && i.a == NO_REG && j == |c.ins| + 1
    requires d == c.(ins := c.ins + [i, JMP(NO_JUMP)], pend := c.pend + {j})
    ensures Tail(c, e, d, i, j)
  {
    hide WfList;
    assert forall pc :: 0 <= pc < |c.ins| ==> d.ins[pc] == c.ins[pc];
  }

  /** Code that falls through, or leaves by a jump of `same`, when the value of `e` is
      `go`, and leaves by a jump of `diff` when it is not. */
  ghost predicate Branching(c: Code, e: Exp, l: Lists, d: Code, hs: int, same: seq<nat>, hd: int, diff: seq<nat>, go: bool, lo: nat)
    requires Shape(c, e)
  {
    && Wf(d) && Grown(c, d)
    && d.pend == Rest(c, e, l) + Elems(same) + Elems(diff)
    && WfList(d, hs, same, go) && WfList(d, hd, diff, !go)
    && (forall j :: j in same ==> j !in diff && j !in Rest(c, e, l))
    && (forall j :: j in diff ==> j !in Rest(c, e, l))
    && Kept(c, d, Rest(c, e, l))
    && forall R0 :: GoRel(Den(c, e, l, R0), Run(d, R0), d, same, diff, go, lo)
  }

  /** Code that falls through exactly when the value of `e` is `go`; the jumps of
      `list` carry other values away. */
  ghost predicate Branched(c: Code, e: Exp, l: Lists, d: Code, head: int, list: seq<nat>, go: bool, lo: nat)
    requires Shape(c, e)
  {
    Branching(c, e, l, d, NO_JUMP, [], head, list, go, lo)
  }

  lemma BranchedVars(c: Code, e: Exp, l: Lists, e': Exp, d: Code, head: int, list: seq<nat>, go: bool, lo: nat)
    requires WfExp(c, e, l) && (e' == e || (e.k.VLOCAL? && e' == e.(k := VNONRELOC(e.k.ridx))))
    requires Shape(c, e') && Branched(c, e', l, d, head, list, go, lo)
    ensures Branched(c, e, l, d, head, list, go, lo)
  {
    VarsDischarged(c, e, l, e');
    hide Wf, WfList, Run, Den, Kept, Rest, GoRel;
    forall R0 ensures GoRel(Den(c, e, l, R0), Run(d, R0), d, [], list, go, lo) {
      assert Den(c, e', l, R0) == Den(c, e, l, R0);
    }
  }

  lemma DivergedChains(c: Code, e: Exp, l: Lists, d: Code, extra: seq<nat>, go: bool, lo: nat)
    requires Shape(c, e) && Diverged(c, e, l, d, extra, go, lo)
    ensures Chain(d.ins, if go then e.f else e.t, Same(l, !go)) && Chain(d.ins, Head(extra, 0), extra)
    ensures forall j :: j in Same(l, !go) ==> j !in extra
  {
    hide Chain, Wf, GoRel, Den, Run;
  }

  lemma JoinBranch(c: Code, e: Exp, l: Lists, d: Code, d1: Code, extra: seq<nat>, go: bool, lo: nat, head: int)
    requires Shape(c, e) && Diverged(c, e, l, d, extra, go, lo)
    requires d1 == d.(ins := Joined(d.ins, Same(l, !go), extra))
    requires Chain(d1.ins, head, Same(l, !go) + extra)
    ensures Branching(c, e, l, d1, if go then e.t else e.f, Same(l, go), head, Same(l, !go) + extra, go, lo)
  {
    hide Chain, Wf, GoRel, Den, Run, Joined, Rest;
    var same, diff, list := Same(l, go), Same(l, !go), Same(l, !go) + extra;
    DivergedPend(c, e, l, d, extra, go);
    JoinedWf(d, d1, diff, extra);
    WfListStays(d, d1, if go then e.t else e.f, same, go);
    WfListJoin(d, d1, if go then e.f else e.t, diff, Head(extra, 0), extra, head, !go);
    assert Elems(list) == Elems(diff) + Elems(extra);
    forall R0 ensures GoRel(Den(c, e, l, R0), Run(d1, R0), d1, same, list, go, lo) {
      assert GoRel(Den(c, e, l, R0), Run(d, R0), d, same, list, go, lo);
      hide Diverged, WfList, Kept;
      GoRelSame(Den(c, e, l, R0), Run(d, R0), d, d1, same, list, go, lo);
    }
    JoinBranchFrame(c, e, l, d, d1, extra, go);
  }

  lemma GoRelSame(m: Meaning, o: Outcome, d: Code, d1: Code, same: seq<nat>, list: seq<nat>, go: bool, lo: nat)
    requires GoRel(m, o, d, same, list, go, lo)
    requires forall j, R, cond :: JumpVal(d1, j, R, cond) == JumpVal(d, j, R, cond)
    ensures GoRel(m, o, d1, same, list, go, lo)
  {
  }

  lemma DivergedPend(c: Code, e: Exp, l: Lists, d: Code, extra: seq<nat>, go: bool)
    requires DivergedLists(c, e, l, d, extra, go)
    ensures Elems(Same(l, go)) <= d.pend - Elems(Same(l, !go)) && Elems(Same(l, !go)) <= d.pend && Elems(extra) <= d.pend
    ensures Rest(c, e, l) <= d.pend - Elems(Same(l, !go))
    ensures forall j :: j in Same(l, go) ==> j !in Same(l, !go) + extra && j !in Rest(c, e, l)
    ensures forall j :: j in Same(l, !go) + extra ==> j !in Rest(c, e, l)
  {
    hide WfList, Rest;
  }

  lemma WfListJoin(d: Code, d1: Code, h1: int, s1: seq<nat>, h2: int, s2: seq<nat>, head: int, cond: bool)
    requires WfList(d, h1, s1, cond) && WfList(d, h2, s2, cond)
    requires d1 == d.(ins := Joined(d.ins, s1, s2)) && Chain(d1.ins, head, s1 + s2)
    requires forall j, R, c :: JumpVal(d1, j, R, c) == JumpVal(d, j, R, c)
    ensures WfList(d1, head, s1 + s2, cond)
  {
    hide Chain;
    forall j | j in s1 + s2
      ensures j in d1.pend && 0 < j < |d1.ins| && (d1.ins[j - 1].TESTSET? ==> d1.ins[j - 1].k == cond)
    {
      assert j in s1 || j in s2;
      assert d1.ins[j - 1] == d.ins[j - 1] || d1.ins[j - 1].JMP?;
    }
  }

  lemma JoinBranchFrame(c: Code, e: Exp, l: Lists, d: Code, d1: Code, extra: seq<nat>, go: bool)
    requires Shape(c, e) && DivergedLists(c, e, l, d, extra, go) && Grown(c, d) && Kept(c, d, Rest(c, e, l))
    requires Kept(d, d1, d.pend - Elems(Same(l, !go))) && |d1.ins| == |d.ins| && d1 == d.(ins := d1.ins)
    requires forall pc :: 0 <= pc <= d.base && pc < |d.ins| ==> d1.ins[pc] == d.ins[pc]
    ensures Grown(c, d1) && Kept(c, d1, Rest(c, e, l))
    ensures d1.pend == Rest(c, e, l) + Elems(Same(l, go)) + Elems(Same(l, !go) + extra)
  {
    DivergedPend(c, e, l, d, extra, go);
    hide WfList, Rest;
  }

  lemma BranchingChain(c: Code, e: Exp, l: Lists, d: Code, hs: int, same: seq<nat>, hd: int, diff: seq<nat>, go: bool, lo: nat)
    requires Shape(c, e) && Branching(c, e, l, d, hs, same, hd, diff, go, lo)
    ensures Chain(d.ins, hs, same) && forall j :: j in same ==> j > 0
  {
    hide Chain, Wf, GoRel, Den, Run, Rest;
  }

  /** The jumps that agree with falling through lead here. */
  lemma HereBranch(c: Code, e: Exp, l: Lists, d: Code, d1: Code, hs: int, same: seq<nat>, hd: int, diff: seq<nat>, go: bool, lo: nat)
    requires Shape(c, e) && Branching(c, e, l, d, hs, same, hd, diff, go, lo)
    requires d1 == d.(ins := d1.ins, pend := d.pend - Elems(same), last := |d.ins|) && |d1.ins| == |d.ins|
    requires forall pc :: 0 <= pc < |d.ins| ==> d1.ins[pc] == Redirect(d.ins, Elems(same), |d.ins|, NO_REG, |d.ins|, pc)
    ensures Branched(c, e, l, d1, hd, diff, go, lo) && d1.base <= |d1.ins|
  {
    hide Chain, GoRel, Den, Run, Redirect, Rest, Mid, WfAt, WfList;
    assert Redirected(d, d1, Elems(same), |d.ins|, NO_REG, |d.ins|);
    RedirectedPatched(d, d1, Elems(same), |d.ins|, NO_REG, |d.ins|);
    HereWf(d, d1, Elems(same));
    assert Elems(diff) <= d.pend - Elems(same);
    WfListStays(d, d1, hd, diff, !go);
    EmptyWfList(d1, go);
    forall R0 ensures GoRel(Den(c, e, l, R0), Run(d1, R0), d1, [], diff, go, lo) {
      GoHere(Den(c, e, l, R0), d, d1, same, diff, go, lo, R0);
    }
    HereGrown(c, d, d1, Elems(same));
    hide Wf, Grown;
    assert Elems([]) == {};
    assert d1.pend == Rest(c, e, l) + Elems([]) + Elems(diff);
    assert Kept(c, d1, Rest(c, e, l));
  }

  lemma EmptyWfList(d: Code, go: bool)
    ensures WfList(d, NO_JUMP, [], go)
  {
    ChainIs(d.ins, NO_JUMP, []);
  }

  lemma HereGrown(c: Code, d: Code, d1: Code, S: set<nat>)
    requires Wf(d) && Grown(c, d) && S <= d.pend && d1.base == d.base && d1.ks == d.ks && |d1.ins| == |d.ins|
    requires forall pc :: 0 <= pc < |d.ins| ==> d1.ins[pc] == Redirect(d.ins, S, |d.ins|, NO_REG, |d.ins|, pc)
    ensures Grown(c, d1)
  {
  }

  /** A constant of the known truth takes no branch. */
  lemma ConstDiverged(c: Code, e: Exp, l: Lists, go: bool, lo: nat)
    requires WfExp(c, e, l)
    requires e.k.VTRUE? || e.k.VKINT? || e.k.VKSTR? || (e.k.VK? && Truthy(c.ks[e.k.idx])) ==> go
    requires e.k.VNIL? || e.k.VFALSE? ==> !go
    requires e.k.VTRUE? || e.k.VKINT? || e.k.VKSTR? || (e.k.VK? && Truthy(c.ks[e.k.idx])) || e.k.VNIL? || e.k.VFALSE?
    ensures Diverged(c, e, l, c, [], go, lo)
  {
    ForkConst(c, e, l, go, lo);
    DivergedFrom(c, e, l, c, [], go, lo);
  }

  lemma TailJump(c: Code, e: Exp, l: Lists, d: Code, i: Instr, go: bool)
    requires WfExp(c, e, l) && e.k.VJMP? && i == Flip(c.ins[|c.ins| - 2], go)
    requires d == c.(ins := c.ins[|c.ins| - 2 := i])
    ensures Tail(c, e, d, i, e.k.jmp)
  {
    hide WfList;
    EffPend(c, e, l);
    assert Eff(c, e).pend + {e.k.jmp} == c.pend;
    assert forall pc :: 0 <= pc < |c.ins| - 2 ==> d.ins[pc] == c.ins[pc];
  }

  // ----- negating an expression with jumps -----

  /** `d` is `c` with another end: the effective code is the same and the value is
      the negation. */
  ghost predicate Inverted(c: Code, e: Exp, d: Code, e': Exp)
    requires Shape(c, e)
  {
    && Shape(d, e') && Eff(d, e') == Eff(c, e) && Grown(c, d)
    && (e'.k.VJMP? <==> e.k.VJMP?) && (e.k.VJMP? ==> e'.k == e.k)
    && forall R :: Finish(d, e', R) == Negate(Finish(c, e, R))
  }

  lemma RemoveTwice(b: Code, b1: Code, b2: Code, S1: set<nat>, S2: set<nat>)
    requires Wf(b) && ValuesRemoved(b, b1, S1) && ValuesRemoved(b1, b2, S2) && S1 <= b.pend && S2 <= b.pend
    ensures Wf(b2) && b2.pend == b.pend && |b2.ins| == |b.ins| && Kept(b, b2, b.pend - S1 - S2)
    ensures forall R0 :: Run(b2, R0) == Run(b, R0)
    ensures forall j :: j in S1 || j in S2 ==> 0 < j < |b2.ins| && !b2.ins[j - 1].TESTSET? && b2.ins[j] == b.ins[j]
  {
    hide Run;
    RemovedRun(b, b1, S1);
    RemovedRun(b1, b2, S2);
    forall j | j in S1 || j in S2 ensures 0 < j < |b2.ins| && !b2.ins[j - 1].TESTSET? && b2.ins[j] == b.ins[j] {
      if j !in S2 {
        assert b2.ins[j - 1] == Unvalued(b1.ins, S2, j - 1) && b2.ins[j] == Unvalued(b1.ins, S2, j);
      } else if j !in S1 {
        assert b1.ins[j] == Unvalued(b.ins, S1, j);
      }
    }
  }

  /** The lists of the negated expression, exchanged and without values. */
  lemma SwappedList(b: Code, b2: Code, head: int, l: seq<nat>, cond: bool)
    requires WfList(b, head, l, cond) && Elems(l) <= b2.pend && |b2.ins| == |b.ins|
    requires forall j :: j in Elems(l) ==> 0 < j < |b2.ins| && !b2.ins[j - 1].TESTSET? && b2.ins[j] == b.ins[j]
    ensures WfList(b2, head, l, !cond)
  {
    forall j | j in l ensures j in b2.pend && 0 < j < |b2.ins| && !b2.ins[j - 1].TESTSET? && b2.ins[j] == b.ins[j] {
      assert j in Elems(l);
    }
  }

  /** Removing values only concerns the effective code. */
  lemma EffRemoved(c: Code, e: Exp, d: Code, S: set<nat>)
    requires Shape(c, e) && ValuesRemoved(c, d, S) && S <= Eff(c, e).pend && Wf(Eff(c, e))
    ensures Shape(d, e) && ValuesRemoved(Eff(c, e), Eff(d, e), S) && Grown(c, d)
    ensures forall R :: Finish(d, e, R) == Finish(c, e, R)
  {
    var b := Eff(c, e);
    assert forall j :: j in S ==> c.base < j < |b.ins|;
    hide Wf;
    assert forall pc :: |b.ins| <= pc < |c.ins| ==> d.ins[pc] == Unvalued(c.ins, S, pc) == c.ins[pc];
    assert forall pc :: 0 <= pc < c.base ==> d.ins[pc] == Unvalued(c.ins, S, pc) == c.ins[pc];
    forall pc | 0 <= pc < |b.ins| ensures Eff(d, e).ins[pc] == Unvalued(b.ins, S, pc) {
      assert d.ins[pc] == Unvalued(c.ins, S, pc);
    }
  }

  lemma NotDone(c: Code, e: Exp, l: Lists, c2: Code, e2: Exp, d1: Code, d: Code)
    requires WfExp(c, e, l) && Inverted(c, e, c2, e2) && e2.t == e.f && e2.f == e.t
    requires ValuesRemoved(c2, d1, Elems(l.ts)) && ValuesRemoved(d1, d, Elems(l.fs))
    ensures Moved(c, e, l, d, e2, Lists(l.fs, l.ts))
    ensures forall R0 :: Den(d, e2, Lists(l.fs, l.ts), R0) == Negate(Den(c, e, l, R0))
  {
    hide Wf, WfList, Run, Chain, Kept, Den, Eff, Finish, Grown, Shape;
    var b := Eff(c, e);
    WfListPend(b, e.t, l.ts, true);
    WfListPend(b, e.f, l.fs, false);
    EffRemoved(c2, e2, d1, Elems(l.ts));
    RemovedRun(b, Eff(d1, e2), Elems(l.ts));
    EffRemoved(d1, e2, d, Elems(l.fs));
    var b1, b2 := Eff(d1, e2), Eff(d, e2);
    RemoveTwice(b, b1, b2, Elems(l.ts), Elems(l.fs));
    SwappedList(b, b2, e.t, l.ts, true);
    SwappedList(b, b2, e.f, l.fs, false);
    NotFrame(c, e, l, c2, e2, d1, d);
    forall R0 ensures Den(d, e2, Lists(l.fs, l.ts), R0) == Negate(Den(c, e, l, R0)) {
      NotControls(l, d, e2, b2);
      NotMeaning(c, e, l, d, e2, R0);
    }
  }

  lemma NotControls(l: Lists, d: Code, e: Exp, b: Code)
    requires Shape(d, e) && b == Eff(d, e)
    requires forall j :: j in Elems(l.ts) || j in Elems(l.fs) ==> 0 < j < |b.ins| && !b.ins[j - 1].TESTSET?
    ensures forall j :: j in l.ts || j in l.fs ==> 0 < j < |d.ins| && !d.ins[j - 1].TESTSET?
  {
    forall j | j in l.ts || j in l.fs ensures 0 < j < |d.ins| && !d.ins[j - 1].TESTSET? {
      assert j in Elems(l.ts) || j in Elems(l.fs);
    }
  }

  lemma NotFrame(c: Code, e: Exp, l: Lists, c2: Code, e2: Exp, d1: Code, d: Code)
    requires WfExp(c, e, l) && Inverted(c, e, c2, e2)
    requires Shape(d, e2) && Grown(c2, d1) && Grown(d1, d) && |d.ins| == |c2.ins|
    requires Kept(Eff(c, e), Eff(d, e2), Eff(c, e).pend - Elems(l.ts) - Elems(l.fs)) && d.pend == c2.pend
    ensures Grown(c, d) && Rest(d, e2, Lists(l.fs, l.ts)) == Rest(c, e, l) && Kept(c, d, Rest(c, e, l))
  {
    EffPend(c, e, l);
    EffKept(c, e, l);
    InvertedPend(c, e, l, c2, e2, d);
    InvertedGrown(c, e, c2, e2);
    var b, b2 := Eff(c, e), Eff(d, e2);
    var P := b.pend - Elems(l.ts) - Elems(l.fs);
    EffPrefix(d, e2);
    hide Wf, WfExp, Inverted, Eff, Shape, Kept;
    assert Grown(c, d);
    hide Grown;
    assert Own(e2, Lists(l.fs, l.ts)) == Own(e, l);
    assert Rest(c, e, l) == P;
    hide Rest;
    KeptAcross(b, c, b2, d, P);
  }

  lemma EffPrefix(d: Code, e: Exp)
    requires Shape(d, e)
    ensures |Eff(d, e).ins| <= |d.ins| && forall j :: 0 <= j < |Eff(d, e).ins| ==> d.ins[j] == Eff(d, e).ins[j]
  {
  }

  lemma KeptAcross(b: Code, c: Code, b2: Code, d: Code, P: set<nat>)
    requires Kept(b, c, b.pend) && P <= b.pend && Kept(b, b2, P)
    requires |b2.ins| <= |d.ins| && forall j :: 0 <= j < |b2.ins| ==> d.ins[j] == b2.ins[j]
    ensures Kept(c, d, P)
  {
  }

  lemma InvertedGrown(c: Code, e: Exp, c2: Code, e2: Exp)
    requires Shape(c, e) && Inverted(c, e, c2, e2)
    ensures Grown(c, c2)
  {
  }

  lemma InvertedPend(c: Code, e: Exp, l: Lists, c2: Code, e2: Exp, d: Code)
    requires WfExp(c, e, l) && Inverted(c, e, c2, e2) && Shape(d, e2) && d.pend == c2.pend && |d.ins| == |c2.ins|
    ensures d.pend == c.pend && (e2.k.VJMP? <==> e.k.VJMP?) && (e.k.VJMP? ==> e2.k == e.k)
  {
    hide Wf, WfList, Finish;
    var b, p := Eff(c2, e2), Eff(c, e);
    assert b.pend == p.pend;
    if e.k.VJMP? {
      assert c2.pend == b.pend + {e.k.jmp} && c.pend == p.pend + {e.k.jmp};
    } else {
      assert c2.pend == b.pend && c.pend == p.pend;
    }
  }

  /** From the expression as given to the one whose value is in a register, or the same. */
  ghost predicate Settled(c: Code, e: Exp, l: Lists, d: Code, e': Exp, lo: nat) {
    && Moved(c, e, l, d, e', l)
    && forall R0 :: Shape(c, e) && Shape(d, e') ==> SameMeaning(Den(c, e, l, R0), Den(d, e', l, R0), lo)
  }

  lemma NotConst(c: Code, e: Exp, l: Lists, k: Kind)
    requires WfExp(c, e, l)
    requires ((e.k.VNIL? || e.k.VFALSE?) && k == VTRUE)
             || ((e.k.VKINT? || e.k.VKSTR? || e.k.VTRUE? || (e.k.VK? && Truthy(c.ks[e.k.idx]))) && k == VFALSE)
    ensures Inverted(c, e, c, Exp(k, e.f, e.t))
  {
    hide WfList;
    PrefixKept(c, c);
  }

  lemma NotJump(c: Code, e: Exp, l: Lists, d: Code)
    requires WfExp(c, e, l) && e.k.VJMP?
    requires d == c.(ins := c.ins[e.k.jmp - 1 := Flip(c.ins[e.k.jmp - 1], true)])
    ensures Inverted(c, e, d, Exp(e.k, e.f, e.t))
  {
    hide WfList, Wf;
    var n := |c.ins| - 2;
    assert d.ins[..n] == c.ins[..n];
    var i, i' := c.ins[n], d.ins[n];
    assert IsCompare(i') && i'.k == !i.k;
    forall R ensures Finish(d, Exp(e.k, e.f, e.t), R) == Negate(Finish(c, e, R)) {
      assert Tested(i', d.ks, R) == Tested(i, c.ks, R);
    }
  }

  lemma NotReg(c: Code, e: Exp, l: Lists, d: Code, pc: nat)
    requires WfExp(c, e, l) && e.k.VNONRELOC? && pc == |c.ins| && d == c.(ins := c.ins + [NOT(0, e.k.reg)])
    ensures Inverted(c, e, d, Exp(VRELOC(pc), e.f, e.t))
  {
    hide WfList;
    assert d.ins[..pc] == c.ins;
    assert pc !in c.pend;
    assert c.pend - {pc} == c.pend;
  }

  lemma InvertedLinked(c: Code, e: Exp, l: Lists, d: Code, e': Exp)
    requires WfExp(c, e, l) && Inverted(c, e, d, e') && e'.f == e.t && e'.t == e.f
    ensures Linked(d, e'.f, l.ts) && Linked(d, e'.t, l.fs)
  {
    var b := Eff(c, e);
    hide Wf, Chain, Finish;
    WfListLinked(b, e.t, l.ts, true);
    WfListLinked(b, e.f, l.fs, false);
    EffPrefix(d, e');
    PrefixLinked(b, d, e.t, l.ts);
    PrefixLinked(b, d, e.f, l.fs);
  }

  lemma PrefixLinked(b: Code, d: Code, head: int, l: seq<nat>)
    requires Linked(b, head, l) && |b.ins| <= |d.ins| && b.pend <= d.pend
    requires forall j :: 0 <= j < |b.ins| ==> d.ins[j] == b.ins[j]
    ensures Linked(d, head, l)
  {
  }

  lemma FirstRemoved(c: Code, d: Code, head: int, l: seq<nat>, S: set<nat>)
    requires Linked(c, head, l) && |d.ins| == |c.ins| && d == c.(ins := d.ins)
    requires forall pc :: 0 <= pc < |c.ins| ==> d.ins[pc] == Unvalued(c.ins, S, pc)
    ensures ValuesRemoved(c, d, S) && Linked(d, head, l)
  {
    forall j | j in l ensures 0 < j < |d.ins| && d.ins[j] == c.ins[j] {
      assert c.ins[j].JMP?;
    }
  }

  lemma SecondRemoved(c: Code, d: Code, S: set<nat>)
    requires |d.ins| == |c.ins| && d == c.(ins := d.ins)
    requires forall pc :: 0 <= pc < |c.ins| ==> d.ins[pc] == Unvalued(c.ins, S, pc)
    ensures ValuesRemoved(c, d, S)
  {
  }

  lemma NotSame(c: Code, e: Exp, l: Lists, d: Code, e': Exp, lo: nat)
    requires WfExp(c, e, l)
    requires (d == c && e' == e)
             || (lo < 256 && Moved(c, e, l, d, e', l) && Shape(d, e') && forall R0 :: Loads(Den(c, e, l, R0), Den(d, e', l, R0), lo))
    ensures Settled(c, e, l, d, e', lo)
  {
    hide Wf, WfList, Den;
    if d == c && e' == e {
      assert Moved(c, e, l, c, e, l) by { MovedSelf(c, e, l); }
    } else {
      hide Moved;
      forall R0 | Shape(c, e) && Shape(d, e') ensures SameMeaning(Den(c, e, l, R0), Den(d, e', l, R0), lo) {
        assert Loads(Den(c, e, l, R0), Den(d, e', l, R0), lo);
      }
    }
  }

  lemma MovedSelf(c: Code, e: Exp, l: Lists)
    requires WfExp(c, e, l)
    ensures Moved(c, e, l, c, e, l)
  {
    EffKept(c, e, l);
    EffPend(c, e, l);
    assert Rest(c, e, l) <= Eff(c, e).pend;
    assert Wf(Eff(c, e));
    hide WfList;
    KeptSelf(c, e);
  }

  lemma KeptSelf(c: Code, e: Exp)
    requires Shape(c, e) && Wf(Eff(c, e))
    ensures Kept(c, c, Eff(c, e).pend) && Grown(c, c)
  {
  }

  lemma MovedOn(c: Code, e: Exp, l: Lists, d: Code, e1: Exp, l1: Lists, f: Code, e2: Exp, l2: Lists)
    requires Moved(c, e, l, d, e1, l1) && Moved(d, e1, l1, f, e2, l2)
    ensures Moved(c, e, l, f, e2, l2)
  {
    hide WfExp, Rest;
  }

  lemma NotTrans(c: Code, e: Exp, l: Lists, d: Code, e1: Exp, f: Code, e2: Exp, lo: nat)
    requires Settled(c, e, l, d, e1, lo) && Shape(c, e) && Shape(d, e1) && Shape(f, e2)
    requires Moved(d, e1, l, f, e2, Lists(l.fs, l.ts))
    requires forall R0 :: Den(f, e2, Lists(l.fs, l.ts), R0) == Negate(Den(d, e1, l, R0))
    ensures Moved(c, e, l, f, e2, Lists(l.fs, l.ts))
    ensures forall R0 :: SameMeaning(Negate(Den(c, e, l, R0)), Den(f, e2, Lists(l.fs, l.ts), R0), lo)
  {
    MovedOn(c, e, l, d, e1, l, f, e2, Lists(l.fs, l.ts));
    hide Moved, Den;
    forall R0 ensures SameMeaning(Negate(Den(c, e, l, R0)), Den(f, e2, Lists(l.fs, l.ts), R0), lo) {
      assert SameMeaning(Den(c, e, l, R0), Den(d, e1, l, R0), lo);
    }
  }

  lemma ExchangedGrown(c: Code, d1: Code, d: Code, S1: set<nat>, S2: set<nat>, n: nat)
    requires ValuesRemoved(c, d1, S1) && ValuesRemoved(d1, d, S2) && 0 < n <= |c.ins|
    ensures |d.ins| == |c.ins| && (!c.ins[n - 1].LOADNIL? ==> !d.ins[n - 1].LOADNIL?)
  {
    assert d1.ins[n - 1] == Unvalued(c.ins, S1, n - 1);
    assert d.ins[n - 1] == Unvalued(d1.ins, S2, n - 1);
  }
}

