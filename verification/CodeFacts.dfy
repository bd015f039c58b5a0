/**
 Facts about generated code: when it is well formed, what appending to it and
 patching its jumps do to what it computes, and what an expression in the middle
 of being compiled stands for.
 */
module CodeFacts {
  import opened LuaCode
  import opened Options

  // ----- well-formed code -----

  /** The place right after a test or a LOADKX, which belongs to it. */
  predicate Mid(c: Code, pc: nat) {
    c.base < pc <= |c.ins| && (IsTest(c.ins[pc - 1]) || c.ins[pc - 1].LOADKX?)
  }

  /** A place where execution may go: a known label, not inside a pair. */
  predicate Target(c: Code, t: int) {
    c.base <= t <= c.last && t <= |c.ins| && !Mid(c, t)
  }

  /** The instruction at `pc` is complete. */
  predicate WfAt(c: Code, pc: nat)
    requires c.base <= pc < |c.ins|
  {
    var i := c.ins[pc];
    && (IsTest(i) ==> pc + 1 < |c.ins| && c.ins[pc + 1].JMP?)
    && (i.LOADKX? ==> pc + 1 < |c.ins| && c.ins[pc + 1].EXTRAARG? && c.ins[pc + 1].ax < |c.ks|)
    && (i.EXTRAARG? ==> pc > c.base && c.ins[pc - 1].LOADKX?)
    && (i.LFALSESKIP? ==> Target(c, pc + 2))
    && (i.LOADK? ==> i.bx < |c.ks|)
    && (i.EQK? ==> i.kb < |c.ks|)
    && (i.JMP? && pc !in c.pend ==> pc < pc + 1 + i.sj && Target(c, pc + 1 + i.sj))
    && !i.OTHER?
    && (i.TESTSET? && pc + 1 in c.pend ==> i.a == NO_REG)
  }

  /** Well-formed code: pairs are complete, settled jumps go forward to labels,
      pending ones are guarded by tests that write no register yet. */
  ghost predicate Wf(c: Code) {
    && c.base <= |c.ins|
    && c.last <= |c.ins|
    && (forall pc :: c.base <= pc < |c.ins| ==> WfAt(c, pc))
    && (forall j :: j in c.pend ==> c.base < j < |c.ins| && c.ins[j].JMP? && IsTest(c.ins[j - 1]))
  }

  /** From a place where execution may go, a step leads to another one, or stops
      at a pending jump or with an error. */
  lemma StepWf(c: Code, pc: nat, R: Regs)
    requires Wf(c) && c.base <= pc < |c.ins| && !Mid(c, pc)
    ensures var n := Step(c, pc, R);
            && (n.Go? ==> n.pc <= |c.ins| && !Mid(c, n.pc))
            && (n.Halt? ==> n.o.Error? || (n.o.Exit? && n.o.j in c.pend))
  {
    hide Tested, Plain;
    assert WfAt(c, pc);
    if pc + 1 < |c.ins| {
      assert WfAt(c, pc + 1);
    }
  }

  /** A pending jump is taken with the value its test keeps: a true one exactly
      when the test asks for truth. */
  lemma StepExit(c: Code, pc: nat, R: Regs)
    requires Wf(c) && c.base <= pc < |c.ins| && !Mid(c, pc)
    ensures var n := Step(c, pc, R);
            n.Halt? && n.o.Exit? ==>
              && n.o.j in c.pend
              && (c.ins[n.o.j - 1].TESTSET? ==> Truthy(n.o.R[c.ins[n.o.j - 1].b]) == c.ins[n.o.j - 1].k)
  {
    hide Plain;
    StepWf(c, pc, R);
    assert WfAt(c, pc);
  }

  lemma {:induction false} ExitFacts(c: Code, pc: nat, R: Regs)
    requires Wf(c) && c.base <= pc <= |c.ins| && !Mid(c, pc)
    ensures var o := Exec(c, pc, R);
            && o != Stuck
            && (o.Exit? ==>
              && o.j in c.pend
              && (c.ins[o.j - 1].TESTSET? ==> Truthy(o.R[c.ins[o.j - 1].b]) == c.ins[o.j - 1].k))
    decreases |c.ins| - pc
  {
    hide Step, Mid;
    if pc < |c.ins| {
      StepWf(c, pc, R);
      StepExit(c, pc, R);
      var n := Step(c, pc, R);
      if n.Go? {
        ExitFacts(c, n.pc, n.R);
      }
    }
  }

  // ----- appending code -----

  /** `d` is `c` with more code at its end. */
  ghost predicate Prefix(c: Code, d: Code) {
    && c.base == d.base
    && |c.ins| <= |d.ins|
    && (forall pc :: 0 <= pc < |c.ins| ==> d.ins[pc] == c.ins[pc])
    && |c.ks| <= |d.ks|
    && (forall k :: 0 <= k < |c.ks| ==> d.ks[k] == c.ks[k])
    && c.pend <= d.pend
    && (forall j :: j in d.pend && j < |c.ins| ==> j in c.pend)
  }

  ghost function Then(o: Outcome, c: Code, pc: nat): Outcome {
    match o
    case Fall(R) => Exec(c, pc, R)
    case _ => o
  }

  lemma StepAppend(c: Code, d: Code, pc: nat, R: Regs)
    requires Wf(c) && Prefix(c, d)
    requires c.base <= pc < |c.ins| && !Mid(c, pc)
    ensures Step(d, pc, R) == Step(c, pc, R)
  {
    var i := c.ins[pc];
    assert d.ins[pc] == i && WfAt(c, pc);
    if pc + 1 < |c.ins| {
      assert d.ins[pc + 1] == c.ins[pc + 1] && WfAt(c, pc + 1);
    }
    if IsTest(i) {
      assert Tested(i, d.ks, R) == Tested(i, c.ks, R);
    } else if IsPlain(i) {
      assert Plain(i, d.ks, R) == Plain(i, c.ks, R);
    }
  }

  /** Code appended to a stretch runs when the stretch falls off its end. */
  lemma {:induction false} ExecAppend(c: Code, d: Code, pc: nat, R: Regs)
    requires Wf(c) && Prefix(c, d)
    requires c.base <= pc <= |c.ins| && !Mid(c, pc)
    ensures Exec(d, pc, R) == Then(Exec(c, pc, R), d, |c.ins|)
    decreases |c.ins| - pc
  {
    hide Step, Mid;
    if pc < |c.ins| {
      StepWf(c, pc, R);
      StepAppend(c, d, pc, R);
      var n := Step(c, pc, R);
      if n.Go? {
        ExecAppend(c, d, n.pc, n.R);
      }
    }
  }

  // ----- patching jumps -----

  /** Instruction `i` rewritten as `i'` at a place whose jump is pending: a test
      that produces a value gets its register, or becomes a plain test. */
  predicate Retested(i: Instr, i': Instr) {
    i.TESTSET? && (i' == TEST(i.b, i.k) || (i'.TESTSET? && i'.b == i.b && i'.k == i.k))
  }

  /** `d` is `c` with the jumps in `S` settled, links of other pending jumps
      possibly changed and tests before pending jumps possibly rewritten. */
  ghost predicate Patched(c: Code, d: Code, S: set<nat>) {
    && c.base == d.base && |c.ins| == |d.ins| && c.ks == d.ks && d.pend == c.pend - S
    && (forall pc :: c.base <= pc < |c.ins| ==> PatchedAt(c, d, pc))
  }

  predicate PatchedAt(c: Code, d: Code, pc: nat)
    requires pc < |c.ins| && pc < |d.ins|
  {
    || d.ins[pc] == c.ins[pc]
    || (pc in c.pend && d.ins[pc].JMP?)
    || (pc + 1 in c.pend && Retested(c.ins[pc], d.ins[pc]))
  }

  /** Registers on arrival of the jump at `j`, once its test is patched. */
  function Land(d: Code, j: nat, R: Regs): Regs
    requires 0 < j <= |d.ins|
  {
    if d.ins[j - 1].TESTSET? then Taken(d.ins[j - 1], R) else R
  }

  /** What a settled jump does instead of ending the run. */
  function Relay(d: Code, S: set<nat>, n: Next): Next {
    if n.Halt? && n.o.Exit? && n.o.j in S && 0 < n.o.j < |d.ins| then
      Leap(d, n.o.j, Land(d, n.o.j, n.o.R))
    else n
  }

  lemma StepPatchedTest(c: Code, d: Code, S: set<nat>, pc: nat, R: Regs)
    requires Wf(c) && Wf(d) && Patched(c, d, S)
    requires c.base <= pc < |c.ins| && IsTest(c.ins[pc])
    ensures Step(d, pc, R) == Relay(d, S, Step(c, pc, R))
  {
    var i, i', j := c.ins[pc], d.ins[pc], pc + 1;
    assert WfAt(c, pc) && WfAt(d, pc) && PatchedAt(c, d, pc);
    assert WfAt(c, j) && WfAt(d, j) && PatchedAt(c, d, j);
    assert IsTest(i') && i'.k == i.k && Tested(i', d.ks, R) == Tested(i, c.ks, R);
    hide Wf, Patched, PatchedAt, WfAt, Tested;
    if j !in c.pend {
      assert d.ins[j] == c.ins[j] && i' == i;
    } else {
      assert Taken(i, R) == R;
      assert j !in S ==> Taken(i', R) == R;
      assert Land(d, j, R) == Taken(i', R);
    }
  }

  lemma StepPatched(c: Code, d: Code, S: set<nat>, pc: nat, R: Regs)
    requires Wf(c) && Wf(d) && Patched(c, d, S)
    requires c.base <= pc < |c.ins| && !Mid(c, pc)
    ensures Step(d, pc, R) == Relay(d, S, Step(c, pc, R))
  {
    hide Plain, Tested;
    var i := c.ins[pc];
    if IsTest(i) {
      StepPatchedTest(c, d, S, pc, R);
    } else {
      assert WfAt(c, pc) && WfAt(d, pc) && PatchedAt(c, d, pc);
      if i.LOADKX? {
        assert WfAt(c, pc + 1) && PatchedAt(c, d, pc + 1);
        assert d.ins[pc + 1] == c.ins[pc + 1];
      }
    }
  }

  ghost function Rejoin(d: Code, S: set<nat>, o: Outcome): Outcome {
    if o.Exit? && o.j in S && 0 < o.j < |d.ins| then
      match Leap(d, o.j, Land(d, o.j, o.R))
      case Go(q, R) => Exec(d, q, R)
      case Halt(p) => p
    else o
  }

  /** Once some pending jumps are settled, a run that ended at one of them goes on
      at its destination; all other runs end as before. */
  lemma {:induction false} ExecPatched(c: Code, d: Code, S: set<nat>, pc: nat, R: Regs)
    requires Wf(c) && Wf(d) && Patched(c, d, S)
    requires c.base <= pc <= |c.ins| && !Mid(c, pc)
    ensures Exec(d, pc, R) == Rejoin(d, S, Exec(c, pc, R))
    decreases |c.ins| - pc
  {
    hide Step, Mid, Leap, Land;
    if pc < |c.ins| {
      StepWf(c, pc, R);
      StepPatched(c, d, S, pc, R);
      var n := Step(c, pc, R);
      if n.Go? {
        ExecPatched(c, d, S, n.pc, n.R);
      }
    }
  }
}
