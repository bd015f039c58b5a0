/**
 The code generator for expressions: delayed expressions, jump lists threaded
 through the jumps themselves, and the register stack.
 */
module CodeGen {
  import opened LuaCode
  import opened Options
  import opened CodeFacts
  import opened ExpFacts
  import opened ExpSteps
  import opened ExprMeaning

  /** The syntax errors the generator can raise. */
  datatype Status = Ok | TooManyRegisters | StructureTooLong | TooManyConstants
  {
    predicate IsFailure() { !Ok? }
    function PropagateFailure(): Status
      requires IsFailure()
    {
      this
    }
  }

  const MAXREGS: nat := 255
  const MAXARG_Ax: nat := 33554431

  predicate HasJumps(e: Exp) {
    e.t != e.f
  }

  predicate FitsC(i: int) {
    0 <= i + OFFSET_sC <= MAXARG_C
  }

  predicate FitsBx(i: int) {
    -OFFSET_sBx <= i <= MAXARG_Bx - OFFSET_sBx
  }

  /** The descriptor once it is not a variable. */
  function DischargeVars(e: Exp): Exp {
    if e.k.VLOCAL? then e.(k := VNONRELOC(e.k.ridx)) else e
  }

  datatype BinOpr = OprRel(op: Rel) | OprAnd | OprOr

  /** The list that leaves with the truth value that decides. */
  function Exits(e: Exp, go: bool): int {
    if go then e.f else e.t
  }

  function Max(x: nat, y: nat): nat {
    if x < y then y else x
  }

  /** How many registers the code for an expression is ever using at once. */
  function Depth(ex: Expr): nat {
    match ex
    case ENot(a) => Max(Depth(a), 1)
    case ERel(_, a, b) => Max(Max(Depth(a), 2), Depth(b) + 1)
    case EAnd(a, b) => Max(Max(Depth(a), Depth(b)), 1)
    case EOr(a, b) => Max(Max(Depth(a), Depth(b)), 1)
    case _ => 0
  }

  /** A small integer that fits a signed operand. */
  predicate IsSCnumber(e: Exp) {
    e.k.VKINT? && !HasJumps(e) && FitsC(e.k.i)
  }

  class FuncState {
    var code: seq<Instr>
    var k: seq<Value>
    var scanner: map<Value, nat>   // where constants may be; shared by all functions
    var freereg: nat
    var maxstacksize: nat
    var lasttarget: nat
    const nvarstack: nat           // registers of active local variables
    ghost var base: nat            // where the stretch under consideration starts
    ghost var pend: set<nat>       // jumps whose destination is not known yet

    ghost function View(): Code
      reads this
    {
      Code(base, lasttarget, code, k, pend)
    }

    /** The register stack is within bounds, and the stretch is not preceded by an
        instruction that would be merged with its first one. */
    ghost predicate Valid()
      reads this
    {
      && nvarstack <= freereg <= maxstacksize < MAXREGS
      && base <= |code|
      && (base > 0 && lasttarget < base ==> !code[base - 1].LOADNIL?)
    }

    /** A failure is the program's fault: more than `n` registers are at stake, or there
        is more code than a jump can cross, or the table of constants is full. */
    predicate Excused(s: Status, n: nat)
      reads this`code, this`k
    {
      match s
      case Ok => true
      case TooManyRegisters => n >= MAXREGS
      case StructureTooLong => |code| > OFFSET_sJ
      case TooManyConstants => |k| >= MAXARG_Ax
    }

    // ----- emitting instructions -----

    method Emit(i: Instr) returns (pc: nat)
      modifies this`code
      ensures code == old(code) + [i] && pc == |old(code)|
    {
      code := code + [i];
      pc := |code| - 1;
    }

    /** The last instruction, unless a jump may lead to right after it. */
    method PreviousInstruction() returns (i: Option<Instr>)
      ensures i == if |code| > lasttarget then Some(code[|code| - 1]) else None
    {
      if |code| > lasttarget {
        return Some(code[|code| - 1]);
      }
      return None;
    }

    /** Sets `n` registers to nil, widening a preceding LOADNIL when it can. */
    method Nil(from: nat, n: nat)
      requires Valid() && Wf(View()) && n > 0 && from + n <= 256
      modifies this`code
      ensures Valid() && Wf(View()) && Grown(old(View()), View()) && Kept(old(View()), View(), pend)
      ensures forall R0 :: Run(View(), R0) == Nils(Run(old(View()), R0), from, n - 1)
    {
      hide Wf, Run, Nils, WriteNil;
      ghost var c := View();
      var l := from + n - 1;
      var previous := PreviousInstruction();
      if previous.Some? && previous.value.LOADNIL? {
        var pfrom := previous.value.a;
        var pl := pfrom + previous.value.n;
        if (pfrom <= from <= pl + 1) || (from <= pfrom <= l + 1) {
          var first := if pfrom < from then pfrom else from;
          var last := if pl > l then pl else l;
          code := code[|code| - 1 := LOADNIL(first, last - first)];
          NilMerged(c, View(), from, n - 1);
          MergeKept(c, View());
          return;
        }
      }
      var _ := Emit(LOADNIL(from, n - 1));
      AppendNil(c, View(), from, n - 1);
    }

    // ----- jump lists -----

    /** The jump after the one at `pc` in its list. */
    function GetJump(pc: nat): int
      requires pc < |code| && code[pc].JMP?
      reads this`code
    {
      NextJump(code, pc)
    }

    method FixJump(pc: nat, dest: int) returns (s: Status)
      requires pc < |code| && code[pc].JMP? && dest != NO_JUMP
      modifies this`code
      ensures s.Ok? <==> -OFFSET_sJ <= dest - (pc + 1) <= MAXARG_sJ - OFFSET_sJ
      ensures code == if s.Ok? then old(code)[pc := JMP(dest - (pc + 1))] else old(code)
      ensures s.Ok? || s.StructureTooLong?
    {
      var offset := dest - (pc + 1);
      if !(-OFFSET_sJ <= offset <= MAXARG_sJ - OFFSET_sJ) {
        return StructureTooLong;
      }
      code := code[pc := JMP(offset)];
      return Ok;
    }

    /** Joins two jump lists: the last jump of the first links to the second. */
    method Concat(l1: int, l2: int, ghost s1: seq<nat>, ghost s2: seq<nat>) returns (s: Status, l: int)
      requires Chain(code, l1, s1) && Chain(code, l2, s2)
      requires forall j :: j in s1 ==> j !in s2
      modifies this`code
      ensures s.Ok? ==> Chain(code, l, s1 + s2) && code == Joined(old(code), s1, s2)
      ensures Excused(s, 0)
    {
      hide Chain;
      ChainHead(code, l1, s1);
      ChainHead(code, l2, s2);
      if l2 == NO_JUMP {
        assert s2 == [] && s1 + s2 == s1;
        return Ok, l1;
      } else if l1 == NO_JUMP {
        assert s1 == [] && s1 + s2 == s2;
        return Ok, l2;
      }
      var list := l1;
      ChainAt(code, l1, s1, 0);
      var next := GetJump(list);
      ghost var i := 0;
      while next != NO_JUMP
        invariant 0 <= i < |s1| && list == s1[i] && next == Head(s1, i + 1)
        invariant code == old(code) && list < |code| && code[list].JMP?
        decreases |s1| - i
      {
        list := next;
        i := i + 1;
        ChainAt(code, l1, s1, i);
        next := GetJump(list);
      }
      ChainAt(code, l2, s2, 0);
      s := FixJump(list, l2);
      l := l1;
      ChainJoin(old(code), l1, l2, s1, s2);
    }

    method Jump() returns (pc: nat)
      modifies this`code
      ensures code == old(code) + [JMP(NO_JUMP)] && pc == |old(code)|
    {
      pc := Emit(JMP(NO_JUMP));
    }

    /** A test and the jump it decides about. */
    method CondJump(i: Instr) returns (pc: nat)
      requires IsTest(i)
      modifies this`code, this`pend
      ensures code == old(code) + [i, JMP(NO_JUMP)] && pc == |old(code)| + 1
      ensures pend == old(pend) + {pc}
    {
      var _ := Emit(i);
      pc := Jump();
      pend := pend + {pc};
    }

    /** The current position, from now on possibly the target of a jump. */
    method GetLabel() returns (pc: nat)
      modifies this`lasttarget
      ensures lasttarget == |code| && pc == |code|
    {
      lasttarget := |code|;
      pc := |code|;
    }

    /** Gives the test before the jump at `node` its register; says whether it is a
        test that produces a value. */
    method PatchTestReg(node: nat, reg: Reg) returns (produces: bool)
      requires 0 < node < |code| && code[node].JMP?
      modifies this`code
      ensures produces == old(code)[node - 1].TESTSET?
      ensures code == old(code)[node - 1 := PatchTest(old(code)[node - 1], reg)]
    {
      var i := code[node - 1];
      if !i.TESTSET? {
        return false;
      }
      if reg != NO_REG && reg != i.b {
        code := code[node - 1 := TESTSET(reg, i.b, i.k)];
      } else {
        code := code[node - 1 := TEST(i.b, i.k)];
      }
      return true;
    }

    /** No test before a jump in the list produces a value any more. */
    method RemoveValues(list: int, ghost l: seq<nat>)
      requires Chain(code, list, l) && forall j :: j in l ==> j > 0
      modifies this`code
      ensures |code| == |old(code)|
      ensures forall pc :: 0 <= pc < |code| ==> code[pc] == Unvalued(old(code), Elems(l), pc)
    {
      hide Chain, Upto, PatchTest;
      ghost var was := code;
      ChainHead(was, list, l);
      UptoAll(l);
      var node := list;
      ghost var i := 0;
      while node != NO_JUMP
        invariant 0 <= i <= |l| && node == Head(l, i) && |code| == |was|
        invariant forall pc :: 0 <= pc < |code| ==> code[pc] == Unvalued(was, Upto(l, i), pc)
        decreases |l| - i
      {
        ChainAt(was, list, l, i);
        UptoNext(was, list, l, i);
        UnvaluedMore(was, Upto(l, i), l[i]);
        var _ := PatchTestReg(node, NO_REG);
        node := GetJump(node);
        i := i + 1;
      }
    }

    /** Whether some jump in the list produces no value. */
    method NeedValue(list: int, ghost l: seq<nat>) returns (need: bool)
      requires Chain(code, list, l) && forall j :: j in l ==> j > 0
      ensures need <==> exists j :: j in l && !code[j - 1].TESTSET?
    {
      hide Chain;
      ChainHead(code, list, l);
      var node := list;
      ghost var i := 0;
      while node != NO_JUMP
        invariant 0 <= i <= |l| && node == Head(l, i)
        invariant forall n :: 0 <= n < i ==> 0 < l[n] <= |code| && code[l[n] - 1].TESTSET?
        decreases |l| - i
      {
        ChainAt(code, list, l, i);
        if !code[node - 1].TESTSET? {
          return true;
        }
        node := GetJump(node);
        i := i + 1;
      }
      return false;
    }

    /** Redirects every jump in a list, and no other: tests that produce a value get
        `reg` and jump to `vtarget`, the others jump to `dtarget`. */
    method PatchListAux(list: int, vtarget: nat, reg: Reg, dtarget: int, ghost l: seq<nat>) returns (s: Status)
      requires Chain(code, list, l) && forall j :: j in l ==> j > 0
      requires dtarget >= 0 || (forall j :: j in l ==> code[j - 1].TESTSET?)
      modifies this`code
      ensures s.Ok? ==> |code| == |old(code)|
      ensures s.Ok? ==> forall pc :: 0 <= pc < |code| ==>
                code[pc] == Redirect(old(code), Elems(l), vtarget, reg, if dtarget < 0 then 0 else dtarget, pc)
      ensures vtarget <= |old(code)| && dtarget <= |old(code)| ==> Excused(s, 0)
    {
      hide Chain, Upto, PatchTest, Redirect;
      ghost var was := code;
      ChainHead(was, list, l);
      UptoAll(l);
      ghost var dt := if dtarget < 0 then 0 else dtarget;
      RedirectNone(was, vtarget, reg, dt);
      var node := list;
      ghost var i := 0;
      while node != NO_JUMP
        invariant 0 <= i <= |l| && node == Head(l, i) && |code| == |was|
        invariant forall pc :: 0 <= pc < |code| ==> code[pc] == Redirect(was, Upto(l, i), vtarget, reg, dt, pc)
        decreases |l| - i
      {
        ChainAt(was, list, l, i);
        UptoNext(was, list, l, i);
        RedirectMore(was, Upto(l, i), vtarget, reg, dt, l[i]);
        var next := GetJump(node);
        var produces := PatchTestReg(node, reg);
        if produces {
          :- FixJump(node, vtarget);
        } else {
          :- FixJump(node, dtarget);
        }
        node := next;
        i := i + 1;
      }
      return Ok;
    }

    /** All jumps in a list lead to the current position. */
    method PatchToHere(list: int, ghost l: seq<nat>) returns (s: Status)
      requires Chain(code, list, l) && forall j :: j in l ==> j > 0
      modifies this`code, this`lasttarget
      ensures lasttarget == |old(code)|
      ensures s.Ok? ==> |code| == |old(code)|
      ensures s.Ok? ==> forall pc :: 0 <= pc < |code| ==>
                code[pc] == Redirect(old(code), Elems(l), |old(code)|, NO_REG, |old(code)|, pc)
      ensures Excused(s, 0)
    {
      var hr := GetLabel();
      s := PatchListAux(list, hr, NO_REG, hr, l);
    }

    // ----- registers -----

    method CheckStack(n: nat) returns (s: Status)
      requires maxstacksize < MAXREGS
      modifies this`maxstacksize
      ensures s.Ok? ==> freereg + n <= maxstacksize < MAXREGS
      ensures s.Ok? <==> freereg + n <= old(maxstacksize) || freereg + n < MAXREGS
      ensures maxstacksize >= old(maxstacksize)
      ensures s.Ok? || s.TooManyRegisters?
    {
      var newstack := freereg + n;
      if newstack > maxstacksize {
        if newstack >= MAXREGS {
          return TooManyRegisters;
        }
        maxstacksize := newstack;
      }
      return Ok;
    }

    method ReserveRegs(n: nat) returns (s: Status)
      requires maxstacksize < MAXREGS
      modifies this`maxstacksize, this`freereg
      ensures s.Ok? ==> freereg == old(freereg) + n <= maxstacksize < MAXREGS
      ensures Excused(s, old(freereg) + n)
    {
      s := CheckStack(n);
      if s.Ok? {
        freereg := freereg + n;
      }
    }

    /** Frees a register that holds no local variable; it must be the last one in use. */
    method FreeReg(reg: nat)
      requires reg >= nvarstack ==> freereg == reg + 1
      modifies this`freereg
      ensures freereg == if reg >= nvarstack then old(freereg) - 1 else old(freereg)
    {
      if reg >= nvarstack {
        freereg := freereg - 1;
        assert reg == freereg;
      }
    }

    method FreeExp(e: Exp)
      requires e.k.VNONRELOC? && e.k.reg >= nvarstack ==> freereg == e.k.reg + 1
      modifies this`freereg
      ensures freereg == if e.k.VNONRELOC? && e.k.reg >= nvarstack then old(freereg) - 1 else old(freereg)
    {
      if e.k.VNONRELOC? {
        FreeReg(e.k.reg);
      }
    }

    // ----- constants -----

    /** The index of a constant, new or one that is already there. */
    method AddK(v: Value) returns (s: Status, idx: nat)
      modifies this`k, this`scanner
      ensures s.Ok? ==> idx < |k| && k[idx] == v && (k == old(k) || k == old(k) + [v])
      ensures Excused(s, 0)
    {
      if v in scanner {
        idx := scanner[v];
        if idx < |k| && k[idx] == v {
          return Ok, idx;
        }
      }
      idx := |k|;
      scanner := scanner[v := idx];
      if idx >= MAXARG_Ax {
        return TooManyConstants, idx;
      }
      k := k + [v];
      return Ok, idx;
    }

    method CodeK(reg: Reg, idx: nat)
      modifies this`code
      ensures code == old(code) + LoadK(reg, idx)
    {
      if idx <= MAXARG_Bx {
        var _ := Emit(LOADK(reg, idx));
      } else {
        var _ := Emit(LOADKX(reg));
        var _ := Emit(EXTRAARG(idx));
      }
    }

    method LoadConstant(v: Value, reg: Reg) returns (s: Status, idx: nat)
      modifies this`code, this`k, this`scanner
      ensures s.Ok? ==> idx < |k| && k[idx] == v && (k == old(k) || k == old(k) + [v])
      ensures s.Ok? ==> code == old(code) + LoadK(reg, idx)
      ensures Excused(s, 0)
    {
      idx :- AddK(v);
      CodeK(reg, idx);
      return Ok, idx;
    }

    // ----- bringing values to registers -----

    /** Brings the value of `e`, though not of its jumps, to register `reg`. */
    method Discharge2Reg(e0: Exp, reg: Reg, ghost l: Lists) returns (s: Status, e: Exp)
      requires Valid() && WfExp(View(), e0, l) && reg < NO_REG
      modifies this`code, this`k, this`scanner
      ensures s.Ok? ==> Valid()
      ensures s.Ok? && e0.k.VJMP? ==> e == e0 && View() == old(View())
      ensures s.Ok? && !e0.k.VJMP? ==>
                && e == Exp(VNONRELOC(reg), e0.t, e0.f)
                && Moved(old(View()), e0, l, View(), e, l)
                && forall R0 :: Loads(Den(old(View()), e0, l, R0), Den(View(), e, l, R0), reg)
      ensures Excused(s, 0)
    {
      hide Wf, Run, Kept, WfList, Moved, Den, Loads, Plain, LoadK, Nils;
      ghost var c := View();
      e := DischargeVars(e0);
      match e.k {
        case VNIL =>
          Nil(reg, 1);
          DischargeNil(c, e0, l, View(), reg);
        case VFALSE =>
          var _ := Emit(LOADFALSE(reg));
          DischargeLoad(c, e0, l, View(), reg);
        case VTRUE =>
          var _ := Emit(LOADTRUE(reg));
          DischargeLoad(c, e0, l, View(), reg);
        case VKSTR(str) =>
          var idx;
          idx :- LoadConstant(Str(str), reg);
          DischargeK(c, e0, l, View(), reg, idx);
        case VK(idx) =>
          CodeK(reg, idx);
          DischargeK(c, e0, l, View(), reg, idx);
        case VKINT(i) =>
          if FitsBx(i) {
            var _ := Emit(LOADI(reg, i));
            DischargeLoad(c, e0, l, View(), reg);
          } else {
            var idx;
            idx :- LoadConstant(Int(i), reg);
            DischargeK(c, e0, l, View(), reg, idx);
          }
        case VRELOC(pc) =>
          code := code[pc := NOT(reg, code[pc].b)];
          DischargeLoad(c, e0, l, View(), reg);
        case VNONRELOC(r) =>
          if reg != r {
            var _ := Emit(MOVE(reg, r));
            DischargeLoad(c, e0, l, View(), reg);
          } else {
            DischargeNone(c, e0, l, reg);
          }
        case VJMP(_) =>
          return Ok, e;
      }
      e := Exp(VNONRELOC(reg), e.t, e.f);
      return Ok, e;
    }

    method CodeLoadBool(i: Instr) returns (pc: nat)
      modifies this`code, this`lasttarget
      ensures code == old(code) + [i] && pc == |old(code)| == lasttarget
    {
      var _ := GetLabel();
      pc := Emit(i);
    }

    /** Code that loads a truth value, with a jump around it unless it follows a condition. */
    method LoadBools(reg: Reg, around: bool) returns (s: Status, pf: nat, pt: nat)
      requires Wf(View()) && base < |code|
      modifies this`code, this`lasttarget
      ensures s.Ok? ==>
                && Prefix(old(View()), View()) && lasttarget == |code|
                && pf == |old(code)| + (if around then 1 else 0) && pt == pf + 1 && |code| == pf + 2
                && Bools(View(), pf, reg)
                && (around ==> code[|old(code)|] == JMP(2))
      ensures Excused(s, 0)
    {
      ghost var c := View();
      EndNotMid(c);
      hide Wf, WfAt;
      var fj := NO_JUMP;
      if around {
        fj := Jump();
      }
      pf := CodeLoadBool(LFALSESKIP(reg));
      pt := CodeLoadBool(LOADTRUE(reg));
      ghost var was := code;
      :- PatchToHere(fj, if around then [|c.ins|] else []);
      LoadBoolsDone(c, View(), was, around, reg, pf);
      return Ok, pf, pt;
    }

    /** Makes the condition `e` one more jump of its own true list. */
    method JoinCondition(e0: Exp, ghost l: Lists) returns (s: Status, e: Exp)
      requires WfExp(View(), e0, l) && e0.k.VJMP?
      modifies this`code
      ensures s.Ok? ==>
                && View() == old(View()).(ins := code)
                && code == Joined(old(code), l.ts, [e0.k.jmp])
                && e == e0.(t := e.t)
                && Linked(View(), e.t, l.ts + [e0.k.jmp]) && Linked(View(), e.f, l.fs)
                && (forall j :: j in l.ts + [e0.k.jmp] ==> j !in l.fs)
                && base < |code| && Wf(View())
                && !AllValues(View(), l.ts + [e0.k.jmp])
      ensures Excused(s, 0)
    {
      hide Wf, Chain, WfList, Elems, Kept, Joined;
      ghost var c := View();
      e := e0;
      CondWf(c, e0, l);
      ExpLinked(c, e0, l);
      JumpLists(c, e0, l);
      JumpLinked(c, e0, l);
      var t;
      t :- Concat(e0.t, e0.k.jmp, l.ts, [e0.k.jmp]);
      e := e0.(t := t);
      JoinedWf(c, View(), l.ts, [e0.k.jmp]);
      JoinedLinked(c, View(), e0, l, t);
      return Ok, e;
    }

    /** Jumps of an expression that produce no value get code that loads one. */
    method LoadNeeded(e: Exp, reg: Reg, isJump: bool, ghost ts: seq<nat>, ghost fs: seq<nat>)
      returns (s: Status, need: bool, pf: int, pt: int)
      requires Wf(View()) && base < |code|
      requires Linked(View(), e.t, ts) && Linked(View(), e.f, fs)
      modifies this`code, this`lasttarget
      ensures s.Ok? && !need ==>
                && AllValues(old(View()), ts) && AllValues(old(View()), fs)
                && View() == old(View()) && pf == pt == NO_JUMP
      ensures s.Ok? && need ==>
                && Prefix(old(View()), View()) && lasttarget == |code|
                && pf == |old(code)| + (if isJump then 0 else 1) && pt == pf + 1 && |code| == pf + 2
                && Bools(View(), pf, reg)
                && (!isJump ==> code[|old(code)|] == JMP(2))
      ensures Excused(s, 0)
    {
      hide Wf, Chain, Prefix, Bools;
      pf, pt := NO_JUMP, NO_JUMP;
      need := NeedValue(e.t, ts);
      if !need {
        need := NeedValue(e.f, fs);
      }
      if need {
        pf, pt :- LoadBools(reg, !isJump);
      }
      return Ok, need, pf, pt;
    }

    /** Redirects the jumps of an expression to the end of the code or to the loading code. */
    method PatchExits(e: Exp, reg: Reg, pf: int, pt: int, ghost c: Code, ghost e0: Exp, ghost l: Lists, ghost ts: seq<nat>, ghost fs: seq<nat>)
      returns (s: Status)
      requires Wf(View()) && lasttarget == |code| && reg < NO_REG
      requires Linked(View(), e.t, ts) && Linked(View(), e.f, fs)
      requires Shape(c, e0) && Prepared(c, e0, l, View(), ts, fs, reg)
      requires (pf == pt == NO_JUMP && AllValues(View(), ts) && AllValues(View(), fs))
               || (pf >= 0 && pt == pf + 1 && Bools(View(), pf, reg))
      requires pt < |code|
      modifies this`code, this`pend
      ensures s.Ok? ==> Materialized(c, e0, l, View(), reg) && |code| == |old(code)|
      ensures Excused(s, 0)
    {
      hide Wf, Chain, Prepared, Redirect, Bools, Materialized;
      ghost var d := View();
      ghost var df, dt := if pf < 0 then 0 else pf, if pt < 0 then 0 else pt;
      :- PatchListAux(e.f, |code|, reg, pf, fs);
      pend := pend - Elems(fs);
      ghost var d1 := View();
      PreparedSplit(c, e0, l, d, ts, fs, reg);
      RedirectedFirst(d, d1, e.t, ts, fs, reg, df);
      :- PatchListAux(e.t, |code|, reg, pt, ts);
      pend := pend - Elems(ts);
      RedirectedGrown(d, d1, View(), ts, fs, reg, df, dt);
      PreparedPatch(c, e0, l, d, d1, View(), ts, fs, reg, df, df, dt);
      return Ok;
    }

    /** Brings the final result of `e`, its jumps included, to register `reg`. */
    method Exp2Reg(e0: Exp, reg: Reg, ghost l: Lists) returns (s: Status, e: Exp)
      requires Valid() && WfExp(View(), e0, l) && reg < NO_REG
      modifies this`code, this`k, this`scanner, this`lasttarget, this`pend
      ensures s.Ok? ==> Valid() && e == Exp(VNONRELOC(reg), NO_JUMP, NO_JUMP)
      ensures s.Ok? ==> Materialized(old(View()), e0, l, View(), reg)
      ensures Excused(s, 0)
    {
      hide Wf, Chain, WfList, Ready, Prepared, AllValues, Materialized, Bools, Prefix, Redirect, Linked, Loads, Den, Run, Kept, Joined;
      ghost var c := View();
      e :- Discharge2Reg(e0, reg, l);
      ghost var ts, fs := l.ts, l.fs;
      var isJump := e.k.VJMP?;
      if isJump {
        ts := l.ts + [e.k.jmp];
        e :- JoinCondition(e, l);
      } else {
        PlainPrepared(c, e0, l, View(), e, reg);
        PlainLinked(c, e0, l, View(), e);
      }
      HasJumpsIff(View(), e.t, ts, e.f, fs);
      if HasJumps(e) {
        ghost var c1 := View();
        var need, pf, pt;
        need, pf, pt :- LoadNeeded(e, reg, isJump, ts, fs);
        ghost var c2 := View();
        var final := GetLabel();
        if isJump {
          JumpPrepared(c, e0, l, c1, View(), reg);
        } else if need {
          AroundPrepared(c, e0, l, c1, View(), ts, fs, reg);
        } else {
          LabelPrepared(c, e0, l, c1, View(), ts, fs, reg);
        }
        LinkedOn(c1, View(), e.t, ts);
        LinkedOn(c1, View(), e.f, fs);
        :- PatchExits(e, reg, pf, pt, c, e0, l, ts, fs);
      } else {
        PreparedNone(c, e0, l, View(), reg);
      }
      MaterializedGrown(c, e0, l, View(), reg);
      e := Exp(VNONRELOC(reg), NO_JUMP, NO_JUMP);
      return Ok, e;
    }

    /** While an expression is compiled from register level `lo` on, it holds at most
        one register, and that is the one at `lo`. */
    predicate Holds(e: Exp, lo: nat)
      reads this`freereg
    {
      && nvarstack <= lo
      && (e.k.VLOCAL? ==> e.k.ridx < nvarstack)
      && (if e.k.VNONRELOC? && e.k.reg >= nvarstack then e.k.reg == lo && freereg == lo + 1 else freereg == lo)
    }

    method Exp2NextReg(e0: Exp, ghost l: Lists, ghost lo: nat) returns (s: Status, e: Exp)
      requires Valid() && WfExp(View(), e0, l) && Holds(e0, lo)
      modifies this
      ensures s.Ok? ==> Valid() && lo < MAXREGS && e == Exp(VNONRELOC(lo), NO_JUMP, NO_JUMP) && freereg == lo + 1
      ensures s.Ok? ==> Materialized(old(View()), e0, l, View(), lo)
      ensures Excused(s, lo + 1)
    {
      hide Materialized, Wf, WfList;
      e := DischargeVars(e0);
      VarsDischarged(View(), e0, l, e);
      FreeExp(e);
      :- ReserveRegs(1);
      ghost var c, e1 := View(), e;
      e :- Exp2Reg(e, freereg - 1, l);
      MaterializedVars(c, e0, l, e1, View(), lo);
      return Ok, e;
    }

    /** Brings the final result of `e` to some register. */
    method Exp2AnyReg(e0: Exp, ghost l: Lists, ghost lo: nat) returns (s: Status, e: Exp)
      requires Valid() && WfExp(View(), e0, l) && Holds(e0, lo)
      modifies this
      ensures s.Ok? ==> Valid() && e.k.VNONRELOC? && e == Exp(e.k, NO_JUMP, NO_JUMP) && Holds(e, lo) && e.k.reg < MAXREGS
      ensures s.Ok? ==> InReg(old(View()), e0, l, View(), e.k.reg, lo)
      ensures Excused(s, lo + 1)
    {
      hide Materialized, Wf, WfList, InReg;
      ghost var c := View();
      e := DischargeVars(e0);
      VarsDischarged(c, e0, l, e);
      if e.k.VNONRELOC? {
        if !HasJumps(e) {
          InRegAlready(c, e0, l, e.k.reg, lo);
          return Ok, Exp(e.k, NO_JUMP, NO_JUMP);
        }
        if e.k.reg >= nvarstack {
          ghost var e1 := e;
          e :- Exp2Reg(e, e.k.reg, l);
          MaterializedVars(c, e0, l, e1, View(), e.k.reg);
          InRegMaterialized(c, e0, l, View(), e.k.reg, lo);
          return Ok, e;
        }
      }
      e :- Exp2NextReg(e, l, lo);
      MaterializedVars(c, e0, l, DischargeVars(e0), View(), lo);
      InRegMaterialized(c, e0, l, View(), lo, lo);
      return Ok, e;
    }

    // ----- branching -----

    /** Brings the value of `e`, though not of its jumps, to some register. */
    method Discharge2AnyReg(e0: Exp, ghost l: Lists, ghost lo: nat) returns (s: Status, e: Exp)
      requires Valid() && WfExp(View(), e0, l) && Holds(e0, lo) && !e0.k.VJMP? && !e0.k.VLOCAL?
      modifies this
      ensures s.Ok? ==> Valid() && e.k.VNONRELOC? && e == Exp(e.k, e0.t, e0.f) && Holds(e, lo) && lo < 256
      ensures s.Ok? ==> Moved(old(View()), e0, l, View(), e, l)
      ensures s.Ok? ==> forall R0 :: Loads(Den(old(View()), e0, l, R0), Den(View(), e, l, R0), lo)
      ensures Excused(s, lo + 1)
    {
      hide Wf, WfList, Moved, Loads, Den;
      e := e0;
      if !e.k.VNONRELOC? {
        :- ReserveRegs(1);
        e :- Discharge2Reg(e, freereg - 1, l);
      } else {
        DischargeSame(View(), e0, l, lo);
      }
      return Ok, e;
    }

    /** Code that jumps when `e` is `cond`, and its jump; a `not` is not made but
        inverts the condition. */
    method JumpOnCond(e0: Exp, cond: bool, ghost l: Lists, ghost lo: nat) returns (s: Status, pc: nat)
      requires Valid() && WfExp(View(), e0, l) && Holds(e0, lo) && !e0.k.VJMP? && !e0.k.VLOCAL?
      modifies this
      ensures s.Ok? ==> Valid() && freereg == lo
      ensures s.Ok? ==> Diverged(old(View()), e0, l, View(), [pc], !cond, lo)
      ensures Excused(s, lo + 1)
    {
      hide Wf, WfList, Moved, Loads, Diverged, Forked, Forks, Prefix, Grown, Kept;
      ghost var c := View();
      pc := 0;
      if e0.k.VRELOC? {
        var b := code[e0.k.pc].b;
        code := code[..|code| - 1];
        pc := CondJump(TEST(b, !cond));
        TailNot(c, e0, l, View(), TEST(b, !cond), pc);
        ForkNot(c, e0, l, View(), TEST(b, !cond), pc, !cond, lo);
        DivergedFrom(c, e0, l, View(), [pc], !cond, lo);
        return Ok, pc;
      }
      var e;
      e :- Discharge2AnyReg(e0, l, lo);
      FreeExp(e);
      ghost var d := View();
      MovedWf(c, e0, l, d, e, l);
      pc := CondJump(TESTSET(NO_REG, e.k.reg, cond));
      TailReg(d, e, l, View(), TESTSET(NO_REG, e.k.reg, cond), pc);
      ForkReg(d, e, l, View(), TESTSET(NO_REG, e.k.reg, cond), pc, !cond, lo);
      DivergedFrom(d, e, l, View(), [pc], !cond, lo);
      DivergedOn(c, e0, l, d, e, View(), [pc], !cond, lo);
      return Ok, pc;
    }

    /** Negates the comparison before the jump at `pc`. */
    method NegateCondition(pc: nat)
      requires 0 < pc < |code| && IsCompare(code[pc - 1])
      modifies this`code
      ensures code == old(code)[pc - 1 := Flip(old(code)[pc - 1], true)]
    {
      code := code[pc - 1 := Flip(code[pc - 1], true)];
    }

    /** Joins a new jump to the list that leaves with the other truth value and lets
        the other list fall through. */
    method CloseBranch(e: Exp, pc: int, go: bool, ghost c: Code, ghost l: Lists, ghost extra: seq<nat>, ghost lo: nat)
      returns (s: Status, e': Exp)
      requires Valid() && Shape(c, e) && Diverged(c, e, l, View(), extra, go, lo) && pc == Head(extra, 0)
      modifies this`code, this`lasttarget, this`pend
      ensures s.Ok? ==> Valid() && e' == (if go then Exp(e.k, NO_JUMP, e'.f) else Exp(e.k, e'.t, NO_JUMP))
      ensures s.Ok? ==> Branched(c, e, l, View(), if go then e'.f else e'.t, Same(l, !go) + extra, go, lo)
      ensures Excused(s, 0)
    {
      hide Wf, Chain, WfList, Diverged, Branching, Redirect, Joined, Same, Kept;
      ghost var d := View();
      ghost var same, diff := Same(l, go), Same(l, !go);
      var hs, hd := if go then e.t else e.f, if go then e.f else e.t;
      DivergedChains(c, e, l, d, extra, go, lo);
      e' := e;
      var head;
      head :- Concat(hd, pc, diff, extra);
      ghost var d1 := View();
      JoinBranch(c, e, l, d, d1, extra, go, lo, head);
      BranchingChain(c, e, l, d1, hs, same, head, diff + extra, go, lo);
      :- PatchToHere(hs, same);
      pend := pend - Elems(same);
      HereBranch(c, e, l, d1, View(), hs, same, head, diff + extra, go, lo);
      e' := if go then Exp(e.k, NO_JUMP, head) else Exp(e.k, head, NO_JUMP);
      return Ok, e';
    }

    /** Code that goes on if `e` is true and jumps otherwise. */
    method GoIfTrue(e0: Exp, ghost l: Lists, ghost lo: nat) returns (s: Status, e: Exp, ghost list: seq<nat>)
      requires Valid() && WfExp(View(), e0, l) && Holds(e0, lo)
      requires e0.k.VK? ==> Truthy(k[e0.k.idx])
      modifies this
      ensures s.Ok? ==> Valid() && freereg == lo && e.t == NO_JUMP
      ensures s.Ok? ==> Branched(old(View()), e0, l, View(), e.f, list, true, lo)
      ensures Excused(s, lo + 1)
    {
      hide Wf, WfList, Diverged, Forked, Forks, Branching;
      ghost var c := View();
      e := DischargeVars(e0);
      VarsDischarged(c, e0, l, e);
      ghost var e1 := e;
      var pc := NO_JUMP;
      list := [];
      if e.k.VJMP? {
        pc := e.k.jmp;
        NegateCondition(e.k.jmp);
        list := [e.k.jmp];
        TailJump(c, e, l, View(), code[e.k.jmp - 1], true);
        ForkJump(c, e, l, View(), code[e.k.jmp - 1], true, lo);
        DivergedFrom(c, e, l, View(), list, true, lo);
      } else if e.k.VK? || e.k.VKINT? || e.k.VKSTR? || e.k.VTRUE? {
        ConstDiverged(c, e, l, true, lo);
      } else {
        var p;
        p :- JumpOnCond(e, false, l, lo);
        pc := p;
        list := [p];
      }
      e :- CloseBranch(e, pc, true, c, l, list, lo);
      BranchedVars(c, e0, l, e1, View(), e.f, Same(l, false) + list, true, lo);
      list := Same(l, false) + list;
      return Ok, e, list;
    }

    /** Code that goes on if `e` is false and jumps otherwise. */
    method GoIfFalse(e0: Exp, ghost l: Lists, ghost lo: nat) returns (s: Status, e: Exp, ghost list: seq<nat>)
      requires Valid() && WfExp(View(), e0, l) && Holds(e0, lo)
      modifies this
      ensures s.Ok? ==> Valid() && freereg == lo && e.f == NO_JUMP
      ensures s.Ok? ==> Branched(old(View()), e0, l, View(), e.t, list, false, lo)
      ensures Excused(s, lo + 1)
    {
      hide Wf, WfList, Diverged, Forked, Forks, Branching;
      ghost var c := View();
      e := DischargeVars(e0);
      VarsDischarged(c, e0, l, e);
      ghost var e1 := e;
      var pc := NO_JUMP;
      list := [];
      if e.k.VJMP? {
        pc := e.k.jmp;
        list := [e.k.jmp];
        TailJump(c, e, l, c, code[e.k.jmp - 1], false);
        ForkJump(c, e, l, c, code[e.k.jmp - 1], false, lo);
        DivergedFrom(c, e, l, c, list, false, lo);
      } else if e.k.VNIL? || e.k.VFALSE? {
        ConstDiverged(c, e, l, false, lo);
      } else {
        var p;
        p :- JumpOnCond(e, true, l, lo);
        pc := p;
        list := [p];
      }
      e :- CloseBranch(e, pc, false, c, l, list, lo);
      BranchedVars(c, e0, l, e1, View(), e.t, Same(l, true) + list, false, lo);
      list := Same(l, true) + list;
      return Ok, e, list;
    }

    // ----- negation -----

    /** Exchanges the lists of a negated expression; no value in them is of use any more. */
    method ExchangeLists(e: Exp, ghost c: Code, ghost e1: Exp, ghost l: Lists) returns (e': Exp)
      requires Valid() && WfExp(c, e1, l) && Inverted(c, e1, View(), Exp(e.k, e.f, e.t)) && e.t == e1.t && e.f == e1.f
      modifies this`code
      ensures Valid() && e' == Exp(e.k, e.f, e.t)
      ensures Shape(View(), e') && Grown(c, View()) && Moved(c, e1, l, View(), e', Lists(l.fs, l.ts))
      ensures forall R0 :: Den(View(), e', Lists(l.fs, l.ts), R0) == Negate(Den(c, e1, l, R0))
    {
      hide Wf, WfList, Moved, Den, Inverted, Chain, ValuesRemoved, Run, Unvalued;
      e' := Exp(e.k, e.f, e.t);
      ghost var c2 := View();
      InvertedLinked(c, e1, l, c2, e');
      RemoveValues(e'.f, l.ts);
      ghost var d1 := View();
      FirstRemoved(c2, d1, e'.t, l.fs, Elems(l.ts));
      RemoveValues(e'.t, l.fs);
      SecondRemoved(d1, View(), Elems(l.fs));
      NotDone(c, e1, l, c2, e', d1, View());
      MovedWf(c, e1, l, View(), e', Lists(l.fs, l.ts));
      if base > 0 {
        ExchangedGrown(c2, d1, View(), Elems(l.ts), Elems(l.fs), base);
      }
    }

    /** Code for `not e`, folding constants. */
    method CodeNot(e0: Exp, ghost l: Lists, ghost lo: nat) returns (s: Status, e: Exp)
      requires Valid() && WfExp(View(), e0, l) && Holds(e0, lo) && !e0.k.VLOCAL?
      requires e0.k.VK? ==> Truthy(k[e0.k.idx])
      modifies this
      ensures s.Ok? ==> Valid() && Holds(e, lo) && !e.k.VK? && Moved(old(View()), e0, l, View(), e, Lists(l.fs, l.ts))
      ensures s.Ok? ==> forall R0 ::
                SameMeaning(Negate(Den(old(View()), e0, l, R0)), Den(View(), e, Lists(l.fs, l.ts), R0), lo)
      ensures Excused(s, lo + 1)
    {
      hide Wf, WfList, Moved, Loads, Den, Inverted, Chain, PatchTest, ValuesRemoved, Run, Unvalued;
      ghost var c0 := View();
      e := e0;
      ghost var e1 := e0;
      ghost var c := c0;
      if e.k.VNIL? || e.k.VFALSE? {
        e := e.(k := VTRUE);
        NotConst(c, e0, l, e.k);
      } else if e.k.VK? || e.k.VKINT? || e.k.VKSTR? || e.k.VTRUE? {
        e := e.(k := VFALSE);
        NotConst(c, e0, l, e.k);
      } else if e.k.VJMP? {
        NegateCondition(e.k.jmp);
        NotJump(c, e0, l, View());
      } else {
        var r;
        r :- Discharge2AnyReg(e, l, lo);
        e1 := r;
        c := View();
        MovedWf(c0, e0, l, c, e1, l);
        FreeExp(r);
        var pc := Emit(NOT(0, r.k.reg));
        e := r.(k := VRELOC(pc));
        NotReg(c, e1, l, View(), pc);
      }
      NotSame(c0, e0, l, c, e1, lo);
      e := ExchangeLists(e, c, e1, l);
      NotTrans(c0, e0, l, c, e1, View(), e, lo);
      return Ok, e;
    }

    // ----- comparisons -----

    /** Tries to make `e` a constant whose index fits an instruction. */
    method Exp2K(e0: Exp, ghost l: Lists, ghost lo: nat) returns (s: Status, isK: bool, e: Exp)
      requires Valid() && WfExp(View(), e0, l)
      modifies this`k, this`scanner
      ensures s.Ok? ==> OnlyConstants(old(View()), View())
      ensures s.Ok? && isK ==>
                && e.k.VK? && e.k.idx <= MAXINDEXRK && !e0.k.VNONRELOC? && !e0.k.VLOCAL?
                && OperandOf(old(View()), e0, l, View(), e, lo)
      ensures s.Ok? && !isK ==> e == e0
      ensures Excused(s, 0)
    {
      hide Wf, WfList, OperandOf;
      ghost var c := View();
      isK, e := false, e0;
      if !HasJumps(e0) {
        var info;
        match e0.k {
          case VTRUE => info :- AddK(Bool(true));
          case VFALSE => info :- AddK(Bool(false));
          case VNIL => info :- AddK(Value.Nil);
          case VKINT(i) => info :- AddK(Int(i));
          case VKSTR(str) => info :- AddK(Str(str));
          case VK(idx) => info := idx;
          case _ => return Ok, false, e0;
        }
        if info <= MAXINDEXRK {
          OperandConst(c, e0, l, View(), Exp(VK(info), NO_JUMP, NO_JUMP), lo);
          e := Exp(VK(info), e0.t, e0.f);
          isK := true;
        }
      }
      return Ok, isK, e;
    }

    /** Brings `e` to a register or makes it a constant. */
    method Exp2RK(e0: Exp, ghost l: Lists, ghost lo: nat) returns (s: Status, isK: bool, e: Exp)
      requires Valid() && WfExp(View(), e0, l) && Holds(e0, lo)
      modifies this
      ensures s.Ok? ==> Valid() && Holds(e, lo) && (if isK then e.k.VK? && e.k.idx <= MAXINDEXRK else e.k.VNONRELOC?)
      ensures s.Ok? ==> OperandOf(old(View()), e0, l, View(), e, lo)
      ensures Excused(s, lo + 1)
    {
      hide Wf, WfList, OperandOf, InReg, OnlyConstants;
      ghost var c := View();
      isK, e :- Exp2K(e0, l, lo);
      ghost var d := View();
      ValidConstants(c, d);
      if !isK {
        ConstantsExp(c, e0, l, d);
        e :- Exp2AnyReg(e, l, lo);
        OperandInReg(d, e0, l, View(), e.k.reg, lo);
        OperandConstants(c, e0, l, d, View(), e, lo);
      }
      return Ok, isK, e;
    }

    predicate Temp(e: Exp) {
      e.k.VNONRELOC? && e.k.reg >= nvarstack
    }

    /** The first operand holds the register at `lo` or none. */
    predicate HoldsFirst(x: Exp, lo: nat, lo1: nat) {
      if Temp(x) then x.k.reg == lo && lo1 == lo + 1 else lo1 == lo
    }

    /** Two operands hold the top registers between them. */
    predicate HoldsBoth(x: Exp, y: Exp, lo: nat)
      reads this`freereg
    {
      && nvarstack <= lo
      && (if Temp(x) && Temp(y) then
            freereg == lo + 2 && ((x.k.reg == lo && y.k.reg == lo + 1) || (x.k.reg == lo + 1 && y.k.reg == lo))
          else if Temp(x) then freereg == lo + 1 && x.k.reg == lo
          else if Temp(y) then freereg == lo + 1 && y.k.reg == lo
          else freereg == lo)
    }

    /** Frees two registers, the higher one first. */
    method FreeRegs(r1: int, r2: int)
      requires r1 > r2 ==> (r1 >= nvarstack ==> freereg == r1 + 1)
      requires r1 > r2 ==> (r2 >= nvarstack ==> freereg == r2 + 1 + (if r1 >= nvarstack then 1 else 0))
      requires r1 <= r2 ==> (r2 >= nvarstack ==> freereg == r2 + 1)
      requires r1 <= r2 ==> (r1 >= nvarstack ==> freereg == r1 + 1 + (if r2 >= nvarstack then 1 else 0))
      modifies this`freereg
      ensures freereg == old(freereg) - (if r1 >= nvarstack then 1 else 0) - (if r2 >= nvarstack then 1 else 0)
    {
      if r1 > r2 {
        if r1 >= 0 { FreeReg(r1); }
        if r2 >= 0 { FreeReg(r2); }
      } else {
        if r2 >= 0 { FreeReg(r2); }
        if r1 >= 0 { FreeReg(r1); }
      }
    }

    method FreeExps(e1: Exp, e2: Exp, ghost lo: nat)
      requires HoldsBoth(e1, e2, lo)
      modifies this`freereg
      ensures freereg == lo
    {
      var r1 := if e1.k.VNONRELOC? then e1.k.reg else -1;
      var r2 := if e2.k.VNONRELOC? then e2.k.reg else -1;
      FreeRegs(r1, r2);
    }

    /** Brings the second operand to a register. */
    method PlaceSecond(x: Exp, e: Exp, ghost l: Lists, ghost c: Code, ghost d: Code, ghost a: Expr, ghost b: Expr,
                       ghost lo: nat, ghost lo1: nat)
      returns (s: Status, y: Exp)
      requires Valid() && Halfway(c, d, x, a, View(), e, l, b, lo, lo1, nvarstack)
      requires Holds(e, lo1) && HoldsFirst(x, lo, lo1)
      modifies this
      ensures s.Ok? ==> Valid() && y.k.VNONRELOC? && y.k.reg < MAXREGS && HoldsBoth(x, y, lo)
      ensures s.Ok? ==> Two(c, View(), x, y, a, b, lo)
      ensures Excused(s, lo1 + 1)
    {
      hide Wf, WfList, Halfway, InReg, OperandOf, Two;
      ghost var c2 := View();
      HalfwayWf(c, d, x, a, c2, e, l, b, lo, lo1, nvarstack);
      y :- Exp2AnyReg(e, l, lo1);
      OperandInReg(c2, e, l, View(), y.k.reg, lo1);
      HalfwayTwo(c, d, x, a, c2, e, l, b, lo, lo1, nvarstack, View(), y);
      return Ok, y;
    }

    /** Brings the second operand to a register or makes it a constant. */
    method PlaceSecondRK(x: Exp, e: Exp, ghost l: Lists, ghost c: Code, ghost d: Code, ghost a: Expr, ghost b: Expr,
                         ghost lo: nat, ghost lo1: nat)
      returns (s: Status, isK: bool, y: Exp)
      requires Valid() && Halfway(c, d, x, a, View(), e, l, b, lo, lo1, nvarstack)
      requires Holds(e, lo1) && HoldsFirst(x, lo, lo1)
      modifies this
      ensures s.Ok? ==> Valid() && (if isK then y.k.VK? else y.k.VNONRELOC?) && HoldsBoth(x, y, lo)
      ensures s.Ok? ==> Two(c, View(), x, y, a, b, lo)
      ensures Excused(s, lo1 + 1)
    {
      hide Wf, WfList, Halfway, OperandOf, Two;
      ghost var c2 := View();
      HalfwayWf(c, d, x, a, c2, e, l, b, lo, lo1, nvarstack);
      isK, y :- Exp2RK(e, l, lo1);
      HalfwayTwo(c, d, x, a, c2, e, l, b, lo, lo1, nvarstack, View(), y);
      return Ok, isK, y;
    }

    /** Brings the first operand to a register when the second one is an immediate. */
    method PlaceFirst(x: Exp, e: Exp, ghost l: Lists, ghost c: Code, ghost d: Code, ghost a: Expr, ghost b: Expr,
                      ghost lo: nat, ghost lo1: nat)
      returns (s: Status, x': Exp)
      requires Valid() && Halfway(c, d, x, a, View(), e, l, b, lo, lo1, nvarstack)
      requires Holds(e, lo1) && HoldsFirst(x, lo, lo1) && e.k.VKINT? && !HasJumps(e)
      modifies this
      ensures s.Ok? ==> Valid() && x'.k.VNONRELOC? && x'.k.reg < MAXREGS && HoldsBoth(x', e, lo)
      ensures s.Ok? ==> Two(c, View(), x', e, a, b, lo)
      ensures Excused(s, lo + 1)
    {
      hide Wf, WfList, Halfway, InReg, OperandOf, Two;
      ghost var c2 := View();
      HalfwayWf(c, d, x, a, c2, e, l, b, lo, lo1, nvarstack);
      OperandHere(c2, e, l, lo1);
      HalfwayTwo(c, d, x, a, c2, e, l, b, lo, lo1, nvarstack, c2, e);
      TwoWf(c, c2, x, e, a, b, lo);
      HalfwayLow(c, d, x, a, c2, e, l, b, lo, lo1, nvarstack);
      x' :- Exp2AnyReg(x, NOLISTS, lo);
      OperandInReg(c2, x, NOLISTS, View(), x'.k.reg, lo);
      MoveOperand(c, c2, x, e, a, b, lo, View(), x', lo);
      return Ok, x';
    }

    /** Makes the first operand a constant or brings it to a register when the second
        one is in a register already. */
    method PlaceFirstRK(x: Exp, y: Exp, ghost c: Code, ghost a: Expr, ghost b: Expr, ghost lo: nat)
      returns (s: Status, isK: bool, x': Exp)
      requires Valid() && Two(c, View(), x, y, a, b, lo) && HoldsBoth(x, y, lo) && !x.k.VNONRELOC? && y.k.VNONRELOC?
      modifies this
      ensures s.Ok? ==> Valid() && (if isK then x'.k.VK? else x'.k.VNONRELOC?) && HoldsBoth(x', y, lo)
      ensures s.Ok? ==> Two(c, View(), x', y, a, b, lo)
      ensures Excused(s, lo + 2)
    {
      hide Wf, WfList, OperandOf, Two;
      ghost var c2 := View();
      TwoWf(c, c2, x, y, a, b, lo);
      ghost var lo1 := freereg;
      isK, x' :- Exp2RK(x, NOLISTS, lo1);
      MoveOperand(c, c2, x, y, a, b, lo, View(), x', lo1);
      return Ok, isK, x';
    }

    /** Code for the ordering `e1 < e2` or `e1 <= e2`; `swapped` if `e1` is the operand
        that comes second in the program. */
    method CodeOrder(op: Rel, e1: Exp, e2: Exp, swapped: bool, ghost l: Lists, ghost c: Code, ghost d: Code,
                     ghost a: Expr, ghost b: Expr, ghost lo: nat, ghost lo1: nat)
      returns (s: Status, e: Exp)
      requires Valid() && (op == LT || op == LE)
      requires !swapped ==> Halfway(c, d, e1, a, View(), e2, l, b, lo, lo1, nvarstack) && Holds(e2, lo1) && HoldsFirst(e1, lo, lo1)
      requires !swapped ==> e1.k.VNONRELOC? || IsSCnumber(e1)
      requires swapped ==> Halfway(c, d, e2, a, View(), e1, l, b, lo, lo1, nvarstack) && Holds(e1, lo1) && HoldsFirst(e2, lo, lo1)
      requires swapped ==> e2.k.VNONRELOC? || IsSCnumber(e2)
      modifies this
      ensures s.Ok? ==> Valid() && freereg == lo && e.k.VJMP? && e == Exp(e.k, NO_JUMP, NO_JUMP)
      ensures s.Ok? && !swapped ==> Transforms(c, View(), e, NOLISTS, ERel(op, a, b), lo)
      ensures s.Ok? && swapped ==> Transforms(c, View(), e, NOLISTS, ERel(if op == LT then GT else GE, a, b), lo)
      ensures Excused(s, lo + 2)
    {
      hide Wf, Halfway, Two, Transforms, Decides;
      var r1, r2 := e1, e2;
      e := e1;
      if IsSCnumber(e2) {
        if swapped {
          r1 :- PlaceSecond(e2, e1, l, c, d, a, b, lo, lo1);
        } else {
          r1 :- PlaceFirst(e1, e2, l, c, d, a, b, lo, lo1);
        }
      } else if IsSCnumber(e1) {
        if swapped {
          r2 :- PlaceFirst(e2, e1, l, c, d, a, b, lo, lo1);
        } else {
          r2 :- PlaceSecond(e1, e2, l, c, d, a, b, lo, lo1);
        }
      } else if swapped {
        // the operand that came first is in its register already
        r1 :- PlaceSecond(e2, e1, l, c, d, a, b, lo, lo1);
      } else {
        r2 :- PlaceSecond(e1, e2, l, c, d, a, b, lo, lo1);
      }
      FreeExps(r1, r2, lo);
      ghost var was := View();
      if swapped {
        TwoSwapped(c, was, r2, r1, a, b, lo);
      }
      e := EmitTest(op, r1, r2, c, if swapped then b else a, if swapped then a else b, lo);
      if swapped {
        Flipped(c, View(), e, NOLISTS, op, a, b, lo);
      }
      return Ok, e;
    }

    method EmitTest(op: Rel, x: Exp, y: Exp, ghost c: Code, ghost a: Expr, ghost b: Expr, ghost lo: nat) returns (e: Exp)
      requires Valid() && Two(c, View(), x, y, a, b, lo) && (op == LT || op == LE)
      requires (x.k.VNONRELOC? && (y.k.VKINT? || y.k.VNONRELOC?)) || (x.k.VKINT? && y.k.VNONRELOC?)
      modifies this`code, this`pend
      ensures Valid() && e.k.VJMP? && e == Exp(e.k, NO_JUMP, NO_JUMP)
      ensures Transforms(c, View(), e, NOLISTS, ERel(op, a, b), lo)
    {
      hide Wf, Two, Transforms, Decides;
      ghost var d := View();
      TwoWf(c, d, x, y, a, b, lo);
      OrderDecides(d, op, x, y);
      var j := CondJump(OrderTest(op, x, y));
      CompareTransforms(c, d, x, y, a, b, op, lo, OrderTest(op, x, y), View(), j);
      e := Exp(VJMP(j), NO_JUMP, NO_JUMP);
    }

    /** Code for an equality comparison. */
    method CodeEq(op: Rel, e1: Exp, e2: Exp, ghost l: Lists, ghost c: Code, ghost d: Code,
                  ghost a: Expr, ghost b: Expr, ghost lo: nat, ghost lo1: nat)
      returns (s: Status, e: Exp)
      requires Valid() && (op == EQ || op == NE)
      requires Halfway(c, d, e1, a, View(), e2, l, b, lo, lo1, nvarstack) && Holds(e2, lo1) && HoldsFirst(e1, lo, lo1)
      modifies this
      ensures s.Ok? ==> Valid() && freereg == lo && e.k.VJMP? && e == Exp(e.k, NO_JUMP, NO_JUMP)
      ensures s.Ok? ==> Transforms(c, View(), e, NOLISTS, ERel(op, a, b), lo)
      ensures Excused(s, lo + 2)
    {
      hide Wf, Halfway, Two, Transforms, Decides, WfExp, Grown;
      var x, y := e1, e2;
      e := e1;
      var isK;
      HalfwayWf(c, d, e1, a, View(), e2, l, b, lo, lo1, nvarstack);
      if !e1.k.VNONRELOC? {
        y :- PlaceSecond(e1, e2, l, c, d, a, b, lo, lo1);
        if !IsSCnumber(e1) {
          isK, x :- PlaceFirstRK(e1, y, c, a, b, lo);
        }
        FreeExps(y, x, lo);
        e := EmitEq(op, y, x, true, c, a, b, lo);
      } else {
        if IsSCnumber(e2) {
          HalfwayConst(c, d, e1, a, View(), e2, l, b, lo, lo1, nvarstack);
        } else {
          isK, y :- PlaceSecondRK(e1, e2, l, c, d, a, b, lo, lo1);
        }
        FreeExps(x, y, lo);
        e := EmitEq(op, x, y, false, c, a, b, lo);
      }
      return Ok, e;
    }

    method EmitEq(op: Rel, r: Exp, y: Exp, ghost swapped: bool, ghost c: Code, ghost a: Expr, ghost b: Expr, ghost lo: nat) returns (e: Exp)
      requires Valid() && (op == EQ || op == NE) && r.k.VNONRELOC? && (y.k.VKINT? || y.k.VK? || y.k.VNONRELOC?)
      requires if swapped then Two(c, View(), y, r, a, b, lo) else Two(c, View(), r, y, a, b, lo)
      modifies this`code, this`pend
      ensures Valid() && e.k.VJMP? && e == Exp(e.k, NO_JUMP, NO_JUMP)
      ensures Transforms(c, View(), e, NOLISTS, ERel(op, a, b), lo)
    {
      hide Wf, Two, Transforms, Decides;
      ghost var d := View();
      ghost var x1, y1 := if swapped then y else r, if swapped then r else y;
      TwoWf(c, d, x1, y1, a, b, lo);
      EqDecides(d, op, r, y);
      var j := CondJump(EqTest(op, r.k.reg, y));
      CompareTransforms(c, d, x1, y1, a, b, op, lo, EqTest(op, r.k.reg, y), View(), j);
      e := Exp(VJMP(j), NO_JUMP, NO_JUMP);
    }

    // ----- operators -----

    /** Applies `not` to an expression. */
    method PrefixNot(e0: Exp, ghost l: Lists, ghost c: Code, ghost a: Expr, ghost lo: nat) returns (s: Status, e: Exp)
      requires Valid() && Transforms(c, View(), e0, l, a, lo) && Holds(e0, lo) && !e0.k.VK?
      modifies this
      ensures s.Ok? ==> Valid() && Holds(e, lo) && !e.k.VK?
      ensures s.Ok? ==> Transforms(c, View(), e, Lists(l.fs, l.ts), ENot(a), lo)
      ensures Excused(s, lo + 1)
    {
      hide Wf, WfList, Transforms, Moved, Den, SameMeaning, Negate;
      ghost var d := View();
      TransformsWf(c, d, e0, l, a, lo);
      e := DischargeVars(e0);
      TransformsVars(c, d, e0, l, a, lo, e);
      TransformsWf(c, d, e, l, a, lo);
      ghost var e1 := e;
      e :- CodeNot(e, l, lo);
      MovedWf(d, e1, l, View(), e, Lists(l.fs, l.ts));
      NotTransforms(c, d, e1, l, View(), e, a, lo);
      return Ok, e;
    }

    /** Prepares the first operand before the second one is read. */
    method Infix(op: BinOpr, v0: Exp, ghost l: Lists, ghost lo: nat) returns (s: Status, v: Exp, ghost list: seq<nat>)
      requires Valid() && WfExp(View(), v0, l) && Holds(v0, lo) && !v0.k.VK?
      modifies this
      ensures s.Ok? ==> Valid()
      ensures s.Ok? && op.OprAnd? ==> freereg == lo && v.t == NO_JUMP && Branched(old(View()), v0, l, View(), v.f, list, true, lo)
      ensures s.Ok? && op.OprOr? ==> freereg == lo && v.f == NO_JUMP && Branched(old(View()), v0, l, View(), v.t, list, false, lo)
      ensures s.Ok? && op.OprRel? ==> Holds(v, lo) && OperandOf(old(View()), v0, l, View(), v, lo)
      ensures s.Ok? && op.OprRel? && op.op != EQ && op.op != NE ==> v.k.VNONRELOC? || IsSCnumber(v)
      ensures Excused(s, lo + 1)
    {
      hide Wf, WfList, OperandOf, InReg, Branched;
      list := [];
      ghost var c := View();
      v := v0;
      match op {
        case OprAnd =>
          v, list :- GoIfTrue(v0, l, lo);
        case OprOr =>
          v, list :- GoIfFalse(v0, l, lo);
        case OprRel(r) =>
          if r == EQ || r == NE {
            if v.k.VKINT? && !HasJumps(v) {
              OperandHere(c, v, l, lo);
            } else {
              var isK;
              isK, v :- Exp2RK(v0, l, lo);
            }
          } else {
            if IsSCnumber(v) {
              OperandHere(c, v, l, lo);
            } else {
              v :- Exp2AnyReg(v0, l, lo);
              OperandInReg(c, v0, l, View(), v.k.reg, lo);
            }
          }
      }
      return Ok, v, list;
    }

    method InfixJunction(go: bool, v0: Exp, ghost l: Lists, ghost lo: nat) returns (s: Status, v: Exp, ghost list: seq<nat>)
      requires Valid() && WfExp(View(), v0, l) && Holds(v0, lo) && !v0.k.VK?
      modifies this
      ensures s.Ok? ==> Valid() && freereg == lo
      ensures s.Ok? ==> Branched(old(View()), v0, l, View(), Exits(v, go), list, go, lo)
      ensures Excused(s, lo + 1)
    {
      hide Branched;
      v, list :- Infix(if go then OprAnd else OprOr, v0, l, lo);
      return Ok, v, list;
    }

    /** Finishes `and` or `or` after its second operand is read. */
    method PosfixJunction(go: bool, e1: Exp, v2: Exp, ghost l2: Lists, ghost list: seq<nat>,
                          ghost c: Code, ghost c1: Code, ghost ea: Exp, ghost la: Lists, ghost d: Code,
                          ghost a: Expr, ghost b: Expr, ghost lo: nat)
      returns (s: Status, e: Exp, ghost l: Lists)
      requires Valid() && Transforms(c, c1, ea, la, a, lo) && Shape(c1, ea)
      requires Branched(c1, ea, la, d, Exits(e1, go), list, go, lo)
      requires Transforms(d, View(), v2, l2, b, lo) && Closed(b, nvarstack) && nvarstack <= lo && Holds(v2, lo) && !v2.k.VK?
      modifies this`code
      ensures s.Ok? ==> Valid() && Holds(e, lo) && !e.k.VK? && Transforms(c, View(), e, l, Junction(go, a, b), lo)
      ensures Excused(s, 0)
    {
      hide Wf, WfList, Transforms, Branched, Chain, Joined;
      ghost var c2 := View();
      var e2 := DischargeVars(v2);
      TransformsVars(d, c2, v2, l2, b, lo, e2);
      TransformsWf(d, c2, e2, l2, b, lo);
      JunctionChains(c, c1, ea, la, a, d, Exits(e1, go), list, go, lo, c2, e2, l2, b);
      var head;
      e, l := e2, l2;
      head :- Concat(Exits(e2, go), Exits(e1, go), Leaving(l2, go), list);
      JunctionTransforms(c, a, b, go, lo, nvarstack, c1, ea, la, d, Exits(e1, go), list, c2, e2, l2, View(), head);
      e := Rehead(e2, go, head);
      l := Joining(l2, go, list);
      TransformsWf(c, View(), e, l, Junction(go, a, b), lo);
      JoinedLength(c2.ins, Leaving(l2, go), list, base);
      return Ok, e, l;
    }

    /** Finishes a comparison after its second operand is read. */
    method PosfixRel(op: Rel, e1: Exp, v2: Exp, ghost l: Lists, ghost c: Code, ghost d: Code,
                     ghost a: Expr, ghost b: Expr, ghost lo: nat, ghost lo1: nat)
      returns (s: Status, e: Exp)
      requires Valid() && Halfway(c, d, e1, a, View(), v2, l, b, lo, lo1, nvarstack) && Holds(v2, lo1) && HoldsFirst(e1, lo, lo1)
      requires op != EQ && op != NE ==> e1.k.VNONRELOC? || IsSCnumber(e1)
      modifies this
      ensures s.Ok? ==> Valid() && Holds(e, lo) && !e.k.VK? && Transforms(c, View(), e, NOLISTS, ERel(op, a, b), lo)
      ensures Excused(s, lo + 2)
    {
      hide Halfway, Transforms;
      var e2 := DischargeVars(v2);
      HalfwayVars(c, d, e1, a, View(), v2, l, b, lo, lo1, nvarstack, e2);
      HalfwayLow(c, d, e1, a, View(), e2, l, b, lo, lo1, nvarstack);
      e := e2;
      match op {
        case EQ => e :- CodeEq(op, e1, e2, l, c, d, a, b, lo, lo1);
        case NE => e :- CodeEq(op, e1, e2, l, c, d, a, b, lo, lo1);
        case GT => e :- CodeOrder(LT, e2, e1, true, l, c, d, a, b, lo, lo1);
        case GE => e :- CodeOrder(LE, e2, e1, true, l, c, d, a, b, lo, lo1);
        case LT => e :- CodeOrder(op, e1, e2, false, l, c, d, a, b, lo, lo1);
        case LE => e :- CodeOrder(op, e1, e2, false, l, c, d, a, b, lo, lo1);
      }
      return Ok, e;
    }

    /**
     Compiles an expression: for every state of the registers, the code computes its
     value (or raises its error) wherever the code before it got to its end, and
     everything else goes on as before.
     */
    method Subexpr(ex: Expr) returns (s: Status, e: Exp, ghost l: Lists)
      requires Valid() && Wf(View()) && Closed(ex, nvarstack)
      modifies this
      ensures s.Ok? ==> Valid() && Holds(e, old(freereg)) && !e.k.VK?
      ensures s.Ok? ==> Transforms(old(View()), View(), e, l, ex, old(freereg))
      ensures Excused(s, old(freereg) + Depth(ex))
      decreases ex, 2
    {
      hide Wf, Transforms;
      l := NOLISTS;
      e := Exp(VNIL, NO_JUMP, NO_JUMP);
      ghost var c, lo := View(), freereg;
      match ex {
        case ENil => e := Exp(VNIL, NO_JUMP, NO_JUMP); LeafTransforms(c, e.k, ex, lo);
        case ETrue => e := Exp(VTRUE, NO_JUMP, NO_JUMP); LeafTransforms(c, e.k, ex, lo);
        case EFalse => e := Exp(VFALSE, NO_JUMP, NO_JUMP); LeafTransforms(c, e.k, ex, lo);
        case EInt(i) => e := Exp(VKINT(i), NO_JUMP, NO_JUMP); LeafTransforms(c, e.k, ex, lo);
        case EStr(str) => e := Exp(VKSTR(str), NO_JUMP, NO_JUMP); LeafTransforms(c, e.k, ex, lo);
        case ELocal(r) => e := Exp(VLOCAL(r), NO_JUMP, NO_JUMP); LeafTransforms(c, e.k, ex, lo);
        case ENot(a) =>
          e, l :- Subexpr(a);
          e :- PrefixNot(e, l, c, a, lo);
          l := Lists(l.fs, l.ts);
        case ERel(op, a, b) =>
          e, l :- SubexprRel(op, a, b);
        case EAnd(a, b) =>
          e, l :- SubexprJunction(true, a, b);
        case EOr(a, b) =>
          e, l :- SubexprJunction(false, a, b);
      }
      return Ok, e, l;
    }

    method SubexprJunction(go: bool, a: Expr, b: Expr) returns (s: Status, e: Exp, ghost l: Lists)
      requires Valid() && Wf(View()) && Closed(a, nvarstack) && Closed(b, nvarstack)
      modifies this
      ensures s.Ok? ==> Valid() && Holds(e, old(freereg)) && !e.k.VK?
      ensures s.Ok? ==> Transforms(old(View()), View(), e, l, Junction(go, a, b), old(freereg))
      ensures Excused(s, old(freereg) + Max(Max(Depth(a), Depth(b)), 1))
      decreases Junction(go, a, b), 1
    {
      hide Wf, WfList, Transforms, Branched, Exits, Depth;
      ghost var c, lo := View(), freereg;
      e, l :- Subexpr(a);
      ghost var c1, ea, la := View(), e, l;
      TransformsWf(c, c1, ea, la, a, lo);
      ghost var list;
      e, list :- InfixJunction(go, e, l, lo);
      e, l :- JunctionTail(go, e, list, c, c1, ea, la, a, b, lo);
      return Ok, e, l;
    }

    /** Reads the second operand of `and` or `or`. */
    method JunctionTail(go: bool, e1: Exp, ghost list: seq<nat>, ghost c: Code, ghost c1: Code, ghost ea: Exp, ghost la: Lists,
                        ghost a: Expr, b: Expr, ghost lo: nat)
      returns (s: Status, e: Exp, ghost l: Lists)
      requires Valid() && freereg == lo && Closed(b, nvarstack)
      requires Transforms(c, c1, ea, la, a, lo) && Shape(c1, ea)
      requires Branched(c1, ea, la, View(), Exits(e1, go), list, go, lo)
      modifies this
      ensures s.Ok? ==> Valid() && Holds(e, lo) && !e.k.VK? && Transforms(c, View(), e, l, Junction(go, a, b), lo)
      ensures Excused(s, lo + Max(Depth(b), 1))
      decreases Junction(go, a, b), 0
    {
      hide Wf, Transforms, Branched, Exits, Depth;
      ghost var d := View();
      BranchedWf(c1, ea, la, d, Exits(e1, go), list, go, lo);
      e, l :- Subexpr(b);
      e, l :- PosfixJunction(go, e1, e, l, list, c, c1, ea, la, d, a, b, lo);
      return Ok, e, l;
    }

    method SubexprRel(op: Rel, a: Expr, b: Expr) returns (s: Status, e: Exp, ghost l: Lists)
      requires Valid() && Wf(View()) && Closed(a, nvarstack) && Closed(b, nvarstack)
      modifies this
      ensures s.Ok? ==> Valid() && Holds(e, old(freereg)) && !e.k.VK?
      ensures s.Ok? ==> Transforms(old(View()), View(), e, l, ERel(op, a, b), old(freereg))
      ensures Excused(s, old(freereg) + Max(Max(Depth(a), 2), Depth(b) + 1))
      decreases ERel(op, a, b), 1
    {
      hide Wf, WfList, Transforms, OperandOf, Depth;
      ghost var c, lo := View(), freereg;
      e, l :- Subexpr(a);
      ghost var c1, ea, la := View(), e, l;
      TransformsWf(c, c1, ea, la, a, lo);
      ghost var list;
      e, list :- Infix(OprRel(op), e, l, lo);
      e :- RelTail(op, e, c, c1, ea, la, a, b, lo);
      l := NOLISTS;
      return Ok, e, l;
    }

    /** Reads the second operand of a comparison. */
    method RelTail(op: Rel, e1: Exp, ghost c: Code, ghost c1: Code, ghost ea: Exp, ghost la: Lists,
                   ghost a: Expr, b: Expr, ghost lo: nat)
      returns (s: Status, e: Exp)
      requires Valid() && Holds(e1, lo) && Closed(b, nvarstack)
      requires Transforms(c, c1, ea, la, a, lo) && Shape(c1, ea) && OperandOf(c1, ea, la, View(), e1, lo)
      requires op != EQ && op != NE ==> e1.k.VNONRELOC? || IsSCnumber(e1)
      modifies this
      ensures s.Ok? ==> Valid() && Holds(e, lo) && !e.k.VK? && Transforms(c, View(), e, NOLISTS, ERel(op, a, b), lo)
      ensures Excused(s, lo + Max(2, Depth(b) + 1))
      decreases ERel(op, a, b), 0
    {
      hide Wf, Transforms, OperandOf, Halfway, Depth;
      ghost var d, lo1 := View(), freereg;
      OperandWf(c1, ea, la, d, e1, lo);
      ghost var l;
      e, l :- Subexpr(b);
      HalfwayFrom(c, c1, ea, la, a, d, e1, View(), e, l, b, lo, lo1, nvarstack);
      e :- PosfixRel(op, e1, e, l, c, d, a, b, lo, lo1);
      return Ok, e;
    }

    /** Code that leaves the value of an expression in the next free register. */
    method Expression(ex: Expr) returns (s: Status, reg: nat)
      requires Valid() && Wf(View()) && Closed(ex, nvarstack)
      modifies this
      ensures s.Ok? ==> Valid() && reg == old(freereg) && freereg == reg + 1 && reg < MAXREGS
      ensures s.Ok? ==> Delivered(old(View()), View(), ex, reg, reg)
      ensures Excused(s, old(freereg) + Max(Depth(ex), 1))
    {
      hide Wf, WfList, Transforms, Materialized;
      ghost var l;
      var e;
      ghost var c, lo := View(), freereg;
      reg := freereg;
      e, l :- Subexpr(ex);
      ghost var d, e1 := View(), e;
      TransformsWf(c, d, e, l, ex, lo);
      e :- Exp2NextReg(e, l, lo);
      Delivery(c, d, e1, l, View(), ex, reg, lo);
      return Ok, reg;
    }

    /** Code that assigns the value of an expression to a local variable. */
    method StoreLocal(r: Reg, ex: Expr) returns (s: Status)
      requires Valid() && Wf(View()) && Closed(ex, nvarstack) && r < nvarstack
      modifies this
      ensures s.Ok? ==> Valid() && freereg == old(freereg)
      ensures s.Ok? ==> Delivered(old(View()), View(), ex, r, old(freereg))
      ensures Excused(s, old(freereg) + Depth(ex))
    {
      hide Wf, WfList, Transforms, Materialized;
      ghost var l;
      var e;
      ghost var c, lo := View(), freereg;
      e, l :- Subexpr(ex);
      ghost var d, e1 := View(), e;
      TransformsWf(c, d, e, l, ex, lo);
      FreeExp(e);
      e :- Exp2Reg(e, r, l);
      Delivery(c, d, e1, l, View(), ex, r, lo);
      return Ok;
    }
  }
}

