/**
 Expressions of the source language, their values, and what it means that code
 computes them. The theorems here put the steps of the generator together, one
 for each form of expression.
 */
module ExprMeaning {
  import opened LuaCode
  import opened Options
  import opened CodeFacts
  import opened ExpFacts
  import opened ExpSteps

  datatype Rel = EQ | NE | LT | LE | GT | GE

  datatype Expr =
    | ENil | ETrue | EFalse
    | EInt(i: int) | EStr(s: string)
    | ELocal(r: Reg)
    | ENot(e: Expr)
    | ERel(op: Rel, a: Expr, b: Expr)
    | EAnd(a: Expr, b: Expr)
    | EOr(a: Expr, b: Expr)

  function Relate(op: Rel, x: Value, y: Value): Option<bool> {
    match op
    case EQ => Some(x == y)
    case NE => Some(x != y)
    case LT => Compare(LtOp, x, y)
    case LE => Compare(LeOp, x, y)
    case GT => Compare(LtOp, y, x)
    case GE => Compare(LeOp, y, x)
  }

  function RelateOpt(op: Rel, x: Option<Value>, y: Option<Value>): Option<Value> {
    if x.Some? && y.Some? then
      match Relate(op, x.value, y.value)
      case Some(b) => Some(Bool(b))
      case None => None
    else None
  }

  /** The value of an expression; none when its evaluation raises an error. `and` and
      `or` only evaluate their second operand when the first does not decide. */
  function Eval(e: Expr, R: Regs): Option<Value> {
    match e
    case ENil => Some(Nil)
    case ETrue => Some(Bool(true))
    case EFalse => Some(Bool(false))
    case EInt(i) => Some(Int(i))
    case EStr(s) => Some(Str(s))
    case ELocal(r) => Some(R[r])
    case ENot(a) =>
      var x := Eval(a, R);
      if x.Some? then Some(Bool(!Truthy(x.value))) else None
    case ERel(op, a, b) => RelateOpt(op, Eval(a, R), Eval(b, R))
    case EAnd(a, b) =>
      var x := Eval(a, R);
      if x.Some? && Truthy(x.value) then Eval(b, R) else x
    case EOr(a, b) =>
      var x := Eval(a, R);
      if x.Some? && !Truthy(x.value) then Eval(b, R) else x
  }

  /** All variables of the expression are among the first `n` registers. */
  predicate Closed(e: Expr, n: nat) {
    match e
    case ELocal(r) => r < n
    case ENot(a) => Closed(a, n)
    case ERel(_, a, b) => Closed(a, n) && Closed(b, n)
    case EAnd(a, b) => Closed(a, n) && Closed(b, n)
    case EOr(a, b) => Closed(a, n) && Closed(b, n)
    case _ => true
  }

  lemma EvalAgree(e: Expr, R: Regs, S: Regs, n: nat)
    requires Closed(e, n) && Agree(R, S, n)
    ensures Eval(e, R) == Eval(e, S)
  {
  }

  /** The meaning `m` of an expression compiled after code whose run ends in `o` is
      the value of `e`, with the registers below `lo` unchanged. */
  ghost predicate Computes(o: Outcome, m: Meaning, e: Expr, lo: nat) {
    match o
    case Fall(R) =>
      (match Eval(e, R)
       case Some(v) => m.Val? && m.v == v && Agree(R, m.R, lo)
       case None => m == Err)
    case Exit(j, R) => m == Out(j, R)
    case Error => m == Err
    case Stuck => m == Bad
  }

  /** Code `c` was continued to `d`, where `e`, `l` describe the value of `ex`. */
  ghost predicate Transforms(c: Code, d: Code, e: Exp, l: Lists, ex: Expr, lo: nat) {
    && WfExp(d, e, l) && Grown(c, d)
    && Rest(d, e, l) == c.pend
    && Kept(c, d, c.pend)
    && forall R0 :: Computes(Run(c, R0), Den(d, e, l, R0), ex, lo)
  }

  /** A constant or a variable needs no code. */
  lemma LeafTransforms(c: Code, k: Kind, ex: Expr, lo: nat)
    requires Wf(c)
    requires match ex
             case ENil => k == VNIL
             case ETrue => k == VTRUE
             case EFalse => k == VFALSE
             case EInt(i) => k == VKINT(i)
             case EStr(s) => k == VKSTR(s)
             case ELocal(r) => k == VLOCAL(r)
             case _ => false
    ensures Transforms(c, c, Exp(k, NO_JUMP, NO_JUMP), NOLISTS, ex, lo)
  {
    var e := Exp(k, NO_JUMP, NO_JUMP);
    ChainIs(c.ins, NO_JUMP, []);
    PrefixKept(c, c);
    assert Own(e, NOLISTS) == {};
    EndNotMid(c);
    hide Wf, Kept, Grown, Chain;
    forall R0 ensures Computes(Run(c, R0), Den(c, e, NOLISTS, R0), ex, lo) {
    }
  }

  /** A further step that keeps or negates the meaning. */
  lemma NotTransforms(c: Code, d: Code, e: Exp, l: Lists, f: Code, e': Exp, ex: Expr, lo: nat)
    requires Transforms(c, d, e, l, ex, lo) && Moved(d, e, l, f, e', Lists(l.fs, l.ts)) && Shape(f, e')
    requires forall R0 :: Shape(d, e) ==> SameMeaning(Negate(Den(d, e, l, R0)), Den(f, e', Lists(l.fs, l.ts), R0), lo)
    ensures Transforms(c, f, e', Lists(l.fs, l.ts), ENot(ex), lo)
  {
    hide Wf, WfList, Run, Den, Rest;
    assert Grown(c, f) && Kept(c, f, c.pend);
    forall R0 ensures Computes(Run(c, R0), Den(f, e', Lists(l.fs, l.ts), R0), ENot(ex), lo) {
      assert SameMeaning(Negate(Den(d, e, l, R0)), Den(f, e', Lists(l.fs, l.ts), R0), lo);
      assert Computes(Run(c, R0), Den(d, e, l, R0), ex, lo);
      hide Moved, Grown, Kept;
    }
  }

  // ----- and, or -----

  function Junction(go: bool, a: Expr, b: Expr): Expr {
    if go then EAnd(a, b) else EOr(a, b)
  }

  /** The list of the second operand that the jumps of the first one join. */
  function Leaving(l: Lists, go: bool): seq<nat> {
    if go then l.fs else l.ts
  }

  function Joining(l: Lists, go: bool, list: seq<nat>): Lists {
    if go then Lists(l.ts, l.fs + list) else Lists(l.ts + list, l.fs)
  }

  function Rehead(e: Exp, go: bool, head: int): Exp {
    if go then e.(f := head) else e.(t := head)
  }

  /** The meaning of the second operand once the jumps of the first one are its own. */
  lemma JunctionMeaning(c: Code, e: Exp, l: Lists, d: Code, go: bool, list: seq<nat>, head: int, R0: Regs)
    requires Shape(c, e) && Shape(d, Rehead(e, go, head))
    requires Run(Eff(d, Rehead(e, go, head)), R0) == Run(Eff(c, e), R0)
    requires forall R :: Finish(d, Rehead(e, go, head), R) == Finish(c, e, R)
    requires forall j, R, cond :: JumpVal(d, j, R, cond) == JumpVal(c, j, R, cond)
    requires forall j :: j in list ==> j !in l.ts && j !in l.fs
    ensures var m := Den(c, e, l, R0);
            Den(d, Rehead(e, go, head), Joining(l, go, list), R0) ==
            if m.Out? && m.j in list then Val(JumpVal(d, m.j, m.R, !go), m.R) else m
  {
    hide Run, Eff, Finish, Shape;
    var o := Run(Eff(c, e), R0);
    if o.Exit? {
      var l3 := Joining(l, go, list);
      assert o.j in l3.ts <==> o.j in l.ts || (!go && o.j in list);
      assert o.j in l3.fs <==> o.j in l.fs || (go && o.j in list);
      assert JumpVal(d, o.j, o.R, true) == JumpVal(c, o.j, o.R, true);
      assert JumpVal(d, o.j, o.R, false) == JumpVal(c, o.j, o.R, false);
    }
  }

  lemma JunctionComputes(o: Outcome, m1: Meaning, o1: Outcome, d: Code, m2: Meaning, d': Code, m3: Meaning,
                         a: Expr, b: Expr, go: bool, list: seq<nat>, lo: nat, n: nat)
    requires Computes(o, m1, a, lo) && GoRel(m1, o1, d, [], list, go, lo) && Computes(o1, m2, b, lo)
    requires m3 == if m2.Out? && m2.j in list then Val(JumpVal(d', m2.j, m2.R, !go), m2.R) else m2
    requires forall j, R, cond :: j in list ==> JumpVal(d', j, R, cond) == JumpVal(d, j, R, cond)
    requires Closed(b, n) && n <= lo
    ensures Computes(o, m3, Junction(go, a, b), lo)
  {
    if o.Fall? && m1.Val? {
      if o1.Fall? {
        assert Agree(o.R, o1.R, n);
        EvalAgree(b, o.R, o1.R, n);
      }
    }
  }

  /** The jumps of the first operand are pending, and not among those of the second. */
  lemma JunctionPend(c: Code, c1: Code, e1: Exp, l1: Lists, a: Expr, d: Code, hd: int, list: seq<nat>, go: bool, lo: nat,
                     c2: Code, e2: Exp, l2: Lists, b: Expr)
    requires Transforms(c, c1, e1, l1, a, lo) && Shape(c1, e1)
    requires Branched(c1, e1, l1, d, hd, list, go, lo)
    requires Transforms(d, c2, e2, l2, b, lo)
    ensures d.pend == c.pend + Elems(list) && Elems(list) <= Rest(c2, e2, l2)
    ensures forall j :: j in list ==> j !in l2.ts && j !in l2.fs && j !in c.pend
    ensures WfList(c2, hd, list, !go)
    ensures Grown(c, c2) && Kept(c, c2, c.pend)
    ensures forall j, R, cond :: j in list ==> JumpVal(c2, j, R, cond) == JumpVal(d, j, R, cond)
  {
    hide Wf, WfExp, Run, Den, Chain, Computes, GoRel;
    assert Elems([]) == {};
    RestOwn(c2, e2, l2);
    assert Rest(c1, e1, l1) == c.pend;
    hide Rest;
    WfListStays(d, c2, hd, list, !go);
    forall j, R, cond | j in list ensures JumpVal(c2, j, R, cond) == JumpVal(d, j, R, cond) {
      JumpValKept(d, c2, d.pend, j, R, cond);
    }
  }

  lemma RestOwn(c: Code, e: Exp, l: Lists)
    ensures Rest(c, e, l) <= c.pend
    ensures forall j :: j in Rest(c, e, l) ==> j !in l.ts && j !in l.fs
    ensures e.k.VJMP? ==> e.k.jmp !in Rest(c, e, l)
  {
  }

  /** Joining outer jumps to a list concerns only the effective code. */
  lemma EffJoined(c: Code, e: Exp, s1: seq<nat>, s2: seq<nat>, d: Code, go: bool, head: int)
    requires Shape(c, e) && d == c.(ins := Joined(c.ins, s1, s2))
    requires s1 != [] ==> s1[|s1| - 1] < |Eff(c, e).ins| && c.base < s1[|s1| - 1]
    ensures Shape(d, Rehead(e, go, head))
    ensures Eff(d, Rehead(e, go, head)) == Eff(c, e).(ins := Joined(Eff(c, e).ins, s1, s2))
    ensures forall R :: Finish(d, Rehead(e, go, head), R) == Finish(c, e, R)
    ensures Grown(c, d) || c.base > |c.ins|
  {
    hide Finish;
    JoinedShape(c, e, s1, s2, d, go, head);
    assert Eff(d, Rehead(e, go, head)).ins == Joined(Eff(c, e).ins, s1, s2) by {
      if s1 != [] && s2 != [] {
        assert d.ins[..|Eff(c, e).ins|] == Joined(Eff(c, e).ins, s1, s2);
      }
    }
    forall R ensures Finish(d, Rehead(e, go, head), R) == Finish(c, e, R) {
      JoinedFinish(c, e, s1, s2, d, go, head, R);
    }
  }

  lemma JoinedShape(c: Code, e: Exp, s1: seq<nat>, s2: seq<nat>, d: Code, go: bool, head: int)
    requires Shape(c, e) && d == c.(ins := Joined(c.ins, s1, s2))
    requires s1 != [] ==> s1[|s1| - 1] < |Eff(c, e).ins| && c.base < s1[|s1| - 1]
    ensures Shape(d, Rehead(e, go, head)) && |d.ins| == |c.ins|
    ensures forall pc :: 0 <= pc < |c.ins| && (s1 == [] || pc != s1[|s1| - 1]) ==> d.ins[pc] == c.ins[pc]
    ensures Grown(c, d) || c.base > |c.ins|
  {
  }

  lemma JoinedFinish(c: Code, e: Exp, s1: seq<nat>, s2: seq<nat>, d: Code, go: bool, head: int, R: Regs)
    requires Shape(c, e) && d == c.(ins := Joined(c.ins, s1, s2)) && Shape(d, Rehead(e, go, head))
    requires s1 != [] ==> s1[|s1| - 1] < |Eff(c, e).ins| && c.base < s1[|s1| - 1]
    ensures Finish(d, Rehead(e, go, head), R) == Finish(c, e, R)
  {
    JoinedShape(c, e, s1, s2, d, go, head);
    hide Joined;
  }

  lemma JunctionWf(c2: Code, e2: Exp, l2: Lists, d': Code, head: int, go: bool, hd: int, list: seq<nat>)
    requires WfExp(c2, e2, l2) && WfList(c2, hd, list, !go) && Elems(list) <= Rest(c2, e2, l2)
    requires d' == c2.(ins := Joined(c2.ins, Leaving(l2, go), list))
    requires Chain(d'.ins, head, Leaving(l2, go) + list)
    ensures WfExp(d', Rehead(e2, go, head), Joining(l2, go, list))
    ensures forall R0 :: Run(Eff(d', Rehead(e2, go, head)), R0) == Run(Eff(c2, e2), R0)
    ensures forall R :: Finish(d', Rehead(e2, go, head), R) == Finish(c2, e2, R)
    ensures forall j, R, cond :: JumpVal(d', j, R, cond) == JumpVal(c2, j, R, cond)
    ensures Kept(c2, d', Eff(c2, e2).pend - Elems(Leaving(l2, go))) && (c2.base <= |c2.ins| ==> Grown(c2, d'))
  {
    hide Wf, Chain, Run, Mid, WfAt;
    var b, e3, s1 := Eff(c2, e2), Rehead(e2, go, head), Leaving(l2, go);
    JunctionList(c2, e2, l2, go, hd, list);
    assert s1 != [] ==> s1[|s1| - 1] in s1;
    EffJoined(c2, e2, s1, list, d', go, head);
    var b' := Eff(d', e3);
    JoinedWf(b, b', s1, list);
    var s := s1 + list;
    EffKept(c2, e2, l2);
    EffPrefix(d', e3);
    ChainShorter(d'.ins, b'.ins, head, s);
    WfListJoin(b, b', if go then e2.f else e2.t, s1, hd, list, head, !go);
    WfListStays(b, b', if go then e2.t else e2.f, Leaving(l2, !go), go);
    JunctionJumpVals(c2, d', s1, list, b);
    EffPrefix(d', e3);
    KeptAcross(b, c2, b', d', b.pend - Elems(s1));
    hide Joined, WfList, Finish, Kept;
    assert forall j :: j in list ==> j !in Leaving(l2, !go);
  }

  lemma JunctionList(c2: Code, e2: Exp, l2: Lists, go: bool, hd: int, list: seq<nat>)
    requires WfExp(c2, e2, l2) && WfList(c2, hd, list, !go) && Elems(list) <= Rest(c2, e2, l2)
    ensures WfList(Eff(c2, e2), hd, list, !go)
    ensures Elems(Leaving(l2, go)) <= Eff(c2, e2).pend && Elems(Leaving(l2, !go)) <= Eff(c2, e2).pend - Elems(Leaving(l2, go))
    ensures forall j :: j in Leaving(l2, go) ==> c2.base < j < |Eff(c2, e2).ins| && j < |c2.ins| && c2.ins[j].JMP?
    ensures forall j :: j in list ==> j !in l2.ts && j !in l2.fs && j < |Eff(c2, e2).ins|
  {
    hide Chain, Mid, WfAt;
    EffPend(c2, e2, l2);
    EffKept(c2, e2, l2);
    RestOwn(c2, e2, l2);
    var b := Eff(c2, e2);
    WfListShorter(c2, b, hd, list, !go);
    hide Rest, WfList;
    forall j | j in Leaving(l2, go) ensures c2.base < j < |b.ins| && c2.ins[j].JMP? {
      assert j in b.pend;
    }
  }

  lemma WfListShorter(c: Code, b: Code, head: int, l: seq<nat>, cond: bool)
    requires WfList(c, head, l, cond) && Kept(b, c, b.pend) && Elems(l) <= b.pend
    ensures WfList(b, head, l, cond) && forall j :: j in l ==> j < |b.ins|
  {
    hide Chain;
    forall j | j in l ensures j in b.pend && 0 < j < |b.ins| && b.ins[j] == c.ins[j] && b.ins[j - 1] == c.ins[j - 1] {
      assert j in Elems(l);
    }
    ChainShorter(c.ins, b.ins, head, l);
  }

  lemma ChainShorter(ins: seq<Instr>, ins': seq<Instr>, head: int, l: seq<nat>)
    requires Chain(ins, head, l)
    requires forall j :: j in l ==> j < |ins'| && j < |ins| && ins'[j] == ins[j]
    ensures Chain(ins', head, l)
  {
    hide Chain;
    forall i | 0 <= i < |l| ensures l[i] < |ins'| && ins'[l[i]].JMP? && NextJump(ins', l[i]) == Head(l, i + 1) {
      ChainAt(ins, head, l, i);
    }
    forall i, n | 0 <= i < n < |l| ensures l[i] != l[n] {
      ChainDistinct(ins, head, l, i, n);
    }
    ChainHead(ins, head, l);
    ChainIs(ins', head, l);
  }

  lemma JunctionJumpVals(c: Code, d: Code, s1: seq<nat>, s2: seq<nat>, b: Code)
    requires d == c.(ins := Joined(c.ins, s1, s2)) && |b.ins| <= |c.ins|
    requires forall j :: j in s1 ==> c.base < j < |b.ins| && j < |c.ins| && c.ins[j].JMP?
    ensures forall j, R, cond :: JumpVal(d, j, R, cond) == JumpVal(c, j, R, cond)
  {
  }

  lemma JunctionFrame(c: Code, c2: Code, e2: Exp, l2: Lists, d': Code, go: bool, list: seq<nat>, head: int)
    requires Grown(c, c2) && Grown(c2, d') && d'.pend == c2.pend && Kept(c, c2, c.pend)
    requires WfExp(c2, e2, l2) && Kept(c2, d', Eff(c2, e2).pend - Elems(Leaving(l2, go)))
    requires Rest(c2, e2, l2) == c.pend + Elems(list) && forall j :: j in list ==> j !in c.pend
    ensures Grown(c, d') && Kept(c, d', c.pend)
    ensures Rest(d', Rehead(e2, go, head), Joining(l2, go, list)) == c.pend
  {
    hide WfList, Wf;
    var s, P := Leaving(l2, go), Eff(c2, e2).pend;
    assert Elems(s + list) == Elems(s) + Elems(list);
    RestOwn(c2, e2, l2);
    EffPend(c2, e2, l2);
    forall j | j in c.pend ensures j in P - Elems(s) {
      assert j in Rest(c2, e2, l2);
    }
  }

  /** `a and b`, `a or b`: code for `a` that goes on to `b` only when `a` does not
      decide, code for `b`, and the jumps of both joined. */
  lemma JunctionTransforms(c: Code, a: Expr, b: Expr, go: bool, lo: nat, n: nat,
                           c1: Code, e1: Exp, l1: Lists, d: Code, hd: int, list: seq<nat>,
                           c2: Code, e2: Exp, l2: Lists, d': Code, head: int)
    requires Transforms(c, c1, e1, l1, a, lo) && Shape(c1, e1)
    requires Branched(c1, e1, l1, d, hd, list, go, lo)
    requires Transforms(d, c2, e2, l2, b, lo) && Closed(b, n) && n <= lo
    requires d' == c2.(ins := Joined(c2.ins, Leaving(l2, go), list))
    requires Chain(d'.ins, head, Leaving(l2, go) + list)
    ensures Transforms(c, d', Rehead(e2, go, head), Joining(l2, go, list), Junction(go, a, b), lo)
  {
    hide Wf, WfList, Run, Den, Rest, Kept, Chain, Joined, Computes, GoRel, Own;
    var e3, l3 := Rehead(e2, go, head), Joining(l2, go, list);
    JunctionPend(c, c1, e1, l1, a, d, hd, list, go, lo, c2, e2, l2, b);
    JunctionWf(c2, e2, l2, d', head, go, hd, list);
    JunctionFrame(c, c2, e2, l2, d', go, list, head);
    forall R0 ensures Computes(Run(c, R0), Den(d', e3, l3, R0), Junction(go, a, b), lo) {
      assert Computes(Run(c, R0), Den(c1, e1, l1, R0), a, lo);
      assert GoRel(Den(c1, e1, l1, R0), Run(d, R0), d, [], list, go, lo);
      assert Computes(Run(d, R0), Den(c2, e2, l2, R0), b, lo);
      JunctionMeaning(c2, e2, l2, d', go, list, head, R0);
      JunctionComputes(Run(c, R0), Den(c1, e1, l1, R0), Run(d, R0), d, Den(c2, e2, l2, R0), d', Den(d', e3, l3, R0),
                       a, b, go, list, lo, n);
    }
  }

  // ----- comparisons -----

  /** A descriptor that can be an operand of a comparison: a constant or a register. */
  predicate Simple(c: Code, x: Exp) {
    && x.t == NO_JUMP && x.f == NO_JUMP
    && (x.k.VKINT? || x.k.VNONRELOC? || (x.k.VK? && x.k.idx < |c.ks|))
  }

  /** Nothing above register `lo` is used. */
  predicate Below(x: Exp, lo: nat) {
    x.k.VNONRELOC? ==> x.k.reg < lo
  }

  function ValueIn(c: Code, x: Exp, R: Regs): Value
    requires Simple(c, x)
  {
    match x.k
    case VKINT(i) => Int(i)
    case VNONRELOC(r) => R[r]
    case VK(i) => c.ks[i]
  }

  /** The operand `x` has the value that `m` says, and registers below `lo` are unchanged. */
  ghost predicate HasVal(m: Meaning, o: Outcome, d: Code, x: Exp, lo: nat)
    requires Simple(d, x)
  {
    match m
    case Val(v, R) => o.Fall? && ValueIn(d, x, o.R) == v && Agree(R, o.R, lo)
    case Out(j, R) => o == Exit(j, R)
    case Err => o == Error
    case Bad => o == Stuck
  }

  ghost predicate OperandOf(c: Code, e: Exp, l: Lists, d: Code, x: Exp, lo: nat)
    requires Shape(c, e)
  {
    && Wf(d) && Grown(c, d) && Simple(d, x)
    && d.pend == Rest(c, e, l)
    && Kept(c, d, Rest(c, e, l))
    && forall R0 :: HasVal(Den(c, e, l, R0), Run(d, R0), d, x, lo)
  }

  lemma OperandInReg(c: Code, e: Exp, l: Lists, d: Code, r: Reg, lo: nat)
    requires Shape(c, e) && InReg(c, e, l, d, r, lo)
    ensures OperandOf(c, e, l, d, Exp(VNONRELOC(r), NO_JUMP, NO_JUMP), lo)
  {
    hide Wf, Grown, Kept, Rest, Den, Run;
    var x := Exp(VNONRELOC(r), NO_JUMP, NO_JUMP);
    forall R0 ensures HasVal(Den(c, e, l, R0), Run(d, R0), d, x, lo) {
      assert HasIn(Den(c, e, l, R0), Run(d, R0), r, lo);
    }
  }

  /** The value of a simple operand is what its descriptor stands for. */
  lemma SimpleDen(c: Code, x: Exp, R0: Regs)
    requires Simple(c, x)
    ensures Shape(c, x) && Rest(c, x, NOLISTS) == c.pend
    ensures Den(c, x, NOLISTS, R0) == match Run(c, R0)
                                      case Fall(R) => Val(ValueIn(c, x, R), R)
                                      case Exit(j, R) => Out(j, R)
                                      case Error => Err
                                      case Stuck => Bad
  {
    hide Run;
    assert Own(x, NOLISTS) == {};
  }

  /** A constant stays a constant, possibly moved to the constant table. */
  lemma OperandConst(c: Code, e: Exp, l: Lists, d: Code, x: Exp, lo: nat)
    requires WfExp(c, e, l) && e.t == e.f && Simple(d, x) && !x.k.VNONRELOC?
    requires d == c.(ks := d.ks) && |c.ks| <= |d.ks| && forall i :: 0 <= i < |c.ks| ==> d.ks[i] == c.ks[i]
    requires !e.k.VJMP? && !e.k.VRELOC? && forall R :: Finish(c, e, R) == Val(ValueIn(d, x, R), R)
    ensures OperandOf(c, e, l, d, x, lo) && l == NOLISTS && e.t == NO_JUMP && e.f == NO_JUMP
  {
    ExpLinked(c, e, l);
    HasJumpsIff(c, e.t, l.ts, e.f, l.fs);
    assert Eff(c, e) == c;
    assert Own(e, l) == {};
    assert Prefix(c, d);
    PrefixKept(c, d);
    AppendWf(c, d) by {
      assert d.last == c.last;
    }
    EndNotMid(c);
    hide Wf, Kept, Grown, Mid;
    forall R0 ensures HasVal(Den(c, e, l, R0), Run(d, R0), d, x, lo) {
      ExecAppend(c, d, c.base, R0);
      assert Finish(c, e, R0) == Val(ValueIn(d, x, R0), R0);
      assert forall R :: Exec(d, |d.ins|, R) == Fall(R);
    }
  }

  /** After code for one operand of a comparison. */
  ghost predicate OneVal(o: Outcome, o1: Outcome, d: Code, x: Exp, a: Expr, lo: nat)
    requires Simple(d, x)
  {
    match o
    case Fall(R) =>
      (match Eval(a, R)
       case Some(v) => o1.Fall? && ValueIn(d, x, o1.R) == v && Agree(R, o1.R, lo)
       case None => o1 == Error)
    case _ => o1 == o
  }

  /** After code for both. */
  ghost predicate TwoVals(o: Outcome, o2: Outcome, d: Code, x: Exp, y: Exp, a: Expr, b: Expr, lo: nat)
    requires Simple(d, x) && Simple(d, y)
  {
    match o
    case Fall(R) =>
      var va, vb := Eval(a, R), Eval(b, R);
      if va.Some? && vb.Some? then
        o2.Fall? && ValueIn(d, x, o2.R) == va.value && ValueIn(d, y, o2.R) == vb.value && Agree(R, o2.R, lo)
      else o2 == Error
    case _ => o2 == o
  }

  ghost predicate One(c: Code, d: Code, x: Exp, a: Expr, lo: nat) {
    && Wf(d) && Grown(c, d) && Simple(d, x) && d.pend == c.pend && Kept(c, d, c.pend)
    && forall R0 :: OneVal(Run(c, R0), Run(d, R0), d, x, a, lo)
  }

  ghost predicate Two(c: Code, d: Code, x: Exp, y: Exp, a: Expr, b: Expr, lo: nat) {
    && Wf(d) && Grown(c, d) && Simple(d, x) && Simple(d, y) && d.pend == c.pend && Kept(c, d, c.pend)
    && forall R0 :: TwoVals(Run(c, R0), Run(d, R0), d, x, y, a, b, lo)
  }

  lemma FirstOperand(c: Code, c1: Code, e: Exp, l: Lists, d: Code, x: Exp, a: Expr, lo: nat)
    requires Transforms(c, c1, e, l, a, lo) && Shape(c1, e) && OperandOf(c1, e, l, d, x, lo)
    ensures One(c, d, x, a, lo)
  {
    hide Wf, Run, Den, Rest, WfExp, ValueIn;
    assert Grown(c, d) && Kept(c, d, c.pend);
    forall R0 ensures OneVal(Run(c, R0), Run(d, R0), d, x, a, lo) {
      assert Computes(Run(c, R0), Den(c1, e, l, R0), a, lo);
      assert HasVal(Den(c1, e, l, R0), Run(d, R0), d, x, lo);
      hide Grown, Kept, Eval, Simple;
    }
  }

  lemma ValueStays(c: Code, d: Code, x: Exp, R: Regs, S: Regs, lo: nat)
    requires Simple(c, x) && Below(x, lo) && Grown(c, d) && Agree(R, S, lo)
    ensures Simple(d, x) && ValueIn(d, x, S) == ValueIn(c, x, R)
  {
  }

  lemma SecondOperand(c: Code, d: Code, x: Exp, a: Expr, lo: nat, c2: Code, e: Exp, l: Lists, b: Expr,
                      f: Code, y: Exp, lo1: nat, n: nat)
    requires One(c, d, x, a, lo) && Below(x, lo1) && lo <= lo1 && Closed(b, n) && n <= lo
    requires Transforms(d, c2, e, l, b, lo1) && Shape(c2, e) && OperandOf(c2, e, l, f, y, lo1)
    ensures Two(c, f, x, y, a, b, lo)
  {
    FirstOperand(d, c2, e, l, f, y, b, lo1);
    hide Wf, Run, ValueIn, OperandOf, Transforms, OneVal, TwoVals;
    assert Grown(c, f) && Kept(c, f, c.pend) && Simple(f, x);
    forall R0 ensures TwoVals(Run(c, R0), Run(f, R0), f, x, y, a, b, lo) {
      assert OneVal(Run(c, R0), Run(d, R0), d, x, a, lo);
      assert OneVal(Run(d, R0), Run(f, R0), f, y, b, lo1);
      hide One, Kept;
      BothValues(Run(c, R0), Run(d, R0), Run(f, R0), d, f, x, y, a, b, lo, lo1, n);
    }
  }

  lemma BothValues(o: Outcome, o1: Outcome, o2: Outcome, d: Code, f: Code, x: Exp, y: Exp, a: Expr, b: Expr,
                   lo: nat, lo1: nat, n: nat)
    requires Simple(d, x) && Simple(f, x) && Simple(f, y) && Grown(d, f) && Below(x, lo1) && lo <= lo1 && Closed(b, n) && n <= lo
    requires OneVal(o, o1, d, x, a, lo) && OneVal(o1, o2, f, y, b, lo1)
    ensures TwoVals(o, o2, f, x, y, a, b, lo)
  {
    hide Eval, ValueIn;
    if o.Fall? && o1.Fall? {
      assert Agree(o.R, o1.R, n);
      EvalAgree(b, o.R, o1.R, n);
      if o2.Fall? {
        ValueStays(d, f, x, o1.R, o2.R, lo1);
      }
    }
  }

  /** One of two operands is moved while the other stays. */
  lemma MoveOperand(c: Code, d: Code, x: Exp, y: Exp, a: Expr, b: Expr, lo: nat, f: Code, x': Exp, lo1: nat)
    requires Two(c, d, x, y, a, b, lo) && Shape(d, x) && OperandOf(d, x, NOLISTS, f, x', lo1) && Below(y, lo1) && lo <= lo1
    ensures Two(c, f, x', y, a, b, lo)
  {
    hide Wf, Run, Den, WfExp, ValueIn, Eval;
    var N: Regs := seq(256, i => Nil);
    SimpleDen(d, x, N);
    hide Rest, TwoVals, HasVal;
    assert Grown(c, f) && Kept(c, f, c.pend) && Simple(f, y);
    forall R0 ensures TwoVals(Run(c, R0), Run(f, R0), f, x', y, a, b, lo) {
      assert TwoVals(Run(c, R0), Run(d, R0), d, x, y, a, b, lo);
      assert HasVal(Den(d, x, NOLISTS, R0), Run(f, R0), f, x', lo1);
      SimpleDen(d, x, R0);
      hide Kept, Grown;
      MoveVals(Run(c, R0), Run(d, R0), Run(f, R0), Den(d, x, NOLISTS, R0), d, f, x, x', y, a, b, lo, lo1);
    }
  }

  lemma MoveVals(o: Outcome, o1: Outcome, o2: Outcome, m: Meaning, d: Code, f: Code, x: Exp, x': Exp, y: Exp,
                 a: Expr, b: Expr, lo: nat, lo1: nat)
    requires Simple(d, x) && Simple(d, y) && Simple(f, x') && Simple(f, y) && Grown(d, f) && Below(y, lo1) && lo <= lo1
    requires TwoVals(o, o1, d, x, y, a, b, lo) && HasVal(m, o2, f, x', lo1)
    requires m == match o1
                  case Fall(R) => Val(ValueIn(d, x, R), R)
                  case Exit(j, R) => Out(j, R)
                  case Error => Err
                  case Stuck => Bad
    ensures TwoVals(o, o2, f, x', y, a, b, lo)
  {
    hide Eval, ValueIn, Simple, Grown;
    if o1.Fall? && o2.Fall? {
      ValueStays(d, f, y, o1.R, o2.R, lo1);
    }
  }

  lemma TwoSwapped(c: Code, d: Code, x: Exp, y: Exp, a: Expr, b: Expr, lo: nat)
    requires Two(c, d, x, y, a, b, lo)
    ensures Two(c, d, y, x, b, a, lo)
  {
    hide Wf, Run, Kept, Grown, Eval, Simple;
    forall R0 ensures TwoVals(Run(c, R0), Run(d, R0), d, y, x, b, a, lo) {
      assert TwoVals(Run(c, R0), Run(d, R0), d, x, y, a, b, lo);
    }
  }

  /** The test `i` compares `x` and `y` by `op`. */
  ghost predicate Decides(d: Code, i: Instr, op: Rel, x: Exp, y: Exp)
    requires Simple(d, x) && Simple(d, y)
  {
    && IsCompare(i) && (i.EQK? ==> i.kb < |d.ks|)
    && forall R ::
         var t, r := Tested(i, d.ks, R), Relate(op, ValueIn(d, x, R), ValueIn(d, y, R));
         (t.None? <==> r.None?) && (t.Some? && r.Some? ==> ((t.value == i.k) <==> r.value))
  }

  /** A test of both operands and its jump describe the comparison. */
  lemma CompareTransforms(c: Code, d: Code, x: Exp, y: Exp, a: Expr, b: Expr, op: Rel, lo: nat, i: Instr, f: Code, j: nat)
    requires Two(c, d, x, y, a, b, lo) && Decides(d, i, op, x, y)
    requires j == |d.ins| + 1 && f == d.(ins := d.ins + [i, JMP(NO_JUMP)], pend := d.pend + {j})
    ensures Transforms(c, f, Exp(VJMP(j), NO_JUMP, NO_JUMP), NOLISTS, ERel(op, a, b), lo)
  {
    var e := Exp(VJMP(j), NO_JUMP, NO_JUMP);
    CompareWf(d, i, f, j);
    hide Wf, Run, Kept, Grown, WfExp, ValueIn;
    forall R0 ensures Computes(Run(c, R0), Den(f, e, NOLISTS, R0), ERel(op, a, b), lo) {
      assert TwoVals(Run(c, R0), Run(d, R0), d, x, y, a, b, lo);
      CompareComputes(Run(c, R0), d, f, i, j, x, y, a, b, op, lo, R0);
    }
    CompareFrame(c, d, i, f, j);
  }

  lemma CompareWf(d: Code, i: Instr, f: Code, j: nat)
    requires Wf(d) && IsCompare(i) && (i.EQK? ==> i.kb < |d.ks|)
    requires j == |d.ins| + 1 && f == d.(ins := d.ins + [i, JMP(NO_JUMP)], pend := d.pend + {j})
    ensures var e := Exp(VJMP(j), NO_JUMP, NO_JUMP); WfExp(f, e, NOLISTS) && Eff(f, e) == d && f.ins[j - 1] == i
  {
    var e := Exp(VJMP(j), NO_JUMP, NO_JUMP);
    assert f.ins[..|f.ins| - 2] == d.ins;
    assert j !in d.pend;
    assert f.pend - {j} == d.pend;
    ChainIs(d.ins, NO_JUMP, []);
  }

  lemma CompareFrame(c: Code, d: Code, i: Instr, f: Code, j: nat)
    requires Wf(d) && Grown(c, d) && d.pend == c.pend && Kept(c, d, c.pend)
    requires j == |d.ins| + 1 && f == d.(ins := d.ins + [i, JMP(NO_JUMP)], pend := d.pend + {j})
    ensures Grown(c, f) && Kept(c, f, c.pend) && Rest(f, Exp(VJMP(j), NO_JUMP, NO_JUMP), NOLISTS) == c.pend
  {
    assert Own(Exp(VJMP(j), NO_JUMP, NO_JUMP), NOLISTS) == {j};
    assert j !in d.pend;
  }

  lemma CompareComputes(o: Outcome, d: Code, f: Code, i: Instr, j: nat, x: Exp, y: Exp, a: Expr, b: Expr, op: Rel, lo: nat, R0: Regs)
    requires Simple(d, x) && Simple(d, y) && Decides(d, i, op, x, y)
    requires TwoVals(o, Run(d, R0), d, x, y, a, b, lo)
    requires Shape(f, Exp(VJMP(j), NO_JUMP, NO_JUMP)) && Eff(f, Exp(VJMP(j), NO_JUMP, NO_JUMP)) == d
    requires j == |d.ins| + 1 && f.ins[j - 1] == i && f.ks == d.ks
    ensures Computes(o, Den(f, Exp(VJMP(j), NO_JUMP, NO_JUMP), NOLISTS, R0), ERel(op, a, b), lo)
  {
    hide Run, Eff, Relate, Tested, Simple, ValueIn;
    var o2 := Run(d, R0);
    if o2.Fall? {
      var t, r := Tested(i, d.ks, o2.R), Relate(op, ValueIn(d, x, o2.R), ValueIn(d, y, o2.R));
      assert (t.None? <==> r.None?) && (t.Some? && r.Some? ==> ((t.value == i.k) <==> r.value));
    }
  }

  // ----- operands, step by step -----

  /** Constants were added at most. */
  predicate OnlyConstants(c: Code, d: Code) {
    && d == c.(ks := d.ks) && |c.ks| <= |d.ks|
    && forall i :: 0 <= i < |c.ks| ==> d.ks[i] == c.ks[i]
  }

  lemma ConstantsRun(c: Code, d: Code)
    requires Wf(c) && OnlyConstants(c, d)
    ensures Wf(d) && Grown(c, d) && Kept(c, d, c.pend)
    ensures forall R0 :: Run(d, R0) == Run(c, R0)
  {
    assert Prefix(c, d);
    AppendWf(c, d);
    PrefixKept(c, d);
    EndNotMid(c);
    hide Wf, Mid;
    forall R0 ensures Run(d, R0) == Run(c, R0) {
      ExecAppend(c, d, c.base, R0);
      assert forall R :: Exec(d, |d.ins|, R) == Fall(R);
    }
  }

  /** More constants change nothing for an expression in the making. */
  lemma ConstantsExp(c: Code, e: Exp, l: Lists, d: Code)
    requires WfExp(c, e, l) && OnlyConstants(c, d)
    ensures WfExp(d, e, l) && Rest(d, e, l) == Rest(c, e, l)
    ensures forall R0 :: Den(d, e, l, R0) == Den(c, e, l, R0)
    ensures c.base <= |c.ins| ==> Grown(c, d)
    ensures Kept(c, d, Rest(c, e, l))
  {
    hide Wf, WfAt, Mid, Run, WfList, Finish;
    ConstantsWf(c, e, l, d);
    MovedSelf(c, e, l);
    forall R0 ensures Den(d, e, l, R0) == Den(c, e, l, R0) {
      ConstantsDen(c, e, l, d, R0);
    }
  }

  lemma ConstantsWf(c: Code, e: Exp, l: Lists, d: Code)
    requires WfExp(c, e, l) && OnlyConstants(c, d)
    ensures WfExp(d, e, l) && forall R0 :: Run(Eff(d, e), R0) == Run(Eff(c, e), R0)
  {
    hide WfAt, Mid, Run, Chain;
    ConstantsRun(Eff(c, e), Eff(d, e));
    hide Wf;
  }

  lemma ConstantsDen(c: Code, e: Exp, l: Lists, d: Code, R0: Regs)
    requires Shape(c, e) && OnlyConstants(c, d) && Shape(d, e)
    requires Run(Eff(d, e), R0) == Run(Eff(c, e), R0)
    ensures Den(d, e, l, R0) == Den(c, e, l, R0)
  {
    hide Run, Finish, Eff;
    var o := Run(Eff(c, e), R0);
    if o.Fall? {
      ConstantsFinish(c, e, d, o.R);
    }
  }

  lemma ConstantsFinish(c: Code, e: Exp, d: Code, R: Regs)
    requires Shape(c, e) && OnlyConstants(c, d)
    ensures Shape(d, e) && Finish(d, e, R) == Finish(c, e, R)
  {
    if e.k.VJMP? {
      var i := c.ins[e.k.jmp - 1];
      assert Tested(i, d.ks, R) == Tested(i, c.ks, R);
    }
  }

  lemma OperandConstants(c: Code, e: Exp, l: Lists, d: Code, f: Code, x: Exp, lo: nat)
    requires WfExp(c, e, l) && OnlyConstants(c, d) && Shape(d, e) && OperandOf(d, e, l, f, x, lo) && c.base <= |c.ins|
    ensures OperandOf(c, e, l, f, x, lo)
  {
    ConstantsExp(c, e, l, d);
    hide Wf, Run, Den, Rest, WfExp, OnlyConstants;
    assert Grown(c, f) && Kept(c, f, Rest(c, e, l));
    forall R0 ensures HasVal(Den(c, e, l, R0), Run(f, R0), f, x, lo) {
      assert HasVal(Den(d, e, l, R0), Run(f, R0), f, x, lo);
    }
  }

  /** A constant operand needs no code. */
  lemma OperandHere(c: Code, e: Exp, l: Lists, lo: nat)
    requires WfExp(c, e, l) && e.k.VKINT? && e.t == e.f
    ensures OperandOf(c, e, l, c, Exp(e.k, NO_JUMP, NO_JUMP), lo) && l == NOLISTS && e == Exp(e.k, NO_JUMP, NO_JUMP)
  {
    OperandConst(c, e, l, c, Exp(e.k, NO_JUMP, NO_JUMP), lo);
    ExpLinked(c, e, l);
    assert e.t == NO_JUMP && e.f == NO_JUMP;
  }

  lemma SimpleWf(c: Code, x: Exp)
    requires Wf(c) && Simple(c, x)
    ensures WfExp(c, x, NOLISTS)
  {
    ChainIs(c.ins, NO_JUMP, []);
  }

  lemma TwoWf(c: Code, d: Code, x: Exp, y: Exp, a: Expr, b: Expr, lo: nat)
    requires Two(c, d, x, y, a, b, lo)
    ensures Wf(d) && Grown(c, d) && Simple(d, x) && Simple(d, y) && WfExp(d, x, NOLISTS) && WfExp(d, y, NOLISTS)
  {
    SimpleWf(d, x);
    SimpleWf(d, y);
  }

  lemma Flipped(c: Code, d: Code, e: Exp, l: Lists, op: Rel, a: Expr, b: Expr, lo: nat)
    requires Transforms(c, d, e, l, ERel(op, b, a), lo) && (op == LT || op == LE)
    ensures Transforms(c, d, e, l, ERel(if op == LT then GT else GE, a, b), lo)
  {
    hide Wf, WfList, Run, Den, Rest, Kept, Grown;
    var op' := if op == LT then GT else GE;
    forall R0 ensures Computes(Run(c, R0), Den(d, e, l, R0), ERel(op', a, b), lo) {
      assert Computes(Run(c, R0), Den(d, e, l, R0), ERel(op, b, a), lo);
      if Run(c, R0).Fall? {
        assert Eval(ERel(op', a, b), Run(c, R0).R) == Eval(ERel(op, b, a), Run(c, R0).R);
      }
    }
  }

  lemma ValidConstants(c: Code, d: Code)
    requires OnlyConstants(c, d)
    ensures d.ins == c.ins && d.base == c.base && d.last == c.last && d.pend == c.pend
  {
  }

  /** Between the operands of a comparison: `x` holds the first one, `e` and `l`
      describe the second one, compiled from register level `lo1` on. */
  ghost predicate Halfway(c: Code, d: Code, x: Exp, a: Expr, c2: Code, e: Exp, l: Lists, b: Expr, lo: nat, lo1: nat, n: nat) {
    && One(c, d, x, a, lo) && Below(x, lo1) && n <= lo <= lo1 && Closed(b, n)
    && Transforms(d, c2, e, l, b, lo1)
  }

  lemma HalfwayWf(c: Code, d: Code, x: Exp, a: Expr, c2: Code, e: Exp, l: Lists, b: Expr, lo: nat, lo1: nat, n: nat)
    requires Halfway(c, d, x, a, c2, e, l, b, lo, lo1, n)
    ensures WfExp(c2, e, l) && Simple(c2, x) && Grown(c, c2)
  {
    hide WfExp, Wf;
  }

  lemma HalfwayTwo(c: Code, d: Code, x: Exp, a: Expr, c2: Code, e: Exp, l: Lists, b: Expr, lo: nat, lo1: nat, n: nat, f: Code, y: Exp)
    requires Halfway(c, d, x, a, c2, e, l, b, lo, lo1, n) && Shape(c2, e) && OperandOf(c2, e, l, f, y, lo1)
    ensures Two(c, f, x, y, a, b, lo)
  {
    hide Wf, OperandOf, Two, Transforms, One;
    SecondOperand(c, d, x, a, lo, c2, e, l, b, f, y, lo1, n);
  }

  /** The test that orders two operands. */
  function OrderTest(op: Rel, x: Exp, y: Exp): Instr
    requires op == LT || op == LE
    requires (x.k.VNONRELOC? && (y.k.VKINT? || y.k.VNONRELOC?)) || (x.k.VKINT? && y.k.VNONRELOC?)
  {
    var cmp := if op == LT then LtOp else LeOp;
    if x.k.VKINT? then CMPR(cmp, y.k.reg, x.k.i + OFFSET_sC, true)
    else if y.k.VKINT? then CMPI(cmp, x.k.reg, y.k.i + OFFSET_sC, true)
    else CMP(cmp, x.k.reg, y.k.reg, true)
  }

  lemma OrderDecides(d: Code, op: Rel, x: Exp, y: Exp)
    requires Simple(d, x) && Simple(d, y) && (op == LT || op == LE)
    requires (x.k.VNONRELOC? && (y.k.VKINT? || y.k.VNONRELOC?)) || (x.k.VKINT? && y.k.VNONRELOC?)
    ensures Decides(d, OrderTest(op, x, y), op, x, y)
  {
  }

  /** The test that compares for equality; the operand that is no register comes second. */
  function EqTest(op: Rel, r: Reg, y: Exp): Instr
    requires op == EQ || op == NE
    requires y.k.VKINT? || y.k.VNONRELOC? || y.k.VK?
  {
    match y.k
    case VKINT(i) => CMPI(EqOp, r, i + OFFSET_sC, op == EQ)
    case VK(i) => EQK(r, i, op == EQ)
    case VNONRELOC(q) => CMP(EqOp, r, q, op == EQ)
  }

  lemma EqDecides(d: Code, op: Rel, x: Exp, y: Exp)
    requires Simple(d, x) && Simple(d, y) && (op == EQ || op == NE) && x.k.VNONRELOC?
    ensures Decides(d, EqTest(op, x.k.reg, y), op, x, y)
    ensures Decides(d, EqTest(op, x.k.reg, y), op, y, x)
  {
  }

  lemma HalfwayLow(c: Code, d: Code, x: Exp, a: Expr, c2: Code, e: Exp, l: Lists, b: Expr, lo: nat, lo1: nat, n: nat)
    requires Halfway(c, d, x, a, c2, e, l, b, lo, lo1, n)
    ensures n <= lo <= lo1
  {
  }

  lemma HalfwayConst(c: Code, d: Code, x: Exp, a: Expr, c2: Code, e: Exp, l: Lists, b: Expr, lo: nat, lo1: nat, n: nat)
    requires Halfway(c, d, x, a, c2, e, l, b, lo, lo1, n) && e.k.VKINT? && e.t == e.f
    ensures Two(c, c2, x, e, a, b, lo)
  {
    hide Wf, WfList, Halfway, Two, OperandOf;
    HalfwayWf(c, d, x, a, c2, e, l, b, lo, lo1, n);
    OperandHere(c2, e, l, lo1);
    HalfwayTwo(c, d, x, a, c2, e, l, b, lo, lo1, n, c2, e);
  }

  lemma TransformsWf(c: Code, d: Code, e: Exp, l: Lists, ex: Expr, lo: nat)
    requires Transforms(c, d, e, l, ex, lo)
    ensures WfExp(d, e, l) && Grown(c, d)
  {
  }

  /** A variable is read where it is. */
  lemma TransformsVars(c: Code, d: Code, e: Exp, l: Lists, ex: Expr, lo: nat, e': Exp)
    requires Transforms(c, d, e, l, ex, lo)
    requires e' == e || (e.k.VLOCAL? && e' == e.(k := VNONRELOC(e.k.ridx)))
    ensures Transforms(c, d, e', l, ex, lo)
  {
    VarsDischarged(d, e, l, e');
    hide Wf, WfList, Run, Den, Rest, Computes, Kept, Grown;
  }

  lemma JunctionChains(c: Code, c1: Code, e1: Exp, l1: Lists, a: Expr, d: Code, hd: int, list: seq<nat>, go: bool, lo: nat,
                       c2: Code, e2: Exp, l2: Lists, b: Expr)
    requires Transforms(c, c1, e1, l1, a, lo) && Shape(c1, e1)
    requires Branched(c1, e1, l1, d, hd, list, go, lo)
    requires Transforms(d, c2, e2, l2, b, lo)
    ensures Chain(c2.ins, if go then e2.f else e2.t, Leaving(l2, go)) && Chain(c2.ins, hd, list)
    ensures forall j :: j in Leaving(l2, go) ==> j !in list
    ensures Grown(c, c2) && (forall j :: j in Leaving(l2, go) ==> c2.base < j)
  {
    JunctionPend(c, c1, e1, l1, a, d, hd, list, go, lo, c2, e2, l2, b);
    TransformsWf(d, c2, e2, l2, b, lo);
    ExpLinked(c2, e2, l2);
    JunctionList(c2, e2, l2, go, hd, list);
    hide Transforms, Branched, WfExp, Chain;
  }

  lemma JoinedLength(ins: seq<Instr>, s1: seq<nat>, s2: seq<nat>, n: nat)
    requires forall j :: j in s1 ==> n < j
    ensures |Joined(ins, s1, s2)| == |ins|
    ensures 0 < n <= |ins| ==> Joined(ins, s1, s2)[n - 1] == ins[n - 1]
  {
    if s1 != [] {
      assert s1[|s1| - 1] in s1;
    }
  }

  lemma HalfwayVars(c: Code, d: Code, x: Exp, a: Expr, c2: Code, e: Exp, l: Lists, b: Expr, lo: nat, lo1: nat, n: nat, e': Exp)
    requires Halfway(c, d, x, a, c2, e, l, b, lo, lo1, n)
    requires e' == e || (e.k.VLOCAL? && e' == e.(k := VNONRELOC(e.k.ridx)))
    ensures Halfway(c, d, x, a, c2, e', l, b, lo, lo1, n)
  {
    hide One, Transforms;
    TransformsVars(d, c2, e, l, b, lo1, e');
  }

  lemma HalfwayFrom(c: Code, c1: Code, ea: Exp, la: Lists, a: Expr, d: Code, x: Exp,
                    c2: Code, e: Exp, l: Lists, b: Expr, lo: nat, lo1: nat, n: nat)
    requires Transforms(c, c1, ea, la, a, lo) && Shape(c1, ea) && OperandOf(c1, ea, la, d, x, lo)
    requires Below(x, lo1) && n <= lo <= lo1 && Closed(b, n) && Transforms(d, c2, e, l, b, lo1)
    ensures Halfway(c, d, x, a, c2, e, l, b, lo, lo1, n)
  {
    hide Transforms, OperandOf, One;
    FirstOperand(c, c1, ea, la, d, x, a, lo);
  }

  lemma OperandWf(c: Code, e: Exp, l: Lists, d: Code, x: Exp, lo: nat)
    requires Shape(c, e) && OperandOf(c, e, l, d, x, lo)
    ensures Wf(d) && Simple(d, x) && Grown(c, d)
  {
  }

  lemma BranchedWf(c: Code, e: Exp, l: Lists, d: Code, head: int, list: seq<nat>, go: bool, lo: nat)
    requires Shape(c, e) && Branched(c, e, l, d, head, list, go, lo)
    ensures Wf(d) && Grown(c, d)
  {
  }

  // ----- the result -----

  /** A run that got to the end of the earlier code in `o` and now ends in `o'`: the
      value of `ex` is in `reg` and the other registers below `lo` are unchanged, or
      its error is raised. A run that did not get there ends as before. */
  predicate Delivers(o: Outcome, o': Outcome, ex: Expr, reg: Reg, lo: nat) {
    match o
    case Fall(R) =>
      (match Eval(ex, R)
       case Some(v) => o'.Fall? && o'.R[reg] == v && forall r :: 0 <= r < lo && r < 256 && r != reg ==> o'.R[r] == R[r]
       case None => o' == Error)
    case _ => o' == o
  }

  /** The code `d` continues `c` with the evaluation of `ex` into `reg`; the jumps of
      enclosing code are where they were. */
  ghost predicate Delivered(c: Code, d: Code, ex: Expr, reg: Reg, lo: nat) {
    && Wf(d) && Grown(c, d) && d.pend == c.pend && Kept(c, d, c.pend)
    && forall R0 :: Delivers(Run(c, R0), Run(d, R0), ex, reg, lo)
  }

  lemma Delivery(c: Code, d: Code, e: Exp, l: Lists, f: Code, ex: Expr, reg: Reg, lo: nat)
    requires Transforms(c, d, e, l, ex, lo) && Shape(d, e) && Materialized(d, e, l, f, reg)
    ensures Delivered(c, f, ex, reg, lo)
  {
    hide Wf, WfList, Run, Den, Rest;
    assert Grown(c, f) && Kept(c, f, c.pend);
    forall R0 ensures Delivers(Run(c, R0), Run(f, R0), ex, reg, lo) {
      assert Computes(Run(c, R0), Den(d, e, l, R0), ex, lo);
      assert Run(f, R0) == Landed(Den(d, e, l, R0), reg);
      hide Grown, Kept, Eval, Shape;
    }
  }

  /** Any place in any function can be the start of the stretch: its code starts empty. */
  lemma FreshStretch(c: Code)
    requires c.base == |c.ins| && c.last <= |c.ins| && c.pend == {}
    ensures Wf(c) && forall R0 :: Run(c, R0) == Fall(R0)
  {
  }
}
