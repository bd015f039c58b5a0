/**
 The final pass over the code of a function: jumps to jumps are redirected, in place
 and from left to right, to where they lead.
 */
module JumpThreading {
  import opened LuaCode

  predicate InBounds(code: seq<Instr>) {
    forall pc :: 0 <= pc < |code| && code[pc].JMP? ==> 0 <= pc + 1 + code[pc].sj < |code|
  }

  /** Where following at most `n` jumps leads. */
  function Hops(code: seq<Instr>, pc: nat, n: nat): (t: nat)
    requires InBounds(code) && pc < |code|
    ensures t < |code|
    decreases n
  {
    if n == 0 || !code[pc].JMP? then pc else Hops(code, pc + 1 + code[pc].sj, n - 1)
  }

  /** From `pc`, following jumps, the first other instruction is the one at `q`. */
  ghost predicate Reaches(code: seq<Instr>, pc: nat, q: nat)
    requires InBounds(code) && pc < |code|
  {
    q < |code| && !code[q].JMP? && exists n: nat :: Hops(code, pc, n) == q
  }

  /** Code that goes the same way from every place. */
  ghost predicate SameWay(a: seq<Instr>, b: seq<Instr>) {
    && |a| == |b| && InBounds(a) && InBounds(b)
    && (forall pc :: 0 <= pc < |a| ==> a[pc].JMP? == b[pc].JMP? && (!a[pc].JMP? ==> a[pc] == b[pc]))
    && (forall pc, q :: 0 <= pc < |a| && 0 <= q ==> (Reaches(a, pc, q) <==> Reaches(b, pc, q)))
  }

  lemma {:induction false} HopsAdd(code: seq<Instr>, pc: nat, n: nat, m: nat)
    requires InBounds(code) && pc < |code|
    ensures Hops(code, Hops(code, pc, n), m) == Hops(code, pc, n + m)
    decreases n
  {
    if n > 0 && code[pc].JMP? {
      HopsAdd(code, pc + 1 + code[pc].sj, n - 1, m);
    } else if n > 0 {
      HopsStay(code, pc, m);
    }
  }

  lemma HopsStay(code: seq<Instr>, pc: nat, m: nat)
    requires InBounds(code) && pc < |code| && !code[pc].JMP?
    ensures Hops(code, pc, m) == pc
  {
  }

  /** `b` is `a` with the jump at `i` leading where `k` hops of `a` lead. */
  predicate Redirected(a: seq<Instr>, b: seq<Instr>, i: nat, k: nat) {
    && InBounds(a) && i < |a| && a[i].JMP? && k > 0
    && b == a[i := JMP(Hops(a, i, k) - (i + 1))]
  }

  lemma {:induction false} HopsForth(a: seq<Instr>, b: seq<Instr>, i: nat, k: nat, pc: nat, n: nat)
    requires Redirected(a, b, i, k) && InBounds(b) && pc < |a| && !a[Hops(a, pc, n)].JMP?
    ensures exists m: nat :: Hops(b, pc, m) == Hops(a, pc, n)
    decreases n
  {
    var q := Hops(a, pc, n);
    if !a[pc].JMP? {
      assert Hops(b, pc, 0) == q;
    } else {
      var t := if pc == i then Hops(a, i, k) else pc + 1 + a[pc].sj;
      var rest: nat := if pc == i && k <= n then n - k else if pc == i then 0 else n - 1;
      if pc == i && k <= n {
        HopsAdd(a, i, k, n - k);
      } else if pc == i {
        HopsAdd(a, i, n, k - n);
        HopsStay(a, q, k - n);
      }
      HopsForth(a, b, i, k, t, rest);
      var m: nat :| Hops(b, t, m) == q;
      assert Hops(b, pc, m + 1) == q;
    }
  }

  lemma {:induction false} HopsBack(a: seq<Instr>, b: seq<Instr>, i: nat, k: nat, pc: nat, m: nat)
    requires Redirected(a, b, i, k) && InBounds(b) && pc < |a|
    ensures exists n: nat :: Hops(a, pc, n) == Hops(b, pc, m)
    decreases m
  {
    if m == 0 || !b[pc].JMP? {
      assert Hops(a, pc, 0) == Hops(b, pc, m);
    } else {
      var t := pc + 1 + b[pc].sj;
      HopsBack(a, b, i, k, t, m - 1);
      var n: nat :| Hops(a, t, n) == Hops(b, t, m - 1);
      var j := if pc == i then k else 1;
      assert pc != i ==> Hops(a, pc, 1) == Hops(a, t, 0);
      HopsAdd(a, pc, j, n);
      assert Hops(a, pc, j + n) == Hops(b, pc, m);
    }
  }

  /** Redirecting one jump changes no way. */
  lemma RedirectSame(a: seq<Instr>, b: seq<Instr>, i: nat, k: nat)
    requires Redirected(a, b, i, k)
    ensures SameWay(a, b)
  {
    assert InBounds(b);
    forall pc, q | 0 <= pc < |a| && 0 <= q ensures Reaches(a, pc, q) <==> Reaches(b, pc, q) {
      if Reaches(a, pc, q) {
        var n: nat :| Hops(a, pc, n) == q;
        HopsForth(a, b, i, k, pc, n);
      }
      if Reaches(b, pc, q) {
        var m: nat :| Hops(b, pc, m) == q;
        HopsBack(a, b, i, k, pc, m);
      }
    }
  }

  lemma SameWayOn(a: seq<Instr>, b: seq<Instr>, c: seq<Instr>)
    requires SameWay(a, b) && SameWay(b, c)
    ensures SameWay(a, c)
  {
    hide Hops;
    forall pc, q | 0 <= pc < |a| && 0 <= q ensures Reaches(a, pc, q) <==> Reaches(c, pc, q) {
      assert Reaches(a, pc, q) <==> Reaches(b, pc, q);
      assert Reaches(b, pc, q) <==> Reaches(c, pc, q);
    }
  }

  /** Skips jumps to jumps, but no more than 100: there may be an infinite loop. */
  method FinalTarget(code: array<Instr>, i: nat) returns (t: nat)
    requires InBounds(code[..]) && i < code.Length
    ensures t == Hops(code[..], i, 100)
  {
    t := i;
    var count := 0;
    while count < 100
      invariant 0 <= count <= 100 && t < code.Length
      invariant Hops(code[..], i, 100) == Hops(code[..], t, 100 - count)
    {
      var pc := code[t];
      if !pc.JMP? {
        break;
      }
      t := t + 1 + pc.sj;
      count := count + 1;
    }
  }

  /** The final pass; it stops with an error when a jump gets too long. From every place
      the same instruction is reached as before, or none if none was. */
  method Finish(code: array<Instr>) returns (ok: bool)
    requires InBounds(code[..])
    modifies code
    ensures SameWay(old(code[..]), code[..])
    ensures ok ==> forall i :: 0 <= i < code.Length && code[i].JMP? ==>
              -OFFSET_sJ <= code[i].sj <= MAXARG_sJ - OFFSET_sJ
  {
    hide Hops, Reaches;
    SameWaySelf(code[..]);
    var i := 0;
    while i < code.Length
      invariant 0 <= i <= code.Length && SameWay(old(code[..]), code[..])
      invariant forall j :: 0 <= j < i && code[j].JMP? ==> -OFFSET_sJ <= code[j].sj <= MAXARG_sJ - OFFSET_sJ
    {
      if code[i].JMP? {
        var target := FinalTarget(code, i);
        var offset := target - (i + 1);
        if !(-OFFSET_sJ <= offset <= MAXARG_sJ - OFFSET_sJ) {
          return false;
        }
        ghost var was := code[..];
        code[i] := JMP(offset);
        assert code[..] == was[i := JMP(offset)];
        RedirectSame(was, code[..], i, 100);
        SameWayOn(old(code[..]), was, code[..]);
      }
      i := i + 1;
    }
    return true;
  }

  lemma SameWaySelf(code: seq<Instr>)
    requires InBounds(code)
    ensures SameWay(code, code)
  {
  }
}
