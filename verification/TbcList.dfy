/**
 The list of to-be-closed variables: a stack of levels kept as 16-bit distances inside the
 stack slots themselves, with dummy nodes where a distance does not fit.
 */
module TbcList {

  const MAXDELTA := 65535

  type Delta = n: nat | n <= 65535

  /** What matters of a value: false and nil are never closed, and closing needs a method. */
  datatype Value = FalseOrNil | WithClose | WithoutClose

  datatype Outcome = Done | NotClosable

  /** Dummy nodes lead from `p` back to `prev`. */
  ghost predicate Dummies(delta: seq<Delta>, prev: nat, p: nat) {
    p == prev || (p < |delta| && p >= prev + MAXDELTA && delta[p] == 0 && Dummies(delta, prev, p - MAXDELTA))
  }

  /** The level under the last of `levels`: the stack base when there is none. */
  function Last(levels: seq<nat>): nat {
    if levels == [] then 0 else levels[|levels| - 1]
  }

  /** The node at `cur` leads back to the level `prev`. */
  ghost predicate LeadsTo(delta: seq<Delta>, cur: nat, prev: nat) {
    && prev < cur < |delta| && 0 < delta[cur] <= cur - prev
    && Dummies(delta, prev, cur - delta[cur])
  }

  /** The deltas encode the levels, which increase strictly. */
  ghost predicate Encodes(delta: seq<Delta>, levels: seq<nat>) {
    levels == [] ||
    (var init := levels[..|levels| - 1]; LeadsTo(delta, Last(levels), Last(init)) && Encodes(delta, init))
  }

  function Reverse(s: seq<nat>): seq<nat> {
    if s == [] then [] else Reverse(s[1..]) + [s[0]]
  }

  class LuaState {
    const values: array<Value>       // the stack
    const delta: array<Delta>        // the delta that each slot holds besides its value
    var tbclist: nat
    var closed: seq<nat>             // calls of close methods, by slot
    ghost var levels: seq<nat>       // the list that the deltas stand for

    ghost predicate Valid()
      reads this, delta
    {
      && values.Length == delta.Length && 0 < delta.Length <= 0x1_0000_0000
      && tbclist == Last(levels) && tbclist < delta.Length
      && Encodes(delta[..], levels)
    }

    constructor (size: nat)
      requires 0 < size <= 0x1_0000_0000
      ensures Valid() && levels == [] && closed == [] && values.Length == size
    {
      values := new Value[size](_ => FalseOrNil);
      delta := new Delta[size](_ => 0);
      tbclist := 0;
      closed := [];
      levels := [];
    }

    /** Puts a variable in the list, unless it is false; an error if it cannot be closed. */
    method NewTbcUpval(level: nat) returns (r: Outcome)
      requires Valid() && tbclist < level < delta.Length
      modifies this`tbclist, this`levels, delta
      ensures Valid()
      ensures r == if values[level].WithoutClose? then NotClosable else Done
      ensures levels == if values[level].WithClose? then old(levels) + [level] else old(levels)
    {
      hide Encodes, Dummies;
      if values[level].FalseOrNil? {
        return Done;
      }
      if values[level].WithoutClose? {
        return NotClosable;
      }
      ghost var was, prev := delta[..], tbclist;
      ItselfEnds(was, prev);
      while (level - tbclist) % 0x1_0000_0000 > MAXDELTA
        invariant prev <= tbclist < level && levels == old(levels)
        invariant Dummies(delta[..], prev, tbclist)
        invariant delta[..prev + 1] == was[..prev + 1]
      {
        ghost var before := delta[..];
        tbclist := tbclist + MAXDELTA;
        delta[tbclist] := 0;
        AnotherDummy(before, delta[..], prev, tbclist);
      }
      ghost var before := delta[..];
      delta[level] := (level - tbclist) % 0x1_0000;
      SameDummies(before, delta[..], prev, tbclist);
      SameEncoding(was, delta[..], levels, prev);
      OneMore(delta[..], levels, level);
      tbclist := level;
      levels := levels + [level];
      r := Done;
    }

    /** Takes the first variable off the list together with its dummy nodes. */
    method PopTbcList()
      requires Valid() && levels != []
      modifies this`tbclist, this`levels
      ensures Valid() && levels == old(levels)[..|old(levels)| - 1]
    {
      hide Encodes, Dummies;
      OneLess(delta[..], levels);
      var tbc := tbclist;
      ghost var init := levels[..|levels| - 1];
      ghost var prev := Last(init);
      tbc := tbc - delta[tbc];
      while tbc > 0 && delta[tbc] == 0
        invariant prev <= tbc < delta.Length && Dummies(delta[..], prev, tbc)
      {
        DummyOrEnd(delta[..], init, prev, tbc);
        tbc := tbc - MAXDELTA;
      }
      DummyOrEnd(delta[..], init, prev, tbc);
      tbclist := tbc;
      levels := init;
    }

    /** Closes the variables at `level` and above it, the last one first. */
    method Close(level: nat)
      requires Valid() && level > 0
      modifies this`tbclist, this`levels, this`closed
      ensures Valid() && tbclist < level
      ensures exists n: nat :: n <= |old(levels)| && ClosedFrom(old(levels), n, level)
                && levels == old(levels)[..n] && closed == old(closed) + Reverse(old(levels)[n..])
    {
      hide Encodes, Dummies;
      ghost var all, n: nat := levels, |levels|;
      while tbclist >= level
        invariant Valid() && n <= |all| && levels == all[..n]
        invariant forall i :: n <= i < |all| ==> all[i] >= level
        invariant closed == old(closed) + Reverse(all[n..])
        decreases n
      {
        var tbc := tbclist;
        PopTbcList();
        closed := closed + [tbc];
        n := n - 1;
        assert all[n..][1..] == all[n + 1..];
      }
      Increasing(delta[..], levels);
      assert ClosedFrom(all, n, level);
    }
  }

  /** Position `n` separates the levels below `level` from the others. */
  ghost predicate ClosedFrom(levels: seq<nat>, n: nat, level: nat)
    requires n <= |levels|
  {
    && (forall i :: 0 <= i < n ==> levels[i] < level)
    && (forall i :: n <= i < |levels| ==> levels[i] >= level)
  }

  lemma ItselfEnds(delta: seq<Delta>, p: nat)
    ensures Dummies(delta, p, p)
  {
  }

  /** The chain of dummies looks at nothing above its start. */
  lemma {:induction false} SameDummies(was: seq<Delta>, now: seq<Delta>, prev: nat, p: nat)
    requires p < |was| == |now| && Dummies(was, prev, p)
    requires forall i :: prev < i <= p ==> now[i] == was[i]
    ensures Dummies(now, prev, p)
  {
    if p != prev {
      SameDummies(was, now, prev, p - MAXDELTA);
    }
  }

  lemma AnotherDummy(was: seq<Delta>, now: seq<Delta>, prev: nat, p: nat)
    requires p < |was| && p >= prev + MAXDELTA && Dummies(was, prev, p - MAXDELTA) && now == was[p := 0]
    ensures Dummies(now, prev, p)
  {
    SameDummies(was, now, prev, p - MAXDELTA);
  }

  /** An encoding looks at nothing above its last level. */
  lemma {:induction false} SameEncoding(was: seq<Delta>, now: seq<Delta>, levels: seq<nat>, last: nat)
    requires Encodes(was, levels) && Last(levels) <= last < |was| == |now|
    requires now[..last + 1] == was[..last + 1]
    ensures Encodes(now, levels)
  {
    hide Dummies;
    if levels != [] {
      var cur, init := Last(levels), levels[..|levels| - 1];
      forall i | 0 <= i <= last ensures now[i] == was[i] {
        assert now[..last + 1][i] == was[..last + 1][i];
      }
      SameDummies(was, now, Last(init), cur - was[cur]);
      SameEncoding(was, now, init, last);
    }
  }

  lemma OneMore(delta: seq<Delta>, levels: seq<nat>, level: nat)
    requires Encodes(delta, levels) && LeadsTo(delta, level, Last(levels))
    ensures Encodes(delta, levels + [level])
  {
    hide LeadsTo;
    assert (levels + [level])[..|levels + [level]| - 1] == levels;
  }

  lemma OneLess(delta: seq<Delta>, levels: seq<nat>)
    requires Encodes(delta, levels) && levels != []
    ensures LeadsTo(delta, Last(levels), Last(levels[..|levels| - 1])) && Encodes(delta, levels[..|levels| - 1])
  {
    hide LeadsTo;
  }

  /** A node on the way back is a dummy, with delta zero, or the level looked for, which is
      the stack base or has a delta. */
  lemma DummyOrEnd(delta: seq<Delta>, init: seq<nat>, prev: nat, p: nat)
    requires Encodes(delta, init) && prev == Last(init) && prev <= p < |delta| && Dummies(delta, prev, p)
    ensures p == prev ==> p == 0 || delta[p] > 0
    ensures p != prev ==> p >= prev + MAXDELTA && delta[p] == 0 && Dummies(delta, prev, p - MAXDELTA)
  {
  }

  lemma {:induction false} Increasing(delta: seq<Delta>, levels: seq<nat>)
    requires Encodes(delta, levels)
    ensures forall i :: 0 <= i < |levels| ==> levels[i] <= Last(levels)
  {
    if levels != [] {
      var init := levels[..|levels| - 1];
      Increasing(delta, init);
      forall i | 0 <= i < |levels| - 1 ensures levels[i] <= Last(levels) {
        assert levels[i] == init[i];
      }
    }
  }

  /** An encoding stands for one list of levels only. */
  lemma {:induction false} OneDecoding(delta: seq<Delta>, a: seq<nat>, b: seq<nat>)
    requires Encodes(delta, a) && Encodes(delta, b) && Last(a) == Last(b)
    ensures a == b
  {
    if a != [] && b != [] {
      var a', b' := a[..|a| - 1], b[..|b| - 1];
      var cur := Last(a);
      OneWayBack(delta, a', b', cur - delta[cur]);
      OneDecoding(delta, a', b');
      assert a == a' + [cur] && b == b' + [cur];
    }
  }

  lemma {:induction false} OneWayBack(delta: seq<Delta>, a: seq<nat>, b: seq<nat>, p: nat)
    requires p < |delta| && Last(a) <= p && Last(b) <= p
    requires Encodes(delta, a) && Encodes(delta, b)
    requires Dummies(delta, Last(a), p) && Dummies(delta, Last(b), p)
    ensures Last(a) == Last(b)
  {
    if p != Last(a) && p != Last(b) {
      OneWayBack(delta, a, b, p - MAXDELTA);
    }
  }
}
