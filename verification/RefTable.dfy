/**
 References: an allocator of integer keys of a table, whose list of free keys is kept in the
 table itself.
 */
module RefTable {

  const LUA_RIDX_LAST := 2
  const FREELIST := LUA_RIDX_LAST + 1
  const LUA_REFNIL := -1
  const INT_MAX := 0x7FFF_FFFF

  type Object(==, !new, 0)

  /** A value that is not nil. */
  datatype Value = Integer(n: int) | Other(o: Object)

  datatype Argument = Nil | Val(v: Value)

  /** A border of a table, one of which is its length. */
  ghost predicate IsBorder(t: map<int, Value>, n: nat) {
    (n == 0 || n in t) && n + 1 !in t
  }

  /** The table in which the list of free keys is looked up: the first access creates the header. */
  function WithHeader(t: map<int, Value>): map<int, Value> {
    if FREELIST in t then t else t[FREELIST := Integer(0)]
  }

  function Next(free: seq<int>, i: nat): int {
    if i < |free| then free[i] else 0
  }

  /** The free keys are linked from the header through the table, and end with zero. */
  ghost predicate FreeList(t: map<int, Value>, free: seq<int>) {
    && FREELIST in t && t[FREELIST] == Integer(Next(free, 0))
    && (forall i :: 0 <= i < |free| ==>
          0 < free[i] <= INT_MAX && free[i] != FREELIST && free[i] in t && t[free[i]] == Integer(Next(free, i + 1)))
    && (forall i, j :: 0 <= i < j < |free| ==> free[i] != free[j])
  }

  /** Live references hold their values; none is the header or a free key. */
  ghost predicate Live(t: map<int, Value>, free: seq<int>, live: map<int, Value>) {
    forall r :: r in live ==>
      0 < r <= INT_MAX && r != FREELIST && r !in free && r in t && t[r] == live[r]
  }

  class References {
    var t: map<int, Value>
    ghost var free: seq<int>
    ghost var live: map<int, Value>

    ghost predicate Valid()
      reads this
    {
      && (FREELIST in t || (live == map[] && free == []))
      && FreeList(WithHeader(t), free) && Live(t, free, live)
    }

    /** Any table that was never used for references; it may hold other values. */
    constructor (t: map<int, Value>)
      requires FREELIST !in t
      ensures Valid() && this.t == t && live == map[]
    {
      this.t := t;
      free := [];
      live := map[];
    }

    /** A new reference for a value: the first free key, or the one after the table's length,
        which may be any border. */
    method Ref(v: Argument, border: nat) returns (ref: int)
      requires Valid() && IsBorder(WithHeader(t), border) && border < INT_MAX
      modifies this
      ensures Valid()
      ensures v.Nil? ==> ref == LUA_REFNIL && t == old(t) && live == old(live)
      ensures v.Val? ==> ref > 0 && ref != FREELIST && ref !in old(live) && live == old(live)[ref := v.v]
      ensures v.Val? && ref in old(t) ==> old(free) != [] && ref == old(free)[0]
      ensures forall k :: k != ref && k != FREELIST ==> (k in t <==> k in old(t)) && (k in t ==> t[k] == old(t)[k])
    {
      hide FreeList, Live;
      if v.Nil? {
        return LUA_REFNIL;
      }
      ghost var was := WithHeader(t);
      FirstFree(was, free);
      if FREELIST !in t {
        ref := 0;
        t := t[FREELIST := Integer(0)];
      } else {
        ref := t[FREELIST].n;
      }
      if ref != 0 {
        t := t[FREELIST := t[ref]];
        Reused(was, free, live, v.v);
        free := free[1..];
      } else {
        Appended(was, live, border, v.v);
        ref := border + 1;
      }
      t := t[ref := v.v];
      live := live[ref := v.v];
    }

    /** Gives a live reference back; a negative number is none. */
    method Unref(ref: int)
      requires Valid() && (ref < 0 || ref in live)
      modifies this
      ensures Valid() && live == old(live) - {ref}
      ensures ref < 0 ==> t == old(t) && free == old(free)
      ensures ref >= 0 ==> free == [ref] + old(free)
      ensures forall k :: k != ref && k != FREELIST ==> (k in t <==> k in old(t)) && (k in t ==> t[k] == old(t)[k])
    {
      hide FreeList, Live;
      if ref >= 0 {
        ghost var was := t;
        LiveKey(t, free, live, ref);
        t := t[ref := t[FREELIST]];
        t := t[FREELIST := Integer(ref)];
        Freed(was, free, live, ref);
        free := [ref] + free;
        live := live - {ref};
      } else {
        AllPositive(t, free, live);
      }
    }
  }

  lemma FirstFree(t: map<int, Value>, free: seq<int>)
    requires FreeList(t, free)
    ensures FREELIST in t && t[FREELIST] == Integer(Next(free, 0)) && (free != [] ==> Next(free, 0) > 0 && free[0] in t)
  {
  }

  lemma LiveKey(t: map<int, Value>, free: seq<int>, live: map<int, Value>, ref: int)
    requires Live(t, free, live) && ref in live
    ensures ref in t && ref > 0 && ref != FREELIST
  {
  }

  lemma AllPositive(t: map<int, Value>, free: seq<int>, live: map<int, Value>)
    requires Live(t, free, live)
    ensures forall r :: r in live ==> r > 0
  {
  }

  lemma Freed(t: map<int, Value>, free: seq<int>, live: map<int, Value>, ref: int)
    requires FREELIST in t && FreeList(t, free) && Live(t, free, live) && ref in live
    ensures FreeList(t[ref := t[FREELIST]][FREELIST := Integer(ref)], [ref] + free)
    ensures Live(t[ref := t[FREELIST]][FREELIST := Integer(ref)], [ref] + free, live - {ref})
  {
    hide FreeList, Live;
    FreedLinks(t, free, live, ref, t[ref := t[FREELIST]][FREELIST := Integer(ref)], [ref] + free);
    FreedLive(t, free, live, ref);
  }

  lemma FreedLinks(t: map<int, Value>, free: seq<int>, live: map<int, Value>, ref: int, t': map<int, Value>, free': seq<int>)
    requires FREELIST in t && FreeList(t, free) && Live(t, free, live) && ref in live
    requires t' == t[ref := t[FREELIST]][FREELIST := Integer(ref)] && free' == [ref] + free
    ensures FreeList(t', free')
  {
    forall i | 0 <= i < |free'|
      ensures 0 < free'[i] <= INT_MAX && free'[i] != FREELIST && free'[i] in t' && t'[free'[i]] == Integer(Next(free', i + 1))
      ensures i > 0 ==> free'[i] != ref
    {
      if i > 0 {
        assert free'[i] == free[i - 1] && free[i - 1] in free;
      }
    }
  }

  lemma FreedLive(t: map<int, Value>, free: seq<int>, live: map<int, Value>, ref: int)
    requires FREELIST in t && Live(t, free, live) && ref in live
    ensures Live(t[ref := t[FREELIST]][FREELIST := Integer(ref)], [ref] + free, live - {ref})
  {
  }

  /** The first free key leaves the list, and takes a value. */
  lemma Reused(t: map<int, Value>, free: seq<int>, live: map<int, Value>, v: Value)
    requires FreeList(t, free) && Live(t, free, live) && free != []
    ensures var ref := free[0];
            && ref in t && ref != FREELIST && ref !in live
            && FreeList(t[FREELIST := t[ref]][ref := v], free[1..])
            && Live(t[FREELIST := t[ref]][ref := v], free[1..], live[ref := v])
  {
    hide Live;
    var t', rest := t[FREELIST := t[free[0]]][free[0] := v], free[1..];
    forall i | 0 <= i < |rest|
      ensures 0 < rest[i] <= INT_MAX && rest[i] != FREELIST && rest[i] in t' && t'[rest[i]] == Integer(Next(rest, i + 1))
      ensures rest[i] != free[0]
    {
      assert rest[i] == free[i + 1];
    }
    ReusedLive(t, free, live, v);
  }

  lemma ReusedLive(t: map<int, Value>, free: seq<int>, live: map<int, Value>, v: Value)
    requires free != [] && FREELIST in t && free[0] in t && 0 < free[0] <= INT_MAX && free[0] != FREELIST
    requires Live(t, free, live) && forall i :: 0 < i < |free| ==> free[i] != free[0]
    ensures free[0] !in live && Live(t[FREELIST := t[free[0]]][free[0] := v], free[1..], live[free[0] := v])
  {
    assert free[0] in free;
    forall x | x in free[1..] ensures x in free && x != free[0] {
      var i :| 0 <= i < |free[1..]| && free[1..][i] == x;
      assert free[i + 1] == x;
    }
  }

  /** A key past a border is not in use, for a reference or for the list. */
  lemma Appended(t: map<int, Value>, live: map<int, Value>, border: nat, v: Value)
    requires FreeList(t, []) && Live(t, [], live) && IsBorder(t, border) && border < INT_MAX
    ensures var ref := border + 1;
            && ref != FREELIST && ref !in live
            && FreeList(t[ref := v], []) && Live(t[ref := v], [], live[ref := v])
  {
  }

  /** Following the links of the table from key `k`. */
  function Walk(t: map<int, Value>, k: int, steps: nat): int
    decreases steps
  {
    if steps == 0 || k !in t || !t[k].Integer? then k else Walk(t, t[k].n, steps - 1)
  }

  /** A walk along the free list meets no live reference, and ends after as many steps as
      there are free keys left. */
  lemma {:induction false} WalkEnds(t: map<int, Value>, free: seq<int>, live: map<int, Value>, i: nat, steps: nat)
    requires FreeList(t, free) && Live(t, free, live) && i < |free| && steps <= |free| - i
    ensures Walk(t, free[i], steps) == Next(free, i + steps)
    ensures Walk(t, free[i], steps) !in live && (Walk(t, free[i], steps) == 0 <==> steps == |free| - i)
    decreases steps
  {
    hide FreeList, Live, Walk;
    NextNotLive(t, free, live, i + steps);
    FreeKey(t, free, i);
    WalkSteps(t, free[i], steps);
    if steps > 0 {
      if i + 1 < |free| {
        WalkEnds(t, free, live, i + 1, steps - 1);
      } else {
        WalkSteps(t, 0, 0);
      }
    }
  }

  lemma WalkSteps(t: map<int, Value>, k: int, steps: nat)
    requires steps > 0 ==> k in t && t[k].Integer?
    ensures Walk(t, k, steps) == if steps == 0 then k else Walk(t, t[k].n, steps - 1)
  {
  }

  lemma FreeKey(t: map<int, Value>, free: seq<int>, i: nat)
    requires FreeList(t, free) && i < |free|
    ensures free[i] in t && t[free[i]] == Integer(Next(free, i + 1))
  {
  }

  lemma NextNotLive(t: map<int, Value>, free: seq<int>, live: map<int, Value>, i: nat)
    requires FreeList(t, free) && Live(t, free, live)
    ensures Next(free, i) !in live && (Next(free, i) == 0 <==> i >= |free|)
  {
    if i < |free| {
      assert free[i] in free;
    }
  }
}
