/**
 Open upvalues: an intrusive list, sorted by stack level, of the variables that
 closures share while they still live in the stack.
 */
module OpenUpvalues {

  type Id = nat

  type Value(==, !new, 0)

  /** A link of the list, and the place that holds the link to a node. */
  datatype Link = Null | To(id: Id)
  datatype Place = Head | NextOf(id: Id)

  /** An upvalue is open, its value living in the stack, or closed, with a value of its own. */
  datatype UpVal = Open(level: nat, next: Link, previous: Place) | Closed(value: Value)

  /** The list is `ids`: links lead along it, back links name the places of the links,
      levels strictly decrease, and every open upvalue outside `out` is there. */
  ghost predicate IsList(upvals: map<Id, UpVal>, head: Link, ids: seq<Id>, top: nat, out: set<Id>) {
    && head == LinkAt(ids, 0)
    && (forall i :: 0 <= i < |ids| ==> NodeAt(upvals, ids, i, top))
    && Decreasing(upvals, ids)
    && Covers(upvals, ids, out)
  }

  ghost predicate NodeAt(upvals: map<Id, UpVal>, ids: seq<Id>, i: nat, top: nat)
    requires i < |ids|
  {
    && ids[i] in upvals && upvals[ids[i]].Open?
    && upvals[ids[i]].next == LinkAt(ids, i + 1)
    && upvals[ids[i]].previous == PlaceAt(ids, i)
    && upvals[ids[i]].level < top
  }

  function LevelOf(upvals: map<Id, UpVal>, id: Id): nat {
    if id in upvals && upvals[id].Open? then upvals[id].level else 0
  }

  ghost predicate Decreasing(upvals: map<Id, UpVal>, ids: seq<Id>) {
    forall i, j :: 0 <= i < j < |ids| ==> LevelOf(upvals, ids[i]) > LevelOf(upvals, ids[j])
  }

  ghost predicate Covers(upvals: map<Id, UpVal>, ids: seq<Id>, out: set<Id>) {
    && (forall id :: id in upvals && upvals[id].Open? && id !in out ==> id in ids)
    && (forall id :: id in out ==> id !in ids)
  }

  function LinkAt(ids: seq<Id>, i: nat): Link {
    if i < |ids| then To(ids[i]) else Null
  }

  function PlaceAt(ids: seq<Id>, i: nat): Place
    requires i <= |ids|
  {
    if i == 0 then Head else NextOf(ids[i - 1])
  }

  class LuaState {
    var stack: seq<Value>
    var upvals: map<Id, UpVal>
    var openupval: Link
    ghost var ids: seq<Id>

    var nextId: Id           // the next identity

    ghost predicate Valid()
      reads this
    {
      && IsList(upvals, openupval, ids, |stack|, {})
      && forall id :: id in upvals ==> id < nextId
    }

    constructor (stack: seq<Value>)
      ensures Valid() && this.stack == stack && upvals == map[]
    {
      this.stack := stack;
      upvals := map[];
      openupval := Null;
      ids := [];
      nextId := 0;
    }

    function Follow(p: Place): Link
      requires p.NextOf? ==> p.id in upvals && upvals[p.id].Open?
      reads this
    {
      match p
      case Head => openupval
      case NextOf(id) => upvals[id].next
    }

    /** Stores a link in the place that holds it. */
    method SetLink(p: Place, link: Link)
      requires p.NextOf? ==> p.id in upvals && upvals[p.id].Open?
      modifies this`openupval, this`upvals
      ensures p.Head? ==> openupval == link && upvals == old(upvals)
      ensures p.NextOf? ==> openupval == old(openupval) && upvals == old(upvals)[p.id := old(upvals)[p.id].(next := link)]
    {
      match p {
        case Head => openupval := link;
        case NextOf(id) => upvals := upvals[id := upvals[id].(next := link)];
      }
    }

    /** Creates an upvalue for a level and links it in at the place `prev`. */
    method NewUpval(level: nat, prev: Place, ghost i: nat) returns (uv: Id)
      requires Valid() && level < |stack| && i <= |ids| && prev == PlaceAt(ids, i)
      requires i > 0 ==> LevelOf(upvals, ids[i - 1]) > level
      requires i < |ids| ==> LevelOf(upvals, ids[i]) < level
      modifies this`upvals, this`openupval, this`ids, this`nextId
      ensures Valid() && uv !in old(upvals) && upvals.Keys == old(upvals).Keys + {uv}
      ensures ids == old(ids)[..i] + [uv] + old(ids)[i..]
      ensures upvals[uv].Open? && upvals[uv].level == level
      ensures SameVars(old(upvals), upvals)
    {
      hide IsList, SameVars, LevelOf;
      ghost var was, head, l := upvals, openupval, ids;
      LinksAt(was, head, l, i, |stack|);
      uv := nextId;
      nextId := nextId + 1;
      var next := Follow(prev);
      upvals := upvals[uv := Open(level, next, prev)];
      if next.To? {
        upvals := upvals[next.id := upvals[next.id].(previous := NextOf(uv))];
      }
      SetLink(prev, To(uv));
      ids := l[..i] + [uv] + l[i..];
      assert WithNew(was, l, upvals, i, uv, level);
      Inserted(was, head, l, upvals, openupval, i, uv, level, |stack|);
      NewSameVars(was, l, upvals, i, uv, level);
    }

    /** The upvalue of a level: the one that is there, or a new one. */
    method FindUpval(level: nat) returns (uv: Id)
      requires Valid() && level < |stack|
      modifies this`upvals, this`openupval, this`ids, this`nextId
      ensures Valid() && uv in upvals && upvals[uv].Open? && upvals[uv].level == level
      ensures SameVars(old(upvals), upvals) && upvals.Keys == old(upvals).Keys + {uv}
      ensures forall id :: id in old(upvals) && old(upvals)[id].Open? && old(upvals)[id].level == level ==>
                uv == id && upvals == old(upvals)
    {
      hide IsList;
      var pp := Head;
      ghost var i: nat := 0;
      LinksAt(upvals, openupval, ids, i, |stack|);
      while true
        invariant Valid() && i <= |ids| && pp == PlaceAt(ids, i)
        invariant upvals == old(upvals) && stack == old(stack)
        invariant i < |ids| ==> NodeAt(upvals, ids, i, |stack|)
        invariant i > 0 ==> NodeAt(upvals, ids, i - 1, |stack|) && LevelOf(upvals, ids[i - 1]) > level
        decreases |ids| - i
      {
        LinksAt(upvals, openupval, ids, i, |stack|);
        var p := Follow(pp);
        if p.Null? || LevelOf(upvals, p.id) < level {
          break;
        }
        if LevelOf(upvals, p.id) == level {
          OnePerLevel(upvals, openupval, ids, |stack|, p.id);
          return p.id;
        }
        pp := NextOf(p.id);
        i := i + 1;
        LinksAt(upvals, openupval, ids, i, |stack|);
      }
      NoneAt(upvals, openupval, ids, |stack|, i, level);
      uv := NewUpval(level, pp, i);
    }

    /** Takes an open upvalue out of the list. */
    method UnlinkUpval(uv: Id, ghost i: nat)
      requires Valid() && i < |ids| && ids[i] == uv
      modifies this`upvals, this`openupval
      ensures IsList(upvals, openupval, old(ids)[..i] + old(ids)[i + 1..], |stack|, {uv})
      ensures uv in old(upvals) && old(upvals)[uv].Open? && uv in upvals && upvals[uv] == old(upvals)[uv]
      ensures SameVars(old(upvals), upvals) && upvals.Keys == old(upvals).Keys
    {
      hide IsList, SameVars;
      ghost var was, head := upvals, openupval;
      Neighbours(was, head, ids, i, |stack|);
      var u := upvals[uv];
      SetLink(u.previous, u.next);
      if u.next.To? {
        upvals := upvals[u.next.id := upvals[u.next.id].(previous := u.previous)];
      }
      assert WithoutOne(was, ids, upvals, i);
      Unlinked(was, head, ids, upvals, openupval, i, |stack|);
      UnlinkedSameVars(was, ids, upvals, i);
    }

    /** Takes the first open upvalue out of the list and gives it its value. */
    method CloseFirst()
      requires Valid() && openupval.To?
      modifies this`upvals, this`openupval, this`ids
      ensures Valid() && old(ids) != [] && ids == old(ids)[1..] && upvals.Keys == old(upvals).Keys
      ensures old(openupval).id in old(upvals) && old(upvals)[old(openupval).id].Open?
      ensures LevelOf(old(upvals), old(openupval).id) < |stack|
      ensures upvals[old(openupval).id] == Closed(stack[LevelOf(old(upvals), old(openupval).id)])
      ensures forall id :: id in upvals && id != old(openupval).id ==> SameVar(old(upvals)[id], upvals[id])
    {
      hide IsList, Valid;
      ghost var l := ids;
      assert IsList(upvals, openupval, l, |stack|, {}) && forall id :: id in upvals ==> id < nextId by {
        ValidMeans();
      }
      LinksAt(upvals, openupval, l, 0, |stack|);
      var uv := openupval.id;
      var upl := LevelOf(upvals, uv);
      UnlinkUpval(uv, 0);
      ghost var was := upvals;
      upvals := upvals[uv := Closed(stack[upl])];
      ids := l[1..];
      assert l[..0] + l[0 + 1..] == ids;
      OutsideList(was, openupval, ids, |stack|, uv);
      ClosedOne(was, openupval, ids, |stack|, uv, upvals, {uv});
      ValidIs();
    }

    lemma ValidMeans()
      requires Valid()
      ensures IsList(upvals, openupval, ids, |stack|, {}) && forall id :: id in upvals ==> id < nextId
    {
      hide IsList;
    }

    lemma ValidIs()
      requires IsList(upvals, openupval, ids, |stack|, {}) && forall id :: id in upvals ==> id < nextId
      ensures Valid()
    {
      hide IsList;
    }

    /** Closes every upvalue at `level` or above it, and no other: each keeps the value of its
        variable, which moves out of the stack. */
    method CloseUpvals(level: nat)
      requires Valid()
      modifies this`upvals, this`openupval, this`ids
      ensures Valid() && upvals.Keys == old(upvals).Keys
      ensures forall id :: id in upvals ==> AfterClose(old(upvals)[id], upvals[id], level, stack)
    {
      hide IsList;
      LevelsInStack(upvals, openupval, ids, |stack|);
      while openupval.To? && LevelOf(upvals, openupval.id) >= level
        invariant Valid() && upvals.Keys == old(upvals).Keys && stack == old(stack)
        invariant forall id :: id in upvals ==>
                    if upvals[id].Open? then SameVar(old(upvals)[id], upvals[id])
                    else AfterClose(old(upvals)[id], upvals[id], level, stack)
        decreases |ids|
      {
        CloseFirst();
      }
      AllBelow(upvals, openupval, ids, |stack|, level);
    }

    /** Assigning to a variable through an upvalue: every closure that shares it, and no other,
        sees the new value. */
    method SetVal(uv: Id, v: Value)
      requires Valid() && uv in upvals
      modifies this`stack, this`upvals
      ensures Valid() && upvals.Keys == old(upvals).Keys && SameShape(old(upvals), upvals)
      ensures InStack(upvals, |stack|) && InStack(old(upvals), |old(stack)|)
      ensures forall id :: id in upvals ==> Val(upvals[id], stack) == if id == uv then v else Val(old(upvals)[id], old(stack))
    {
      hide IsList;
      LevelsInStack(upvals, openupval, ids, |stack|);
      OnePerSlot(upvals, openupval, ids, |stack|);
      ghost var was := upvals;
      if upvals[uv].Open? {
        stack := stack[upvals[uv].level := v];
      } else {
        upvals := upvals[uv := Closed(v)];
        ClosedOutside(was, openupval, ids, |stack|, uv);
        ClosedOne(was, openupval, ids, |stack|, uv, upvals, {});
      }
    }

    /** Assigning to a stack slot: seen through the open upvalue of that slot and no other. */
    method SetSlot(slot: nat, v: Value)
      requires Valid() && slot < |stack|
      modifies this`stack
      ensures Valid() && stack == old(stack)[slot := v] && InStack(upvals, |stack|)
      ensures forall id :: id in upvals ==>
                Val(upvals[id], stack) == if LevelIs(upvals[id], slot) then v else Val(upvals[id], old(stack))
    {
      hide IsList;
      LevelsInStack(upvals, openupval, ids, |stack|);
      stack := stack[slot := v];
    }
  }

  ghost predicate InStack(upvals: map<Id, UpVal>, top: nat) {
    forall id :: id in upvals ==> BelowTop(upvals[id], top)
  }

  predicate BelowTop(u: UpVal, top: nat) {
    u.Open? ==> u.level < top
  }

  predicate LevelIs(u: UpVal, level: nat) {
    u.Open? && u.level == level
  }

  /** The value of the variable that an upvalue stands for. */
  function Val(u: UpVal, stack: seq<Value>): Value
    requires BelowTop(u, |stack|)
  {
    match u
    case Open(level, _, _) => stack[level]
    case Closed(v) => v
  }

  /** What closing down to `level` makes of an upvalue. */
  ghost predicate AfterClose(was: UpVal, now: UpVal, level: nat, stack: seq<Value>) {
    if was.Open? && was.level >= level then
      was.level < |stack| && now == Closed(stack[was.level])
    else
      SameVar(was, now)
  }

  /** The variables that upvalues stand for are the same; links may differ. */
  predicate SameVars(a: map<Id, UpVal>, b: map<Id, UpVal>) {
    forall id :: id in a ==> id in b && SameVar(a[id], b[id])
  }

  predicate SameVar(a: UpVal, b: UpVal) {
    match a
    case Open(level, _, _) => b.Open? && b.level == level
    case Closed(v) => b == a
  }

  predicate SameShape(a: map<Id, UpVal>, b: map<Id, UpVal>) {
    forall id :: id in a ==> id in b && (a[id].Open? ==> b[id] == a[id]) && (b[id].Open? ==> a[id].Open?)
  }

  lemma LinksAt(upvals: map<Id, UpVal>, head: Link, ids: seq<Id>, i: nat, top: nat)
    requires IsList(upvals, head, ids, top, {}) && i <= |ids|
    ensures head == LinkAt(ids, 0)
    ensures i < |ids| ==> NodeAt(upvals, ids, i, top)
    ensures i > 0 ==> NodeAt(upvals, ids, i - 1, top)
  {
    hide NodeAt, Decreasing, Covers, LinkAt;
  }

  /** The places of a list hold the links. */
  lemma Distinct(upvals: map<Id, UpVal>, ids: seq<Id>)
    requires Decreasing(upvals, ids)
    ensures forall i, j :: 0 <= i < |ids| && 0 <= j < |ids| && i != j ==> ids[i] != ids[j]
  {
    hide LevelOf;
    forall i, j | 0 <= i < |ids| && 0 <= j < |ids| && i != j ensures ids[i] != ids[j] {
      assert LevelOf(upvals, ids[if i < j then i else j]) > LevelOf(upvals, ids[if i < j then j else i]);
    }
  }

  ghost predicate WithNew(was: map<Id, UpVal>, l: seq<Id>, now: map<Id, UpVal>, i: nat, uv: Id, level: nat)
    requires i <= |l|
  {
    && now.Keys == was.Keys + {uv} && now[uv] == Open(level, LinkAt(l, i), PlaceAt(l, i))
    && forall id :: id in was ==>
         now[id] == if i > 0 && id == l[i - 1] && was[id].Open? then was[id].(next := To(uv))
                    else if i < |l| && id == l[i] && was[id].Open? then was[id].(previous := NextOf(uv))
                    else was[id]
  }

  lemma InsertedNode(was: map<Id, UpVal>, l: seq<Id>, now: map<Id, UpVal>, i: nat, uv: Id, level: nat, top: nat,
                     m: seq<Id>, j: nat, k: nat)
    requires forall a, b :: 0 <= a < |l| && 0 <= b < |l| && a != b ==> l[a] != l[b]
    requires i <= |l| && uv !in was && WithNew(was, l, now, i, uv, level)
    requires m == l[..i] + [uv] + l[i..] && j < |l| && NodeAt(was, l, j, top)
    requires k == if j < i then j else j + 1
    ensures NodeAt(now, m, k, top) && m[k] == l[j] && LevelOf(now, m[k]) == LevelOf(was, l[j])
  {
    if j + 1 < |l| {
      assert m[if j + 1 < i then j + 1 else j + 2] == l[j + 1];
    }
    if j > 0 {
      assert m[if j - 1 < i then j - 1 else j] == l[j - 1];
    }
  }

  lemma InsertedLevels(was: map<Id, UpVal>, l: seq<Id>, now: map<Id, UpVal>, i: nat, uv: Id, level: nat, m: seq<Id>)
    requires Decreasing(was, l) && i <= |l| && m == l[..i] + [uv] + l[i..]
    requires forall j :: 0 <= j < |l| ==> LevelOf(now, l[j]) == LevelOf(was, l[j])
    requires LevelOf(now, uv) == level
    requires i > 0 ==> LevelOf(was, l[i - 1]) > level
    requires i < |l| ==> LevelOf(was, l[i]) < level
    ensures Decreasing(now, m)
  {
    hide LevelOf;
    forall a, b | 0 <= a < b < |m| ensures LevelOf(now, m[a]) > LevelOf(now, m[b]) {
      var a', b' := if a < i then a else a - 1, if b < i then b else b - 1;
      if a != i && b != i {
        assert m[a] == l[a'] && m[b] == l[b'];
      } else if a == i {
        assert m[b] == l[b'] && (b' == i || LevelOf(was, l[i]) > LevelOf(was, l[b']));
      } else {
        assert m[a] == l[a'] && (a' == i - 1 || LevelOf(was, l[a']) > LevelOf(was, l[i - 1]));
      }
    }
  }

  lemma Inserted(was: map<Id, UpVal>, head: Link, l: seq<Id>, now: map<Id, UpVal>, head': Link, i: nat, uv: Id,
                 level: nat, top: nat)
    requires IsList(was, head, l, top, {}) && i <= |l| && uv !in was && level < top
    requires i > 0 ==> LevelOf(was, l[i - 1]) > level
    requires i < |l| ==> LevelOf(was, l[i]) < level
    requires head' == if i == 0 then To(uv) else head
    requires WithNew(was, l, now, i, uv, level)
    ensures IsList(now, head', l[..i] + [uv] + l[i..], top, {})
  {
    hide NodeAt, Decreasing, Covers, WithNew, LevelOf;
    var m := l[..i] + [uv] + l[i..];
    Distinct(was, l);
    forall j | 0 <= j < |l| ensures LevelOf(now, l[j]) == LevelOf(was, l[j]) {
      InsertedNode(was, l, now, i, uv, level, top, m, j, if j < i then j else j + 1);
    }
    NewNode(was, l, now, i, uv, level, top, m);
    forall k | 0 <= k < |m| ensures NodeAt(now, m, k, top) {
      if k != i {
        InsertedNode(was, l, now, i, uv, level, top, m, if k < i then k else k - 1, k);
      }
    }
    InsertedLevels(was, l, now, i, uv, level, m);
    InsertedCovers(was, l, now, i, uv, level, m);
  }

  lemma NewNode(was: map<Id, UpVal>, l: seq<Id>, now: map<Id, UpVal>, i: nat, uv: Id, level: nat, top: nat, m: seq<Id>)
    requires i <= |l| && level < top && WithNew(was, l, now, i, uv, level) && m == l[..i] + [uv] + l[i..]
    ensures NodeAt(now, m, i, top) && LevelOf(now, uv) == level
  {
  }

  lemma InsertedCovers(was: map<Id, UpVal>, l: seq<Id>, now: map<Id, UpVal>, i: nat, uv: Id, level: nat, m: seq<Id>)
    requires Covers(was, l, {}) && i <= |l| && WithNew(was, l, now, i, uv, level) && m == l[..i] + [uv] + l[i..]
    ensures Covers(now, m, {})
  {
    forall id | id in now && now[id].Open? ensures id in m {
      if id in was && id in l {
        var j :| 0 <= j < |l| && l[j] == id;
        assert m[if j < i then j else j + 1] == id;
      } else {
        assert id == uv && m[i] == uv;
      }
    }
  }

  lemma NewSameVars(was: map<Id, UpVal>, l: seq<Id>, now: map<Id, UpVal>, i: nat, uv: Id, level: nat)
    requires i <= |l| && WithNew(was, l, now, i, uv, level)
    ensures SameVars(was, now)
  {
  }

  lemma OnePerLevel(upvals: map<Id, UpVal>, head: Link, ids: seq<Id>, top: nat, uv: Id)
    requires IsList(upvals, head, ids, top, {}) && uv in upvals && upvals[uv].Open?
    ensures forall id :: id in upvals && upvals[id].Open? && upvals[id].level == upvals[uv].level ==> id == uv
  {
    hide NodeAt, LinkAt;
    forall id | id in upvals && upvals[id].Open? && upvals[id].level == upvals[uv].level ensures id == uv {
      var i :| 0 <= i < |ids| && ids[i] == id;
      var j :| 0 <= j < |ids| && ids[j] == uv;
      assert LevelOf(upvals, id) == LevelOf(upvals, uv);
    }
  }

  lemma NoneAt(upvals: map<Id, UpVal>, head: Link, ids: seq<Id>, top: nat, i: nat, level: nat)
    requires IsList(upvals, head, ids, top, {}) && i <= |ids|
    requires i > 0 ==> LevelOf(upvals, ids[i - 1]) > level
    requires i < |ids| ==> LevelOf(upvals, ids[i]) < level
    ensures forall id :: id in upvals && upvals[id].Open? ==> upvals[id].level != level
  {
    hide NodeAt, LinkAt;
    forall id | id in upvals && upvals[id].Open? ensures upvals[id].level != level {
      var j :| 0 <= j < |ids| && ids[j] == id;
      assert LevelOf(upvals, ids[j]) == upvals[id].level;
      assert j < i ==> j == i - 1 || LevelOf(upvals, ids[j]) > LevelOf(upvals, ids[i - 1]);
      assert j >= i ==> j == i || LevelOf(upvals, ids[i]) > LevelOf(upvals, ids[j]);
    }
  }

  ghost predicate WithoutOne(was: map<Id, UpVal>, l: seq<Id>, now: map<Id, UpVal>, i: nat)
    requires i < |l|
  {
    && now.Keys == was.Keys
    && forall id :: id in was ==>
         now[id] == if i > 0 && id == l[i - 1] && was[id].Open? then was[id].(next := LinkAt(l, i + 1))
                    else if i + 1 < |l| && id == l[i + 1] && was[id].Open? then was[id].(previous := PlaceAt(l, i))
                    else was[id]
  }

  lemma UnlinkedNode(was: map<Id, UpVal>, l: seq<Id>, now: map<Id, UpVal>, i: nat, top: nat, m: seq<Id>, j: nat, k: nat)
    requires forall a, b :: 0 <= a < |l| && 0 <= b < |l| && a != b ==> l[a] != l[b]
    requires i < |l| && WithoutOne(was, l, now, i)
    requires m == l[..i] + l[i + 1..] && k < |m| && j == (if k < i then k else k + 1) && NodeAt(was, l, j, top)
    ensures NodeAt(now, m, k, top) && m[k] == l[j] && LevelOf(now, m[k]) == LevelOf(was, l[j])
  {
    if k + 1 < |m| {
      assert m[k + 1] == l[if k + 1 < i then k + 1 else k + 2];
    }
    if k > 0 {
      assert m[k - 1] == l[if k - 1 < i then k - 1 else k];
    }
  }

  lemma Unlinked(was: map<Id, UpVal>, head: Link, l: seq<Id>, now: map<Id, UpVal>, head': Link, i: nat, top: nat)
    requires IsList(was, head, l, top, {}) && i < |l|
    requires head' == if i == 0 then LinkAt(l, 1) else head
    requires WithoutOne(was, l, now, i)
    ensures IsList(now, head', l[..i] + l[i + 1..], top, {l[i]})
  {
    hide NodeAt, Decreasing, Covers, WithoutOne, LevelOf;
    var m := l[..i] + l[i + 1..];
    Distinct(was, l);
    forall k | 0 <= k < |m|
      ensures NodeAt(now, m, k, top) && m[k] == l[if k < i then k else k + 1] && LevelOf(now, m[k]) == LevelOf(was, m[k])
    {
      UnlinkedNode(was, l, now, i, top, m, if k < i then k else k + 1, k);
    }
    UnlinkedLevels(was, l, now, i, m);
    UnlinkedCovers(was, l, now, i, m);
  }

  lemma UnlinkedLevels(was: map<Id, UpVal>, l: seq<Id>, now: map<Id, UpVal>, i: nat, m: seq<Id>)
    requires Decreasing(was, l) && i < |l| && m == l[..i] + l[i + 1..]
    requires forall k :: 0 <= k < |m| ==> LevelOf(now, m[k]) == LevelOf(was, m[k])
    ensures Decreasing(now, m)
  {
    hide LevelOf;
    forall a, b | 0 <= a < b < |m| ensures LevelOf(now, m[a]) > LevelOf(now, m[b]) {
      assert m[a] == l[if a < i then a else a + 1] && m[b] == l[if b < i then b else b + 1];
    }
  }

  lemma UnlinkedCovers(was: map<Id, UpVal>, l: seq<Id>, now: map<Id, UpVal>, i: nat, m: seq<Id>)
    requires Covers(was, l, {}) && i < |l| && WithoutOne(was, l, now, i) && m == l[..i] + l[i + 1..]
    requires forall a, b :: 0 <= a < |l| && 0 <= b < |l| && a != b ==> l[a] != l[b]
    ensures Covers(now, m, {l[i]})
  {
    forall id | id in now && now[id].Open? && id != l[i] ensures id in m {
      var j :| 0 <= j < |l| && l[j] == id;
      assert m[if j < i then j else j - 1] == id;
    }
    forall k | 0 <= k < |m| ensures m[k] != l[i] {
      assert m[k] == l[if k < i then k else k + 1];
    }
  }

  lemma UnlinkedSameVars(was: map<Id, UpVal>, l: seq<Id>, now: map<Id, UpVal>, i: nat)
    requires i < |l| && WithoutOne(was, l, now, i)
    ensures SameVars(was, now)
  {
  }

  /** Changing an upvalue outside the list into a closed one leaves a full list. */
  lemma ClosedOne(was: map<Id, UpVal>, head: Link, ids: seq<Id>, top: nat, uv: Id, now: map<Id, UpVal>, out: set<Id>)
    requires IsList(was, head, ids, top, out) && uv !in ids && out <= {uv}
    requires now.Keys == was.Keys + {uv} && now[uv].Closed? && forall id :: id in was && id != uv ==> now[id] == was[id]
    ensures IsList(now, head, ids, top, {})
  {
    hide LinkAt, PlaceAt;
    assert forall i :: 0 <= i < |ids| ==> ids[i] != uv;
    forall i | 0 <= i < |ids| ensures NodeAt(now, ids, i, top) {
      assert NodeAt(was, ids, i, top);
    }
    forall i, j | 0 <= i < j < |ids| ensures LevelOf(now, ids[i]) > LevelOf(now, ids[j]) {
      assert LevelOf(was, ids[i]) > LevelOf(was, ids[j]) && NodeAt(was, ids, i, top) && NodeAt(was, ids, j, top);
    }
  }

  lemma OutsideList(upvals: map<Id, UpVal>, head: Link, ids: seq<Id>, top: nat, uv: Id)
    requires IsList(upvals, head, ids, top, {uv})
    ensures uv !in ids
  {
    hide NodeAt, Decreasing, LinkAt;
  }

  lemma Neighbours(upvals: map<Id, UpVal>, head: Link, ids: seq<Id>, i: nat, top: nat)
    requires IsList(upvals, head, ids, top, {}) && i < |ids|
    ensures head == LinkAt(ids, 0) && NodeAt(upvals, ids, i, top)
    ensures i > 0 ==> NodeAt(upvals, ids, i - 1, top)
    ensures i + 1 < |ids| ==> NodeAt(upvals, ids, i + 1, top)
    ensures forall a, b :: 0 <= a < |ids| && 0 <= b < |ids| && a != b ==> ids[a] != ids[b]
  {
    hide NodeAt, Covers, LinkAt;
    Distinct(upvals, ids);
  }

  lemma OnePerSlot(upvals: map<Id, UpVal>, head: Link, ids: seq<Id>, top: nat)
    requires IsList(upvals, head, ids, top, {})
    ensures forall a, b :: a in upvals && b in upvals && upvals[a].Open? && upvals[b].Open? && upvals[a].level == upvals[b].level ==> a == b
  {
    hide IsList;
    forall b | b in upvals && upvals[b].Open?
      ensures forall a :: a in upvals && upvals[a].Open? && upvals[a].level == upvals[b].level ==> a == b
    {
      OnePerLevel(upvals, head, ids, top, b);
    }
  }

  lemma AllBelow(upvals: map<Id, UpVal>, head: Link, ids: seq<Id>, top: nat, level: nat)
    requires IsList(upvals, head, ids, top, {})
    requires head.To? ==> LevelOf(upvals, head.id) < level
    ensures forall id :: id in upvals && upvals[id].Open? ==> upvals[id].level < level
  {
    hide NodeAt;
    forall id | id in upvals && upvals[id].Open? ensures upvals[id].level < level {
      var j :| 0 <= j < |ids| && ids[j] == id;
      assert LevelOf(upvals, id) == upvals[id].level && head.id == ids[0];
      assert j == 0 || LevelOf(upvals, ids[0]) > LevelOf(upvals, ids[j]);
    }
  }

  lemma LevelsInStack(upvals: map<Id, UpVal>, head: Link, ids: seq<Id>, top: nat)
    requires IsList(upvals, head, ids, top, {})
    ensures forall id :: id in upvals && upvals[id].Open? ==> upvals[id].level < top
  {
    hide Decreasing, LinkAt, PlaceAt;
    forall id | id in upvals && upvals[id].Open? ensures upvals[id].level < top {
      var j :| 0 <= j < |ids| && ids[j] == id;
      assert NodeAt(upvals, ids, j, top);
    }
  }

  lemma ClosedOutside(upvals: map<Id, UpVal>, head: Link, ids: seq<Id>, top: nat, uv: Id)
    requires IsList(upvals, head, ids, top, {}) && uv in upvals && upvals[uv].Closed?
    ensures uv !in ids
  {
    hide Decreasing, LinkAt, PlaceAt;
    forall j | 0 <= j < |ids| ensures ids[j] != uv {
      assert NodeAt(upvals, ids, j, top);
    }
  }
}
