/**
 The object graph seen by the collector: what an object may hold, and which of
 its references are strong.

 The object kinds are the ones that need different treatment: strings (leaves),
 tables with strong, weak-value, ephemeron or fully weak entries, closures (all their
 references are written through a forward barrier) and threads (their stacks
 are written without any barrier).
 */
module Heap {

  type Ref = nat

  /** A Lua value as the collector sees it: collectable or not. */
  datatype Value = Scalar | Gc(ref: Ref)

  /** A node of the hash part of a table. An empty node has no key any more. */
  datatype Node = Empty | Entry(key: Value, val: Value)

  datatype Mode = Strong | WeakValues | Ephemeron | AllWeak

  datatype Body =
    | Str
    | Table(meta: Value, mode: Mode, arr: seq<Value>, nodes: seq<Node>)
    | Closure(upvalues: seq<Value>)
    | Thread(stack: seq<Value>)

  type Objects = map<Ref, Body>

  predicate In(v: Value, S: set<Ref>) {
    v.Gc? ==> v.ref in S
  }

  predicate AllIn(vs: seq<Value>, S: set<Ref>) {
    forall i :: 0 <= i < |vs| ==> In(vs[i], S)
  }

  /** Every reference of the object, weak ones included, goes to `S`. */
  predicate Within(b: Body, S: set<Ref>) {
    match b
    case Str => true
    case Table(meta, _, arr, nodes) =>
      && In(meta, S)
      && AllIn(arr, S)
      && forall i :: 0 <= i < |nodes| && nodes[i].Entry? ==> In(nodes[i].key, S) && In(nodes[i].val, S)
    case Closure(upvalues) => AllIn(upvalues, S)
    case Thread(stack) => AllIn(stack, S)
  }

  /** The object has a reference, weak or strong, to `r`. */
  predicate Points(b: Body, r: Ref) {
    match b
    case Str => false
    case Table(meta, _, arr, nodes) =>
      || meta == Gc(r)
      || Gc(r) in arr
      || exists i :: 0 <= i < |nodes| && nodes[i].Entry? && (nodes[i].key == Gc(r) || nodes[i].val == Gc(r))
    case Closure(upvalues) => Gc(r) in upvalues
    case Thread(stack) => Gc(r) in stack
  }

  lemma WithinPoints(b: Body, S: set<Ref>, r: Ref)
    requires Within(b, S) && Points(b, r)
    ensures r in S
  {
  }

  predicate IsStr(body: Objects, v: Value) {
    v.Gc? && v.ref in body && body[v.ref].Str?
  }

  /** A key that does not keep its ephemeron entry waiting: a scalar or a string. */
  predicate PlainKey(body: Objects, v: Value) {
    v.Scalar? || IsStr(body, v)
  }

  /** The value of this ephemeron entry must be marked once `S` is. */
  predicate Owed(body: Objects, n: Node, S: set<Ref>)
    requires n.Entry?
  {
    PlainKey(body, n.key) || In(n.key, S)
  }

  /** What a marked object obliges the collector to mark. Strings count as
      values, so no reference to a string is weak; the value of an ephemeron
      entry is owed once its key is marked. */
  predicate StrongWithin(body: Objects, b: Body, S: set<Ref>) {
    match b
    case Table(meta, WeakValues, arr, nodes) =>
      && In(meta, S)
      && (forall i :: 0 <= i < |arr| && IsStr(body, arr[i]) ==> In(arr[i], S))
      && (forall i :: 0 <= i < |nodes| && nodes[i].Entry? ==> In(nodes[i].key, S))
      && (forall i :: 0 <= i < |nodes| && nodes[i].Entry? && IsStr(body, nodes[i].val) ==> In(nodes[i].val, S))
    case Table(meta, Ephemeron, arr, nodes) =>
      && In(meta, S)
      && AllIn(arr, S)
      && (forall i :: 0 <= i < |nodes| && nodes[i].Entry? && IsStr(body, nodes[i].key) ==> In(nodes[i].key, S))
      && (forall i :: 0 <= i < |nodes| && nodes[i].Entry? && Owed(body, nodes[i], S) ==> In(nodes[i].val, S))
    case Table(meta, AllWeak, arr, nodes) =>
      && In(meta, S)
      && (forall i :: 0 <= i < |arr| && IsStr(body, arr[i]) ==> In(arr[i], S))
      && (forall i :: 0 <= i < |nodes| && nodes[i].Entry? && IsStr(body, nodes[i].key) ==> In(nodes[i].key, S))
      && (forall i :: 0 <= i < |nodes| && nodes[i].Entry? && IsStr(body, nodes[i].val) ==> In(nodes[i].val, S))
    case _ => Within(b, S)
  }

  /** `S` is closed under strong references and under "marked key implies
      marked value", but for the objects of `D`. */
  ghost predicate StrongClosed(body: Objects, D: set<Ref>, S: set<Ref>) {
    forall o :: o in S && o in body && o !in D ==> StrongWithin(body, body[o], S)
  }

  /** Everything in `B` belongs to every closed set that contains `A`: going
      from `A` to `B` marked nothing that the closure of `A` does not hold. */
  ghost predicate Justified(body: Objects, D: set<Ref>, A: set<Ref>, B: set<Ref>) {
    forall X: set<Ref> :: StrongClosed(body, D, X) && A <= X ==> B <= X
  }

  /** `o` belongs to the least closed set that contains `A`. */
  ghost predicate InLeast(body: Objects, D: set<Ref>, A: set<Ref>, o: Ref) {
    forall X: set<Ref> :: StrongClosed(body, D, X) && A <= X ==> o in X
  }

  ghost function Strings(body: Objects): set<Ref> { set o | o in body && body[o].Str? }

  /** Justified marks that are closed, strings aside, are the least closed set,
      strings aside. */
  lemma LeastIsMarked(body: Objects, D: set<Ref>, A: set<Ref>, B: set<Ref>)
    requires A <= B && Justified(body, D, A, B) && StrongClosed(body, D, B + Strings(body))
    ensures forall o :: o in body && !body[o].Str? ==> (o in B <==> InLeast(body, D, A, o))
  {
    hide StrongClosed, StrongWithin;
    forall o | o in body && !body[o].Str? ensures o in B <==> InLeast(body, D, A, o) {
      if InLeast(body, D, A, o) {
        assert o in B + Strings(body);
      }
    }
  }

  function Referent(v: Value): set<Ref> { if v.Gc? then {v.ref} else {} }

  /** A value that every closed set with `h` must hold may be marked. */
  lemma Justify(body: Objects, D: set<Ref>, h: Ref, A: set<Ref>, B: set<Ref>, v: Value)
    requires Justified(body, D, A, B) && h in A && h in body && h !in D
    requires forall X: set<Ref> :: B <= X && StrongWithin(body, body[h], X) ==> In(v, X)
    ensures Justified(body, D, A, B + Referent(v))
  {
    forall X: set<Ref> | StrongClosed(body, D, X) && A <= X ensures B + Referent(v) <= X {
      assert StrongWithin(body, body[h], X);
    }
  }

  /** The key and the value of an entry of a strong table may be marked. */
  lemma JustifyEntry(body: Objects, D: set<Ref>, h: Ref, A: set<Ref>, B: set<Ref>, i: nat)
    requires Justified(body, D, A, B) && h in A && h in body && h !in D
    requires body[h].Table? && i < |body[h].nodes| && body[h].nodes[i].Entry?
    requires body[h].mode.Strong? || body[h].mode.WeakValues?
    ensures Justified(body, D, A, B + Referent(body[h].nodes[i].key))
    ensures body[h].mode.Strong? ==> Justified(body, D, A, B + Referent(body[h].nodes[i].key) + Referent(body[h].nodes[i].val))
    ensures body[h].mode.WeakValues? && IsStr(body, body[h].nodes[i].val) ==> Justified(body, D, A, B + Referent(body[h].nodes[i].val))
  {
    var n := body[h].nodes[i];
    Justify(body, D, h, A, B, n.key);
    if body[h].mode.Strong? {
      Justify(body, D, h, A, B + Referent(n.key), n.val);
    } else if IsStr(body, n.val) {
      Justify(body, D, h, A, B, n.val);
    }
  }

  /** The value of an ephemeron entry may be marked once its key is. */
  lemma JustifyEphemeron(body: Objects, D: set<Ref>, h: Ref, A: set<Ref>, B: set<Ref>, i: nat)
    requires Justified(body, D, A, B) && h in A && h in body && h !in D
    requires body[h].Table? && body[h].mode.Ephemeron? && i < |body[h].nodes| && body[h].nodes[i].Entry?
    ensures IsStr(body, body[h].nodes[i].key) ==> Justified(body, D, A, B + Referent(body[h].nodes[i].key))
    ensures Owed(body, body[h].nodes[i], B) ==> Justified(body, D, A, B + Referent(body[h].nodes[i].val))
  {
    var n := body[h].nodes[i];
    if IsStr(body, n.key) {
      Justify(body, D, h, A, B, n.key);
    }
    if Owed(body, n, B) {
      assert forall X :: B <= X ==> Owed(body, n, X);
      Justify(body, D, h, A, B, n.val);
    }
  }

  lemma JustifyRefl(body: Objects, D: set<Ref>, A: set<Ref>)
    ensures Justified(body, D, A, A)
  {
  }

  lemma JustifyTrans(body: Objects, D: set<Ref>, A: set<Ref>, B: set<Ref>, C: set<Ref>)
    requires Justified(body, D, A, B) && Justified(body, D, B, C)
    ensures Justified(body, D, A, C)
  {
    forall X: set<Ref> | StrongClosed(body, D, X) && A <= X ensures C <= X {
      assert B <= X;
    }
  }

  ghost function Elements(l: seq<Ref>): set<Ref> {
    set o | o in l
  }

  ghost function RefsOf(vs: seq<Value>): set<Ref> {
    set i | 0 <= i < |vs| && vs[i].Gc? :: vs[i].ref
  }

  lemma RefsOfNext(vs: seq<Value>, i: nat)
    requires i < |vs|
    ensures RefsOf(vs[..i + 1]) == RefsOf(vs[..i]) + Referent(vs[i])
  {
    var a, b := RefsOf(vs[..i + 1]), RefsOf(vs[..i]) + Referent(vs[i]);
    forall r | r in a ensures r in b {
      var j :| 0 <= j < |vs[..i + 1]| && vs[..i + 1][j].Gc? && vs[..i + 1][j].ref == r;
      assert j < i ==> vs[..i][j] == vs[..i + 1][j];
    }
    forall r | r in b ensures r in a {
      if r in RefsOf(vs[..i]) {
        var j :| 0 <= j < |vs[..i]| && vs[..i][j].Gc? && vs[..i][j].ref == r;
        assert vs[..i + 1][j] == vs[..i][j];
      } else {
        assert vs[..i + 1][i] == vs[i];
      }
    }
  }

  /** Strings aside, everything in `B` belongs to every closed set that contains `A`. */
  ghost predicate JustifiedButStrings(body: Objects, D: set<Ref>, A: set<Ref>, B: set<Ref>) {
    forall X: set<Ref> :: StrongClosed(body, D, X) && A <= X ==> B <= X + Strings(body)
  }

  lemma JustifyWeaker(body: Objects, D: set<Ref>, A: set<Ref>, B: set<Ref>)
    requires Justified(body, D, A, B)
    ensures JustifiedButStrings(body, D, A, B)
  {
  }

  lemma JustifyWithin(body: Objects, D: set<Ref>, A: set<Ref>, B: set<Ref>)
    requires forall o :: o in B && o !in A ==> o in body && body[o].Str?
    ensures JustifiedButStrings(body, D, A, B)
  {
  }

  /** Strings point to nothing: a closed set stays closed with them. */
  lemma ClosedWithStrings(body: Objects, D: set<Ref>, X: set<Ref>)
    requires StrongClosed(body, D, X)
    ensures StrongClosed(body, D, X + Strings(body))
  {
    var Y := X + Strings(body);
    forall o | o in Y && o in body && o !in D ensures StrongWithin(body, body[o], Y) {
      if o in X {
        WithinWithStrings(body, body[o], X);
      }
    }
  }

  lemma WithinWithStrings(body: Objects, b: Body, X: set<Ref>)
    requires StrongWithin(body, b, X)
    ensures StrongWithin(body, b, X + Strings(body))
  {
  }

  lemma JustifyOn(body: Objects, D: set<Ref>, A: set<Ref>, B: set<Ref>, C: set<Ref>)
    requires JustifiedButStrings(body, D, A, B) && JustifiedButStrings(body, D, B, C)
    ensures JustifiedButStrings(body, D, A, C)
  {
    hide StrongClosed, Strings;
    forall X: set<Ref> | StrongClosed(body, D, X) && A <= X ensures C <= X + Strings(body) {
      ClosedWithStrings(body, D, X);
      assert B <= X + Strings(body);
      assert C <= (X + Strings(body)) + Strings(body);
    }
  }

  /** More may be justified by more. */
  lemma JustifyMore(body: Objects, D: set<Ref>, A: set<Ref>, B: set<Ref>, C: set<Ref>)
    requires JustifiedButStrings(body, D, A, B)
    ensures JustifiedButStrings(body, D, A + C, B + C)
  {
    hide StrongClosed, Strings;
  }

  /** Every key, respectively every value, of the entries is in `S`. */
  predicate KeysIn(nodes: seq<Node>, S: set<Ref>) {
    forall i :: 0 <= i < |nodes| && nodes[i].Entry? ==> In(nodes[i].key, S)
  }

  predicate ValsIn(nodes: seq<Node>, S: set<Ref>) {
    forall i :: 0 <= i < |nodes| && nodes[i].Entry? ==> In(nodes[i].val, S)
  }

  lemma TableWithin(b: Body, S: set<Ref>)
    requires b.Table?
    ensures Within(b, S) <==> In(b.meta, S) && AllIn(b.arr, S) && KeysIn(b.nodes, S) && ValsIn(b.nodes, S)
  {
  }

  lemma ListBody(body: Objects, b: Body, vs: seq<Value>)
    requires b == Closure(vs) || b == Thread(vs)
    ensures forall X: set<Ref> :: StrongWithin(body, b, X) ==> AllIn(vs, X)
    ensures forall X: set<Ref> :: Within(b, X) <==> AllIn(vs, X)
  {
  }

  lemma WithinMono(b: Body, S: set<Ref>, T: set<Ref>)
    requires Within(b, S) && S <= T
    ensures Within(b, T)
  {
  }

  /** A path of references that starts at a root. */
  ghost predicate IsPath(body: Objects, roots: set<Ref>, p: seq<Ref>) {
    && |p| > 0
    && p[0] in roots
    && forall i :: 0 <= i < |p| - 1 ==> p[i] in body && Points(body[p[i]], p[i + 1])
  }

  /** A set that holds the roots and is closed under all references holds the
      end of every path. */
  lemma {:induction false} PathStaysIn(body: Objects, roots: set<Ref>, S: set<Ref>, p: seq<Ref>)
    requires roots <= S
    requires forall o :: o in S && o in body ==> Within(body[o], S)
    requires IsPath(body, roots, p)
    ensures p[|p| - 1] in S
  {
    if |p| > 1 {
      var q := p[..|p| - 1];
      PathStaysIn(body, roots, S, q);
      WithinPoints(body[p[|p| - 2]], S, p[|p| - 1]);
    }
  }

  /** The places of an object that hold a value. */
  datatype Field = Meta | Arr(i: nat) | Key(i: nat) | Val(i: nat) | Upvalue(i: nat) | Slot(i: nat)

  function Get(b: Body, f: Field): Value {
    match f
    case Meta => if b.Table? then b.meta else Scalar
    case Arr(i) => if b.Table? && i < |b.arr| then b.arr[i] else Scalar
    case Key(i) => if b.Table? && i < |b.nodes| && b.nodes[i].Entry? then b.nodes[i].key else Scalar
    case Val(i) => if b.Table? && i < |b.nodes| && b.nodes[i].Entry? then b.nodes[i].val else Scalar
    case Upvalue(i) => if b.Closure? && i < |b.upvalues| then b.upvalues[i] else Scalar
    case Slot(i) => if b.Thread? && i < |b.stack| then b.stack[i] else Scalar
  }

  /** Whether a value can be stored there (keys are written with their entry). */
  predicate HasField(b: Body, f: Field) {
    match f
    case Meta => b.Table?
    case Arr(i) => b.Table? && i < |b.arr|
    case Key(i) => false
    case Val(i) => b.Table? && i < |b.nodes| && b.nodes[i].Entry?
    case Upvalue(i) => b.Closure? && i < |b.upvalues|
    case Slot(i) => b.Thread? && i < |b.stack|
  }

  function Put(b: Body, f: Field, v: Value): Body
    requires HasField(b, f)
  {
    match f
    case Meta => b.(meta := v)
    case Arr(i) => b.(arr := b.arr[i := v])
    case Val(i) => b.(nodes := b.nodes[i := Entry(b.nodes[i].key, v)])
    case Upvalue(i) => b.(upvalues := b.upvalues[i := v])
    case Slot(i) => b.(stack := b.stack[i := v])
  }

  function PutNode(b: Body, i: nat, n: Node): Body
    requires b.Table? && i < |b.nodes|
  {
    b.(nodes := b.nodes[i := n])
  }

  lemma GetIn(b: Body, f: Field, S: set<Ref>)
    requires Within(b, S)
    ensures In(Get(b, f), S)
  {
  }

  lemma PutWithin(b: Body, f: Field, v: Value, S: set<Ref>)
    requires HasField(b, f) && Within(b, S) && In(v, S)
    ensures Within(Put(b, f, v), S)
  {
  }

  lemma PutNodeWithin(b: Body, i: nat, n: Node, S: set<Ref>)
    requires b.Table? && i < |b.nodes| && Within(b, S)
    requires n.Entry? ==> In(n.key, S) && In(n.val, S)
    ensures Within(PutNode(b, i, n), S)
  {
  }
}
