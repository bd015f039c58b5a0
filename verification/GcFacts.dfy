/**
 What the collector knows about heap, colours and lists, as plain values: the
 tri-colour invariant, the contents of the gray lists, the effect of clearing
 weak tables and of sweeping. Everything here is used by `Collector`.
 */
module GcFacts {
  import opened Heap
  import opened Coloring

  datatype GcState =
    | Propagate | EnterAtomic | Atomic
    | SwpAllgc | SwpFinobj | SwpTobefnz | SwpEnd
    | CallFin | Pause

  predicate KeepInvariant(s: GcState) { s.Propagate? || s.EnterAtomic? || s.Atomic? }
  predicate IsSweepPhase(s: GcState) { s.SwpAllgc? || s.SwpFinobj? || s.SwpTobefnz? || s.SwpEnd? }

  // What is known of the tables parked in each list of weak tables, given the
  // set `S` of marked objects.

  predicate ParkedWeak(b: Body, S: set<Ref>) {
    && b.Table? && b.mode.WeakValues?
    && In(b.meta, S)
    && KeysIn(b.nodes, S)
  }

  predicate ParkedEphemeron(b: Body, S: set<Ref>) {
    && b.Table? && b.mode.Ephemeron?
    && In(b.meta, S)
    && AllIn(b.arr, S)
  }

  /** An ephemeron table whose values are all marked; only keys may be white. */
  predicate ParkedAllweak(b: Body, S: set<Ref>) {
    && ParkedEphemeron(b, S)
    && ValsIn(b.nodes, S)
  }

  /** A table with weak keys and values. Only its metatable keeps anything alive, and the
      collector marked it when it visited the table, unless it was replaced later. */
  predicate FullyWeak(b: Body, S: set<Ref>, replaced: bool) {
    && b.Table? && b.mode.AllWeak?
    && (replaced || In(b.meta, S))
  }

  lemma NoneWaiting(body: Objects, S: set<Ref>)
    ensures Waiting(body, S, [], {})
  {
  }

  lemma NowFullyWeak(b: Body, S: set<Ref>)
    requires b.Table? && b.mode.AllWeak? && In(b.meta, S)
    ensures FullyWeak(b, S, false)
  {
  }

  /** What is known of the tables that wait in `allweak` from their visit on; those of
      `lost` got a white metatable after it. */
  ghost predicate Waiting(body: Objects, S: set<Ref>, allweak: seq<Ref>, lost: set<Ref>) {
    && (forall o :: o in allweak ==> o in body && FullyWeak(body[o], S, o in lost))
    && (forall o :: o in lost ==> o in allweak)
  }

  /** String keys are marked and no entry of the table has a marked key and a
      white value. */
  predicate Converged(body: Objects, b: Body, S: set<Ref>)
    requires b.Table?
  {
    forall i :: 0 <= i < |b.nodes| && b.nodes[i].Entry? ==>
      && (IsStr(body, b.nodes[i].key) ==> In(b.nodes[i].key, S))
      && (In(b.nodes[i].key, S) ==> In(b.nodes[i].val, S))
  }

  /** Nothing but strings was added to the marked objects. */
  predicate Quiet(body: Objects, A: set<Ref>, B: set<Ref>) {
    forall r :: r in B && r !in A ==> r in body && body[r].Str?
  }

  lemma QuietRefl(body: Objects, A: set<Ref>)
    ensures Quiet(body, A, A)
  {
  }

  /** Strings never enter the gray list. */
  lemma QuietGray(body: Objects, c0: Colors, g0: seq<Ref>, c1: Colors, g1: seq<Ref>)
    requires Marks(body, c0, g0, c1, g1) && Quiet(body, NonWhite(c0), NonWhite(c1))
    ensures g0 == [] ==> g1 == []
  {
    assert forall o :: o in c0 && c1[o].Gray? && !c0[o].Gray? ==> o in NonWhite(c1) && o !in NonWhite(c0);
    assert Grays(c0) == Grays(c1);
    forall x ensures multiset(g1)[x] == multiset(g0)[x] {
      assert (multiset(g1) + multiset(Grays(c0)))[x] == (multiset(g0) + multiset(Grays(c1)))[x];
    }
    assert multiset(g1) == multiset(g0);
  }

  lemma QuietTrans(body: Objects, A: set<Ref>, B: set<Ref>, C: set<Ref>)
    requires Quiet(body, A, B) && Quiet(body, B, C)
    ensures Quiet(body, A, C)
  {
  }

  lemma ConvergedMono(body: Objects, b: Body, S: set<Ref>, T: set<Ref>)
    requires b.Table? && Converged(body, b, S) && S <= T && Quiet(body, S, T)
    ensures Converged(body, b, T)
  {
  }

  lemma EphemeronFacts(b: Body, S: set<Ref>)
    requires ParkedEphemeron(b, S)
    ensures b.Table? && b.mode.Ephemeron? && In(b.meta, S)
  {
  }

  /** What the gray lists and the colour black say about a marked object is
      enough for closure, strings aside. */
  lemma StrongClosure(body: Objects, b: Body, S: set<Ref>)
    requires
      || b.Str? || Within(b, S) || ParkedWeak(b, S) || ParkedAllweak(b, S) || FullyWeak(b, S, false)
      || (ParkedEphemeron(b, S) && Converged(body, b, S))
    ensures StrongWithin(body, b, S + Strings(body))
  {
  }

  lemma ParkedMono(b: Body, S: set<Ref>, T: set<Ref>)
    requires S <= T
    ensures ParkedWeak(b, S) ==> ParkedWeak(b, T)
    ensures ParkedEphemeron(b, S) ==> ParkedEphemeron(b, T)
    ensures ParkedAllweak(b, S) ==> ParkedAllweak(b, T)
    ensures forall r :: FullyWeak(b, S, r) ==> FullyWeak(b, T, r)
  {
  }

  lemma WaitingMono(body: Objects, S: set<Ref>, T: set<Ref>, allweak: seq<Ref>, lost: set<Ref>)
    requires S <= T && Waiting(body, S, allweak, lost)
    ensures Waiting(body, T, allweak, lost)
  {
  }

  /** List `b` is list `a` with elements linked in front of it. */
  predicate Extends(a: seq<Ref>, b: seq<Ref>) {
    |a| <= |b| && b[|b| - |a|..] == a
  }

  lemma ExtendsRefl(a: seq<Ref>)
    ensures Extends(a, a)
  {
  }

  lemma ExtendsTrans(a: seq<Ref>, b: seq<Ref>, c: seq<Ref>)
    requires Extends(a, b) && Extends(b, c)
    ensures Extends(a, c)
  {
    assert c[|c| - |a|..] == c[|c| - |b|..][|b| - |a|..];
  }

  /** Index `j` is among the first `i` visited of `n`, in the given direction. */
  predicate Seen(inv: bool, n: nat, i: nat, j: int)
    requires i <= n
  {
    if inv then n - i <= j < n else 0 <= j < i
  }

  /** What the flags of a scan of an ephemeron table say about the entries
      seen so far. */
  ghost predicate Scanned(body: Objects, nodes: seq<Node>, inv: bool, i: nat, S: set<Ref>, marked: bool, hasclears: bool, hasww: bool)
    requires i <= |nodes|
  {
    forall j :: Seen(inv, |nodes|, i, j) && nodes[j].Entry? ==>
      && (!hasclears || IsStr(body, nodes[j].key) ==> In(nodes[j].key, S))
      && (!hasww ==> In(nodes[j].val, S))
      && (!marked && In(nodes[j].key, S) ==> In(nodes[j].val, S))
  }

  lemma ScanNext(body: Objects, nodes: seq<Node>, inv: bool, i: nat, S: set<Ref>, S': set<Ref>,
                 m: bool, c: bool, w: bool, m': bool, c': bool, w': bool)
    requires i < |nodes| && Scanned(body, nodes, inv, i, S, m, c, w)
    requires S <= S' && (!m' ==> Quiet(body, S, S'))
    requires (m ==> m') && (c ==> c') && (w ==> w')
    requires var n := nodes[if inv then |nodes| - 1 - i else i];
             n.Entry? ==>
               && (!c' || IsStr(body, n.key) ==> In(n.key, S'))
               && (!w' ==> In(n.val, S'))
               && (In(n.key, S') ==> In(n.val, S'))
    ensures Scanned(body, nodes, inv, i + 1, S', m', c', w')
  {
    forall j | Seen(inv, |nodes|, i + 1, j) && nodes[j].Entry?
      ensures
        && (!c' || IsStr(body, nodes[j].key) ==> In(nodes[j].key, S'))
        && (!w' ==> In(nodes[j].val, S'))
        && (!m' && In(nodes[j].key, S') ==> In(nodes[j].val, S'))
    {
      if j != if inv then |nodes| - 1 - i else i {
        assert Seen(inv, |nodes|, i, j);
      }
    }
  }

  lemma ScanEnd(body: Objects, b: Body, inv: bool, S: set<Ref>, m: bool, c: bool, w: bool)
    requires ParkedEphemeron(b, S) && Scanned(body, b.nodes, inv, |b.nodes|, S, m, c, w)
    ensures !w ==> ParkedAllweak(b, S)
    ensures !w && !c ==> Within(b, S)
    ensures !m ==> Converged(body, b, S)
  {
    assert forall j :: 0 <= j < |b.nodes| ==> Seen(inv, |b.nodes|, |b.nodes|, j);
  }

  ghost function Sum(a: seq<Ref>, b: seq<Ref>, c: seq<Ref>, d: seq<Ref>, e: seq<Ref>, f: seq<Ref>): multiset<Ref> {
    multiset(a) + multiset(b) + multiset(c) + multiset(d) + multiset(e) + multiset(f)
  }

  /** Linking an object into one of the gray lists. */
  lemma SumPush(h: Ref, a: seq<Ref>, b: seq<Ref>, c: seq<Ref>, d: seq<Ref>, e: seq<Ref>, f: seq<Ref>)
    ensures Sum([h] + a, b, c, d, e, f) == Sum(a, b, c, d, e, f) + multiset{h}
    ensures Sum(a, [h] + b, c, d, e, f) == Sum(a, b, c, d, e, f) + multiset{h}
    ensures Sum(a, b, [h] + c, d, e, f) == Sum(a, b, c, d, e, f) + multiset{h}
    ensures Sum(a, b, c, [h] + d, e, f) == Sum(a, b, c, d, e, f) + multiset{h}
    ensures Sum(a, b, c, d, [h] + e, f) == Sum(a, b, c, d, e, f) + multiset{h}
  {
  }

  /** Painting a linked object gray. */
  lemma PaintGray(c0: Colors, c1: Colors, h: Ref)
    requires h in c0 && c0[h].Black? && c1 == c0[h := Gray]
    ensures multiset(Grays(c1)) == multiset(Grays(c0)) + multiset{h}
    ensures NonWhite(c1) == NonWhite(c0) && Whites(c1) == Whites(c0)
  {
    AddToMultiset(Grays(c0), Grays(c1), h);
  }

  /** Taking an object out of the gray list and painting it black. */
  lemma Pop(g: seq<Ref>, c0: Colors, c1: Colors, p: multiset<Ref>)
    requires g != [] && multiset(g) + p == multiset(Grays(c0))
    requires g[0] in c0 && c1 == c0[g[0] := Black]
    ensures c0[g[0]].Gray? && p[g[0]] == 0
    ensures multiset(g[1..]) + p == multiset(Grays(c1))
    ensures NonWhite(c1) == NonWhite(c0) && Whites(c1) == Whites(c0)
  {
    var h := g[0];
    assert g == [h] + g[1..];
    assert multiset(g) == multiset{h} + multiset(g[1..]);
    assert (multiset(g) + p)[h] == multiset(Grays(c0))[h];
    assert Grays(c0) == Grays(c1) + {h};
    forall x ensures (multiset(g[1..]) + p)[x] == multiset(Grays(c1))[x] {
      assert (multiset(g) + p)[x] == multiset(Grays(c0))[x];
    }
  }

  lemma InSum(a: seq<Ref>, b: seq<Ref>, c: seq<Ref>, d: seq<Ref>, e: seq<Ref>, f: seq<Ref>, h: Ref)
    requires Sum(a, b, c, d, e, f)[h] == 0
    ensures h !in a && h !in b && h !in c && h !in d && h !in e && h !in f
  {
  }

  /** Holding the list of ephemeron tables in a local variable. */
  lemma Detach(a: seq<Ref>, b: seq<Ref>, c: seq<Ref>, d: seq<Ref>, f: seq<Ref>)
    ensures Sum(a, b, c, [], d, f) == Sum(a, b, c, d, [], f)
  {
  }

  lemma Absorb(g0: multiset<Ref>, g1: multiset<Ref>, r0: multiset<Ref>, r1: multiset<Ref>, others: multiset<Ref>)
    requires g0 + others == r0 && g1 + r0 == g0 + r1
    ensures g1 + others == r1
  {
    forall x ensures (g1 + others)[x] == r1[x] {
      assert (g0 + others)[x] == r0[x] && (g1 + r0)[x] == (g0 + r1)[x];
    }
  }

  ghost predicate WholeHeap(body: Objects, color: Colors, white: bool) {
    && color.Keys == body.Keys
    && (forall o :: o in body ==> Within(body[o], body.Keys))
    && (forall o :: o in color ==> color[o] != White(!white))
  }

  /** The invariant of the marking phase, but for the objects `h` that are
      being traversed: black objects point to no white ones, and the gray
      objects are the members of the list `gray` and the `parked` ones, each
      once. */
  ghost predicate TriColored(body: Objects, white: bool, fixedgc: seq<Ref>, h: set<Ref>, parked: multiset<Ref>, color: Colors, gray: seq<Ref>) {
    && WholeHeap(body, color, white)
    && (forall o :: o in color && o !in h && color[o].Black? ==> Within(body[o], NonWhite(color)))
    && (forall o :: o in color && color[o].Gray? && body[o].Str? ==> o in fixedgc)
    && multiset(gray) + parked == multiset(Grays(color))
  }

  /** What is known, in the atomic phase, of the objects in each gray list. */
  ghost predicate WellParked(body: Objects, S: set<Ref>, grayagain: seq<Ref>, weak: seq<Ref>, allweak: seq<Ref>, ephemeron: seq<Ref>, lost: set<Ref>) {
    && (forall o :: o in grayagain ==> o in body && Within(body[o], S))
    && (forall o :: o in weak ==> o in body && ParkedWeak(body[o], S))
    && (forall o :: o in allweak ==> o in body && (ParkedAllweak(body[o], S) || FullyWeak(body[o], S, o in lost)))
    && (forall o :: o in lost ==> o in allweak)
    && (forall o :: o in ephemeron ==> o in body && ParkedEphemeron(body[o], S))
  }

  /** The colours differ at most in white strings that turned black. */
  ghost predicate SameButStrings(body: Objects, c0: Colors, c1: Colors) {
    && c1.Keys == c0.Keys
    && forall o :: o in c0 && c1[o] != c0[o] ==> o in body && body[o].Str? && c0[o].White? && c1[o].Black?
  }

  lemma StringsOnly(body: Objects, c0: Colors, c1: Colors)
    requires SameButStrings(body, c0, c1)
    ensures NonWhite(c0) <= NonWhite(c1) && Quiet(body, NonWhite(c0), NonWhite(c1))
  {
  }

  /** The half of a weak entry that decides whether it is cleared. */
  function Tested(n: Node, byKey: bool): Value
    requires n.Entry?
  {
    if byKey then n.key else n.val
  }

  /** An entry after clearing with the marked objects `S`. */
  function Survivor(n: Node, byKey: bool, S: set<Ref>): Node {
    if n.Entry? && !In(Tested(n, byKey), S) then Empty else n
  }

  /** `b1` is `b0` with some slots of a table emptied. */
  predicate Pruned(b0: Body, b1: Body) {
    || b1 == b0
    || (&& b0.Table? && b1.Table?
        && b1.meta == b0.meta && b1.mode == b0.mode
        && |b1.arr| == |b0.arr| && |b1.nodes| == |b0.nodes|
        && (forall i :: 0 <= i < |b0.arr| ==> b1.arr[i] == b0.arr[i] || b1.arr[i].Scalar?)
        && (forall i :: 0 <= i < |b0.nodes| ==> b1.nodes[i] == b0.nodes[i] || b1.nodes[i].Empty?))
  }

  /** An ephemeron table whose entries with white keys are all that keeps it from pointing to
      marked objects only. */
  ghost predicate Keyed(body: Objects, b: Body, S: set<Ref>) {
    ParkedEphemeron(b, S) && Converged(body, b, S)
  }

  /** No white value is left in the table. */
  predicate Valued(b: Body, S: set<Ref>) {
    b.Table? && AllIn(b.arr, S) && ValsIn(b.nodes, S)
  }

  /** No white key is left in the table. */
  predicate Keyless(b: Body, S: set<Ref>) {
    b.Table? && KeysIn(b.nodes, S)
  }

  /** A table of `allweak` that has been cleared both ways. */
  lemma ClearedWithin(b: Body, S: set<Ref>)
    requires ParkedAllweak(b, S) || FullyWeak(b, S, false)
    requires Valued(b, S) && Keyless(b, S)
    ensures Within(b, S)
  {
  }

  /** The heap and colours `body1`/`c1` come from `body0`/`c0` by emptying
      slots and marking strings. */
  ghost predicate Cleaned(body0: Objects, c0: Colors, body1: Objects, c1: Colors) {
    && body1.Keys == body0.Keys
    && (forall o :: o in body0 ==> Pruned(body0[o], body1[o]))
    && SameButStrings(body0, c0, c1)
  }

  lemma PrunedKeeps(b0: Body, b1: Body, S: set<Ref>, T: set<Ref>)
    requires Pruned(b0, b1) && S <= T
    ensures Within(b0, S) ==> Within(b1, T)
    ensures ParkedWeak(b0, S) ==> ParkedWeak(b1, T)
    ensures ParkedAllweak(b0, S) ==> ParkedAllweak(b1, T)
    ensures ParkedEphemeron(b0, S) ==> ParkedEphemeron(b1, T)
    ensures forall r :: FullyWeak(b0, S, r) ==> FullyWeak(b1, T, r)
    ensures Valued(b0, S) ==> Valued(b1, T)
    ensures Keyless(b0, S) ==> Keyless(b1, T)
    ensures b1.Str? == b0.Str? && b1.Table? == b0.Table? && b1.Thread? == b0.Thread?
  {
  }

  /** What clearing does to one table. */
  lemma TableCleaned(body: Objects, c0: Colors, c1: Colors, h: Ref, byKey: bool, arr: seq<Value>, nodes: seq<Node>)
    requires h in body && body[h].Table? && SameButStrings(body, c0, c1)
    requires |arr| == |body[h].arr| && |nodes| == |body[h].nodes|
    requires byKey ==> arr == body[h].arr
    requires !byKey ==> forall i :: 0 <= i < |arr| ==> (arr[i] == body[h].arr[i] && In(arr[i], NonWhite(c1))) || arr[i].Scalar?
    requires forall i :: 0 <= i < |nodes| ==> nodes[i] == Survivor(body[h].nodes[i], byKey, NonWhite(c1))
    ensures var b, S := body[h].(arr := arr, nodes := nodes), NonWhite(c1);
            && Cleaned(body, c0, body[h := b], c1)
            && (if byKey then Keyless(b, S) else Valued(b, S))
            && (b.mode.WeakValues? && !byKey && ParkedWeak(b, S) ==> Within(b, S))
            && (byKey && ParkedEphemeron(b, S) && Converged(body, body[h], S) ==> Within(b, S))
  {
    var b := body[h].(arr := arr, nodes := nodes);
    assert body[h := b].Keys == body.Keys;
    assert Pruned(body[h], b);
    TableWithin(b, NonWhite(c1));
    hide NonWhite, Within, Pruned;
  }

  lemma CleanedRefl(body: Objects, c: Colors)
    ensures Cleaned(body, c, body, c)
  {
  }

  lemma CleanedTrans(body0: Objects, c0: Colors, body1: Objects, c1: Colors, body2: Objects, c2: Colors)
    requires Cleaned(body0, c0, body1, c1) && Cleaned(body1, c1, body2, c2)
    ensures Cleaned(body0, c0, body2, c2)
  {
  }

  lemma CleanedGrows(body0: Objects, c0: Colors, body1: Objects, c1: Colors)
    requires Cleaned(body0, c0, body1, c1)
    ensures NonWhite(c0) <= NonWhite(c1) && Grays(c1) == Grays(c0)
    ensures Quiet(body0, NonWhite(c0), NonWhite(c1))
  {
  }

  lemma CleanedTri(body0: Objects, c0: Colors, body1: Objects, c1: Colors, white: bool, fixedgc: seq<Ref>, parked: multiset<Ref>, gray: seq<Ref>)
    requires Cleaned(body0, c0, body1, c1)
    requires TriColored(body0, white, fixedgc, {}, parked, c0, gray)
    ensures TriColored(body1, white, fixedgc, {}, parked, c1, gray)
  {
    CleanedGrows(body0, c0, body1, c1);
    hide Within;
    forall o | o in body0 ensures Within(body1[o], body1.Keys) {
      PrunedKeeps(body0[o], body1[o], body0.Keys, body1.Keys);
    }
    forall o | o in c1 && c1[o].Black? ensures Within(body1[o], NonWhite(c1)) {
      PrunedKeeps(body0[o], body1[o], NonWhite(c0), NonWhite(c1));
      if c0[o].White? {
        StrWithin(body1[o], NonWhite(c1));
      }
    }
  }

  lemma ConvergedPruned(body0: Objects, body1: Objects, b0: Body, b1: Body, S: set<Ref>, T: set<Ref>)
    requires Pruned(b0, b1) && b0.Table? && Converged(body0, b0, S)
    requires S <= T && Quiet(body0, S, T)
    requires body1.Keys == body0.Keys && forall o :: o in body0 ==> body1[o].Str? == body0[o].Str?
    ensures b1.Table? && Converged(body1, b1, T)
  {
  }

  /** Emptying slots justifies nothing new. */
  lemma JustifyPruned(body0: Objects, body1: Objects, D: set<Ref>, A: set<Ref>, B: set<Ref>)
    requires body1.Keys == body0.Keys && (forall o :: o in body0 ==> Pruned(body0[o], body1[o]))
    requires JustifiedButStrings(body1, D, A, B)
    ensures JustifiedButStrings(body0, D, A, B)
  {
    assert Strings(body1) == Strings(body0);
    forall X: set<Ref> | StrongClosed(body0, D, X) && A <= X ensures B <= X + Strings(body0) {
      ClosedPruned(body0, body1, D, X);
    }
  }

  lemma ClosedPruned(body0: Objects, body1: Objects, D: set<Ref>, X: set<Ref>)
    requires body1.Keys == body0.Keys && (forall o :: o in body0 ==> Pruned(body0[o], body1[o])) && StrongClosed(body0, D, X)
    ensures StrongClosed(body1, D, X)
  {
    forall o | o in X && o in body1 && o !in D ensures StrongWithin(body1, body1[o], X) {
      WithinPruned(body0, body1, body0[o], body1[o], X);
    }
  }

  lemma WithinPruned(body0: Objects, body1: Objects, b0: Body, b1: Body, X: set<Ref>)
    requires body1.Keys == body0.Keys && (forall o :: o in body0 ==> Pruned(body0[o], body1[o]))
    requires Pruned(b0, b1) && StrongWithin(body0, b0, X)
    ensures StrongWithin(body1, b1, X)
  {
  }

  lemma JustifyCleaned(body0: Objects, c0: Colors, body1: Objects, c1: Colors, D: set<Ref>)
    requires Cleaned(body0, c0, body1, c1)
    ensures JustifiedButStrings(body0, D, NonWhite(c0), NonWhite(c1))
  {
    CleanedGrows(body0, c0, body1, c1);
    JustifyWithin(body0, D, NonWhite(c0), NonWhite(c1));
  }

  lemma StrWithin(b: Body, S: set<Ref>)
    requires b.Str?
    ensures Within(b, S)
  {
  }

  lemma CleanedParked(body0: Objects, c0: Colors, body1: Objects, c1: Colors,
                      grayagain: seq<Ref>, weak: seq<Ref>, allweak: seq<Ref>, ephemeron: seq<Ref>, lost: set<Ref>)
    requires Cleaned(body0, c0, body1, c1)
    requires WellParked(body0, NonWhite(c0), grayagain, weak, allweak, ephemeron, lost)
    ensures WellParked(body1, NonWhite(c1), grayagain, weak, allweak, ephemeron, lost)
  {
    CleanedGrows(body0, c0, body1, c1);
    var S, T := NonWhite(c0), NonWhite(c1);
    hide Within, ParkedWeak, ParkedAllweak, ParkedEphemeron, FullyWeak, Valued, Keyless, Pruned, NonWhite, SameButStrings;
    forall o | o in body0
      ensures Within(body0[o], S) ==> Within(body1[o], T)
      ensures ParkedWeak(body0[o], S) ==> ParkedWeak(body1[o], T)
      ensures ParkedAllweak(body0[o], S) ==> ParkedAllweak(body1[o], T)
      ensures ParkedEphemeron(body0[o], S) ==> ParkedEphemeron(body1[o], T)
      ensures forall r :: FullyWeak(body0[o], S, r) ==> FullyWeak(body1[o], T, r)
    {
      PrunedKeeps(body0[o], body1[o], S, T);
    }
  }

  /** The elements of a list that belong to `S`, in order. */
  ghost function Select(l: seq<Ref>, S: set<Ref>): seq<Ref> {
    if l == [] then []
    else if l[|l| - 1] in S then Select(l[..|l| - 1], S) + [l[|l| - 1]]
    else Select(l[..|l| - 1], S)
  }

  lemma SelectNext(l: seq<Ref>, i: nat, S: set<Ref>)
    requires i < |l|
    ensures Select(l[..i + 1], S) == Select(l[..i], S) + if l[i] in S then [l[i]] else []
  {
    assert l[..i + 1][..i] == l[..i];
  }

  lemma {:induction false} SelectHas(l: seq<Ref>, S: set<Ref>, x: Ref)
    ensures x in Select(l, S) <==> x in l && x in S
  {
    if l != [] {
      SelectHas(l[..|l| - 1], S, x);
      assert l == l[..|l| - 1] + [l[|l| - 1]];
    }
  }

  lemma {:induction false} SelectShort(l: seq<Ref>, S: set<Ref>)
    ensures |Select(l, S)| <= |l|
  {
    if l != [] {
      SelectShort(l[..|l| - 1], S);
    }
  }

  lemma {:induction false} SelectAll(l: seq<Ref>, S: set<Ref>)
    requires forall x :: x in l ==> x in S
    ensures Select(l, S) == l
  {
    if l != [] {
      SelectAll(l[..|l| - 1], S);
    }
  }

  lemma {:induction false} SelectSplit(l: seq<Ref>, A: set<Ref>, S: set<Ref>)
    requires forall x :: x in l ==> x in A
    ensures multiset(Select(l, A - S)) + multiset(Select(l, S)) == multiset(l)
  {
    if l != [] {
      var r := l[..|l| - 1];
      assert l == r + [l[|l| - 1]];
      SelectSplit(r, A, S);
    }
  }

  /** Where the sweep stands in its list: the link held by the list header
      (`At(0)`) or by the element number `n - 1`. */
  datatype Cursor = Null | At(n: nat)

  ghost predicate AllWhite(l: seq<Ref>, color: Colors, white: bool) {
    forall o :: o in l ==> o in color && color[o] == White(white)
  }

  /** What has been swept of a list. */
  function Done(l: seq<Ref>, c: Cursor): seq<Ref> {
    if c.At? && c.n <= |l| then l[..c.n] else l
  }

  predicate CursorIn(l: seq<Ref>, c: Cursor) {
    c.At? ==> c.n <= |l|
  }

  lemma DropKey(a: multiset<Ref>, b: multiset<Ref>, K: set<Ref>, o: Ref)
    requires a + multiset{o} + b == multiset(K)
    ensures o in K && a + b == multiset(K - {o}) && a[o] == 0 && b[o] == 0
  {
    assert (a + multiset{o} + b)[o] == multiset(K)[o];
    forall x ensures (a + b)[x] == multiset(K - {o})[x] {
      assert (a + multiset{o} + b)[x] == multiset(K)[x];
    }
  }

  /** What sweeping the elements `l` does to heap and colours. */
  ghost predicate Swept(body0: Objects, c0: Colors, white: bool, l: seq<Ref>, body1: Objects, c1: Colors) {
    && c1.Keys == body1.Keys
    && (forall o :: o in body1 <==> o in body0 && (o in l ==> o in c0 && c0[o] != White(!white)))
    && (forall o :: o in body1 ==> body1[o] == body0[o])
    && (forall o :: o in body1 && o in c0 ==> c1[o] == if o in l then White(white) else c0[o])
  }

  lemma SweptRefl(body: Objects, c: Colors, white: bool, l: seq<Ref>, S: set<Ref>)
    requires c.Keys == body.Keys
    ensures Swept(body, c, white, l[..0], body, c) && Select(l[..0], S) == [] && l[0..] == l
  {
  }

  lemma SweepNext(l: seq<Ref>, k: nat, kept: seq<Ref>, rest: multiset<Ref>, body0: Objects, c0: Colors, body1: Objects, c1: Colors, white: bool)
    requires k < |l| && c0.Keys == body0.Keys
    requires kept == Select(l[..k], Live(c0, white))
    requires multiset(kept) + (multiset(l[k..]) + rest) == multiset(body1.Keys)
    requires Swept(body0, c0, white, l[..k], body1, c1)
    ensures var curr := l[k];
            && curr in c1 && curr in body1
            && (c1[curr] == White(!white) ==>
                  && Swept(body0, c0, white, l[..k + 1], body1 - {curr}, c1 - {curr})
                  && kept == Select(l[..k + 1], Live(c0, white))
                  && multiset(kept) + (multiset(l[k + 1..]) + rest) == multiset((body1 - {curr}).Keys))
            && (c1[curr] != White(!white) ==>
                  && Swept(body0, c0, white, l[..k + 1], body1, c1[curr := White(white)])
                  && kept + [curr] == Select(l[..k + 1], Live(c0, white))
                  && multiset(kept + [curr]) + (multiset(l[k + 1..]) + rest) == multiset(body1.Keys))
  {
    var curr := l[k];
    var b := multiset(l[k + 1..]) + rest;
    HeadOfRest(l, k, rest);
    assert multiset(kept) + multiset{curr} + b == multiset(kept) + (multiset(l[k..]) + rest);
    DropKey(multiset(kept), b, body1.Keys, curr);
    SelectHas(l[..k], Live(c0, white), curr);
    assert curr !in l[..k];
    assert (body1 - {curr}).Keys == body1.Keys - {curr};
    assert multiset(kept + [curr]) + b == multiset(kept) + multiset{curr} + b;
    SweptOne(l, k, body0, c0, body1, c1, white);
    SelectNext(l, k, Live(c0, white));
    hide Swept, Select, Live;
  }

  lemma HeadOfRest(l: seq<Ref>, k: nat, rest: multiset<Ref>)
    requires k < |l|
    ensures multiset(l[k..]) + rest == multiset{l[k]} + (multiset(l[k + 1..]) + rest)
  {
    assert l[k..] == [l[k]] + l[k + 1..];
  }

  lemma SweptOne(l: seq<Ref>, k: nat, body0: Objects, c0: Colors, body1: Objects, c1: Colors, white: bool)
    requires k < |l| && c0.Keys == body0.Keys && Swept(body0, c0, white, l[..k], body1, c1)
    requires l[k] !in l[..k] && l[k] in body1
    ensures l[k] in c1
    ensures c1[l[k]] == White(!white) ==> Swept(body0, c0, white, l[..k + 1], body1 - {l[k]}, c1 - {l[k]})
    ensures c1[l[k]] != White(!white) ==> Swept(body0, c0, white, l[..k + 1], body1, c1[l[k] := White(white)])
    ensures c1[l[k]] == White(!white) <==> l[k] !in Live(c0, white)
  {
    assert l[..k + 1] == l[..k] + [l[k]];
  }

  /** The live objects point to live objects only. */
  ghost predicate SafeHeap(body: Objects, color: Colors, white: bool) {
    && color.Keys == body.Keys
    && forall o :: o in Live(color, white) ==> Within(body[o], Live(color, white))
  }

  /** Sweeping frees dead objects only: the live ones and their contents stay. */
  lemma SweptSafe(body0: Objects, c0: Colors, white: bool, l: seq<Ref>, body1: Objects, c1: Colors)
    requires SafeHeap(body0, c0, white) && Swept(body0, c0, white, l, body1, c1)
    ensures SafeHeap(body1, c1, white) && Live(c1, white) == Live(c0, white)
    ensures forall o :: o in Live(c0, white) ==> o in body0 && o in body1 && body1[o] == body0[o]
  {
    hide Within;
    assert Live(c1, white) == Live(c0, white);
  }

  /** Every element of a list that accounts, with others, for all objects is an
      object, and the lists share nothing. */
  lemma Listed(l: seq<Ref>, rest: multiset<Ref>, K: set<Ref>, o: Ref)
    requires multiset(l) + rest == multiset(K)
    ensures o in K <==> o in l || o in rest
    ensures o in l ==> o !in rest
    ensures multiset(l)[o] <= 1
  {
    assert (multiset(l) + rest)[o] == multiset(K)[o];
  }

  /** Objects outside the swept list keep their colours and contents. */
  ghost predicate Untouched(rest: multiset<Ref>, body0: Objects, c0: Colors, body1: Objects, c1: Colors) {
    forall o :: o in rest ==> o in c0 && o in c1 && o in body0 && o in body1 && c1[o] == c0[o] && body1[o] == body0[o]
  }

  lemma SweptRest(body0: Objects, c0: Colors, white: bool, l: seq<Ref>, k: nat, rest: multiset<Ref>, body1: Objects, c1: Colors)
    requires c0.Keys == body0.Keys && multiset(l) + rest == multiset(body0.Keys) && k <= |l|
    requires Swept(body0, c0, white, l[..k], body1, c1)
    ensures Untouched(rest, body0, c0, body1, c1)
    ensures AllWhite(Select(l[..k], Live(c0, white)), c1, white)
  {
    forall o | o in rest ensures o in c0 && o in c1 && o in body0 && o in body1 && c1[o] == c0[o] && body1[o] == body0[o] {
      Listed(l, rest, body0.Keys, o);
      assert o !in l[..k];
    }
    forall o | o in Select(l[..k], Live(c0, white)) ensures o in c1 && c1[o] == White(white) {
      SelectHas(l[..k], Live(c0, white), o);
    }
  }

  /** A sweep went from `body0`/`c0` to `body1`/`c1`: the live objects and
      their contents are the same, and nothing in `rest` was touched. */
  ghost predicate Reclaimed(rest: multiset<Ref>, white: bool, body0: Objects, c0: Colors, body1: Objects, c1: Colors) {
    && SafeHeap(body1, c1, white)
    && Live(c1, white) == Live(c0, white)
    && (forall o :: o in Live(c0, white) ==> o in body0 && o in body1 && body1[o] == body0[o])
    && Untouched(rest, body0, c0, body1, c1)
  }

  /** A list is white after a sweep of another one if it was before. */
  lemma KeepWhite(l: seq<Ref>, rest: multiset<Ref>, body0: Objects, c0: Colors, body1: Objects, c1: Colors, white: bool)
    requires Untouched(rest, body0, c0, body1, c1) && AllWhite(l, c0, white)
    requires multiset(l) <= rest
    ensures AllWhite(l, c1, white)
  {
    forall o | o in l ensures o in rest {
      assert o in multiset(l);
    }
  }

  lemma ReclaimedTrans(rest: multiset<Ref>, white: bool, body0: Objects, c0: Colors, body1: Objects, c1: Colors, body2: Objects, c2: Colors)
    requires Reclaimed(rest, white, body0, c0, body1, c1) && Reclaimed(rest, white, body1, c1, body2, c2)
    ensures Reclaimed(rest, white, body0, c0, body2, c2)
  {
    hide SafeHeap;
  }

  /** List `l` without the dead among its elements number `n` to `n + k - 1`,
      and where the sweep stands then. */
  lemma Splice(l: seq<Ref>, n: nat, k: nat, kept: seq<Ref>, rest: multiset<Ref>, K: set<Ref>, color: Colors, white: bool, l': seq<Ref>, c: Cursor)
    requires n + k <= |l| && |kept| <= k
    requires multiset(kept) + (multiset(l[n..][k..]) + (multiset(l[..n]) + rest)) == multiset(K)
    requires AllWhite(l[..n], color, white) && AllWhite(kept, color, white)
    requires l' == l[..n] + kept + l[n + k..]
    requires c == if n + k == |l| then Null else At(n + |kept|)
    ensures Covers(l', rest, K)
    ensures CursorIn(l', c) && AllWhite(Done(l', c), color, white)
  {
    assert l[n..][k..] == l[n + k..];
    assert multiset(l') == multiset(l[..n]) + multiset(kept) + multiset(l[n + k..]);
    forall x ensures (multiset(l') + rest)[x] == multiset(K)[x] {
      assert (multiset(kept) + (multiset(l[n..][k..]) + (multiset(l[..n]) + rest)))[x] == multiset(K)[x];
    }
    assert Done(l', c) == l[..n] + kept;
  }

  /** The list and the rest account for all objects of `K`, each once. */
  ghost predicate Covers(l: seq<Ref>, rest: multiset<Ref>, K: set<Ref>) {
    multiset(l) + rest == multiset(K)
  }

  /** Every object is on exactly one of the four object lists. */
  ghost predicate Partition(allgc: seq<Ref>, finobj: seq<Ref>, tobefnz: seq<Ref>, fixedgc: seq<Ref>, K: set<Ref>) {
    multiset(allgc) + multiset(finobj) + multiset(tobefnz) + multiset(fixedgc) == multiset(K)
  }

  ghost function Three(a: seq<Ref>, b: seq<Ref>, c: seq<Ref>): multiset<Ref> {
    multiset(a) + multiset(b) + multiset(c)
  }

  /** The ways to look at a partition as one list and the rest. */
  lemma Focus(allgc: seq<Ref>, finobj: seq<Ref>, tobefnz: seq<Ref>, fixedgc: seq<Ref>, K: set<Ref>)
    ensures Partition(allgc, finobj, tobefnz, fixedgc, K) <==> Covers(allgc, Three(finobj, tobefnz, fixedgc), K)
    ensures Partition(allgc, finobj, tobefnz, fixedgc, K) <==> Covers(finobj, Three(allgc, tobefnz, fixedgc), K)
    ensures Partition(allgc, finobj, tobefnz, fixedgc, K) <==> Covers(tobefnz, Three(allgc, finobj, fixedgc), K)
    ensures Partition(allgc, finobj, tobefnz, fixedgc, K) <==> Covers(fixedgc, Three(allgc, finobj, tobefnz), K)
  {
    var a, b, c, d := multiset(allgc), multiset(finobj), multiset(tobefnz), multiset(fixedgc);
    assert a + b + c + d == a + (b + c + d) == b + (a + c + d) == c + (a + b + d) == d + (a + b + c);
  }

  lemma OnOneList(allgc: seq<Ref>, finobj: seq<Ref>, tobefnz: seq<Ref>, fixedgc: seq<Ref>, K: set<Ref>, o: Ref)
    requires Partition(allgc, finobj, tobefnz, fixedgc, K)
    ensures o in K <==> o in allgc || o in finobj || o in tobefnz || o in fixedgc
    ensures o in allgc ==> o !in finobj && o !in tobefnz && o !in fixedgc
    ensures o in finobj ==> o !in tobefnz && o !in fixedgc
    ensures o in tobefnz ==> o !in fixedgc
    ensures multiset(allgc)[o] <= 1 && multiset(finobj)[o] <= 1 && multiset(tobefnz)[o] <= 1 && multiset(fixedgc)[o] <= 1
  {
    assert (multiset(allgc) + multiset(finobj) + multiset(tobefnz) + multiset(fixedgc))[o] == multiset(K)[o];
  }

  /** Roots and objects to be finalized are live, and so is everything live
      objects point to. */
  ghost predicate SafeRoots(body: Objects, color: Colors, white: bool, mainthread: Ref, running: Ref, registry: Value, mt: seq<Value>, tobefnz: seq<Ref>) {
    && SafeHeap(body, color, white)
    && mainthread in Live(color, white) && running in Live(color, white) && In(registry, Live(color, white)) && AllIn(mt, Live(color, white))
    && (forall o :: o in tobefnz ==> o in Live(color, white))
    && mainthread in body && body[mainthread].Thread? && running in body && body[running].Thread?
  }

  ghost predicate FixedGray(fixedgc: seq<Ref>, body: Objects, color: Colors) {
    forall o :: o in fixedgc ==> o in body && o in color && body[o].Str? && color[o].Gray?
  }

  function FlagsOf(finobj: seq<Ref>, tobefnz: seq<Ref>): (s: set<Ref>)
    ensures Flagged(s, finobj, tobefnz)
  {
    (set o | o in finobj) + (set o | o in tobefnz)
  }

  ghost predicate Flagged(finalized: set<Ref>, finobj: seq<Ref>, tobefnz: seq<Ref>) {
    forall o :: o in finalized <==> o in finobj || o in tobefnz
  }

  /** What a sweep keeps, provided it did not touch the lists `a`, `b` and the
      fixed objects. */
  lemma SweepKeeps(a: seq<Ref>, b: seq<Ref>, fixedgc: seq<Ref>, white: bool, body0: Objects, c0: Colors, body1: Objects, c1: Colors)
    requires Reclaimed(Three(a, b, fixedgc), white, body0, c0, body1, c1)
    requires FixedGray(fixedgc, body0, c0)
    ensures FixedGray(fixedgc, body1, c1)
    ensures AllWhite(a, c0, white) ==> AllWhite(a, c1, white)
    ensures AllWhite(b, c0, white) ==> AllWhite(b, c1, white)
  {
    hide Live, SafeHeap, AllWhite;
    var rest := Three(a, b, fixedgc);
    forall o | o in fixedgc ensures o in rest {
      assert o in multiset(fixedgc);
    }
    if AllWhite(a, c0, white) { KeepWhite(a, rest, body0, c0, body1, c1, white); }
    if AllWhite(b, c0, white) { KeepWhite(b, rest, body0, c0, body1, c1, white); }
  }

  lemma SweepSafe(rest: multiset<Ref>, white: bool, body0: Objects, c0: Colors, body1: Objects, c1: Colors, m: Ref, r: Ref, registry: Value, mt: seq<Value>, tobefnz: seq<Ref>)
    requires Reclaimed(rest, white, body0, c0, body1, c1)
    requires SafeRoots(body0, c0, white, m, r, registry, mt, tobefnz)
    ensures SafeRoots(body1, c1, white, m, r, registry, mt, tobefnz)
  {
    hide Live, SafeHeap, Untouched, AllIn;
  }

  /** The invariant between two steps of the marking phase: the gray objects
      are on `gray` and the `parked` lists and no thread is black. */
  ghost predicate MarkState(body: Objects, color: Colors, white: bool, fixedgc: seq<Ref>, gray: seq<Ref>, parked: seq<Ref>) {
    && TriColored(body, white, fixedgc, {}, Sum(parked, [], [], [], [], fixedgc), color, gray)
    && (forall o :: o in color && o in body && body[o].Thread? ==> !color[o].Black?)
  }

  /** All fields of the collector's global state. */
  datatype Snapshot = Snapshot(
    body: Objects, color: Colors, white: bool, gcstate: GcState,
    gray: seq<Ref>, grayagain: seq<Ref>, weak: seq<Ref>, allweak: seq<Ref>, ephemeron: seq<Ref>,
    lost: set<Ref>,
    allgc: seq<Ref>, finobj: seq<Ref>, tobefnz: seq<Ref>, fixedgc: seq<Ref>, sweepgc: Cursor, finalized: set<Ref>,
    mainthread: Ref, running: Ref, registry: Value, mt: seq<Value>)

  ghost predicate Safe(s: Snapshot) {
    SafeRoots(s.body, s.color, s.white, s.mainthread, s.running, s.registry, s.mt, s.tobefnz)
  }

  /** The object lists are a partition of the heap; fixed objects are gray
      strings; the finalization bit marks the objects on the last two lists. */
  ghost predicate Listing(s: Snapshot) {
    && Partition(s.allgc, s.finobj, s.tobefnz, s.fixedgc, s.body.Keys)
    && FixedGray(s.fixedgc, s.body, s.color)
    && Flagged(s.finalized, s.finobj, s.tobefnz)
  }

  ghost predicate Marking(s: Snapshot) {
    && MarkState(s.body, s.color, s.white, s.fixedgc, s.gray, s.grayagain + s.allweak)
    && s.weak == [] && s.ephemeron == [] && Waiting(s.body, NonWhite(s.color), s.allweak, s.lost)
    && s.mainthread in NonWhite(s.color) && s.sweepgc.Null?
  }

  ghost predicate Quiescent(s: Snapshot) {
    AllWhite(s.allgc, s.color, s.white) && AllWhite(s.finobj, s.color, s.white) && AllWhite(s.tobefnz, s.color, s.white) && s.sweepgc.Null?
  }

  ghost predicate Sweeping(l: seq<Ref>, s: Snapshot) {
    CursorIn(l, s.sweepgc) && AllWhite(Done(l, s.sweepgc), s.color, s.white)
  }

  /** What holds in each state of the collector between two steps. */
  ghost predicate Phase(s: Snapshot) {
    match s.gcstate
    case Propagate => Marking(s)
    case EnterAtomic => Marking(s)
    case Atomic => false
    case SwpAllgc => Sweeping(s.allgc, s)
    case SwpFinobj => AllWhite(s.allgc, s.color, s.white) && Sweeping(s.finobj, s)
    case SwpTobefnz => AllWhite(s.allgc, s.color, s.white) && AllWhite(s.finobj, s.color, s.white) && Sweeping(s.tobefnz, s)
    case SwpEnd => Quiescent(s)
    case CallFin => Quiescent(s)
    case Pause => Quiescent(s)
  }

  /** The invariant of the collector, but for replaced metatables. */
  ghost predicate Lax(s: Snapshot) {
    Safe(s) && Listing(s) && Phase(s)
  }

  /** The invariant of the collector. */
  ghost predicate Valid(s: Snapshot) {
    Lax(s) && s.lost == {}
  }

  ghost function Roots(s: Snapshot): set<Ref> {
    {s.mainthread, s.running} + Referent(s.registry) + (set i | 0 <= i < |s.mt| && s.mt[i].Gc? :: s.mt[i].ref) + (set o | o in s.tobefnz)
  }

  /** No path from a root, through strong or weak references, leads to a freed
      object or to one the sweep will free. */
  lemma NothingDangles(s: Snapshot, p: seq<Ref>)
    requires Valid(s) && IsPath(s.body, Roots(s), p)
    ensures p[|p| - 1] in s.body && p[|p| - 1] in s.color && s.color[p[|p| - 1]] != White(!s.white)
  {
    PathStaysIn(s.body, Roots(s), Live(s.color, s.white), p);
  }

  /** What has been swept of the current list. */
  lemma AtHeader(s: Snapshot)
    requires Valid(s) && s.sweepgc.At?
    ensures s.gcstate == SwpAllgc ==> s.sweepgc.n <= |s.allgc| && AllWhite(s.allgc[..s.sweepgc.n], s.color, s.white)
    ensures s.gcstate == SwpFinobj ==> s.sweepgc.n <= |s.finobj| && AllWhite(s.finobj[..s.sweepgc.n], s.color, s.white)
    ensures s.gcstate == SwpTobefnz ==> s.sweepgc.n <= |s.tobefnz| && AllWhite(s.tobefnz[..s.sweepgc.n], s.color, s.white)
    ensures forall o :: o in s.tobefnz ==> o in Live(s.color, s.white)
  {
    hide AllWhite, SafeHeap;
  }

  /** In a quiescent heap, everything is white but the fixed strings. */
  lemma Rested(s: Snapshot)
    requires Safe(s) && Listing(s) && Quiescent(s)
    ensures WholeHeap(s.body, s.color, s.white)
    ensures forall o :: o in s.color && !s.color[o].White? ==> o in s.fixedgc && s.color[o].Gray?
    ensures multiset(Grays(s.color)) == multiset(s.fixedgc)
  {
    forall o | o in s.color ensures s.color[o] == White(s.white) || (o in s.fixedgc && s.color[o].Gray?) {
      OnOneList(s.allgc, s.finobj, s.tobefnz, s.fixedgc, s.body.Keys, o);
    }
    assert Live(s.color, s.white) == s.body.Keys;
    hide Within;
    forall o ensures multiset(Grays(s.color))[o] == multiset(s.fixedgc)[o] {
      OnOneList(s.allgc, s.finobj, s.tobefnz, s.fixedgc, s.body.Keys, o);
    }
  }

  /** Before the first mark of a cycle, with all gray lists empty. */
  lemma Unmarked(s: Snapshot)
    requires Safe(s) && Listing(s) && Quiescent(s)
    ensures MarkState(s.body, s.color, s.white, s.fixedgc, [], [])
  {
    Rested(s);
    hide Within, SafeHeap, SafeRoots, Partition, AllWhite, WholeHeap;
    var none: seq<Ref> := [];
    assert multiset(none) + Sum([], [], [], [], [], s.fixedgc) == multiset(s.fixedgc);
  }

  lemma RootsInHeap(s: Snapshot)
    requires Safe(s) && Listing(s)
    ensures s.mainthread in s.body && s.running in s.body && In(s.registry, s.body.Keys) && AllIn(s.mt, s.body.Keys)
    ensures s.body[s.mainthread].Thread? && s.body[s.running].Thread?
    ensures forall o :: o in s.tobefnz || o in s.finobj ==> o in s.body
    ensures forall o :: o in s.fixedgc ==> o in s.body && s.body[o].Str?
  {
    forall o | o in s.tobefnz || o in s.finobj ensures o in s.body {
      OnOneList(s.allgc, s.finobj, s.tobefnz, s.fixedgc, s.body.Keys, o);
    }
  }

  /** While nothing is dead, safety only says that the heap is whole. */
  lemma MarkingSafe(s: Snapshot, c: Colors, gray: seq<Ref>, grayagain: seq<Ref>)
    requires Safe(s) && Listing(s) && MarkState(s.body, c, s.white, s.fixedgc, gray, grayagain)
    ensures SafeRoots(s.body, c, s.white, s.mainthread, s.running, s.registry, s.mt, s.tobefnz)
    ensures FixedGray(s.fixedgc, s.body, c)
  {
    assert Live(c, s.white) == s.body.Keys;
    hide Within;
    forall o | o in s.fixedgc ensures o in c && c[o].Gray? {
      assert o in multiset(s.fixedgc);
      assert o in multiset(gray) + Sum(grayagain, [], [], [], [], s.fixedgc);
      assert o in multiset(Grays(c));
    }
  }

  /** Once the white has been flipped, the unmarked objects are dead and
      nothing marked can reach them. */
  lemma AtomicSafe(s: Snapshot, s': Snapshot)
    requires Safe(s) && Listing(s)
    requires s'.color.Keys == s'.body.Keys == s.body.Keys && Live(s'.color, s'.white) == NonWhite(s'.color)
    requires s'.fixedgc == s.fixedgc && s'.allgc == s.allgc && s'.mainthread == s.mainthread && s'.running == s.running && s'.finalized == s.finalized
    requires forall o :: o in NonWhite(s'.color) ==> o in s'.body && Within(s'.body[o], NonWhite(s'.color))
    requires s'.mainthread in NonWhite(s'.color) && s'.running in NonWhite(s'.color)
    requires In(s'.registry, NonWhite(s'.color)) && AllIn(s'.mt, NonWhite(s'.color))
    requires forall o :: o in s'.tobefnz ==> o in NonWhite(s'.color)
    requires forall o :: o in s'.body ==> Pruned(s.body[o], s'.body[o])
    requires FixedGray(s'.fixedgc, s'.body, s'.color)
    requires multiset(s'.finobj) + multiset(s'.tobefnz) == multiset(s.finobj) + multiset(s.tobefnz)
    ensures Safe(s') && Listing(s')
  {
    RootsInHeap(s);
    hide Within, NonWhite, Live, AllIn, SafeRoots, FixedGray;
    assert Safe(s') by { PrunedThreads(s, s'); }
    var a, d := multiset(s.allgc), multiset(s.fixedgc);
    assert a + multiset(s'.finobj) + multiset(s'.tobefnz) + d == a + (multiset(s'.finobj) + multiset(s'.tobefnz)) + d;
    assert a + multiset(s.finobj) + multiset(s.tobefnz) + d == a + (multiset(s.finobj) + multiset(s.tobefnz)) + d;
    SameElements(s.finobj, s.tobefnz, s'.finobj, s'.tobefnz);
    SameElements(s'.finobj, s'.tobefnz, s.finobj, s.tobefnz);
  }

  lemma PrunedThreads(s: Snapshot, s': Snapshot)
    requires s'.color.Keys == s'.body.Keys == s.body.Keys && Live(s'.color, s'.white) == NonWhite(s'.color)
    requires s'.mainthread in s.body && s.body[s'.mainthread].Thread? && s'.running in s.body && s.body[s'.running].Thread?
    requires forall o :: o in NonWhite(s'.color) ==> o in s'.body && Within(s'.body[o], NonWhite(s'.color))
    requires s'.mainthread in NonWhite(s'.color) && s'.running in NonWhite(s'.color)
    requires In(s'.registry, NonWhite(s'.color)) && AllIn(s'.mt, NonWhite(s'.color))
    requires forall o :: o in s'.tobefnz ==> o in NonWhite(s'.color)
    requires forall o :: o in s'.body ==> Pruned(s.body[o], s'.body[o])
    ensures Safe(s')
  {
    hide Within, NonWhite, Live, AllIn;
  }

  lemma SameElements(f: seq<Ref>, t: seq<Ref>, f0: seq<Ref>, t0: seq<Ref>)
    requires multiset(f) + multiset(t) == multiset(f0) + multiset(t0)
    ensures forall o :: o in f || o in t ==> o in f0 || o in t0
  {
    forall o | o in f || o in t ensures o in f0 || o in t0 {
      assert o in multiset(f) + multiset(t);
    }
  }

  lemma EmptyWhite(l: seq<Ref>, color: Colors, white: bool)
    ensures AllWhite(l[..0], color, white)
  {
  }

  /** Nothing on `tobefnz` is ever dead. */
  lemma AllSurvive(tobefnz: seq<Ref>, live: set<Ref>, n: nat, k: nat, l: seq<Ref>)
    requires n + k <= |tobefnz|
    requires l == tobefnz[..n] + Select(tobefnz[n..][..k], live) + tobefnz[n + k..]
    requires forall o :: o in tobefnz ==> o in live
    ensures l == tobefnz
  {
    SelectAll(tobefnz[n..][..k], live);
    assert tobefnz == tobefnz[..n] + tobefnz[n..][..k] + tobefnz[n + k..];
  }

  lemma PauseIsQuiescent(s: Snapshot)
    requires Valid(s) && s.gcstate == Pause
    ensures Quiescent(s) && s.sweepgc.Null?
  {
  }

  lemma NowMarking(s: Snapshot)
    requires Safe(s) && Listing(s) && Marking(s) && s.lost == {} && (s.gcstate == Propagate || s.gcstate == EnterAtomic)
    ensures Valid(s)
  {
    hide Safe, Listing, Marking;
  }

  /** Moving the first object of `tobefnz` to the front of `allgc`. */
  lemma Refiled(s: Snapshot, s': Snapshot)
    requires Valid(s) && !IsSweepPhase(s.gcstate) && s.tobefnz != []
    requires s' == s.(tobefnz := s.tobefnz[1..], allgc := [s.tobefnz[0]] + s.allgc, finalized := s.finalized - {s.tobefnz[0]})
    ensures Valid(s') && s.tobefnz[0] in Live(s.color, s.white)
  {
    var o := s.tobefnz[0];
    RefiledLists(s.allgc, s.finobj, s.tobefnz, s.fixedgc, s.body.Keys);
    RefiledWhite(s, s');
    hide SafeHeap, Live, FixedGray, Partition, AllWhite, MarkState, Waiting, NonWhite;
  }

  lemma RefiledLists(allgc: seq<Ref>, finobj: seq<Ref>, tobefnz: seq<Ref>, fixedgc: seq<Ref>, K: set<Ref>)
    requires Partition(allgc, finobj, tobefnz, fixedgc, K) && tobefnz != []
    ensures Partition([tobefnz[0]] + allgc, finobj, tobefnz[1..], fixedgc, K)
    ensures tobefnz[0] !in tobefnz[1..] && tobefnz[0] !in finobj
    ensures forall x :: x in tobefnz <==> x == tobefnz[0] || x in tobefnz[1..]
  {
    var o := tobefnz[0];
    assert tobefnz == [o] + tobefnz[1..];
    assert multiset(tobefnz) == multiset{o} + multiset(tobefnz[1..]);
    assert multiset([o] + allgc) == multiset{o} + multiset(allgc);
    forall x ensures (multiset([o] + allgc) + multiset(finobj) + multiset(tobefnz[1..]) + multiset(fixedgc))[x] == multiset(K)[x] {
      assert (multiset(allgc) + multiset(finobj) + multiset(tobefnz) + multiset(fixedgc))[x] == multiset(K)[x];
    }
    OnOneList(allgc, finobj, tobefnz, fixedgc, K, o);
    assert multiset(tobefnz)[o] == 1 + multiset(tobefnz[1..])[o];
  }

  lemma RefiledWhite(s: Snapshot, s': Snapshot)
    requires s.tobefnz != [] && s' == s.(tobefnz := s.tobefnz[1..], allgc := [s.tobefnz[0]] + s.allgc, finalized := s.finalized - {s.tobefnz[0]})
    ensures Quiescent(s) ==> Quiescent(s')
  {
    forall x | x in s'.tobefnz ensures x in s.tobefnz {
    }
  }

  /** What a sweep step finds. */
  lemma BeforeSweep(s: Snapshot)
    requires Safe(s) && Listing(s)
    ensures SafeHeap(s.body, s.color, s.white)
    ensures Covers(s.allgc, Three(s.finobj, s.tobefnz, s.fixedgc), s.body.Keys)
    ensures Covers(s.finobj, Three(s.allgc, s.tobefnz, s.fixedgc), s.body.Keys)
    ensures Covers(s.tobefnz, Three(s.allgc, s.finobj, s.fixedgc), s.body.Keys)
    ensures AllWhite(s.allgc[..0], s.color, s.white)
  {
    hide SafeHeap, Live, Partition, Three, Covers, FixedGray, Flagged;
    Focus(s.allgc, s.finobj, s.tobefnz, s.fixedgc, s.body.Keys);
    EmptyWhite(s.allgc, s.color, s.white);
  }

  /** What a step that swept part of `allgc` leaves. */
  lemma AfterAllgc(s: Snapshot, s': Snapshot)
    requires Safe(s) && Listing(s) && s.lost == {}
    requires s' == s.(body := s'.body, color := s'.color, allgc := s'.allgc, sweepgc := s'.sweepgc, gcstate := SwpAllgc)
    requires Reclaimed(Three(s.finobj, s.tobefnz, s.fixedgc), s.white, s.body, s.color, s'.body, s'.color)
    requires Covers(s'.allgc, Three(s.finobj, s.tobefnz, s.fixedgc), s'.body.Keys)
    requires CursorIn(s'.allgc, s'.sweepgc) && AllWhite(Done(s'.allgc, s'.sweepgc), s'.color, s.white)
    ensures Valid(s')
  {
    hide SafeRoots, Reclaimed, Partition, Three, Covers, FixedGray, Flagged, AllWhite, Done, CursorIn;
    Focus(s'.allgc, s.finobj, s.tobefnz, s.fixedgc, s'.body.Keys);
    SweepKeeps(s.finobj, s.tobefnz, s.fixedgc, s.white, s.body, s.color, s'.body, s'.color);
    SweepSafe(Three(s.finobj, s.tobefnz, s.fixedgc), s.white, s.body, s.color, s'.body, s'.color, s.mainthread, s.running, s.registry, s.mt, s.tobefnz);
  }

  lemma AfterFinobj(s: Snapshot, s': Snapshot)
    requires Valid(s) && s.gcstate == SwpFinobj
    requires s' == s.(body := s'.body, color := s'.color, finobj := s'.finobj, sweepgc := s'.sweepgc, finalized := s'.finalized)
    requires Reclaimed(Three(s.allgc, s.tobefnz, s.fixedgc), s.white, s.body, s.color, s'.body, s'.color)
    requires Covers(s'.finobj, Three(s.allgc, s.tobefnz, s.fixedgc), s'.body.Keys)
    requires CursorIn(s'.finobj, s'.sweepgc) && AllWhite(Done(s'.finobj, s'.sweepgc), s'.color, s.white)
    requires Flagged(s'.finalized, s'.finobj, s.tobefnz)
    ensures Valid(s')
  {
    hide SafeRoots, Reclaimed, Partition, Three, Covers, FixedGray, Flagged, AllWhite, Done, CursorIn;
    Focus(s.allgc, s'.finobj, s.tobefnz, s.fixedgc, s'.body.Keys);
    SweepKeeps(s.allgc, s.tobefnz, s.fixedgc, s.white, s.body, s.color, s'.body, s'.color);
    SweepSafe(Three(s.allgc, s.tobefnz, s.fixedgc), s.white, s.body, s.color, s'.body, s'.color, s.mainthread, s.running, s.registry, s.mt, s.tobefnz);
  }

  lemma AfterTobefnz(s: Snapshot, s': Snapshot)
    requires Valid(s) && s.gcstate == SwpTobefnz
    requires s' == s.(body := s'.body, color := s'.color, sweepgc := s'.sweepgc)
    requires Reclaimed(Three(s.allgc, s.finobj, s.fixedgc), s.white, s.body, s.color, s'.body, s'.color)
    requires Covers(s.tobefnz, Three(s.allgc, s.finobj, s.fixedgc), s'.body.Keys)
    requires CursorIn(s.tobefnz, s'.sweepgc) && AllWhite(Done(s.tobefnz, s'.sweepgc), s'.color, s.white)
    ensures Valid(s')
  {
    hide SafeRoots, Reclaimed, Partition, Three, Covers, FixedGray, Flagged, AllWhite, Done, CursorIn;
    Focus(s.allgc, s.finobj, s.tobefnz, s.fixedgc, s'.body.Keys);
    SweepKeeps(s.allgc, s.finobj, s.fixedgc, s.white, s.body, s.color, s'.body, s'.color);
    SweepSafe(Three(s.allgc, s.finobj, s.fixedgc), s.white, s.body, s.color, s'.body, s'.color, s.mainthread, s.running, s.registry, s.mt, s.tobefnz);
  }

  /** When one list is swept, the next begins. */
  lemma NextList(s: Snapshot)
    requires Valid(s) && s.sweepgc.Null?
    ensures s.gcstate == SwpAllgc ==> Valid(s.(gcstate := SwpFinobj, sweepgc := At(0)))
    ensures s.gcstate == SwpFinobj ==> Valid(s.(gcstate := SwpTobefnz, sweepgc := At(0)))
    ensures s.gcstate == SwpTobefnz ==> Valid(s.(gcstate := SwpEnd))
    ensures s.gcstate == SwpEnd ==> Valid(s.(gcstate := CallFin))
    ensures s.gcstate == CallFin ==> Valid(s.(gcstate := Pause))
  {
    hide SafeRoots, Partition, FixedGray, Flagged;
  }
}
