/**
 The generational mode of the collector: between collections the mutator stores with
 barriers; a young collection visits only what may have changed.
 */
module Generational {
  import opened Generations
  import opened Options

  class GlobalState {
    var heap: Heap
    var mark: Marks
    var nextRef: Ref

    // the list of all objects, in four parts, and where the objects of age Old1 begin
    var nursery: seq<Ref>
    var survival: seq<Ref>
    var old1: seq<Ref>
    var reallyold: seq<Ref>
    var firstold1: Option<Ref>

    var gray: seq<Ref>
    var grayagain: seq<Ref>

    var roots: seq<Ref>       // the running thread, the registry and the metatables of types
    var mainthread: Ref

    ghost predicate Rooted()
      reads this
    {
      && heap.Keys == mark.Keys && mainthread in heap && heap[mainthread].kind.Thread? && IsOld(mark[mainthread].age)
      && forall r :: r in roots ==> r in heap
    }

    ghost predicate Numbered()
      reads this
    {
      (forall o :: o in mark ==> o < nextRef) && (firstold1.Some? ==> firstold1.value < nextRef)
    }

    ghost predicate Lists()
      reads this
    {
      && Segments(mark, nursery, survival, old1, reallyold)
      && FirstOld1(mark, nursery + survival + old1, firstold1)
      && Numbered()
    }

    /** The invariant between collections. */
    ghost predicate Valid()
      reads this
    {
      && Whole(heap, mark) && MarksOk(heap, mark) && RefsOk(heap, mark)
      && Queued(gray, grayagain, Listed(mark))
      && Lists() && Rooted()
    }

    ghost function Start(): set<Ref>
      reads `roots, `mainthread
    {
      {mainthread} + set r | r in roots
    }

    // ----- the mutator -----

    /** A new object is white and new. */
    method NewObject(kind: Kind) returns (o: Ref)
      requires Valid()
      modifies `heap, `mark, `nursery, `nextRef
      ensures Valid() && o !in old(heap) && heap == old(heap)[o := Obj(kind, {})]
    {
      hide Listed, Queued, RefsOk, MarksOk, Whole, From, Segments, FirstOld1;
      o := nextRef;
      NotThere(o);
      NewMarks(heap, mark, o, kind);
      NewLists(mark, nursery, survival, old1, reallyold, firstold1, o);
      nextRef := nextRef + 1;
      heap := heap[o := Obj(kind, {})];
      mark := mark[o := Mark(White, New)];
      nursery := [o] + nursery;
      assert nursery + survival + old1 == [o] + (old(nursery) + survival + old1);
    }

    lemma NotThere(o: Ref)
      requires Rooted() && Numbered() && o == nextRef
      ensures o !in heap && o !in mark
    {
    }

    /** The forward barrier: the object pointed to is marked and gets old. */
    method Barrier(o: Ref, v: Ref)
      requires Valid() && o in heap && v in heap && mark[o].color.Black? && mark[v].color.White?
      modifies `mark, `gray
      ensures Valid() && heap == old(heap) && !mark[v].color.White? && mark == old(mark)[v := mark[v]]
    {
      hide Listed, Queued, RefsOk, FirstOld1, Segments, From;
      assert MarkOk(heap[v].kind, mark[v]) && MarkOk(heap[o].kind, mark[o]);
      assert !IsOld(mark[v].age) && IsOld(mark[o].age);
      ghost var was := mark;
      var m := Mark(if heap[v].kind.Str? then Black else Gray, Old0);
      OlderRefs(heap, mark, v, m);
      hide MarksOk;
      ListedAfter(mark, mark[v := m], v);
      QueuedHas(gray, grayagain, Listed(mark), v);
      AgesOlder(mark, mark[v := m], nursery, survival, old1, reallyold, firstold1, v);
      if heap[v].kind.Str? {
        ListedSame(mark, mark[v := m], v);
      } else {
        QueuedMore(gray, grayagain, Listed(mark), v);
        gray := [v] + gray;
      }
      mark := mark[v := m];
    }

    /** The backward barrier: the old table is touched, and will be visited again. */
    method BarrierBack(o: Ref)
      requires Valid() && o in heap && heap[o].kind.Table? && mark[o].color.Black?
      modifies `mark, `grayagain
      ensures Valid() && heap == old(heap) && mark == old(mark)[o := Mark(Gray, Touched1)]
    {
      hide Listed, Queued, RefsOk, FirstOld1, Segments, From;
      assert MarkOk(heap[o].kind, mark[o]);
      assert IsOld(mark[o].age) && !mark[o].age.Touched1? && !mark[o].age.Old0?;
      var m := Mark(Gray, Touched1);
      OlderRefs(heap, mark, o, m);
      hide MarksOk;
      ListedAfter(mark, mark[o := m], o);
      AgesOlder(mark, mark[o := m], nursery, survival, old1, reallyold, firstold1, o);
      if !mark[o].age.Touched2? {
        QueuedHas(gray, grayagain, Listed(mark), o);
        QueuedEither(gray, grayagain, Listed(mark));
        QueuedMore(grayagain, gray, Listed(mark), o);
        QueuedEither([o] + grayagain, gray, Listed(mark) + {o});
        grayagain := [o] + grayagain;
      } else {
        assert Listed(mark) + {o} == Listed(mark);
      }
      mark := mark[o := m];
    }

    /** Stores into a table or a closure; `refs` are its references afterwards. */
    method Write(o: Ref, refs: set<Ref>, v: Ref, back: bool)
      requires Valid() && o in heap && v in heap && refs <= heap[o].refs + {v}
      requires if back then heap[o].kind.Table? else heap[o].kind.Table? || heap[o].kind.Closure?
      modifies `heap, `mark, `gray, `grayagain
      ensures Valid() && heap == old(heap)[o := old(heap)[o].(refs := refs)]
    {
      hide Listed, Queued, RefsOk, MarksOk, FirstOld1, Segments, From;
      assert heap.Keys == mark.Keys;
      if mark[o].color.Black? && mark[v].color.White? {
        if back {
          BarrierBack(o);
        } else {
          Barrier(o, v);
        }
      }
      WriteRefs(heap, mark, o, refs, v);
      heap := heap[o := heap[o].(refs := refs)];
    }

    /** Stores into the stack of a thread have no barrier. */
    method WriteStack(o: Ref, refs: set<Ref>)
      requires Valid() && o in heap && heap[o].kind.Thread? && refs <= heap.Keys
      modifies `heap
      ensures Valid() && heap == old(heap)[o := old(heap)[o].(refs := refs)]
    {
      hide Listed, Queued, FirstOld1, Segments, From;
      StackRefs(heap, mark, o, refs);
      heap := heap[o := heap[o].(refs := refs)];
    }

    method WriteRoot(i: nat, v: Ref)
      requires Valid() && i < |roots| && v in heap
      modifies `roots
      ensures Valid() && roots == old(roots)[i := v]
    {
      hide Whole, MarksOk, RefsOk, Listed, Queued, FirstOld1, Segments, From;
      roots := roots[i := v];
    }

    // ----- a young collection -----

    /** Objects old since the last collection get really old; they are visited once more. */
    method MarkOld()
      requires Valid()
      modifies `mark, `gray, `firstold1
      ensures Whole(heap, mark) && MarkedOld(heap, old(mark), mark)
      ensures Queued(gray, grayagain, Listed(mark))
    {
      hide Listed, Queued, From, Segments, RefsOk, Revisited;
      if firstold1.None? {
        NoneOld1(heap, mark, nursery + survival + old1);
        return;
      }
      ghost var all := nursery + survival + old1;
      var p := From(nursery + survival + old1, firstold1.value);
      ghost var was := mark;
      FromDistinct(mark, nursery, survival, old1, reallyold, firstold1.value);
      MarkOldStarts(heap, mark, nursery + survival + old1, firstold1.value);
      while p != []
        invariant Whole(heap, mark) && MarkOldRest(heap, was, mark, p) && Distinct(p)
        invariant Queued(gray, grayagain, Listed(mark))
        invariant forall x :: x in p ==> x in heap
        decreases |p|
      {
        MarkOldOne(heap, was, mark, p);
        MarkOldObject(p[0]);
        p := p[1..];
      }
      OldRestDone(heap, was, mark);
      firstold1 := None;
    }

    method MarkOldObject(o: Ref)
      requires Whole(heap, mark) && o in heap && o in mark && MarkOk(heap[o].kind, mark[o])
      requires Queued(gray, grayagain, Listed(mark))
      modifies `mark, `gray
      ensures mark == old(mark)[o := Revisited(heap[o].kind, old(mark)[o])]
      ensures Queued(gray, grayagain, Listed(mark))
    {
      hide Listed, Queued, Whole;
      if mark[o].age.Old1? {
        ghost var before := mark;
        mark := mark[o := mark[o].(age := Old)];
        if mark[o].color.Black? && !heap[o].kind.Str? {
          mark := mark[o := mark[o].(color := Gray)];
          ListedAfter(before, mark, o);
          QueuedHas(gray, grayagain, Listed(before), o);
          QueuedMore(gray, grayagain, Listed(before), o);
          gray := [o] + gray;
        } else {
          ListedSame(before, mark, o);
        }
      }
    }

    ghost predicate InAtomic(was: Marks, saved: seq<Ref>, cur: set<Ref>)
      reads this
    {
      && Whole(heap, was) && Ready(heap, was) && Marking(heap, was, mark, gray + saved, grayagain, cur)
    }

    method MarkObject(r: Ref, ghost was: Marks, ghost saved: seq<Ref>, ghost cur: set<Ref>)
      requires InAtomic(was, saved, cur) && r in heap && (forall c :: c in cur ==> c in mark && !mark[c].color.White?)
      modifies `mark, `gray
      ensures InAtomic(was, saved, cur) && r in mark && !mark[r].color.White?
      ensures forall o :: o in old(mark) && !old(mark)[o].color.White? ==> o in mark && mark[o] == old(mark)[o]
      ensures mark.Keys == old(mark).Keys
      ensures Whites(mark) < Whites(old(mark)) || (mark == old(mark) && gray == old(gray))
    {
      hide Ready, Whole, Marking, Whites;
      SameKeys(heap, was, mark, gray + saved, grayagain, cur);
      if mark[r].color.White? {
        MarkOne(heap, was, mark, gray + saved, grayagain, cur, r);
        ghost var before := mark;
        if heap[r].kind.Str? {
          mark := mark[r := mark[r].(color := Black)];
        } else {
          mark := mark[r := mark[r].(color := Gray)];
          gray := [r] + gray;
          assert gray + saved == [r] + (old(gray) + saved);
        }
        FewerWhites(before, mark, r);
      }
    }

    /** Marks all references of the object that is being visited. */
    method MarkRefs(o: Ref, ghost was: Marks, ghost saved: seq<Ref>)
      requires InAtomic(was, saved, {o}) && o in heap && o in mark && mark[o].color.Black?
      modifies `mark, `gray
      ensures InAtomic(was, saved, {o}) && o in mark && mark[o] == old(mark)[o] && RefsMarked(heap[o].refs, mark)
      ensures mark.Keys == old(mark).Keys
      ensures forall x :: x in old(mark) && !old(mark)[x].color.White? ==> mark[x] == old(mark)[x]
      ensures Whites(mark) < Whites(old(mark)) || (mark == old(mark) && gray == old(gray))
    {
      hide Ready, Whole, Marking, Whites;
      SameKeys(heap, was, mark, gray + saved, grayagain, {o});
      var left := heap[o].refs;
      RefsThere(heap, was, o);
      while left != {}
        invariant InAtomic(was, saved, {o}) && o in mark && mark[o] == old(mark)[o] && mark.Keys == old(mark).Keys
        invariant forall x :: x in old(mark) && !old(mark)[x].color.White? ==> mark[x] == old(mark)[x]
        invariant left <= heap[o].refs && RefsMarked(heap[o].refs - left, mark)
        invariant Whites(mark) < Whites(old(mark)) || (mark == old(mark) && gray == old(gray))
        decreases |left|
      {
        var r :| r in left;
        MarkObject(r, was, saved, {o});
        left := left - {r};
      }
      assert heap[o].refs - left == heap[o].refs;
    }

    /** Visits the first gray object. */
    method PropagateMark(ghost was: Marks, ghost saved: seq<Ref>)
      requires InAtomic(was, saved, {}) && gray != []
      modifies `mark, `gray, `grayagain
      ensures InAtomic(was, saved, {}) && mark.Keys == old(mark).Keys
      ensures forall x :: x in old(mark) && !old(mark)[x].color.White? ==> !mark[x].color.White?
      ensures Whites(mark) < Whites(old(mark)) || (Whites(mark) == Whites(old(mark)) && |gray| < |old(gray)|)
    {
      hide Ready, Whole, Marking, Whites;
      var o := gray[0];
      SameKeys(heap, was, mark, gray + saved, grayagain, {});
      assert (gray + saved)[0] == o && (gray + saved)[1..] == gray[1..] + saved;
      Visit(heap, was, mark, gray + saved, grayagain);
      ghost var before := mark;
      gray := gray[1..];
      mark := mark[o := mark[o].(color := Black)];
      SameWhites(before, mark, o);
      MarkRefs(o, was, saved);
      SameKeys(heap, was, mark, gray + saved, grayagain, {o});
      if mark[o].age.Touched1? || (heap[o].kind.Thread? && IsOld(mark[o].age)) {
        GoBack(heap, was, mark, gray + saved, grayagain, o);
        SameWhites(mark, mark[o := mark[o].(color := Gray)], o);
        grayagain := [o] + grayagain;
        mark := mark[o := mark[o].(color := Gray)];
      } else {
        GoOut(heap, was, mark, gray + saved, grayagain, o);
        SameWhites(mark, mark[o := if mark[o].age.Touched2? then mark[o].(age := Old) else mark[o]], o);
        if mark[o].age.Touched2? {
          mark := mark[o := mark[o].(age := Old)];
        } else {
          assert mark == mark[o := mark[o]];
        }
      }
    }

    method PropagateAll(ghost was: Marks, ghost saved: seq<Ref>)
      requires InAtomic(was, saved, {})
      modifies `mark, `gray, `grayagain
      ensures InAtomic(was, saved, {}) && gray == [] && mark.Keys == old(mark).Keys
      ensures forall x :: x in old(mark) && !old(mark)[x].color.White? ==> !mark[x].color.White?
    {
      hide Ready, Whole, Marking, Whites;
      while gray != []
        invariant InAtomic(was, saved, {}) && mark.Keys == old(mark).Keys
        invariant forall x :: x in old(mark) && !old(mark)[x].color.White? ==> !mark[x].color.White?
        decreases Whites(mark), |gray|
      {
        PropagateMark(was, saved);
      }
    }

    /** The atomic phase: everything that the roots or old objects reach gets marked. */
    method Atomic()
      requires Whole(heap, mark) && Ready(heap, mark) && Queued(gray, grayagain, Listed(mark)) && Rooted()
      modifies `mark, `gray, `grayagain
      ensures gray == [] && Whole(heap, old(mark)) && Marked(heap, old(mark), mark, grayagain)
      ensures forall r :: r in Start() ==> r in heap && r in mark && !mark[r].color.White?
    {
      hide Ready, Whole, Marking, Queued, Listed;
      ghost var was := mark;
      ReadyMain(heap, mark, mainthread);
      var saved := grayagain;
      StartMarking(heap, mark, gray, saved);
      grayagain := [];
      for i := 0 to |roots|
        invariant InAtomic(was, saved, {}) && mark.Keys == was.Keys && !mark[mainthread].color.White?
        invariant forall j :: 0 <= j < i ==> roots[j] in mark && !mark[roots[j]].color.White?
      {
        MarkObject(roots[i], was, saved, {});
      }
      PropagateAll(was, saved);
      gray := saved;
      assert [] + saved == gray + [];
      PropagateAll(was, []);
      assert gray + [] == [];
      EndMarking(heap, was, mark, grayagain);
      assert forall r :: r in roots ==> r in mark && !mark[r].color.White?;
    }

    /** Sweeps a sublist: white objects are freed, the others get one step older. */
    method SweepGen(l: seq<Ref>, before: Option<Ref>) returns (l': seq<Ref>, first: Option<Ref>)
      requires heap.Keys == mark.Keys && Distinct(l) && forall o :: o in l ==> o in heap
      modifies `heap, `mark
      ensures Swept(old(heap), old(mark), l, heap, mark) && l' == Alive(l, old(mark))
      ensures FirstFound(mark, l', before, first)
    {
      hide Swept, Alive, From;
      var k := 0;
      l', first := [], before;
      NoneSwept(heap, mark);
      assert l[..0] == [];
      while k < |l|
        invariant k <= |l| && Swept(old(heap), old(mark), l[..k], heap, mark) && l' == Alive(l[..k], old(mark))
        invariant FirstFound(mark, l', before, first)
        invariant heap.Keys == mark.Keys && old(heap).Keys == old(mark).Keys
      {
        var curr := l[k];
        NotYet(l, k);
        SweepOne(old(heap), old(mark), l, k, heap, mark);
        AliveNext(l, k, old(mark));
        ghost var m := mark;
        AliveHas(l[..k], old(mark));
        if mark[curr].color.White? {
          heap := heap - {curr};
          mark := mark - {curr};
          FirstStays(m, mark, l', before, first, curr);
        } else {
          mark := mark[curr := SweptMark(mark[curr])];
          ghost var first0 := first;
          if mark[curr].age.Old1? && first.None? {
            first := Some(curr);
          }
          FirstMore(m, mark, l', before, first0, first, curr);
          l' := l' + [curr];
        }
        k := k + 1;
      }
      assert l[..|l|] == l;
    }

    /** Corrects the gray list after the sweep: touched tables stay in it, black, for the next
        collection, and so do old threads. */
    method CorrectGrayList()
      requires heap.Keys == mark.Keys && Distinct(grayagain)
      requires forall o :: o in grayagain ==> o in heap && o in mark && BackAgain(heap[o].kind, mark[o])
      modifies `mark, `grayagain
      ensures CorrectedAll(old(mark), grayagain, mark) && grayagain == old(grayagain)
    {
      var l, kept, k := grayagain, [], 0;
      assert l[..0] == [];
      while k < |l|
        invariant k <= |l| && CorrectedAll(old(mark), l[..k], mark) && kept == l[..k]
      {
        var curr := l[k];
        CorrectOne(old(mark), mark, l, k);
        if mark[curr].age.Touched1? {
          mark := mark[curr := Mark(Black, Touched2)];
          kept := kept + [curr];
        } else if heap[curr].kind.Thread? {
          assert mark == mark[curr := Corrected(mark[curr])];
          kept := kept + [curr];
        } else {
          assert false;
        }
        k := k + 1;
      }
      assert l[..|l|] == l;
      grayagain := kept;
    }

    /** Sweeps the young sublists and moves the boundaries. */
    method SweepYoung(ghost was: Marks)
      requires Whole(heap, was) && Ready(heap, was) && Marked(heap, was, mark, grayagain)
      requires Segments(was, nursery, survival, old1, reallyold) && forall o :: o in mark ==> o < nextRef
      modifies `heap, `mark, `nursery, `survival, `old1, `reallyold, `firstold1
      ensures Swept(old(heap), old(mark), old(nursery) + old(survival), heap, mark)
      ensures nursery == [] && survival == Alive(old(nursery), old(mark)) && old1 == Alive(old(survival), old(mark))
      ensures reallyold == old(old1) + old(reallyold)
      ensures FirstYoung(mark, survival + old1, firstold1)
      ensures firstold1.Some? ==> firstold1.value < nextRef
    {
      hide *;
      ghost var h0, m0, n, s := heap, mark, nursery, survival;
      MarkedKeys(heap, was, mark, grayagain);
      SegmentsApart(was, nursery, survival, old1, reallyold);
      var l1, first1 := SweepGen(nursery, None);
      ghost var h1, m1 := heap, mark;
      Untouched(h0, m0, n, h1, m1, s);
      SweptKeys(h0, m0, n, h1, m1);
      var l2, first2 := SweepGen(survival, first1);
      TwoSweeps(h0, m0, n, s, h1, m1, heap, mark, first1, first2);
      reallyold := old1 + reallyold;
      old1 := l2;
      survival := l1;
      nursery := [];
      firstold1 := first2;
    }

    /** The marking of a young collection; `was` are the marks before its atomic phase. */
    method MarkYoung() returns (ghost was: Marks)
      requires Valid()
      modifies `mark, `gray, `grayagain, `firstold1
      ensures gray == [] && Whole(heap, was) && Ready(heap, was) && Marked(heap, was, mark, grayagain)
      ensures Segments(was, nursery, survival, old1, reallyold)
      ensures forall o :: o in heap && (was[o].age.New? || was[o].age.Survival? || was[o].age.Old0?) ==> o in nursery + survival
      ensures heap.Keys == was.Keys == mark.Keys && forall o :: o in heap ==> (IsOld(was[o].age) <==> IsOld(old(mark)[o].age))
      ensures forall r :: r in Start() ==> r in heap && !mark[r].color.White?
    {
      hide Whole, MarksOk, RefsOk, Queued, Listed, Segments, FirstOld1, From, Ready, Marked, MarkedOld;
      MarkOld();
      was := mark;
      BecomesReady(heap, old(mark), was);
      RevisitedAges(heap, old(mark), was, nursery, survival, old1, reallyold);
      RevisitedOld(heap, old(mark), was);
      Atomic();
      MarkedKeys(heap, was, mark, grayagain);
    }

    /** The sweep of a young collection, and the correction of the gray list after it. */
    method SweepAndCorrect(ghost was: Marks)
      requires Whole(heap, was) && Ready(heap, was) && Marked(heap, was, mark, grayagain)
      requires Segments(was, nursery, survival, old1, reallyold) && forall o :: o in mark ==> o < nextRef
      requires forall o :: o in heap && (was[o].age.New? || was[o].age.Survival? || was[o].age.Old0?) ==> o in nursery + survival
      modifies `heap, `mark, `nursery, `survival, `old1, `reallyold, `firstold1, `grayagain
      ensures AllCollected(old(mark), heap, mark) && grayagain == old(grayagain)
      ensures forall o :: o in heap ==> o in old(heap) && heap[o] == old(heap)[o]
      ensures forall o :: o in old(heap) && o in old(mark) && !old(mark)[o].color.White? ==> o in heap
      ensures Segments(mark, nursery, survival, old1, reallyold)
      ensures FirstOld1(mark, nursery + survival + old1, firstold1)
      ensures firstold1.Some? ==> firstold1.value < nextRef
    {
      hide Whole, Segments, FirstOld1, Swept, Alive, From, Ready, Marked, CorrectedAll, AllCollected, FirstYoung, Listed;
      ghost var h0, m2, again, n, s, o1, ro := heap, mark, grayagain, nursery, survival, old1, reallyold;
      MarkedKeys(h0, was, m2, again);
      SweepYoung(was);
      ghost var m3 := mark;
      BackSwept(h0, was, m2, again, n + s, heap, m3);
      SweptKeys(h0, m2, n + s, heap, m3);
      CorrectGrayList();
      SweepCollects(h0, was, m2, again, n + s, heap, m3, mark);
      SegmentsAfter(h0, was, m2, heap, mark, n, s, o1, ro);
      CorrectedAges(m3, again, mark);
      FirstLater(m3, mark, survival + old1, firstold1);
      assert [] + survival + old1 == survival + old1;
    }

    /**
     A young collection. What the roots reach stays as it is; what is freed was young; and
     the invariant holds again.
     */
    method YoungCollection()
      requires Valid()
      modifies `heap, `mark, `nursery, `survival, `old1, `reallyold, `firstold1, `gray, `grayagain
      ensures Valid()
      ensures Preserved(old(heap), old(Start()), heap)
      ensures forall o :: o in heap ==> o in old(heap) && heap[o] == old(heap)[o]
      ensures forall o :: o in old(heap) && o in old(mark) && o !in heap ==> !IsOld(old(mark)[o].age)
    {
      hide Whole, MarksOk, RefsOk, Queued, Listed, Segments, FirstOld1, From, Ready, Marked, AllCollected, Preserved;
      ghost var h0, m0, start := heap, mark, Start();
      ghost var m1 := MarkYoung();
      ghost var m2, again := mark, grayagain;
      SweepAndCorrect(m1);
      CollectedValid(h0, m1, m2, again, heap, mark);
      OneQueue(grayagain, mark);
      CollectedKeys(h0, m0, m1, m2, again, heap, mark);
      AllPreserved(h0, m1, m2, again, start, heap);
    }

    lemma PathNotEmpty(heap: Heap, start: set<Ref>, p: seq<Ref>)
      requires IsPath(heap, start, p)
      ensures p != []
    {
    }

    /** What the roots reach is in the heap. */
    lemma NothingMissing(p: seq<Ref>)
      requires Valid() && IsPath(heap, Start(), p)
      ensures p[|p| - 1] in heap
    {
      ReachableThere(heap, mark, Start(), p);
    }

    // ----- entering the mode -----

    /** After a full marking: frees what is white and makes the rest old. */
    method Atomic2Gen(allgc: seq<Ref>)
      requires Whole(heap, mark) && FullyMarked(heap, mark) && multiset(allgc) == multiset(heap.Keys)
      requires heap.Keys == mark.Keys && mainthread in heap && heap[mainthread].kind.Thread?
      requires forall r :: r in Start() ==> r in heap && !mark[r].color.White?
      requires forall o :: o in mark ==> o < nextRef
      modifies `heap, `mark, `nursery, `survival, `old1, `reallyold, `firstold1, `gray, `grayagain
      ensures Valid()
      ensures forall o :: o in heap ==> o in old(heap) && heap[o] == old(heap)[o]
      ensures forall o :: o in old(heap) && o in old(mark) ==> (o in heap <==> !old(mark)[o].color.White?)
    {
      hide *;
      var kept := SweepAll(allgc);
      BeginGenerations(kept);
    }

    /** The sweep that makes all live objects old. */
    method SweepAll(allgc: seq<Ref>) returns (kept: seq<Ref>)
      requires Whole(heap, mark) && FullyMarked(heap, mark) && multiset(allgc) == multiset(heap.Keys)
      requires heap.Keys == mark.Keys && mainthread in heap && heap[mainthread].kind.Thread?
      requires forall r :: r in Start() ==> r in heap && !mark[r].color.White?
      requires forall o :: o in mark ==> o < nextRef
      modifies `heap, `mark, `grayagain
      ensures Whole(heap, mark) && MarksOk(heap, mark) && RefsOk(heap, mark) && heap.Keys == mark.Keys
      ensures Segments(mark, [], [], [], kept) && FirstOld1(mark, [], None) && Queued([], grayagain, Listed(mark))
      ensures Start() <= heap.Keys && mainthread in heap && heap[mainthread].kind.Thread? && IsOld(mark[mainthread].age)
      ensures forall o :: o in mark ==> o < nextRef
      ensures forall o :: o in heap ==> o in old(heap) && heap[o] == old(heap)[o]
      ensures forall o :: o in old(heap) && o in old(mark) ==> (o in heap <==> !old(mark)[o].color.White?)
    {
      assert mainthread in Start();
      hide *;
      ghost var h0, m0 := heap, mark;
      AllOnce(allgc, heap.Keys);
      kept := SweepToOldAll(allgc);
      OldEntry(h0, m0, allgc, heap, mark, kept, grayagain);
      OldRoots(h0, m0, heap, mark, Start(), mainthread, nextRef);
    }

    /** All that is left is really old. */
    method BeginGenerations(kept: seq<Ref>)
      requires Whole(heap, mark) && MarksOk(heap, mark) && RefsOk(heap, mark) && heap.Keys == mark.Keys
      requires Segments(mark, [], [], [], kept) && FirstOld1(mark, [], None) && Queued([], grayagain, Listed(mark))
      requires Start() <= heap.Keys && mainthread in heap && heap[mainthread].kind.Thread? && IsOld(mark[mainthread].age)
      requires forall o :: o in mark ==> o < nextRef
      modifies `nursery, `survival, `old1, `reallyold, `firstold1, `gray
      ensures Valid()
    {
      hide Whole, MarksOk, RefsOk, Queued, Listed, Segments, FirstOld1;
      gray := [];
      nursery, survival, old1, reallyold, firstold1 := [], [], [], kept, None;
      assert nursery + survival + old1 == [];
      assert forall r :: r in roots ==> r in Start();
    }

    /** Frees the white objects of a list and makes the others old. */
    method SweepToOldAll(l: seq<Ref>) returns (kept: seq<Ref>)
      requires heap.Keys == mark.Keys && Distinct(l) && forall o :: o in l ==> o in heap
      modifies `heap, `mark, `grayagain
      ensures SweptOld(old(heap), old(mark), l, heap, mark) && kept == Alive(l, old(mark))
      ensures Queued([], grayagain, Threads(old(heap), kept))
    {
      hide *;
      ghost var h0, m0 := heap, mark;
      grayagain := [];
      var k := 0;
      kept := [];
      SweptOldNone(h0, m0);
      assert l[..0] == [];
      while k < |l|
        invariant k <= |l| && SweptOld(h0, m0, l[..k], heap, mark) && kept == Alive(l[..k], m0)
        invariant Queued([], grayagain, Threads(h0, kept))
      {
        SweepToOld(l, k, kept, h0, m0);
        AliveNext(l, k, m0);
        if l[k] in heap {
          kept := kept + [l[k]];
        }
        k := k + 1;
      }
      assert l[..|l|] == l;
    }

    /** Frees an object or makes it old. */
    method SweepToOld(l: seq<Ref>, k: nat, ghost kept: seq<Ref>, ghost h0: Heap, ghost m0: Marks)
      requires k < |l| && Distinct(l) && l[k] in h0 && h0.Keys == m0.Keys
      requires SweptOld(h0, m0, l[..k], heap, mark) && kept == Alive(l[..k], m0)
      requires Queued([], grayagain, Threads(h0, kept))
      modifies `heap, `mark, `grayagain
      ensures SweptOld(h0, m0, l[..k + 1], heap, mark)
      ensures l[k] in heap <==> !m0[l[k]].color.White?
      ensures Queued([], grayagain, Threads(h0, if l[k] in heap then kept + [l[k]] else kept))
    {
      hide Alive, SweptOld, Queued, Threads;
      var curr := l[k];
      NotYet(l, k);
      SweepOldOne(h0, m0, l, k, heap, mark);
      AliveHas(l[..k], m0);
      OneThread(h0, kept, curr);
      SweptOldKeys(h0, m0, l[..k], heap, mark);
      if mark[curr].color.White? {
        heap := heap - {curr};
        mark := mark - {curr};
      } else {
        if heap[curr].kind.Thread? {
          QueuedEither([], grayagain, Threads(h0, kept));
          QueuedMore(grayagain, [], Threads(h0, kept), curr);
          QueuedEither([curr] + grayagain, [], Threads(h0, kept) + {curr});
          grayagain := [curr] + grayagain;
        }
        mark := mark[curr := AsOld(heap[curr].kind)];
      }
    }

    // ----- runs -----

    /** One operation of the mutator, if it is one that a program can do, or a young collection. */
    method Step(op: Op)
      requires Valid()
      modifies this
      ensures Valid() && mainthread == old(mainthread)
      ensures op.Collect? ==> Preserved(old(heap), old(Start()), heap) && roots == old(roots)
      ensures !op.Collect? ==> forall o :: o in old(heap) ==> o in heap
      ensures !op.Collect? ==> forall o :: o in old(heap) && !op.Writes(o) ==> heap[o] == old(heap)[o]
    {
      hide Whole, MarksOk, RefsOk, Queued, Listed, Segments, FirstOld1, From, Preserved;
      if op.Create? {
        var o := NewObject(op.kind);
      } else if op.Store? {
        if op.o in heap && op.v in heap && op.refs <= heap[op.o].refs + {op.v}
           && (heap[op.o].kind.Table? || (!op.back && heap[op.o].kind.Closure?)) {
          Write(op.o, op.refs, op.v, op.back);
        }
      } else if op.Push? {
        if op.o in heap && heap[op.o].kind.Thread? && op.refs <= heap.Keys {
          WriteStack(op.o, op.refs);
        }
      } else if op.SetRoot? {
        if op.i < |roots| && op.v in heap {
          WriteRoot(op.i, op.v);
        }
      } else {
        YoungCollection();
      }
    }

    /** Any run of the mutator and young collections: nothing that can be reached is ever
        missing. */
    method Run(ops: seq<Op>)
      requires Valid()
      modifies this
      ensures Valid()
      ensures forall p :: IsPath(heap, Start(), p) ==> p != [] && p[|p| - 1] in heap
    {
      hide Whole, MarksOk, RefsOk, Queued, Listed, Segments, FirstOld1, From, Preserved, IsPath;
      for i := 0 to |ops|
        invariant Valid()
      {
        Step(ops[i]);
      }
      forall p | IsPath(heap, Start(), p) ensures p != [] && p[|p| - 1] in heap {
        PathNotEmpty(heap, Start(), p);
        NothingMissing(p);
      }
    }
  }

  datatype Op =
    | Create(kind: Kind)
    | Store(o: Ref, refs: set<Ref>, v: Ref, back: bool)
    | Push(o: Ref, refs: set<Ref>)
    | SetRoot(i: nat, v: Ref)
    | Collect
  {
    predicate Writes(x: Ref) {
      (Store? || Push?) && o == x
    }
  }
}
