/**
 Ages and colours of objects in the generational mode of the collector, and what a young
 collection makes of them.
 */
module Generations {
  import opened Options

  type Ref = nat

  /** A table has backward barriers, a closure forward ones, the stack of a thread none. */
  datatype Kind = Str | Table | Closure | Thread

  datatype Obj = Obj(kind: Kind, refs: set<Ref>)

  datatype Color = White | Gray | Black
  datatype Age = New | Survival | Old0 | Old1 | Old | Touched1 | Touched2
  datatype Mark = Mark(color: Color, age: Age)

  type Heap = map<Ref, Obj>
  type Marks = map<Ref, Mark>

  predicate IsOld(a: Age) {
    !a.New? && !a.Survival?
  }

  function NextAge(a: Age): Age {
    match a
    case New => Survival
    case Survival => Old1
    case Old0 => Old1
    case Old1 => Old
    case Old => Old
    case Touched1 => Touched1
    case Touched2 => Touched2
  }

  // ----- the invariant between collections -----

  ghost predicate Whole(heap: Heap, mark: Marks) {
    && heap.Keys == mark.Keys
    && forall o :: o in heap ==> heap[o].refs <= heap.Keys && (heap[o].kind.Str? ==> heap[o].refs == {})
  }

  /** The colours that go with an age. */
  predicate MarkOk(k: Kind, m: Mark) {
    match m.age
    case New => m.color.White?
    case Survival => m.color.White?
    case Old0 => if k.Str? then m.color.Black? else m.color.Gray?
    case Old1 => m.color.Black? || (k.Thread? && m.color.Gray?)
    case Old => if k.Thread? then m.color.Gray? else m.color.Black?
    case Touched1 => k.Table? && m.color.Gray?
    case Touched2 => k.Table? && m.color.Black?
  }

  /** What a black object may point to: a really old one to old objects only, one that is old
      since the last collection, or touched before it, to none that is new. Threads that
      just got old are visited by the next collection in any case. */
  predicate Allowed(k: Kind, a: Age, b: Age) {
    && (a.Old? ==> IsOld(b))
    && (a.Touched2? || (a.Old1? && !k.Thread?) ==> !b.New?)
  }

  ghost predicate RefsOk(heap: Heap, mark: Marks)
    requires Whole(heap, mark)
  {
    forall o, r :: o in heap && r in heap[o].refs && mark[o].color.Black? ==>
      Allowed(heap[o].kind, mark[o].age, mark[r].age)
  }

  ghost predicate MarksOk(heap: Heap, mark: Marks)
    requires Whole(heap, mark)
  {
    forall o :: o in heap ==> MarkOk(heap[o].kind, mark[o])
  }

  /** The objects that are in a gray list: the gray ones, and the black ones touched before. */
  ghost function Listed(mark: Marks): set<Ref> {
    set o | o in mark && (mark[o].color.Gray? || mark[o].age.Touched2?)
  }

  /** The part of a list from an element on. */
  function From(l: seq<Ref>, x: Ref): seq<Ref> {
    if l == [] || l[0] == x then l else From(l[1..], x)
  }

  /** All objects that got old in the last collection are in `l` from the first one on. */
  ghost predicate FirstOld1(mark: Marks, l: seq<Ref>, first: Option<Ref>) {
    forall o :: o in mark && mark[o].age.Old1? ==> first.Some? && o in From(l, first.value)
  }

  /** The sublists of the list of all objects hold the ages they are meant for. */
  ghost predicate Segments(mark: Marks, nursery: seq<Ref>, survival: seq<Ref>, old1: seq<Ref>, reallyold: seq<Ref>) {
    && multiset(nursery) + multiset(survival) + multiset(old1) + multiset(reallyold) == multiset(mark.Keys)
    && forall o :: o in mark ==>
         && (mark[o].age.New? ==> o in nursery)
         && (mark[o].age.Survival? ==> o in survival)
         && (mark[o].age.Old0? ==> o in nursery || o in survival)
  }

  // ----- marking -----

  /** What `markold` makes of an object: those of age Old1 will be visited once more. */
  function Revisited(k: Kind, m: Mark): Mark {
    if m.age.Old1? then Mark(if k.Str? then Black else Gray, Old) else m
  }

  ghost predicate MarkedOld(heap: Heap, was: Marks, mark: Marks)
    requires Whole(heap, was) && Whole(heap, mark)
  {
    forall o :: o in heap ==> mark[o] == Revisited(heap[o].kind, was[o])
  }

  /** The state before the atomic phase. */
  ghost predicate Ready(heap: Heap, mark: Marks)
    requires Whole(heap, mark)
  {
    && (forall o :: o in heap ==> ReadyMark(heap[o].kind, mark[o]))
    && (forall o, r :: o in heap && r in heap[o].refs ==> ReadyRef(heap[o].kind, mark[o], mark[r]))
  }

  predicate ReadyMark(k: Kind, m: Mark) {
    && (m.color.White? <==> !IsOld(m.age))
    && !m.age.Old1?
    && (m.age.Touched1? ==> k.Table? && m.color.Gray?)
    && (m.age.Touched2? ==> k.Table? && m.color.Black?)
    && (m.color.Gray? ==> !k.Str?)
    && (IsOld(m.age) && k.Thread? ==> m.color.Gray?)
  }

  predicate ReadyRef(k: Kind, m: Mark, r: Mark) {
    && ((m.age.Old? && !k.Thread?) || m.age.Touched2? ==> !r.age.New?)
    && (m.color.Black? && !m.age.Touched2? ==> !r.color.White?)
  }

  lemma BecomesReady(heap: Heap, was: Marks, mark: Marks)
    requires Whole(heap, was) && MarksOk(heap, was) && RefsOk(heap, was) && Whole(heap, mark) && MarkedOld(heap, was, mark)
    ensures Ready(heap, mark)
  {
    forall o | o in heap ensures ReadyMark(heap[o].kind, mark[o]) {
      assert MarkOk(heap[o].kind, was[o]);
    }
    forall o, r | o in heap && r in heap[o].refs ensures ReadyRef(heap[o].kind, mark[o], mark[r]) {
      assert MarkOk(heap[o].kind, was[o]) && MarkOk(heap[r].kind, was[r]);
      if was[o].color.Black? {
        assert Allowed(heap[o].kind, was[o].age, was[r].age);
      }
    }
  }

  /** How far marking may take an object: it is not made white, and its age stays, but for a
      touched one that becomes old. */
  predicate Progress(k: Kind, m0: Mark, m: Mark) {
    && (m.age == m0.age || (m0.age.Touched2? && m.age.Old?))
    && (!m0.color.White? ==> !m.color.White?)
    && (m.color.White? ==> m == m0)
    && (m.color.Gray? ==> !k.Str?)
  }

  /** An object that has been visited, or needs no visit, outside all lists. */
  predicate Settled(k: Kind, m: Mark) {
    m.color.Black? ==> !m.age.Touched1? && !m.age.Touched2? && !(k.Thread? && IsOld(m.age))
  }

  predicate BackAgain(k: Kind, m: Mark) {
    m.color.Gray? && (m.age.Touched1? || (k.Thread? && IsOld(m.age)))
  }

  /** The invariant of the atomic phase; `todo` are the objects that wait for a visit, `again` those
      already put back in a gray list, and `cur` the ones being visited. */
  ghost predicate Marking(heap: Heap, was: Marks, mark: Marks, todo: seq<Ref>, again: seq<Ref>, cur: set<Ref>)
    requires Whole(heap, was)
  {
    && Whole(heap, mark)
    && Progressed(heap, was, mark)
    && Queued(todo, again, Listed(mark) - cur)
    && AllBack(heap, mark, again)
    && OthersSettled(heap, mark, todo, again, cur)
    && OthersDone(heap, mark, todo, cur)
  }

  ghost predicate Progressed(heap: Heap, was: Marks, mark: Marks)
    requires Whole(heap, was) && Whole(heap, mark)
  {
    forall o :: o in heap ==> Progress(heap[o].kind, was[o], mark[o])
  }

  ghost predicate AllBack(heap: Heap, mark: Marks, again: seq<Ref>)
    requires Whole(heap, mark)
  {
    forall o :: o in again ==> o in heap && BackAgain(heap[o].kind, mark[o])
  }

  ghost predicate OthersSettled(heap: Heap, mark: Marks, todo: seq<Ref>, again: seq<Ref>, cur: set<Ref>)
    requires Whole(heap, mark)
  {
    forall o :: o in heap && o !in todo && o !in again && o !in cur ==> Settled(heap[o].kind, mark[o])
  }

  /** Whatever was visited points to nothing white. */
  ghost predicate OthersDone(heap: Heap, mark: Marks, todo: seq<Ref>, cur: set<Ref>)
    requires Whole(heap, mark)
  {
    forall o :: o in heap && !mark[o].color.White? && o !in todo && o !in cur ==> RefsMarked(heap[o].refs, mark)
  }

  /** The two lists hold the objects of `s`, each once. */
  ghost predicate Queued(todo: seq<Ref>, again: seq<Ref>, s: set<Ref>) {
    multiset(todo) + multiset(again) == multiset(s)
  }

  lemma QueuedHas(todo: seq<Ref>, again: seq<Ref>, s: set<Ref>, r: Ref)
    requires Queued(todo, again, s)
    ensures r in s <==> r in todo || r in again
    ensures r in todo ==> r !in again
  {
    assert (multiset(todo) + multiset(again))[r] == multiset(s)[r];
  }

  lemma QueuedMore(todo: seq<Ref>, again: seq<Ref>, s: set<Ref>, r: Ref)
    requires Queued(todo, again, s) && r !in s
    ensures Queued([r] + todo, again, s + {r})
  {
    assert multiset([r] + todo) == multiset{r} + multiset(todo);
    assert multiset(s + {r}) == multiset(s) + multiset{r};
  }

  lemma QueuedEither(todo: seq<Ref>, again: seq<Ref>, s: set<Ref>)
    requires Queued(todo, again, s)
    ensures Queued(again, todo, s)
  {
  }

  lemma QueuedNext(todo: seq<Ref>, again: seq<Ref>, s: set<Ref>)
    requires Queued(todo, again, s) && todo != []
    ensures todo[0] in s && todo[0] !in todo[1..] && todo[0] !in again && Queued(todo[1..], again, s - {todo[0]})
  {
    var r, rest := todo[0], todo[1..];
    assert todo == [r] + rest;
    assert multiset(todo) == multiset{r} + multiset(rest);
    assert (multiset(todo) + multiset(again))[r] == multiset(s)[r];
    assert r in multiset(s);
    forall x ensures (multiset(rest) + multiset(again))[x] == multiset(s - {r})[x] {
      assert (multiset(todo) + multiset(again))[x] == multiset(s)[x];
    }
  }

  ghost predicate RefsMarked(rs: set<Ref>, mark: Marks) {
    forall r :: r in rs ==> r in mark && !mark[r].color.White?
  }

  lemma StartMarking(heap: Heap, mark: Marks, gray: seq<Ref>, grayagain: seq<Ref>)
    requires Whole(heap, mark) && Ready(heap, mark) && Queued(gray, grayagain, Listed(mark))
    ensures Marking(heap, mark, mark, gray + grayagain, [], {})
  {
    var todo := gray + grayagain;
    assert Listed(mark) - {} == Listed(mark);
    assert Queued(todo, [], Listed(mark));
    InMultiset(todo, Listed(mark));
    forall o | o in heap ensures Progress(heap[o].kind, mark[o], mark[o]) && (o !in todo ==> Settled(heap[o].kind, mark[o])) {
      assert ReadyMark(heap[o].kind, mark[o]);
    }
    forall o | o in heap && !mark[o].color.White? && o !in todo ensures RefsMarked(heap[o].refs, mark) {
      forall r | r in heap[o].refs ensures !mark[r].color.White? {
        assert ReadyRef(heap[o].kind, mark[o], mark[r]);
      }
    }
  }

  lemma ReadyMain(heap: Heap, mark: Marks, o: Ref)
    requires Whole(heap, mark) && Ready(heap, mark) && o in heap && IsOld(mark[o].age)
    ensures !mark[o].color.White? && heap.Keys == mark.Keys
  {
    assert ReadyMark(heap[o].kind, mark[o]);
  }

  lemma InMultiset(l: seq<Ref>, s: set<Ref>)
    requires multiset(l) == multiset(s)
    ensures forall o :: o in l <==> o in s
  {
    forall o ensures o in l <==> o in s {
      assert o in l <==> o in multiset(l);
      assert o in s <==> o in multiset(s);
    }
  }

  /** Marking a white object. */
  lemma MarkOne(heap: Heap, was: Marks, mark: Marks, todo: seq<Ref>, again: seq<Ref>, cur: set<Ref>, r: Ref)
    requires Whole(heap, was) && Ready(heap, was) && Marking(heap, was, mark, todo, again, cur)
    requires r in heap && mark[r].color.White? && r !in cur
    ensures heap[r].kind.Str? ==> Marking(heap, was, mark[r := mark[r].(color := Black)], todo, again, cur)
    ensures !heap[r].kind.Str? ==> Marking(heap, was, mark[r := mark[r].(color := Gray)], [r] + todo, again, cur)
  {
    assert heap.Keys == mark.Keys;
    hide Progressed, Queued, AllBack, OthersSettled, OthersDone, Ready, Listed, Whole;
    var now := mark[r := mark[r].(color := if heap[r].kind.Str? then Black else Gray)];
    var todo' := if heap[r].kind.Str? then todo else [r] + todo;
    Kept(heap, mark, now, r);
    WasWhite(heap, was, mark, r);
    ProgressOne(heap, was, mark, now, r);
    ListedAfter(mark, now, r);
    QueuedHas(todo, again, Listed(mark) - cur, r);
    if heap[r].kind.Str? {
      assert Listed(now) - cur == Listed(mark) - cur;
    } else {
      QueuedMore(todo, again, Listed(mark) - cur, r);
      assert Listed(now) - cur == (Listed(mark) - cur) + {r};
    }
    BackStays(heap, mark, now, again, r);
    SettledStays(heap, mark, now, todo, again, cur, todo', again, cur, r);
    DoneStays(heap, mark, now, todo, cur, todo', cur, r);
  }

  lemma Kept(heap: Heap, mark: Marks, now: Marks, r: Ref)
    requires Whole(heap, mark) && r in heap && r in now && now == mark[r := now[r]]
    ensures Whole(heap, now) && r in mark && now.Keys == mark.Keys && forall o :: o in mark && o != r ==> now[o] == mark[o]
  {
  }

  lemma WasWhite(heap: Heap, was: Marks, mark: Marks, r: Ref)
    requires Whole(heap, was) && Whole(heap, mark) && Ready(heap, was) && Progressed(heap, was, mark)
    requires r in heap && mark[r].color.White?
    ensures mark[r] == was[r] && !IsOld(mark[r].age) && (heap[r].kind.Str? ==> heap[r].refs == {})
  {
    assert ReadyMark(heap[r].kind, was[r]) && Progress(heap[r].kind, was[r], mark[r]);
  }

  lemma ProgressOne(heap: Heap, was: Marks, mark: Marks, now: Marks, r: Ref)
    requires Whole(heap, was) && Whole(heap, mark) && Whole(heap, now) && Progressed(heap, was, mark)
    requires r in heap && (forall o :: o in mark && o != r ==> now[o] == mark[o]) && !now[r].color.White?
    requires now[r].age == mark[r].age || (was[r].age.Touched2? && now[r].age.Old?)
    requires now[r].color.Gray? ==> !heap[r].kind.Str?
    ensures Progressed(heap, was, now)
  {
    assert Progress(heap[r].kind, was[r], mark[r]);
  }

  lemma BackStays(heap: Heap, mark: Marks, now: Marks, again: seq<Ref>, r: Ref)
    requires Whole(heap, mark) && Whole(heap, now) && AllBack(heap, mark, again) && r !in again
    requires forall o :: o in mark && o != r ==> now[o] == mark[o]
    ensures AllBack(heap, now, again)
  {
  }

  lemma SettledStays(heap: Heap, mark: Marks, now: Marks, todo: seq<Ref>, again: seq<Ref>, cur: set<Ref>,
                     todo': seq<Ref>, again': seq<Ref>, cur': set<Ref>, r: Ref)
    requires Whole(heap, mark) && Whole(heap, now) && OthersSettled(heap, mark, todo, again, cur)
    requires forall o :: o in mark && o != r ==> now[o] == mark[o]
    requires forall o :: o != r && o in heap && o !in todo' && o !in again' && o !in cur' ==> o !in todo && o !in again && o !in cur
    requires r in heap && (r in todo' || r in again' || r in cur' || Settled(heap[r].kind, now[r]))
    ensures OthersSettled(heap, now, todo', again', cur')
  {
  }

  lemma DoneStays(heap: Heap, mark: Marks, now: Marks, todo: seq<Ref>, cur: set<Ref>, todo': seq<Ref>, cur': set<Ref>, r: Ref)
    requires Whole(heap, mark) && Whole(heap, now) && OthersDone(heap, mark, todo, cur)
    requires forall o :: o in mark && o != r ==> now[o] == mark[o]
    requires forall o :: o != r && o in heap && o !in todo' && o !in cur' ==> o !in todo && o !in cur
    requires r in heap && !now[r].color.White? && (r in todo' || r in cur' || RefsMarked(heap[r].refs, mark))
    ensures OthersDone(heap, now, todo', cur')
  {
    forall o | o in heap && !now[o].color.White? && o !in todo' && o !in cur' ensures RefsMarked(heap[o].refs, now) {
      assert RefsMarked(heap[o].refs, mark);
    }
  }

  lemma ListedAfter(mark: Marks, now: Marks, r: Ref)
    requires r in mark && now.Keys == mark.Keys && forall o :: o in mark && o != r ==> now[o] == mark[o]
    ensures Listed(now) - {r} == Listed(mark) - {r}
    ensures r in Listed(now) <==> now[r].color.Gray? || now[r].age.Touched2?
    ensures r in Listed(mark) <==> mark[r].color.Gray? || mark[r].age.Touched2?
    ensures Listed(now) == if r in Listed(now) then Listed(mark) + {r} else Listed(mark) - {r}
  {
  }

  lemma ListedSame(mark: Marks, now: Marks, r: Ref)
    requires r in mark && now.Keys == mark.Keys && forall o :: o in mark && o != r ==> now[o] == mark[o]
    requires now[r].color.Gray? || now[r].age.Touched2? <==> mark[r].color.Gray? || mark[r].age.Touched2?
    ensures Listed(now) == Listed(mark)
  {
  }

  /** The first of the waiting objects is being visited. */
  lemma Visit(heap: Heap, was: Marks, mark: Marks, todo: seq<Ref>, again: seq<Ref>)
    requires Whole(heap, was) && Ready(heap, was) && Marking(heap, was, mark, todo, again, {}) && todo != []
    ensures todo[0] in heap && !heap[todo[0]].kind.Str? && !mark[todo[0]].color.White?
    ensures Marking(heap, was, mark[todo[0] := mark[todo[0]].(color := Black)], todo[1..], again, {todo[0]})
  {
    assert heap.Keys == mark.Keys;
    hide Progressed, Queued, AllBack, OthersSettled, OthersDone, Ready, Listed, Whole;
    var o, rest := todo[0], todo[1..];
    QueuedNext(todo, again, Listed(mark) - {});
    IsListed(heap, was, mark, o);
    var now := mark[o := mark[o].(color := Black)];
    Kept(heap, mark, now, o);
    ProgressOne(heap, was, mark, now, o);
    ListedAfter(mark, now, o);
    assert Listed(now) - {o} == (Listed(mark) - {}) - {o};
    assert forall x :: x in todo ==> x in rest || x == o;
    BackStays(heap, mark, now, again, o);
    SettledStays(heap, mark, now, todo, again, {}, rest, again, {o}, o);
    DoneStays(heap, mark, now, todo, {}, rest, {o}, o);
  }

  lemma IsListed(heap: Heap, was: Marks, mark: Marks, o: Ref)
    requires Whole(heap, was) && Whole(heap, mark) && Ready(heap, was) && Progressed(heap, was, mark) && o in Listed(mark)
    ensures o in heap && !heap[o].kind.Str? && !mark[o].color.White?
  {
    assert ReadyMark(heap[o].kind, was[o]) && Progress(heap[o].kind, was[o], mark[o]);
  }

  /** A visited object goes back to a gray list. */
  lemma GoBack(heap: Heap, was: Marks, mark: Marks, todo: seq<Ref>, again: seq<Ref>, o: Ref)
    requires Whole(heap, was) && Marking(heap, was, mark, todo, again, {o}) && o in heap && !heap[o].kind.Str?
    requires RefsMarked(heap[o].refs, mark)
    requires mark[o].age.Touched1? || (heap[o].kind.Thread? && IsOld(mark[o].age))
    ensures Marking(heap, was, mark[o := mark[o].(color := Gray)], todo, [o] + again, {})
  {
    assert heap.Keys == mark.Keys;
    hide Progressed, Queued, AllBack, OthersSettled, OthersDone, Listed, Whole;
    var now := mark[o := mark[o].(color := Gray)];
    Kept(heap, mark, now, o);
    ProgressOne(heap, was, mark, now, o);
    ListedAfter(mark, now, o);
    QueuedHas(todo, again, Listed(mark) - {o}, o);
    QueuedEither(todo, again, Listed(mark) - {o});
    QueuedMore(again, todo, Listed(mark) - {o}, o);
    QueuedEither([o] + again, todo, (Listed(mark) - {o}) + {o});
    assert Listed(now) - {} == (Listed(mark) - {o}) + {o};
    BackStays(heap, mark, now, again, o);
    BackMore(heap, now, again, o);
    SettledStays(heap, mark, now, todo, again, {o}, todo, [o] + again, {}, o);
    DoneStays(heap, mark, now, todo, {o}, todo, {}, o);
  }

  lemma BackMore(heap: Heap, mark: Marks, again: seq<Ref>, o: Ref)
    requires Whole(heap, mark) && AllBack(heap, mark, again) && o in heap && BackAgain(heap[o].kind, mark[o])
    ensures AllBack(heap, mark, [o] + again)
  {
  }

  /** A visited object leaves the lists. */
  lemma GoOut(heap: Heap, was: Marks, mark: Marks, todo: seq<Ref>, again: seq<Ref>, o: Ref)
    requires Whole(heap, was) && Ready(heap, was) && Marking(heap, was, mark, todo, again, {o}) && o in heap
    requires RefsMarked(heap[o].refs, mark) && mark[o].color.Black?
    requires !mark[o].age.Touched1? && !(heap[o].kind.Thread? && IsOld(mark[o].age))
    ensures Marking(heap, was, mark[o := if mark[o].age.Touched2? then mark[o].(age := Old) else mark[o]], todo, again, {})
  {
    assert heap.Keys == mark.Keys;
    hide Progressed, Queued, AllBack, OthersSettled, OthersDone, Listed, Whole, Ready;
    var now := mark[o := if mark[o].age.Touched2? then mark[o].(age := Old) else mark[o]];
    Kept(heap, mark, now, o);
    SameTouched(heap, was, mark, o);
    ProgressOne(heap, was, mark, now, o);
    ListedAfter(mark, now, o);
    QueuedHas(todo, again, Listed(mark) - {o}, o);
    assert Listed(now) - {} == Listed(mark) - {o};
    BackStays(heap, mark, now, again, o);
    SettledStays(heap, mark, now, todo, again, {o}, todo, again, {}, o);
    DoneStays(heap, mark, now, todo, {o}, todo, {}, o);
  }

  lemma SameTouched(heap: Heap, was: Marks, mark: Marks, o: Ref)
    requires Whole(heap, was) && Whole(heap, mark) && Ready(heap, was) && Progressed(heap, was, mark) && o in heap
    ensures mark[o].age.Touched2? ==> was[o].age.Touched2? && heap[o].kind.Table?
  {
    assert ReadyMark(heap[o].kind, was[o]) && Progress(heap[o].kind, was[o], mark[o]);
  }

  /** The end of marking: what is not white points to nothing white. */
  ghost predicate Marked(heap: Heap, was: Marks, mark: Marks, again: seq<Ref>)
    requires Whole(heap, was)
  {
    && Whole(heap, mark)
    && Progressed(heap, was, mark)
    && multiset(again) == multiset(Listed(mark))
    && AllBack(heap, mark, again)
    && (forall o :: o in heap && o !in again ==> Settled(heap[o].kind, mark[o]))
    && (forall o :: o in heap && !mark[o].color.White? ==> RefsMarked(heap[o].refs, mark))
  }

  lemma EndMarking(heap: Heap, was: Marks, mark: Marks, again: seq<Ref>)
    requires Whole(heap, was) && Marking(heap, was, mark, [], again, {})
    ensures Marked(heap, was, mark, again)
  {
    assert Listed(mark) - {} == Listed(mark);
    assert multiset(again) == multiset([]) + multiset(again);
    hide Listed;
  }

  // ----- reachability -----

  ghost predicate IsPath(heap: Heap, start: set<Ref>, p: seq<Ref>) {
    && p != [] && p[0] in start
    && forall i :: 0 <= i < |p| - 1 ==> p[i] in heap && p[i + 1] in heap[p[i]].refs
  }

  /** What the roots reach is marked. */
  lemma {:induction false} PathMarked(heap: Heap, was: Marks, mark: Marks, again: seq<Ref>, start: set<Ref>, p: seq<Ref>)
    requires Whole(heap, was) && Marked(heap, was, mark, again) && IsPath(heap, start, p)
    requires forall r :: r in start ==> r in heap && !mark[r].color.White?
    ensures p[|p| - 1] in heap && !mark[p[|p| - 1]].color.White?
    decreases |p|
  {
    if |p| > 1 {
      var q := p[..|p| - 1];
      PathMarked(heap, was, mark, again, start, q);
      assert RefsMarked(heap[q[|q| - 1]].refs, mark);
      assert p[|p| - 1] in heap[p[|p| - 2]].refs;
    }
  }

  /** What the roots reach is still there, and as it was. */
  ghost predicate Preserved(heap0: Heap, start: set<Ref>, heap: Heap) {
    forall p :: IsPath(heap0, start, p) ==>
      p[|p| - 1] in heap0 && p[|p| - 1] in heap && heap[p[|p| - 1]] == heap0[p[|p| - 1]]
  }

  lemma AllPreserved(heap0: Heap, was: Marks, mark: Marks, again: seq<Ref>, start: set<Ref>, heap: Heap)
    requires Whole(heap0, was) && Marked(heap0, was, mark, again)
    requires forall r :: r in start ==> r in heap0 && r in mark && !mark[r].color.White?
    requires forall o :: o in heap0 && o in mark && !mark[o].color.White? ==> o in heap && heap[o] == heap0[o]
    ensures Preserved(heap0, start, heap)
  {
    forall p | IsPath(heap0, start, p)
      ensures p != [] && p[|p| - 1] in heap0 && p[|p| - 1] in heap && heap[p[|p| - 1]] == heap0[p[|p| - 1]]
    {
      PathMarked(heap0, was, mark, again, start, p);
    }
  }

  // ----- sweeping -----

  /** What a sweep makes of an object that is not dead. */
  function SweptMark(m: Mark): Mark {
    if m.age.New? then Mark(White, Survival) else m.(age := NextAge(m.age))
  }

  /** After sweeping the objects `l`: the white ones are gone, the others one step older. */
  ghost predicate Swept(heap0: Heap, mark0: Marks, l: seq<Ref>, heap: Heap, mark: Marks) {
    && heap.Keys == mark.Keys
    && (forall o :: o in heap0 && o in mark0 ==> (o in heap <==> !(o in l && mark0[o].color.White?)))
    && (forall o :: o in heap ==> o in heap0 && o in mark0 && SweptTo(heap0[o], mark0[o], o in l, heap[o], mark[o]))
  }

  predicate SweptTo(o0: Obj, m0: Mark, listed: bool, o: Obj, m: Mark) {
    o == o0 && m == if listed then SweptMark(m0) else m0
  }

  ghost function Alive(l: seq<Ref>, mark: Marks): seq<Ref> {
    if l == [] then []
    else Alive(l[..|l| - 1], mark) + if l[|l| - 1] in mark && mark[l[|l| - 1]].color.White? then [] else [l[|l| - 1]]
  }

  lemma {:induction false} AliveHas(l: seq<Ref>, mark: Marks)
    ensures forall o :: o in Alive(l, mark) <==> o in l && !(o in mark && mark[o].color.White?)
  {
    if l != [] {
      AliveHas(l[..|l| - 1], mark);
      assert l == l[..|l| - 1] + [l[|l| - 1]];
    }
  }

  lemma {:induction false} AliveCount(l: seq<Ref>, mark: Marks, o: Ref)
    ensures multiset(Alive(l, mark))[o] == if o in mark && mark[o].color.White? then 0 else multiset(l)[o]
  {
    if l != [] {
      AliveCount(l[..|l| - 1], mark, o);
      assert l == l[..|l| - 1] + [l[|l| - 1]];
    }
  }

  lemma SweepOne(heap0: Heap, mark0: Marks, l: seq<Ref>, k: nat, heap: Heap, mark: Marks)
    requires k < |l| && heap0.Keys == mark0.Keys && Swept(heap0, mark0, l[..k], heap, mark)
    requires l[k] in heap0 && l[k] !in l[..k]
    ensures l[k] in mark && mark[l[k]] == mark0[l[k]]
    ensures mark[l[k]].color.White? ==> Swept(heap0, mark0, l[..k + 1], heap - {l[k]}, mark - {l[k]})
    ensures !mark[l[k]].color.White? ==> Swept(heap0, mark0, l[..k + 1], heap, mark[l[k] := SweptMark(mark[l[k]])])
  {
    assert l[..k + 1] == l[..k] + [l[k]];
  }

  lemma NoneSwept(heap: Heap, mark: Marks)
    requires heap.Keys == mark.Keys
    ensures Swept(heap, mark, [], heap, mark) && Alive([], mark) == []
  {
  }

  lemma NotYet(l: seq<Ref>, k: nat)
    requires Distinct(l) && k < |l|
    ensures l[k] !in l[..k]
  {
  }

  lemma AliveNext(l: seq<Ref>, k: nat, mark: Marks)
    requires k < |l| && l[k] in mark
    ensures Alive(l[..k + 1], mark) == Alive(l[..k], mark) + if mark[l[k]].color.White? then [] else [l[k]]
  {
    assert l[..k + 1][..k] == l[..k];
  }

  lemma FirstStays(was: Marks, now: Marks, l: seq<Ref>, before: Option<Ref>, first: Option<Ref>, o: Ref)
    requires FirstFound(was, l, before, first) && now == was - {o}
    ensures FirstFound(now, l, before, first)
  {
    hide From;
  }

  /** One more object at the end of a swept list. */
  lemma FirstMore(was: Marks, now: Marks, l: seq<Ref>, before: Option<Ref>, first0: Option<Ref>, first: Option<Ref>, o: Ref)
    requires FirstFound(was, l, before, first0) && o in was && o in now && now == was[o := now[o]] && o !in l
    requires first == if now[o].age.Old1? && first0.None? then Some(o) else first0
    ensures FirstFound(now, l + [o], before, first)
  {
    if first.Some? && before.None? {
      FromAppend(l, [o], first.value);
    }
  }

  /** Once something of the list is found it stays found. */
  lemma {:induction false} FromAppend(l: seq<Ref>, m: seq<Ref>, x: Ref)
    ensures x in l ==> From(l + m, x) == From(l, x) + m
    ensures x !in l ==> From(l + m, x) == From(m, x)
  {
    if l == [] {
      assert l + m == m;
    } else {
      assert (l + m)[1..] == l[1..] + m;
      FromAppend(l[1..], m, x);
      if l[0] == x {
        assert From(l + m, x) == l + m;
      }
    }
  }

  /** The first object of age Old1 in a swept list, if there was none before. */
  ghost predicate FirstFound(mark: Marks, l: seq<Ref>, before: Option<Ref>, first: Option<Ref>) {
    && (before.Some? ==> first == before)
    && (before.None? && first.Some? ==> first.value in l)
    && (before.None? ==> forall o :: o in l && o in mark && mark[o].age.Old1? ==> first.Some? && o in From(l, first.value))
  }

  // ----- the end of a young collection -----

  /** The whole collection, object by object, after marking and sweeping and before the gray
      lists are corrected. */
  function Collected(m: Mark): Mark {
    if m.age.New? then Mark(White, Survival)
    else if m.age.Touched1? then Mark(Black, Touched2)
    else m.(age := NextAge(m.age))
  }

  lemma CollectedOk(k: Kind, m0: Mark, m: Mark, again: bool)
    requires ReadyMark(k, m0) && Progress(k, m0, m) && !m.color.White?
    requires if again then BackAgain(k, m) else Settled(k, m) && !m.color.Gray?
    ensures MarkOk(k, Collected(m)) && !Collected(m).age.New?
    ensures Collected(m).color.Gray? || Collected(m).age.Touched2? <==> again
  {
  }

  lemma CollectedRef(k: Kind, m0: Mark, m: Mark, r0: Mark, r: Mark)
    requires ReadyMark(k, m0) && ReadyRef(k, m0, r0)
    requires m.age == m0.age || (m0.age.Touched2? && m.age.Old?)
    requires r.age == r0.age || (r0.age.Touched2? && r.age.Old?)
    requires !(k.Thread? && m.age.Old?)
    ensures Allowed(k, Collected(m).age, Collected(r).age)
  {
  }

  /** Every object that is left has been collected. */
  ghost predicate AllCollected(mark0: Marks, heap: Heap, mark: Marks)
  {
    && heap.Keys == mark.Keys
    && forall o :: o in heap ==> o in mark0 && !mark0[o].color.White? && mark[o] == Collected(mark0[o])
  }

  /** The gray lists are corrected after the sweep. */
  function Corrected(m: Mark): Mark {
    if m.age.Touched1? then Mark(Black, Touched2) else m
  }

  ghost predicate CorrectedAll(was: Marks, l: seq<Ref>, now: Marks) {
    && now.Keys == was.Keys
    && forall o :: o in was ==> now[o] == if o in l then Corrected(was[o]) else was[o]
  }

  lemma SweepCollects(heap: Heap, was: Marks, mark: Marks, again: seq<Ref>, young: seq<Ref>, heap': Heap, swept: Marks, now: Marks)
    requires Whole(heap, was) && Ready(heap, was) && Marked(heap, was, mark, again)
    requires forall o :: o in heap && (was[o].age.New? || was[o].age.Survival? || was[o].age.Old0?) ==> o in young
    requires Swept(heap, mark, young, heap', swept) && CorrectedAll(swept, again, now)
    ensures AllCollected(mark, heap', now)
    ensures forall o :: o in heap' ==> heap'[o] == heap[o]
    ensures forall o :: o in heap && !mark[o].color.White? ==> o in heap'
  {
    ListedBoth(again, Listed(mark));
    forall o | o in heap' ensures o in heap && heap'[o] == heap[o] && !mark[o].color.White? && now[o] == Collected(mark[o]) {
      SweptThere(heap, mark, young, heap', swept, o);
      assert ReadyMark(heap[o].kind, was[o]) && Progress(heap[o].kind, was[o], mark[o]);
      assert o in again ==> BackAgain(heap[o].kind, mark[o]);
      assert o !in again ==> Settled(heap[o].kind, mark[o]);
      SweptCollected(heap[o].kind, was[o], mark[o], o in young, o in again, swept[o], now[o]);
    }
    forall o | o in heap && !mark[o].color.White? ensures o in heap' {
      SweptKeeps(heap, mark, young, heap', swept, o);
    }
  }

  lemma SweptThere(heap: Heap, mark: Marks, l: seq<Ref>, heap': Heap, swept: Marks, o: Ref)
    requires Swept(heap, mark, l, heap', swept) && o in heap'
    ensures o in heap && o in mark && heap'[o] == heap[o] && swept[o] == if o in l then SweptMark(mark[o]) else mark[o]
    ensures o in l ==> !mark[o].color.White?
  {
    assert SweptTo(heap[o], mark[o], o in l, heap'[o], swept[o]);
  }

  lemma SweptKeeps(heap: Heap, mark: Marks, l: seq<Ref>, heap': Heap, swept: Marks, o: Ref)
    requires Swept(heap, mark, l, heap', swept) && o in heap && o in mark && !mark[o].color.White?
    ensures o in heap'
  {
  }

  lemma SweptCollected(k: Kind, m0: Mark, m: Mark, young: bool, again: bool, swept: Mark, now: Mark)
    requires ReadyMark(k, m0) && Progress(k, m0, m) && (young ==> !m.color.White?)
    requires m0.age.New? || m0.age.Survival? || m0.age.Old0? ==> young
    requires if again then BackAgain(k, m) else Settled(k, m) && !m.color.Gray?
    requires swept == (if young then SweptMark(m) else m) && now == if again then Corrected(swept) else swept
    ensures !m.color.White? && now == Collected(m)
  {
  }

  lemma ListedBoth(l: seq<Ref>, s: set<Ref>)
    requires multiset(l) == multiset(s)
    ensures forall o :: o in l <==> o in s
  {
    InMultiset(l, s);
  }

  lemma CollectedValid(heap: Heap, was: Marks, mark: Marks, again: seq<Ref>, heap': Heap, now: Marks)
    requires Whole(heap, was) && Ready(heap, was) && Marked(heap, was, mark, again)
    requires AllCollected(mark, heap', now) && forall o :: o in heap' ==> o in heap && heap'[o] == heap[o]
    requires forall o :: o in heap && !mark[o].color.White? ==> o in heap'
    ensures Whole(heap', now) && MarksOk(heap', now) && RefsOk(heap', now)
    ensures forall o :: o in now ==> !now[o].age.New? && !now[o].age.Old0?
    ensures multiset(again) == multiset(Listed(now))
  {
    ListedBoth(again, Listed(mark));
    forall o | o in heap' ensures heap'[o].refs <= heap'.Keys && (heap'[o].kind.Str? ==> heap'[o].refs == {}) {
      assert RefsMarked(heap[o].refs, mark);
    }
    forall o | o in heap'
      ensures MarkOk(heap'[o].kind, now[o]) && !now[o].age.New? && !now[o].age.Old0?
      ensures o in Listed(now) <==> o in again
    {
      assert ReadyMark(heap[o].kind, was[o]) && Progress(heap[o].kind, was[o], mark[o]);
      assert o in again ==> BackAgain(heap[o].kind, mark[o]);
      assert o !in again ==> Settled(heap[o].kind, mark[o]);
      CollectedOk(heap[o].kind, was[o], mark[o], o in again);
    }
    assert Listed(now) == Listed(mark) by {
      assert forall o :: o in Listed(mark) ==> o in heap';
    }
    hide Listed;
    forall o, r | o in heap' && r in heap'[o].refs && now[o].color.Black?
      ensures Allowed(heap'[o].kind, now[o].age, now[r].age)
    {
      assert ReadyMark(heap[o].kind, was[o]) && ReadyRef(heap[o].kind, was[o], was[r]);
      assert Progress(heap[o].kind, was[o], mark[o]) && Progress(heap[r].kind, was[r], mark[r]);
      assert MarkOk(heap'[o].kind, now[o]);
      CollectedRef(heap[o].kind, was[o], mark[o], was[r], mark[r]);
    }
  }

  // ----- stores -----

  /** Making a young object old, or touching an old one, changes nothing for the objects that
      point to it. */
  lemma OlderRefs(heap: Heap, mark: Marks, r: Ref, m: Mark)
    requires Whole(heap, mark) && RefsOk(heap, mark) && MarksOk(heap, mark) && r in heap && IsOld(m.age)
    requires MarkOk(heap[r].kind, m) && (m.color.Black? ==> heap[r].refs == {})
    ensures Whole(heap, mark[r := m]) && MarksOk(heap, mark[r := m]) && RefsOk(heap, mark[r := m])
  {
  }

  /** A store that needs no barrier, or has had one. */
  lemma WriteRefs(heap: Heap, mark: Marks, o: Ref, refs: set<Ref>, v: Ref)
    requires Whole(heap, mark) && RefsOk(heap, mark) && MarksOk(heap, mark) && o in heap && v in heap && !heap[o].kind.Str?
    requires refs <= heap[o].refs + {v}
    requires mark[o].color.Black? ==> !mark[v].color.White?
    ensures var h := heap[o := heap[o].(refs := refs)]; Whole(h, mark) && RefsOk(h, mark) && MarksOk(h, mark)
  {
    assert MarkOk(heap[v].kind, mark[v]);
  }

  lemma StackRefs(heap: Heap, mark: Marks, o: Ref, refs: set<Ref>)
    requires Whole(heap, mark) && RefsOk(heap, mark) && MarksOk(heap, mark) && o in heap && heap[o].kind.Thread? && refs <= heap.Keys
    ensures var h := heap[o := heap[o].(refs := refs)]; Whole(h, mark) && RefsOk(h, mark) && MarksOk(h, mark)
  {
    assert MarkOk(heap[o].kind, mark[o]);
  }

  lemma NewMarks(heap: Heap, mark: Marks, o: Ref, kind: Kind)
    requires Whole(heap, mark) && RefsOk(heap, mark) && MarksOk(heap, mark) && o !in heap
    ensures var h, m := heap[o := Obj(kind, {})], mark[o := Mark(White, New)];
            Whole(h, m) && RefsOk(h, m) && MarksOk(h, m) && Listed(m) == Listed(mark)
  {
  }

  // ----- the sublists -----

  lemma NewLists(mark: Marks, nursery: seq<Ref>, survival: seq<Ref>, old1: seq<Ref>, reallyold: seq<Ref>, first: Option<Ref>, o: Ref)
    requires Segments(mark, nursery, survival, old1, reallyold) && FirstOld1(mark, nursery + survival + old1, first)
    requires o !in mark && first != Some(o)
    ensures Segments(mark[o := Mark(White, New)], [o] + nursery, survival, old1, reallyold)
    ensures FirstOld1(mark[o := Mark(White, New)], [o] + nursery + survival + old1, first)
  {
    var now := mark[o := Mark(White, New)];
    assert multiset([o] + nursery) == multiset{o} + multiset(nursery);
    assert multiset(now.Keys) == multiset(mark.Keys) + multiset{o} by {
      assert now.Keys == mark.Keys + {o};
    }
    var l := nursery + survival + old1;
    assert [o] + nursery + survival + old1 == [o] + l;
    assert first.Some? ==> From([o] + l, first.value) == From(l, first.value) by {
      assert ([o] + l)[1..] == l;
    }
  }

  lemma AgesOlder(mark: Marks, now: Marks, nursery: seq<Ref>, survival: seq<Ref>, old1: seq<Ref>, reallyold: seq<Ref>, first: Option<Ref>, r: Ref)
    requires Segments(mark, nursery, survival, old1, reallyold) && FirstOld1(mark, nursery + survival + old1, first)
    requires r in mark && now.Keys == mark.Keys && forall o :: o in mark && o != r ==> now[o] == mark[o]
    requires now[r].age.Touched1? || (now[r].age.Old0? && !IsOld(mark[r].age))
    ensures Segments(now, nursery, survival, old1, reallyold) && FirstOld1(now, nursery + survival + old1, first)
  {
  }

  ghost predicate Distinct(l: seq<Ref>) {
    forall i, j :: 0 <= i < j < |l| ==> l[i] != l[j]
  }

  lemma {:induction false} DistinctFrom(l: seq<Ref>, x: Ref)
    requires Distinct(l)
    ensures Distinct(From(l, x)) && forall o :: o in From(l, x) ==> o in l
  {
    if l != [] && l[0] != x {
      DistinctFrom(l[1..], x);
    }
  }

  lemma {:induction false} OnceDistinct(l: seq<Ref>)
    requires forall o :: multiset(l)[o] <= 1
    ensures Distinct(l)
  {
    forall i, j | 0 <= i < j < |l| ensures l[i] != l[j] {
      if l[i] == l[j] {
        Twice(l, i, j);
      }
    }
  }

  lemma Twice(l: seq<Ref>, i: nat, j: nat)
    requires i < j < |l| && l[i] == l[j]
    ensures multiset(l)[l[i]] >= 2
  {
    assert l == l[..j] + l[j..];
    assert l[i] in l[..j] && l[i] in l[j..];
    assert multiset(l)[l[i]] == multiset(l[..j])[l[i]] + multiset(l[j..])[l[i]];
  }

  lemma FromDistinct(mark: Marks, nursery: seq<Ref>, survival: seq<Ref>, old1: seq<Ref>, reallyold: seq<Ref>, x: Ref)
    requires Segments(mark, nursery, survival, old1, reallyold)
    ensures Distinct(From(nursery + survival + old1, x)) && forall o :: o in From(nursery + survival + old1, x) ==> o in mark
  {
    var l := nursery + survival + old1;
    forall o ensures multiset(l)[o] <= 1 && (o in l ==> o in mark) {
      assert (multiset(nursery) + multiset(survival) + multiset(old1) + multiset(reallyold))[o] == multiset(mark.Keys)[o];
      assert multiset(l)[o] == multiset(nursery)[o] + multiset(survival)[o] + multiset(old1)[o];
    }
    OnceDistinct(l);
    DistinctFrom(l, x);
  }

  // ----- markold -----

  lemma NoneOld1(heap: Heap, mark: Marks, l: seq<Ref>)
    requires Whole(heap, mark) && FirstOld1(mark, l, None)
    ensures MarkedOld(heap, mark, mark)
  {
  }

  /** What is in `p` still waits for `markold`. */
  ghost predicate MarkOldRest(heap: Heap, was: Marks, mark: Marks, p: seq<Ref>)
    requires Whole(heap, was) && Whole(heap, mark)
  {
    forall o :: o in heap ==> mark[o] == if o in p then was[o] else Revisited(heap[o].kind, was[o])
  }

  lemma MarkOldStarts(heap: Heap, mark: Marks, l: seq<Ref>, first: Ref)
    requires Whole(heap, mark) && FirstOld1(mark, l, Some(first))
    ensures MarkOldRest(heap, mark, mark, From(l, first))
  {
    hide From;
  }

  lemma MarkOldOne(heap: Heap, was: Marks, mark: Marks, p: seq<Ref>)
    requires Whole(heap, was) && MarksOk(heap, was) && Whole(heap, mark) && MarkOldRest(heap, was, mark, p)
    requires p != [] && Distinct(p) && p[0] in heap
    ensures mark[p[0]] == was[p[0]] && MarkOk(heap[p[0]].kind, mark[p[0]])
    ensures var now := mark[p[0] := Revisited(heap[p[0]].kind, mark[p[0]])];
            Whole(heap, now) && MarkOldRest(heap, was, now, p[1..]) && Distinct(p[1..])
  {
    assert forall x :: x in p <==> x == p[0] || x in p[1..];
  }

  lemma OldRestDone(heap: Heap, was: Marks, mark: Marks)
    requires Whole(heap, was) && Whole(heap, mark) && MarkOldRest(heap, was, mark, [])
    ensures MarkedOld(heap, was, mark)
  {
  }

  /** The ages of objects after `markold`. */
  lemma RevisitedAges(heap: Heap, was: Marks, mark: Marks, nursery: seq<Ref>, survival: seq<Ref>, old1: seq<Ref>, reallyold: seq<Ref>)
    requires Whole(heap, was) && Whole(heap, mark) && MarkedOld(heap, was, mark)
    requires Segments(was, nursery, survival, old1, reallyold)
    ensures Segments(mark, nursery, survival, old1, reallyold)
    ensures forall o :: o in heap && (mark[o].age.New? || mark[o].age.Survival? || mark[o].age.Old0?) ==> o in nursery + survival
  {
    assert was.Keys == mark.Keys;
  }

  // ----- the objects still white -----

  ghost function Whites(mark: Marks): set<Ref> {
    set o | o in mark && mark[o].color.White?
  }

  lemma FewerWhites(mark: Marks, now: Marks, r: Ref)
    requires r in mark && mark[r].color.White? && now.Keys == mark.Keys && !now[r].color.White?
    requires forall o :: o in mark && o != r ==> now[o] == mark[o]
    ensures Whites(now) < Whites(mark)
  {
    assert r in Whites(mark) && r !in Whites(now);
  }

  lemma SameWhites(mark: Marks, now: Marks, r: Ref)
    requires r in mark && !mark[r].color.White? && now.Keys == mark.Keys && !now[r].color.White?
    requires forall o :: o in mark && o != r ==> now[o] == mark[o]
    ensures Whites(now) == Whites(mark)
  {
  }

  lemma SameKeys(heap: Heap, was: Marks, mark: Marks, todo: seq<Ref>, again: seq<Ref>, cur: set<Ref>)
    requires Whole(heap, was) && Marking(heap, was, mark, todo, again, cur)
    ensures heap.Keys == mark.Keys && Whole(heap, mark)
  {
  }

  lemma RefsThere(heap: Heap, was: Marks, o: Ref)
    requires Whole(heap, was) && o in heap
    ensures heap[o].refs <= heap.Keys
  {
  }

  // ----- the sublists after a collection -----

  lemma SweptTwice(heap0: Heap, mark0: Marks, l: seq<Ref>, heap1: Heap, mark1: Marks, m: seq<Ref>, heap2: Heap, mark2: Marks)
    requires heap0.Keys == mark0.Keys && Swept(heap0, mark0, l, heap1, mark1) && Swept(heap1, mark1, m, heap2, mark2)
    requires forall o :: o in m ==> o !in l
    ensures Swept(heap0, mark0, l + m, heap2, mark2)
  {
    forall o | o in heap0 && o in mark0 ensures o in heap2 <==> !(o in l + m && mark0[o].color.White?) {
      if o in heap1 {
        assert SweptTo(heap0[o], mark0[o], o in l, heap1[o], mark1[o]);
      }
    }
    forall o | o in heap2 ensures o in heap0 && o in mark0 && SweptTo(heap0[o], mark0[o], o in l + m, heap2[o], mark2[o]) {
      assert SweptTo(heap0[o], mark0[o], o in l, heap1[o], mark1[o]);
      assert SweptTo(heap1[o], mark1[o], o in m, heap2[o], mark2[o]);
    }
  }

  lemma {:induction false} SameAlive(l: seq<Ref>, mark: Marks, now: Marks)
    requires forall o :: o in l ==> o in mark && o in now && now[o] == mark[o]
    ensures Alive(l, now) == Alive(l, mark)
  {
    if l != [] {
      assert l == l[..|l| - 1] + [l[|l| - 1]];
      SameAlive(l[..|l| - 1], mark, now);
    }
  }

  lemma Untouched(heap: Heap, mark: Marks, l: seq<Ref>, heap': Heap, mark': Marks, m: seq<Ref>)
    requires heap.Keys == mark.Keys && Swept(heap, mark, l, heap', mark') && forall o :: o in m ==> o in heap && o !in l
    ensures forall o :: o in m ==> o in heap' && o in mark' && mark'[o] == mark[o]
  {
    forall o | o in m ensures o in heap' && o in mark' && mark'[o] == mark[o] {
      assert o in heap';
      assert SweptTo(heap[o], mark[o], o in l, heap'[o], mark'[o]);
    }
  }

  /** The four parts of the list hold each object once. */
  lemma PartsApart(keys: set<Ref>, a: seq<Ref>, b: seq<Ref>, c: seq<Ref>, d: seq<Ref>)
    requires multiset(a) + multiset(b) + multiset(c) + multiset(d) == multiset(keys)
    ensures Distinct(a) && Distinct(b)
    ensures forall o :: o in a || o in b || o in c || o in d <==> o in keys
    ensures forall o :: o in a ==> o !in b && o !in c && o !in d
    ensures forall o :: o in b ==> o !in c && o !in d
  {
    forall o
      ensures multiset(a)[o] <= 1 && multiset(b)[o] <= 1 && (o in a || o in b || o in c || o in d <==> o in keys)
      ensures (o in a ==> o !in b && o !in c && o !in d) && (o in b ==> o !in c && o !in d)
    {
      assert (multiset(a) + multiset(b) + multiset(c) + multiset(d))[o] == multiset(keys)[o];
    }
    OnceDistinct(a);
    OnceDistinct(b);
  }

  lemma PartsLeft(mark: Marks, a: seq<Ref>, b: seq<Ref>, c: seq<Ref>, d: seq<Ref>, keys: set<Ref>)
    requires multiset(a) + multiset(b) + multiset(c) + multiset(d) == multiset(mark.Keys)
    requires forall o :: o in keys <==> o in mark && !((o in a || o in b) && mark[o].color.White?)
    ensures multiset(Alive(a, mark)) + multiset(Alive(b, mark)) + multiset(c) + multiset(d) == multiset(keys)
  {
    hide Alive;
    PartsApart(mark.Keys, a, b, c, d);
    forall o ensures (multiset(Alive(a, mark)) + multiset(Alive(b, mark)) + multiset(c) + multiset(d))[o] == multiset(keys)[o] {
      AliveCount(a, mark, o);
      AliveCount(b, mark, o);
      assert (multiset(a) + multiset(b) + multiset(c) + multiset(d))[o] == multiset(mark.Keys)[o];
    }
  }

  /** The ages in the sublists after the collection. */
  lemma SegmentsAfter(heap: Heap, was: Marks, mark: Marks, heap': Heap, now: Marks,
                      nursery: seq<Ref>, survival: seq<Ref>, old1: seq<Ref>, reallyold: seq<Ref>)
    requires Whole(heap, was) && Ready(heap, was) && Whole(heap, mark) && Progressed(heap, was, mark)
    requires Segments(was, nursery, survival, old1, reallyold)
    requires AllCollected(mark, heap', now) && (forall o :: o in heap && !mark[o].color.White? ==> o in heap')
    ensures Segments(now, [], Alive(nursery, mark), Alive(survival, mark), old1 + reallyold)
    ensures forall o :: o in now && now[o].age.Old1? ==> o in Alive(nursery, mark) || o in Alive(survival, mark)
  {
    PartsApart(was.Keys, nursery, survival, old1, reallyold);
    AliveHas(nursery, mark);
    AliveHas(survival, mark);
    YoungWhites(heap, was, mark, nursery, survival, old1, reallyold);
    assert forall o :: o in now.Keys <==> o in mark && !((o in nursery || o in survival) && mark[o].color.White?);
    PartsLeft(mark, nursery, survival, old1, reallyold, now.Keys);
    assert multiset(old1 + reallyold) == multiset(old1) + multiset(reallyold);
    assert multiset([]) + multiset(Alive(nursery, mark)) + multiset(Alive(survival, mark)) + multiset(old1 + reallyold)
        == multiset(Alive(nursery, mark)) + multiset(Alive(survival, mark)) + multiset(old1) + multiset(reallyold);
    forall o | o in now
      ensures !now[o].age.New? && !now[o].age.Old0?
      ensures now[o].age.Survival? ==> o in Alive(nursery, mark)
      ensures now[o].age.Old1? ==> o in Alive(nursery, mark) || o in Alive(survival, mark)
    {
      hide Alive, Segments;
      CollectedAge(heap, was, mark, o);
      AgePlaces(was, nursery, survival, old1, reallyold, o);
    }
  }

  lemma YoungWhites(heap: Heap, was: Marks, mark: Marks, nursery: seq<Ref>, survival: seq<Ref>, old1: seq<Ref>, reallyold: seq<Ref>)
    requires Whole(heap, was) && Ready(heap, was) && Whole(heap, mark) && Progressed(heap, was, mark)
    requires Segments(was, nursery, survival, old1, reallyold)
    ensures forall o :: o in mark && mark[o].color.White? ==> o in nursery || o in survival
  {
    forall o | o in mark ensures mark[o].color.White? ==> o in nursery || o in survival {
      assert ReadyMark(heap[o].kind, was[o]) && Progress(heap[o].kind, was[o], mark[o]);
    }
  }

  lemma CollectedAge(heap: Heap, was: Marks, mark: Marks, o: Ref)
    requires Whole(heap, was) && Ready(heap, was) && Whole(heap, mark) && Progressed(heap, was, mark) && o in heap
    requires !mark[o].color.White?
    ensures var a := Collected(mark[o]).age;
            && !a.New? && !a.Old0? && (a.Survival? ==> was[o].age.New?)
            && (a.Old1? ==> was[o].age.Survival? || was[o].age.Old0?)
  {
    assert ReadyMark(heap[o].kind, was[o]) && Progress(heap[o].kind, was[o], mark[o]);
  }

  lemma AgePlaces(mark: Marks, nursery: seq<Ref>, survival: seq<Ref>, old1: seq<Ref>, reallyold: seq<Ref>, o: Ref)
    requires Segments(mark, nursery, survival, old1, reallyold) && o in mark
    ensures mark[o].age.New? ==> o in nursery
    ensures mark[o].age.Survival? ==> o in survival
    ensures mark[o].age.Old0? ==> o in nursery || o in survival
  {
  }

  /** In the young sublists, those of age Old1 are found from the first one on. */
  ghost predicate FirstYoung(mark: Marks, l: seq<Ref>, first: Option<Ref>) {
    forall o :: o in l && o in mark && mark[o].age.Old1? ==> first.Some? && o in From(l, first.value)
  }

  lemma FirstOfBoth(mark1: Marks, mark2: Marks, a: seq<Ref>, b: seq<Ref>, first1: Option<Ref>, first2: Option<Ref>)
    requires FirstFound(mark1, a, None, first1) && FirstFound(mark2, b, first1, first2)
    requires forall o :: o in a ==> o !in b && o in mark1
    requires forall o :: o in a && o in mark2 && mark2[o].age.Old1? ==> mark1[o].age.Old1?
    ensures FirstYoung(mark2, a + b, first2) && (first2.Some? ==> first2.value in a + b)
  {
    hide From;
    if first2.Some? {
      FromAppend(a, b, first2.value);
    }
  }

  lemma FirstLater(mark: Marks, now: Marks, l: seq<Ref>, first: Option<Ref>)
    requires FirstYoung(mark, l, first)
    requires forall o :: o in now && now[o].age.Old1? ==> o in l && o in mark && mark[o].age.Old1?
    ensures FirstOld1(now, l, first)
  {
  }

  /** Sweeping the nursery and then the survivors of the last collection. */
  lemma TwoSweeps(h0: Heap, m0: Marks, n: seq<Ref>, s: seq<Ref>, h1: Heap, m1: Marks, h2: Heap, m2: Marks,
                  first1: Option<Ref>, first2: Option<Ref>)
    requires h0.Keys == m0.Keys && Swept(h0, m0, n, h1, m1) && Swept(h1, m1, s, h2, m2)
    requires (forall o :: o in n || o in s ==> o in h0) && (forall o :: o in n ==> o !in s)
    requires FirstFound(m1, Alive(n, m0), None, first1) && FirstFound(m2, Alive(s, m1), first1, first2)
    ensures Swept(h0, m0, n + s, h2, m2) && Alive(s, m1) == Alive(s, m0)
    ensures FirstYoung(m2, Alive(n, m0) + Alive(s, m0), first2) && (first2.Some? ==> first2.value in m0)
  {
    hide *;
    SweptKeys(h0, m0, n, h1, m1);
    SweptKeys(h1, m1, s, h2, m2);
    SweptTwice(h0, m0, n, h1, m1, s, h2, m2);
    Untouched(h0, m0, n, h1, m1, s);
    SameAlive(s, m0, m1);
    AliveHas(n, m0);
    AliveHas(s, m0);
    AliveThere(h0, m0, n, h1, m1);
    Untouched(h1, m1, s, h2, m2, Alive(n, m0));
    FirstOfBoth(m1, m2, Alive(n, m0), Alive(s, m0), first1, first2);
  }

  lemma CorrectOne(was: Marks, now: Marks, l: seq<Ref>, k: nat)
    requires Distinct(l) && k < |l| && l[k] in was && CorrectedAll(was, l[..k], now)
    ensures now[l[k]] == was[l[k]] && CorrectedAll(was, l[..k + 1], now[l[k] := Corrected(now[l[k]])])
  {
    NotYet(l, k);
    assert l[..k + 1] == l[..k] + [l[k]];
  }

  /** Objects that go back to a gray list are still there, and as gray, after the sweep. */
  lemma BackSwept(heap: Heap, was: Marks, mark: Marks, again: seq<Ref>, l: seq<Ref>, heap': Heap, swept: Marks)
    requires Whole(heap, was) && Marked(heap, was, mark, again) && Swept(heap, mark, l, heap', swept)
    ensures Distinct(again)
    ensures forall o :: o in again ==> o in heap' && o in swept && heap'[o] == heap[o] && BackAgain(heap[o].kind, swept[o])
  {
    forall o ensures multiset(again)[o] <= 1 {
      assert multiset(again)[o] == multiset(Listed(mark))[o];
    }
    OnceDistinct(again);
    forall o | o in again ensures o in heap' && o in swept && heap'[o] == heap[o] && BackAgain(heap[o].kind, swept[o]) {
      assert BackAgain(heap[o].kind, mark[o]);
      SweptKeeps(heap, mark, l, heap', swept, o);
      SweptThere(heap, mark, l, heap', swept, o);
    }
  }

  // ----- entering the generational mode -----

  /** The state after a full marking: nothing that is not white points to something white. */
  ghost predicate FullyMarked(heap: Heap, mark: Marks)
    requires Whole(heap, mark)
  {
    forall o :: o in heap && !mark[o].color.White? ==> RefsMarked(heap[o].refs, mark)
  }

  function AsOld(k: Kind): Mark {
    Mark(if k.Thread? then Gray else Black, Old)
  }

  /** After sweeping `l`, everything left of it is old. */
  ghost predicate SweptOld(heap0: Heap, mark0: Marks, l: seq<Ref>, heap: Heap, mark: Marks) {
    && heap.Keys == mark.Keys
    && (forall o :: o in heap0 && o in mark0 ==> (o in heap <==> !(o in l && mark0[o].color.White?)))
    && (forall o :: o in heap ==> o in heap0 && o in mark0 && heap[o] == heap0[o])
    && (forall o :: o in heap ==> mark[o] == if o in l then AsOld(heap0[o].kind) else mark0[o])
  }

  lemma SweepOldOne(heap0: Heap, mark0: Marks, l: seq<Ref>, k: nat, heap: Heap, mark: Marks)
    requires k < |l| && heap0.Keys == mark0.Keys && SweptOld(heap0, mark0, l[..k], heap, mark)
    requires l[k] in heap0 && l[k] !in l[..k]
    ensures l[k] in mark && mark[l[k]] == mark0[l[k]] && heap[l[k]] == heap0[l[k]]
    ensures mark[l[k]].color.White? ==> SweptOld(heap0, mark0, l[..k + 1], heap - {l[k]}, mark - {l[k]})
    ensures !mark[l[k]].color.White? ==> SweptOld(heap0, mark0, l[..k + 1], heap, mark[l[k] := AsOld(heap[l[k]].kind)])
  {
    assert l[..k + 1] == l[..k] + [l[k]];
  }

  /** The threads of a list. */
  ghost function Threads(heap: Heap, l: seq<Ref>): set<Ref> {
    set o | o in l && o in heap && heap[o].kind.Thread?
  }

  lemma OldIsValid(heap0: Heap, mark0: Marks, l: seq<Ref>, heap: Heap, mark: Marks)
    requires Whole(heap0, mark0) && FullyMarked(heap0, mark0) && multiset(l) == multiset(heap0.Keys)
    requires SweptOld(heap0, mark0, l, heap, mark)
    ensures Whole(heap, mark) && MarksOk(heap, mark) && RefsOk(heap, mark)
    ensures Segments(mark, [], [], [], Alive(l, mark0)) && FirstOld1(mark, [], None)
    ensures Listed(mark) == Threads(heap, Alive(l, mark0))
  {
    hide Alive, Segments, Listed;
    InMultiset(l, heap0.Keys);
    AliveHas(l, mark0);
    OldMarks(heap0, mark0, l, heap, mark);
    OldSegments(mark0, l, mark);
    OldListed(heap0, mark0, l, heap, mark);
  }

  lemma OldMarks(heap0: Heap, mark0: Marks, l: seq<Ref>, heap: Heap, mark: Marks)
    requires Whole(heap0, mark0) && FullyMarked(heap0, mark0) && forall o :: o in heap0 ==> o in l
    requires SweptOld(heap0, mark0, l, heap, mark)
    ensures Whole(heap, mark) && MarksOk(heap, mark) && RefsOk(heap, mark)
    ensures forall o :: o in mark ==> mark[o].age.Old?
  {
    forall o | o in heap ensures heap[o].refs <= heap.Keys && (heap[o].kind.Str? ==> heap[o].refs == {}) {
      assert RefsMarked(heap0[o].refs, mark0);
    }
  }

  lemma OldSegments(mark0: Marks, l: seq<Ref>, mark: Marks)
    requires multiset(l) == multiset(mark0.Keys) && forall o :: o in mark ==> mark[o].age.Old?
    requires forall o :: o in mark <==> o in mark0 && !mark0[o].color.White?
    ensures Segments(mark, [], [], [], Alive(l, mark0)) && FirstOld1(mark, [], None)
  {
    hide Alive;
    forall o ensures multiset(Alive(l, mark0))[o] == multiset(mark.Keys)[o] {
      AliveCount(l, mark0, o);
      assert multiset(l)[o] == multiset(mark0.Keys)[o];
    }
    assert multiset([]) + multiset([]) + multiset([]) + multiset(Alive(l, mark0)) == multiset(mark.Keys);
  }

  lemma OldListed(heap0: Heap, mark0: Marks, l: seq<Ref>, heap: Heap, mark: Marks)
    requires heap0.Keys == mark0.Keys && (forall o :: o in heap0 ==> o in l) && SweptOld(heap0, mark0, l, heap, mark)
    requires forall o :: o in Alive(l, mark0) <==> o in l && !(o in mark0 && mark0[o].color.White?)
    ensures Listed(mark) == Threads(heap, Alive(l, mark0))
  {
    hide Alive;
  }

  /** Everything about the state in which the generational mode begins. */
  lemma OldEntry(heap0: Heap, mark0: Marks, l: seq<Ref>, heap: Heap, mark: Marks, kept: seq<Ref>, grayagain: seq<Ref>)
    requires Whole(heap0, mark0) && FullyMarked(heap0, mark0) && multiset(l) == multiset(heap0.Keys)
    requires SweptOld(heap0, mark0, l, heap, mark) && kept == Alive(l, mark0) && Queued([], grayagain, Threads(heap0, kept))
    ensures Whole(heap, mark) && MarksOk(heap, mark) && RefsOk(heap, mark) && heap.Keys == mark.Keys && heap.Keys <= heap0.Keys
    ensures Segments(mark, [], [], [], kept) && FirstOld1(mark, [], None) && Queued([], grayagain, Listed(mark))
    ensures forall o :: o in heap ==> heap[o] == heap0[o] && mark[o].age.Old?
    ensures forall o :: o in heap0 ==> o in mark0 && (o in heap <==> !mark0[o].color.White?)
  {
    assert heap0.Keys == mark0.Keys;
    hide *;
    AllOnce(l, heap0.Keys);
    OldIsValid(heap0, mark0, l, heap, mark);
    OldKept(heap0, mark0, l, heap, mark, kept);
  }

  lemma OldRoots(h0: Heap, m0: Marks, heap: Heap, mark: Marks, start: set<Ref>, main: Ref, next: Ref)
    requires h0.Keys == m0.Keys && (forall r :: r in start ==> r in h0 && !m0[r].color.White?) && main in start
    requires h0[main].kind.Thread? && (forall o :: o in m0 ==> o < next)
    requires heap.Keys == mark.Keys && heap.Keys <= h0.Keys
    requires forall o :: o in heap ==> heap[o] == h0[o] && mark[o].age.Old?
    requires forall o :: o in h0 ==> (o in heap <==> !m0[o].color.White?)
    ensures start <= heap.Keys && heap[main].kind.Thread? && IsOld(mark[main].age)
    ensures forall o :: o in mark ==> o < next
  {
  }

  /** Nothing reachable is missing. */
  lemma {:induction false} ReachableThere(heap: Heap, mark: Marks, start: set<Ref>, p: seq<Ref>)
    requires Whole(heap, mark) && IsPath(heap, start, p) && forall r :: r in start ==> r in heap
    ensures p[|p| - 1] in heap
    decreases |p|
  {
    if |p| > 1 {
      ReachableThere(heap, mark, start, p[..|p| - 1]);
      assert p[|p| - 1] in heap[p[|p| - 2]].refs;
    }
  }

  lemma MarkedKeys(heap: Heap, was: Marks, mark: Marks, again: seq<Ref>)
    requires Whole(heap, was) && Marked(heap, was, mark, again)
    ensures heap.Keys == mark.Keys == was.Keys && Whole(heap, mark) && Progressed(heap, was, mark)
  {
  }

  lemma SegmentsApart(mark: Marks, a: seq<Ref>, b: seq<Ref>, c: seq<Ref>, d: seq<Ref>)
    requires Segments(mark, a, b, c, d)
    ensures Distinct(a) && Distinct(b)
    ensures forall o :: o in a || o in b ==> o in mark
    ensures forall o :: o in a ==> o !in b
  {
    PartsApart(mark.Keys, a, b, c, d);
  }

  lemma SweptKeys(heap0: Heap, mark0: Marks, l: seq<Ref>, heap: Heap, mark: Marks)
    requires heap0.Keys == mark0.Keys && Swept(heap0, mark0, l, heap, mark)
    ensures heap.Keys == mark.Keys && heap.Keys <= heap0.Keys
    ensures forall o :: o in heap ==> heap[o] == heap0[o]
  {
    forall o | o in heap ensures o in heap0 && heap[o] == heap0[o] {
      assert SweptTo(heap0[o], mark0[o], o in l, heap[o], mark[o]);
    }
  }

  lemma AliveThere(heap0: Heap, mark0: Marks, l: seq<Ref>, heap: Heap, mark: Marks)
    requires heap0.Keys == mark0.Keys && Swept(heap0, mark0, l, heap, mark) && forall o :: o in l ==> o in heap0
    ensures forall o :: o in l && !(o in mark0 && mark0[o].color.White?) ==> o in heap && o in mark
  {
  }

  lemma RevisitedOld(heap: Heap, was: Marks, mark: Marks)
    requires Whole(heap, was) && Whole(heap, mark) && MarkedOld(heap, was, mark)
    ensures heap.Keys == was.Keys == mark.Keys && forall o :: o in heap ==> (IsOld(mark[o].age) <==> IsOld(was[o].age))
  {
  }

  lemma CorrectedAges(was: Marks, l: seq<Ref>, now: Marks)
    requires CorrectedAll(was, l, now)
    ensures forall o :: o in now && now[o].age.Old1? ==> o in was && was[o].age.Old1?
  {
  }

  lemma OneQueue(l: seq<Ref>, mark: Marks)
    requires multiset(l) == multiset(Listed(mark))
    ensures Queued([], l, Listed(mark))
  {
    assert multiset([]) + multiset(l) == multiset(l);
  }

  /** Old objects are still there after the collection, and old. */
  lemma CollectedKeys(heap: Heap, before: Marks, was: Marks, mark: Marks, again: seq<Ref>, heap': Heap, now: Marks)
    requires Whole(heap, was) && Ready(heap, was) && Marked(heap, was, mark, again) && heap.Keys == before.Keys
    requires forall o :: o in heap ==> (IsOld(was[o].age) <==> IsOld(before[o].age))
    requires AllCollected(mark, heap', now) && forall o :: o in heap && !mark[o].color.White? ==> o in heap'
    ensures heap'.Keys == now.Keys
    ensures forall o :: o in heap && IsOld(before[o].age) ==> o in heap' && IsOld(now[o].age)
    ensures forall o :: o in heap' ==> o in now && o in mark
  {
    hide Ready, Marked, Whole, Collected;
    MarkedKeys(heap, was, mark, again);
    forall o | o in heap && IsOld(before[o].age) ensures o in heap' && IsOld(now[o].age) {
      OldStays(heap, was, mark, o);
    }
  }

  lemma OldStays(heap: Heap, was: Marks, mark: Marks, o: Ref)
    requires Whole(heap, was) && Ready(heap, was) && Whole(heap, mark) && Progressed(heap, was, mark) && o in heap
    requires IsOld(was[o].age)
    ensures !mark[o].color.White? && IsOld(Collected(mark[o]).age)
  {
    assert ReadyMark(heap[o].kind, was[o]) && Progress(heap[o].kind, was[o], mark[o]);
  }

  lemma AllOnce(l: seq<Ref>, s: set<Ref>)
    requires multiset(l) == multiset(s)
    ensures Distinct(l) && forall o :: o in l <==> o in s
  {
    InMultiset(l, s);
    forall o ensures multiset(l)[o] <= 1 {
      assert multiset(l)[o] == multiset(s)[o];
    }
    OnceDistinct(l);
  }

  lemma SweptOldKeys(heap0: Heap, mark0: Marks, l: seq<Ref>, heap: Heap, mark: Marks)
    requires SweptOld(heap0, mark0, l, heap, mark)
    ensures heap.Keys == mark.Keys
  {
  }

  lemma SweptOldNone(heap: Heap, mark: Marks)
    requires heap.Keys == mark.Keys
    ensures SweptOld(heap, mark, [], heap, mark) && Alive([], mark) == [] && Queued([], [], Threads(heap, []))
  {
    assert Threads(heap, []) == {};
  }

  lemma OneThread(heap: Heap, l: seq<Ref>, o: Ref)
    requires o in heap && o !in l
    ensures Threads(heap, l + [o]) == if heap[o].kind.Thread? then Threads(heap, l) + {o} else Threads(heap, l)
    ensures o !in Threads(heap, l) && Threads(heap, l + []) == Threads(heap, l)
  {
  }

  lemma OldKept(heap0: Heap, mark0: Marks, l: seq<Ref>, heap: Heap, mark: Marks, kept: seq<Ref>)
    requires heap0.Keys == mark0.Keys && SweptOld(heap0, mark0, l, heap, mark) && (forall o :: o in heap0 ==> o in l)
    requires kept == Alive(l, mark0)
    ensures heap.Keys == mark.Keys && heap.Keys <= heap0.Keys
    ensures forall o :: o in heap ==> heap[o] == heap0[o] && mark[o].age.Old?
    ensures forall o :: o in heap0 ==> (o in heap <==> !mark0[o].color.White?)
    ensures Threads(heap, kept) == Threads(heap0, kept)
  {
    AliveHas(l, mark0);
    hide Alive;
  }
}
