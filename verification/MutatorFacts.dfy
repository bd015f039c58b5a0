/**
 What each step of the mutator does to the collector's invariant, as lemmas
 over snapshots of the global state.
 */
module MutatorFacts {
  import opened Heap
  import opened Coloring
  import opened GcFacts

  /** The objects held on the gray lists other than `gray` while marking. */
  function Held(s: Snapshot): seq<Ref> {
    s.grayagain + s.allweak
  }

  /** An object that waits on one of them is gray. */
  lemma HeldGray(s: Snapshot, o: Ref)
    requires MarkState(s.body, s.color, s.white, s.fixedgc, s.gray, Held(s)) && o in Held(s)
    ensures o in s.color && s.color[o].Gray?
  {
    hide Within;
    assert o in multiset(Held(s));
    assert o in multiset(s.gray) + Sum(Held(s), [], [], [], [], s.fixedgc);
    assert o in multiset(Grays(s.color));
  }

  /** A store that leaves alone the metatable of a table with weak keys and values. */
  lemma WriteWaiting(s: Snapshot, o: Ref, b: Body, S: set<Ref>)
    requires Waiting(s.body, S, s.allweak, s.lost) && o in s.body
    requires o in s.allweak ==> FullyWeak(b, S, o in s.lost)
    ensures Waiting(s.body[o := b], S, s.allweak, s.lost)
  {
    hide FullyWeak;
  }

  /** Live and quiescent facts survive a change of one object's contents. */
  lemma WriteSafe(s: Snapshot, o: Ref, b: Body)
    requires Safe(s) && o in Live(s.color, s.white) && Within(b, Live(s.color, s.white))
    requires b.Thread? == s.body[o].Thread?
    ensures Safe(s.(body := s.body[o := b]))
  {
    hide Within, Live, AllIn;
    LiveInHeap(s, o);
    assert s.body[o := b].Keys == s.body.Keys;
  }

  lemma LiveInHeap(s: Snapshot, o: Ref)
    requires SafeHeap(s.body, s.color, s.white) && o in Live(s.color, s.white)
    ensures o in s.body && o in s.color
  {
  }

  lemma WriteListing(s: Snapshot, o: Ref, b: Body)
    requires Listing(s) && o in s.body && b.Str? == s.body[o].Str?
    ensures Listing(s.(body := s.body[o := b]))
  {
    hide Partition, Flagged;
    assert s.body[o := b].Keys == s.body.Keys;
  }

  /** A write into an object that is not black, or into a black one whose new
      contents are marked, needs no barrier. */
  lemma WriteMarking(s: Snapshot, o: Ref, b: Body)
    requires MarkState(s.body, s.color, s.white, s.fixedgc, s.gray, Held(s))
    requires o in s.body && o in s.color && Within(b, s.body.Keys)
    requires b.Str? == s.body[o].Str? && b.Thread? == s.body[o].Thread?
    requires s.color[o].Black? ==> Within(b, NonWhite(s.color))
    ensures MarkState(s.body[o := b], s.color, s.white, s.fixedgc, s.gray, Held(s))
  {
    hide Within, NonWhite, Grays, Sum;
    assert s.body[o := b].Keys == s.body.Keys;
  }

  lemma PlainWrite(s: Snapshot, o: Ref, b: Body)
    requires Valid(s) && o in Live(s.color, s.white) && Within(b, Live(s.color, s.white))
    requires o in s.body && o in s.color && b.Str? == s.body[o].Str? && b.Thread? == s.body[o].Thread?
    requires KeepInvariant(s.gcstate) && s.color[o].Black? ==> Within(b, NonWhite(s.color))
    requires KeepInvariant(s.gcstate) && o in s.allweak ==> FullyWeak(b, NonWhite(s.color), false)
    ensures Valid(s.(body := s.body[o := b]))
  {
    WriteSafe(s, o, b);
    WriteListing(s, o, b);
    if KeepInvariant(s.gcstate) {
      WriteWaiting(s, o, b, NonWhite(s.color));
      LiveIsHeap(s);
      WithinMono(b, Live(s.color, s.white), s.body.Keys);
      WriteMarking(s, o, b);
    }
    hide Safe, Listing, AllWhite, MarkState, Waiting, Within, Live, NonWhite;
  }

  lemma LiveIsHeap(s: Snapshot)
    requires Safe(s)
    ensures Live(s.color, s.white) <= s.body.Keys
  {
  }

  /** A store into a table that leaves its metatable alone. */
  lemma SameMeta(s: Snapshot, t: Ref, b: Body)
    requires Valid(s) && t in s.body && s.body[t].Table? && b.Table? && b.meta == s.body[t].meta && b.mode == s.body[t].mode
    ensures KeepInvariant(s.gcstate) && t in s.allweak ==> FullyWeak(b, NonWhite(s.color), false)
  {
    hide Safe, Listing, MarkState, NonWhite;
  }

  /** A store with the forward barrier, unless it gives a white metatable to a table that
      waits in `allweak`. */
  lemma PutWaiting(s: Snapshot, o: Ref, f: Field, v: Value)
    requires Valid(s) && o in s.body && HasField(s.body[o], f) && (f.Meta? || f.Upvalue?)
    requires f.Meta? && o in s.allweak ==> In(v, NonWhite(s.color))
    ensures KeepInvariant(s.gcstate) && o in s.allweak ==> FullyWeak(Put(s.body[o], f, v), NonWhite(s.color), false)
  {
    hide Safe, Listing, MarkState, NonWhite;
  }

  /** Such a store is not seen by the collector. */
  lemma Replaced(s: Snapshot, t: Ref, v: Value)
    requires Valid(s) && KeepInvariant(s.gcstate) && t in s.allweak && t in Live(s.color, s.white)
    requires t in s.body && s.body[t].Table? && v.Gc? && v.ref in s.color && s.color[v.ref].White? && In(v, Live(s.color, s.white))
    ensures Lax(s.(body := s.body[t := s.body[t].(meta := v)], lost := {t}))
    ensures !Phase(s.(body := s.body[t := s.body[t].(meta := v)]))
  {
    var b := s.body[t].(meta := v);
    HeldGray(s, t);
    ReplacedWithin(s, t, v);
    WriteSafe(s, t, b);
    WriteListing(s, t, b);
    WriteMarking(s, t, b);
    WriteReplaced(s, t, b);
    hide Safe, Listing, MarkState, Within, Live;
    assert !In(v, NonWhite(s.color));
  }

  lemma ReplacedWithin(s: Snapshot, t: Ref, v: Value)
    requires Safe(s) && t in Live(s.color, s.white) && t in s.body && s.body[t].Table? && In(v, Live(s.color, s.white))
    ensures Within(s.body[t].(meta := v), Live(s.color, s.white)) && Within(s.body[t].(meta := v), s.body.Keys)
  {
    LiveIsHeap(s);
    PutWithin(s.body[t], Meta, v, Live(s.color, s.white));
    WithinMono(s.body[t].(meta := v), Live(s.color, s.white), s.body.Keys);
    hide Within, Live;
  }

  lemma WriteReplaced(s: Snapshot, t: Ref, b: Body)
    requires Valid(s) && KeepInvariant(s.gcstate) && t in s.allweak && t in s.body && s.body[t].Table?
    requires b.Table? && b.mode == s.body[t].mode
    ensures Waiting(s.body[t := b], NonWhite(s.color), s.allweak, {t})
  {
    hide Safe, Listing, MarkState, NonWhite;
  }

  lemma OnlyTablesWait(s: Snapshot, o: Ref)
    requires Valid(s) && o in s.body
    ensures KeepInvariant(s.gcstate) && o in s.allweak ==> s.body[o].Table? && s.body[o].mode.AllWeak?
  {
    hide Safe, Listing, MarkState, NonWhite;
  }

  /** The backward barrier: a black object that got a reference to a white one
      turns gray and is linked in `grayagain`. */
  lemma BackWrite(s: Snapshot, o: Ref, b: Body)
    requires Valid(s) && o in Live(s.color, s.white) && Within(b, Live(s.color, s.white))
    requires o in s.body && o in s.color && s.body[o].Table? && b.Table? && s.color[o].Black?
    ensures Valid(s.(body := s.body[o := b], color := s.color[o := Gray], grayagain := [o] + s.grayagain))
  {
    var c := s.color[o := Gray];
    BackSafe(s, o, b, c);
    RepaintWhite(s, o, c);
    if KeepInvariant(s.gcstate) {
      BackPhase(s, o, b, c);
    }
    hide Safe, Listing, AllWhite, MarkState, Waiting, Within, Live, NonWhite;
  }

  lemma BackSafe(s: Snapshot, o: Ref, b: Body, c: Colors)
    requires Safe(s) && Listing(s) && o in Live(s.color, s.white) && Within(b, Live(s.color, s.white))
    requires o in s.body && o in s.color && s.body[o].Table? && b.Table? && s.color[o].Black? && c == s.color[o := Gray]
    ensures Safe(s.(body := s.body[o := b], color := c)) && Listing(s.(body := s.body[o := b], color := c))
  {
    hide Safe, Listing, Within;
    WriteSafe(s, o, b);
    WriteListing(s, o, b);
    RepaintSafe(s.(body := s.body[o := b]), c);
    RepaintFixed(s.(body := s.body[o := b]), o, c);
  }

  lemma BackPhase(s: Snapshot, o: Ref, b: Body, c: Colors)
    requires Safe(s) && Marking(s) && Within(b, Live(s.color, s.white))
    requires o in s.body && o in s.color && s.body[o].Table? && b.Table? && s.color[o].Black? && c == s.color[o := Gray]
    ensures Marking(s.(body := s.body[o := b], color := c, grayagain := [o] + s.grayagain))
  {
    assert ([o] + s.grayagain) + s.allweak == [o] + Held(s);
    PaintGray(s.color, c, o);
    LiveIsHeap(s);
    WithinMono(b, Live(s.color, s.white), s.body.Keys);
    SumPush(o, Held(s), [], [], [], [], s.fixedgc);
    BackMarking(s, o, b, c);
    BlackNotWaiting(s, o);
    WriteWaiting(s, o, b, NonWhite(s.color));
    hide Safe, MarkState, Waiting, Within, Live, NonWhite, Grays, Sum;
  }

  lemma BlackNotWaiting(s: Snapshot, o: Ref)
    requires MarkState(s.body, s.color, s.white, s.fixedgc, s.gray, Held(s)) && o in s.color && s.color[o].Black?
    ensures o !in s.allweak
  {
    if o in s.allweak {
      HeldGray(s, o);
    }
  }

  lemma BackMarking(s: Snapshot, o: Ref, b: Body, c: Colors)
    requires MarkState(s.body, s.color, s.white, s.fixedgc, s.gray, Held(s))
    requires o in s.body && o in s.color && Within(b, s.body.Keys) && s.body[o].Table? && b.Table? && s.color[o].Black?
    requires c == s.color[o := Gray]
    requires multiset(Grays(c)) == multiset(Grays(s.color)) + multiset{o} && NonWhite(c) == NonWhite(s.color)
    requires Sum([o] + Held(s), [], [], [], [], s.fixedgc) == Sum(Held(s), [], [], [], [], s.fixedgc) + multiset{o}
    ensures MarkState(s.body[o := b], c, s.white, s.fixedgc, s.gray, [o] + Held(s))
  {
    hide Within, NonWhite, Grays, Sum;
    assert s.body[o := b].Keys == s.body.Keys;
    var p := Sum(Held(s), [], [], [], [], s.fixedgc);
    assert multiset(s.gray) + (p + multiset{o}) == (multiset(s.gray) + p) + multiset{o};
  }

  lemma RepaintSafe(s: Snapshot, c: Colors)
    requires Safe(s) && c.Keys == s.color.Keys && Live(c, s.white) == Live(s.color, s.white)
    ensures Safe(s.(color := c))
  {
    hide Within, Live, AllIn;
  }

  /** Repainting an object that is not white spoils no white list. */
  lemma RepaintWhite(s: Snapshot, o: Ref, c: Colors)
    requires o in s.color && !s.color[o].White? && o in c && c == s.color[o := c[o]]
    ensures forall l: seq<Ref> :: AllWhite(l, s.color, s.white) ==> AllWhite(l, c, s.white)
  {
  }

  lemma RepaintFixed(s: Snapshot, o: Ref, c: Colors)
    requires Listing(s) && o in s.body && !s.body[o].Str? && o in c && c == s.color[o := c[o]]
    ensures Listing(s.(color := c))
  {
    hide Partition, Flagged;
  }

  /** The forward barrier while marking: the white object `v` that a black
      object got a reference to is marked. */
  lemma ForwardMark(s: Snapshot, o: Ref, b: Body, v: Ref, c: Colors, gray: seq<Ref>)
    requires Valid(s) && KeepInvariant(s.gcstate) && o in s.body && o in s.color && s.color[o].Black?
    requires b.Str? == s.body[o].Str? && b.Thread? == s.body[o].Thread? && Within(b, s.body.Keys)
    requires v in s.body && v in s.color && s.color[v].White?
    requires c == s.color[v := if s.body[v].Str? then Black else Gray] && gray == if s.body[v].Str? then s.gray else [v] + s.gray
    requires Within(b, NonWhite(c))
    ensures Valid(s.(body := s.body[o := b], color := c, gray := gray))
  {
    ForwardTri(s, o, b, v, c, gray);
    ForwardSafe(s, o, b, v, c);
    ForwardWaiting(s, o, b, v, c);
    hide Safe, Listing, MarkState, Waiting, NonWhite, Within;
  }

  lemma ForwardSafe(s: Snapshot, o: Ref, b: Body, v: Ref, c: Colors)
    requires Safe(s) && Listing(s) && o in s.body && o in s.color && s.color[o].Black?
    requires WholeHeap(s.body, s.color, s.white)
    requires b.Str? == s.body[o].Str? && b.Thread? == s.body[o].Thread? && Within(b, s.body.Keys)
    requires v in s.body && v in s.color && s.color[v].White? && c == s.color[v := if s.body[v].Str? then Black else Gray]
    ensures Safe(s.(body := s.body[o := b], color := c)) && Listing(s.(body := s.body[o := b], color := c))
  {
    assert Live(s.color, s.white) == s.body.Keys == Live(c, s.white);
    hide Within, Partition, Flagged;
    WriteSafe(s, o, b);
    RepaintSafe(s.(body := s.body[o := b]), c);
    WriteListing(s, o, b);
  }

  lemma ForwardWaiting(s: Snapshot, o: Ref, b: Body, v: Ref, c: Colors)
    requires Marking(s) && o in s.body && o in s.color && s.color[o].Black?
    requires v in s.color && s.color[v].White? && v in c && c == s.color[v := c[v]] && !c[v].White?
    ensures Waiting(s.body[o := b], NonWhite(c), s.allweak, s.lost) && s.mainthread in NonWhite(c)
  {
    Grown(s.color, c, v);
    hide MarkState, Waiting, NonWhite;
    WaitingMono(s.body, NonWhite(s.color), NonWhite(c), s.allweak, s.lost);
    BlackNotWaiting(s, o);
    WriteWaiting(s, o, b, NonWhite(c));
  }

  lemma Grown(c0: Colors, c1: Colors, v: Ref)
    requires v in c0 && v in c1 && c1 == c0[v := c1[v]] && !c1[v].White?
    ensures NonWhite(c1) == NonWhite(c0) + {v}
  {
  }

  lemma ForwardGrays(was: Colors, c: Colors, v: Ref, str: bool, gray: seq<Ref>, before: seq<Ref>, p: multiset<Ref>)
    requires v in was && was[v].White? && c == was[v := if str then Black else Gray]
    requires gray == (if str then before else [v] + before) && multiset(before) + p == multiset(Grays(was))
    ensures multiset(gray) + p == multiset(Grays(c))
  {
    if str {
      assert Grays(c) == Grays(was);
    } else {
      AddToMultiset(Grays(was), Grays(c), v);
      assert multiset([v] + before) + p == (multiset(before) + p) + multiset{v};
    }
  }

  lemma ForwardTri(s: Snapshot, o: Ref, b: Body, v: Ref, c: Colors, gray: seq<Ref>)
    requires MarkState(s.body, s.color, s.white, s.fixedgc, s.gray, Held(s))
    requires o in s.body && o in s.color && s.color[o].Black?
    requires b.Str? == s.body[o].Str? && b.Thread? == s.body[o].Thread? && Within(b, s.body.Keys)
    requires v in s.body && v in s.color && s.color[v].White?
    requires c == s.color[v := if s.body[v].Str? then Black else Gray] && gray == if s.body[v].Str? then s.gray else [v] + s.gray
    requires Within(b, NonWhite(c))
    ensures MarkState(s.body[o := b], c, s.white, s.fixedgc, gray, Held(s))
  {
    assert s.body[o := b].Keys == s.body.Keys;
    Grown(s.color, c, v);
    ForwardGrays(s.color, c, v, s.body[v].Str?, gray, s.gray, Sum(Held(s), [], [], [], [], s.fixedgc));
    hide Within, NonWhite, Grays, Sum;
    forall x | x in c && c[x].Black? ensures Within(s.body[o := b][x], NonWhite(c)) {
      if x == v {
        StrWithin(s.body[v], NonWhite(c));
      } else if x != o {
        WithinMono(s.body[x], NonWhite(s.color), NonWhite(c));
      }
    }
  }

  /** The forward barrier while sweeping: the black object is swept. */
  lemma ForwardSweep(s: Snapshot, o: Ref, b: Body)
    requires Valid(s) && IsSweepPhase(s.gcstate) && o in Live(s.color, s.white) && Within(b, Live(s.color, s.white))
    requires o in s.body && o in s.color && s.color[o].Black? && b.Str? == s.body[o].Str? && b.Thread? == s.body[o].Thread?
    ensures Valid(s.(body := s.body[o := b], color := s.color[o := White(s.white)]))
  {
    PlainWrite(s, o, b);
    Sweeten(s.(body := s.body[o := b]), o);
  }

  /** Turning a live object that is not fixed white, in a sweep phase. */
  lemma Sweeten(s: Snapshot, o: Ref)
    requires Valid(s) && IsSweepPhase(s.gcstate) && o in Live(s.color, s.white) && o !in s.fixedgc
    ensures Valid(s.(color := s.color[o := White(s.white)]))
  {
    var c := s.color[o := White(s.white)];
    assert Live(c, s.white) == Live(s.color, s.white);
    RepaintSafe(s, c);
    LiveInHeap(s, o);
    assert c.Keys == s.color.Keys;
    assert forall l: seq<Ref> :: AllWhite(l, s.color, s.white) ==> AllWhite(l, c, s.white);
    hide Safe, AllWhite, Partition, Flagged, Live;
  }

  /** A new object enters at the head of `allgc`; a sweep that is under way in
      that list has its link further down. */
  lemma Create(s: Snapshot, o: Ref, b: Body)
    requires Valid(s) && o !in s.body && Within(b, {})
    ensures Valid(s.(body := s.body[o := b], color := s.color[o := White(s.white)], allgc := [o] + s.allgc, sweepgc := Shifted(s.gcstate == SwpAllgc, s.sweepgc)))
  {
    var s' := s.(body := s.body[o := b], color := s.color[o := White(s.white)], allgc := [o] + s.allgc, sweepgc := Shifted(s.gcstate == SwpAllgc, s.sweepgc));
    CreateSafe(s, o, b);
    CreateListing(s, o, b);
    CreateWhite(s, o);
    if KeepInvariant(s.gcstate) {
      CreateMarking(s, o, b);
      CreateWaiting(s, o, b, NonWhite(s.color));
      assert s'.mainthread in NonWhite(s'.color);
    }
    hide Safe, Listing, MarkState, Waiting, NonWhite;
    if s.gcstate == SwpAllgc {
      CreateCursor(s, o);
    }
  }

  function Shifted(inList: bool, c: Cursor): Cursor {
    if inList && c.At? && c.n > 0 then At(c.n + 1) else c
  }

  lemma CreateSafe(s: Snapshot, o: Ref, b: Body)
    requires Safe(s) && o !in s.body && Within(b, {})
    ensures Safe(s.(body := s.body[o := b], color := s.color[o := White(s.white)]))
  {
    var c := s.color[o := White(s.white)];
    assert Live(c, s.white) == Live(s.color, s.white) + {o};
    WithinMono(b, {}, Live(c, s.white));
    hide Within;
    forall x | x in Live(c, s.white) ensures Within(s.body[o := b][x], Live(c, s.white)) {
      if x != o {
        WithinMono(s.body[x], Live(s.color, s.white), Live(c, s.white));
      }
    }
  }

  lemma CreateListing(s: Snapshot, o: Ref, b: Body)
    requires Listing(s) && o !in s.body
    ensures Listing(s.(body := s.body[o := b], color := s.color[o := White(s.white)], allgc := [o] + s.allgc))
  {
    var K := s.body[o := b].Keys;
    assert K == s.body.Keys + {o};
    assert multiset([o] + s.allgc) == multiset(s.allgc) + multiset{o};
    forall x ensures (multiset([o] + s.allgc) + multiset(s.finobj) + multiset(s.tobefnz) + multiset(s.fixedgc))[x] == multiset(K)[x] {
      assert (multiset(s.allgc) + multiset(s.finobj) + multiset(s.tobefnz) + multiset(s.fixedgc))[x] == multiset(s.body.Keys)[x];
    }
  }

  lemma CreateWhite(s: Snapshot, o: Ref)
    ensures forall l: seq<Ref> :: AllWhite(l, s.color, s.white) ==> AllWhite(l, s.color[o := White(s.white)], s.white)
    ensures AllWhite(s.allgc, s.color, s.white) ==> AllWhite([o] + s.allgc, s.color[o := White(s.white)], s.white)
  {
  }

  lemma CreateWaiting(s: Snapshot, o: Ref, b: Body, S: set<Ref>)
    requires Waiting(s.body, S, s.allweak, s.lost) && o !in s.body
    ensures Waiting(s.body[o := b], S, s.allweak, s.lost)
  {
    hide FullyWeak;
  }

  lemma CreateCursor(s: Snapshot, o: Ref)
    requires Sweeping(s.allgc, s)
    ensures Sweeping([o] + s.allgc, s.(color := s.color[o := White(s.white)], sweepgc := Shifted(true, s.sweepgc)))
  {
    var l, c := [o] + s.allgc, Shifted(true, s.sweepgc);
    assert s.sweepgc.At? && s.sweepgc.n > 0 ==> Done(l, c) == [o] + Done(s.allgc, s.sweepgc);
  }

  lemma CreateMarking(s: Snapshot, o: Ref, b: Body)
    requires MarkState(s.body, s.color, s.white, s.fixedgc, s.gray, Held(s)) && o !in s.body && Within(b, {})
    ensures MarkState(s.body[o := b], s.color[o := White(s.white)], s.white, s.fixedgc, s.gray, Held(s))
    ensures NonWhite(s.color[o := White(s.white)]) == NonWhite(s.color)
  {
    var c := s.color[o := White(s.white)];
    assert NonWhite(c) == NonWhite(s.color) && Grays(c) == Grays(s.color);
    WithinMono(b, {}, s.body.Keys + {o});
    assert s.body[o := b].Keys == s.body.Keys + {o};
    hide Within, NonWhite, Grays;
    forall x | x in s.body ensures Within(s.body[x], s.body.Keys + {o}) {
      WithinMono(s.body[x], s.body.Keys, s.body.Keys + {o});
    }
  }

  /** Roots are written without a barrier: they are marked again in the atomic
      phase. */
  lemma RootWrite(s: Snapshot, running: Ref, registry: Value, mt: seq<Value>)
    requires Valid(s) && In(registry, Live(s.color, s.white)) && AllIn(mt, Live(s.color, s.white))
    requires running in Live(s.color, s.white) && running in s.body && s.body[running].Thread?
    ensures Valid(s.(running := running, registry := registry, mt := mt))
  {
    hide SafeHeap, Live, AllIn, MarkState, AllWhite;
  }

  /** Interning finds a dead string that has not been swept and gives it back
      the current white. */
  lemma ReviveString(s: Snapshot, o: Ref)
    requires Valid(s) && o in s.body && o in s.color && s.body[o].Str? && s.color[o] == White(!s.white)
    ensures Valid(s.(color := s.color[o := White(s.white)]))
    ensures o in Live(s.color[o := White(s.white)], s.white) && Live(s.color, s.white) <= Live(s.color[o := White(s.white)], s.white)
  {
    var c := s.color[o := White(s.white)];
    assert Live(c, s.white) == Live(s.color, s.white) + {o};
    assert !KeepInvariant(s.gcstate);
    assert forall l: seq<Ref> :: AllWhite(l, s.color, s.white) ==> AllWhite(l, c, s.white);
    StrWithin(s.body[o], Live(c, s.white));
    hide Within;
    forall x | x in Live(c, s.white) ensures Within(s.body[x], Live(c, s.white)) {
      if x != o {
        WithinMono(s.body[x], Live(s.color, s.white), Live(c, s.white));
      }
    }
    hide AllWhite, Partition, Flagged;
  }

  /** A list without its element number `k`, and the cursor that goes with it. */
  function Without(l: seq<Ref>, k: nat): seq<Ref>
    requires k < |l|
  {
    l[..k] + l[k + 1..]
  }

  function Unshifted(inList: bool, c: Cursor, k: nat): Cursor {
    if inList && c.At? && c.n > k then At(c.n - 1) else c
  }

  /** Moving an object from `allgc` to the head of `finobj`. In a sweep phase it
      has been turned white before; the sweep's link must not be in it. */
  lemma MoveToFinobj(s: Snapshot, k: nat)
    requires Valid(s) && k < |s.allgc|
    requires IsSweepPhase(s.gcstate) ==> s.allgc[k] in s.color && s.color[s.allgc[k]] == White(s.white)
    requires s.gcstate == SwpAllgc ==> s.sweepgc != At(k + 1)
    ensures Valid(s.(allgc := Without(s.allgc, k), finobj := [s.allgc[k]] + s.finobj, finalized := s.finalized + {s.allgc[k]},
                     sweepgc := Shifted(s.gcstate == SwpFinobj, Unshifted(s.gcstate == SwpAllgc, s.sweepgc, k))))
  {
    var o := s.allgc[k];
    var s' := s.(allgc := Without(s.allgc, k), finobj := [o] + s.finobj, finalized := s.finalized + {o},
                 sweepgc := Shifted(s.gcstate == SwpFinobj, Unshifted(s.gcstate == SwpAllgc, s.sweepgc, k)));
    MoveListing(s, k);
    assert s.gcstate in {SwpEnd, CallFin, Pause} ==> s.color[o] == White(s.white);
    MoveWhite(s, k);
    hide Safe, Listing, MarkState, AllWhite, Without;
  }

  lemma MoveListing(s: Snapshot, k: nat)
    requires Listing(s) && k < |s.allgc|
    ensures Listing(s.(allgc := Without(s.allgc, k), finobj := [s.allgc[k]] + s.finobj, finalized := s.finalized + {s.allgc[k]}))
  {
    hide FixedGray;
    var o := s.allgc[k];
    assert s.allgc == s.allgc[..k] + [o] + s.allgc[k + 1..];
    assert multiset(s.allgc) == multiset(Without(s.allgc, k)) + multiset{o};
    assert multiset([o] + s.finobj) == multiset(s.finobj) + multiset{o};
    forall x ensures (multiset(Without(s.allgc, k)) + multiset([o] + s.finobj) + multiset(s.tobefnz) + multiset(s.fixedgc))[x] == multiset(s.body.Keys)[x] {
      assert (multiset(s.allgc) + multiset(s.finobj) + multiset(s.tobefnz) + multiset(s.fixedgc))[x] == multiset(s.body.Keys)[x];
    }
  }

  lemma MoveWhite(s: Snapshot, k: nat)
    requires k < |s.allgc|
    ensures AllWhite(s.allgc, s.color, s.white) ==> AllWhite(Without(s.allgc, k), s.color, s.white)
    ensures var o := s.allgc[k]; o in s.color && s.color[o] == White(s.white) ==>
              && (AllWhite(s.finobj, s.color, s.white) ==> AllWhite([o] + s.finobj, s.color, s.white))
              && (Sweeping(s.finobj, s) ==> Sweeping([o] + s.finobj, s.(sweepgc := Shifted(true, s.sweepgc))))
    ensures Sweeping(s.allgc, s) && s.sweepgc != At(k + 1) ==> Sweeping(Without(s.allgc, k), s.(sweepgc := Unshifted(true, s.sweepgc, k)))
  {
    var o := s.allgc[k];
    var l := Without(s.allgc, k);
    assert forall x :: x in l ==> x in s.allgc;
    if s.sweepgc.At? && s.sweepgc.n > 0 && CursorIn(s.finobj, s.sweepgc) {
      assert Done([o] + s.finobj, At(s.sweepgc.n + 1)) == [o] + Done(s.finobj, s.sweepgc);
    }
    if Sweeping(s.allgc, s) && s.sweepgc.At? {
      var c := Unshifted(true, s.sweepgc, k);
      assert forall x :: x in Done(l, c) ==> x in Done(s.allgc, s.sweepgc);
    }
  }

  /** Fixing a string that was just created, before the first collection. */
  lemma Fix(s: Snapshot)
    requires Valid(s) && s.gcstate == Pause && s.allgc != [] && s.allgc[0] in s.body && s.body[s.allgc[0]].Str?
    ensures Valid(s.(allgc := s.allgc[1..], fixedgc := [s.allgc[0]] + s.fixedgc, color := s.color[s.allgc[0] := Gray]))
  {
    var o := s.allgc[0];
    var c := s.color[o := Gray];
    OnOneList(s.allgc, s.finobj, s.tobefnz, s.fixedgc, s.body.Keys, o);
    FixLists(s.allgc, s.finobj, s.tobefnz, s.fixedgc, s.body.Keys);
    assert c.Keys == s.color.Keys;
    assert Live(c, s.white) == Live(s.color, s.white) by {
      hide Partition, AllIn;
    }
    RepaintSafe(s, c);
    FixListing(s, o, c);
    FixPhase(s, o, c);
    hide Safe, Listing;
  }

  lemma FixLists(allgc: seq<Ref>, finobj: seq<Ref>, tobefnz: seq<Ref>, fixedgc: seq<Ref>, all: set<Ref>)
    requires Partition(allgc, finobj, tobefnz, fixedgc, all) && allgc != []
    ensures Partition(allgc[1..], finobj, tobefnz, [allgc[0]] + fixedgc, all)
    ensures allgc[0] !in allgc[1..]
  {
    var o := allgc[0];
    assert allgc == [o] + allgc[1..];
    assert multiset(allgc) == multiset{o} + multiset(allgc[1..]);
    assert multiset([o] + fixedgc) == multiset{o} + multiset(fixedgc);
    assert o !in allgc[1..] by {
      assert multiset(allgc)[o] == 1 + multiset(allgc[1..])[o];
      assert (multiset(allgc) + multiset(finobj) + multiset(tobefnz) + multiset(fixedgc))[o] <= 1;
    }
    forall x ensures (multiset(allgc[1..]) + multiset(finobj) + multiset(tobefnz) + multiset([o] + fixedgc))[x] == multiset(all)[x] {
      assert (multiset(allgc) + multiset(finobj) + multiset(tobefnz) + multiset(fixedgc))[x] == multiset(all)[x];
    }
  }

  lemma FixListing(s: Snapshot, o: Ref, c: Colors)
    requires Listing(s) && o in s.body && s.body[o].Str? && c == s.color[o := Gray] && s.allgc != [] && s.allgc[0] == o
    requires Partition(s.allgc[1..], s.finobj, s.tobefnz, [o] + s.fixedgc, s.body.Keys)
    ensures Listing(s.(allgc := s.allgc[1..], fixedgc := [o] + s.fixedgc, color := c))
  {
    hide Partition, Flagged;
  }

  lemma FixPhase(s: Snapshot, o: Ref, c: Colors)
    requires Quiescent(s) && s.gcstate == Pause && c == s.color[o := Gray] && s.allgc != [] && s.allgc[0] == o
    requires o !in s.allgc[1..] && o !in s.finobj && o !in s.tobefnz
    ensures Phase(s.(allgc := s.allgc[1..], fixedgc := [o] + s.fixedgc, color := c))
  {
    forall x | x in s.allgc[1..] ensures x in s.allgc {
    }
  }

  predicate IsWhite(c: Colors, v: Value) {
    v.Gc? && v.ref in c && c[v.ref].White?
  }

  lemma RepaintLive(c: Colors, o: Ref, paint: Color, white: bool)
    requires o in Live(c, white) && o in c && paint != White(!white)
    ensures Live(c[o := paint], white) == Live(c, white)
  {
  }

  lemma MarkedThen(c0: Colors, c1: Colors, r: Ref, b0: Body, b: Body, v: Value)
    requires v == Gc(r) && r in c0 && r in c1 && c1 == c0[r := c1[r]] && !c1[r].White?
    requires Within(b0, NonWhite(c0))
    requires forall S: set<Ref> :: Within(b0, S) && In(v, S) ==> Within(b, S)
    ensures Within(b, NonWhite(c1))
  {
    Grown(c0, c1, r);
    hide Within;
    WithinMono(b0, NonWhite(c0), NonWhite(c1));
  }

  /** Outside the marking phase, black objects exist only while sweeping. */
  lemma BlackMeansSweeping(s: Snapshot, o: Ref)
    requires Valid(s) && !KeepInvariant(s.gcstate) && o in s.body && o in s.color && s.color[o].Black?
    ensures IsSweepPhase(s.gcstate)
  {
    if !IsSweepPhase(s.gcstate) {
      Rested(s);
    }
  }

  lemma ThreadNotBlack(s: Snapshot, o: Ref)
    requires Valid(s) && o in s.body && o in s.color && s.body[o].Thread?
    ensures KeepInvariant(s.gcstate) ==> !s.color[o].Black?
  {
  }

  lemma SnapParts(s: Snapshot, o: Ref, v: Value)
    requires Valid(s) && o in Live(s.color, s.white) && In(v, Live(s.color, s.white))
    ensures o in s.body && o in s.color && s.color.Keys == s.body.Keys
    ensures Within(s.body[o], s.body.Keys) && Within(s.body[o], Live(s.color, s.white))
    ensures In(v, s.body.Keys)
    ensures KeepInvariant(s.gcstate) && s.color[o].Black? ==> Within(s.body[o], NonWhite(s.color))
    ensures v.Gc? && s.color[v.ref].White? ==> s.color[v.ref] == White(s.white)
    ensures !IsWhite(s.color, v) ==> In(v, NonWhite(s.color))
  {
    WithinMono(s.body[o], Live(s.color, s.white), s.body.Keys);
    hide Within;
  }

  lemma SnapKeys(s: Snapshot)
    requires Valid(s)
    ensures s.color.Keys == s.body.Keys
  {
  }

  /** An object without a finalizer that is no string is on `allgc`. */
  lemma OnAllgc(s: Snapshot, o: Ref)
    requires Valid(s) && o in s.body && o !in s.finalized && !s.body[o].Str?
    ensures o in s.allgc
  {
    OnOneList(s.allgc, s.finobj, s.tobefnz, s.fixedgc, s.body.Keys, o);
  }

  lemma NotFixed(s: Snapshot, o: Ref)
    requires Valid(s) && o in s.allgc
    ensures o !in s.fixedgc && o in s.body && SafeHeap(s.body, s.color, s.white)
  {
    OnOneList(s.allgc, s.finobj, s.tobefnz, s.fixedgc, s.body.Keys, o);
  }

  lemma StillAhead(l: seq<Ref>, k: nat, o: Ref)
    requires k < |l| && o in l && o !in l[..k] && l[k] != o
    ensures k + 1 < |l| && o !in l[..k + 1]
  {
    assert l[..k + 1] == l[..k] + [l[k]];
  }

  lemma ReclaimedLive(rest: multiset<Ref>, white: bool, body0: Objects, c0: Colors, body1: Objects, c1: Colors)
    requires Reclaimed(rest, white, body0, c0, body1, c1)
    ensures Live(c1, white) == Live(c0, white)
  {
  }

  /** What a sweep had already turned white stays so. */
  lemma StaysWhite(s: Snapshot, n: nat, c1: Colors, l: seq<Ref>, c: Cursor)
    requires n <= |s.allgc| && AllWhite(s.allgc[..n], s.color, s.white)
    requires n <= |l| && l[..n] == s.allgc[..n] && CursorIn(l, c) && (c.At? ==> n < c.n)
    requires AllWhite(Done(l, c), c1, s.white)
    ensures forall o :: o in s.allgc[..n] ==> o in c1 && o in s.color && c1[o] == s.color[o]
  {
    forall o | o in s.allgc[..n] ensures o in Done(l, c) {
      assert o in l[..n];
      var d := Done(l, c);
      assert |d| >= n && d[..n] == l[..n];
    }
  }

  lemma CreateLive(s: Snapshot, o: Ref)
    requires Valid(s) && o !in s.body
    ensures Live(s.color[o := White(s.white)], s.white) == Live(s.color, s.white) + {o}
  {
  }

  lemma FixLive(s: Snapshot)
    requires Valid(s) && s.gcstate == Pause && s.allgc != [] && s.allgc[0] in s.body
    ensures Live(s.color[s.allgc[0] := Gray], s.white) == Live(s.color, s.white)
  {
  }

  lemma EndIsNull(s: Snapshot)
    requires Valid(s) && s.gcstate in {SwpEnd, CallFin}
    ensures s.sweepgc.Null?
  {
  }

  lemma NeverAtomic(s: Snapshot)
    requires Valid(s)
    ensures s.gcstate != Atomic
  {
  }

  lemma RunningThread(s: Snapshot)
    requires Valid(s)
    ensures s.running in s.body && s.body[s.running].Thread? && s.running in Live(s.color, s.white)
    ensures s.mainthread in Live(s.color, s.white) && s.mainthread in s.body
  {
  }

  lemma PushWithin(stack: seq<Value>, v: Value, S: set<Ref>)
    requires Within(Thread(stack), S) && In(v, S)
    ensures Within(Thread(stack + [v]), S)
  {
  }

  lemma PutKind(b: Body, f: Field, v: Value)
    requires HasField(b, f)
    ensures Put(b, f, v).Table? == b.Table? && Put(b, f, v).Thread? == b.Thread? && Put(b, f, v).Str? == b.Str?
    ensures f.Arr? || f.Val? ==> b.Table? && Put(b, f, v).meta == b.meta && Put(b, f, v).mode == b.mode
  {
  }

  lemma PutNodeKind(b: Body, i: nat, n: Node)
    requires b.Table? && i < |b.nodes|
    ensures PutNode(b, i, n).Table? && PutNode(b, i, n).meta == b.meta && PutNode(b, i, n).mode == b.mode
  {
  }

  lemma OldRoots(s: Snapshot)
    requires Valid(s)
    ensures s.running in Live(s.color, s.white) && s.running in s.body && s.body[s.running].Thread?
    ensures In(s.registry, Live(s.color, s.white)) && AllIn(s.mt, Live(s.color, s.white))
  {
  }

  /** What a new object is to be. */
  datatype Template = NewString | NewTable(mode: Mode, asize: nat, nsize: nat) | NewClosure(n: nat) | NewThread(n: nat)

  function Blank(t: Template): Body {
    match t
    case NewString => Str
    case NewTable(mode, asize, nsize) => Table(Scalar, mode, seq(asize, i => Scalar), seq(nsize, i => Empty))
    case NewClosure(n) => Closure(seq(n, i => Scalar))
    case NewThread(n) => Thread(seq(n, i => Scalar))
  }

  lemma BlankWithin(t: Template)
    ensures Within(Blank(t), {})
  {
  }

  /** The steps of a run. Slots are those of the running thread. */
  datatype Op =
    | New(dst: nat, address: Ref, template: Template)
    | Move(dst: nat, src: nat)
    | Fetch(dst: nat, src: nat, field: Field)
    | Set(dst: nat, field: Field, src: nat)
    | SetEntry(dst: nat, i: nat, key: nat, src: nat)
    | ClearEntry(dst: nat, i: nat)
    | SetRegistry(src: nat)
    | SetGlobalMeta(i: nat, src: nat)
    | Resume(src: nat)
    | NeedsFinalizer(src: nat)
    | Intern(dst: nat, str: Ref)
    | FixNew
    | Collect(emergency: bool)
    | Abandon
}
