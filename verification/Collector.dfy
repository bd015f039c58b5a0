/**
 The incremental collector.
 */
module Collector {
  import opened Heap
  import opened Coloring
  import opened GcFacts
  import opened MutatorFacts

  /** Maximum number of elements swept in one step. */
  const GCSWEEPMAX: nat := 100

  class GlobalState {
    var body: Objects
    var color: Colors
    var white: bool
    var gcstate: GcState

    var gray: seq<Ref>
    var grayagain: seq<Ref>
    var weak: seq<Ref>
    var allweak: seq<Ref>
    var ephemeron: seq<Ref>
    ghost var lost: set<Ref>    // tables of `allweak` whose metatable was replaced by a white one

    var allgc: seq<Ref>
    var finobj: seq<Ref>
    var tobefnz: seq<Ref>
    var fixedgc: seq<Ref>

    var sweepgc: Cursor
    var finalized: set<Ref>

    var mainthread: Ref
    var running: Ref
    var registry: Value
    var mt: seq<Value>

    /** The heap is whole: colours and bodies cover the same objects, no
        reference leaves the heap and no object is dead. */
    ghost predicate Whole()
      reads this
    {
      WholeAt(color)
    }

    ghost predicate WholeAt(color: Colors)
      reads `body, `white
    {
      WholeHeap(body, color, white)
    }

    /** Everything that accounts for a gray object, save for the list `gray`. */
    ghost function Parked(saved: seq<Ref>): multiset<Ref>
      reads `grayagain, `weak, `allweak, `ephemeron, `fixedgc
    {
      Sum(grayagain, weak, allweak, ephemeron, saved, fixedgc)
    }

    ghost predicate TriColorAt(h: set<Ref>, parked: multiset<Ref>, color: Colors, gray: seq<Ref>)
      reads `body, `white, `fixedgc
    {
      TriColored(body, white, fixedgc, h, parked, color, gray)
    }

    /** The list `saved` stands for a gray list held in a local variable. */
    ghost predicate TriColor(saved: seq<Ref>)
      reads `body, `white, `color, `gray, `grayagain, `weak, `allweak, `ephemeron, `fixedgc
    {
      TriColorAt({}, Parked(saved), color, gray)
    }

    /** What the other gray lists hold, by phase. */
    ghost predicate ListsAt(h: set<Ref>, color: Colors)
      reads `body, `gcstate, `grayagain, `weak, `allweak, `ephemeron, `lost
    {
      if gcstate.Atomic? then
        WellParked(body, NonWhite(color), grayagain, weak, allweak, ephemeron, lost)
      else
        && weak == [] && ephemeron == [] && Waiting(body, NonWhite(color), allweak, lost)
        && (forall o :: o in color && o in body && o !in h && body[o].Thread? ==> !color[o].Black?)
    }

    ghost predicate Lists()
      reads `body, `color, `gcstate, `grayagain, `weak, `allweak, `ephemeron, `lost
    {
      ListsAt({}, color)
    }

    /** `h` has left its gray list, is black, and is about to be traversed. */
    ghost predicate Visiting(h: Ref, saved: seq<Ref>)
      reads this
    {
      && TriColorAt({h}, Parked(saved), color, gray)
      && ListsAt({h}, color)
      && h in body && h in color && color[h].Black? && h in NonWhite(color) && h !in lost
    }

    /** Marking went forward from `c0`/`g0`: nothing became white again, every
        new mark is owed to the old ones, and if nothing was marked then the
        gray list did not change. */
    ghost predicate Advanced(c0: Colors, g0: seq<Ref>)
      reads this
    {
      && NonWhite(c0) <= NonWhite(color)
      && Whites(color) <= Whites(c0)
      && (Whites(color) == Whites(c0) ==> gray == g0)
      && Justified(body, lost, NonWhite(c0), NonWhite(color))
    }

    // ----- marking one value -----

    method ReallyMarkObject(o: Ref)
      requires o in body && o in color && color[o].White?
      modifies `color, `gray
      ensures Marks(body, old(color), old(gray), color, gray)
      ensures color.Keys == old(color.Keys)
      ensures NonWhite(color) == old(NonWhite(color)) + {o}
      ensures color == old(color)[o := if body[o].Str? then Black else Gray]
      ensures gray == if body[o].Str? then old(gray) else [o] + old(gray)
    {
      if body[o].Str? {
        color := color[o := Black];
        assert Grays(color) == old(Grays(color));
      } else {
        color := color[o := Gray];
        gray := [o] + gray;
        AddToMultiset(old(Grays(color)), Grays(color), o);
      }
    }

    method MarkValue(v: Value)
      requires In(v, body.Keys) && color.Keys == body.Keys
      modifies `color, `gray
      ensures color == old(color) <==> v.Scalar? || !old(color)[v.ref].White?
      ensures Marks(body, old(color), old(gray), color, gray)
      ensures color.Keys == old(color.Keys)
      ensures NonWhite(color) == old(NonWhite(color)) + Referent(v)
      ensures IsStr(body, v) ==> gray == old(gray) && SameButStrings(body, old(color), color)
    {
      if v.Gc? && color[v.ref].White? {
        ReallyMarkObject(v.ref);
      }
    }

    /** Marks every value of a list that the closure of `h` holds. */
    method MarkValues(h: Ref, vs: seq<Value>) returns (marked: bool)
      requires color.Keys == body.Keys && AllIn(vs, body.Keys)
      requires h in body && h in NonWhite(color) && h !in lost
      requires forall X: set<Ref> :: StrongWithin(body, body[h], X) ==> AllIn(vs, X)
      modifies `color, `gray
      ensures Marks(body, old(color), old(gray), color, gray)
      ensures color.Keys == old(color.Keys)
      ensures AllIn(vs, NonWhite(color))
      ensures marked <==> old(color) != color
      ensures Justified(body, lost, old(NonWhite(color)), NonWhite(color))
    {
      hide Marks, NonWhite, StrongWithin, Justified;
      marked := false;
      MarksRefl(body, color, gray);
      JustifyRefl(body, lost, NonWhite(color));
      for i := 0 to |vs|
        invariant Marks(body, old(color), old(gray), color, gray)
        invariant color.Keys == body.Keys
        invariant AllIn(vs[..i], NonWhite(color))
        invariant marked <==> old(color) != color
        invariant Justified(body, lost, old(NonWhite(color)), NonWhite(color))
      {
        ghost var c, g := color, gray;
        marked := marked || (vs[i].Gc? && color[vs[i].ref].White?);
        MarkValue(vs[i]);
        MarksGrow(body, old(color), old(gray), c, g);
        MarksGrow(body, c, g, color, gray);
        MarksTrans(body, old(color), old(gray), c, g, color, gray);
        assert forall X: set<Ref> :: StrongWithin(body, body[h], X) ==> In(vs[i], X);
        Justify(body, lost, h, old(NonWhite(color)), NonWhite(c), vs[i]);
      }
      assert vs[..|vs|] == vs;
    }

    /** Whether a weak reference must be cleared. Strings are values: they are
        marked here and never cleared. */
    method IsCleared(v: Value) returns (b: bool)
      requires In(v, body.Keys) && color.Keys == body.Keys
      modifies `color, `gray
      ensures Marks(body, old(color), old(gray), color, gray)
      ensures color.Keys == old(color.Keys)
      ensures IsStr(body, v) ==> NonWhite(color) == old(NonWhite(color)) + Referent(v)
      ensures !IsStr(body, v) ==> color == old(color)
      ensures gray == old(gray) && SameButStrings(body, old(color), color)
      ensures b <==> !In(v, NonWhite(color))
    {
      if v.Scalar? {
        b := false;
      } else if body[v.ref].Str? {
        MarkValue(v);
        b := false;
      } else {
        b := color[v.ref].White?;
      }
    }

    lemma KeepWhole(c0: Colors, g0: seq<Ref>)
      requires Marks(body, c0, g0, color, gray) && WholeAt(c0)
      ensures Whole()
    {
    }

    // ----- scanning the slots of one object -----

    method ScanStrong(h: Ref)
      requires Whole() && h in body && body[h].Table? && body[h].mode.Strong?
      requires h in NonWhite(color) && h !in lost && In(body[h].meta, NonWhite(color))
      modifies `color, `gray
      ensures Marks(body, old(color), old(gray), color, gray)
      ensures color.Keys == old(color.Keys)
      ensures Within(body[h], NonWhite(color))
      ensures Justified(body, lost, old(NonWhite(color)), NonWhite(color))
    {
      hide Marks, Justified, NonWhite, StrongWithin, Within;
      var nodes := body[h].nodes;
      ArrayOf(h);
      var _ := MarkValues(h, body[h].arr);
      KeepWhole(old(color), old(gray));
      MarksGrow(body, old(color), old(gray), color, gray);
      for i := 0 to |nodes|
        invariant Marks(body, old(color), old(gray), color, gray)
        invariant Whole()
        invariant In(body[h].meta, NonWhite(color)) && h in NonWhite(color)
        invariant AllIn(body[h].arr, NonWhite(color))
        invariant KeysIn(nodes[..i], NonWhite(color)) && ValsIn(nodes[..i], NonWhite(color))
        invariant Justified(body, lost, old(NonWhite(color)), NonWhite(color))
      {
        hide Marks, Justified, NonWhite, StrongWithin, Within;
        if nodes[i].Entry? {
          ghost var c, g := color, gray;
          ScanStrongEntry(h, i);
          KeepWhole(c, g);
          MarksTrans(body, old(color), old(gray), c, g, color, gray);
          JustifyTrans(body, lost, old(NonWhite(color)), NonWhite(c), NonWhite(color));
        }
      }
      assert nodes[..|nodes|] == nodes;
      TableWithin(body[h], NonWhite(color));
    }

    /** One entry of a strong table. */
    method ScanStrongEntry(h: Ref, i: nat)
      requires Whole() && h in body && body[h].Table? && body[h].mode.Strong?
      requires i < |body[h].nodes| && body[h].nodes[i].Entry?
      requires h in NonWhite(color) && h !in lost
      modifies `color, `gray
      ensures Marks(body, old(color), old(gray), color, gray)
      ensures color.Keys == old(color.Keys)
      ensures old(NonWhite(color)) <= NonWhite(color)
      ensures In(body[h].nodes[i].key, NonWhite(color)) && In(body[h].nodes[i].val, NonWhite(color))
      ensures Justified(body, lost, old(NonWhite(color)), NonWhite(color))
    {
      var n := body[h].nodes[i];
      assert Within(body[h], body.Keys);
      hide Marks, Justified, NonWhite, Whole, StrongWithin;
      JustifyRefl(body, lost, NonWhite(color));
      MarkValue(n.key);
      ghost var c, g := color, gray;
      MarkValue(n.val);
      MarksTrans(body, old(color), old(gray), c, g, color, gray);
      JustifyEntry(body, lost, h, old(NonWhite(color)), old(NonWhite(color)), i);
    }

    /** The array part of a strong table is strongly referenced. */
    lemma ArrayOf(h: Ref)
      requires Whole() && h in body && body[h].Table? && body[h].mode.Strong?
      ensures AllIn(body[h].arr, body.Keys)
      ensures forall X: set<Ref> :: StrongWithin(body, body[h], X) ==> AllIn(body[h].arr, X)
    {
      assert Within(body[h], body.Keys);
    }

    method ScanWeakEntry(h: Ref, i: nat, pending: bool) returns (hasclears: bool)
      requires Whole() && h in body && body[h].Table? && body[h].mode.WeakValues?
      requires i < |body[h].nodes| && body[h].nodes[i].Entry?
      requires h in NonWhite(color) && h !in lost
      modifies `color, `gray
      ensures Marks(body, old(color), old(gray), color, gray)
      ensures color.Keys == old(color.Keys)
      ensures old(NonWhite(color)) <= NonWhite(color)
      ensures In(body[h].nodes[i].key, NonWhite(color))
      ensures pending ==> hasclears
      ensures !hasclears ==> In(body[h].nodes[i].val, NonWhite(color))
      ensures Justified(body, lost, old(NonWhite(color)), NonWhite(color))
    {
      var n := body[h].nodes[i];
      assert Within(body[h], body.Keys);
      hide Marks, Justified, NonWhite, Whole, StrongWithin;
      JustifyRefl(body, lost, NonWhite(color));
      hasclears := pending;
      MarkValue(n.key);
      JustifyEntry(body, lost, h, old(NonWhite(color)), old(NonWhite(color)), i);
      if !hasclears {
        ghost var c, g := color, gray;
        hasclears := IsCleared(n.val);
        MarksTrans(body, old(color), old(gray), c, g, color, gray);
        JustifyEntry(body, lost, h, old(NonWhite(color)), NonWhite(c), i);
      }
    }

    method ScanWeakValues(h: Ref) returns (hasclears: bool)
      requires Whole() && h in body && body[h].Table? && body[h].mode.WeakValues?
      requires h in NonWhite(color) && h !in lost && In(body[h].meta, NonWhite(color))
      modifies `color, `gray
      ensures Marks(body, old(color), old(gray), color, gray)
      ensures color.Keys == old(color.Keys)
      ensures ParkedWeak(body[h], NonWhite(color))
      ensures !hasclears ==> Within(body[h], NonWhite(color))
      ensures Justified(body, lost, old(NonWhite(color)), NonWhite(color))
    {
      hide Marks, Justified, NonWhite, StrongWithin, Within;
      MarksRefl(body, color, gray);
      JustifyRefl(body, lost, NonWhite(color));
      var nodes := body[h].nodes;
      hasclears := |body[h].arr| > 0;
      for i := 0 to |nodes|
        invariant |body[h].arr| > 0 ==> hasclears
        invariant Marks(body, old(color), old(gray), color, gray)
        invariant Whole()
        invariant In(body[h].meta, NonWhite(color)) && h in NonWhite(color)
        invariant KeysIn(nodes[..i], NonWhite(color))
        invariant !hasclears ==> ValsIn(nodes[..i], NonWhite(color))
        invariant Justified(body, lost, old(NonWhite(color)), NonWhite(color))
      {
        hide Marks, Justified, NonWhite, StrongWithin, Within;
        if nodes[i].Entry? {
          ghost var c, g := color, gray;
          hasclears := ScanWeakEntry(h, i, hasclears);
          KeepWhole(c, g);
          MarksTrans(body, old(color), old(gray), c, g, color, gray);
          JustifyTrans(body, lost, old(NonWhite(color)), NonWhite(c), NonWhite(color));
        }
      }
      assert nodes[..|nodes|] == nodes;
      TableWithin(body[h], NonWhite(color));
    }

    /** One entry of an ephemeron table: mark the value if the key is marked. */
    method ScanEphemeronEntry(h: Ref, i: nat) returns (marked: bool, hasclears: bool, hasww: bool)
      requires Whole() && h in body && body[h].Table? && body[h].mode.Ephemeron?
      requires i < |body[h].nodes| && body[h].nodes[i].Entry?
      requires h in NonWhite(color) && h !in lost
      modifies `color, `gray
      ensures Marks(body, old(color), old(gray), color, gray)
      ensures color.Keys == old(color.Keys)
      ensures old(NonWhite(color)) <= NonWhite(color)
      ensures hasclears <==> !In(body[h].nodes[i].key, NonWhite(color))
      ensures hasww ==> hasclears
      ensures !hasww ==> In(body[h].nodes[i].val, NonWhite(color))
      ensures IsStr(body, body[h].nodes[i].key) ==> !hasclears
      ensures marked ==> color != old(color)
      ensures !marked ==> Quiet(body, old(NonWhite(color)), NonWhite(color))
      ensures Justified(body, lost, old(NonWhite(color)), NonWhite(color))
    {
      var n := body[h].nodes[i];
      assert Within(body[h], body.Keys) && color.Keys == body.Keys;
      hide Marks, Justified, Whole, StrongWithin;
      JustifyRefl(body, lost, NonWhite(color));
      marked, hasww := false, false;
      JustifyEphemeron(body, lost, h, NonWhite(color), NonWhite(color), i);
      hasclears := IsCleared(n.key);
      if hasclears {
        hasww := n.val.Gc? && color[n.val.ref].White?;
      } else if n.val.Gc? && color[n.val.ref].White? {
        ghost var c, g := color, gray;
        marked := true;
        assert n.val.ref !in old(NonWhite(color));
        JustifyEphemeron(body, lost, h, old(NonWhite(color)), NonWhite(color), i);
        ReallyMarkObject(n.val.ref);
        MarksTrans(body, old(color), old(gray), c, g, color, gray);
      }
    }

    /** Scans the hash part of an ephemeron table in either direction. */
    method ScanNodes(h: Ref, inv: bool) returns (marked: bool, hasclears: bool, hasww: bool)
      requires Whole() && h in body && body[h].Table? && body[h].mode.Ephemeron?
      requires h in NonWhite(color) && h !in lost
      modifies `color, `gray
      ensures Marks(body, old(color), old(gray), color, gray)
      ensures color.Keys == old(color.Keys)
      ensures old(NonWhite(color)) <= NonWhite(color)
      ensures Scanned(body, body[h].nodes, inv, |body[h].nodes|, NonWhite(color), marked, hasclears, hasww)
      ensures marked ==> old(color) != color
      ensures !marked ==> Quiet(body, old(NonWhite(color)), NonWhite(color))
      ensures Justified(body, lost, old(NonWhite(color)), NonWhite(color))
    {
      hide Marks, Justified, NonWhite, StrongWithin, Within, Quiet;
      MarksRefl(body, color, gray);
      JustifyRefl(body, lost, NonWhite(color));
      QuietRefl(body, NonWhite(color));
      marked, hasclears, hasww := false, false, false;
      var nsize := |body[h].nodes|;
      for i := 0 to nsize
        invariant Marks(body, old(color), old(gray), color, gray)
        invariant Whole()
        invariant old(NonWhite(color)) <= NonWhite(color)
        invariant Scanned(body, body[h].nodes, inv, i, NonWhite(color), marked, hasclears, hasww)
        invariant marked ==> old(color) != color
        invariant !marked ==> Quiet(body, old(NonWhite(color)), NonWhite(color))
        invariant Justified(body, lost, old(NonWhite(color)), NonWhite(color))
      {
        hide Scanned, Seen;
        var k := if inv then nsize - 1 - i else i;
        ghost var c, g, m0, c0, w0 := color, gray, marked, hasclears, hasww;
        QuietRefl(body, NonWhite(c));
        if body[h].nodes[k].Entry? {
          var m, hc, ww := ScanEphemeronEntry(h, k);
          KeepWhole(c, g);
          marked, hasclears, hasww := marked || m, hasclears || hc, hasww || ww;
          MarksTrans(body, old(color), old(gray), c, g, color, gray);
          MarksGrow(body, old(color), old(gray), c, g);
          MarksGrow(body, c, g, color, gray);
          JustifyTrans(body, lost, old(NonWhite(color)), NonWhite(c), NonWhite(color));
          if !marked {
            QuietTrans(body, old(NonWhite(color)), NonWhite(c), NonWhite(color));
          }
        }
        ScanNext(body, body[h].nodes, inv, i, NonWhite(c), NonWhite(color), m0, c0, w0, marked, hasclears, hasww);
      }
    }

    /** Scans an ephemeron table. A scan counts as marked work only if a value
        was marked; string keys are marked on sight. */
    method ScanEphemeron(h: Ref, inv: bool) returns (marked: bool, hasclears: bool, hasww: bool)
      requires Whole() && h in body && body[h].Table? && body[h].mode.Ephemeron?
      requires h in NonWhite(color) && h !in lost && In(body[h].meta, NonWhite(color))
      modifies `color, `gray
      ensures Marks(body, old(color), old(gray), color, gray)
      ensures color.Keys == old(color.Keys)
      ensures ParkedEphemeron(body[h], NonWhite(color))
      ensures !hasww ==> ParkedAllweak(body[h], NonWhite(color))
      ensures !hasww && !hasclears ==> Within(body[h], NonWhite(color))
      ensures marked ==> old(color) != color
      ensures !marked ==> Quiet(body, old(NonWhite(color)), NonWhite(color))
      ensures !marked ==> Converged(body, body[h], NonWhite(color))
      ensures Justified(body, lost, old(NonWhite(color)), NonWhite(color))
    {
      assert Within(body[h], body.Keys) && AllIn(body[h].arr, body.Keys);
      assert forall X: set<Ref> :: StrongWithin(body, body[h], X) ==> AllIn(body[h].arr, X);
      hide Marks, Justified, NonWhite, StrongWithin;
      var m := MarkValues(h, body[h].arr);
      ghost var c, g := color, gray;
      MarksGrow(body, old(color), old(gray), c, g);
      KeepWhole(old(color), old(gray));
      marked, hasclears, hasww := ScanNodes(h, inv);
      marked := marked || m;
      MarksTrans(body, old(color), old(gray), c, g, color, gray);
      MarksGrow(body, c, g, color, gray);
      JustifyTrans(body, lost, old(NonWhite(color)), NonWhite(c), NonWhite(color));
      ParkedMono(body[h], NonWhite(c), NonWhite(color));
      ScanEnd(body, body[h], inv, NonWhite(color), marked, hasclears, hasww);
    }

    // ----- traversing one gray object -----

    /** Marks made while `h` was visited keep everything but `h` itself in
        order. */
    lemma Settle(h: set<Ref>, saved: seq<Ref>, c0: Colors, g0: seq<Ref>)
      requires TriColorAt(h, Parked(saved), c0, g0) && ListsAt(h, c0)
      requires Marks(body, c0, g0, color, gray)
      ensures TriColorAt(h, Parked(saved), color, gray) && ListsAt(h, color) && Whole()
      ensures NonWhite(c0) <= NonWhite(color) && Whites(color) <= Whites(c0)
      ensures Whites(color) == Whites(c0) ==> gray == g0
      ensures forall o :: o in c0 && !c0[o].White? ==> o in color && color[o] == c0[o]
    {
      MarksGrow(body, c0, g0, color, gray);
      Absorb(multiset(g0), multiset(gray), multiset(Grays(c0)), multiset(Grays(color)), Parked(saved));
      KeepWhole(c0, g0);
      KeepLists(h, c0, g0);
      forall o | o in color && o !in h && color[o].Black? ensures Within(body[o], NonWhite(color)) {
        if c0[o].Black? {
          WithinMono(body[o], NonWhite(c0), NonWhite(color));
        }
      }
    }

    lemma KeepLists(h: set<Ref>, c0: Colors, g0: seq<Ref>)
      requires Marks(body, c0, g0, color, gray) && c0.Keys == body.Keys
      requires ListsAt(h, c0)
      ensures ListsAt(h, color)
    {
      MarksGrow(body, c0, g0, color, gray);
      if gcstate.Atomic? {
        var S, T := NonWhite(c0), NonWhite(color);
        hide NonWhite, Marks, Within, ParkedWeak, ParkedEphemeron, ParkedAllweak, FullyWeak;
        forall o | o in grayagain ensures o in body && Within(body[o], T) {
          WithinMono(body[o], S, T);
        }
        forall o | o in body
          ensures ParkedWeak(body[o], S) ==> ParkedWeak(body[o], T)
          ensures ParkedEphemeron(body[o], S) ==> ParkedEphemeron(body[o], T)
          ensures ParkedAllweak(body[o], S) ==> ParkedAllweak(body[o], T)
          ensures forall r :: FullyWeak(body[o], S, r) ==> FullyWeak(body[o], T, r)
        {
          ParkedMono(body[o], S, T);
        }
      } else {
        WaitingMono(body, NonWhite(c0), NonWhite(color), allweak, lost);
      }
    }

    /** The visited object turned out to point to no white object. */
    lemma Arrive(h: Ref, saved: seq<Ref>)
      requires TriColorAt({h}, Parked(saved), color, gray) && ListsAt({h}, color)
      requires h in body && Within(body[h], NonWhite(color))
      requires gcstate.Atomic? || !body[h].Thread?
      ensures TriColor(saved) && Lists()
    {
      hide Within, NonWhite, Grays, Sum, ParkedWeak, ParkedEphemeron, ParkedAllweak, FullyWeak;
    }

    lemma TriKeys(saved: seq<Ref>)
      requires TriColor(saved)
      ensures Whole() && color.Keys == body.Keys
    {
    }

    lemma Start(h: Ref, saved: seq<Ref>)
      requires Visiting(h, saved)
      ensures Whole() && Within(body[h], body.Keys) && color.Keys == body.Keys
    {
    }

    lemma Linked(h: Ref, parked: multiset<Ref>, c0: Colors)
      requires TriColorAt({h}, parked, c0, gray)
      requires h in c0 && h in body && c0[h].Black? && !body[h].Str? && color == c0[h := Gray]
      ensures TriColorAt({}, parked + multiset{h}, color, gray)
      ensures NonWhite(color) == NonWhite(c0) && Whites(color) == Whites(c0)
    {
      hide Within, NonWhite, Grays, Whites;
      PaintGray(c0, color, h);
      assert multiset(gray) + (parked + multiset{h}) == (multiset(gray) + parked) + multiset{h};
    }

    method LinkGrayagain(h: Ref, ghost saved: seq<Ref>)
      requires Visiting(h, saved) && !body[h].Str?
      requires gcstate.Atomic? ==> Within(body[h], NonWhite(color))
      modifies `color, `grayagain
      ensures TriColor(saved) && Lists()
      ensures color == old(color)[h := Gray] && grayagain == [h] + old(grayagain)
      ensures NonWhite(color) == old(NonWhite(color)) && Whites(color) == old(Whites(color))
    {
      hide Within, ParkedWeak, ParkedEphemeron, ParkedAllweak, FullyWeak, NonWhite, Whites, Grays, Sum, TriColored;
      color := color[h := Gray];
      grayagain := [h] + grayagain;
      Linked(h, old(Parked(saved)), old(color));
      SumPush(h, old(grayagain), old(weak), old(allweak), old(ephemeron), saved, fixedgc);
    }

    method LinkWeak(h: Ref, ghost saved: seq<Ref>)
      requires Visiting(h, saved) && !body[h].Str?
      requires gcstate.Atomic? && ParkedWeak(body[h], NonWhite(color))
      modifies `color, `weak
      ensures TriColor(saved) && Lists()
      ensures color == old(color)[h := Gray] && weak == [h] + old(weak)
      ensures NonWhite(color) == old(NonWhite(color)) && Whites(color) == old(Whites(color))
    {
      hide Within, ParkedWeak, ParkedEphemeron, ParkedAllweak, FullyWeak, NonWhite, Whites, Grays, Sum, TriColored;
      color := color[h := Gray];
      weak := [h] + weak;
      Linked(h, old(Parked(saved)), old(color));
      SumPush(h, old(grayagain), old(weak), old(allweak), old(ephemeron), saved, fixedgc);
    }

    method LinkAllweak(h: Ref, ghost saved: seq<Ref>)
      requires Visiting(h, saved) && !body[h].Str?
      requires (gcstate.Atomic? && ParkedAllweak(body[h], NonWhite(color))) || FullyWeak(body[h], NonWhite(color), false)
      modifies `color, `allweak
      ensures TriColor(saved) && Lists()
      ensures color == old(color)[h := Gray] && allweak == [h] + old(allweak)
      ensures NonWhite(color) == old(NonWhite(color)) && Whites(color) == old(Whites(color))
    {
      hide Within, ParkedWeak, ParkedEphemeron, ParkedAllweak, FullyWeak, NonWhite, Whites, Grays, Sum, TriColored;
      color := color[h := Gray];
      allweak := [h] + allweak;
      Linked(h, old(Parked(saved)), old(color));
      SumPush(h, old(grayagain), old(weak), old(allweak), old(ephemeron), saved, fixedgc);
    }

    method LinkEphemeron(h: Ref, ghost saved: seq<Ref>)
      requires Visiting(h, saved) && !body[h].Str?
      requires gcstate.Atomic? && ParkedEphemeron(body[h], NonWhite(color))
      modifies `color, `ephemeron
      ensures TriColor(saved) && Lists()
      ensures color == old(color)[h := Gray] && ephemeron == [h] + old(ephemeron)
      ensures NonWhite(color) == old(NonWhite(color)) && Whites(color) == old(Whites(color))
    {
      hide Within, ParkedWeak, ParkedEphemeron, ParkedAllweak, FullyWeak, NonWhite, Whites, Grays, Sum, TriColored;
      color := color[h := Gray];
      ephemeron := [h] + ephemeron;
      Linked(h, old(Parked(saved)), old(color));
      SumPush(h, old(grayagain), old(weak), old(allweak), old(ephemeron), saved, fixedgc);
    }

    method TraverseWeakValue(h: Ref, ghost saved: seq<Ref>)
      requires Visiting(h, saved)
      requires body[h].Table? && body[h].mode.WeakValues? && In(body[h].meta, NonWhite(color))
      requires gcstate.Propagate? || gcstate.Atomic?
      modifies `color, `gray, `grayagain, `weak
      ensures TriColor(saved) && Lists() && Advanced(old(color), old(gray))
      ensures Extends(old(weak), weak)
    {
      hide Within, ParkedWeak, ParkedEphemeron, ParkedAllweak, FullyWeak, NonWhite, Whites, Grays, Sum, Marks, Justified, StrongWithin, TriColored, WellParked, Waiting, WholeHeap;
      Start(h, saved);
      var hasclears := ScanWeakValues(h);
      Settle({h}, saved, old(color), old(gray));
      if gcstate.Atomic? && hasclears {
        LinkWeak(h, saved);
      } else {
        LinkGrayagain(h, saved);
      }
    }

    method TraverseEphemeron(h: Ref, inv: bool, ghost saved: seq<Ref>) returns (marked: bool)
      requires Visiting(h, saved)
      requires body[h].Table? && body[h].mode.Ephemeron? && In(body[h].meta, NonWhite(color))
      requires gcstate.Propagate? || gcstate.Atomic?
      modifies `color, `gray, `grayagain, `ephemeron, `allweak
      ensures TriColor(saved) && Lists() && Advanced(old(color), old(gray))
      ensures marked ==> Whites(color) < old(Whites(color))
      ensures !marked ==> Quiet(body, old(NonWhite(color)), NonWhite(color)) && Converged(body, body[h], NonWhite(color))
      ensures !marked && old(gray) == [] ==> gray == []
      ensures Extends(old(allweak), allweak)
      ensures gcstate.Atomic? ==> ephemeron == old(ephemeron) || ephemeron == [h] + old(ephemeron)
    {
      hide Within, ParkedWeak, ParkedEphemeron, ParkedAllweak, FullyWeak, NonWhite, Whites, Grays, Sum, Marks, Justified, StrongWithin, TriColored, WellParked, Waiting, WholeHeap, Quiet, Converged;
      Start(h, saved);
      var hasclears, hasww;
      marked, hasclears, hasww := ScanEphemeron(h, inv);
      if !marked {
        QuietGray(body, old(color), old(gray), color, gray);
      }
      MarksGrow(body, old(color), old(gray), color, gray);
      Settle({h}, saved, old(color), old(gray));
      if gcstate.Propagate? {
        LinkGrayagain(h, saved);
      } else if hasww {
        LinkEphemeron(h, saved);
      } else if hasclears {
        LinkAllweak(h, saved);
      } else {
        Arrive(h, saved);
      }
    }

    method TraverseTable(h: Ref, ghost saved: seq<Ref>)
      requires Visiting(h, saved) && body[h].Table?
      requires gcstate.Propagate? || gcstate.Atomic?
      modifies `color, `gray, `grayagain, `weak, `ephemeron, `allweak
      ensures TriColor(saved) && Lists() && Advanced(old(color), old(gray))
      ensures Extends(old(weak), weak) && Extends(old(allweak), allweak)
    {
      hide Within, ParkedWeak, ParkedEphemeron, ParkedAllweak, FullyWeak, NonWhite, Whites, Grays, Sum, Marks, Justified, StrongWithin, TriColored, WellParked, Waiting, WholeHeap;
      Start(h, saved);
      MarkMeta(h);
      ghost var c, g := color, gray;
      Settle({h}, saved, old(color), old(gray));
      match body[h].mode {
        case WeakValues =>
          TraverseWeakValue(h, saved);
        case Ephemeron =>
          var _ := TraverseEphemeron(h, false, saved);
        case AllWeak =>
          NowFullyWeak(body[h], NonWhite(color));
          LinkAllweak(h, saved);
          JustifyRefl(body, lost, NonWhite(color));
        case Strong =>
          ScanStrong(h);
          Settle({h}, saved, c, g);
          Arrive(h, saved);
      }
      JustifyTrans(body, lost, old(NonWhite(color)), NonWhite(c), NonWhite(color));
    }

    method MarkMeta(h: Ref)
      requires Whole() && h in body && body[h].Table? && h in NonWhite(color) && h !in lost
      modifies `color, `gray
      ensures Marks(body, old(color), old(gray), color, gray)
      ensures In(body[h].meta, NonWhite(color))
      ensures Justified(body, lost, old(NonWhite(color)), NonWhite(color))
    {
      assert Within(body[h], body.Keys);
      assert forall X: set<Ref> :: StrongWithin(body, body[h], X) ==> In(body[h].meta, X);
      hide Whole, Marks, Within, StrongWithin, Justified;
      JustifyRefl(body, lost, NonWhite(color));
      Justify(body, lost, h, NonWhite(color), NonWhite(color), body[h].meta);
      MarkValue(body[h].meta);
    }

    method TraverseClosure(h: Ref, ghost saved: seq<Ref>)
      requires Visiting(h, saved) && body[h].Closure?
      modifies `color, `gray
      ensures TriColor(saved) && Lists() && Advanced(old(color), old(gray))
    {
      hide Within, ParkedWeak, ParkedEphemeron, ParkedAllweak, FullyWeak, NonWhite, Whites, Grays, Sum, Marks, Justified, StrongWithin, TriColored, WellParked, Waiting, WholeHeap, AllIn;
      Start(h, saved);
      ListBody(body, body[h], body[h].upvalues);
      var _ := MarkValues(h, body[h].upvalues);
      Settle({h}, saved, old(color), old(gray));
      Arrive(h, saved);
    }

    method TraverseThread(h: Ref, ghost saved: seq<Ref>)
      requires Visiting(h, saved) && body[h].Thread?
      requires gcstate.Propagate? || gcstate.Atomic?
      modifies `color, `gray, `grayagain
      ensures TriColor(saved) && Lists() && Advanced(old(color), old(gray))
    {
      hide Within, ParkedWeak, ParkedEphemeron, ParkedAllweak, FullyWeak, NonWhite, Whites, Grays, Sum, Marks, Justified, StrongWithin, TriColored, WellParked, Waiting, WholeHeap, AllIn;
      Start(h, saved);
      ListBody(body, body[h], body[h].stack);
      if gcstate.Propagate? {
        LinkGrayagain(h, saved);
        TriKeys(saved);
        ghost var c, g := color, gray;
        var _ := MarkValues(h, body[h].stack);
        Settle({}, saved, c, g);
      } else {
        var _ := MarkValues(h, body[h].stack);
        Settle({h}, saved, old(color), old(gray));
        Arrive(h, saved);
      }
    }

    /** The first gray object becomes the one being visited. */
    lemma Popped(saved: seq<Ref>, c0: Colors, g0: seq<Ref>)
      requires TriColorAt({}, Parked(saved), c0, g0) && ListsAt({}, c0)
      requires g0 != [] && g0[0] in c0 && color == c0[g0[0] := Black] && gray == g0[1..]
      ensures Visiting(g0[0], saved)
      ensures !body[g0[0]].Str?
      ensures NonWhite(color) == NonWhite(c0) && Whites(color) == Whites(c0)
    {
      hide Within, ParkedWeak, ParkedEphemeron, ParkedAllweak, FullyWeak, Sum;
      Pop(g0, c0, color, Parked(saved));
      InSum(grayagain, weak, allweak, ephemeron, saved, fixedgc, g0[0]);
    }

    lemma GrayHead(saved: seq<Ref>)
      requires TriColor(saved) && gray != []
      ensures gray[0] in color && gray[0] in body
    {
      assert gray[0] in multiset(gray) + Parked(saved);
    }

    /** Takes the first object from the gray list; it is the one being visited now. */
    method TakeGray(ghost saved: seq<Ref>) returns (o: Ref)
      requires TriColor(saved) && Lists() && gray != []
      modifies `color, `gray
      ensures Visiting(o, saved) && !body[o].Str?
      ensures gray == old(gray)[1..] && NonWhite(color) == old(NonWhite(color)) && Whites(color) == old(Whites(color))
    {
      hide Within, ParkedWeak, ParkedEphemeron, ParkedAllweak, FullyWeak, NonWhite, Whites, Grays, Sum, TriColored, WellParked, Waiting, WholeHeap, Visiting;
      GrayHead(saved);
      o := gray[0];
      color := color[o := Black];
      gray := gray[1..];
      Popped(saved, old(color), old(gray));
    }

    /** Visits an object by its kind. */
    method Visit(o: Ref, ghost saved: seq<Ref>)
      requires Visiting(o, saved) && !body[o].Str? && (gcstate.Propagate? || gcstate.Atomic?)
      modifies `color, `gray, `grayagain, `weak, `ephemeron, `allweak
      ensures TriColor(saved) && Lists() && Advanced(old(color), old(gray))
      ensures Extends(old(weak), weak) && Extends(old(allweak), allweak)
    {
      hide TriColor, TriColorAt, Lists, ListsAt, Advanced, Extends, NonWhite;
      ExtendsRefl(weak);
      ExtendsRefl(allweak);
      match body[o] {
        case Table(_, _, _, _) => TraverseTable(o, saved);
        case Closure(_) => TraverseClosure(o, saved);
        case Thread(_) => TraverseThread(o, saved);
      }
    }

    /** Each visit makes progress: fewer white objects, or a shorter gray list. */
    lemma Progress(c: Colors, g: seq<Ref>, g0: seq<Ref>)
      requires Advanced(c, g) && g0 != [] && g == g0[1..]
      ensures NonWhite(c) <= NonWhite(color) && Justified(body, lost, NonWhite(c), NonWhite(color))
      ensures Whites(color) < Whites(c) || (Whites(color) == Whites(c) && |gray| < |g0|)
    {
      hide NonWhite, Whites, Justified;
    }

    /** Traverses one gray object, turning it black unless it has to be seen
        again. */
    method PropagateMark(ghost saved: seq<Ref>)
      requires TriColor(saved) && Lists() && gray != []
      requires gcstate.Propagate? || gcstate.Atomic?
      modifies `color, `gray, `grayagain, `weak, `ephemeron, `allweak
      ensures TriColor(saved) && Lists()
      ensures Extends(old(weak), weak) && Extends(old(allweak), allweak)
      ensures old(NonWhite(color)) <= NonWhite(color)
      ensures Whites(color) < old(Whites(color)) || (Whites(color) == old(Whites(color)) && |gray| < old(|gray|))
      ensures Justified(body, lost, old(NonWhite(color)), NonWhite(color))
    {
      hide *;
      var o := TakeGray(saved);
      ghost var c, g := color, gray;
      Visit(o, saved);
      Progress(c, g, old(gray));
    }

    method PropagateAll(ghost saved: seq<Ref>)
      requires TriColor(saved) && Lists() && gcstate.Atomic?
      modifies `color, `gray, `grayagain, `weak, `ephemeron, `allweak
      ensures TriColor(saved) && Lists() && gray == []
      ensures Extends(old(weak), weak) && Extends(old(allweak), allweak)
      ensures old(NonWhite(color)) <= NonWhite(color) && Whites(color) <= old(Whites(color))
      ensures Justified(body, lost, old(NonWhite(color)), NonWhite(color))
    {
      hide Within, ParkedWeak, ParkedEphemeron, ParkedAllweak, FullyWeak, NonWhite, Whites, Grays, Sum, Marks, Justified, StrongWithin, TriColored, WellParked, Waiting, WholeHeap;
      JustifyRefl(body, lost, NonWhite(color));
      while gray != []
        invariant TriColor(saved) && Lists()
        invariant Extends(old(weak), weak) && Extends(old(allweak), allweak)
        invariant old(NonWhite(color)) <= NonWhite(color) && Whites(color) <= old(Whites(color))
        invariant Justified(body, lost, old(NonWhite(color)), NonWhite(color))
        decreases Whites(color), |gray|
      {
        ghost var c, w, a := color, weak, allweak;
        PropagateMark(saved);
        ExtendsTrans(old(weak), w, weak);
        ExtendsTrans(old(allweak), a, allweak);
        JustifyTrans(body, lost, old(NonWhite(color)), NonWhite(c), NonWhite(color));
      }
    }

    // ----- ephemeron convergence -----

    ghost predicate AllParkedEphemeron(l: seq<Ref>)
      reads `body, `color
    {
      forall o :: o in l ==> o in body && ParkedEphemeron(body[o], NonWhite(color))
    }

    ghost predicate AllConverged()
      reads `body, `color, `ephemeron
    {
      forall o :: o in ephemeron ==> o in body && body[o].Table? && Converged(body, body[o], NonWhite(color))
    }

    /** The first table of the detached list becomes the one being visited. */
    lemma Taken(next: seq<Ref>, c0: Colors)
      requires TriColorAt({}, Parked(next), c0, gray) && ListsAt({}, c0)
      requires next != [] && next[0] in c0 && color == c0[next[0] := Black]
      ensures Visiting(next[0], next[1..])
      ensures NonWhite(color) == NonWhite(c0) && Whites(color) == Whites(c0)
    {
      hide Within, ParkedWeak, ParkedEphemeron, ParkedAllweak, FullyWeak, Sum;
      var h, rest := next[0], Parked(next[1..]);
      assert next == [h] + next[1..];
      SumPush(h, grayagain, weak, allweak, ephemeron, next[1..], fixedgc);
      var l := [h] + gray;
      assert multiset(l) + rest == multiset(Grays(c0)) by {
        assert multiset(l) + rest == multiset(gray) + (rest + multiset{h});
      }
      Pop(l, c0, color, rest);
      InSum(grayagain, weak, allweak, ephemeron, next[1..], fixedgc, h);
      assert l[1..] == gray;
    }

    lemma KeepEphemerons(l: seq<Ref>, c0: Colors)
      requires forall o :: o in l ==> o in body && ParkedEphemeron(body[o], NonWhite(c0))
      requires NonWhite(c0) <= NonWhite(color)
      ensures AllParkedEphemeron(l)
    {
      hide ParkedEphemeron, NonWhite;
      forall o | o in l ensures o in body && ParkedEphemeron(body[o], NonWhite(color)) {
        ParkedMono(body[o], NonWhite(c0), NonWhite(color));
      }
    }

    lemma KeepConverged(l: seq<Ref>, c0: Colors)
      requires forall o :: o in l ==> o in body && body[o].Table? && Converged(body, body[o], NonWhite(c0))
      requires NonWhite(c0) <= NonWhite(color) && Quiet(body, NonWhite(c0), NonWhite(color))
      ensures forall o :: o in l ==> o in body && body[o].Table? && Converged(body, body[o], NonWhite(color))
    {
      hide Converged, NonWhite, Quiet;
      forall o | o in l ensures o in body && body[o].Table? && Converged(body, body[o], NonWhite(color)) {
        ConvergedMono(body, body[o], NonWhite(c0), NonWhite(color));
      }
    }

    /** Traverses the first of the detached ephemeron tables. */
    method ConvergeStep(next: seq<Ref>, dir: bool) returns (marked: bool)
      requires TriColor(next) && Lists() && gcstate.Atomic? && gray == []
      requires next != [] && AllParkedEphemeron(next)
      modifies `color, `gray, `grayagain, `weak, `ephemeron, `allweak
      ensures TriColor(next[1..]) && Lists() && gray == []
      ensures AllParkedEphemeron(next[1..])
      ensures Extends(old(weak), weak) && Extends(old(allweak), allweak)
      ensures old(NonWhite(color)) <= NonWhite(color) && Whites(color) <= old(Whites(color))
      ensures marked ==> Whites(color) < old(Whites(color))
      ensures !marked && old(AllConverged()) ==> AllConverged()
      ensures Justified(body, lost, old(NonWhite(color)), NonWhite(color))
    {
      hide Within, ParkedWeak, ParkedEphemeron, ParkedAllweak, FullyWeak, NonWhite, Whites, Grays, Sum, Marks, Justified, StrongWithin, TriColored, WellParked, Waiting, WholeHeap, Quiet, Converged;
      var h := next[0];
      TriKeys(next);
      color := color[h := Black];
      Taken(next, old(color));
      EphemeronFacts(body[h], NonWhite(color));
      marked := TraverseEphemeron(h, dir, next[1..]);
      if !marked && old(AllConverged()) {
        KeepConverged(old(ephemeron), old(color));
      }
      if marked {
        ghost var c, a := color, allweak;
        PropagateAll(next[1..]);
        ExtendsTrans(old(allweak), a, allweak);
        JustifyTrans(body, lost, old(NonWhite(color)), NonWhite(c), NonWhite(color));
      }
      KeepEphemerons(next[1..], old(color));
    }

    /** Traverses the detached ephemeron tables once. Unless a value was marked
        on the way, all tables that went back to the list have converged. */
    method ConvergePass(dir: bool) returns (changed: bool)
      requires TriColor([]) && Lists() && gcstate.Atomic? && gray == []
      modifies `color, `gray, `grayagain, `weak, `ephemeron, `allweak
      ensures TriColor([]) && Lists() && gray == []
      ensures Extends(old(weak), weak) && Extends(old(allweak), allweak)
      ensures old(NonWhite(color)) <= NonWhite(color) && Whites(color) <= old(Whites(color))
      ensures changed ==> Whites(color) < old(Whites(color))
      ensures !changed ==> AllConverged()
      ensures Justified(body, lost, old(NonWhite(color)), NonWhite(color))
    {
      hide Within, ParkedWeak, ParkedEphemeron, ParkedAllweak, FullyWeak, NonWhite, Whites, Grays, Sum, Marks, Justified, StrongWithin, TriColored, WellParked, Waiting, WholeHeap, Quiet, Converged, Extends;
      var next := DetachEphemerons();
      ExtendsRefl(weak);
      ExtendsRefl(allweak);
      changed := false;
      JustifyRefl(body, lost, NonWhite(color));
      while next != []
        invariant TriColor(next) && Lists() && gray == []
        invariant AllParkedEphemeron(next)
        invariant Extends(old(weak), weak) && Extends(old(allweak), allweak)
        invariant old(NonWhite(color)) <= NonWhite(color) && Whites(color) <= old(Whites(color))
        invariant changed ==> Whites(color) < old(Whites(color))
        invariant !changed ==> AllConverged()
        invariant Justified(body, lost, old(NonWhite(color)), NonWhite(color))
      {
        hide Within, ParkedWeak, ParkedEphemeron, ParkedAllweak, FullyWeak, NonWhite, Whites, Grays, Sum, Marks, Justified, StrongWithin, TriColored, WellParked, Waiting, WholeHeap, Quiet, Converged, Extends;
        ghost var c, w, a := color, weak, allweak;
        var marked := ConvergeStep(next, dir);
        next := next[1..];
        changed := changed || marked;
        ExtendsTrans(old(weak), w, weak);
        ExtendsTrans(old(allweak), a, allweak);
        JustifyTrans(body, lost, old(NonWhite(color)), NonWhite(c), NonWhite(color));
      }
    }

    method DetachEphemerons() returns (l: seq<Ref>)
      requires TriColor([]) && Lists() && gcstate.Atomic?
      modifies `ephemeron
      ensures ephemeron == [] && l == old(ephemeron)
      ensures TriColor(l) && Lists() && AllParkedEphemeron(l)
    {
      hide Sum, Within, NonWhite, Grays, ParkedWeak, ParkedAllweak, ParkedEphemeron, FullyWeak;
      l := ephemeron;
      ephemeron := [];
      Detach(grayagain, weak, allweak, l, fixedgc);
    }

    lemma InSomeList(saved: seq<Ref>, o: Ref)
      requires TriColor(saved) && o in color && color[o].Gray?
      ensures o in gray || o in grayagain || o in weak || o in allweak || o in ephemeron || o in saved || o in fixedgc
    {
      assert o in multiset(Grays(color));
      assert o in multiset(gray) + Parked(saved);
    }

    /** Once converged, the marked objects and the strings are closed. */
    lemma Fixpoint()
      requires TriColor([]) && Lists() && gcstate.Atomic? && gray == [] && AllConverged()
      requires forall o :: o in fixedgc ==> o in body && body[o].Str?
      ensures StrongClosed(body, lost, NonWhite(color) + Strings(body))
    {
      var S := NonWhite(color);
      var X := S + Strings(body);
      hide Sum;
      forall o | o in X && o in body && o !in lost ensures StrongWithin(body, body[o], X) {
        if o in S {
          if color[o].Gray? {
            InSomeList([], o);
          }
          StrongClosure(body, body[o], S);
        }
      }
    }

    /** Traverses all ephemeron tables until a pass marks no value. Apart from
        strings, exactly the closure of the marked objects is then marked. */
    method ConvergeEphemerons()
      requires TriColor([]) && Lists() && gcstate.Atomic? && gray == []
      requires forall o :: o in fixedgc ==> o in body && body[o].Str?
      modifies `color, `gray, `grayagain, `weak, `ephemeron, `allweak
      ensures TriColor([]) && Lists() && gray == []
      ensures Extends(old(weak), weak) && Extends(old(allweak), allweak)
      ensures old(NonWhite(color)) <= NonWhite(color) && Whites(color) <= old(Whites(color))
      ensures AllConverged()
      ensures Justified(body, lost, old(NonWhite(color)), NonWhite(color))
      ensures forall o :: o in body && !body[o].Str? ==> (o in NonWhite(color) <==> InLeast(body, lost, old(NonWhite(color)), o))
    {
      hide Within, ParkedWeak, ParkedEphemeron, ParkedAllweak, FullyWeak, NonWhite, Whites, Grays, Sum, Marks, Justified, StrongWithin, TriColored, WellParked, Waiting, WholeHeap, Quiet, Converged;
      JustifyRefl(body, lost, NonWhite(color));
      var dir := false;
      var changed := true;
      while changed
        invariant TriColor([]) && Lists() && gray == []
        invariant Extends(old(weak), weak) && Extends(old(allweak), allweak)
        invariant old(NonWhite(color)) <= NonWhite(color) && Whites(color) <= old(Whites(color))
        invariant !changed ==> AllConverged()
        invariant Justified(body, lost, old(NonWhite(color)), NonWhite(color))
        decreases Whites(color), changed
      {
        ghost var c, w, a := color, weak, allweak;
        changed := ConvergePass(dir);
        ExtendsTrans(old(weak), w, weak);
        ExtendsTrans(old(allweak), a, allweak);
        dir := !dir;
        JustifyTrans(body, lost, old(NonWhite(color)), NonWhite(c), NonWhite(color));
      }
      Fixpoint();
      LeastIsMarked(body, lost, old(NonWhite(color)), NonWhite(color));
    }

    // ----- clearing weak tables -----

    /** Empties the slots that hold a white value, and no others. */
    method ClearSlots(vs: seq<Value>) returns (r: seq<Value>)
      requires color.Keys == body.Keys && AllIn(vs, body.Keys)
      modifies `color, `gray
      ensures gray == old(gray) && SameButStrings(body, old(color), color)
      ensures |r| == |vs|
      ensures forall i :: 0 <= i < |vs| ==> r[i] == if In(vs[i], NonWhite(color)) then vs[i] else Scalar
    {
      r := vs;
      for i := 0 to |vs|
        invariant color.Keys == body.Keys && |r| == |vs| && r[i..] == vs[i..]
        invariant gray == old(gray) && SameButStrings(body, old(color), color)
        invariant forall j :: 0 <= j < i ==> r[j] == if In(vs[j], NonWhite(color)) then vs[j] else Scalar
        invariant forall j :: 0 <= j < i && IsStr(body, vs[j]) ==> In(vs[j], NonWhite(color))
      {
        hide Marks;
        ghost var c := color;
        var cleared := IsCleared(vs[i]);
        StringsOnly(body, c, color);
        if cleared {
          r := r[i := Scalar];
        }
      }
    }

    /** Empties the entries whose key, or value, is white, and no others. */
    method ClearNodes(nodes: seq<Node>, byKey: bool) returns (r: seq<Node>)
      requires color.Keys == body.Keys && KeysIn(nodes, body.Keys) && ValsIn(nodes, body.Keys)
      modifies `color, `gray
      ensures gray == old(gray) && SameButStrings(body, old(color), color)
      ensures |r| == |nodes|
      ensures forall i :: 0 <= i < |nodes| ==> r[i] == Survivor(nodes[i], byKey, NonWhite(color))
    {
      r := nodes;
      for i := 0 to |nodes|
        invariant color.Keys == body.Keys && |r| == |nodes| && r[i..] == nodes[i..]
        invariant gray == old(gray) && SameButStrings(body, old(color), color)
        invariant forall j :: 0 <= j < i ==> r[j] == Survivor(nodes[j], byKey, NonWhite(color))
        invariant forall j :: 0 <= j < i && nodes[j].Entry? && IsStr(body, Tested(nodes[j], byKey)) ==> In(Tested(nodes[j], byKey), NonWhite(color))
      {
        hide Marks;
        ghost var c := color;
        if nodes[i].Entry? {
          var cleared := IsCleared(Tested(nodes[i], byKey));
          StringsOnly(body, c, color);
          if cleared {
            r := r[i := Empty];
          }
        }
      }
    }

    method ClearTable(h: Ref, byKey: bool)
      requires Whole() && h in body && body[h].Table?
      modifies `body, `color, `gray
      ensures gray == old(gray)
      ensures Cleaned(old(body), old(color), body, color)
      ensures body == old(body)[h := body[h]]
      ensures body[h].Table? && body[h].meta == old(body[h].meta) && body[h].mode == old(body[h].mode)
      ensures |body[h].arr| == |old(body[h].arr)| && |body[h].nodes| == |old(body[h].nodes)|
      ensures forall i :: 0 <= i < |body[h].nodes| ==> body[h].nodes[i] == Survivor(old(body[h].nodes)[i], byKey, NonWhite(color))
      ensures byKey ==> body[h].arr == old(body[h].arr)
      ensures old(body[h]).mode.WeakValues? && !byKey && ParkedWeak(body[h], NonWhite(color)) ==> Within(body[h], NonWhite(color))
      ensures if byKey then Keyless(body[h], NonWhite(color)) else Valued(body[h], NonWhite(color))
      ensures byKey && ParkedEphemeron(body[h], NonWhite(color)) && Converged(old(body), old(body[h]), NonWhite(color)) ==> Within(body[h], NonWhite(color))
    {
      var t := body[h];
      assert Within(t, body.Keys);
      TableWithin(t, body.Keys);
      hide Within, Marks, Cleaned, Pruned, Keyless, Valued, ParkedWeak, ParkedEphemeron, Converged, Survivor;
      var arr := t.arr;
      if !byKey {
        arr := ClearSlots(arr);
      }
      ghost var c := color;
      var nodes := ClearNodes(t.nodes, byKey);
      StringsOnly(body, c, color);
      TableCleaned(body, old(color), color, h, byKey, arr, nodes);
      body := body[h := t.(arr := arr, nodes := nodes)];
    }

    ghost predicate AllWithin(l: seq<Ref>)
      reads `body, `color
    {
      forall o :: o in l ==> o in body && Within(body[o], NonWhite(color))
    }

    /** No table of the list holds a white value. */
    ghost predicate AllValued(l: seq<Ref>)
      reads `body, `color
    {
      forall o :: o in l ==> o in body && Valued(body[o], NonWhite(color))
    }

    /** No table of the list holds a white key. */
    ghost predicate AllKeyless(l: seq<Ref>)
      reads `body, `color
    {
      forall o :: o in l ==> o in body && Keyless(body[o], NonWhite(color))
    }

    /** All that keeps the tables of the list from pointing to marked objects only are
        entries with white keys. */
    ghost predicate AllKeyed(l: seq<Ref>)
      reads `body, `color
    {
      forall o :: o in l ==> o in body && Keyed(body, body[o], NonWhite(color))
    }

    lemma KeepTri(body0: Objects, c0: Colors)
      requires Cleaned(body0, c0, body, color) && gcstate.Atomic?
      requires TriColored(body0, white, fixedgc, {}, Parked([]), c0, gray)
      requires WellParked(body0, NonWhite(c0), grayagain, weak, allweak, ephemeron, lost)
      ensures TriColor([]) && Lists()
    {
      hide Cleaned, TriColored, WellParked, Waiting, Sum, NonWhite;
      CleanedTri(body0, c0, body, color, white, fixedgc, Parked([]), gray);
      CleanedParked(body0, c0, body, color, grayagain, weak, allweak, ephemeron, lost);
    }

    lemma KeepWithin(l: seq<Ref>, body0: Objects, c0: Colors)
      requires Cleaned(body0, c0, body, color)
      requires forall o :: o in l ==> o in body0 && Within(body0[o], NonWhite(c0))
      ensures AllWithin(l)
    {
      CleanedGrows(body0, c0, body, color);
      hide Within, NonWhite, SameButStrings;
      forall o | o in l ensures o in body && Within(body[o], NonWhite(color)) {
        PrunedKeeps(body0[o], body[o], NonWhite(c0), NonWhite(color));
      }
    }

    lemma KeepCleared(l: seq<Ref>, body0: Objects, c0: Colors)
      requires Cleaned(body0, c0, body, color)
      ensures (forall o :: o in l ==> o in body0 && Valued(body0[o], NonWhite(c0))) ==> AllValued(l)
      ensures (forall o :: o in l ==> o in body0 && Keyless(body0[o], NonWhite(c0))) ==> AllKeyless(l)
    {
      CleanedGrows(body0, c0, body, color);
      hide Within, NonWhite, SameButStrings, Valued, Keyless;
      forall o | o in l && o in body0
        ensures Valued(body0[o], NonWhite(c0)) ==> Valued(body[o], NonWhite(color))
        ensures Keyless(body0[o], NonWhite(c0)) ==> Keyless(body[o], NonWhite(color))
      {
        PrunedKeeps(body0[o], body[o], NonWhite(c0), NonWhite(color));
      }
    }

    lemma KeepKeyed(l: seq<Ref>, body0: Objects, c0: Colors)
      requires Cleaned(body0, c0, body, color)
      requires forall o :: o in l ==> o in body0 && Keyed(body0, body0[o], NonWhite(c0))
      ensures AllKeyed(l)
    {
      CleanedGrows(body0, c0, body, color);
      var S, T := NonWhite(c0), NonWhite(color);
      hide Within, NonWhite, SameButStrings, ParkedAllweak, ParkedEphemeron, FullyWeak, Converged, Quiet;
      forall o | o in l ensures o in body && Keyed(body, body[o], T) {
        PrunedKeeps(body0[o], body[o], S, T);
        EphemeronFacts(body0[o], S);
        ConvergedPruned(body0, body, body0[o], body[o], S, T);
      }
    }

    method ClearByValues(l: seq<Ref>, n: nat)
      requires TriColor([]) && Lists() && gcstate.Atomic? && gray == []
      requires n <= |l| && (l == weak || l == allweak)
      modifies `body, `color, `gray
      ensures TriColor([]) && Lists() && gray == []
      ensures Cleaned(old(body), old(color), body, color)
      ensures l == weak ==> AllWithin(l[..n])
      ensures AllValued(l[..n])
    {
      hide Cleaned, TriColored, WellParked, Waiting, Sum, NonWhite, Within, ParkedWeak, ParkedAllweak, ParkedEphemeron, FullyWeak, WholeHeap, Survivor, Valued;
      CleanedRefl(body, color);
      for i := 0 to n
        invariant gray == []
        invariant Cleaned(old(body), old(color), body, color)
        invariant TriColor([]) && Lists()
        invariant l == weak ==> AllWithin(l[..i])
        invariant AllValued(l[..i])
      {
        ghost var b, c := body, color;
        ListedTable(l, i);
        ClearTable(l[i], false);
        KeepTri(b, c);
        CleanedTrans(old(body), old(color), b, c, body, color);
        KeepCleared(l[..i], b, c);
        assert l[..i + 1] == l[..i] + [l[i]];
        if l == weak {
          KeepWithin(l[..i], b, c);
          ListedTable(l, i);
        }
      }
    }

    method ClearByKeys(l: seq<Ref>)
      requires TriColor([]) && Lists() && gcstate.Atomic? && gray == []
      requires (l == ephemeron && AllKeyed(l)) || l == allweak
      modifies `body, `color, `gray
      ensures TriColor([]) && Lists() && gray == []
      ensures Cleaned(old(body), old(color), body, color)
      ensures old(AllKeyed(l)) ==> AllWithin(l)
      ensures AllKeyless(l)
    {
      hide Cleaned, TriColored, WellParked, Waiting, Sum, NonWhite, Within, ParkedWeak, ParkedAllweak, ParkedEphemeron, FullyWeak, WholeHeap, Survivor, Converged, Keyless;
      CleanedRefl(body, color);
      for i := 0 to |l|
        invariant gray == []
        invariant Cleaned(old(body), old(color), body, color)
        invariant TriColor([]) && Lists()
        invariant old(AllKeyed(l)) ==> AllKeyed(l) && AllWithin(l[..i])
        invariant AllKeyless(l[..i])
      {
        ghost var b, c := body, color;
        ListedTable(l, i);
        ClearTable(l[i], true);
        KeepTri(b, c);
        CleanedTrans(old(body), old(color), b, c, body, color);
        KeepCleared(l[..i], b, c);
        assert l[..i + 1] == l[..i] + [l[i]];
        if old(AllKeyed(l)) {
          KeepKeyed(l, b, c);
          KeepWithin(l[..i], b, c);
          KeyedStays(b, c, l[i]);
        }
      }
      assert l[..|l|] == l;
    }

    lemma KeyedStays(body0: Objects, c0: Colors, o: Ref)
      requires Cleaned(body0, c0, body, color) && o in body0 && o in body
      requires Keyed(body0, body0[o], NonWhite(c0))
      ensures ParkedEphemeron(body[o], NonWhite(color)) && body0[o].Table? && Converged(body0, body0[o], NonWhite(color))
    {
      CleanedGrows(body0, c0, body, color);
      PrunedKeeps(body0[o], body[o], NonWhite(c0), NonWhite(color));
      ConvergedMono(body0, body0[o], NonWhite(c0), NonWhite(color));
    }

    lemma ListedTable(l: seq<Ref>, i: nat)
      requires TriColor([]) && Lists() && gcstate.Atomic? && i < |l|
      requires l == weak || l == allweak || l == ephemeron
      ensures Whole() && l[i] in body && body[l[i]].Table?
      ensures l == weak ==> ParkedWeak(body[l[i]], NonWhite(color)) && body[l[i]].mode.WeakValues?
    {
      hide Sum, NonWhite;
      assert l[i] in l;
    }

    // ----- finalization -----

    /** Moves the white objects (or all objects) of `finobj` to the end of
        `tobefnz`, keeping their order. */
    method SeparateTobefnz(all: bool)
      requires forall o :: o in finobj ==> o in color
      modifies `finobj, `tobefnz
      ensures multiset(finobj) + multiset(tobefnz) == old(multiset(finobj)) + old(multiset(tobefnz))
      ensures var moved := if all then color.Keys else Whites(color);
              && tobefnz == old(tobefnz) + Select(old(finobj), moved)
              && finobj == Select(old(finobj), color.Keys - moved)
    {
      ghost var moved := if all then color.Keys else Whites(color);
      var l := finobj;
      finobj := [];
      for i := 0 to |l|
        invariant finobj == Select(l[..i], color.Keys - moved)
        invariant tobefnz == old(tobefnz) + Select(l[..i], moved)
      {
        SelectNext(l, i, moved);
        SelectNext(l, i, color.Keys - moved);
        if color[l[i]].White? || all {
          tobefnz := tobefnz + [l[i]];
        } else {
          finobj := finobj + [l[i]];
        }
      }
      assert l[..|l|] == l;
      SelectSplit(l, color.Keys, moved);
    }

    // ----- the atomic phase -----

    /** Marks a list of values in the atomic phase. */
    method MarkEach(vs: seq<Value>, ghost saved: seq<Ref>)
      requires TriColor(saved) && Lists()
      requires AllIn(vs, body.Keys)
      modifies `color, `gray
      ensures TriColor(saved) && Lists()
      ensures AllIn(vs, NonWhite(color))
      ensures old(NonWhite(color)) <= NonWhite(color) <= old(NonWhite(color)) + RefsOf(vs)
    {
      hide Within, ParkedWeak, ParkedEphemeron, ParkedAllweak, FullyWeak, NonWhite, Whites, Grays, Sum, Marks, Justified, StrongWithin, TriColored, WellParked, Waiting, WholeHeap, Quiet, Converged, Extends, Cleaned, RefsOf;
      for i := 0 to |vs|
        invariant TriColor(saved) && Lists()
        invariant AllIn(vs[..i], NonWhite(color))
        invariant old(NonWhite(color)) <= NonWhite(color) <= old(NonWhite(color)) + RefsOf(vs[..i])
      {
        ghost var c, g := color, gray;
        RefsOfNext(vs, i);
        TriKeys(saved);
        MarkValue(vs[i]);
        Settle({}, saved, c, g);
      }
      assert vs[..|vs|] == vs;
    }

    ghost predicate Rooted(S: set<Ref>)
      reads `mainthread, `running, `registry, `mt
    {
      mainthread in S && running in S && In(registry, S) && AllIn(mt, S)
    }

    ghost predicate Fixed()
      reads `body, `fixedgc
    {
      forall o :: o in fixedgc ==> o in body && body[o].Str?
    }

    lemma RootsMono(S: set<Ref>, T: set<Ref>)
      requires Rooted(S) && S <= T
      ensures Rooted(T)
    {
    }

    /** From the start of the atomic phase until all that is strongly
        reachable is marked. */
    method AtomicMark()
      requires TriColor([]) && Lists() && KeepInvariant(gcstate) && !gcstate.Atomic? && Fixed()
      requires Rooted(body.Keys) && mainthread in NonWhite(color)
      modifies `gcstate, `color, `gray, `grayagain, `weak, `ephemeron, `allweak
      ensures gcstate.Atomic? && TriColor([]) && Lists() && gray == [] && AllConverged()
      ensures Rooted(NonWhite(color))
      ensures old(NonWhite(color)) <= NonWhite(color)
      ensures JustifiedButStrings(body, lost, old(NonWhite(color)) + LateRoots(), NonWhite(color))
    {
      hide *;
      ghost var A := NonWhite(color) + LateRoots();
      var saved := MarkLateRoots();
      ghost var S := NonWhite(color);
      JustifyWithin(body, lost, A, S);
      PropagateAll(saved);
      ghost var T := NonWhite(color);
      RestoreGrayagain(saved);
      PropagateAll([]);
      ghost var U := NonWhite(color);
      JustifySteps(A, S, T, U);
      FixedStrings();
      ConvergeEphemerons();
      JustifyStep(A, U, NonWhite(color));
      RootsMono(S, NonWhite(color));
    }

    /** The roots that are marked in the atomic phase. */
    ghost function LateRoots(): set<Ref>
      reads `running, `registry, `mt
    {
      RefsOf([Gc(running), registry] + mt)
    }

    lemma JustifyStep(A: set<Ref>, S: set<Ref>, T: set<Ref>)
      requires JustifiedButStrings(body, lost, A, S) && Justified(body, lost, S, T)
      ensures JustifiedButStrings(body, lost, A, T)
    {
      hide *;
      JustifyWeaker(body, lost, S, T);
      JustifyOn(body, lost, A, S, T);
    }

    lemma JustifySteps(A: set<Ref>, S: set<Ref>, T: set<Ref>, U: set<Ref>)
      requires JustifiedButStrings(body, lost, A, S) && Justified(body, lost, S, T) && Justified(body, lost, T, U)
      ensures JustifiedButStrings(body, lost, A, U)
    {
      hide *;
      JustifyStep(A, S, T);
      JustifyStep(A, T, U);
    }

    lemma FixedStrings()
      requires Fixed()
      ensures forall o :: o in fixedgc ==> o in body && body[o].Str?
    {
    }

    /** Enters the atomic state and marks the roots that may have changed. */
    method MarkLateRoots() returns (saved: seq<Ref>)
      requires TriColor([]) && Lists() && KeepInvariant(gcstate) && !gcstate.Atomic? && Fixed()
      requires Rooted(body.Keys) && mainthread in NonWhite(color)
      modifies `gcstate, `color, `gray, `grayagain
      ensures gcstate.Atomic? && TriColor(saved) && Lists() && Fixed()
      ensures Rooted(NonWhite(color))
      ensures old(NonWhite(color)) <= NonWhite(color) <= old(NonWhite(color)) + LateRoots()
    {
      hide Within, ParkedWeak, ParkedEphemeron, ParkedAllweak, FullyWeak, NonWhite, Whites, Grays, Sum, Marks, Justified, StrongWithin, TriColored, WellParked, Waiting, WholeHeap, Quiet, Converged, Extends, Cleaned, RefsOf;
      saved := EnterAtomicState();
      MarkEach([Gc(running), registry] + mt, saved);
      AllInSplit(mt, NonWhite(color));
    }

    lemma AllInSplit(vs: seq<Value>, S: set<Ref>)
      requires AllIn([Gc(running), registry] + vs, S)
      ensures running in S && In(registry, S) && AllIn(vs, S)
    {
      var l := [Gc(running), registry] + vs;
      assert l[0] == Gc(running) && l[1] == registry;
      assert forall i :: 0 <= i < |vs| ==> vs[i] == l[i + 2];
    }

    /** Takes the list `grayagain` aside and switches to the atomic state. */
    method EnterAtomicState() returns (saved: seq<Ref>)
      requires TriColor([]) && Lists() && !gcstate.Atomic?
      modifies `gcstate, `grayagain
      ensures gcstate.Atomic? && grayagain == [] && TriColor(saved) && Lists()
    {
      hide TriColored;
      saved := grayagain;
      grayagain := [];
      gcstate := Atomic;
      assert Sum([], [], allweak, [], saved, fixedgc) == Sum(saved, [], allweak, [], [], fixedgc);
    }

    method RestoreGrayagain(saved: seq<Ref>)
      requires TriColor(saved) && Lists() && gcstate.Atomic? && gray == []
      modifies `gray
      ensures TriColor([]) && Lists()
    {
      gray := saved;
    }

    lemma WithinGrows(l: seq<Ref>, c0: Colors)
      requires forall o :: o in l ==> o in body && Within(body[o], NonWhite(c0))
      requires NonWhite(c0) <= NonWhite(color)
      ensures AllWithin(l)
    {
      hide Within, NonWhite;
      forall o | o in l ensures Within(body[o], NonWhite(color)) {
        WithinMono(body[o], NonWhite(c0), NonWhite(color));
      }
    }

    lemma ValuedGrows(l: seq<Ref>, c0: Colors)
      requires forall o :: o in l ==> o in body && Valued(body[o], NonWhite(c0))
      requires NonWhite(c0) <= NonWhite(color)
      ensures AllValued(l)
    {
      hide NonWhite;
    }

    ghost predicate Clearing()
      reads `body, `white, `color, `gcstate, `gray, `grayagain, `weak, `allweak, `ephemeron, `fixedgc, `lost
      reads `mainthread, `running, `registry, `mt
    {
      TriColor([]) && Lists() && gcstate.Atomic? && gray == [] && Fixed() && Rooted(NonWhite(color))
    }

    /** Clears the values of all weak tables met so far. */
    method ClearWeakValues()
      requires Clearing()
      modifies `body, `color, `gray
      ensures Clearing() && AllWithin(weak) && AllValued(allweak)
      ensures Cleaned(old(body), old(color), body, color)
    {
      hide Within, ParkedWeak, ParkedEphemeron, ParkedAllweak, FullyWeak, NonWhite, Whites, Grays, Sum, Marks, Justified, StrongWithin, TriColored, WellParked, Waiting, WholeHeap, Quiet, Converged, Extends, Cleaned, InLeast, Pruned;
      ClearByValues(weak, |weak|);
      assert weak[..|weak|] == weak;
      ghost var b, c := body, color;
      CleanedFacts(old(body), old(color), b, c);
      ClearByValues(allweak, |allweak|);
      assert allweak[..|allweak|] == allweak;
      CleanedFacts(b, c, body, color);
      KeepWithin(weak, b, c);
      CleanedTrans(old(body), old(color), b, c, body, color);
      RootsMono(old(NonWhite(color)), NonWhite(color));
    }

    /** Marks the objects to be finalized. */
    method MarkBeingFnz()
      requires TriColor([]) && Lists()
      requires forall o :: o in tobefnz ==> o in body
      modifies `color, `gray
      ensures TriColor([]) && Lists()
      ensures forall o :: o in tobefnz ==> o in NonWhite(color)
      ensures old(NonWhite(color)) <= NonWhite(color) <= old(NonWhite(color)) + Elements(tobefnz)
    {
      hide Within, ParkedWeak, ParkedEphemeron, ParkedAllweak, FullyWeak, NonWhite, Whites, Grays, Sum, Marks, Justified, StrongWithin, TriColored, WellParked, Waiting, WholeHeap, Quiet, Converged, Extends, Cleaned, InLeast, Pruned;
      for i := 0 to |tobefnz|
        invariant TriColor([]) && Lists()
        invariant forall j :: 0 <= j < i ==> tobefnz[j] in NonWhite(color)
        invariant old(NonWhite(color)) <= NonWhite(color) <= old(NonWhite(color)) + Elements(tobefnz)
      {
        ghost var c, g := color, gray;
        TriKeys([]);
        MarkValue(Gc(tobefnz[i]));
        Settle({}, [], c, g);
      }
    }

    method MarkFromFnz()
      requires TriColor([]) && Lists() && gcstate.Atomic?
      requires forall o :: o in tobefnz ==> o in body
      modifies `color, `gray, `grayagain, `weak, `ephemeron, `allweak
      ensures TriColor([]) && Lists() && gray == []
      ensures Extends(old(weak), weak) && Extends(old(allweak), allweak)
      ensures forall o :: o in tobefnz ==> o in NonWhite(color)
      ensures old(NonWhite(color)) <= NonWhite(color)
      ensures JustifiedButStrings(body, lost, old(NonWhite(color)) + Elements(tobefnz), NonWhite(color))
    {
      hide *;
      ghost var A := NonWhite(color) + Elements(tobefnz);
      MarkBeingFnz();
      ghost var S := NonWhite(color);
      JustifyWithin(body, lost, A, S);
      PropagateAll([]);
      JustifyStep(A, S, NonWhite(color));
    }

    /** Resurrects the objects to be finalized and marks whatever they reach. */
    method Resurrect()
      requires Clearing()
      requires forall o :: o in tobefnz ==> o in body
      modifies `color, `gray, `grayagain, `weak, `ephemeron, `allweak
      ensures Clearing() && AllConverged()
      ensures Extends(old(weak), weak) && Extends(old(allweak), allweak)
      ensures forall o :: o in tobefnz ==> o in NonWhite(color)
      ensures old(NonWhite(color)) <= NonWhite(color)
      ensures JustifiedButStrings(body, lost, old(NonWhite(color)) + Elements(tobefnz), NonWhite(color))
    {
      hide Within, ParkedWeak, ParkedEphemeron, ParkedAllweak, FullyWeak, NonWhite, Whites, Grays, Sum, Marks, Justified, StrongWithin, TriColored, WellParked, Waiting, WholeHeap, Quiet, Converged, Extends, Cleaned, InLeast, Pruned, JustifiedButStrings, Elements;
      ghost var A := NonWhite(color) + Elements(tobefnz);
      MarkFromFnz();
      ghost var w, a, S := weak, allweak, NonWhite(color);
      ConvergeEphemerons();
      JustifyStep(A, S, NonWhite(color));
      ExtendsTrans(old(weak), w, weak);
      ExtendsTrans(old(allweak), a, allweak);
      RootsMono(old(NonWhite(color)), NonWhite(color));
    }

    /** First clearing of weak values, then resurrection of the objects to be
        finalized. */
    method AtomicResurrect()
      requires Clearing()
      requires forall o :: o in finobj || o in tobefnz ==> o in body
      modifies `body, `color, `gray, `grayagain, `weak, `ephemeron, `allweak, `finobj, `tobefnz
      ensures Clearing() && AllConverged()
      ensures Extends(old(weak), weak) && AllWithin(old(weak)) && Extends(old(allweak), allweak) && AllValued(old(allweak))
      ensures body.Keys == old(body.Keys) && forall o :: o in body ==> Pruned(old(body)[o], body[o])
      ensures multiset(finobj) + multiset(tobefnz) == old(multiset(finobj)) + old(multiset(tobefnz))
      ensures forall o :: o in tobefnz ==> o in NonWhite(color)
      ensures old(NonWhite(color)) <= NonWhite(color)
      ensures JustifiedButStrings(old(body), lost, old(NonWhite(color)) + Elements(tobefnz), NonWhite(color))
    {
      hide Within, ParkedWeak, ParkedEphemeron, ParkedAllweak, FullyWeak, NonWhite, Whites, Grays, Sum, Marks, Justified, StrongWithin, TriColored, WellParked, Waiting, WholeHeap, Quiet, Converged, Extends, Cleaned, InLeast, Pruned, JustifiedButStrings, Elements, Clearing, AllConverged, Rooted, RefsOf, IsStr, StrongClosed, Strings, Valued;
      ClearWeakValues();
      CleanedFacts(old(body), old(color), body, color);
      JustifyCleaned(old(body), old(color), body, color, lost);
      ClearingKeys();
      SeparateTobefnz(false);
      SameElements(finobj, tobefnz, old(finobj), old(tobefnz));
      ghost var c := color;
      Resurrect();
      JustifyResurrected(old(body), body, old(NonWhite(color)), NonWhite(c), Elements(tobefnz), NonWhite(color));
      WithinGrows(old(weak), c);
      ValuedGrows(old(allweak), c);
    }

    lemma JustifyResurrected(body0: Objects, body1: Objects, A: set<Ref>, S: set<Ref>, F: set<Ref>, T: set<Ref>)
      requires JustifiedButStrings(body0, lost, A, S) && JustifiedButStrings(body1, lost, S + F, T)
      requires body1.Keys == body0.Keys && (forall o :: o in body0 ==> Pruned(body0[o], body1[o]))
      ensures JustifiedButStrings(body0, lost, A + F, T)
    {
      hide *;
      JustifyPruned(body0, body1, lost, S + F, T);
      JustifyMore(body0, lost, A, S, F);
      JustifyOn(body0, lost, A + F, S + F, T);
    }

    lemma CleanedFacts(body0: Objects, c0: Colors, body1: Objects, c1: Colors)
      requires Cleaned(body0, c0, body1, c1)
      ensures body1.Keys == body0.Keys && (forall o :: o in body0 ==> Pruned(body0[o], body1[o]))
      ensures NonWhite(c0) <= NonWhite(c1)
      ensures forall o :: o in fixedgc && o in body0 && body0[o].Str? ==> body1[o].Str?
    {
      CleanedGrows(body0, c0, body1, c1);
    }

    lemma KeyedLists()
      requires Clearing() && AllConverged()
      ensures AllKeyed(ephemeron)
    {
      hide NonWhite, ParkedEphemeron, ParkedAllweak, FullyWeak, Converged, Within, Sum;
    }

    /** Every gray list holds only objects that point to marked ones, but for replaced metatables. */
    lemma AllGrayWithin()
      requires Clearing() && AllWithin(weak) && AllWithin(ephemeron) && AllKeyless(allweak) && AllValued(allweak)
      ensures forall o :: o in NonWhite(color) ==> o in body && (o !in lost ==> Within(body[o], NonWhite(color)))
    {
      hide Within, Sum, ParkedWeak, ParkedEphemeron, ParkedAllweak, FullyWeak, Keyless, Valued;
      forall o | o in NonWhite(color) ensures o in body && (o !in lost ==> Within(body[o], NonWhite(color))) {
        if color[o].Gray? {
          InSomeList([], o);
          if o in fixedgc {
            StrWithin(body[o], NonWhite(color));
          } else if o in allweak && o !in lost {
            ClearedWithin(body[o], NonWhite(color));
          }
        }
      }
    }

    /** Clears the entries with white keys. */
    method ClearWeakKeys(origweak: seq<Ref>, origall: seq<Ref>)
      requires Clearing() && AllConverged()
      requires AllWithin(origweak) && AllValued(origall)
      modifies `body, `color, `gray
      ensures Clearing() && AllWithin(origweak) && AllValued(origall) && AllWithin(ephemeron) && AllKeyless(allweak)
      ensures Cleaned(old(body), old(color), body, color)
    {
      hide Within, ParkedWeak, ParkedEphemeron, ParkedAllweak, FullyWeak, NonWhite, Whites, Grays, Sum, Marks, Justified, StrongWithin, TriColored, WellParked, Waiting, WholeHeap, Quiet, Converged, Cleaned, InLeast, Pruned, Keyless, Valued;
      KeyedLists();
      ClearByKeys(ephemeron);
      ghost var b, c := body, color;
      CleanedFacts(old(body), old(color), b, c);
      KeepWithin(origweak, old(body), old(color));
      KeepCleared(origall, old(body), old(color));
      ClearByKeys(allweak);
      CleanedFacts(b, c, body, color);
      KeepWithin(ephemeron + origweak, b, c);
      KeepCleared(origall, b, c);
      CleanedTrans(old(body), old(color), b, c, body, color);
      RootsMono(old(NonWhite(color)), NonWhite(color));
    }

    /** Last clearing: entries with white keys, then the values of the weak
        tables that resurrection brought in. */
    method AtomicClear(origweak: seq<Ref>, origall: seq<Ref>)
      requires Clearing() && AllConverged()
      requires Extends(origweak, weak) && AllWithin(origweak) && Extends(origall, allweak) && AllValued(origall)
      modifies `body, `color, `gray
      ensures Clearing()
      ensures forall o :: o in NonWhite(color) ==> o in body && (o !in lost ==> Within(body[o], NonWhite(color)))
      ensures Cleaned(old(body), old(color), body, color)
    {
      hide Within, ParkedWeak, ParkedEphemeron, ParkedAllweak, FullyWeak, NonWhite, Whites, Grays, Sum, Marks, Justified, StrongWithin, TriColored, WellParked, Waiting, WholeHeap, Quiet, Converged, Cleaned, InLeast, Pruned, Keyless, Valued;
      ClearWeakKeys(origweak, origall);
      ghost var b, c := body, color;
      CleanedFacts(old(body), old(color), b, c);
      ClearByValues(weak, |weak| - |origweak|);
      CleanedFacts(b, c, body, color);
      KeepWithin(ephemeron + origweak, b, c);
      KeepCleared(origall, b, c);
      KeepCleared(allweak, b, c);
      assert weak == weak[..|weak| - |origweak|] + origweak;
      CleanedTrans(old(body), old(color), b, c, body, color);
      b, c := body, color;
      ClearByValues(allweak, |allweak| - |origall|);
      CleanedFacts(b, c, body, color);
      KeepWithin(ephemeron + weak, b, c);
      KeepCleared(origall, b, c);
      KeepCleared(allweak, b, c);
      assert allweak == allweak[..|allweak| - |origall|] + origall;
      CleanedTrans(old(body), old(color), b, c, body, color);
      RootsMono(old(NonWhite(color)), NonWhite(color));
      AllGrayWithin();
    }

    /** The atomic phase. Every marked object then points to marked objects
        only, weak references included, the roots are marked, and the white
        ones are those of the old white, which becomes the other white. */
    method AtomicPhase()
      requires TriColor([]) && Lists() && KeepInvariant(gcstate) && !gcstate.Atomic? && Fixed()
      requires Rooted(body.Keys) && mainthread in NonWhite(color)
      requires forall o :: o in finobj || o in tobefnz ==> o in body
      modifies `gcstate, `white, `body, `color, `gray, `grayagain, `weak, `ephemeron, `allweak, `finobj, `tobefnz
      ensures gcstate.Atomic? && white == !old(white) && gray == [] && FixedGray(fixedgc, body, color)
      ensures body.Keys == old(body.Keys) == color.Keys && forall o :: o in body ==> Pruned(old(body)[o], body[o])
      ensures multiset(finobj) + multiset(tobefnz) == old(multiset(finobj)) + old(multiset(tobefnz))
      ensures Live(color, white) == NonWhite(color)
      ensures old(NonWhite(color)) <= NonWhite(color)
      ensures forall o :: o in NonWhite(color) ==> o in body && (o !in lost ==> Within(body[o], NonWhite(color)))
      ensures Rooted(NonWhite(color)) && forall o :: o in tobefnz ==> o in NonWhite(color)
      ensures JustifiedButStrings(old(body), lost, old(NonWhite(color)) + LateRoots() + Elements(tobefnz), NonWhite(color))
    {
      hide *;
      ghost var b, A := body, NonWhite(color) + LateRoots();
      AtomicMark();
      ghost var S := NonWhite(color);
      OpenClearing();
      ResurrectAndClear();
      JustifyFinalized(b, A, S, Elements(tobefnz), NonWhite(color));
      CloseClearing();
      FlipWhite();
      white := !white;
    }

    lemma JustifyFinalized(b: Objects, A: set<Ref>, S: set<Ref>, F: set<Ref>, T: set<Ref>)
      requires JustifiedButStrings(b, lost, A, S) && JustifiedButStrings(b, lost, S + F, T)
      ensures JustifiedButStrings(b, lost, A + F, T)
    {
      hide *;
      JustifyMore(b, lost, A, S, F);
      JustifyOn(b, lost, A + F, S + F, T);
    }

    /** What follows the marking from the roots: finalization and the clearing of weak tables. */
    method ResurrectAndClear()
      requires Clearing() && AllConverged()
      requires forall o :: o in finobj || o in tobefnz ==> o in body
      modifies `body, `color, `gray, `grayagain, `weak, `ephemeron, `allweak, `finobj, `tobefnz
      ensures Clearing()
      ensures body.Keys == old(body.Keys) && forall o :: o in body ==> Pruned(old(body)[o], body[o])
      ensures multiset(finobj) + multiset(tobefnz) == old(multiset(finobj)) + old(multiset(tobefnz))
      ensures old(NonWhite(color)) <= NonWhite(color)
      ensures forall o :: o in NonWhite(color) ==> o in body && (o !in lost ==> Within(body[o], NonWhite(color)))
      ensures forall o :: o in tobefnz ==> o in NonWhite(color)
      ensures JustifiedButStrings(old(body), lost, old(NonWhite(color)) + Elements(tobefnz), NonWhite(color))
    {
      hide *;
      var origall := allweak;
      var origweak := weak;
      AtomicResurrect();
      ghost var b, c := body, color;
      AtomicClear(origweak, origall);
      CleanedFacts(b, c, body, color);
      JustifyCleaned(b, c, body, color, lost);
      JustifyPruned(old(body), b, lost, NonWhite(c), NonWhite(color));
      JustifyOn(old(body), lost, old(NonWhite(color)) + Elements(tobefnz), NonWhite(c), NonWhite(color));
      PrunedTrans(old(body), b, body);
    }

    lemma ClearingKeys()
      requires Clearing()
      ensures color.Keys == body.Keys
    {
    }

    lemma OpenClearing()
      requires TriColor([]) && Lists() && gcstate.Atomic? && gray == [] && Fixed() && Rooted(NonWhite(color))
      ensures Clearing()
    {
    }

    lemma CloseClearing()
      requires Clearing()
      ensures TriColor([]) && gcstate.Atomic? && gray == [] && Fixed() && Rooted(NonWhite(color))
    {
    }

    lemma FlipWhite()
      requires TriColor([]) && Fixed()
      ensures color.Keys == body.Keys && Live(color, !white) == NonWhite(color)
      ensures FixedGray(fixedgc, body, color)
    {
      hide Within;
      forall o | o in fixedgc ensures o in color && color[o].Gray? {
        assert o in multiset(fixedgc);
        assert o in multiset(gray) + Parked([]);
        assert o in multiset(Grays(color));
      }
    }

    lemma PrunedTrans(b0: Objects, b1: Objects, b2: Objects)
      requires b1.Keys == b0.Keys && (forall o :: o in b0 ==> Pruned(b0[o], b1[o]))
      requires b2.Keys == b1.Keys && (forall o :: o in b1 ==> Pruned(b1[o], b2[o]))
      ensures forall o :: o in b0 ==> Pruned(b0[o], b2[o])
    {
    }

    // ----- sweeping -----

    /** Sweeps the first elements of `l`, at most `countin`: the dead are freed,
        the others turn white and are kept. */
    method SweepList(l: seq<Ref>, countin: nat, ghost rest: multiset<Ref>) returns (kept: seq<Ref>, k: nat)
      requires color.Keys == body.Keys && Covers(l, rest, body.Keys)
      modifies `body, `color
      ensures k == (if countin < |l| then countin else |l|)
      ensures kept == Select(l[..k], old(Live(color, white)))
      ensures color.Keys == body.Keys && multiset(kept) + (multiset(l[k..]) + rest) == multiset(body.Keys)
      ensures Swept(old(body), old(color), white, l[..k], body, color)
      ensures |kept| <= k && AllWhite(kept, color, white)
      ensures Untouched(rest, old(body), old(color), body, color)
    {
      hide Swept, Select, Live, Untouched, AllWhite;
      ghost var live := Live(color, white);
      kept, k := [], 0;
      SweptRefl(body, color, white, l, live);
      while k < |l| && k < countin
        invariant 0 <= k <= |l| && k <= countin
        invariant color.Keys == body.Keys
        invariant kept == Select(l[..k], live)
        invariant multiset(kept) + (multiset(l[k..]) + rest) == multiset(body.Keys)
        invariant Swept(old(body), old(color), white, l[..k], body, color)
      {
        var curr := l[k];
        SweepNext(l, k, kept, rest, old(body), old(color), body, color, white);
        if color[curr] == White(!white) {
          body := body - {curr};
          color := color - {curr};
        } else {
          color := color[curr := White(white)];
          kept := kept + [curr];
        }
        k := k + 1;
      }
      SelectShort(l[..k], live);
      SweptRest(old(body), old(color), white, l, k, rest, body, color);
    }

    /** Sweeps part of a list from position `n` on. */
    method SweepFrom(l: seq<Ref>, n: nat, countin: nat, ghost rest: multiset<Ref>) returns (l': seq<Ref>, c: Cursor, k: nat)
      requires SafeHeap(body, color, white) && n <= |l| && Covers(l, rest, body.Keys)
      requires AllWhite(l[..n], color, white)
      modifies `body, `color
      ensures k == (if countin < |l| - n then countin else |l| - n)
      ensures l' == l[..n] + Select(l[n..][..k], old(Live(color, white))) + l[n + k..]
      ensures Covers(l', rest, body.Keys)
      ensures Reclaimed(rest, white, old(body), old(color), body, color)
      ensures CursorIn(l', c) && AllWhite(Done(l', c), color, white) && (c.Null? <==> n + k == |l|)
      ensures n <= |l'| && (c.At? ==> n <= c.n) && l'[..n] == l[..n]
      ensures c == At(n) && countin > 0 ==> |l'| < |l|
    {
      hide Select, Live, Swept, Within, AllWhite, Untouched, SafeHeap, Reclaimed;
      ghost var others := multiset(l[..n]) + rest;
      Split(l, n, rest);
      SafeKeys();
      var kept;
      kept, k := SweepList(l[n..], countin, others);
      SweptReclaims(rest, others, l[n..][..k], old(body), old(color));
      KeepWhite(l[..n], others, old(body), old(color), body, color, white);
      l', c := l[..n] + kept + l[n + k..], if n + k == |l| then Null else At(n + |kept|);
      Splice(l, n, k, kept, rest, body.Keys, color, white, l', c);
    }

    lemma SafeKeys()
      requires SafeHeap(body, color, white)
      ensures color.Keys == body.Keys
    {
    }

    lemma SweptReclaims(rest: multiset<Ref>, others: multiset<Ref>, l: seq<Ref>, body0: Objects, c0: Colors)
      requires SafeHeap(body0, c0, white) && Swept(body0, c0, white, l, body, color)
      requires rest <= others && Untouched(others, body0, c0, body, color)
      ensures Reclaimed(rest, white, body0, c0, body, color)
    {
      hide Within, Swept, SafeHeap;
      SweptSafe(body0, c0, white, l, body, color);
      assert forall o :: o in rest ==> o in others;
    }

    lemma Split(l: seq<Ref>, n: nat, rest: multiset<Ref>)
      requires n <= |l|
      ensures multiset(l[n..]) + (multiset(l[..n]) + rest) == multiset(l) + rest
      ensures multiset(l[..n]) <= multiset(l[..n]) + rest
      ensures rest <= multiset(l[..n]) + rest
    {
      assert l == l[..n] + l[n..];
    }

    /** Sweeps until a live object has been swept or the list ends. */
    method SweepToLive(l: seq<Ref>, n: nat, ghost rest: multiset<Ref>) returns (l': seq<Ref>, c: Cursor)
      requires SafeHeap(body, color, white) && n <= |l| && Covers(l, rest, body.Keys)
      requires AllWhite(l[..n], color, white)
      modifies `body, `color
      ensures Covers(l', rest, body.Keys)
      ensures Reclaimed(rest, white, old(body), old(color), body, color)
      ensures CursorIn(l', c) && AllWhite(Done(l', c), color, white)
      ensures c.At? ==> n < c.n
      ensures n <= |l'| && l'[..n] == l[..n]
    {
      hide Live, Within, SafeHeap, Reclaimed, Select, AllWhite, Covers;
      var k: nat;
      l', c, k := SweepFrom(l, n, 1, rest);
      while c == At(n)
        invariant Covers(l', rest, body.Keys)
        invariant Reclaimed(rest, white, old(body), old(color), body, color)
        invariant CursorIn(l', c) && AllWhite(Done(l', c), color, white)
        invariant n <= |l'| && (c.At? ==> n <= c.n) && l'[..n] == l[..n]
        decreases if c == At(n) then 1 else 0, |l'|
      {
        ghost var b0, c0 := body, color;
        ReclaimedSafe(rest, old(body), old(color));
        l', c, k := SweepFrom(l', n, 1, rest);
        ReclaimedTrans(rest, white, old(body), old(color), b0, c0, body, color);
      }
    }

    lemma ReclaimedSafe(rest: multiset<Ref>, body0: Objects, c0: Colors)
      requires Reclaimed(rest, white, body0, c0, body, color)
      ensures SafeHeap(body, color, white)
    {
    }

    // ----- collector steps -----

    ghost function View(): Snapshot
      reads this
    {
      Snapshot(body, color, white, gcstate, gray, grayagain, weak, allweak, ephemeron, lost,
               allgc, finobj, tobefnz, fixedgc, sweepgc, finalized, mainthread, running, registry, mt)
    }

    lemma OpenMarking()
      requires MarkState(body, color, white, fixedgc, gray, grayagain + allweak) && !gcstate.Atomic?
      requires weak == [] && ephemeron == [] && Waiting(body, NonWhite(color), allweak, lost)
      ensures TriColor([]) && Lists()
    {
      hide TriColored, Waiting;
      assert Sum(grayagain + allweak, [], [], [], [], fixedgc) == Parked([]);
    }

    lemma CloseMarking()
      requires TriColor([]) && Lists() && !gcstate.Atomic?
      ensures MarkState(body, color, white, fixedgc, gray, grayagain + allweak)
      ensures weak == [] && ephemeron == [] && Waiting(body, NonWhite(color), allweak, lost)
    {
      hide TriColored, Waiting;
      assert Sum(grayagain + allweak, [], [], [], [], fixedgc) == Parked([]);
    }

    method EnterSweep()
      requires Safe(View()) && Listing(View()) && lost == {} && gcstate != SwpAllgc
      modifies `gcstate, `sweepgc, `allgc, `body, `color
      ensures Valid(View()) && gcstate == SwpAllgc
    {
      hide Safe, Listing, Phase, SafeHeap, Reclaimed, AllWhite, Three, Flagged, Done, CursorIn, Covers, Select, Live, Valid;
      ghost var s := View();
      BeforeSweep(s);
      StartSweep();
      AfterAllgc(s, View());
    }

    /** Sweeps up to the first live object. */
    method StartSweep()
      requires SafeHeap(body, color, white) && Covers(allgc, Three(finobj, tobefnz, fixedgc), body.Keys)
      requires AllWhite(allgc[..0], color, white)
      modifies `gcstate, `sweepgc, `allgc, `body, `color
      ensures gcstate == SwpAllgc
      ensures Reclaimed(Three(finobj, tobefnz, fixedgc), white, old(body), old(color), body, color)
      ensures Covers(allgc, Three(finobj, tobefnz, fixedgc), body.Keys)
      ensures CursorIn(allgc, sweepgc) && AllWhite(Done(allgc, sweepgc), color, white)
    {
      hide *;
      var l, c := SweepToLive(allgc, 0, Three(finobj, tobefnz, fixedgc));
      gcstate, allgc, sweepgc := SwpAllgc, l, c;
    }

    method SweepMoreAllgc()
      requires Valid(View()) && gcstate == SwpAllgc && sweepgc.At?
      modifies `sweepgc, `allgc, `body, `color
      ensures Valid(View())
    {
      hide Safe, Listing, Phase, SafeHeap, Reclaimed, AllWhite, Three, Flagged, Done, CursorIn, Covers, Select, Live, FlagsOf;
      ghost var s := View();
      BeforeSweep(s);
      AtHeader(s);
      var l, c, k := SweepFrom(allgc, sweepgc.n, GCSWEEPMAX, Three(finobj, tobefnz, fixedgc));
      allgc, sweepgc := l, c;
      AfterAllgc(s, View());
    }

    method SweepStepAllgc()
      requires Valid(View()) && gcstate == SwpAllgc
      modifies `gcstate, `sweepgc, `allgc, `body, `color
      ensures Valid(View())
      ensures old(sweepgc).Null? ==> View() == old(View()).(gcstate := SwpFinobj, sweepgc := At(0))
      ensures old(sweepgc).At? ==> gcstate == SwpAllgc
    {
      hide Safe, Listing, Phase, SafeHeap, Reclaimed, AllWhite, Three, Flagged, Done, CursorIn, Covers, Select, Live;
      ghost var s := View();
      if sweepgc.At? {
        SweepMoreAllgc();
      } else {
        NextList(s);
        gcstate, sweepgc := SwpFinobj, At(0);
      }
    }

    method SweepMoreFinobj()
      requires Valid(View()) && gcstate == SwpFinobj && sweepgc.At?
      modifies `sweepgc, `finobj, `finalized, `body, `color
      ensures Valid(View())
    {
      hide Safe, Listing, Phase, SafeHeap, Reclaimed, AllWhite, Three, Flagged, Done, CursorIn, Covers, Select, Live, FlagsOf;
      ghost var s := View();
      BeforeSweep(s);
      AtHeader(s);
      SweepOnFinobj();
      AfterFinobj(s, View());
    }

    /** Sweeps some more of `finobj`. */
    method SweepOnFinobj()
      requires SafeHeap(body, color, white) && Covers(finobj, Three(allgc, tobefnz, fixedgc), body.Keys)
      requires sweepgc.At? && sweepgc.n <= |finobj| && AllWhite(finobj[..sweepgc.n], color, white)
      modifies `sweepgc, `finobj, `finalized, `body, `color
      ensures Reclaimed(Three(allgc, tobefnz, fixedgc), white, old(body), old(color), body, color)
      ensures Covers(finobj, Three(allgc, tobefnz, fixedgc), body.Keys) && Flagged(finalized, finobj, tobefnz)
      ensures CursorIn(finobj, sweepgc) && AllWhite(Done(finobj, sweepgc), color, white)
    {
      hide *;
      var l, c, k := SweepFrom(finobj, sweepgc.n, GCSWEEPMAX, Three(allgc, tobefnz, fixedgc));
      finobj, sweepgc, finalized := l, c, FlagsOf(l, tobefnz);
    }

    method SweepStepFinobj()
      requires Valid(View()) && gcstate == SwpFinobj
      modifies `gcstate, `sweepgc, `finobj, `finalized, `body, `color
      ensures Valid(View())
      ensures old(sweepgc).Null? ==> View() == old(View()).(gcstate := SwpTobefnz, sweepgc := At(0))
      ensures old(sweepgc).At? ==> gcstate == SwpFinobj
    {
      hide Safe, Listing, Phase, SafeHeap, Reclaimed, AllWhite, Three, Flagged, Done, CursorIn, Covers, Select, Live;
      ghost var s := View();
      if sweepgc.At? {
        SweepMoreFinobj();
      } else {
        NextList(s);
        gcstate, sweepgc := SwpTobefnz, At(0);
      }
    }

    method SweepMoreTobefnz()
      requires Valid(View()) && gcstate == SwpTobefnz && sweepgc.At?
      modifies `sweepgc, `body, `color
      ensures Valid(View())
    {
      hide Safe, Listing, Phase, SafeHeap, Reclaimed, AllWhite, Three, Flagged, Done, CursorIn, Covers, Select, Live, FlagsOf;
      ghost var s := View();
      BeforeSweep(s);
      AtHeader(s);
      var l, c, k := SweepFrom(tobefnz, sweepgc.n, GCSWEEPMAX, Three(allgc, finobj, fixedgc));
      AllSurvive(tobefnz, Live(s.color, s.white), sweepgc.n, k, l);
      sweepgc := c;
      AfterTobefnz(s, View());
    }

    method SweepStepTobefnz()
      requires Valid(View()) && gcstate == SwpTobefnz
      modifies `gcstate, `sweepgc, `body, `color
      ensures Valid(View())
      ensures old(sweepgc).Null? ==> View() == old(View()).(gcstate := SwpEnd)
      ensures old(sweepgc).At? ==> gcstate == SwpTobefnz
    {
      hide Safe, Listing, Phase, SafeHeap, Reclaimed, AllWhite, Three, Flagged, Done, CursorIn, Covers, Select, Live;
      ghost var s := View();
      if sweepgc.At? {
        SweepMoreTobefnz();
      } else {
        NextList(s);
        gcstate := SwpEnd;
      }
    }

    /** Starts a new cycle: empties the gray lists and marks the roots. */
    method RestartCollection()
      requires Valid(View()) && gcstate == Pause
      modifies `gcstate, `color, `gray, `grayagain, `weak, `allweak, `ephemeron
      ensures Valid(View()) && gcstate == Propagate
    {
      hide Live, Within, SafeHeap, Reclaimed, AllWhite, Partition, Three, SafeRoots, FixedGray, Flagged, Done, CursorIn, Untouched, Covers, Select, MarkState, TriColored, WellParked, Waiting, NonWhite, Sum, AllIn, In, WholeHeap, Pruned, Sweeping, Quiescent, Phase;
      ghost var s := View();
      PauseIsQuiescent(s);
      Unmarked(s);
      RootsInHeap(s);
      MarkRoots();
      MarkingSafe(s, color, gray, grayagain + allweak);
      gcstate := Propagate;
      NowMarking(View());
    }

    method MarkRoots()
      requires MarkState(body, color, white, fixedgc, [], []) && !gcstate.Atomic?
      requires mainthread in body && In(registry, body.Keys) && AllIn(mt, body.Keys) && sweepgc.Null? && lost == {}
      requires forall o :: o in tobefnz ==> o in body
      modifies `color, `gray, `grayagain, `weak, `allweak, `ephemeron
      ensures MarkState(body, color, white, fixedgc, gray, grayagain + allweak)
      ensures weak == [] && ephemeron == [] && Waiting(body, NonWhite(color), allweak, lost) && mainthread in NonWhite(color)
      ensures In(registry, NonWhite(color)) && AllIn(mt, NonWhite(color)) && forall o :: o in tobefnz ==> o in NonWhite(color)
    {
      hide Live, Within, SafeHeap, Reclaimed, AllWhite, Partition, Three, SafeRoots, FixedGray, Flagged, Done, CursorIn, Untouched, Covers, Select, MarkState, TriColored, WellParked, Waiting, NonWhite, Sum, AllIn, In, WholeHeap, Pruned, Sweeping, Quiescent;
      gray, grayagain, weak, allweak, ephemeron := [], [], [], [], [];
      assert grayagain + allweak == [];
      NoneWaiting(body, NonWhite(color));
      OpenMarking();
      RootValues([Gc(mainthread), registry] + mt, body.Keys);
      MarkEach([Gc(mainthread), registry] + mt, []);
      RootValues([Gc(mainthread), registry] + mt, NonWhite(color));
      ghost var S := NonWhite(color);
      MarkBeingFnz();
      CloseMarking();
      RootValuesMono([Gc(mainthread), registry] + mt, S, NonWhite(color));
      RootValues([Gc(mainthread), registry] + mt, NonWhite(color));
    }

    lemma RootValues(l: seq<Value>, S: set<Ref>)
      requires l == [Gc(mainthread), registry] + mt
      ensures AllIn(l, S) <==> mainthread in S && In(registry, S) && AllIn(mt, S)
    {
      assert l[0] == Gc(mainthread) && l[1] == registry;
      assert forall i :: 0 <= i < |mt| ==> mt[i] == l[i + 2];
    }

    lemma RootValuesMono(l: seq<Value>, S: set<Ref>, T: set<Ref>)
      requires AllIn(l, S) && S <= T
      ensures AllIn(l, T)
    {
    }

    method PropagateStep()
      requires Valid(View()) && gcstate == Propagate
      modifies `gcstate, `color, `gray, `grayagain, `weak, `ephemeron, `allweak
      ensures Valid(View())
      ensures if old(gray) == [] then gcstate == EnterAtomic && color == old(color) else gcstate == Propagate
      ensures old(NonWhite(color)) <= NonWhite(color) && Justified(body, lost, old(NonWhite(color)), NonWhite(color))
    {
      hide Live, Within, SafeHeap, Reclaimed, AllWhite, Partition, Three, SafeRoots, FixedGray, Flagged, Done, CursorIn, Untouched, Covers, Select, MarkState, TriColored, WellParked, Waiting, NonWhite, Sum, AllIn, In, WholeHeap, Pruned, Sweeping, Quiescent, Justified;
      JustifyRefl(body, lost, NonWhite(color));
      if gray == [] {
        gcstate := EnterAtomic;
      } else {
        OpenMarking();
        PropagateMark([]);
        CloseMarking();
        MarkingSafe(old(View()), color, gray, grayagain + allweak);
      }
    }

    /** The atomic phase, after which the sweep begins. */
    method AtomicStep()
      requires Valid(View()) && gcstate == EnterAtomic
      modifies `gcstate, `white, `body, `color, `gray, `grayagain, `weak, `ephemeron, `allweak, `finobj, `tobefnz, `sweepgc, `allgc
      ensures Valid(View()) && gcstate == SwpAllgc
    {
      hide *;
      SafeAtomicPhase();
      EnterSweep();
    }

    /** After the atomic phase nothing live points to anything dead. */
    method SafeAtomicPhase()
      requires Valid(View()) && gcstate == EnterAtomic
      modifies `gcstate, `white, `body, `color, `gray, `grayagain, `weak, `ephemeron, `allweak, `finobj, `tobefnz
      ensures Safe(View()) && Listing(View()) && lost == {} && gcstate == Atomic
    {
      hide Valid, Lax, Safe, Listing, Phase, Live, Within, NonWhite, Pruned, FixedGray, AllIn, In, TriColor, Lists, Fixed, LateRoots, JustifiedButStrings, KeepInvariant, Elements;
      AtomicReady();
      AtomicPhase();
      AtomicSafe(old(View()), View());
    }

    /** What the atomic phase asks for. */
    lemma AtomicReady()
      requires Valid(View()) && gcstate == EnterAtomic
      ensures Safe(View()) && Listing(View()) && lost == {}
      ensures TriColor([]) && Lists() && KeepInvariant(gcstate) && !gcstate.Atomic? && Fixed()
      ensures Rooted(body.Keys) && mainthread in NonWhite(color)
      ensures forall o :: o in finobj || o in tobefnz ==> o in body
    {
      hide Safe, Listing, MarkState, Waiting, TriColor, Lists, NonWhite;
      RootsInHeap(View());
      OpenMarking();
    }

    // ----- finalizers -----

    /** Takes the next object to be finalized back to `allgc`. */
    method Udata2Finalize() returns (o: Ref)
      requires Valid(View()) && !IsSweepPhase(gcstate) && tobefnz != []
      modifies `tobefnz, `allgc, `finalized
      ensures Valid(View())
      ensures o == old(tobefnz)[0] && tobefnz == old(tobefnz)[1..] && allgc == [o] + old(allgc) && finalized == old(finalized) - {o}
      ensures o in Live(color, white)
    {
      hide Live, Within, SafeHeap, Reclaimed, AllWhite, Partition, Three, SafeRoots, FixedGray, Flagged, Done, CursorIn, Untouched, Covers, Select, MarkState, TriColored, WellParked, Waiting, NonWhite, Sum, AllIn, In, WholeHeap, Pruned, Sweeping, Quiescent, Phase, Safe, Listing;
      o := tobefnz[0];
      tobefnz := tobefnz[1..];
      allgc := [o] + allgc;
      finalized := finalized - {o};
      Refiled(old(View()), View());
    }

    // ----- the mutator -----

    /** Writes new contents `b`, made of the old ones and `v` and `w`, into a
        table: backward barrier. */
    method WriteBack(t: Ref, b: Body, v: Value, w: Value)
      requires Valid(View()) && t in Live(color, white) && t in body && body[t].Table? && b.Table?
      requires In(v, Live(color, white)) && In(w, Live(color, white))
      requires b.meta == body[t].meta && b.mode == body[t].mode
      requires forall S: set<Ref> :: Within(body[t], S) && In(v, S) && In(w, S) ==> Within(b, S)
      modifies `body, `color, `grayagain
      ensures Valid(View()) && Live(color, white) == old(Live(color, white))
      ensures body == old(body)[t := b]
      ensures var fires := old(color)[t].Black? && (IsWhite(old(color), v) || IsWhite(old(color), w));
              && color == (if fires then old(color)[t := Gray] else old(color))
              && grayagain == (if fires then [t] + old(grayagain) else old(grayagain))
    {
      hide Valid, Within, Live, NonWhite, SafeHeap, Safe;
      ghost var s := View();
      LiveParts(t, v);
      LiveParts(t, w);
      SameMeta(s, t, b);
      body := body[t := b];
      if color[t].Black? && (IsWhite(color, v) || IsWhite(color, w)) {
        BackWrite(s, t, b);
        color := color[t := Gray];
        grayagain := [t] + grayagain;
        RepaintLive(s.color, t, Gray, white);
      } else {
        PlainWrite(s, t, b);
      }
    }

    /** The forward barrier while marking, after the store that took the state
        from `s` to the present one. */
    method BarrierMark(o: Ref, b: Body, v: Value, ghost s: Snapshot)
      requires Valid(s) && KeepInvariant(gcstate) && o in s.body && b.Thread? == s.body[o].Thread? && b.Str? == s.body[o].Str?
      requires o in Live(color, white) && In(v, Live(color, white))
      requires View() == s.(body := s.body[o := b]) && o in color && color[o].Black? && v.Gc? && v.ref in color && color[v.ref].White?
      requires forall S: set<Ref> :: Within(s.body[o], S) && In(v, S) ==> Within(b, S)
      modifies `color, `gray
      ensures Valid(View()) && Live(color, white) == old(Live(color, white))
      ensures color == old(color)[v.ref := if s.body[v.ref].Str? then Black else Gray]
    {
      hide Valid, Within, Live, NonWhite, SafeHeap, Safe, Marks;
      SnapParts(s, o, v);
      ghost var c := color[v.ref := if s.body[v.ref].Str? then Black else Gray];
      MarkedThen(color, c, v.ref, s.body[o], b, v);
      ForwardMark(s, o, b, v.ref, c, if s.body[v.ref].Str? then gray else [v.ref] + gray);
      ReallyMarkObject(v.ref);
      RepaintLive(s.color, v.ref, c[v.ref], white);
    }

    /** Writes new contents `b`, made of the old ones and `v`, into an object
        under a forward barrier. */
    method WriteForward(o: Ref, b: Body, v: Value)
      requires Valid(View()) && o in Live(color, white) && o in body && b.Thread? == body[o].Thread? && b.Str? == body[o].Str?
      requires In(v, Live(color, white))
      requires KeepInvariant(gcstate) && o in allweak ==> FullyWeak(b, NonWhite(color), false)
      requires forall S: set<Ref> :: Within(body[o], S) && In(v, S) ==> Within(b, S)
      modifies `body, `color, `gray
      ensures Valid(View()) && Live(color, white) == old(Live(color, white))
      ensures body == old(body)[o := b]
      ensures var fires := old(color)[o].Black? && IsWhite(old(color), v);
              color == if !fires then old(color)
                       else if KeepInvariant(gcstate) then old(color)[v.ref := if old(body)[v.ref].Str? then Black else Gray]
                       else old(color)[o := White(white)]
    {
      hide Valid, Within, Live, NonWhite, SafeHeap, Safe;
      ghost var s := View();
      LiveParts(o, v);
      body := body[o := b];
      if color[o].Black? && IsWhite(color, v) {
        if KeepInvariant(gcstate) {
          BarrierMark(o, b, v, s);
        } else {
          BlackMeansSweeping(s, o);
          assert IsSweepPhase(gcstate);
          ForwardSweep(s, o, b);
          color := color[o := White(white)];
          RepaintLive(s.color, o, White(white), white);
        }
      } else {
        PlainWrite(s, o, b);
      }
    }

    /** Writes a thread's stack: no barrier. */
    method WriteStack(th: Ref, b: Body, v: Value)
      requires Valid(View()) && th in Live(color, white) && th in body && body[th].Thread? && b.Thread?
      requires In(v, Live(color, white))
      requires forall S: set<Ref> :: Within(body[th], S) && In(v, S) ==> Within(b, S)
      modifies `body
      ensures Valid(View())
      ensures body == old(body)[th := b]
    {
      ghost var s := View();
      LiveParts(th, v);
      ThreadNotBlack(s, th);
      OnlyTablesWait(s, th);
      hide Valid, Within, Live, NonWhite, SafeHeap, Safe;
      body := body[th := b];
      PlainWrite(s, th, b);
    }

    lemma LiveParts(o: Ref, v: Value)
      requires Valid(View()) && o in Live(color, white) && In(v, Live(color, white))
      ensures o in body && o in color && color.Keys == body.Keys && Within(body[o], body.Keys) && Within(body[o], Live(color, white))
      ensures In(v, body.Keys) && In(v, Live(color, white))
      ensures KeepInvariant(gcstate) && color[o].Black? ==> Within(body[o], NonWhite(color))
      ensures v.Gc? && color[v.ref].White? ==> color[v.ref] == White(white)
      ensures !IsWhite(color, v) ==> In(v, NonWhite(color))
    {
      hide Valid, Within;
      SnapParts(View(), o, v);
    }

    /** Creates an object at a fresh address and links it into `allgc`; a
        link of the sweep held by an element moves with that element. */
    method NewObject(o: Ref, b: Body)
      requires Valid(View()) && o !in body && Within(b, {})
      modifies `body, `color, `allgc, `sweepgc
      ensures Valid(View())
      ensures body == old(body)[o := b] && color == old(color)[o := White(white)] && allgc == [o] + old(allgc)
      ensures Live(color, white) == old(Live(color, white)) + {o}
    {
      hide Valid, Within, Live;
      ghost var s := View();
      Create(s, o, b);
      CreateLive(s, o);
      body := body[o := b];
      color := color[o := White(white)];
      allgc, sweepgc := [o] + allgc, Shifted(gcstate == SwpAllgc, sweepgc);
    }

    /** Moves an object that needs finalization from `allgc` to `finobj`. */
    method CheckFinalizer(o: Ref)
      requires Valid(View()) && o in Live(color, white) && o in body && !body[o].Str?
      modifies `color, `body, `allgc, `finobj, `finalized, `sweepgc
      ensures Valid(View()) && Live(color, white) == old(Live(color, white))
      ensures o !in old(finalized) ==> finobj == [o] + old(finobj) && finalized == old(finalized) + {o}
      ensures o in old(finalized) ==> View() == old(View())
    {
      hide Valid, Live, Shifted, Unshifted;
      if o in finalized {
        return;
      }
      OnAllgc(View(), o);
      var k := IndexOf(allgc, o);
      if IsSweepPhase(gcstate) {
        SweepBefore(o, k);
      }
      Refile(k);
    }

    /** Takes element number `k` of `allgc` to the head of `finobj`. */
    method Refile(k: nat)
      requires Valid(View()) && k < |allgc|
      requires IsSweepPhase(gcstate) ==> allgc[k] in color && color[allgc[k]] == White(white)
      requires gcstate == SwpAllgc ==> sweepgc != At(k + 1)
      modifies `allgc, `finobj, `finalized, `sweepgc
      ensures Valid(View())
      ensures allgc == Without(old(allgc), k) && finobj == [old(allgc)[k]] + old(finobj) && finalized == old(finalized) + {old(allgc)[k]}
    {
      hide Valid, Shifted, Unshifted, Without;
      MoveToFinobj(View(), k);
      Relink(k);
    }

    method Relink(k: nat)
      requires k < |allgc|
      modifies `allgc, `finobj, `finalized, `sweepgc
      ensures allgc == Without(old(allgc), k) && finobj == [old(allgc)[k]] + old(finobj) && finalized == old(finalized) + {old(allgc)[k]}
      ensures sweepgc == Shifted(gcstate == SwpFinobj, Unshifted(gcstate == SwpAllgc, old(sweepgc), k))
    {
      finobj, finalized := [allgc[k]] + finobj, finalized + {allgc[k]};
      sweepgc := Shifted(gcstate == SwpFinobj, Unshifted(gcstate == SwpAllgc, sweepgc, k));
      allgc := Without(allgc, k);
    }

    static method IndexOf(l: seq<Ref>, o: Ref) returns (k: nat)
      requires o in l
      ensures k < |l| && l[k] == o && o !in l[..k]
    {
      k := 0;
      while l[k] != o
        invariant k < |l| && o !in l[..k]
        decreases |l| - k
      {
        StillAhead(l, k, o);
        k := k + 1;
      }
    }

    /** In a sweep phase, turns white an object about to leave `allgc` and
        moves the sweep's link out of it. */
    method SweepBefore(o: Ref, k: nat)
      requires Valid(View()) && IsSweepPhase(gcstate) && k < |allgc| && allgc[k] == o && o in Live(color, white)
      modifies `color, `body, `allgc, `sweepgc
      ensures Valid(View()) && Live(color, white) == old(Live(color, white))
      ensures k < |allgc| && allgc[k] == o && o in color && color[o] == White(white)
      ensures gcstate == SwpAllgc ==> sweepgc != At(k + 1)
    {
      hide Safe, Listing, Phase, Live;
      ghost var s := View();
      NotFixed(s, o);
      Sweeten(s, o);
      LiveInHeap(s, o);
      RepaintLive(color, o, White(white), white);
      color := color[o := White(white)];
      if gcstate == SwpAllgc && sweepgc == At(k + 1) {
        SweepPast(k + 1);
      }
    }

    /** Moves the sweep on to the next live object of `allgc`. */
    method SweepPast(n: nat)
      requires Valid(View()) && gcstate == SwpAllgc && sweepgc == At(n)
      modifies `color, `body, `allgc, `sweepgc
      ensures Valid(View()) && Live(color, white) == old(Live(color, white))
      ensures n <= |old(allgc)| && n <= |allgc| && allgc[..n] == old(allgc)[..n]
      ensures forall o :: o in old(allgc)[..n] ==> o in color && o in old(color) && color[o] == old(color)[o]
      ensures sweepgc.At? ==> n < sweepgc.n
    {
      hide Safe, Listing, Phase, Live, SafeHeap, AllWhite, Three, Covers, Reclaimed, CursorIn, Done;
      ghost var s := View();
      BeforeSweep(s);
      AtHeader(s);
      var l, c := SweepToLive(allgc, n, Three(finobj, tobefnz, fixedgc));
      ReclaimedLive(Three(finobj, tobefnz, fixedgc), white, s.body, s.color, body, color);
      StaysWhite(s, n, color, l, c);
      allgc, sweepgc := l, c;
      AfterAllgc(s, View());
    }

    /** Interning finds a string of the heap: a dead one gets the current white
        back. */
    method InternString(o: Ref)
      requires Valid(View()) && o in body && body[o].Str?
      modifies `color
      ensures Valid(View()) && o in Live(color, white) && old(Live(color, white)) <= Live(color, white)
    {
      hide Valid;
      SnapKeys(View());
      if color[o] == White(!white) {
        ReviveString(View(), o);
        color := color[o := White(white)];
      }
    }

    /** Fixes a string just created, before the collector has ever run. */
    method FixString()
      requires Valid(View()) && gcstate == Pause && allgc != [] && allgc[0] in body && body[allgc[0]].Str?
      modifies `allgc, `fixedgc, `color
      ensures Valid(View()) && Live(color, white) == old(Live(color, white))
      ensures fixedgc == [old(allgc)[0]] + old(fixedgc) && allgc == old(allgc)[1..]
    {
      hide Valid, Live;
      var o := allgc[0];
      Fix(View());
      FixLive(View());
      color := color[o := Gray];
      fixedgc, allgc := [o] + fixedgc, allgc[1..];
    }

    /** Ends a cycle before its atomic phase: the sweep that follows turns
        everything white and frees nothing. */
    method AbandonCycle()
      requires Valid(View()) && KeepInvariant(gcstate)
      modifies `gcstate, `sweepgc, `allgc, `body, `color
      ensures Valid(View()) && gcstate == SwpAllgc
    {
      EnterSweep();
    }

    /** One step of the collector. A finalizer runs as the mutator steps that
        follow; here its object is handed to the running thread. */
    method SingleStep(emergency: bool)
      requires Valid(View())
      modifies this
      ensures Valid(View())
      ensures unchanged(`mainthread, `running, `registry, `mt, `fixedgc)
    {
      hide Safe, Listing, Phase;
      match gcstate {
        case Pause => RestartCollection();
        case Propagate => PropagateStep();
        case EnterAtomic => AtomicStep();
        case SwpAllgc => SweepStepAllgc();
        case SwpFinobj => SweepStepFinobj();
        case SwpTobefnz => SweepStepTobefnz();
        case SwpEnd =>
          EndIsNull(View());
          NextList(View());
          gcstate := CallFin;
        case CallFin =>
          if tobefnz != [] && !emergency {
            var o := Udata2Finalize();
            PushRunning(Gc(o));
          } else {
            EndIsNull(View());
            NextList(View());
            gcstate := Pause;
          }
        case Atomic => NeverAtomic(View());
      }
    }

    /** Pushes a value on the stack of the running thread. */
    method PushRunning(v: Value)
      requires Valid(View()) && In(v, Live(color, white))
      modifies `body
      ensures Valid(View())
      ensures running in old(body) && old(body)[running].Thread? && body == old(body)[running := Thread(old(body)[running].stack + [v])]
    {
      hide Valid, Within, Live;
      RunningThread(View());
      forall S: set<Ref> | Within(body[running], S) && In(v, S) ensures Within(Thread(body[running].stack + [v]), S) {
        PushWithin(body[running].stack, v, S);
      }
      WriteStack(running, Thread(body[running].stack + [v]), v);
    }

    // ----- whole runs -----

    /** The value in slot `i` of the running thread; always live. */
    method Load(i: nat) returns (v: Value)
      requires Valid(View())
      ensures In(v, Live(color, white))
      ensures running in body && v == Get(body[running], Slot(i))
    {
      hide Valid, Within, Live, Get;
      RunningThread(View());
      SnapParts(View(), running, Scalar);
      v := Get(body[running], Slot(i));
      GetIn(body[running], Slot(i), Live(color, white));
    }

    method Store(i: nat, v: Value)
      requires Valid(View()) && In(v, Live(color, white))
      modifies `body
      ensures Valid(View()) && running in old(body)
      ensures HasField(old(body)[running], Slot(i)) ==> body == old(body)[running := Put(old(body)[running], Slot(i), v)]
    {
      hide Valid, Within, Live;
      RunningThread(View());
      PutSlot(running, i, v);
    }

    method PutSlot(th: Ref, i: nat, v: Value)
      requires Valid(View()) && th in Live(color, white) && In(v, Live(color, white))
      modifies `body
      ensures Valid(View()) && th in old(body)
      ensures body == if HasField(old(body)[th], Slot(i)) then old(body)[th := Put(old(body)[th], Slot(i), v)] else old(body)
    {
      hide Valid, Within, Live;
      SnapParts(View(), th, v);
      if HasField(body[th], Slot(i)) {
        forall S: set<Ref> | Within(body[th], S) && In(v, S) ensures Within(Put(body[th], Slot(i), v), S) {
          PutWithin(body[th], Slot(i), v, S);
        }
        WriteStack(th, Put(body[th], Slot(i), v), v);
      }
    }

    /** The store would give a white metatable to a table with weak keys and values that has
        been visited. */
    predicate Forgets(o: Ref, v: Value)
      reads `gcstate, `allweak, `color
    {
      KeepInvariant(gcstate) && o in allweak && IsWhite(color, v)
    }

    /** Sets a metatable, with the forward barrier. A table that waits in `allweak` is gray, so
        that there is no barrier for it, and it is not visited again: the invariant is kept
        unless a white metatable is given to such a table. */
    method SetMetatable(o: Ref, v: Value)
      requires Valid(View()) && o in Live(color, white) && o in body && body[o].Table? && In(v, Live(color, white))
      modifies `body, `color, `gray, `grayagain, `lost
      ensures body == old(body)[o := old(body)[o].(meta := v)]
      ensures Lax(View()) && (Phase(View().(lost := {})) <==> !old(Forgets(o, v)))
      ensures Valid(View()) <==> !old(Forgets(o, v))
      ensures old(Forgets(o, v)) ==> View() == old(View()).(body := body, lost := {o})
    {
      hide Safe, Listing, Phase, Within, Live;
      if Forgets(o, v) {
        Replaced(View(), o, v);
        body := body[o := body[o].(meta := v)];
        lost := {o};
      } else {
        PutField(o, Meta, v);
      }
    }

    /** Stores into a table or closure through its barrier. */
    method PutField(o: Ref, f: Field, v: Value)
      requires Valid(View()) && o in Live(color, white) && In(v, Live(color, white)) && !f.Slot?
      requires f.Meta? ==> !Forgets(o, v)
      modifies `body, `color, `gray, `grayagain
      ensures Valid(View()) && o in old(body)
      ensures body == if HasField(old(body)[o], f) then old(body)[o := Put(old(body)[o], f, v)] else old(body)
    {
      hide Valid, Within, Live, Put;
      SnapParts(View(), o, v);
      if HasField(body[o], f) {
        var b := Put(body[o], f, v);
        forall S: set<Ref> | Within(body[o], S) && In(v, S) ensures Within(b, S) {
          PutWithin(body[o], f, v, S);
        }
        PutKind(body[o], f, v);
        if f.Arr? || f.Val? {
          WriteBack(o, b, v, v);
        } else {
          if KeepInvariant(gcstate) {
            PutWaiting(View(), o, f, v);
          }
          WriteForward(o, b, v);
        }
      }
    }

    /** Stores an entry in the hash part of a table, or empties one. */
    method PutEntry(t: Ref, i: nat, n: Node)
      requires Valid(View()) && t in Live(color, white)
      requires n.Entry? ==> In(n.key, Live(color, white)) && In(n.val, Live(color, white))
      modifies `body, `color, `grayagain
      ensures Valid(View()) && t in old(body)
      ensures body == if old(body)[t].Table? && i < |old(body)[t].nodes| then old(body)[t := PutNode(old(body)[t], i, n)] else old(body)
    {
      hide Valid, Within, Live, PutNode;
      SnapParts(View(), t, Scalar);
      if body[t].Table? && i < |body[t].nodes| {
        var k, v := if n.Entry? then n.key else Scalar, if n.Entry? then n.val else Scalar;
        var b := PutNode(body[t], i, n);
        forall S: set<Ref> | Within(body[t], S) && In(k, S) && In(v, S) ensures Within(b, S) {
          PutNodeWithin(body[t], i, n, S);
        }
        PutNodeKind(body[t], i, n);
        WriteBack(t, b, k, v);
      }
    }

    method SetStep(dst: nat, f: Field, src: nat)
      requires Valid(View())
      modifies `body, `color, `gray, `grayagain
      ensures Valid(View())
    {
      hide Valid, Within, Live, Get;
      var u := Load(dst);
      var v := Load(src);
      if u.Gc? {
        if f.Slot? {
          PutSlot(u.ref, f.i, v);
        } else if !f.Meta? || !Forgets(u.ref, v) {
          PutField(u.ref, f, v);
        }
      }
    }

    method EntryStep(dst: nat, i: nat, key: nat, src: nat)
      requires Valid(View())
      modifies `body, `color, `grayagain
      ensures Valid(View())
    {
      hide Valid, Within, Live, Get;
      var u := Load(dst);
      var k := Load(key);
      var v := Load(src);
      if u.Gc? {
        PutEntry(u.ref, i, Entry(k, v));
      }
    }

    /** Switches to another thread. */
    method ResumeStep(src: nat)
      requires Valid(View())
      modifies `running
      ensures Valid(View())
    {
      hide Valid, Within, Live, Get;
      var u := Load(src);
      if u.Gc? {
        SnapParts(View(), u.ref, Scalar);
        if body[u.ref].Thread? {
          OldRoots(View());
          RootWrite(View(), u.ref, registry, mt);
          running := u.ref;
        }
      }
    }

    method FinalizerStep(src: nat)
      requires Valid(View())
      modifies `color, `body, `allgc, `finobj, `finalized, `sweepgc
      ensures Valid(View())
    {
      hide Valid, Within, Live, Get;
      var u := Load(src);
      if u.Gc? {
        SnapParts(View(), u.ref, Scalar);
        if !body[u.ref].Str? {
          CheckFinalizer(u.ref);
        }
      }
    }

    /** One step of a run. Operands are slots of the running thread; a step
        whose operands do not fit does nothing, and neither does one that would give a white
        metatable to a table waiting in `allweak`. */
    method Step(op: Op)
      requires Valid(View())
      modifies this
      ensures Valid(View())
    {
      hide Valid, Within, Live, Get;
      match op {
        case New(dst, o, t) =>
          if o !in body {
            BlankWithin(t);
            NewObject(o, Blank(t));
            Store(dst, Gc(o));
          }
        case Move(dst, src) =>
          var v := Load(src);
          Store(dst, v);
        case Fetch(dst, src, f) =>
          var u := Load(src);
          if u.Gc? {
            SnapParts(View(), u.ref, Scalar);
            GetIn(body[u.ref], f, Live(color, white));
            Store(dst, Get(body[u.ref], f));
          }
        case Set(dst, f, src) =>
          SetStep(dst, f, src);
        case SetEntry(dst, i, key, src) =>
          EntryStep(dst, i, key, src);
        case ClearEntry(dst, i) =>
          var u := Load(dst);
          if u.Gc? {
            PutEntry(u.ref, i, Empty);
          }
        case SetRegistry(src) =>
          var v := Load(src);
          OldRoots(View());
          RootWrite(View(), running, v, mt);
          registry := v;
        case SetGlobalMeta(i, src) =>
          if i < |mt| {
            var v := Load(src);
            OldRoots(View());
            RootWrite(View(), running, registry, mt[i := v]);
            mt := mt[i := v];
          }
        case Resume(src) =>
          ResumeStep(src);
        case NeedsFinalizer(src) =>
          FinalizerStep(src);
        case Intern(dst, o) =>
          if o in body && body[o].Str? {
            InternString(o);
            Store(dst, Gc(o));
          }
        case FixNew =>
          if gcstate == Pause && allgc != [] && allgc[0] in body && body[allgc[0]].Str? {
            FixString();
          }
        case Collect(emergency) =>
          SingleStep(emergency);
        case Abandon =>
          if KeepInvariant(gcstate) {
            AbandonCycle();
          }
      }
    }

    /** Any run whatsoever keeps the invariant, so nothing reachable is ever
        freed: see `NothingDangles`. */
    method Run(ops: seq<Op>)
      requires Valid(View())
      modifies this
      ensures Valid(View())
      ensures forall p :: IsPath(body, Roots(View()), p) ==> p[|p| - 1] in body
    {
      hide Valid;
      for i := 0 to |ops|
        invariant Valid(View())
      {
        Step(ops[i]);
      }
      forall p | IsPath(body, Roots(View()), p) ensures p[|p| - 1] in body {
        NothingDangles(View(), p);
      }
    }

    /** A state with a main thread and nothing else. */
    constructor (main: Ref, slots: nat, tags: nat)
      ensures Valid(View()) && body.Keys == {main}
    {
      body, color := map[main := Thread(seq(slots, i => Scalar))], map[main := White(false)];
      white, gcstate := false, Pause;
      gray, grayagain, weak, allweak, ephemeron, lost := [], [], [], [], [], {};
      allgc, finobj, tobefnz, fixedgc := [main], [], [], [];
      sweepgc, finalized := Null, {};
      mainthread, running, registry, mt := main, main, Scalar, seq(tags, i => Scalar);
      new;
      assert Live(color, white) == {main};
      assert multiset([main]) + multiset(finobj) + multiset(tobefnz) + multiset(fixedgc) == multiset({main});
    }

    /** A given state. */
    constructor Restored(s: Snapshot)
      ensures View() == s
    {
      body, color, white, gcstate := s.body, s.color, s.white, s.gcstate;
      gray, grayagain, weak, allweak, ephemeron, lost := s.gray, s.grayagain, s.weak, s.allweak, s.ephemeron, s.lost;
      allgc, finobj, tobefnz, fixedgc := s.allgc, s.finobj, s.tobefnz, s.fixedgc;
      sweepgc, finalized := s.sweepgc, s.finalized;
      mainthread, running, registry, mt := s.mainthread, s.running, s.registry, s.mt;
    }
  }

  /** At the end of the marking phase: the registry holds table 1, which has weak keys and
      values and waits in `allweak`; table 2 is new. */
  function Visited(): Snapshot {
    Snapshot(map[0 := Thread([]), 1 := Table(Scalar, AllWeak, [], []), 2 := Table(Scalar, Strong, [], [])],
             map[0 := Gray, 1 := Gray, 2 := White(false)], false, EnterAtomic,
             [], [0], [], [1], [], {}, [2, 1, 0], [], [], [], Null, {}, 0, 0, Gc(1), [])
  }

  lemma VisitedValid()
    ensures Valid(Visited()) && Live(Visited().color, false) == {0, 1, 2}
  {
    hide Safe, Listing, Phase;
    VisitedSafe();
    VisitedListing();
    VisitedPhase();
  }

  lemma VisitedSafe()
    ensures Safe(Visited()) && Live(Visited().color, false) == {0, 1, 2}
  {
  }

  lemma VisitedListing()
    ensures Listing(Visited())
  {
    var s := Visited();
    assert s.body.Keys == {0, 1, 2};
    assert multiset(s.allgc) + multiset(s.finobj) + multiset(s.tobefnz) + multiset(s.fixedgc) == multiset{0, 1, 2} == multiset(s.body.Keys);
  }

  lemma VisitedPhase()
    ensures Phase(Visited())
  {
    var s := Visited();
    hide MarkState;
    VisitedMarks();
    assert s.grayagain + s.allweak == [0, 1];
  }

  lemma VisitedMarks()
    ensures var s := Visited(); MarkState(s.body, s.color, s.white, s.fixedgc, s.gray, [0, 1])
  {
    var s := Visited();
    assert Grays(s.color) == {0, 1};
    assert multiset(s.gray) + Sum([0, 1], [], [], [], [], s.fixedgc) == multiset(Grays(s.color)) by { TwoGray(); }
    VisitedWhole();
    hide WholeHeap, Sum, Grays;
  }

  lemma VisitedWhole()
    ensures WholeHeap(Visited().body, Visited().color, false)
  {
  }

  lemma TwoGray()
    ensures multiset([]) + Sum([0, 1], [], [], [], [], []) == multiset({0, 1})
  {
    assert multiset([0, 1]) == multiset{0, 1} == multiset({0, 1});
  }

  /** The same with table 2 as the metatable of table 1. */
  function Dressed(): Objects {
    Visited().body[1 := Table(Gc(2), AllWeak, [], [])]
  }

  /** Nothing but the table that is not visited again asks for table 2. */
  lemma NeverMarked(A: set<Ref>, B: set<Ref>)
    requires A <= {0, 1} && JustifiedButStrings(Dressed(), {1}, A, B)
    ensures 2 !in B
  {
    var X := {0, 1};
    assert StrongClosed(Dressed(), {1}, X);
    assert Strings(Dressed()) == {};
  }

  lemma VisitedRoots(mt: seq<Value>, tobefnz: seq<Ref>, finobj: seq<Ref>)
    requires mt == [] && multiset(finobj) + multiset(tobefnz) == multiset{}
    ensures RefsOf([Gc(0), Gc(1)] + mt) == {0, 1} && tobefnz == [] && Elements(tobefnz) == {}
  {
    var l := [Gc(0), Gc(1)] + mt;
    assert l == [Gc(0), Gc(1)] && l[0] == Gc(0) && l[1] == Gc(1);
    assert |finobj| + |tobefnz| == |multiset(finobj) + multiset(tobefnz)| == 0;
  }

  lemma ToBeSet(g: GlobalState)
    requires g.View() == Visited()
    ensures g.body == Visited().body && g.Forgets(1, Gc(2)) && 1 in g.body && g.body[1].Table? && g.registry == Gc(1) && g.allgc == [2, 1, 0]
    ensures Live(g.color, g.white) == Live(Visited().color, false)
    ensures g.body[1 := g.body[1].(meta := Gc(2))] == Dressed()
  {
  }

  lemma TwoIn()
    ensures In(Gc(2), {0, 1, 2})
  {
  }

  lemma AtAtomic(g: GlobalState)
    requires g.View() == Visited().(body := Dressed(), lost := {1}) && Lax(g.View())
    ensures g.TriColor([]) && g.Lists() && KeepInvariant(g.gcstate) && !g.gcstate.Atomic? && g.Fixed()
    ensures g.Rooted(g.body.Keys) && g.mainthread in NonWhite(g.color) && NonWhite(g.color) == {0, 1}
    ensures forall o :: o in g.finobj || o in g.tobefnz ==> o in g.body
    ensures g.body == Dressed() && g.body.Keys == {0, 1, 2} && g.lost == {1} && g.registry == Gc(1) && g.running == 0 && g.mt == []
    ensures multiset(g.finobj) + multiset(g.tobefnz) == multiset{} && g.allgc == [2, 1, 0]
  {
    hide MarkState, Waiting, SafeHeap, Partition;
    g.OpenMarking();
  }

  lemma LateRootsAre(g: GlobalState)
    requires g.registry == Gc(1) && g.running == 0 && g.mt == []
    ensures g.LateRoots() == RefsOf([Gc(0), Gc(1)] + [])
  {
    assert [Gc(g.running), g.registry] + g.mt == [Gc(0), Gc(1)] + [];
  }

  lemma StillDressed(b: Body)
    requires 1 in Dressed() && Pruned(Dressed()[1], b)
    ensures b.Table? && b.meta == Gc(2)
  {
  }

  /** The metatable is set, and the atomic phase follows. */
  method SetTooLate(g: GlobalState)
    requires g.View() == Visited()
    modifies g
    ensures g.body.Keys == {0, 1, 2} == g.color.Keys && g.registry == Gc(1) && g.allgc == [2, 1, 0]
    ensures 1 in Live(g.color, g.white) && 2 !in Live(g.color, g.white)
    ensures 1 in g.body && g.body[1].Table? && g.body[1].meta == Gc(2)
  {
    hide *;
    VisitedValid();
    ToBeSet(g);
    TwoIn();
    g.SetMetatable(1, Gc(2));
    AtAtomic(g);
    g.AtomicPhase();
    VisitedRoots([], g.tobefnz, g.finobj);
    LateRootsAre(g);
    assert {0, 1} + g.LateRoots() + Elements(g.tobefnz) == {0, 1};
    NeverMarked({0, 1}, NonWhite(g.color));
    StillDressed(g.body[1]);
  }

  /** A metatable set at a bad moment is freed: afterwards the registry leads to a table whose
      metatable is not in the heap. */
  method MetatableFreed() returns (g: GlobalState)
    ensures fresh(g) && g.registry == Gc(1) && 1 in g.body && g.body[1].Table? && g.body[1].meta == Gc(2) && 2 !in g.body
  {
    hide *;
    g := new GlobalState.Restored(Visited());
    SetTooLate(g);
    ghost var b, c := g.body, g.color;
    ThreeListed(b.Keys);
    var kept, k := g.SweepList(g.allgc, |g.allgc|, multiset{});
    SweepsAll([2, 1, 0], k, b, c, g.white, g.body, g.color);
  }

  lemma ThreeListed(K: set<Ref>)
    requires K == {0, 1, 2}
    ensures Covers([2, 1, 0], multiset{}, K)
  {
    assert multiset([2, 1, 0]) + multiset{} == multiset(K);
  }

  /** A sweep of the whole heap keeps the live objects and no others. */
  lemma SweepsAll(l: seq<Ref>, k: nat, body0: Objects, c0: Colors, white: bool, body1: Objects, c1: Colors)
    requires c0.Keys == body0.Keys && (forall o :: o in body0 ==> o in l)
    requires k == |l| && Swept(body0, c0, white, l[..k], body1, c1)
    ensures forall o :: o in body0 ==> (o in body1 <==> o in Live(c0, white)) && (o in body1 ==> body1[o] == body0[o])
  {
    assert l[..k] == l;
  }
}
