/**
 Colours of objects and the one thing marking may do to them.
 */
module Coloring {
  import opened Heap

  /** `White(bit)` is the white numbered by `bit`; the collector alternates
      between the two so that a sweep can tell dead objects from new ones. */
  datatype Color = White(bit: bool) | Gray | Black

  type Colors = map<Ref, Color>

  ghost function NonWhite(c: Colors): set<Ref> { set o | o in c && !c[o].White? }
  ghost function Whites(c: Colors): set<Ref> { set o | o in c && c[o].White? }
  ghost function Grays(c: Colors): set<Ref> { set o | o in c && c[o].Gray? }

  /** The objects that do not carry the white opposite to the current one. */
  ghost function Live(c: Colors, current: bool): set<Ref> { set o | o in c && c[o] != White(!current) }

  /** From `c0`/`g0` to `c1`/`g1` white objects were marked and nothing else
      happened: strings turn black, all others turn gray and enter the gray
      list, so that the list keeps accounting for the gray objects. */
  ghost predicate Marks(body: Objects, c0: Colors, g0: seq<Ref>, c1: Colors, g1: seq<Ref>) {
    && c1.Keys == c0.Keys
    && (forall o :: o in c0 && !c0[o].White? ==> c1[o] == c0[o])
    && (forall o :: o in c0 && c0[o].White? && c1[o] != c0[o] ==>
                      o in body && c1[o] == if body[o].Str? then Black else Gray)
    && multiset(g1) + multiset(Grays(c0)) == multiset(g0) + multiset(Grays(c1))
    && (c1 == c0 ==> g1 == g0)
  }

  lemma Chain(g0: multiset<Ref>, g1: multiset<Ref>, g2: multiset<Ref>, a: multiset<Ref>, b: multiset<Ref>, c: multiset<Ref>)
    requires g1 + a == g0 + b && g2 + b == g1 + c
    ensures g2 + a == g0 + c
  {
    forall x ensures (g2 + a)[x] == (g0 + c)[x] {
      assert (g1 + a)[x] == (g0 + b)[x] && (g2 + b)[x] == (g1 + c)[x];
    }
  }

  lemma MarksTrans(body: Objects, c0: Colors, g0: seq<Ref>, c1: Colors, g1: seq<Ref>, c2: Colors, g2: seq<Ref>)
    requires Marks(body, c0, g0, c1, g1) && Marks(body, c1, g1, c2, g2)
    ensures Marks(body, c0, g0, c2, g2)
  {
    Chain(multiset(g0), multiset(g1), multiset(g2), multiset(Grays(c0)), multiset(Grays(c1)), multiset(Grays(c2)));
    if c2 == c0 {
      assert forall o :: o in c0 ==> c1[o] == c0[o];
      assert c1 == c0;
    }
  }

  lemma MarksRefl(body: Objects, c: Colors, g: seq<Ref>)
    ensures Marks(body, c, g, c, g)
  {
  }

  lemma MarksGrow(body: Objects, c0: Colors, g0: seq<Ref>, c1: Colors, g1: seq<Ref>)
    requires Marks(body, c0, g0, c1, g1)
    ensures NonWhite(c0) <= NonWhite(c1) && Whites(c1) <= Whites(c0)
    ensures c1 != c0 ==> Whites(c1) < Whites(c0)
  {
    if c1 != c0 {
      var o :| o in c0 && c1[o] != c0[o];
      assert o in Whites(c0) && o !in Whites(c1);
    }
  }

  lemma AddToMultiset(A: set<Ref>, B: set<Ref>, o: Ref)
    requires o !in A && B == A + {o}
    ensures multiset(B) == multiset(A) + multiset{o}
  {
  }
}
