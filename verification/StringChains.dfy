/**
 The chains of a hash table of strings, threaded through the strings themselves: what
 moving, adding and removing one string does to them.
 */
module StringChains {

  type Id = nat
  type Byte = b: nat | b < 256

  datatype Link = Null | To(id: Id)

  /** A short string: its bytes, its hash, and the next string of its bucket. */
  datatype TString = TString(bytes: seq<Byte>, hash: nat, hnext: Link)

  function LinkAt(c: seq<Id>, i: nat): Link {
    if i < |c| then To(c[i]) else Null
  }

  /** The chain that starts at `head` is `c`. */
  ghost predicate ChainAt(strs: map<Id, TString>, head: Link, c: seq<Id>) {
    && head == LinkAt(c, 0)
    && forall i :: 0 <= i < |c| ==> c[i] in strs && strs[c[i]].hnext == LinkAt(c, i + 1)
  }

  ghost predicate Chains(strs: map<Id, TString>, heads: seq<Link>, chains: seq<seq<Id>>) {
    && |heads| == |chains|
    && forall b :: 0 <= b < |chains| ==> ChainAt(strs, heads[b], chains[b])
  }

  /** No string is in two places. */
  ghost predicate Once(chains: seq<seq<Id>>) {
    forall a, i, b, j :: 0 <= a < |chains| && 0 <= i < |chains[a]| && 0 <= b < |chains| && 0 <= j < |chains[b]| ==>
      (chains[a][i] == chains[b][j] ==> a == b && i == j)
  }

  ghost predicate In(chains: seq<seq<Id>>, id: Id) {
    exists b :: 0 <= b < |chains| && id in chains[b]
  }

  /** Every string is in some chain. */
  ghost predicate Covers(strs: map<Id, TString>, chains: seq<seq<Id>>) {
    forall id :: id in strs ==> In(chains, id)
  }

  /** The strings of a chain have hashes that belong to bucket `b` of `size`. */
  ghost predicate Placed(strs: map<Id, TString>, c: seq<Id>, b: nat, size: nat)
    requires size > 0
  {
    forall i :: 0 <= i < |c| ==> c[i] in strs && strs[c[i]].hash % size == b
  }

  /** The strings are the same ones; links may differ. */
  ghost predicate SameStrings(a: map<Id, TString>, b: map<Id, TString>) {
    && a.Keys == b.Keys
    && forall id :: id in a ==> b[id].bytes == a[id].bytes && b[id].hash == a[id].hash
  }

  ghost predicate Core(strs: map<Id, TString>, heads: seq<Link>, chains: seq<seq<Id>>) {
    Chains(strs, heads, chains) && Once(chains) && Covers(strs, chains)
  }

  // ---- one string goes to the front of a chain -------------------------------------------

  /** String `id`, which may be new, now links to `next`; nothing else changes. */
  ghost predicate Front(was: map<Id, TString>, now: map<Id, TString>, id: Id, next: Link) {
    && id in now && now[id].hnext == next && now.Keys == was.Keys + {id}
    && forall x :: x in was && x != id ==> now[x] == was[x]
  }

  lemma FrontChain(was: map<Id, TString>, now: map<Id, TString>, head: Link, c: seq<Id>, id: Id)
    requires ChainAt(was, head, c) && id !in c && Front(was, now, id, head)
    ensures ChainAt(now, To(id), [id] + c)
  {
    var c' := [id] + c;
    forall i | 0 <= i < |c'| ensures c'[i] in now && now[c'[i]].hnext == LinkAt(c', i + 1) {
      if i > 0 {
        assert c'[i] == c[i - 1] && c[i - 1] in c;
      }
    }
  }

  lemma OtherChain(was: map<Id, TString>, now: map<Id, TString>, head: Link, c: seq<Id>, id: Id, next: Link)
    requires ChainAt(was, head, c) && id !in c && Front(was, now, id, next)
    ensures ChainAt(now, head, c)
  {
    forall i | 0 <= i < |c| ensures c[i] in now && now[c[i]].hnext == LinkAt(c, i + 1) {
      assert c[i] in c;
    }
  }

  lemma RestOfChain(was: map<Id, TString>, head: Link, c: seq<Id>)
    requires ChainAt(was, head, c) && c != []
    ensures c[0] in was && head == To(c[0]) && ChainAt(was, was[c[0]].hnext, c[1..])
  {
    var c' := c[1..];
    forall i | 0 <= i < |c'| ensures c'[i] in was && was[c'[i]].hnext == LinkAt(c', i + 1) {
      assert c'[i] == c[i + 1];
    }
  }

  /** Moving the first string of chain `a` to the front of chain `b`. */
  function Moved(chains: seq<seq<Id>>, a: nat, b: nat): seq<seq<Id>>
    requires a < |chains| && b < |chains| && chains[a] != [] && a != b
  {
    chains[a := chains[a][1..]][b := [chains[a][0]] + chains[b]]
  }

  lemma MoveOnce(chains: seq<seq<Id>>, a: nat, b: nat)
    requires a < |chains| && b < |chains| && chains[a] != [] && a != b && Once(chains)
    ensures Once(Moved(chains, a, b))
    ensures forall x :: In(chains, x) ==> In(Moved(chains, a, b), x)
  {
    hide In;
    forall x | In(chains, x) ensures In(Moved(chains, a, b), x) {
      MoveIn(chains, a, b, x);
    }
    var now := Moved(chains, a, b);
    forall c, i, d, j | 0 <= c < |now| && 0 <= i < |now[c]| && 0 <= d < |now| && 0 <= j < |now[d]| && now[c][i] == now[d][j]
      ensures c == d && i == j
    {
      MovedFrom(chains, a, b, c, i);
      MovedFrom(chains, a, b, d, j);
    }
  }

  /** Where a place of the new chains came from. */
  lemma MovedFrom(chains: seq<seq<Id>>, a: nat, b: nat, c: nat, i: nat)
    requires a < |chains| && b < |chains| && chains[a] != [] && a != b
    requires c < |chains| && i < |Moved(chains, a, b)[c]|
    ensures c == a ==> i + 1 < |chains[a]| && Moved(chains, a, b)[c][i] == chains[a][i + 1]
    ensures c == b && i == 0 ==> Moved(chains, a, b)[c][i] == chains[a][0]
    ensures c == b && i > 0 ==> i - 1 < |chains[b]| && Moved(chains, a, b)[c][i] == chains[b][i - 1]
    ensures c != a && c != b ==> Moved(chains, a, b)[c] == chains[c]
  {
  }

  lemma MoveIn(chains: seq<seq<Id>>, a: nat, b: nat, x: Id)
    requires a < |chains| && b < |chains| && chains[a] != [] && a != b && In(chains, x)
    ensures In(Moved(chains, a, b), x)
  {
    var now := Moved(chains, a, b);
    var c :| 0 <= c < |chains| && x in chains[c];
    if c == a {
      var i :| 0 <= i < |chains[a]| && chains[a][i] == x;
      if i == 0 {
        assert now[b][0] == x;
      } else {
        assert now[a][i - 1] == x;
      }
    } else if c == b {
      var i :| 0 <= i < |chains[b]| && chains[b][i] == x;
      assert now[b][i + 1] == x;
    } else {
      assert x in now[c];
    }
  }

  lemma Move(was: map<Id, TString>, heads: seq<Link>, chains: seq<seq<Id>>, a: nat, b: nat, id: Id, now: map<Id, TString>)
    requires Core(was, heads, chains) && a < |chains| && b < |chains| && chains[a] != [] && a != b && id == chains[a][0]
    requires id in was && now == was[id := was[id].(hnext := heads[b])]
    ensures Core(now, heads[a := was[id].hnext][b := To(id)], Moved(chains, a, b)) && SameStrings(was, now)
  {
    hide ChainAt, Once, In, Front;
    var heads', chains' := heads[a := was[id].hnext][b := To(id)], Moved(chains, a, b);
    assert Front(was, now, id, heads[b]) by {
      IsFront(was, now, id, heads[b]);
    }
    MoveOnce(chains, a, b);
    forall c | 0 <= c < |chains'| ensures ChainAt(now, heads'[c], chains'[c]) {
      NotElsewhere(chains, a, 0, c);
      if c == a {
        RestOfChain(was, heads[a], chains[a]);
        OtherChain(was, now, was[id].hnext, chains[a][1..], id, heads[b]);
      } else if c == b {
        FrontChain(was, now, heads[b], chains[b], id);
      } else {
        OtherChain(was, now, heads[c], chains[c], id, heads[b]);
      }
    }
  }

  lemma IsFront(was: map<Id, TString>, now: map<Id, TString>, id: Id, next: Link)
    requires id in was && now == was[id := was[id].(hnext := next)]
    ensures Front(was, now, id, next)
  {
  }

  lemma NotElsewhere(chains: seq<seq<Id>>, a: nat, i: nat, c: nat)
    requires Once(chains) && a < |chains| && i < |chains[a]| && c < |chains|
    ensures c != a ==> chains[a][i] !in chains[c]
    ensures c == a ==> chains[a][i] !in chains[a][i + 1..]
  {
    forall j | 0 <= j < |chains[c]| && chains[c][j] == chains[a][i] ensures c == a && j == i {
    }
  }

  // ---- a whole chain moves to an empty one -----------------------------------------------

  lemma Take(strs: map<Id, TString>, heads: seq<Link>, chains: seq<seq<Id>>, a: nat, b: nat)
    requires Core(strs, heads, chains) && a < |chains| && b < |chains| && a != b && chains[b] == []
    ensures Core(strs, heads[a := Null][b := heads[a]], chains[a := []][b := chains[a]])
  {
    hide In;
    var chains' := chains[a := []][b := chains[a]];
    forall x | In(chains, x) ensures In(chains', x) {
      TakeIn(chains, a, b, x);
    }
  }

  lemma TakeIn(chains: seq<seq<Id>>, a: nat, b: nat, x: Id)
    requires a < |chains| && b < |chains| && a != b && chains[b] == [] && In(chains, x)
    ensures In(chains[a := []][b := chains[a]], x)
  {
    var chains' := chains[a := []][b := chains[a]];
    var c :| 0 <= c < |chains| && x in chains[c];
    assert x in chains'[if c == a then b else c];
  }

  // ---- a new string ----------------------------------------------------------------------

  lemma Add(was: map<Id, TString>, heads: seq<Link>, chains: seq<seq<Id>>, b: nat, id: Id, ts: TString)
    requires Core(was, heads, chains) && b < |chains| && id !in was && ts.hnext == heads[b]
    ensures Core(was[id := ts], heads[b := To(id)], chains[b := [id] + chains[b]])
  {
    hide ChainAt, Once, In;
    var now, heads', chains' := was[id := ts], heads[b := To(id)], chains[b := [id] + chains[b]];
    forall c | 0 <= c < |chains'| ensures ChainAt(now, heads'[c], chains'[c]) {
      NotInChain(was, heads[c], chains[c], id);
      if c == b {
        FrontChain(was, now, heads[b], chains[b], id);
      } else {
        OtherChain(was, now, heads[c], chains[c], id, heads[b]);
      }
    }
    forall c | 0 <= c < |chains| ensures id !in chains[c] {
      NotInChain(was, heads[c], chains[c], id);
    }
    AddOnce(chains, b, id);
    forall x | x in now ensures In(chains', x) {
      AddIn(chains, b, id, x);
    }
  }

  lemma NotInChain(strs: map<Id, TString>, head: Link, c: seq<Id>, id: Id)
    requires ChainAt(strs, head, c) && id !in strs
    ensures id !in c
  {
  }

  lemma AddOnce(chains: seq<seq<Id>>, b: nat, id: Id)
    requires Once(chains) && b < |chains| && forall c :: 0 <= c < |chains| ==> id !in chains[c]
    ensures Once(chains[b := [id] + chains[b]])
  {
    var now := chains[b := [id] + chains[b]];
    forall c, i, d, j | 0 <= c < |now| && 0 <= i < |now[c]| && 0 <= d < |now| && 0 <= j < |now[d]| && now[c][i] == now[d][j]
      ensures c == d && i == j
    {
      AddedFrom(chains, b, id, c, i);
      AddedFrom(chains, b, id, d, j);
    }
  }

  lemma AddedFrom(chains: seq<seq<Id>>, b: nat, id: Id, c: nat, i: nat)
    requires b < |chains| && c < |chains| && forall d :: 0 <= d < |chains| ==> id !in chains[d]
    requires i < |chains[b := [id] + chains[b]][c]|
    ensures c == b && i > 0 ==> i - 1 < |chains[b]| && chains[b := [id] + chains[b]][c][i] == chains[b][i - 1]
    ensures c != b ==> chains[b := [id] + chains[b]][c] == chains[c]
    ensures chains[b := [id] + chains[b]][c][i] == id <==> c == b && i == 0
  {
  }

  lemma AddIn(chains: seq<seq<Id>>, b: nat, id: Id, x: Id)
    requires b < |chains| && (x == id || In(chains, x))
    ensures In(chains[b := [id] + chains[b]], x)
  {
    var now := chains[b := [id] + chains[b]];
    if x == id {
      assert now[b][0] == x;
    } else {
      var c :| 0 <= c < |chains| && x in chains[c];
      if c == b {
        var i :| 0 <= i < |chains[b]| && chains[b][i] == x;
        assert now[b][i + 1] == x;
      } else {
        assert x in now[c];
      }
    }
  }

  // ---- a string leaves -------------------------------------------------------------------

  /** The link to string `i` of a chain skips it, and the string is gone. */
  ghost predicate Skipped(was: map<Id, TString>, now: map<Id, TString>, c: seq<Id>, i: nat)
    requires i < |c| && c[i] in was
  {
    && now.Keys == was.Keys - {c[i]}
    && forall x :: x in now ==>
         now[x] == if i > 0 && x == c[i - 1] then was[x].(hnext := was[c[i]].hnext) else was[x]
  }

  lemma SkipChain(was: map<Id, TString>, head: Link, c: seq<Id>, i: nat, now: map<Id, TString>)
    requires ChainAt(was, head, c) && i < |c| && Skipped(was, now, c, i)
    requires forall j, k :: 0 <= j < |c| && 0 <= k < |c| && c[j] == c[k] ==> j == k
    ensures ChainAt(now, if i == 0 then was[c[0]].hnext else head, c[..i] + c[i + 1..])
  {
    var d := c[..i] + c[i + 1..];
    forall k | 0 <= k < |d| ensures d[k] in now && now[d[k]].hnext == LinkAt(d, k + 1) {
      SkipNode(was, head, c, i, now, d, if k < i then k else k + 1, k);
    }
  }

  lemma SkipNode(was: map<Id, TString>, head: Link, c: seq<Id>, i: nat, now: map<Id, TString>, d: seq<Id>, j: nat, k: nat)
    requires ChainAt(was, head, c) && i < |c| && Skipped(was, now, c, i)
    requires forall a, b :: 0 <= a < |c| && 0 <= b < |c| && c[a] == c[b] ==> a == b
    requires d == c[..i] + c[i + 1..] && k < |d| && j == if k < i then k else k + 1
    ensures d[k] in now && now[d[k]].hnext == LinkAt(d, k + 1)
  {
    hide Skipped;
    hide LinkAt;
    SkipSeq(c, i, d, j, k);
    assert c[j] != c[i];
    assert c[j] in was && c[i] in was;
    SkipLink(was, now, c, i, j);
  }

  lemma SkipSeq(c: seq<Id>, i: nat, d: seq<Id>, j: nat, k: nat)
    requires i < |c| && d == c[..i] + c[i + 1..] && k < |d| && j == if k < i then k else k + 1
    ensures j < |c| && d[k] == c[j]
    ensures LinkAt(d, k + 1) == if k + 1 == i then LinkAt(c, i + 1) else LinkAt(c, j + 1)
  {
    if k + 1 < |d| {
      assert d[k + 1] == c[if k + 1 < i then k + 1 else k + 2];
    }
  }

  lemma SkipLink(was: map<Id, TString>, now: map<Id, TString>, c: seq<Id>, i: nat, j: nat)
    requires i < |c| && c[i] in was && Skipped(was, now, c, i) && j < |c| && c[j] in was && c[j] != c[i]
    requires i > 0 && c[j] == c[i - 1] ==> j == i - 1
    ensures c[j] in now && now[c[j]].hnext == if j + 1 == i then was[c[i]].hnext else was[c[j]].hnext
  {
  }

  lemma UntouchedChain(was: map<Id, TString>, head: Link, c: seq<Id>, i: nat, now: map<Id, TString>, h: Link, d: seq<Id>)
    requires ChainAt(was, head, c) && i < |c| && Skipped(was, now, c, i) && ChainAt(was, h, d)
    requires forall x :: x in d ==> x !in c
    ensures ChainAt(now, h, d)
  {
    forall k | 0 <= k < |d| ensures d[k] in now && now[d[k]].hnext == LinkAt(d, k + 1) {
      assert d[k] in d && c[i] in c;
      assert i > 0 ==> c[i - 1] in c;
    }
  }

  lemma Remove(was: map<Id, TString>, heads: seq<Link>, chains: seq<seq<Id>>, b: nat, i: nat, now: map<Id, TString>)
    requires Core(was, heads, chains) && b < |chains| && i < |chains[b]| && chains[b][i] in was
    requires Skipped(was, now, chains[b], i)
    ensures Core(now, heads[b := if i == 0 then was[chains[b][0]].hnext else heads[b]],
                 chains[b := chains[b][..i] + chains[b][i + 1..]])
    ensures now.Keys == was.Keys - {chains[b][i]}
  {
    hide ChainAt, Once, In, Skipped;
    var chains' := chains[b := chains[b][..i] + chains[b][i + 1..]];
    OnceInOne(chains, b);
    assert ChainAt(was, heads[b], chains[b]);
    assert now.Keys == was.Keys - {chains[b][i]} by {
      SkippedKeys(was, now, chains[b], i);
    }
    forall c | 0 <= c < |chains'|
      ensures ChainAt(now, if c == b && i == 0 then was[chains[b][0]].hnext else heads[c], chains'[c])
    {
      if c == b {
        SkipChain(was, heads[b], chains[b], i, now);
      } else {
        Apart(chains, b, c);
        UntouchedChain(was, heads[b], chains[b], i, now, heads[c], chains[c]);
      }
    }
    RemoveOnce(chains, b, i);
    forall x | x in now ensures In(chains', x) {
      RemoveIn(chains, b, i, x);
    }
  }

  lemma SkippedKeys(was: map<Id, TString>, now: map<Id, TString>, c: seq<Id>, i: nat)
    requires i < |c| && c[i] in was && Skipped(was, now, c, i)
    ensures now.Keys == was.Keys - {c[i]}
  {
  }

  lemma OnceInOne(chains: seq<seq<Id>>, b: nat)
    requires Once(chains) && b < |chains|
    ensures forall j, k :: 0 <= j < |chains[b]| && 0 <= k < |chains[b]| && chains[b][j] == chains[b][k] ==> j == k
  {
  }

  lemma Apart(chains: seq<seq<Id>>, a: nat, b: nat)
    requires Once(chains) && a < |chains| && b < |chains| && a != b
    ensures forall x :: x in chains[b] ==> x !in chains[a]
  {
  }

  lemma RemoveOnce(chains: seq<seq<Id>>, b: nat, i: nat)
    requires Once(chains) && b < |chains| && i < |chains[b]|
    ensures Once(chains[b := chains[b][..i] + chains[b][i + 1..]])
  {
    var rest := chains[b][..i] + chains[b][i + 1..];
    var now := chains[b := rest];
    forall c, k, d, j | 0 <= c < |now| && 0 <= k < |now[c]| && 0 <= d < |now| && 0 <= j < |now[d]| && now[c][k] == now[d][j]
      ensures c == d && k == j
    {
      assert now[c][k] == chains[c][if c == b && k >= i then k + 1 else k];
      assert now[d][j] == chains[d][if d == b && j >= i then j + 1 else j];
    }
  }

  lemma RemoveIn(chains: seq<seq<Id>>, b: nat, i: nat, x: Id)
    requires b < |chains| && i < |chains[b]| && In(chains, x) && x != chains[b][i]
    ensures In(chains[b := chains[b][..i] + chains[b][i + 1..]], x)
  {
    var now := chains[b := chains[b][..i] + chains[b][i + 1..]];
    var c :| 0 <= c < |chains| && x in chains[c];
    if c == b {
      var j :| 0 <= j < |chains[b]| && chains[b][j] == x;
      assert now[b][if j < i then j else j - 1] == x;
    } else {
      assert x in now[c];
    }
  }

  // ---- sizes -----------------------------------------------------------------------------

  predicate PowerOfTwo(n: nat): (r: bool)
    ensures r ==> n > 0
  {
    n == 1 || (n > 0 && n % 2 == 0 && PowerOfTwo(n / 2))
  }

  lemma Remainder(x: nat, a: nat, q: nat, r: nat)
    requires x == q * a + r && r < a
    ensures x % a == r
  {
    var d := x / a - q;
    assert d * a == r - x % a by {
      assert x == (x / a) * a + x % a;
      assert (x / a) * a - q * a == d * a;
    }
    Scale(d, a);
  }

  lemma Scale(d: int, a: nat)
    ensures d >= 1 ==> d * a >= a
    ensures d <= -1 ==> d * a <= -(a as int)
  {
  }

  lemma Quotients(h: nat, a: nat, k: nat, q: nat, m: nat, s: nat)
    requires h == k * (q * a) + (m * a + s)
    ensures h == (k * q + m) * a + s
  {
    assert k * (q * a) == (k * q) * a;
    assert (k * q) * a + m * a == (k * q + m) * a;
  }

  /** Of two powers of two, the smaller divides the larger. */
  lemma {:induction false} Divides(a: nat, b: nat)
    requires PowerOfTwo(a) && PowerOfTwo(b) && a <= b
    ensures b % a == 0
  {
    if a > 1 {
      Divides(a / 2, b / 2);
      var half, q := a / 2, (b / 2) / (a / 2);
      assert b / 2 == q * half;
      assert b == q * a by {
        assert q * (half + half) == q * half + q * half;
      }
      Remainder(b, a, q, 0);
    }
  }

  lemma ModOfMod(h: nat, a: nat, b: nat)
    requires a > 0 && b > 0 && b % a == 0
    ensures (h % b) % a == h % a
  {
    var r := h % b;
    Euclid(h, b);
    Euclid(b, a);
    Euclid(r, a);
    Quotients(h, a, h / b, b / a, r / a, r % a);
    Remainder(h, a, (h / b) * (b / a) + r / a, r % a);
  }

  lemma Euclid(x: nat, a: nat)
    requires a > 0
    ensures x == (x / a) * a + x % a && x / a >= 0 && 0 <= x % a < a
  {
  }

  /** A string of old bucket `i` never goes to a bucket that still waits for its turn. */
  lemma NewBucket(hash: nat, i: nat, osize: nat, nsize: nat)
    requires PowerOfTwo(osize) && PowerOfTwo(nsize) && hash % osize == i
    ensures hash % nsize <= i || hash % nsize >= osize
  {
    var h := hash % nsize;
    if osize <= nsize {
      Divides(osize, nsize);
      ModOfMod(hash, osize, nsize);
      if h < osize {
        Remainder(h, osize, 0, h);
      }
    } else {
      Divides(nsize, osize);
      ModOfMod(hash, nsize, osize);
      ModAtMost(i, nsize);
    }
  }

  lemma ModAtMost(x: nat, a: nat)
    requires a > 0
    ensures x % a <= x
  {
    if x < a {
      Remainder(x, a, 0, x);
    }
  }
}
