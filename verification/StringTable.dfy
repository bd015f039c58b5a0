/**
 The table of short strings: every short string exists once, in the bucket of its hash.
 The table is rehashed in place, in either direction.
 */
module StringTable {
  import opened StringChains

  const MAX_INT := 0x7FFF_FFFF
  const MAXSTRTB := MAX_INT

  /** What becomes of a request for memory: granted at once, or after a full collection that
      removes the strings in `dead`, or not at all. While the collector runs with `gcstopem`
      set there is no such collection, and `dead` is empty. */
  datatype Memory = AtOnce | AfterCollection(dead: set<Id>) | Never(dead: set<Id>)
  {
    predicate HasRoom() { !Never? }
    function Freed(): set<Id> { if AtOnce? then {} else dead }
  }

  /** An allocation error when there is no room for one more string. */
  datatype Result = Ok(id: Id) | MemoryError

  /** Buckets from `i` on still hold strings by their place in the old size. */
  ghost predicate Waiting(strs: map<Id, TString>, chains: seq<seq<Id>>, i: nat, osize: nat, nsize: nat)
    requires osize > 0 && nsize > 0
  {
    forall b :: 0 <= b < |chains| - 1 ==> Placed(strs, chains[b], b, if i <= b < osize then osize else nsize)
  }

  ghost predicate AllPlaced(strs: map<Id, TString>, chains: seq<seq<Id>>, size: nat)
    requires size > 0
  {
    forall b :: 0 <= b < |chains| ==> Placed(strs, chains[b], b, size)
  }

  /** Among `osize` buckets these strings are in the first `nsize`. */
  ghost predicate InKeptPart(strs: map<Id, TString>, dead: set<Id>, osize: nat, nsize: nat)
    requires osize > 0
  {
    forall id :: id in dead && id in strs ==> strs[id].hash % osize < nsize
  }

  /** Equal bytes, equal string. */
  ghost predicate Interned(strs: map<Id, TString>) {
    forall a, b :: a in strs && b in strs && strs[a].bytes == strs[b].bytes ==> a == b
  }

  ghost predicate Hashed(strs: map<Id, TString>, hashOf: seq<Byte> -> nat, nextId: Id) {
    forall id :: id in strs ==> strs[id].hash == hashOf(strs[id].bytes) && id < nextId
  }

  ghost predicate Absent(strs: map<Id, TString>, bytes: seq<Byte>) {
    forall id :: id in strs ==> strs[id].bytes != bytes
  }

  /** The strings of `b` are strings of `a`; links may differ. */
  ghost predicate SomeOf(a: map<Id, TString>, b: map<Id, TString>) {
    forall id :: id in b ==> id in a && b[id].bytes == a[id].bytes && b[id].hash == a[id].hash
  }

  class StringTable {
    const hashOf: seq<Byte> -> nat   // the seeded hash
    var hash: array<Link>
    var size: nat
    var nuse: nat
    var strs: map<Id, TString>
    var nextId: Id
    ghost var chains: seq<seq<Id>>

    /** The strings are in the first `m` buckets, each at its place among so many. */
    ghost predicate Split(m: nat)
      reads this, hash
    {
      && size == hash.Length == |chains| && PowerOfTwo(size) && PowerOfTwo(m) && m <= size
      && Core(strs, hash[..], chains) && AllPlaced(strs, chains, m)
      && nuse == |strs| && Interned(strs) && Hashed(strs, hashOf, nextId)
    }

    ghost predicate Valid()
      reads this, hash
    {
      Split(size)
    }

    lemma SplitSize(m: nat)
      requires Split(m)
      ensures 0 < m <= size
    {
    }

    constructor (size: nat, hashOf: seq<Byte> -> nat)
      requires PowerOfTwo(size)
      ensures Valid() && strs == map[] && nuse == 0 && this.size == size && this.hashOf == hashOf && fresh(hash)
    {
      this.hashOf := hashOf;
      hash := new Link[size](_ => Null);
      this.size := size;
      nuse := 0;
      strs := map[];
      nextId := 0;
      chains := seq(size, _ => []);
    }

    /** Moves the strings of one old bucket to their new buckets. */
    method RehashBucket(vect: array<Link>, i: nat, osize: nat, nsize: nat, ghost ch: seq<seq<Id>>)
      returns (ghost ch': seq<seq<Id>>)
      requires PowerOfTwo(osize) && PowerOfTwo(nsize) && i < osize <= vect.Length && nsize <= vect.Length
      requires |ch| == vect.Length + 1 && ch[vect.Length] == [] && Core(strs, vect[..] + [Null], ch)
      requires Waiting(strs, ch, i, osize, nsize)
      modifies this`strs, vect
      ensures |ch'| == vect.Length + 1 && ch'[vect.Length] == [] && Core(strs, vect[..] + [Null], ch')
      ensures Waiting(strs, ch', i + 1, osize, nsize) && SameStrings(old(strs), strs)
    {
      hide Core, Waiting, Placed, SameStrings, PowerOfTwo;
      ghost var n, heads := vect.Length, vect[..] + [Null];
      var p := vect[i];
      vect[i] := Null;
      Take(strs, heads, ch, i, n);
      assert vect[..] + [p] == heads[i := Null][n := heads[i]];
      ch' := ch[i := []][n := ch[i]];
      TakePlaced(strs, ch, i, osize, nsize);
      SameAsItself(strs);
      while p.To?
        invariant |ch'| == n + 1 && Core(strs, vect[..] + [p], ch')
        invariant Waiting(strs, ch', i + 1, osize, nsize) && Placed(strs, ch'[n], i, osize)
        invariant SameStrings(old(strs), strs)
        decreases |ch'[n]|
      {
        First(strs, vect[..] + [p], ch', n, i, osize);
        ghost var was, vectWas := strs, vect[..] + [p];
        var hnext := strs[p.id].hnext;
        var h := strs[p.id].hash % nsize;
        NewBucket(strs[p.id].hash, i, osize, nsize);
        strs := strs[p.id := strs[p.id].(hnext := vect[h])];
        vect[h] := p;
        Move(was, vectWas, ch', n, h, p.id, strs);
        MovePlaced(was, ch', h, i, osize, nsize, strs);
        ch' := Moved(ch', n, h);
        assert vect[..] + [hnext] == vectWas[n := hnext][h := p];
        p := hnext;
        SameAgain(old(strs), was, strs);
      }
      EmptyChain(strs, vect[..] + [p], ch', n);
    }

    /** Rehashes the array in place from `osize` buckets to `nsize`: no string is lost, and
        each gets to its bucket. */
    method TableRehash(vect: array<Link>, osize: nat, nsize: nat, ghost ch: seq<seq<Id>>)
      returns (ghost ch': seq<seq<Id>>)
      requires PowerOfTwo(osize) && PowerOfTwo(nsize) && osize <= vect.Length && nsize <= vect.Length
      requires vect.Length == osize || vect.Length == nsize
      requires |ch| == osize && Core(strs, vect[..osize], ch) && AllPlaced(strs, ch, osize)
      modifies this`strs, vect
      ensures |ch'| == nsize && Core(strs, vect[..nsize], ch') && AllPlaced(strs, ch', nsize)
      ensures SameStrings(old(strs), strs)
      ensures forall k :: nsize <= k < vect.Length ==> vect[k] == Null
    {
      hide Core, Waiting, AllPlaced, SameStrings, PowerOfTwo;
      ghost var was := vect[..osize];
      var i := osize;
      while i < nsize
        invariant i >= osize && (i == osize || i <= nsize)
        invariant vect[..osize] == was && strs == old(strs)
        invariant forall k :: osize <= k < i ==> vect[k] == Null
      {
        vect[i] := Null;
        i := i + 1;
      }
      ghost var n := vect.Length;
      ch' := ch + seq(n + 1 - osize, _ => []);
      Widen(strs, was, ch, vect[..] + [Null], ch', nsize);
      SameAsItself(strs);
      i := 0;
      while i < osize
        invariant i <= osize && |ch'| == n + 1 && ch'[n] == [] && Core(strs, vect[..] + [Null], ch')
        invariant Waiting(strs, ch', i, osize, nsize) && SameStrings(old(strs), strs)
      {
        ghost var before := strs;
        ch' := RehashBucket(vect, i, osize, nsize, ch');
        SameAgain(old(strs), before, strs);
        i := i + 1;
      }
      ghost var heads := vect[..] + [Null];
      Narrow(strs, heads, ch', vect[..nsize], osize, nsize);
      assert forall k :: nsize <= k < n ==> vect[k] == heads[k];
      ch' := ch'[..nsize];
    }

    /** A new array that begins like the old one as far as both go. */
    method Reallocate(nsize: nat) returns (newvect: array<Link>)
      requires nsize > 0
      ensures fresh(newvect) && newvect.Length == nsize
      ensures nsize <= hash.Length ==> newvect[..] == hash[..nsize]
      ensures nsize >= hash.Length ==> newvect[..hash.Length] == hash[..]
    {
      newvect := new Link[nsize];
      forall k | 0 <= k < nsize && k < hash.Length {
        newvect[k] := hash[k];
      }
    }

    /** Changes the number of buckets, unless the new array cannot be had. The request for it
        may run a collection. A table that grows is whole meanwhile. One that shrinks is not:
        a dead string of the part to be cut off is not found where it is looked for, and that
        is the only way in which this can fail. */
    method Resize(nsize: nat, m: Memory) returns (ok: bool)
      requires Valid() && PowerOfTwo(nsize) && m.Freed() <= strs.Keys
      modifies this`hash, this`size, this`nuse, this`strs, this`chains, hash
      ensures ok <==> (nsize < old(size) ==> InKeptPart(old(strs), m.Freed(), old(size), nsize))
      ensures ok ==> Valid() && strs.Keys == old(strs).Keys - m.Freed() && SomeOf(old(strs), strs)
      ensures ok ==> size == if m.HasRoom() then nsize else old(size)
      ensures hash == old(hash) || fresh(hash)
    {
      if nsize < size {
        ok := Shrink(nsize, m);
      } else {
        Grow(nsize, m);
        ok := true;
      }
    }

    method Grow(nsize: nat, m: Memory)
      requires Valid() && PowerOfTwo(nsize) && nsize >= size && m.Freed() <= strs.Keys
      modifies this`hash, this`size, this`nuse, this`strs, this`chains, hash
      ensures Valid() && strs.Keys == old(strs).Keys - m.Freed() && SomeOf(old(strs), strs)
      ensures size == if m.HasRoom() then nsize else old(size)
      ensures hash == old(hash) || fresh(hash)
    {
      hide Core, AllPlaced, SameStrings, PowerOfTwo, Interned, Hashed, SomeOf, InKeptPart;
      CollectAll(m.Freed());
      if m.HasRoom() {
        Enlarge(nsize);
      }
    }

    method Double(m: Memory)
      requires Valid() && m.Freed() <= strs.Keys
      modifies this`hash, this`size, this`nuse, this`strs, this`chains, hash
      ensures Valid() && strs.Keys == old(strs).Keys - m.Freed() && SomeOf(old(strs), strs)
      ensures size == if m.HasRoom() then 2 * old(size) else old(size)
      ensures hash == old(hash) || fresh(hash)
    {
      hide Core, AllPlaced, PowerOfTwo, Interned, Hashed, SomeOf;
      Twice(size);
      Grow(size * 2, m);
    }

    /** A larger array, or one of the same size, takes over. */
    method Enlarge(nsize: nat)
      requires Valid() && PowerOfTwo(nsize) && nsize >= size
      modifies this`hash, this`size, this`strs, this`chains
      ensures Valid() && strs.Keys == old(strs).Keys && size == nsize && fresh(hash)
      ensures forall older: map<Id, TString> :: SomeOf(older, old(strs)) ==> SomeOf(older, strs)
    {
      hide Core, AllPlaced, SameStrings, PowerOfTwo, Interned, Hashed, SomeOf;
      ghost var was := strs;
      var osize := size;
      assert hash[..osize] == hash[..];
      SameAsItself(strs);
      var newvect := Reallocate(nsize);
      hash := newvect;
      size := nsize;
      if nsize > osize {
        chains := TableRehash(newvect, osize, nsize, chains);
      }
      assert hash[..nsize] == hash[..];
      StillInterned(was, strs, hashOf, nextId);
      StillSomeOf(was, strs);
    }

    /** Resizing to a smaller table: the part to be cut off is emptied first, and filled again
        when the new array cannot be had. In between, `size` is the old one. */
    method Shrink(nsize: nat, m: Memory) returns (ok: bool)
      requires Valid() && PowerOfTwo(nsize) && nsize < size && m.Freed() <= strs.Keys
      modifies this`hash, this`size, this`nuse, this`strs, this`chains, hash
      ensures ok <==> InKeptPart(old(strs), m.Freed(), old(size), nsize)
      ensures ok ==> Valid() && strs.Keys == old(strs).Keys - m.Freed() && SomeOf(old(strs), strs)
      ensures ok ==> size == if m.HasRoom() then nsize else old(size)
      ensures hash == old(hash) || fresh(hash)
    {
      hide Core, AllPlaced, SameStrings, PowerOfTwo, Interned, Hashed, SomeOf, InKeptPart;
      ghost var was := strs;
      Depopulate(nsize);
      SamePart(was, strs, m.Freed(), size, nsize);
      ghost var before := strs;
      ok := Collect(m.Freed(), nsize);
      if !ok {
        return;
      }
      SameSomeOf(was, before, strs);
      if m.HasRoom() {
        CutOff(nsize);
      } else {
        Restore(nsize);
      }
    }

    /** Moves all strings to the first `nsize` buckets. */
    method Depopulate(nsize: nat)
      requires Valid() && PowerOfTwo(nsize) && nsize < size
      modifies this`strs, this`chains, hash
      ensures Split(nsize) && SameStrings(old(strs), strs)
    {
      hide Core, AllPlaced, SameStrings, PowerOfTwo, Interned, Hashed;
      assert hash[..size] == hash[..];
      ghost var ch := TableRehash(hash, size, nsize, chains);
      chains := ch + seq(size - nsize, _ => []);
      Half(strs, hash[..nsize], ch, hash[..], chains);
      StillInterned(old(strs), strs, hashOf, nextId);
    }

    /** Goes on with the first `nsize` buckets only. */
    method CutOff(nsize: nat)
      requires Split(nsize)
      modifies this`hash, this`size, this`chains
      ensures Valid() && size == nsize && fresh(hash)
    {
      hide Core, AllPlaced, PowerOfTwo, Interned, Hashed;
      CutHalf(strs, hash[..], chains, nsize);
      var newvect := Reallocate(nsize);
      hash := newvect;
      size := nsize;
      chains := chains[..nsize];
    }

    /** Moves the strings back to where they were. */
    method Restore(nsize: nat)
      requires Split(nsize)
      modifies this`strs, this`chains, hash
      ensures Valid() && strs.Keys == old(strs).Keys
      ensures forall older: map<Id, TString> :: SomeOf(older, old(strs)) ==> SomeOf(older, strs)
    {
      hide Core, AllPlaced, SameStrings, PowerOfTwo, Interned, Hashed, SomeOf;
      CutHalf(strs, hash[..], chains, nsize);
      chains := TableRehash(hash, nsize, size, chains[..nsize]);
      assert hash[..size] == hash[..];
      StillInterned(old(strs), strs, hashOf, nextId);
      StillSomeOf(old(strs), strs);
    }

    /** Shrinks a table that is less than a quarter full, unless in an emergency. A collection
        step sets `gcstopem`; the end of a young collection does not. */
    method CheckSizes(emergency: bool, gcstopem: bool, m: Memory) returns (ok: bool)
      requires Valid() && m.Freed() <= strs.Keys && (gcstopem ==> m.Freed() == {})
      modifies this`hash, this`size, this`nuse, this`strs, this`chains, hash
      ensures gcstopem ==> ok
      ensures ok <==> (!emergency && old(nuse) < old(size) / 4 ==> InKeptPart(old(strs), m.Freed(), old(size), old(size) / 2))
      ensures ok ==> Valid() && SomeOf(old(strs), strs)
    {
      hide Core, AllPlaced, Interned, Hashed, SomeOf;
      SomeOfItself(strs);
      ok := true;
      if !emergency && nuse < size / 4 {
        ok := Resize(size / 2, m);
      }
    }

    /** Takes a dead string out of the bucket of its hash, or fails because it is not there. */
    method Remove(ts: Id, ghost m: nat) returns (ok: bool)
      requires Split(m) && ts in strs
      modifies this`nuse, this`strs, this`chains, hash
      ensures ok <==> old(strs)[ts].hash % size < m
      ensures ok ==> Split(m) && strs.Keys == old(strs).Keys - {ts} && SomeOf(old(strs), strs)
    {
      hide Core, AllPlaced, PowerOfTwo, Interned, Hashed, Skipped, SomeOf;
      ghost var was, heads := strs, hash[..];
      var b := strs[ts].hash % size;
      BucketOf(strs, heads, chains, ts, size, m, b);
      if hash[b].Null? {
        return false;
      }
      ghost var i := InBucket(strs, hash[..], chains, m, ts);
      Unchain(ts, b, chains[b], i, heads);
      RemoveAll(was, heads, chains, b, i, strs, m, hashOf, nextId);
      chains := chains[b := chains[b][..i] + chains[b][i + 1..]];
      nuse := nuse - 1;
      ok := true;
    }

    /** Finds the link to the string in its bucket and makes it skip the string. */
    method Unchain(ts: Id, b: nat, ghost c: seq<Id>, ghost i: nat, ghost heads: seq<Link>)
      requires b < hash.Length && heads == hash[..] && Core(strs, heads, chains) && b < |chains| && chains[b] == c
      requires i < |c| && c[i] == ts
      modifies this`strs, hash
      ensures ts in old(strs) && Skipped(old(strs), strs, c, i) && SomeOf(old(strs), strs)
      ensures c[0] in old(strs) && hash[..] == heads[b := if i == 0 then old(strs)[c[0]].hnext else heads[b]]
    {
      hide Core, Skipped, SomeOf;
      ghost var was := strs;
      AlongChain(strs, heads, chains, b);
      if hash[b] == To(ts) {
        hash[b] := strs[ts].hnext;
        strs := strs - {ts};
      } else {
        var p := hash[b].id;
        ghost var k: nat := 0;
        while strs[p].hnext != To(ts)
          invariant k < i && p == c[k] && strs == was && hash[..] == heads
          decreases i - k
        {
          p := strs[p].hnext.id;
          k := k + 1;
        }
        strs := strs[p := strs[p].(hnext := strs[ts].hnext)] - {ts};
      }
      Skip(was, strs, c, i);
    }

    /** A collection: the collector removes the strings that it finds dead, if each is where
        it is looked for. */
    method Collect(dead: set<Id>, ghost m: nat) returns (ok: bool)
      requires Split(m) && dead <= strs.Keys
      modifies this`nuse, this`strs, this`chains, hash
      ensures ok <==> InKeptPart(old(strs), dead, size, m)
      ensures ok ==> Split(m) && strs.Keys == old(strs).Keys - dead && SomeOf(old(strs), strs)
    {
      hide Split, SomeOf, InKeptPart;
      SplitSize(m);
      var left := dead;
      ghost var gone: set<Id> := {};
      NoneOf(strs, size, m);
      while left != {}
        invariant Split(m) && left <= strs.Keys && left == dead - gone && gone <= dead
        invariant strs.Keys == old(strs).Keys - gone && SomeOf(old(strs), strs)
        invariant InKeptPart(old(strs), gone, size, m)
        decreases |left|
      {
        var ts :| ts in left;
        ghost var before := strs;
        ok := Remove(ts, m);
        OneMore(old(strs), before, gone, dead, ts, size, m);
        if !ok {
          return;
        }
        SomeOfTrans(old(strs), before, strs);
        left := left - {ts};
        gone := gone + {ts};
      }
      assert gone == dead;
      ok := true;
    }

    /** A collection while the table is whole. */
    method CollectAll(dead: set<Id>)
      requires Valid() && dead <= strs.Keys
      modifies this`nuse, this`strs, this`chains, hash
      ensures Valid() && strs.Keys == old(strs).Keys - dead && SomeOf(old(strs), strs) && size == old(size)
      ensures nuse == old(nuse) - |dead|
    {
      hide Core, AllPlaced, PowerOfTwo, Interned, Hashed, SomeOf, InKeptPart;
      AllInKeptPart(strs, dead, size);
      var _ := Collect(dead, size);
      FewerStrings(old(strs), strs, dead);
    }

    /** Makes room before a string is added: too many strings mean a collection, which
        removes `dead`, and then perhaps an error. */
    method GrowStrTab(m: Memory, dead: set<Id>) returns (ok: bool)
      requires Valid() && dead <= strs.Keys && m.Freed() <= strs.Keys - dead
      modifies this`hash, this`size, this`nuse, this`strs, this`chains, hash
      ensures Valid() && SomeOf(old(strs), strs) && (hash == old(hash) || fresh(hash))
      ensures ok <==> (old(nuse) == MAX_INT ==> dead != {})
      ensures strs.Keys == old(strs).Keys - Lost(ok, old(nuse), old(size), m, dead)
      ensures !ok ==> nuse == MAX_INT
      ensures size == if ok && m.HasRoom() && old(size) <= MAXSTRTB / 2 then 2 * old(size) else old(size)
    {
      hide Valid, SomeOf, Lost;
      SomeOfItself(strs);
      if nuse == MAX_INT {
        CollectAll(dead);
        NoneLost(dead);
        if nuse == MAX_INT {
          LostIs(old(strs).Keys, strs.Keys, strs.Keys, false, MAX_INT, size, m, dead);
          return false;
        }
      }
      ok := true;
      ghost var was := strs;
      if size <= MAXSTRTB / 2 {
        Double(m);
        SomeOfTrans(old(strs), was, strs);
      }
      LostIs(old(strs).Keys, was.Keys, strs.Keys, true, old(nuse), old(size), m, dead);
    }

    /** Looks for a string among those of its bucket. */
    method Search(bytes: seq<Byte>, h: nat) returns (r: Link)
      requires Valid() && h == hashOf(bytes)
      ensures r.To? ==> r.id in strs && strs[r.id].bytes == bytes
      ensures r.Null? ==> Absent(strs, bytes)
    {
      hide Core, AllPlaced, PowerOfTwo, Interned, Hashed, Absent;
      ghost var c, i: nat := chains[h % size], 0;
      AlongChain(strs, hash[..], chains, h % size);
      r := hash[h % size];
      while r.To?
        invariant i <= |c| && r == LinkAt(c, i)
        invariant forall k :: 0 <= k < i ==> strs[c[k]].bytes != bytes
        decreases |c| - i
      {
        if |strs[r.id].bytes| == |bytes| && strs[r.id].bytes == bytes {
          return;
        }
        r := strs[r.id].hnext;
        i := i + 1;
      }
      NotInTable(strs, hash[..], chains, size, hashOf, nextId, bytes);
    }

    /** The string with these bytes: the one there is, or a new one. The allocation of a new
        string may run a collection too, which removes `dead`. */
    method Intern(bytes: seq<Byte>, m: Memory, deadBefore: set<Id>, dead: set<Id>) returns (r: Result)
      requires Valid() && deadBefore <= strs.Keys && m.Freed() <= strs.Keys - deadBefore && dead <= strs.Keys - deadBefore - m.Freed()
      modifies this`hash, this`size, this`nuse, this`strs, this`chains, this`nextId, hash
      ensures Valid() && (hash == old(hash) || fresh(hash))
      ensures forall id :: id in old(strs) && old(strs)[id].bytes == bytes ==> r == Ok(id) && strs == old(strs)
      ensures r.Ok? ==> r.id in strs && strs[r.id].bytes == bytes
      ensures r.Ok? && Absent(old(strs), bytes) ==> r.id !in old(strs) && SomeOf(old(strs), strs - {r.id})
      ensures r.Ok? && Absent(old(strs), bytes) ==>
                strs.Keys == old(strs).Keys - dead
                             - (if old(size) <= old(nuse) then Lost(true, old(nuse), old(size), m, deadBefore) else {}) + {r.id}
      ensures r.MemoryError? <==> Absent(old(strs), bytes) && old(size) <= old(nuse) == MAX_INT && deadBefore == {}
      ensures r.MemoryError? ==> nuse == MAX_INT && SomeOf(old(strs), strs) && strs.Keys == old(strs).Keys
      ensures old(nuse) < old(size) ==> size == old(size)
    {
      hide Core, AllPlaced, PowerOfTwo, Interned, Hashed, Absent, SomeOf;
      var h := hashOf(bytes);
      var ts := Search(bytes, h);
      if ts.To? {
        OnlyOne(strs, ts.id);
        PresentNotAbsent(strs, bytes, ts.id);
        return Ok(ts.id);
      }
      AbsentMeans(strs, bytes);
      BelowNext(strs, hashOf, nextId);
      r := Create(bytes, h, m, deadBefore, dead);
    }

    /** Creates the string that was not found, after making room for it. */
    method Create(bytes: seq<Byte>, h: nat, m: Memory, deadBefore: set<Id>, dead: set<Id>) returns (r: Result)
      requires Valid() && deadBefore <= strs.Keys && m.Freed() <= strs.Keys - deadBefore && dead <= strs.Keys - deadBefore - m.Freed()
      requires h == hashOf(bytes) && Absent(strs, bytes) && forall x :: x in strs ==> x < nextId
      modifies this`hash, this`size, this`nuse, this`strs, this`chains, this`nextId, hash
      ensures Valid() && (hash == old(hash) || fresh(hash))
      ensures r.Ok? ==> r.id in strs && strs[r.id].bytes == bytes
      ensures r.Ok? ==> r.id !in old(strs) && SomeOf(old(strs), strs - {r.id})
      ensures r.Ok? ==>
                strs.Keys == old(strs).Keys - dead
                             - (if old(size) <= old(nuse) then Lost(true, old(nuse), old(size), m, deadBefore) else {}) + {r.id}
      ensures r.MemoryError? <==> old(size) <= old(nuse) == MAX_INT && deadBefore == {}
      ensures r.MemoryError? ==> nuse == MAX_INT && SomeOf(old(strs), strs) && strs.Keys == old(strs).Keys
      ensures old(nuse) < old(size) ==> size == old(size)
    {
      hide Valid, Absent, SomeOf, Lost;
      ghost var was := strs;
      ghost var lost := if nuse >= size then Lost(true, nuse, size, m, deadBefore) else {};
      LostWithin(nuse, size, m, deadBefore, was.Keys, dead, lost);
      var ok := MakeRoom(m, deadBefore);
      if !ok {
        return MemoryError;
      }
      ghost var grown := strs;
      CollectAll(dead);
      SomeOfTrans(was, grown, strs);
      ghost var before := strs;
      var id := AddNew(bytes, h, was);
      SomeOfPlus(was, before, id, strs[id]);
      CreatedKeys(was.Keys, grown.Keys, before.Keys, strs.Keys, lost, dead, id);
      r := Ok(id);
    }

    /** Makes room if there are as many strings as buckets. */
    method MakeRoom(m: Memory, dead: set<Id>) returns (ok: bool)
      requires Valid() && dead <= strs.Keys && m.Freed() <= strs.Keys - dead
      modifies this`hash, this`size, this`nuse, this`strs, this`chains, hash
      ensures Valid() && SomeOf(old(strs), strs) && (hash == old(hash) || fresh(hash))
      ensures !ok <==> old(size) <= old(nuse) == MAX_INT && dead == {}
      ensures !ok ==> nuse == MAX_INT && strs.Keys == old(strs).Keys
      ensures ok ==> strs.Keys == old(strs).Keys - (if old(nuse) >= old(size) then Lost(true, old(nuse), old(size), m, dead) else {})
      ensures old(nuse) < old(size) ==> size == old(size)
    {
      hide Valid, SomeOf, Lost;
      SomeOfItself(strs);
      ok := true;
      if nuse >= size {
        ok := GrowStrTab(m, dead);
        NoneLostYet(old(nuse), old(size), m, dead);
      }
    }

    /** A new string at the front of its bucket. */
    method AddNew(bytes: seq<Byte>, h: nat, ghost older: map<Id, TString>) returns (id: Id)
      requires Valid() && h == hashOf(bytes) && SomeOf(older, strs) && Absent(older, bytes)
      requires forall x :: x in older ==> x < nextId
      modifies this`nuse, this`strs, this`chains, this`nextId, hash
      ensures Valid() && id !in old(strs) && id !in older && id in strs && strs[id].bytes == bytes
      ensures strs == old(strs)[id := strs[id]]
    {
      hide Core, AllPlaced, PowerOfTwo, Interned, Hashed, Absent, SomeOf;
      ghost var was, heads := strs, hash[..];
      var b := h % size;
      id := nextId;
      var ts := TString(bytes, h, hash[b]);
      AddAll(older, was, heads, chains, b, id, ts, size, hashOf);
      strs := strs[id := ts];
      hash[b] := To(id);
      nextId := nextId + 1;
      nuse := nuse + 1;
      assert hash[..] == heads[b := To(id)];
      chains := chains[b := [id] + chains[b]];
    }
  }

  /** A table that cannot be shrunk by a collector that may be interrupted: the one string of
      a table of any size, in its upper half and dead. */
  method ShrinkLosesString(n: nat, hashOf: seq<Byte> -> nat, bytes: seq<Byte>) returns (t: StringTable, ok: bool)
    requires PowerOfTwo(n) && n >= 8 && hashOf(bytes) % n >= n / 2
    ensures t.hashOf == hashOf && !ok
  {
    hide PowerOfTwo, StringTable.Valid;
    t := new StringTable(n, hashOf);
    AbsentHere(bytes);
    var r := t.Intern(bytes, AtOnce, {}, {});
    OneString(t, r.id);
    ok := t.CheckSizes(false, false, Never({r.id}));
  }

  lemma AbsentHere(bytes: seq<Byte>)
    ensures Absent(map[], bytes)
  {
  }

  lemma OneString(t: StringTable, id: Id)
    requires t.Valid() && t.strs.Keys == {id}
    ensures t.nuse == 1 && t.strs[id].hash == t.hashOf(t.strs[id].bytes)
  {
    assert |t.strs| == |t.strs.Keys|;
  }

  /** The strings that making room for one more takes away. */
  function Lost(ok: bool, nuse: nat, size: nat, m: Memory, dead: set<Id>): set<Id> {
    (if nuse == MAX_INT then dead else {}) + (if ok && size <= MAXSTRTB / 2 then m.Freed() else {})
  }

  lemma FewerStrings(a: map<Id, TString>, b: map<Id, TString>, dead: set<Id>)
    requires b.Keys == a.Keys - dead && dead <= a.Keys
    ensures |b| == |a| - |dead|
  {
    assert |a| == |a.Keys| && |b| == |b.Keys|;
  }

  lemma LostIs(a: set<Id>, b: set<Id>, c: set<Id>, ok: bool, nuse: nat, size: nat, m: Memory, dead: set<Id>)
    requires b == (if nuse == MAX_INT then a - dead else a)
    requires c == (if ok && size <= MAXSTRTB / 2 then b - m.Freed() else b)
    ensures c == a - Lost(ok, nuse, size, m, dead)
  {
  }

  lemma NoneLostYet(nuse: nat, size: nat, m: Memory, dead: set<Id>)
    ensures dead == {} ==> Lost(false, nuse, size, m, dead) == {}
  {
  }

  lemma LostWithin(nuse: nat, size: nat, m: Memory, before: set<Id>, keys: set<Id>, dead: set<Id>, lost: set<Id>)
    requires dead <= keys - before - m.Freed()
    requires lost == if nuse >= size then Lost(true, nuse, size, m, before) else {}
    ensures dead <= keys - lost
  {
  }

  lemma CreatedKeys(a: set<Id>, b: set<Id>, c: set<Id>, d: set<Id>, lost: set<Id>, dead: set<Id>, id: Id)
    requires b == a - lost && c == b - dead && d == c + {id}
    ensures d == a - dead - lost + {id}
  {
  }

  lemma NoneLost(dead: set<Id>)
    ensures |dead| == 0 <==> dead == {}
  {
  }

  lemma NoneOf(strs: map<Id, TString>, size: nat, m: nat)
    requires size > 0
    ensures InKeptPart(strs, {}, size, m) && SomeOf(strs, strs)
  {
  }

  /** Whether one more dead string is in the part that is kept. */
  lemma OneMore(a: map<Id, TString>, b: map<Id, TString>, gone: set<Id>, dead: set<Id>, ts: Id, size: nat, m: nat)
    requires SomeOf(a, b) && size > 0 && ts in b && ts in dead && InKeptPart(a, gone, size, m)
    ensures b[ts].hash % size < m ==> InKeptPart(a, gone + {ts}, size, m)
    ensures b[ts].hash % size >= m ==> !InKeptPart(a, dead, size, m)
  {
    assert ts in a && a[ts].hash == b[ts].hash;
  }

  lemma Twice(n: nat)
    requires PowerOfTwo(n)
    ensures PowerOfTwo(n * 2)
  {
    assert n * 2 / 2 == n;
  }

  lemma AllInKeptPart(strs: map<Id, TString>, dead: set<Id>, size: nat)
    requires size > 0
    ensures InKeptPart(strs, dead, size, size)
  {
  }

  lemma SamePart(a: map<Id, TString>, b: map<Id, TString>, dead: set<Id>, osize: nat, nsize: nat)
    requires SameStrings(a, b) && osize > 0
    ensures a.Keys == b.Keys
    ensures InKeptPart(a, dead, osize, nsize) <==> InKeptPart(b, dead, osize, nsize)
  {
  }

  lemma SameSomeOf(a: map<Id, TString>, b: map<Id, TString>, c: map<Id, TString>)
    requires SameStrings(a, b) && SomeOf(b, c)
    ensures SomeOf(a, c) && a.Keys == b.Keys
  {
  }

  lemma StillSomeOf(a: map<Id, TString>, b: map<Id, TString>)
    requires SameStrings(a, b)
    ensures a.Keys == b.Keys
    ensures forall older: map<Id, TString> :: SomeOf(older, a) ==> SomeOf(older, b)
  {
  }

  /** Empty buckets at the end. */
  lemma Half(strs: map<Id, TString>, heads: seq<Link>, chains: seq<seq<Id>>, heads': seq<Link>, chains': seq<seq<Id>>)
    requires |heads| == |chains| <= |heads'| == |chains'| && chains != []
    requires heads' == heads + heads'[|heads|..] && forall b :: |heads| <= b < |heads'| ==> heads'[b] == Null
    requires chains' == chains + chains'[|chains|..] && forall b :: |chains| <= b < |chains'| ==> chains'[b] == []
    requires Core(strs, heads, chains) && AllPlaced(strs, chains, |chains|)
    ensures Core(strs, heads', chains') && AllPlaced(strs, chains', |chains|)
  {
    hide Core, Placed, Waiting;
    if |chains| == |chains'| {
      assert heads' == heads && chains' == chains;
    } else {
      Widen(strs, heads, chains, heads', chains', |chains|);
      WaitingPlaced(strs, chains', |chains|);
    }
  }

  lemma WaitingPlaced(strs: map<Id, TString>, chains: seq<seq<Id>>, n: nat)
    requires n > 0 && Waiting(strs, chains, 0, n, n) && chains != [] && chains[|chains| - 1] == []
    ensures AllPlaced(strs, chains, n)
  {
    hide Placed;
    forall b | 0 <= b < |chains| ensures Placed(strs, chains[b], b, n) {
      if b == |chains| - 1 {
        EmptyPlaced(strs, b, n);
      }
    }
  }

  /** Without the empty buckets at the end. */
  lemma CutHalf(strs: map<Id, TString>, heads: seq<Link>, chains: seq<seq<Id>>, n: nat)
    requires Core(strs, heads, chains) && 0 < n <= |chains| && AllPlaced(strs, chains, n)
    ensures Core(strs, heads[..n], chains[..n]) && AllPlaced(strs, chains[..n], n)
  {
    hide Placed, In;
    forall b | n <= b < |chains| ensures chains[b] == [] {
      BeyondEmpty(strs, chains[b], b, n);
    }
    forall id | id in strs ensures In(chains[..n], id) {
      InNarrow(chains, n, id);
    }
  }

  /** The bucket that a string is looked for in is its own, or an empty one. */
  lemma BucketOf(strs: map<Id, TString>, heads: seq<Link>, chains: seq<seq<Id>>, ts: Id, size: nat, m: nat, b: nat)
    requires Core(strs, heads, chains) && size == |chains| == |heads| && 0 < m <= size && AllPlaced(strs, chains, m)
    requires PowerOfTwo(size) && PowerOfTwo(m) && ts in strs && b == strs[ts].hash % size
    ensures b < m ==> heads[b].To? && b == strs[ts].hash % m
    ensures b >= m ==> heads[b].Null?
  {
    hide Placed, Core, AllPlaced, PowerOfTwo;
    AlongChain(strs, heads, chains, b);
    if b < m {
      SameRemainder(strs[ts].hash, m, size, b);
      var _ := InBucket(strs, heads, chains, m, ts);
    } else {
      PlacedAt(strs, chains, b, m);
      BeyondEmpty(strs, chains[b], b, m);
    }
  }

  lemma SameRemainder(h: nat, m: nat, size: nat, b: nat)
    requires PowerOfTwo(m) && PowerOfTwo(size) && m <= size && b == h % size < m
    ensures b == h % m
  {
    hide PowerOfTwo;
    Divides(m, size);
    ModOfMod(h, m, size);
    Remainder(b, m, 0, b);
  }

  lemma PlacedAt(strs: map<Id, TString>, chains: seq<seq<Id>>, b: nat, m: nat)
    requires m > 0 && b < |chains| && AllPlaced(strs, chains, m)
    ensures Placed(strs, chains[b], b, m)
  {
  }

  lemma SameAsItself(strs: map<Id, TString>)
    ensures SameStrings(strs, strs)
  {
  }

  lemma SameAgain(a: map<Id, TString>, b: map<Id, TString>, c: map<Id, TString>)
    requires SameStrings(a, b) && SameStrings(b, c)
    ensures SameStrings(a, c)
  {
  }

  lemma SomeOfItself(strs: map<Id, TString>)
    ensures SomeOf(strs, strs)
  {
  }

  lemma SomeOfTrans(a: map<Id, TString>, b: map<Id, TString>, c: map<Id, TString>)
    requires SomeOf(a, b) && SomeOf(b, c)
    ensures SomeOf(a, c)
  {
  }

  lemma SomeOfPlus(a: map<Id, TString>, b: map<Id, TString>, id: Id, ts: TString)
    requires SomeOf(a, b) && id !in b
    ensures SomeOf(a, b[id := ts] - {id})
  {
  }

  lemma BelowNext(strs: map<Id, TString>, hashOf: seq<Byte> -> nat, nextId: Id)
    requires Hashed(strs, hashOf, nextId)
    ensures forall id :: id in strs ==> id < nextId
  {
  }

  lemma AbsentMeans(strs: map<Id, TString>, bytes: seq<Byte>)
    requires Absent(strs, bytes)
    ensures forall id :: id in strs ==> strs[id].bytes != bytes
  {
  }

  lemma PresentNotAbsent(strs: map<Id, TString>, bytes: seq<Byte>, id: Id)
    requires id in strs && strs[id].bytes == bytes
    ensures !Absent(strs, bytes)
  {
  }

  lemma OnlyOne(strs: map<Id, TString>, id: Id)
    requires Interned(strs) && id in strs
    ensures forall x :: x in strs && strs[x].bytes == strs[id].bytes ==> x == id
  {
  }

  lemma TakePlaced(strs: map<Id, TString>, chains: seq<seq<Id>>, i: nat, osize: nat, nsize: nat)
    requires i < osize < |chains| && nsize > 0 && Waiting(strs, chains, i, osize, nsize)
    ensures Waiting(strs, chains[i := []][|chains| - 1 := chains[i]], i + 1, osize, nsize)
    ensures Placed(strs, chains[i], i, osize)
  {
    hide Placed;
    EmptyPlaced(strs, i, nsize);
    var chains' := chains[i := []][|chains| - 1 := chains[i]];
    forall b | 0 <= b < |chains| - 1 ensures Placed(strs, chains'[b], b, if i + 1 <= b < osize then osize else nsize) {
      assert Placed(strs, chains[b], b, if i <= b < osize then osize else nsize);
    }
  }

  lemma EmptyPlaced(strs: map<Id, TString>, b: nat, size: nat)
    requires size > 0
    ensures Placed(strs, [], b, size)
  {
  }

  lemma First(strs: map<Id, TString>, heads: seq<Link>, chains: seq<seq<Id>>, n: nat, i: nat, osize: nat)
    requires n < |chains| && Core(strs, heads, chains) && heads[n].To? && osize > 0 && Placed(strs, chains[n], i, osize)
    ensures chains[n] != [] && heads[n] == To(chains[n][0]) && chains[n][0] in strs && strs[chains[n][0]].hash % osize == i
  {
    hide Once, Covers;
    assert ChainAt(strs, heads[n], chains[n]);
  }

  lemma EmptyChain(strs: map<Id, TString>, heads: seq<Link>, chains: seq<seq<Id>>, n: nat)
    requires n < |chains| && Core(strs, heads, chains) && heads[n].Null?
    ensures chains[n] == []
  {
    hide Once, Covers;
    assert ChainAt(strs, heads[n], chains[n]);
  }

  lemma StillPlaced(was: map<Id, TString>, now: map<Id, TString>, c: seq<Id>, b: nat, size: nat)
    requires size > 0 && SameStrings(was, now) && Placed(was, c, b, size)
    ensures Placed(now, c, b, size)
  {
  }

  lemma MovePlaced(was: map<Id, TString>, chains: seq<seq<Id>>, h: nat, i: nat, osize: nat, nsize: nat, now: map<Id, TString>)
    requires osize > 0 && nsize > 0 && h < |chains| - 1 && chains[|chains| - 1] != [] && SameStrings(was, now)
    requires Waiting(was, chains, i + 1, osize, nsize) && Placed(was, chains[|chains| - 1], i, osize)
    requires chains[|chains| - 1][0] in was && was[chains[|chains| - 1][0]].hash % nsize == h && (h <= i || h >= osize)
    ensures Waiting(now, Moved(chains, |chains| - 1, h), i + 1, osize, nsize)
    ensures Placed(now, chains[|chains| - 1][1..], i, osize)
  {
    hide SameStrings, Placed;
    var n := |chains| - 1;
    var id, chains' := chains[n][0], Moved(chains, n, h);
    forall b | 0 <= b < n ensures Placed(now, chains'[b], b, if i + 1 <= b < osize then osize else nsize) {
      StillPlaced(was, now, chains[b], b, if i + 1 <= b < osize then osize else nsize);
      if b == h {
        FrontPlaced(was, now, id, chains[h], h, nsize);
      }
    }
    StillPlaced(was, now, chains[n], i, osize);
    TailPlaced(now, chains[n], i, osize);
  }

  lemma FrontPlaced(was: map<Id, TString>, now: map<Id, TString>, id: Id, c: seq<Id>, b: nat, size: nat)
    requires size > 0 && SameStrings(was, now) && id in was && was[id].hash % size == b && Placed(now, c, b, size)
    ensures Placed(now, [id] + c, b, size)
  {
    assert now[id].hash == was[id].hash;
  }

  lemma TailPlaced(strs: map<Id, TString>, c: seq<Id>, b: nat, size: nat)
    requires size > 0 && c != [] && Placed(strs, c, b, size)
    ensures Placed(strs, c[1..], b, size)
  {
  }

  /** Empty buckets are added, and the empty chain of the strings on the move. */
  lemma Widen(strs: map<Id, TString>, heads: seq<Link>, chains: seq<seq<Id>>, heads': seq<Link>, chains': seq<seq<Id>>, nsize: nat)
    requires |heads| == |chains| < |heads'| == |chains'| && nsize > 0 && chains != []
    requires heads' == heads + heads'[|heads|..] && forall b :: |heads| <= b < |heads'| ==> heads'[b] == Null
    requires chains' == chains + chains'[|chains|..] && forall b :: |chains| <= b < |chains'| ==> chains'[b] == []
    requires Core(strs, heads, chains) && AllPlaced(strs, chains, |chains|)
    ensures Core(strs, heads', chains') && Waiting(strs, chains', 0, |chains|, nsize)
  {
    hide In, Placed;
    var n := |chains|;
    forall b | 0 <= b < |chains'| ensures ChainAt(strs, heads'[b], chains'[b]) {
      if b < n {
        assert heads'[b] == heads[b] && chains'[b] == chains[b] && ChainAt(strs, heads[b], chains[b]);
      }
    }
    forall a, i, b, j | 0 <= a < |chains'| && 0 <= i < |chains'[a]| && 0 <= b < |chains'| && 0 <= j < |chains'[b]|
                        && chains'[a][i] == chains'[b][j]
      ensures a == b && i == j
    {
      assert a < n && b < n && chains'[a] == chains[a] && chains'[b] == chains[b];
    }
    forall id | id in strs ensures In(chains', id) {
      InPrefix(chains, chains', id);
    }
    forall b | 0 <= b < |chains'| - 1 ensures Placed(strs, chains'[b], b, if b < n then n else nsize) {
      if b < n {
        assert Placed(strs, chains[b], b, n) && chains'[b] == chains[b];
      } else {
        EmptyPlaced(strs, b, nsize);
      }
    }
  }

  lemma InPrefix(chains: seq<seq<Id>>, chains': seq<seq<Id>>, id: Id)
    requires |chains| <= |chains'| && chains'[..|chains|] == chains && In(chains, id)
    ensures In(chains', id)
  {
    var b :| 0 <= b < |chains| && id in chains[b];
    assert chains'[b] == chains[b];
  }

  /** When all strings are in their new buckets, the others are empty. */
  lemma Narrow(strs: map<Id, TString>, heads: seq<Link>, chains: seq<seq<Id>>, heads': seq<Link>, osize: nat, nsize: nat)
    requires Core(strs, heads, chains) && 0 < nsize < |chains| && osize > 0 && heads' == heads[..nsize]
    requires chains[|chains| - 1] == [] && Waiting(strs, chains, osize, osize, nsize)
    ensures Core(strs, heads', chains[..nsize]) && AllPlaced(strs, chains[..nsize], nsize)
    ensures forall b :: nsize <= b < |chains| ==> heads[b] == Null
  {
    hide Placed, In;
    var chains' := chains[..nsize];
    forall b | 0 <= b < |chains| - 1 ensures Placed(strs, chains[b], b, nsize) {
    }
    forall b | nsize <= b < |chains| ensures chains[b] == [] {
      if b < |chains| - 1 {
        BeyondEmpty(strs, chains[b], b, nsize);
      }
    }
    forall id | id in strs ensures In(chains', id) {
      InNarrow(chains, nsize, id);
    }
  }

  lemma NonEmptyBelow(strs: map<Id, TString>, c: seq<Id>, b: nat, size: nat)
    requires size > 0 && c != [] && Placed(strs, c, b, size)
    ensures b < size
  {
    assert strs[c[0]].hash % size == b;
  }

  lemma BeyondEmpty(strs: map<Id, TString>, c: seq<Id>, b: nat, size: nat)
    requires size > 0 && b >= size && Placed(strs, c, b, size)
    ensures c == []
  {
    if c != [] {
      NonEmptyBelow(strs, c, b, size);
    }
  }

  lemma InNarrow(chains: seq<seq<Id>>, nsize: nat, id: Id)
    requires nsize <= |chains| && In(chains, id) && forall b :: nsize <= b < |chains| ==> chains[b] == []
    ensures In(chains[..nsize], id)
  {
    var b :| 0 <= b < |chains| && id in chains[b];
    assert chains[..nsize][b] == chains[b];
  }

  lemma StillInterned(was: map<Id, TString>, now: map<Id, TString>, hashOf: seq<Byte> -> nat, nextId: Id)
    requires SameStrings(was, now) && Interned(was) && Hashed(was, hashOf, nextId)
    ensures Interned(now) && Hashed(now, hashOf, nextId) && |now| == |was|
  {
    assert |now| == |now.Keys| && |was| == |was.Keys|;
  }

  lemma AlongChain(strs: map<Id, TString>, heads: seq<Link>, chains: seq<seq<Id>>, b: nat)
    requires Core(strs, heads, chains) && b < |chains|
    ensures heads[b] == LinkAt(chains[b], 0)
    ensures forall i :: 0 <= i < |chains[b]| ==> chains[b][i] in strs && strs[chains[b][i]].hnext == LinkAt(chains[b], i + 1)
    ensures forall i, j :: 0 <= i < |chains[b]| && 0 <= j < |chains[b]| && chains[b][i] == chains[b][j] ==> i == j
  {
    hide Covers;
    assert ChainAt(strs, heads[b], chains[b]);
  }

  /** Every string is in the bucket of its hash. */
  lemma InBucket(strs: map<Id, TString>, heads: seq<Link>, chains: seq<seq<Id>>, size: nat, id: Id) returns (i: nat)
    requires 0 < size <= |chains| && Core(strs, heads, chains) && AllPlaced(strs, chains, size) && id in strs
    ensures i < |chains[strs[id].hash % size]| && chains[strs[id].hash % size][i] == id
  {
    hide Chains, Once;
    assert In(chains, id);
    var b :| 0 <= b < |chains| && id in chains[b];
    assert Placed(strs, chains[b], b, size);
    i :| 0 <= i < |chains[b]| && chains[b][i] == id;
  }

  lemma NotInTable(strs: map<Id, TString>, heads: seq<Link>, chains: seq<seq<Id>>, size: nat, hashOf: seq<Byte> -> nat,
                   nextId: Id, bytes: seq<Byte>)
    requires size == |chains| > 0 && Core(strs, heads, chains) && AllPlaced(strs, chains, size) && Hashed(strs, hashOf, nextId)
    requires forall i :: 0 <= i < |chains[hashOf(bytes) % size]| ==>
               chains[hashOf(bytes) % size][i] in strs && strs[chains[hashOf(bytes) % size][i]].bytes != bytes
    ensures Absent(strs, bytes)
  {
    hide Core, AllPlaced;
    forall id | id in strs ensures strs[id].bytes != bytes {
      var i := InBucket(strs, heads, chains, size, id);
    }
  }

  lemma Skip(was: map<Id, TString>, now: map<Id, TString>, c: seq<Id>, i: nat)
    requires i < |c| && forall k :: 0 <= k < |c| ==> c[k] in was
    requires forall j, k :: 0 <= j < |c| && 0 <= k < |c| && c[j] == c[k] ==> j == k
    requires now == (if i == 0 then was else was[c[i - 1] := was[c[i - 1]].(hnext := was[c[i]].hnext)]) - {c[i]}
    ensures Skipped(was, now, c, i) && SomeOf(was, now)
  {
  }

  lemma RemoveAll(was: map<Id, TString>, heads: seq<Link>, chains: seq<seq<Id>>, b: nat, i: nat, now: map<Id, TString>,
                  size: nat, hashOf: seq<Byte> -> nat, nextId: Id)
    requires Core(was, heads, chains) && b < |chains| && size > 0 && i < |chains[b]| && chains[b][i] in was
    requires Skipped(was, now, chains[b], i) && SomeOf(was, now)
    requires AllPlaced(was, chains, size) && Interned(was) && Hashed(was, hashOf, nextId)
    ensures Core(now, heads[b := if i == 0 then was[chains[b][0]].hnext else heads[b]],
                 chains[b := chains[b][..i] + chains[b][i + 1..]])
    ensures AllPlaced(now, chains[b := chains[b][..i] + chains[b][i + 1..]], size)
    ensures Interned(now) && Hashed(now, hashOf, nextId)
    ensures now.Keys == was.Keys - {chains[b][i]} && |now| == |was| - 1
  {
    hide Core, Skipped, AllPlaced;
    StringChains.Remove(was, heads, chains, b, i, now);
    RemovePlaced(was, heads, chains, b, i, now, size);
    assert |now| == |now.Keys| && |was| == |was.Keys|;
  }

  lemma RemovePlaced(was: map<Id, TString>, heads: seq<Link>, chains: seq<seq<Id>>, b: nat, i: nat, now: map<Id, TString>, size: nat)
    requires Core(was, heads, chains) && b < |chains| && size > 0 && i < |chains[b]|
    requires SomeOf(was, now) && now.Keys == was.Keys - {chains[b][i]} && AllPlaced(was, chains, size)
    ensures AllPlaced(now, chains[b := chains[b][..i] + chains[b][i + 1..]], size)
  {
    hide Chains, Covers;
    var chains' := chains[b := chains[b][..i] + chains[b][i + 1..]];
    forall d, k | 0 <= d < |chains'| && 0 <= k < |chains'[d]|
      ensures chains'[d][k] in now && now[chains'[d][k]].hash % size == d
    {
      assert Placed(was, chains[d], d, size);
      assert chains'[d][k] == chains[d][if d == b && k >= i then k + 1 else k];
    }
  }

  lemma AddAll(older: map<Id, TString>, was: map<Id, TString>, heads: seq<Link>, chains: seq<seq<Id>>, b: nat, id: Id, ts: TString,
               size: nat, hashOf: seq<Byte> -> nat)
    requires Core(was, heads, chains) && b < |chains| == size && ts.hnext == heads[b]
    requires AllPlaced(was, chains, size) && Interned(was) && Hashed(was, hashOf, id)
    requires ts.hash == hashOf(ts.bytes) && b == ts.hash % size
    requires SomeOf(older, was) && Absent(older, ts.bytes)
    ensures id !in was
    ensures Core(was[id := ts], heads[b := To(id)], chains[b := [id] + chains[b]])
    ensures AllPlaced(was[id := ts], chains[b := [id] + chains[b]], size)
    ensures Interned(was[id := ts]) && Hashed(was[id := ts], hashOf, id + 1) && |was[id := ts]| == |was| + 1
  {
    hide Core, AllPlaced;
    assert id !in was;
    Add(was, heads, chains, b, id, ts);
    AddPlaced(was, chains, b, id, ts, size);
    var now := was[id := ts];
    assert now.Keys == was.Keys + {id} && |now| == |now.Keys| && |was| == |was.Keys|;
  }

  lemma AddPlaced(was: map<Id, TString>, chains: seq<seq<Id>>, b: nat, id: Id, ts: TString, size: nat)
    requires b < |chains| == size && id !in was && AllPlaced(was, chains, size) && ts.hash % size == b
    ensures AllPlaced(was[id := ts], chains[b := [id] + chains[b]], size)
  {
    var now, chains' := was[id := ts], chains[b := [id] + chains[b]];
    forall d, k | 0 <= d < |chains'| && 0 <= k < |chains'[d]|
      ensures chains'[d][k] in now && now[chains'[d][k]].hash % size == d
    {
      assert Placed(was, chains[d], d, size);
      if d == b && k > 0 {
        assert chains'[d][k] == chains[d][k - 1];
      } else if d != b {
        assert chains'[d][k] == chains[d][k];
      }
    }
  }
}
