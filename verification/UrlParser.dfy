/**
 Taking a URL apart: a first pass over its characters finds the parts, a second one
 takes apart user information, host and port.
 */
module UrlParser {
  import opened HttpChars
  import opened HttpMachine

  datatype Part = Schema | UserInfo | Host | Port | Path | Query | Fragment

  /** The order of the parts in a URL. */
  function Order(f: Part): nat {
    match f
    case Schema => 0
    case UserInfo => 1
    case Host => 2
    case Port => 3
    case Path => 4
    case Query => 5
    case Fragment => 6
  }

  /** Where a part is; both numbers have 16 bits. */
  datatype Span = Span(off: nat, len: nat)

  const U16: nat := 65536

  type Parts = map<Part, Span>

  /** Bytes that separate parts: `: / @ [ ] ? #`. */
  predicate IsDelimiter(b: Byte) {
    b in [58, 47, 64, 91, 93, 63, 35]
  }

  predicate Covered(parts: Parts, i: nat) {
    exists f :: f in parts && parts[f].off <= i < parts[f].off + parts[f].len
  }

  /** Parts lie before `p`, are not empty, and come in order without overlap. */
  predicate Ordered(parts: Parts, p: nat) {
    && (forall f :: f in parts ==> 0 < parts[f].len && parts[f].off + parts[f].len <= p)
    && (forall f, g :: f in parts && g in parts && Order(f) < Order(g) ==> parts[f].off + parts[f].len <= parts[g].off)
  }

  /** Every byte from `o` up to `p` belongs to a part or separates parts. */
  predicate Accounted(buf: seq<Byte>, parts: Parts, o: nat, p: nat)
    requires p <= |buf|
  {
    forall i :: o <= i < p ==> Covered(parts, i) || IsDelimiter(buf[i])
  }

  // ----- the first pass -----

  /** The part that a state belongs to, if any. */
  function PartOf(s: State): seq<Part> {
    match s
    case ReqSchema => [Schema]
    case ReqServer => [Host]
    case ReqServerWithAt => [Host]
    case ReqPath => [Path]
    case ReqQueryString => [Query]
    case ReqFragment => [Fragment]
    case _ => []
  }

  /** The state knows how far the parts got: `last` is the part found last. */
  predicate InStep(s: State, last: seq<Part>) {
    match s
    case ReqSpacesBeforeUrl => last == []
    case ReqSchema => last == [Schema]
    case ReqSchemaSlash => last == [Schema]
    case ReqSchemaSlashSlash => last == [Schema]
    case ReqServerStart => last == [] || last == [Schema]
    case ReqServer => last == [Host]
    case ReqServerWithAt => last == [Host]
    case ReqPath => last == [Path]
    case ReqQueryStringStart => last == [] || last == [Schema] || last == [Host] || last == [Path]
    case ReqQueryString => last == [Query]
    case ReqFragmentStart => last == [Path] || last == [Query] || last == [] || last == [Schema] || last == [Host]
    case ReqFragment => last == [Fragment]
    case _ => false
  }

  lemma UrlSteps(s: State, last: seq<Part>, b: Byte)
    requires InStep(s, last)
    ensures var t := ParseUrlChar(s, b);
            || t.Dead?
            || (PartOf(t) == [] && InStep(t, last) && IsDelimiter(b))
            || (|PartOf(t)| == 1 && InStep(t, PartOf(t))
                && (last == PartOf(t) ==> PartOf(s) == last)
                && PartOf(t)[0] != UserInfo && PartOf(t)[0] != Port
                && (last != [] && last != PartOf(t) ==> Order(last[0]) < Order(PartOf(t)[0])))
  {
    hide IsAlpha, IsUrlChar, IsUserinfoChar;
  }

  /** All parts so far come no later than `last`. */
  predicate UpTo(parts: Parts, last: seq<Part>) {
    forall f :: f in parts ==> last != [] && Order(f) <= Order(last[0])
  }

  lemma StillCovered(buf: seq<Byte>, parts: Parts, parts': Parts, o: nat, p: nat)
    requires p <= |buf| && Accounted(buf, parts, o, p)
    requires forall f :: f in parts ==> f in parts' && parts'[f].off == parts[f].off && parts'[f].len >= parts[f].len
    ensures Accounted(buf, parts', o, p)
  {
    forall i | o <= i < p ensures Covered(parts', i) || IsDelimiter(buf[i]) {
      if Covered(parts, i) {
        var f :| f in parts && parts[f].off <= i < parts[f].off + parts[f].len;
        assert f in parts';
      }
    }
  }

  /** The part found last gets the byte at `p`. */
  lemma PartGrows(buf: seq<Byte>, parts: Parts, f: Part, o: nat, p: nat)
    requires p < |buf| < U16 && Ordered(parts, p) && Accounted(buf, parts, o, p) && UpTo(parts, [f]) && f in parts
    requires parts[f].off + parts[f].len == p
    ensures var parts' := parts[f := Span(parts[f].off, (parts[f].len + 1) % U16)];
            && Ordered(parts', p + 1) && Accounted(buf, parts', o, p + 1) && UpTo(parts', [f])
            && parts'[f].off + parts'[f].len == p + 1
  {
    var parts' := parts[f := Span(parts[f].off, (parts[f].len + 1) % U16)];
    StillCovered(buf, parts, parts', o, p);
    assert f in parts' && Covered(parts', p);
    hide IsDelimiter;
  }

  /** A later part starts at `p`. */
  lemma PartStarts(buf: seq<Byte>, parts: Parts, f: Part, o: nat, p: nat)
    requires p < |buf| < U16 && Ordered(parts, p) && Accounted(buf, parts, o, p)
    requires forall g :: g in parts ==> Order(g) < Order(f)
    ensures var parts' := parts[f := Span(p % U16, 1)];
            && Ordered(parts', p + 1) && Accounted(buf, parts', o, p + 1) && UpTo(parts', [f])
            && parts'[f].off + parts'[f].len == p + 1
  {
    var parts' := parts[f := Span(p % U16, 1)];
    assert f !in parts;
    StillCovered(buf, parts, parts', o, p);
    assert f in parts' && Covered(parts', p);
    hide IsDelimiter;
  }

  /** A separator is skipped. */
  lemma PartSkips(buf: seq<Byte>, parts: Parts, o: nat, p: nat)
    requires p < |buf| && Ordered(parts, p) && Accounted(buf, parts, o, p) && IsDelimiter(buf[p])
    ensures Ordered(parts, p + 1) && Accounted(buf, parts, o, p + 1)
  {
    hide IsDelimiter, Covered;
  }

  lemma NoParts(buf: seq<Byte>)
    ensures Ordered(map[], 0) && Accounted(buf, map[], 0, 0) && UpTo(map[], [])
  {
  }

  lemma UpToNext(parts: Parts, last: seq<Part>, f: Part, s: Span)
    requires UpTo(parts, last) && (last == [] || last == [f] || Order(last[0]) < Order(f))
    ensures UpTo(parts[f := s], [f])
    ensures last != [f] ==> forall g :: g in parts ==> Order(g) < Order(f)
  {
  }

  // ----- the second pass -----

  datatype HostState =
    | HostDead | UserinfoStart | Userinfo | HostStart | HostV6Start | InHost | HostV6 | HostV6End
    | HostV6ZoneStart | HostV6Zone | HostPortStart | HostPort

  function ParseHostChar(s: HostState, ch: Byte): HostState {
    match s
    case Userinfo => UserinfoChar(ch)
    case UserinfoStart => UserinfoChar(ch)
    case HostStart => if ch == '[' as int then HostV6Start else if IsHostChar(ch) then InHost else HostDead
    case InHost => if IsHostChar(ch) then InHost else if ch == ':' as int then HostPortStart else HostDead
    case HostV6End => if ch == ':' as int then HostPortStart else HostDead
    case HostV6 => if ch == ']' as int then HostV6End else V6Char(s, ch)
    case HostV6Start => V6Char(s, ch)
    case HostV6Zone => if ch == ']' as int then HostV6End else ZoneChar(ch)
    case HostV6ZoneStart => ZoneChar(ch)
    case HostPort => if IsNum(ch) then HostPort else HostDead
    case HostPortStart => if IsNum(ch) then HostPort else HostDead
    case HostDead => HostDead
  }

  function UserinfoChar(ch: Byte): HostState {
    if ch == '@' as int then HostStart else if IsUserinfoChar(ch) then Userinfo else HostDead
  }

  function V6Char(s: HostState, ch: Byte): HostState {
    if IsHex(ch) || ch == ':' as int || ch == '.' as int then HostV6
    else if s.HostV6? && ch == '%' as int then HostV6ZoneStart
    else HostDead
  }

  function ZoneChar(ch: Byte): HostState {
    if IsAlphaNum(ch) || ch in [37, 46, 45, 95, 126] then HostV6Zone else HostDead     // % . - _ ~
  }

  /** One more byte for part `f`, which starts here if `starts`. */
  function Longer(parts: Parts, f: Part, p: nat, starts: bool): Parts {
    var was := if f in parts then parts[f] else Span(0, 0);
    if starts then
      parts[f := Span(p % U16, if f == Host then (was.len + 1) % U16 else 1)]
    else parts[f := Span(was.off, (was.len + 1) % U16)]
  }

  /** The parts after the byte at `p` led from `s` to `t`. */
  function HostByte(parts: Parts, s: HostState, t: HostState, p: nat): Parts {
    match t
    case InHost => Longer(parts, Host, p, !s.InHost?)
    case HostV6 => Longer(parts, Host, p, !s.HostV6?)
    case HostV6ZoneStart => Longer(parts, Host, p, false)
    case HostV6Zone => Longer(parts, Host, p, false)
    case HostPort => Longer(parts, Port, p, !s.HostPort?)
    case Userinfo => Longer(parts, UserInfo, p, !s.Userinfo?)
    case _ => parts
  }

  /** A span within `o` and `p`. */
  predicate Inside(s: Span, o: nat, p: nat) {
    o <= s.off && 0 < s.len && s.off + s.len <= p
  }

  predicate Empty(parts: Parts, f: Part) {
    f !in parts || parts[f].len == 0
  }

  predicate EndsAt(parts: Parts, f: Part, o: nat, p: nat) {
    f in parts && Inside(parts[f], o, p) && parts[f].off + parts[f].len == p
  }

  /** Byte `i` belongs to user information, host or port. */
  predicate InAuthority(parts: Parts, i: nat) {
    || (UserInfo in parts && parts[UserInfo].off <= i < parts[UserInfo].off + parts[UserInfo].len)
    || (Host in parts && parts[Host].off <= i < parts[Host].off + parts[Host].len)
    || (Port in parts && parts[Port].off <= i < parts[Port].off + parts[Port].len)
  }

  /** A run of digits. */
  predicate Digits(buf: seq<Byte>, i: nat, j: nat) {
    i <= j <= |buf| && forall k :: i <= k < j ==> IsNum(buf[k])
  }

  /** The second pass has got from `o` to `p`. */
  predicate HostSoFar(buf: seq<Byte>, s: HostState, parts: Parts, o: nat, p: nat)
    requires p <= |buf|
  {
    && Host in parts
    && (UserInfo in parts ==> Inside(parts[UserInfo], o, p))
    && (UserInfo in parts && !Empty(parts, Host) ==> parts[UserInfo].off + parts[UserInfo].len <= parts[Host].off)
    && (!Empty(parts, Host) ==> Inside(parts[Host], o, p))
    && (Port in parts ==> Inside(parts[Port], o, p) && !Empty(parts, Host) && parts[Host].off + parts[Host].len <= parts[Port].off)
    && (Port in parts ==> Digits(buf, parts[Port].off, parts[Port].off + parts[Port].len))
    && (forall i :: o <= i < p ==> InAuthority(parts, i) || IsDelimiter(buf[i]))
    && o <= p
    && (match s
        case UserinfoStart => p == o && UserInfo !in parts && Empty(parts, Host) && Port !in parts
        case Userinfo => EndsAt(parts, UserInfo, o, p) && Empty(parts, Host) && Port !in parts
        case HostStart => Empty(parts, Host) && Port !in parts
        case HostV6Start => Empty(parts, Host) && Port !in parts
        case InHost => EndsAt(parts, Host, o, p) && Port !in parts
        case HostV6 => EndsAt(parts, Host, o, p) && Port !in parts
        case HostV6ZoneStart => EndsAt(parts, Host, o, p) && Port !in parts
        case HostV6Zone => EndsAt(parts, Host, o, p) && Port !in parts
        case HostV6End => !Empty(parts, Host) && Port !in parts
        case HostPortStart => !Empty(parts, Host) && Port !in parts
        case HostPort => !Empty(parts, Host) && EndsAt(parts, Port, o, p)
        case HostDead => false)
  }

  /** Where bytes belong to no part they are separators. */
  lemma HostSteps(s: HostState, b: Byte)
    ensures var t := ParseHostChar(s, b);
            && (t.HostStart? ==> (s.Userinfo? || s.UserinfoStart?) && IsDelimiter(b))
            && (t.HostV6Start? ==> s.HostStart? && IsDelimiter(b))
            && (t.HostV6End? ==> (s.HostV6? || s.HostV6Zone?) && IsDelimiter(b))
            && (t.HostPortStart? ==> (s.InHost? || s.HostV6End?) && IsDelimiter(b))
            && (t.InHost? ==> s.HostStart? || s.InHost?)
            && (t.HostV6? ==> s.HostV6Start? || s.HostV6?)
            && (t.HostV6ZoneStart? ==> s.HostV6?)
            && (t.HostV6Zone? ==> s.HostV6ZoneStart? || s.HostV6Zone?)
            && (t.HostPort? ==> (s.HostPortStart? || s.HostPort?) && IsNum(b))
            && (t.Userinfo? ==> s.UserinfoStart? || s.Userinfo?)
            && !t.UserinfoStart?
  {
    hide IsUserinfoChar, IsHostChar, IsHex, IsAlphaNum, IsNum;
  }

  lemma HostGoesOn(buf: seq<Byte>, s: HostState, parts: Parts, o: nat, p: nat)
    requires p < |buf| < U16 && HostSoFar(buf, s, parts, o, p) && !ParseHostChar(s, buf[p]).HostDead?
    ensures var t := ParseHostChar(s, buf[p]);
            HostSoFar(buf, t, HostByte(parts, s, t, p), o, p + 1)
  {
    hide IsDelimiter, ParseHostChar, IsNum;
    HostSteps(s, buf[p]);
    var t := ParseHostChar(s, buf[p]);
    var parts' := HostByte(parts, s, t, p);
    assert forall i :: o <= i < p && InAuthority(parts, i) ==> InAuthority(parts', i);
    assert InAuthority(parts', p) || IsDelimiter(buf[p]);
  }

  /** The states in which a host may end. */
  predicate HostEnds(s: HostState) {
    s.InHost? || s.HostV6End? || s.HostPort?
  }

  /** Before the second pass: the host is emptied. */
  lemma HostStarts(buf: seq<Byte>, parts: Parts, p: nat, foundAt: bool)
    requires Ordered(parts, p) && Host in parts && UserInfo !in parts && Port !in parts && p <= |buf|
    ensures var o := parts[Host].off;
            o <= |buf| && HostSoFar(buf, if foundAt then UserinfoStart else HostStart, parts[Host := Span(o, 0)], o, o)
  {
    hide IsDelimiter;
  }

  /** Only user information, host and port are touched by the second pass. */
  predicate SameOthers(parts: Parts, parts': Parts) {
    forall f :: f != UserInfo && f != Host && f != Port ==>
      (f in parts' <==> f in parts) && (f in parts ==> parts'[f] == parts[f])
  }

  lemma OthersStay(parts: Parts, s: HostState, t: HostState, p: nat)
    ensures SameOthers(parts, HostByte(parts, s, t, p)) && (Host in parts ==> Host in HostByte(parts, s, t, p))
  {
  }

  /** The two passes together. */
  lemma PassesJoin(buf: seq<Byte>, parts: Parts, parts': Parts, s: HostState)
    requires Ordered(parts, |buf|) && Accounted(buf, parts, 0, |buf|) && Host in parts && UserInfo !in parts && Port !in parts
    requires SameOthers(parts, parts') && HostEnds(s)
    requires HostSoFar(buf, s, parts', parts[Host].off, parts[Host].off + parts[Host].len)
    ensures Ordered(parts', |buf|) && Accounted(buf, parts', 0, |buf|)
  {
    hide IsDelimiter, InAuthority, Covered, Ordered;
    forall i | 0 <= i < |buf| ensures Covered(parts', i) || IsDelimiter(buf[i]) {
      if parts[Host].off <= i < parts[Host].off + parts[Host].len {
        AuthorityCovers(parts', i);
      } else if Covered(parts, i) {
        OthersCover(parts, parts', i);
      }
    }
    PassesOrder(buf, parts, parts', s);
  }

  lemma OthersCover(parts: Parts, parts': Parts, i: nat)
    requires SameOthers(parts, parts') && Host in parts && UserInfo !in parts && Port !in parts
    requires Covered(parts, i) && !(parts[Host].off <= i < parts[Host].off + parts[Host].len)
    ensures Covered(parts', i)
  {
    var f :| f in parts && parts[f].off <= i < parts[f].off + parts[f].len;
    assert f != Host && f in parts';
  }

  lemma AuthorityCovers(parts: Parts, i: nat)
    ensures InAuthority(parts, i) ==> Covered(parts, i)
  {
  }

  predicate IsAuthority(f: Part) {
    f == UserInfo || f == Host || f == Port
  }

  /** The parts of the authority lie between `o` and `e`, in order. */
  predicate AuthorityOrdered(parts: Parts, o: nat, e: nat) {
    && (forall f :: f in parts && IsAuthority(f) ==> 0 < parts[f].len && o <= parts[f].off && parts[f].off + parts[f].len <= e)
    && (forall f, g :: f in parts && g in parts && IsAuthority(f) && IsAuthority(g) && Order(f) < Order(g) ==>
          parts[f].off + parts[f].len <= parts[g].off)
  }

  lemma HostOrdered(buf: seq<Byte>, parts: Parts, s: HostState, o: nat, e: nat)
    requires o <= e <= |buf| && HostEnds(s) && HostSoFar(buf, s, parts, o, e)
    ensures AuthorityOrdered(parts, o, e)
  {
    hide IsDelimiter, InAuthority;
  }

  lemma PassesOrder(buf: seq<Byte>, parts: Parts, parts': Parts, s: HostState)
    requires Ordered(parts, |buf|) && Host in parts && UserInfo !in parts && Port !in parts
    requires SameOthers(parts, parts') && HostEnds(s)
    requires HostSoFar(buf, s, parts', parts[Host].off, parts[Host].off + parts[Host].len)
    ensures Ordered(parts', |buf|)
  {
    HostOrdered(buf, parts', s, parts[Host].off, parts[Host].off + parts[Host].len);
    hide HostSoFar, HostEnds, Ordered, AuthorityOrdered, SameOthers;
    forall f, g | f in parts' && g in parts'
      ensures 0 < parts'[f].len && parts'[f].off + parts'[f].len <= |buf|
      ensures Order(f) < Order(g) ==> parts'[f].off + parts'[f].len <= parts'[g].off
    {
      PartsOrder(parts, parts', |buf|, f, g);
    }
    Reordered(parts', |buf|);
  }

  lemma Reordered(parts: Parts, p: nat)
    requires forall f, g :: f in parts && g in parts ==>
               && 0 < parts[f].len && parts[f].off + parts[f].len <= p
               && (Order(f) < Order(g) ==> parts[f].off + parts[f].len <= parts[g].off)
    ensures Ordered(parts, p)
  {
  }

  lemma PartsOrder(parts: Parts, parts': Parts, n: nat, f: Part, g: Part)
    requires Ordered(parts, n) && Host in parts && UserInfo !in parts && Port !in parts && SameOthers(parts, parts')
    requires AuthorityOrdered(parts', parts[Host].off, parts[Host].off + parts[Host].len)
    requires f in parts' && g in parts'
    ensures 0 < parts'[f].len && parts'[f].off + parts'[f].len <= n
    ensures Order(f) < Order(g) ==> parts'[f].off + parts'[f].len <= parts'[g].off
  {
    if Order(f) < Order(g) {
      if !IsAuthority(f) && IsAuthority(g) {
        assert f in parts && Order(f) < Order(Host);
      } else if IsAuthority(f) && !IsAuthority(g) {
        assert g in parts && Order(Host) < Order(g);
      }
    }
  }

  class Url {
    var parts: Parts
    var port: nat

    constructor ()
    {
      parts := map[];
      port := 0;
    }

    /** The byte at `p` belongs to part `f`: the current part, or a new one. */
    method AddByte(buf: seq<Byte>, p: nat, last: seq<Part>, f: Part, ghost small: bool) returns (last': seq<Part>)
      requires p < |buf| && UpTo(parts, last) && |last| <= 1 && (last == [f] ==> f in parts)
      requires last == [] || last == [f] || Order(last[0]) < Order(f)
      requires small ==> |buf| < U16 && Ordered(parts, p) && Accounted(buf, parts, 0, p)
      requires small && last == [f] ==> parts[f].off + parts[f].len == p
      modifies this`parts
      ensures last' == [f] && f in parts && UpTo(parts, [f]) && parts.Keys == old(parts).Keys + {f}
      ensures small ==> Ordered(parts, p + 1) && Accounted(buf, parts, 0, p + 1) && parts[f].off + parts[f].len == p + 1
    {
      hide Covered, Ordered, Accounted, UpTo, Order;
      if last == [f] {
        if small {
          PartGrows(buf, parts, f, 0, p);
        }
        UpToNext(parts, last, f, Span(parts[f].off, (parts[f].len + 1) % U16));
        parts := parts[f := Span(parts[f].off, (parts[f].len + 1) % U16)];
      } else {
        UpToNext(parts, last, f, Span(p % U16, 1));
        if small {
          PartStarts(buf, parts, f, 0, p);
        }
        parts := parts[f := Span(p % U16, 1)];
      }
      last' := [f];
    }

    /** Finds the parts; user information, host and port are still one. */
    method FindParts(buf: seq<Byte>, isConnect: bool) returns (ok: bool, foundAt: bool)
      requires buf != []
      modifies this
      ensures port == 0
      ensures ok && |buf| < U16 ==>
                && Ordered(parts, |buf|) && Accounted(buf, parts, 0, |buf|)
                && UserInfo !in parts && Port !in parts
    {
      hide ParseUrlChar, InStep, IsDelimiter, PartOf, Covered, Ordered, Accounted, UpTo, Order;
      NoParts(buf);
      port := 0;
      parts := map[];
      foundAt := false;
      var s := if isConnect then ReqServerStart else ReqSpacesBeforeUrl;
      ghost var small := |buf| < U16;
      var last: seq<Part> := [];
      StartsInStep(isConnect);
      var p := 0;
      while p < |buf|
        invariant p <= |buf| && InStep(s, last) && |last| <= 1
        invariant PartOf(s) != [] ==> PartOf(s) == last
        invariant last != [] ==> last[0] in parts
        invariant small ==> Ordered(parts, p) && Accounted(buf, parts, 0, p)
        invariant small && PartOf(s) != [] ==> parts[last[0]].off + parts[last[0]].len == p
        invariant UpTo(parts, last) && port == 0
        invariant UserInfo !in parts && Port !in parts
      {
        UrlSteps(s, last, buf[p]);
        var t := ParseUrlChar(s, buf[p]);
        if t.Dead? {
          return false, foundAt;
        }
        if t.ReqServerWithAt? {
          foundAt := true;
        }
        if PartOf(t) != [] {
          ghost var was := last;
          last := AddByte(buf, p, last, PartOf(t)[0], small);
          assert PartOf(t) == last;
        } else if small {
          PartSkips(buf, parts, 0, p);
        }
        s := t;
        p := p + 1;
      }
      ok := true;
    }

    /** Takes the host apart. */
    method ParseHost(buf: seq<Byte>, foundAt: bool) returns (ok: bool)
      requires Host in parts
      requires |buf| < U16 ==> Ordered(parts, |buf|) && Accounted(buf, parts, 0, |buf|) && UserInfo !in parts && Port !in parts
      modifies this`parts
      ensures ok ==> Host in parts
      ensures ok && |buf| < U16 ==> Ordered(parts, |buf|) && Accounted(buf, parts, 0, |buf|)
      ensures ok && |buf| < U16 && Port in parts ==>
                Digits(buf, parts[Port].off, parts[Port].off + parts[Port].len)
    {
      hide HostSoFar, Ordered, Accounted, SameOthers, HostByte;
      ghost var small, was := |buf| < U16, parts;
      var o := parts[Host].off;
      var e := o + parts[Host].len;
      var s := if foundAt then UserinfoStart else HostStart;
      if small {
        HostStarts(buf, parts, |buf|, foundAt);
        HostInBounds(parts, |buf|);
      }
      NoOthers(parts, Span(o, 0));
      parts := parts[Host := Span(o, 0)];
      var p := o;
      while p < e && p < |buf|
        invariant o <= p
        invariant small ==> o <= p <= e <= |buf| && HostSoFar(buf, s, parts, o, p)
        invariant SameOthers(was, parts) && Host in parts
      {
        var t := ParseHostChar(s, buf[p]);
        if t.HostDead? {
          return false;
        }
        if small {
          HostGoesOn(buf, s, parts, o, p);
        }
        OthersStay(parts, s, t, p);
        OthersTrans(was, parts, HostByte(parts, s, t, p));
        parts := HostByte(parts, s, t, p);
        s := t;
        p := p + 1;
      }
      ok := HostEnds(s);
      if small && ok {
        PassesJoin(buf, was, parts, s);
        PortDigits(buf, s, parts, o, p);
      }
    }

    /** The value of the port; fails above 65535. */
    method ParsePort(buf: seq<Byte>, off: nat, end: nat) returns (ok: bool)
      modifies this`port
      ensures Digits(buf, off, end) ==> (ok <==> Decimal(buf[off..end]) <= 0xffff)
      ensures Digits(buf, off, end) && ok ==> port == Decimal(buf[off..end])
    {
      hide IsNum;
      ghost var digits := Digits(buf, off, end);
      var v := 0;
      var p := off;
      if digits {
        assert buf[off..off] == [];
      }
      while p < end && p < |buf|
        invariant off <= p && v <= 0xffff
        invariant digits ==> p <= end && v == Decimal(buf[off..p]) && 0 <= v
      {
        if digits {
          DecimalGrows(buf, off, p);
          DigitValue(buf[p]);
        }
        v := v * 10 + (buf[p] - '0' as int);
        p := p + 1;
        if v > 0xffff {
          if digits {
            DecimalStays(buf, off, p, end);
          }
          return false;
        }
      }
      port := v % U16;
      ok := true;
    }

    /**
     Takes a URL apart. For a URL of less than 2^16 bytes, the parts found are in bounds,
     in order and disjoint, every other byte separates parts, and the port is the number
     its digits write.
     */
    method ParseUrl(buf: seq<Byte>, isConnect: bool) returns (ok: bool)
      modifies this
      ensures buf == [] ==> !ok
      ensures ok && |buf| < U16 ==>
                && Ordered(parts, |buf|)
                && (forall i :: 0 <= i < |buf| ==> Covered(parts, i) || IsDelimiter(buf[i]))
                && (Schema in parts ==> Host in parts)
                && (isConnect ==> parts.Keys == {Host, Port})
                && (Port in parts ==> port == Decimal(buf[parts[Port].off..parts[Port].off + parts[Port].len]) <= 0xffff)
                && (Port !in parts ==> port == 0)
    {
      hide Covered, IsDelimiter, Ordered, Digits, Decimal;
      if buf == [] {
        return false;
      }
      var foundAt;
      ok, foundAt := FindParts(buf, isConnect);
      if !ok || (Schema in parts && Host !in parts) {
        return false;
      }
      if Host in parts {
        ok := ParseHost(buf, foundAt);
        if !ok {
          return false;
        }
      }
      if isConnect && parts.Keys != {Host, Port} {
        return false;
      }
      if Port in parts {
        ok := ParsePort(buf, parts[Port].off, parts[Port].off + parts[Port].len);
      }
    }
  }

  lemma StartsInStep(isConnect: bool)
    ensures var s := if isConnect then ReqServerStart else ReqSpacesBeforeUrl; InStep(s, []) && PartOf(s) == []
  {
  }

  lemma HostInBounds(parts: Parts, p: nat)
    requires Ordered(parts, p) && Host in parts
    ensures parts[Host].off + parts[Host].len <= p
  {
  }

  lemma NoOthers(parts: Parts, s: Span)
    ensures SameOthers(parts, parts[Host := s])
  {
  }

  lemma OthersTrans(a: Parts, b: Parts, c: Parts)
    requires SameOthers(a, b) && SameOthers(b, c)
    ensures SameOthers(a, c)
  {
  }

  lemma PortDigits(buf: seq<Byte>, s: HostState, parts: Parts, o: nat, p: nat)
    requires p <= |buf| && HostSoFar(buf, s, parts, o, p)
    ensures Host in parts
    ensures Port in parts ==>
              Digits(buf, parts[Port].off, parts[Port].off + parts[Port].len)
  {
    hide IsDelimiter, Digits;
  }

  lemma DecimalGrows(buf: seq<Byte>, off: nat, p: nat)
    requires off <= p < |buf|
    ensures Decimal(buf[off..p + 1]) == 10 * Decimal(buf[off..p]) + (buf[p] - '0' as int)
  {
    var ds := buf[off..p + 1];
    assert ds[..|ds| - 1] == buf[off..p];
  }

  /** More digits make no smaller number. */
  lemma {:induction false} DecimalStays(buf: seq<Byte>, off: nat, p: nat, end: nat)
    requires off <= p <= end && Digits(buf, off, end) && Decimal(buf[off..p]) > 0xffff
    ensures Decimal(buf[off..end]) > 0xffff
    decreases end - p
  {
    if p < end {
      DecimalGrows(buf, off, p);
      DigitValue(buf[p]);
      DecimalStays(buf, off, p + 1, end);
    }
  }

  lemma DigitValue(b: Byte)
    requires IsNum(b)
    ensures 0 <= b - '0' as int <= 9
  {
  }
}
