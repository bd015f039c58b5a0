/**
 Where the limit on the size of the headers depends on how the input is cut: the counter
 has 32 bits, and a run of bytes of a name or a value is counted only at its end.
 */
module HttpLimit {
  import opened HttpChars
  import opened HttpMachine
  import opened HttpStream
  import opened HttpRun
  import opened HttpFacts
  import opened HttpChunks
  import opened HttpParser

  const X: Byte := 'x' as int
  const LINE: string := "GET /\n"
  const LENGTH: string := "content-length:0"

  /** Where a run of bytes begins: in a header name, in a header value, or after the digits of
      a length. */
  datatype Place = Name | AnyValue | LengthValue

  function Tail(place: Place): string {
    match place
    case Name => "x"
    case AnyValue => "x:x"
    case LengthValue => LENGTH
  }

  /** A request line and the start of a header. */
  function Opening(place: Place): seq<Byte> {
    Bytes(LINE + Tail(place))
  }

  /** What can be repeated there: a character, or after a length a space. */
  function Filler(place: Place, n: nat): seq<Byte> {
    seq(n, _ => if place.LengthValue? then SPACE else X)
  }

  /** A byte that is counted and leads on to the next one. */
  lemma Counted(cfg: Config, m: Progress, b: Byte)
    requires ParsingHeader(m.f.state) && m.nread + 1 <= cfg.maxHeaderSize
    requires var r := React(cfg, m.f, b); r.v.Next? && !r.anew
    ensures Feed(cfg, m, [b]) == Going(Progress(React(cfg, m.f, b).f, m.nread + 1, LogAct(m.log, React(cfg, m.f, b).act, b)))
  {
    hide React, LogAct, Feed;
    FeedOne(cfg, m, b);
  }

  /** The fields on the way through the opening. */
  predicate OnTheWay(place: Place, f: Fields, i: nat) {
    if i <= 6 then InLine(f, i) else if place.LengthValue? then InLength(f, i - 6) else InAny(f, i - 6)
  }

  predicate InLine(f: Fields, i: nat) {
    (i > 0 ==> !f.flags.hasLength) &&
    match i
    case 0 => f.state.StartReq?
    case 1 => f.state.ReqMethod? && f.index == 1 && f.msg.verb == GET
    case 2 => f.state.ReqMethod? && f.index == 2 && f.msg.verb == GET
    case 3 => f.state.ReqMethod? && f.index == 3 && f.msg.verb == GET
    case 4 => f.state.ReqSpacesBeforeUrl? && f.msg.verb == GET
    case 5 => f.state.ReqPath?
    case 6 => f.state.HeaderFieldStart?
    case _ => false
  }

  predicate InAny(f: Fields, i: nat) {
    match i
    case 1 => f.state.HeaderField? && f.hs.General?
    case 2 => f.state.HeaderValueDiscardWs? && f.hs.General?
    case 3 => f.state.HeaderValue? && f.hs.General?
    case _ => false
  }

  predicate InLength(f: Fields, i: nat) {
    && (i <= 15 ==> !f.flags.hasLength)
    && (i <= 14 ==> f.state.HeaderField? && f.index == i - 1)
    && match i
       case 0 => false
       case 1 => f.hs.HC?
       case 2 => f.hs.HCO?
       case 3 => f.hs.HCON?
       case 14 => f.hs.ContentLength?
       case 15 => f.state.HeaderValueDiscardWs? && f.hs.ContentLength?
       case 16 => f.state.HeaderValue? && f.hs.ContentLengthNum?
       case _ => i < 14 && f.hs.MatchingContentLength?
  }

  /** The next byte leads on, and is counted. */
  predicate LeadsOn(cfg: Config, place: Place, f: Fields, b: Byte, i: nat) {
    var r := React(cfg, f, b);
    ParsingHeader(f.state) && r.v.Next? && !r.anew && OnTheWay(place, r.f, i)
  }

  lemma OneFurther(cfg: Config, place: Place, f: Fields, i: nat)
    requires i < |Opening(place)| && OnTheWay(place, f, i)
    ensures LeadsOn(cfg, place, f, Opening(place)[i], i + 1)
  {
    hide OnTheWay, LeadsOn;
    LineBytes(place);
    if i < 6 {
      if i <= 3 {
        RequestByte(cfg, place, f, i);
      } else {
        UrlByte(cfg, place, f, i);
      }
    } else if i == 6 {
      FirstByte(cfg, place, f);
    } else if !place.LengthValue? {
      AnyByte(cfg, place, f, i - 6);
    } else if i - 6 < 14 {
      NameByte(cfg, f, i - 6);
    } else {
      ValueFirst(cfg, f, i - 6);
    }
  }

  lemma LineBytes(place: Place)
    ensures 7 <= |Opening(place)| == 6 + |Tail(place)| <= 22
    ensures forall i :: 0 <= i < 6 ==> Opening(place)[i] == LINE[i] as int
    ensures forall i :: 6 <= i < |Opening(place)| ==> Opening(place)[i] == Tail(place)[i - 6] as int
  {
  }

  lemma RequestByte(cfg: Config, place: Place, f: Fields, i: nat)
    requires i <= 3 && OnTheWay(place, f, i)
    ensures LeadsOn(cfg, place, f, LINE[i] as int, i + 1)
  {
  }

  lemma UrlByte(cfg: Config, place: Place, f: Fields, i: nat)
    requires 4 <= i <= 5 && OnTheWay(place, f, i)
    ensures LeadsOn(cfg, place, f, LINE[i] as int, i + 1)
  {
  }

  lemma FirstByte(cfg: Config, place: Place, f: Fields)
    requires OnTheWay(place, f, 6)
    ensures LeadsOn(cfg, place, f, if place.LengthValue? then LENGTH[0] as int else X, 7)
  {
    hide ReactStart, ReactStatusLine, ReactUrl, ReactRequestLine, ReactBody, ReactHeadersAlmostDone, ReactHeadersDone;
  }

  lemma AnyByte(cfg: Config, place: Place, f: Fields, i: nat)
    requires 1 <= i <= 2 && !place.LengthValue? && OnTheWay(place, f, 6 + i)
    ensures LeadsOn(cfg, place, f, if i == 1 then ':' as int else X, 7 + i)
  {
    hide ReactStart, ReactStatusLine, ReactUrl, ReactRequestLine, ReactBody, ReactHeadersAlmostDone, ReactHeadersDone;
  }

  lemma NameByte(cfg: Config, f: Fields, i: nat)
    requires 1 <= i < 14 && OnTheWay(LengthValue, f, 6 + i)
    ensures LeadsOn(cfg, LengthValue, f, LENGTH[i] as int, 7 + i)
  {
    hide React, NextField, Token;
    LengthToken(i);
    NameReact(cfg, f, LENGTH[i] as int);
    if i <= 3 {
      FirstLetters(f, i);
    } else {
      LastLetters(f, i);
    }
  }

  lemma LengthToken(i: nat)
    requires i < 14
    ensures Token(LENGTH[i] as int) == LENGTH[i] as int && LENGTH[i] == CONTENT_LENGTH[i]
  {
  }

  lemma FirstLetters(f: Fields, i: nat)
    requires 1 <= i <= 3 && InLength(f, i)
    ensures InLength(NextField(f, LENGTH[i] as int, LENGTH[i] as int), i + 1)
  {
    hide Matching;
  }

  lemma LastLetters(f: Fields, i: nat)
    requires 4 <= i < 14 && InLength(f, i)
    ensures InLength(NextField(f, LENGTH[i] as int, LENGTH[i] as int), i + 1)
  {
    LengthToken(i);
    assert Matching(CONTENT_LENGTH, i, LENGTH[i] as int) == if i == 13 then Complete else Partial;
    hide Matching;
  }

  lemma ValueFirst(cfg: Config, f: Fields, i: nat)
    requires 14 <= i < 16 && OnTheWay(LengthValue, f, 6 + i)
    ensures LeadsOn(cfg, LengthValue, f, LENGTH[i] as int, 7 + i)
  {
    hide ReactStart, ReactStatusLine, ReactUrl, ReactRequestLine, ReactBody, ReactHeadersAlmostDone, ReactHeadersDone;
  }

  /** The opening is accepted by a parser that waits for a request. */
  lemma {:induction false} FeedOpening(cfg: Config, place: Place, m: Progress, i: nat)
    requires m.f.state.StartReq? && m.nread == 0 && 22 <= cfg.maxHeaderSize && i <= |Opening(place)|
    ensures Feed(cfg, m, Opening(place)[..i]).Going?
    ensures var n := Feed(cfg, m, Opening(place)[..i]).m; OnTheWay(place, n.f, i) && n.nread == i
    decreases i
  {
    hide React, Feed, ParsingHeader, Opening;
    if i == 0 {
      FeedNone(cfg, m);
    } else {
      hide OnTheWay;
      var all := Opening(place);
      LineBytes(place);
      FeedOpening(cfg, place, m, i - 1);
      var n := Feed(cfg, m, all[..i - 1]).m;
      OneFurther(cfg, place, n.f, i - 1);
      Counted(cfg, n, all[i - 1]);
      FeedSplit(cfg, m, all[..i - 1], [all[i - 1]]);
      assert all[..i - 1] + [all[i - 1]] == all[..i];
    }
  }

  lemma OpeningAccepted(cfg: Config, place: Place, m: Progress)
    requires m.f.state.StartReq? && m.nread == 0 && 24 <= cfg.maxHeaderSize && cfg.maxHeaderSize + 22 <= TWO32
    ensures 7 <= |Opening(place)| <= 22 && Fits(cfg, |Opening(place)|) && Feed(cfg, m, Opening(place)).Going?
    ensures var n := Feed(cfg, m, Opening(place)).m; Ready(place, n.f) && n.nread == |Opening(place)|
  {
    hide Feed, Opening;
    FeedOpening(cfg, place, m, |Opening(place)|);
    assert Opening(place)[..|Opening(place)|] == Opening(place);
    LineBytes(place);
  }

  /** The filler can be repeated from here on. */
  predicate Ready(place: Place, f: Fields) {
    match place
    case Name => f.state.HeaderField?
    case AnyValue => f.state.HeaderValue? && f.hs.General?
    case LengthValue => f.state.HeaderValue? && (f.hs.ContentLengthNum? || f.hs.ContentLengthWs?)
  }

  lemma ReadyStays(place: Place, f: Fields)
    requires Ready(place, f) && !place.Name?
    ensures var v := NextValue(f, if place.LengthValue? then SPACE else X); v.Good? && Ready(place, v.f)
  {
  }

  /** Filler is a run. */
  lemma FillerRuns(cfg: Config, place: Place, f: Fields, n: nat)
    requires Ready(place, f)
    ensures |Filler(place, n)| == n && InOneRun(cfg, f, Filler(place, n), 0)
    ensures forall g :: Ran(f, Filler(place, n), 0, g) ==> Ready(place, g)
  {
    if place.Name? {
      assert Token(X) != 0;
    } else {
      FillerValues(cfg, place, f, Filler(place, n), 0);
    }
  }

  lemma {:induction false} FillerValues(cfg: Config, place: Place, f: Fields, data: seq<Byte>, p: nat)
    requires Ready(place, f) && !place.Name? && data == Filler(place, |data|)
    ensures ValuesFrom(cfg, f, data, p) && Ready(place, ValueAfter(f, data, p))
    decreases |data| - p
  {
    hide Ready, NextValue;
    if p < |data| {
      assert ValueByte(cfg, data[p]);
      ReadyStays(place, f);
      FillerValues(cfg, place, NextValue(f, data[p]).f, data, p + 1);
    }
  }

  /** A new parser that has read the opening and filler up to just below the limit. */
  method AtTheLimit(cfg: Config, place: Place) returns (p: Parser)
    requires 24 <= cfg.maxHeaderSize && cfg.maxHeaderSize + 22 <= TWO32
    ensures fresh(p) && p.Valid() && p.cfg == cfg && p.errno.NoError?
    ensures Ready(place, p.f) && p.nread == cfg.maxHeaderSize - 1
  {
    hide FieldsOk, Resumable, Feed, InOneRun, Ran, Ready, After, WithinLimit, Opening, Filler;
    p := new Parser(cfg, Request);
    ghost var m := Progress(p.f, p.nread, Join(p.log));
    var opening := Opening(place);
    OpeningAccepted(cfg, place, m);
    var n := p.Execute(opening);
    var k := cfg.maxHeaderSize - 1 - |opening|;
    FillerRuns(cfg, place, p.f, k);
    FillerFits(cfg, |opening|, k);
    n := p.Execute(Filler(place, k));
  }

  lemma FillerFits(cfg: Config, count: nat, k: nat)
    requires count + k == cfg.maxHeaderSize - 1 && k > 0 && cfg.maxHeaderSize < TWO32
    ensures WithinLimit(cfg, count, k) && After(count, k) == cfg.maxHeaderSize - 1
  {
  }

  /**
   For every limit, every place and every length after which the wrapped count is within the
   limit again: two parsers in the same state, which a request leads to; one accepts the
   bytes at once, the other rejects them when they are cut where the count has reached the
   limit.
   */
  method CutMatters(cfg: Config, place: Place, length: nat, cut: nat) returns (a: Parser, b: Parser)
    requires 24 <= cfg.maxHeaderSize && cfg.maxHeaderSize + 22 <= TWO32
    requires 0 < cut < length && After(cfg.maxHeaderSize - 1, length) <= cfg.maxHeaderSize <= After(cfg.maxHeaderSize - 1, cut)
    ensures a.errno.NoError? && !b.errno.NoError?
  {
    hide FieldsOk, Resumable, Feed, InOneRun, Ready, After, WithinLimit, Filler;
    a := AtTheLimit(cfg, place);
    b := new Parser.Copy(a);
    var xs, ys := Filler(place, cut), Filler(place, length - cut);
    FillerJoins(place, cut, length - cut);
    FillerRuns(cfg, place, a.f, length);
    WrapAround(cfg, cfg.maxHeaderSize - 1, cut, length - cut);
    SplitRun(a, b, xs, ys);
  }

  lemma FillerJoins(place: Place, m: nat, n: nat)
    ensures |Filler(place, m)| == m && |Filler(place, n)| == n && Filler(place, m) + Filler(place, n) == Filler(place, m + n)
  {
  }

  /** There are such lengths as soon as the limit and the length exceed 2^32 together, and a
      cut after the first byte will do for each. */
  lemma WrappingLengths(max: nat, length: nat)
    requires 24 <= max && max + 22 <= TWO32 && TWO32 < max + length && length <= TWO32 + 1
    ensures After(max - 1, length) <= max <= After(max - 1, 1)
  {
    assert (max - 1 + length) % TWO32 == max - 1 + length - TWO32;
  }
}
