/**
 Bodies of a declared length (section 3.3.2 of RFC 7230): the parser delivers as many bytes
 as the digits of the header say, and then the message is complete.
 */
module HttpLength {
  import opened HttpChars
  import opened HttpMachine
  import opened HttpStream
  import opened HttpChunks

  const LENGTH_LIMIT := (ULLONG_MAX - 10) / 10

  predicate AllDigits(ds: seq<Byte>) {
    forall i :: 0 <= i < |ds| ==> IsNum(ds[i])
  }

  /** The digits before the last one stay below the limit of the parser. */
  predicate InRange(ds: seq<Byte>)
    requires AllDigits(ds)
  {
    |ds| <= 1 || Decimal(ds[..|ds| - 1]) <= LENGTH_LIMIT
  }

  // ----- the header -----

  predicate AtLength(f: Fields) {
    (f.state.HeaderValueDiscardWs? || f.state.HeaderValueStart?) && f.hs == ContentLength && !f.flags.hasLength
  }

  /** The fields once digits of the value `n` have been read. */
  function Declared(f: Fields, n: nat): Fields {
    f.(state := HeaderValue, index := 0, hs := ContentLengthNum, contentLength := n, flags := f.flags.(hasLength := true))
  }

  lemma FirstLengthDigit(cfg: Config, f: Fields, d: Byte)
    requires AtLength(f) && IsNum(d)
    ensures React(cfg, f, d) == Reaction(Declared(f, Digit(d)), Begin(ValueK), false, Next)
    ensures ParsingHeader(f.state)
  {
    hide Lower;
  }

  lemma NextLengthDigit(cfg: Config, f: Fields, d: Byte)
    requires f.state.HeaderValue? && f.hs == ContentLengthNum && IsNum(d)
    ensures f.contentLength <= LENGTH_LIMIT ==>
              React(cfg, f, d) == Reaction(f.(contentLength := f.contentLength * 10 + Digit(d)), Extend(ValueK), false, Next)
    ensures f.contentLength > LENGTH_LIMIT ==> React(cfg, f, d).v.Fail?
    ensures ParsingHeader(f.state)
  {
    hide Lower;
  }

  /** A byte of data of a header. */
  lemma ValueByte(cfg: Config, m: Progress, b: Byte, f: Fields, act: Act)
    requires ParsingHeader(m.f.state) && m.nread + 1 <= cfg.maxHeaderSize
    requires React(cfg, m.f, b) == Reaction(f, act, false, Next) && (act == Begin(ValueK) || act == Extend(ValueK))
    ensures ByteStep(cfg, m, b) == Going(Progress(f, m.nread + 1, Add(m.log, Event.Data(ValueK, [b]))))
  {
    hide React, Add;
  }

  lemma FailingByte(cfg: Config, m: Progress, b: Byte)
    requires React(cfg, m.f, b).v.Fail?
    ensures ByteStep(cfg, m, b) == Failed
  {
    hide React;
  }

  /** The digits of the header are accepted exactly while the number stays in range. */
  lemma {:induction false} FeedLength(cfg: Config, m: Progress, ds: seq<Byte>)
    requires AtLength(m.f) && ds != [] && AllDigits(ds) && m.nread + |ds| <= cfg.maxHeaderSize
    ensures Feed(cfg, m, ds) ==
            if InRange(ds) then Going(Progress(Declared(m.f, Decimal(ds)), m.nread + |ds|, Add(m.log, Event.Data(ValueK, ds))))
            else Failed
    decreases |ds|
  {
    hide React, ByteStep, ParsingHeader, Decimal, Feed, Add, InRange, AtLength, Digit;
    var n := |ds| - 1;
    var xs, d := ds[..n], ds[n];
    assert ds == xs + [d];
    FeedSplit(cfg, m, xs, [d]);
    DecimalLast(ds);
    if xs == [] {
      DecimalNone();
      FirstLengthDigit(cfg, m.f, d);
      ValueByte(cfg, m, d, Declared(m.f, Digit(d)), Begin(ValueK));
      FeedOne(cfg, m, d);
      FeedNone(cfg, m);
    } else {
      FeedLength(cfg, m, xs);
      if InRange(xs) {
        var mid := Progress(Declared(m.f, Decimal(xs)), m.nread + |xs|, Add(m.log, Event.Data(ValueK, xs)));
        NextLengthDigit(cfg, mid.f, d);
        if Decimal(xs) <= LENGTH_LIMIT {
          ValueByte(cfg, mid, d, mid.f.(contentLength := Decimal(xs) * 10 + Digit(d)), Extend(ValueK));
        } else {
          FailingByte(cfg, mid, d);
        }
        FeedOne(cfg, mid, d);
        AddTwice(m.log, ValueK, xs, [d]);
      }
    }
  }

  lemma DecimalNone()
    ensures Decimal([]) == 0
  {
  }

  lemma DecimalLast(ds: seq<Byte>)
    requires ds != [] && AllDigits(ds)
    ensures AllDigits(ds[..|ds| - 1])
    ensures Decimal(ds) == 10 * Decimal(ds[..|ds| - 1]) + Digit(ds[|ds| - 1])
    ensures InRange(ds) <==> |ds| == 1 || Decimal(ds[..|ds| - 1]) <= LENGTH_LIMIT
    ensures |ds| > 1 && InRange(ds) ==> InRange(ds[..|ds| - 1])
  {
    var xs := ds[..|ds| - 1];
    if |xs| > 1 {
      assert Decimal(xs) == 10 * Decimal(xs[..|xs| - 1]) + Digit(xs[|xs| - 1]);
    }
  }

  // ----- the rest of the headers -----

  predicate InHeaders(s: State) {
    InHeader(s) || s.HeadersAlmostDone?
  }

  /** A length was declared, and its digits are over. */
  predicate LengthKnown(f: Fields) {
    f.flags.hasLength && (f.state.HeaderValue? ==> f.hs != ContentLength && f.hs != ContentLengthNum)
  }

  lemma ReactKeepsLength(cfg: Config, f: Fields, b: Byte)
    requires LengthKnown(f) && (InHeaders(f.state) || f.state.HeadersDone?) && !React(cfg, f, b).v.Fail?
    ensures var g := React(cfg, f, b).f;
            g.contentLength == f.contentLength && LengthKnown(g)
    ensures f.state.HeadersDone? ==> React(cfg, f, b).v.Next? || React(cfg, f, b).v.Leave?
  {
    hide ReactHeader, ReactHeadersAlmostDone, ReactHeadersDone;
    if InHeader(f.state) {
      HeaderKeepsLength(cfg, f, b);
    } else {
      EndKeepsLength(cfg, f, b);
    }
  }

  lemma HeaderKeepsLength(cfg: Config, f: Fields, b: Byte)
    requires LengthKnown(f) && InHeader(f.state) && !ReactHeader(cfg, f, b).v.Fail?
    ensures ReactHeader(cfg, f, b).f.contentLength == f.contentLength && LengthKnown(ReactHeader(cfg, f, b).f)
  {
    if f.state.HeaderField? {
      NameKeepsLength(f, b);
      hide ReactHeaderField;
    } else if f.state.HeaderValue? {
      ValueKeepsLength(cfg, f, b);
      hide ReactHeaderValue;
    } else if f.state.HeaderValueDiscardWs? || f.state.HeaderValueStart? {
      StartKeepsLength(cfg, f, b);
    } else {
      BetweenKeepsLength(cfg, f, b);
    }
  }

  lemma StartKeepsLength(cfg: Config, f: Fields, b: Byte)
    requires f.flags.hasLength && (f.state.HeaderValueDiscardWs? || f.state.HeaderValueStart?)
    requires !ReactHeader(cfg, f, b).v.Fail?
    ensures ReactHeader(cfg, f, b).f.contentLength == f.contentLength && LengthKnown(ReactHeader(cfg, f, b).f)
  {
    hide ReactHeaderField, ReactHeaderValue, Token, FirstField, SetFlags, Lower, IsNum;
  }

  lemma BetweenKeepsLength(cfg: Config, f: Fields, b: Byte)
    requires f.flags.hasLength && InHeader(f.state) && !ReactHeader(cfg, f, b).v.Fail?
    requires !f.state.HeaderField? && !f.state.HeaderValue? && !f.state.HeaderValueDiscardWs? && !f.state.HeaderValueStart?
    ensures ReactHeader(cfg, f, b).f.contentLength == f.contentLength && LengthKnown(ReactHeader(cfg, f, b).f)
  {
    FlagsKeep(f);
    hide ReactHeaderField, ReactHeaderValue, ReactValueStart, Token, FirstField, SetFlags;
  }

  lemma FlagsKeep(f: Fields)
    ensures SetFlags(f) == f.(flags := SetFlags(f).flags) && (f.flags.hasLength ==> SetFlags(f).flags.hasLength)
  {
  }

  lemma NameKeepsLength(f: Fields, b: Byte)
    requires f.flags.hasLength && f.state.HeaderField? && !ReactHeaderField(f, b).v.Fail?
    ensures ReactHeaderField(f, b).f.contentLength == f.contentLength && LengthKnown(ReactHeaderField(f, b).f)
  {
    hide Token;
    if Token(b) != 0 {
      NameKeeps(f, b, Token(b));
    }
    hide NextField;
  }

  lemma NameKeeps(f: Fields, b: Byte, c: Byte)
    ensures var g := NextField(f, b, c); g.contentLength == f.contentLength && g.flags.hasLength == f.flags.hasLength && g.state == f.state
  {
    hide MatchField;
    MatchKeeps(f, CONNECTION, Connection, c);
    MatchKeeps(f, PROXY_CONNECTION, Connection, c);
    MatchKeeps(f, CONTENT_LENGTH, ContentLength, c);
    MatchKeeps(f, TRANSFER_ENCODING, TransferEncoding, c);
    MatchKeeps(f, UPGRADE, Upgrade, c);
  }

  lemma MatchKeeps(f: Fields, word: string, hs: HeaderState, c: Byte)
    requires |word| > 0
    ensures var g := MatchField(f, word, hs, c); g.contentLength == f.contentLength && g.flags.hasLength == f.flags.hasLength && g.state == f.state
  {
    hide Matching;
  }

  lemma ValueKeepsLength(cfg: Config, f: Fields, b: Byte)
    requires LengthKnown(f) && f.state.HeaderValue? && !ReactHeaderValue(cfg, f, b).v.Fail?
    ensures ReactHeaderValue(cfg, f, b).f.contentLength == f.contentLength && LengthKnown(ReactHeaderValue(cfg, f, b).f)
  {
    ValueKeeps(f, b);
    hide NextValue, IsHeaderChar;
  }

  lemma ValueKeeps(f: Fields, b: Byte)
    requires LengthKnown(f) && f.state.HeaderValue?
    ensures var v := NextValue(f, b); v.Good? ==> v.f.contentLength == f.contentLength && LengthKnown(v.f) && v.f.state == f.state
  {
    hide Token, Lower, MatchValue;
    var c := Lower(b);
    MatchValueKeeps(f, CHUNKED, TeChunked, TeToken, c);
    MatchValueKeeps(f, KEEP_ALIVE, ConnKeepAlive, ConnToken, c);
    MatchValueKeeps(f, CLOSE, ConnClose, ConnToken, c);
    MatchValueKeeps(f, UPGRADE, ConnUpgrade, ConnToken, c);
  }

  lemma MatchValueKeeps(f: Fields, word: string, hit: HeaderState, miss: HeaderState, c: Byte)
    requires |word| > 0
    ensures var g := MatchValue(f, word, hit, miss, c);
            g.contentLength == f.contentLength && g.flags == f.flags && g.state == f.state && g.hs in {f.hs, hit, miss}
  {
    hide Matching;
  }

  lemma EndKeepsLength(cfg: Config, f: Fields, b: Byte)
    requires f.flags.hasLength
    ensures f.state.HeadersAlmostDone? && !ReactHeadersAlmostDone(cfg, f, b).v.Fail? ==>
              var g := ReactHeadersAlmostDone(cfg, f, b).f; g.contentLength == f.contentLength && g.flags.hasLength && !g.state.HeaderValue?
    ensures f.state.HeadersDone? && !ReactHeadersDone(cfg, f, b).v.Fail? ==>
              var r := ReactHeadersDone(cfg, f, b);
              r.f.contentLength == f.contentLength && r.f.flags.hasLength && !r.f.state.HeaderValue? && !r.v.Again?
  {
    NewMessageState(f);
    hide NewMessage, NeedsEof;
  }

  /** One byte of the headers, as often as it is looked at. */
  lemma {:induction false} SettleKeepsLength(cfg: Config, m: Progress, b: Byte)
    requires LengthKnown(m.f) && (InHeaders(m.f.state) || m.f.state.HeadersDone?) && Settle(cfg, m, b).Going?
    ensures var n := Settle(cfg, m, b).m;
            InHeaders(n.f.state) || n.f.state.BodyIdentity? ==> n.f.contentLength == m.f.contentLength && LengthKnown(n.f)
    decreases Rank(m.f.state)
  {
    hide React, InHeaders, LengthKnown, LogAct;
    ReactKeepsLength(cfg, m.f, b);
    var r := React(cfg, m.f, b);
    if r.v.Again? {
      AgainRanks(cfg, m.f, b);
      AgainInHeaders(cfg, m.f, b);
      if r.f.state.MessageDone? {
        MessageEnds(cfg, Apply(m, r, b), b);
      } else {
        SettleKeepsLength(cfg, Apply(m, r, b), b);
      }
    }
  }

  lemma DoneReact(cfg: Config, f: Fields, b: Byte)
    requires f.state.MessageDone?
    ensures React(cfg, f, b) == Reaction(f.(state := NewMessage(f)), Tell(MessageComplete), false, if f.msg.upgrade then Leave else Next)
  {
    hide NewMessage;
  }

  lemma MessageEnds(cfg: Config, m: Progress, b: Byte)
    requires m.f.state.MessageDone? && Settle(cfg, m, b).Going?
    ensures !InHeaders(Settle(cfg, m, b).m.f.state) && !Settle(cfg, m, b).m.f.state.BodyIdentity?
  {
    hide NewMessage, LogAct, React;
    NewMessageState(m.f);
    DoneReact(cfg, m.f, b);
  }

  lemma AgainInHeaders(cfg: Config, f: Fields, b: Byte)
    requires (InHeaders(f.state) || f.state.HeadersDone?) && React(cfg, f, b).v.Again?
    ensures var s := React(cfg, f, b).f.state; InHeaders(s) || s.HeadersDone? || s.MessageDone?
  {
    hide ReactHeader, ReactHeadersAlmostDone, ReactHeadersDone;
    if InHeader(f.state) {
      HeaderRedo(cfg, f, b);
    } else {
      HeadersEndRedo(cfg, f, b);
      HeadersEndRanks(cfg, f, b);
    }
  }

  /** Whatever headers follow: until the body begins the length stays what was declared. */
  lemma {:induction false} HeadersKeepLength(cfg: Config, m: Progress, xs: seq<Byte>)
    requires LengthKnown(m.f) && InHeaders(m.f.state)
    requires forall k :: 0 <= k < |xs| ==> Feed(cfg, m, xs[..k]).Going? && InHeaders(Feed(cfg, m, xs[..k]).m.f.state)
    requires Feed(cfg, m, xs).Going?
    ensures var n := Feed(cfg, m, xs).m;
            InHeaders(n.f.state) || n.f.state.BodyIdentity? ==> n.f.contentLength == m.f.contentLength && LengthKnown(n.f)
    decreases |xs|
  {
    hide ByteStep, Feed, LengthKnown, InHeaders;
    if xs == [] {
      FeedNone(cfg, m);
    } else {
      var n := |xs| - 1;
      var ys, b := xs[..n], xs[n];
      assert xs == ys + [b];
      forall k | 0 <= k < |ys| ensures ys[..k] == xs[..k] {
      }
      HeadersKeepLength(cfg, m, ys);
      FeedSplit(cfg, m, ys, [b]);
      var mid := Feed(cfg, m, ys).m;
      FeedOne(cfg, mid, b);
      ByteKeepsLength(cfg, mid, b);
    }
  }

  lemma ByteKeepsLength(cfg: Config, m: Progress, b: Byte)
    requires LengthKnown(m.f) && InHeaders(m.f.state) && ByteStep(cfg, m, b).Going?
    ensures var n := ByteStep(cfg, m, b).m;
            InHeaders(n.f.state) || n.f.state.BodyIdentity? ==> n.f.contentLength == m.f.contentLength && LengthKnown(n.f)
  {
    hide Settle, LengthKnown, InHeaders, ParsingHeader;
    SettleKeepsLength(cfg, if ParsingHeader(m.f.state) then m.(nread := m.nread + 1) else m, b);
  }

  // ----- the body -----

  /** The parser after the last byte of the body. */
  function AfterBody(f: Fields): Fields {
    var g := f.(state := MessageDone, contentLength := 0);
    g.(state := NewMessage(g))
  }

  lemma BodyByte(cfg: Config, m: Progress, b: Byte)
    requires m.f.state.BodyIdentity? && m.f.contentLength > 0
    ensures m.f.contentLength > 1 ==>
              ByteStep(cfg, m, b) ==
              Going(Progress(m.f.(contentLength := m.f.contentLength - 1), m.nread, Add(m.log, Event.Data(BodyK, [b]))))
  {
    hide Add;
  }

  lemma LastReact(cfg: Config, f: Fields, b: Byte)
    requires f.state.BodyIdentity? && f.contentLength == 1
    ensures React(cfg, f, b) == Reaction(f.(contentLength := 0, state := MessageDone), Last(BodyK), false, Again)
  {
  }

  lemma LastBodyByte(cfg: Config, m: Progress, b: Byte)
    requires m.f.state.BodyIdentity? && m.f.contentLength == 1
    ensures var n := Progress(AfterBody(m.f), m.nread, Add(m.log, Event.Data(BodyK, [b])) + [Note(MessageComplete)]);
            ByteStep(cfg, m, b) == if m.f.msg.upgrade then Left(n, 0) else Going(n)
  {
    hide Add, NewMessage, React;
    var m1 := Progress(m.f.(contentLength := 0, state := MessageDone), m.nread, Add(m.log, Event.Data(BodyK, [b])));
    LastReact(cfg, m.f, b);
    DoneReact(cfg, m1.f, b);
    assert ByteStep(cfg, m, b) == Settle(cfg, m1, b);
    NoteAdded(m1.log, MessageComplete);
  }

  lemma NoteAdded(log: seq<Event>, n: Notice)
    ensures Add(log, Note(n)) == log + [Note(n)]
  {
  }

  /** Before the end of the body: what is left is the length less what was delivered, and all
      of it is reported as one piece of data. */
  lemma {:induction false} FeedIdentity(cfg: Config, m: Progress, xs: seq<Byte>)
    requires m.f.state.BodyIdentity? && 0 < |xs| < m.f.contentLength
    ensures Feed(cfg, m, xs) ==
            Going(Progress(m.f.(contentLength := m.f.contentLength - |xs|), m.nread, Add(m.log, Event.Data(BodyK, xs))))
    decreases |xs|
  {
    hide ByteStep, Feed, Add;
    var n := |xs| - 1;
    var ys, b := xs[..n], xs[n];
    assert xs == ys + [b];
    FeedSplit(cfg, m, ys, [b]);
    if ys == [] {
      FeedNone(cfg, m);
      BodyByte(cfg, m, b);
      FeedOne(cfg, m, b);
    } else {
      FeedIdentity(cfg, m, ys);
      var mid := Progress(m.f.(contentLength := m.f.contentLength - |ys|), m.nread, Add(m.log, Event.Data(BodyK, ys)));
      BodyByte(cfg, mid, b);
      FeedOne(cfg, mid, b);
      AddTwice(m.log, BodyK, ys, [b]);
    }
  }

  /** The whole body is one piece of data, and then the message is complete. */
  lemma FeedWholeBody(cfg: Config, m: Progress, body: seq<Byte>)
    requires m.f.state.BodyIdentity? && |body| == m.f.contentLength > 0
    ensures var n := Progress(AfterBody(m.f), m.nread, Add(m.log, Event.Data(BodyK, body)) + [Note(MessageComplete)]);
            Feed(cfg, m, body) == if m.f.msg.upgrade then Left(n, 0) else Going(n)
  {
    hide ByteStep, Feed, Add, NewMessage;
    var k := |body| - 1;
    var ys, b := body[..k], body[k];
    assert body == ys + [b];
    FeedSplit(cfg, m, ys, [b]);
    if ys == [] {
      FeedNone(cfg, m);
      LastBodyByte(cfg, m, b);
      FeedOne(cfg, m, b);
    } else {
      FeedIdentity(cfg, m, ys);
      var mid := Progress(m.f.(contentLength := 1), m.nread, Add(m.log, Event.Data(BodyK, ys)));
      LastBodyByte(cfg, mid, b);
      FeedOne(cfg, mid, b);
      AddTwice(m.log, BodyK, ys, [b]);
      assert AfterBody(mid.f) == AfterBody(m.f);
    }
  }

  /** The bytes after the digits lead through headers to the body, which they do not enter. */
  ghost predicate LeadsToBody(cfg: Config, m: Progress, rest: seq<Byte>) {
    && (forall k :: 0 <= k < |rest| ==> Feed(cfg, m, rest[..k]).Going? && InHeaders(Feed(cfg, m, rest[..k]).m.f.state))
    && Feed(cfg, m, rest).Going? && Feed(cfg, m, rest).m.f.state.BodyIdentity?
  }

  /**
   Declared and delivered: after the digits `ds` of a `Content-Length` header, the end of
   its line and whatever headers follow, the body is as long as the digits say. In the
   middle of it the parser has left what the digits say less what was delivered; at its
   end the data have been reported as one, and the message is complete.
   */
  lemma DeclaredLength(cfg: Config, m: Progress, ds: seq<Byte>, rest: seq<Byte>, body: seq<Byte>)
    requires AtLength(m.f) && ds != [] && AllDigits(ds) && InRange(ds) && m.nread + |ds| + 1 <= cfg.maxHeaderSize
    requires |body| == Decimal(ds) > 0
    requires LeadsToBody(cfg, AfterDigits(m, ds), rest)
    ensures var n := Feed(cfg, AfterDigits(m, ds), rest).m;
            && n.f.contentLength == Decimal(ds)
            && Feed(cfg, m, ds + [CR] + rest) == Going(n)
            && (forall k :: 0 < k < |body| ==>
                  Feed(cfg, m, ds + [CR] + rest + body[..k]) ==
                  Going(Progress(n.f.(contentLength := Decimal(ds) - k), n.nread, Add(n.log, Event.Data(BodyK, body[..k])))))
            && var end := Progress(AfterBody(n.f), n.nread, Add(n.log, Event.Data(BodyK, body)) + [Note(MessageComplete)]);
               Feed(cfg, m, ds + [CR] + rest + body) == if n.f.msg.upgrade then Left(end, 0) else Going(end)
  {
    hide Feed, ByteStep, Decimal, InRange, AtLength, Add, AfterBody, React, ParsingHeader;
    var d := AfterDigits(m, ds);
    FeedDigitsAndCr(cfg, m, ds);
    HeadersKeepLength(cfg, d, rest);
    var n := Feed(cfg, d, rest).m;
    FeedSplit(cfg, m, ds + [CR], rest);
    forall k | 0 < k < |body|
      ensures Feed(cfg, m, ds + [CR] + rest + body[..k]) ==
              Going(Progress(n.f.(contentLength := Decimal(ds) - k), n.nread, Add(n.log, Event.Data(BodyK, body[..k]))))
    {
      FeedIdentity(cfg, n, body[..k]);
      FeedSplit(cfg, m, ds + [CR] + rest, body[..k]);
    }
    FeedWholeBody(cfg, n, body);
    FeedSplit(cfg, m, ds + [CR] + rest, body);
  }

  /** After the digits and the carriage return that ends them. */
  function AfterDigits(m: Progress, ds: seq<Byte>): Progress
    requires AllDigits(ds)
  {
    Progress(Declared(m.f, Decimal(ds)).(state := HeaderAlmostDone), m.nread + |ds| + 1, Add(m.log, Event.Data(ValueK, ds)))
  }

  lemma FeedDigitsAndCr(cfg: Config, m: Progress, ds: seq<Byte>)
    requires AtLength(m.f) && ds != [] && AllDigits(ds) && InRange(ds) && m.nread + |ds| + 1 <= cfg.maxHeaderSize
    ensures Feed(cfg, m, ds + [CR]) == Going(AfterDigits(m, ds))
  {
    hide Feed, ByteStep, Decimal, InRange, AtLength, Add;
    FeedLength(cfg, m, ds);
    var d := Progress(Declared(m.f, Decimal(ds)), m.nread + |ds|, Add(m.log, Event.Data(ValueK, ds)));
    ValueEnds(cfg, d);
    FeedOne(cfg, d, CR);
    FeedSplit(cfg, m, ds, [CR]);
  }

  lemma ValueEnds(cfg: Config, m: Progress)
    requires m.f.state.HeaderValue? && m.nread + 1 <= cfg.maxHeaderSize
    ensures ByteStep(cfg, m, CR) == Going(Progress(m.f.(state := HeaderAlmostDone), m.nread + 1, m.log))
  {
    hide NextValue;
  }

  // ----- a message with no other headers after the length -----

  /** The fields at the end of the headers. */
  function Complete(f: Fields): Fields {
    f.(state := HeadersDone, msg := f.msg.(upgrade :=
         if f.flags.upgrade && f.flags.connUpgrade then f.msg.kind == Request || f.msg.status == 101
         else f.msg.verb == CONNECT))
  }

  /** A body of a declared length follows: it is not chunked and nobody refuses it. */
  predicate BodyExpected(cfg: Config, f: Fields) {
    && !f.flags.usesTE && !f.flags.chunked && !f.flags.trailing && !f.flags.skipBody
    && 0 < f.contentLength < ULLONG_MAX
    && cfg.answer(Complete(f)) == 0 && (Complete(f).msg.upgrade ==> f.msg.verb != CONNECT)
  }

  lemma EndReacts(cfg: Config, f: Fields)
    ensures f.state.HeaderAlmostDone? ==> React(cfg, f, LF) == Reaction(f.(state := HeaderValueLws), Nothing, false, Next)
    ensures f.state.HeaderValueLws? && f.hs == ContentLengthNum ==>
              React(cfg, f, CR) == Reaction(f.(state := HeaderFieldStart), Nothing, false, Again)
    ensures f.state.HeaderFieldStart? ==> React(cfg, f, CR) == Reaction(f.(state := HeadersAlmostDone), Nothing, false, Next)
  {
  }

  lemma EndOfHeaders(cfg: Config, f: Fields)
    requires BodyExpected(cfg, f)
    ensures f.state.HeadersAlmostDone? ==> React(cfg, f, LF) == Reaction(Complete(f), Tell(HeadersComplete), false, Again)
    ensures f.state.HeadersDone? && f.msg == Complete(f).msg ==>
              React(cfg, f, LF) == Reaction(f.(state := BodyIdentity), Nothing, true, Next)
  {
    hide NewMessage, NeedsEof;
  }

  /** The end of the line of the length and an empty line lead to the body. */
  lemma PlainEnd(cfg: Config, m: Progress)
    requires m.f.state.HeaderAlmostDone? && m.f.hs == ContentLengthNum && m.nread + 3 <= cfg.maxHeaderSize
    requires BodyExpected(cfg, m.f.(state := HeadersAlmostDone))
    ensures LeadsToBody(cfg, m, [LF, CR, LF])
    ensures Feed(cfg, m, [LF, CR, LF]) ==
            Going(Progress(Complete(m.f).(state := BodyIdentity), 0, m.log + [Note(HeadersComplete)]))
  {
    hide React, Feed, ByteStep, BodyExpected, Complete;
    var m1 := m.(f := m.f.(state := HeaderValueLws), nread := m.nread + 1);
    var m2 := m.(f := m.f.(state := HeadersAlmostDone), nread := m.nread + 2);
    PlainBytes(cfg, m, m1, m2);
    FeedNone(cfg, m);
    FeedOne(cfg, m, LF);
    FeedOne(cfg, m1, CR);
    FeedOne(cfg, m2, LF);
    FeedSplit(cfg, m, [LF], [CR]);
    assert [LF] + [CR] == [LF, CR];
    FeedSplit(cfg, m, [LF, CR], [LF]);
    assert [LF, CR] + [LF] == [LF, CR, LF];
    var rest := [LF, CR, LF];
    assert rest[..0] == [] && rest[..1] == [LF] && rest[..2] == [LF, CR];
  }

  lemma PlainBytes(cfg: Config, m: Progress, m1: Progress, m2: Progress)
    requires m.f.state.HeaderAlmostDone? && m.f.hs == ContentLengthNum && m.nread + 3 <= cfg.maxHeaderSize
    requires BodyExpected(cfg, m.f.(state := HeadersAlmostDone))
    requires m1 == m.(f := m.f.(state := HeaderValueLws), nread := m.nread + 1)
    requires m2 == m.(f := m.f.(state := HeadersAlmostDone), nread := m.nread + 2)
    ensures ByteStep(cfg, m, LF) == Going(m1) && ByteStep(cfg, m1, CR) == Going(m2)
    ensures ByteStep(cfg, m2, LF) ==
            Going(Progress(Complete(m.f).(state := BodyIdentity), 0, m.log + [Note(HeadersComplete)]))
  {
    hide React, BodyExpected;
    EndReacts(cfg, m.f);
    EndReacts(cfg, m1.f);
    var k1 := m1.(f := m1.f.(state := HeaderFieldStart), nread := m1.nread + 1);
    EndReacts(cfg, k1.f);
    assert ByteStep(cfg, m1, CR) == Settle(cfg, k1, CR);
    EndOfHeaders(cfg, m2.f);
    var k2 := Progress(Complete(m2.f), m2.nread + 1, m2.log + [Note(HeadersComplete)]);
    StillExpected(cfg, m2.f);
    EndOfHeaders(cfg, k2.f);
    assert ByteStep(cfg, m2, LF) == Settle(cfg, k2, LF);
  }

  lemma StillExpected(cfg: Config, f: Fields)
    requires BodyExpected(cfg, f)
    ensures BodyExpected(cfg, Complete(f)) && Complete(Complete(f)) == Complete(f)
  {
  }

  /** The round trip of a message that ends with its length and its body. */
  lemma LengthRoundTrip(cfg: Config, m: Progress, ds: seq<Byte>, body: seq<Byte>)
    requires AtLength(m.f) && ds != [] && AllDigits(ds) && InRange(ds) && m.nread + |ds| + 4 <= cfg.maxHeaderSize
    requires |body| == Decimal(ds) > 0
    requires BodyExpected(cfg, Declared(m.f, |body|).(state := HeadersAlmostDone))
    ensures var f := Complete(Declared(m.f, |body|)).(state := BodyIdentity);
            var log := Add(m.log, Event.Data(ValueK, ds)) + [Note(HeadersComplete), Event.Data(BodyK, body), Note(MessageComplete)];
            Feed(cfg, m, ds + [CR] + [LF, CR, LF] + body) ==
            if f.msg.upgrade then Left(Progress(AfterBody(f), 0, log), 0) else Going(Progress(AfterBody(f), 0, log))
  {
    hide Feed, ByteStep, React, Decimal, InRange, AtLength, BodyExpected, LeadsToBody, AfterBody;
    var d := AfterDigits(m, ds);
    PlainEnd(cfg, d);
    DeclaredLength(cfg, m, ds, [LF, CR, LF], body);
    var log := Add(m.log, Event.Data(ValueK, ds)) + [Note(HeadersComplete)];
    assert Add(log, Event.Data(BodyK, body)) == log + [Event.Data(BodyK, body)];
    assert log + [Event.Data(BodyK, body)] + [Note(MessageComplete)]
        == Add(m.log, Event.Data(ValueK, ds)) + [Note(HeadersComplete), Event.Data(BodyK, body), Note(MessageComplete)];
  }
}
