/**
 Parsing as a fold over bytes, the joined record of events, and the shape of the
 data fields that the reactions open and close.
 */
module HttpStream {
  import opened HttpChars
  import opened HttpMachine

  datatype Event = Data(k: Kind, bytes: seq<Byte>) | Note(n: Notice)

  predicate Continues(log: seq<Event>, e: Event) {
    e.Data? && log != [] && log[|log| - 1].Data? && log[|log| - 1].k == e.k
  }

  /** One more event; data that continues the last event is joined to it. */
  function Add(log: seq<Event>, e: Event): seq<Event> {
    if Continues(log, e) then log[|log| - 1 := Data(e.k, log[|log| - 1].bytes + e.bytes)] else log + [e]
  }

  /** A record of events with adjacent data of one kind joined. */
  function Join(log: seq<Event>): seq<Event> {
    if log == [] then [] else Add(Join(log[..|log| - 1]), log[|log| - 1])
  }

  lemma AddTwice(log: seq<Event>, k: Kind, x: seq<Byte>, y: seq<Byte>)
    ensures Add(Add(log, Data(k, x)), Data(k, y)) == Add(log, Data(k, x + y))
  {
    if Continues(log, Data(k, x)) {
      var z := log[|log| - 1].bytes;
      assert (z + x) + y == z + (x + y);
    }
  }

  lemma JoinMore(log: seq<Event>, e: Event)
    ensures Join(log + [e]) == Add(Join(log), e)
  {
    assert (log + [e])[..|log|] == log;
  }

  /** The events of handling byte `b`, reported at once. */
  function LogAct(log: seq<Event>, act: Act, b: Byte): seq<Event> {
    match act
    case Nothing => log
    case Tell(n) => Add(log, Note(n))
    case Begin(k) => Add(log, Data(k, [b]))
    case Extend(k) => Add(log, Data(k, [b]))
    case Close(_) => log
    case Start(k) => Add(log, Data(k, []))
    case Empty(k) => Add(log, Data(k, []))
    case Last(k) => Add(log, Data(k, [b]))
  }

  datatype Progress = Progress(f: Fields, nread: nat, log: seq<Event>)

  /** Parsing goes on, has failed, or has been left with some bytes unread. */
  datatype Outcome = Going(m: Progress) | Failed | Left(m: Progress, unread: nat)

  function Apply(m: Progress, r: Reaction, b: Byte): Progress {
    Progress(r.f, if r.anew then 0 else m.nread, LogAct(m.log, r.act, b))
  }

  /** The reactions to a byte until the next byte is wanted. */
  function Settle(cfg: Config, m: Progress, b: Byte): Outcome
    decreases Rank(m.f.state)
  {
    var r := React(cfg, m.f, b);
    match r.v
    case Next => Going(Apply(m, r, b))
    case Again => AgainRanks(cfg, m.f, b); Settle(cfg, Apply(m, r, b), b)
    case Fail(_) => Failed
    case Leave => Left(Apply(m, r, b), 0)
  }

  /** One byte: it is counted if it belongs to a header, and then handled. */
  function ByteStep(cfg: Config, m: Progress, b: Byte): Outcome {
    if !ParsingHeader(m.f.state) then Settle(cfg, m, b)
    else if m.nread + 1 > cfg.maxHeaderSize then Failed
    else Settle(cfg, m.(nread := m.nread + 1), b)
  }

  function Feed(cfg: Config, m: Progress, data: seq<Byte>): Outcome
    decreases |data|
  {
    if data == [] then Going(m)
    else
      match ByteStep(cfg, m, data[0])
      case Going(n) => Feed(cfg, n, data[1..])
      case Failed => Failed
      case Left(n, _) => Left(n, |data| - 1)
  }

  function Continue(cfg: Config, o: Outcome, ys: seq<Byte>): Outcome {
    match o
    case Going(m) => Feed(cfg, m, ys)
    case Failed => Failed
    case Left(m, n) => Left(m, n + |ys|)
  }

  /** Feeding a buffer in two parts is feeding it at once. */
  lemma {:induction false} FeedSplit(cfg: Config, m: Progress, xs: seq<Byte>, ys: seq<Byte>)
    ensures Feed(cfg, m, xs + ys) == Continue(cfg, Feed(cfg, m, xs), ys)
    decreases |xs|
  {
    if xs == [] {
      assert xs + ys == ys;
    } else {
      assert (xs + ys)[1..] == xs[1..] + ys;
      var o := ByteStep(cfg, m, xs[0]);
      if o.Going? {
        FeedSplit(cfg, o.m, xs[1..], ys);
      }
    }
  }

  // ----- data fields -----

  /** The kind of data that bytes belong to in a state. */
  function Open(s: State): seq<Kind> {
    if InUrl(s) then [UrlK]
    else if s.ResStatus? then [StatusK]
    else if s.HeaderField? then [FieldK]
    else if s.HeaderValue? then [ValueK]
    else if s.BodyIdentity? || s.BodyIdentityEof? || s.ChunkData? || s.ChunkDataAlmostDone? then [BodyK]
    else []
  }

  /** How reactions may open and close data fields on the way from state `s` to `t`. */
  predicate Shaped(s: State, act: Act, t: State, v: Verdict) {
    && (v.Leave? ==> act.Tell? && Open(t) == [])
    && match act
    case Nothing => Open(s) == [] && (Open(t) == [] || Open(t) == [BodyK])
    case Tell(_) => Open(s) == [] && (Open(t) == [] || Open(t) == [BodyK])
    case Begin(k) => (Open(s) == [] || Open(s) == [k]) && Open(t) == [k] && v.Next?
    case Extend(k) => Open(s) == [k] && Open(t) == [k] && k != BodyK && v.Next?
    case Close(k) => Open(s) == [k] && Open(t) == []
    case Start(k) => Open(s) == [] && Open(t) == [k] && v.Again?
    case Empty(k) => Open(s) == [] && Open(t) == []
    case Last(k) => Open(s) == [k] && Open(t) == [] && v.Again?
  }

  lemma ReactShaped(cfg: Config, f: Fields, b: Byte)
    requires !React(cfg, f, b).v.Fail?
    ensures Shaped(f.state, React(cfg, f, b).act, React(cfg, f, b).f.state, React(cfg, f, b).v)
  {
    hide ReactStart, ReactStatusLine, ReactUrl, ReactRequestLine, ReactHeader, ReactBody, ReactHeadersAlmostDone, ReactHeadersDone, Shaped;
    if InStart(f.state) {
      StartShaped(f, b);
    } else if InStatusLine(f.state) {
      StatusLineShaped(f, b);
    } else if InUrl(f.state) {
      UrlShaped(f, b);
    } else if InRequestLine(f.state) {
      RequestLineShaped(f, b);
    } else if InHeader(f.state) {
      HeaderShaped(cfg, f, b);
    } else if InBody(f.state) {
      BodyShaped(f, b);
    } else if f.state.HeadersAlmostDone? {
      HeadersAlmostDoneShaped(cfg, f, b);
    } else {
      HeadersDoneShaped(cfg, f, b);
    }
  }

  lemma StartShaped(f: Fields, b: Byte)
    requires InStart(f.state) && !ReactStart(f, b).v.Fail?
    ensures Shaped(f.state, ReactStart(f, b).act, ReactStart(f, b).f.state, ReactStart(f, b).v)
  {
    hide FirstGuess;
  }

  lemma StatusLineShaped(f: Fields, b: Byte)
    requires InStatusLine(f.state) && !ReactStatusLine(f, b).v.Fail?
    ensures Shaped(f.state, ReactStatusLine(f, b).act, ReactStatusLine(f, b).f.state, ReactStatusLine(f, b).v)
  {
    hide IsNum;
  }

  lemma UrlShaped(f: Fields, b: Byte)
    requires InUrl(f.state) && !ReactUrl(f, b).v.Fail?
    ensures Shaped(f.state, ReactUrl(f, b).act, ReactUrl(f, b).f.state, ReactUrl(f, b).v)
  {
    UrlStates(f.state, b);
    hide ParseUrlChar;
  }

  lemma RequestLineShaped(f: Fields, b: Byte)
    requires InRequestLine(f.state) && !ReactRequestLine(f, b).v.Fail?
    ensures Shaped(f.state, ReactRequestLine(f, b).act, ReactRequestLine(f, b).f.state, ReactRequestLine(f, b).v)
  {
    UrlStates(if f.msg.verb == CONNECT then ReqServerStart else ReqSpacesBeforeUrl, b);
    hide ParseUrlChar, IsNum, MethodString, Corrected;
  }

  lemma HeaderShaped(cfg: Config, f: Fields, b: Byte)
    requires InHeader(f.state) && !ReactHeader(cfg, f, b).v.Fail?
    ensures Shaped(f.state, ReactHeader(cfg, f, b).act, ReactHeader(cfg, f, b).f.state, ReactHeader(cfg, f, b).v)
  {
    hide Token, IsHeaderChar, FirstField, ReactValueStart, ReactHeaderValue, ReactHeaderField;
    if f.state.HeaderField? {
      FieldShaped(f, b);
    } else if f.state.HeaderValue? {
      ValueShaped(cfg, f, b);
    } else {
      if !ReactValueStart(f, b).v.Fail? {
        ValueStartShaped(f, b);
      }
      SetFlagsState(f);
      hide SetFlags;
    }
  }

  lemma SetFlagsState(f: Fields)
    ensures SetFlags(f).state == f.state
  {
  }

  lemma FieldShaped(f: Fields, b: Byte)
    requires f.state.HeaderField? && !ReactHeaderField(f, b).v.Fail?
    ensures Shaped(HeaderField, ReactHeaderField(f, b).act, ReactHeaderField(f, b).f.state, ReactHeaderField(f, b).v)
  {
    hide Token, Matching;
    assert NextField(f, b, Token(b)).state == f.state;
    hide NextField;
  }

  lemma NextValueState(f: Fields, b: Byte)
    ensures NextValue(f, b).Good? ==> NextValue(f, b).f.state == f.state
  {
    hide Token, Matching, IsNum, Lower;
  }

  lemma ValueShaped(cfg: Config, f: Fields, b: Byte)
    requires f.state.HeaderValue? && !ReactHeaderValue(cfg, f, b).v.Fail?
    ensures Shaped(HeaderValue, ReactHeaderValue(cfg, f, b).act, ReactHeaderValue(cfg, f, b).f.state, ReactHeaderValue(cfg, f, b).v)
  {
    hide IsHeaderChar, NextValue;
    NextValueState(f, b);
  }

  lemma ValueStartShaped(f: Fields, b: Byte)
    requires !ReactValueStart(f, b).v.Fail?
    ensures ReactValueStart(f, b).act == Begin(ValueK) && ReactValueStart(f, b).f.state.HeaderValue? && ReactValueStart(f, b).v.Next?
  {
  }

  lemma BodyShaped(f: Fields, b: Byte)
    requires InBody(f.state) && !ReactBody(f, b).v.Fail?
    ensures Shaped(f.state, ReactBody(f, b).act, ReactBody(f, b).f.state, ReactBody(f, b).v)
  {
    NewMessageClosed(f);
    hide NewMessage, Unhex;
  }

  lemma NewMessageClosed(f: Fields)
    ensures Open(NewMessage(f)) == []
  {
    NewMessageState(f);
    hide NewMessage;
  }

  lemma HeadersAlmostDoneShaped(cfg: Config, f: Fields, b: Byte)
    requires f.state.HeadersAlmostDone? && !ReactHeadersAlmostDone(cfg, f, b).v.Fail?
    ensures Shaped(HeadersAlmostDone, ReactHeadersAlmostDone(cfg, f, b).act, ReactHeadersAlmostDone(cfg, f, b).f.state, ReactHeadersAlmostDone(cfg, f, b).v)
  {
  }

  lemma HeadersDoneShaped(cfg: Config, f: Fields, b: Byte)
    requires f.state.HeadersDone? && !ReactHeadersDone(cfg, f, b).v.Fail?
    ensures Shaped(HeadersDone, ReactHeadersDone(cfg, f, b).act, ReactHeadersDone(cfg, f, b).f.state, ReactHeadersDone(cfg, f, b).v)
  {
    NewMessageClosed(f);
    hide NewMessage, NeedsEof;
  }
}
