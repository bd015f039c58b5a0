/**
 Chunked bodies (section 4.1 of RFC 7230): what is encoded comes out.
 */
module HttpChunks {
  import opened HttpChars
  import opened HttpMachine
  import opened HttpStream

  /** A chunk as written: the digits of its size, its extensions, its data. */
  datatype Chunk = Chunk(digits: seq<Byte>, ext: seq<Byte>, body: seq<Byte>)

  predicate HexDigits(ds: seq<Byte>) {
    forall i :: 0 <= i < |ds| ==> ds[i] < 128 && Unhex(ds[i]) >= 0
  }

  /** The number written by hexadecimal digits. */
  function HexValue(ds: seq<Byte>): nat
    requires HexDigits(ds)
  {
    if ds == [] then 0 else 16 * HexValue(ds[..|ds| - 1]) + Unhex(ds[|ds| - 1])
  }

  /** Extensions are absent, or begin with `;` or a space; they end with the line. */
  predicate Extension(ext: seq<Byte>) {
    && (ext != [] ==> ext[0] == ';' as int || ext[0] == SPACE)
    && (forall i :: 0 <= i < |ext| ==> ext[i] != CR)
  }

  /** The line of a chunk is within the limits and says how much data follows. */
  predicate WfLine(cfg: Config, c: Chunk) {
    && c.digits != [] && HexDigits(c.digits) && Extension(c.ext)
    && HexValue(c.digits) == |c.body| <= ULLONG_MAX - 16
    && |c.digits| + |c.ext| + 2 <= cfg.maxHeaderSize
  }

  predicate WfChunk(cfg: Config, c: Chunk) {
    WfLine(cfg, c) && c.body != []
  }

  function Line(c: Chunk): seq<Byte> {
    c.digits + c.ext + [CR, LF]
  }

  function Encode(c: Chunk): seq<Byte> {
    Line(c) + c.body + [CR, LF]
  }

  function EncodeAll(cs: seq<Chunk>): seq<Byte> {
    if cs == [] then [] else Encode(cs[0]) + EncodeAll(cs[1..])
  }

  /** The events of a chunk, and of the chunk without data that ends the body. */
  function EventsOf(c: Chunk): seq<Event> {
    [Note(ChunkHeader), Event.Data(BodyK, c.body), Note(ChunkComplete)]
  }

  function EventsOfAll(cs: seq<Chunk>): seq<Event> {
    if cs == [] then [] else EventsOf(cs[0]) + EventsOfAll(cs[1..])
  }

  const ENDING := [Note(ChunkHeader), Note(ChunkComplete), Note(MessageComplete)]

  // ----- one line -----

  lemma FeedOne(cfg: Config, m: Progress, b: Byte)
    ensures Feed(cfg, m, [b]) == match ByteStep(cfg, m, b)
                                 case Going(n) => Going(n)
                                 case Failed => Failed
                                 case Left(n, _) => Left(n, 0)
  {
    hide ByteStep;
    assert [b][1..] == [];
  }

  /** A byte of a chunk's line that is handled at once. */
  lemma LineByte(cfg: Config, m: Progress, b: Byte, f: Fields)
    requires ParsingHeader(m.f.state) && m.nread + 1 <= cfg.maxHeaderSize
    requires React(cfg, m.f, b) == Reaction(f, Nothing, false, Next)
    ensures ByteStep(cfg, m, b) == Going(Progress(f, m.nread + 1, m.log))
  {
    hide React;
  }

  lemma FirstDigit(cfg: Config, f: Fields, d: Byte)
    requires f.state.ChunkSizeStart? && Unhex(d) >= 0
    ensures React(cfg, f, d) == Reaction(f.(state := ChunkSize, contentLength := Unhex(d)), Nothing, false, Next)
    ensures ParsingHeader(f.state)
  {
  }

  lemma NextDigit(cfg: Config, f: Fields, d: Byte)
    requires f.state.ChunkSize? && d < 128 && Unhex(d) >= 0 && f.contentLength <= (ULLONG_MAX - 16) / 16
    ensures React(cfg, f, d) == Reaction(f.(contentLength := f.contentLength * 16 + Unhex(d)), Nothing, false, Next)
    ensures ParsingHeader(f.state)
  {
  }

  /** Digits are accepted as long as the number stays clear of the largest one. */
  lemma {:induction false} FeedDigits(cfg: Config, m: Progress, ds: seq<Byte>)
    requires m.f.state.ChunkSizeStart? && m.nread == 0 && ds != [] && HexDigits(ds)
    requires |ds| <= cfg.maxHeaderSize && HexValue(ds) <= ULLONG_MAX - 16
    ensures Feed(cfg, m, ds) == Going(Progress(m.f.(state := ChunkSize, contentLength := HexValue(ds)), |ds|, m.log))
    decreases |ds|
  {
    hide React, ByteStep, ParsingHeader, Unhex, HexValue, Feed;
    var n := |ds| - 1;
    var xs, d := ds[..n], ds[n];
    assert ds == xs + [d];
    FeedSplit(cfg, m, xs, [d]);
    HexPrefix(ds);
    if xs == [] {
      FirstDigit(cfg, m.f, d);
      LineByte(cfg, m, d, m.f.(state := ChunkSize, contentLength := Unhex(d)));
      FeedOne(cfg, m, d);
      FeedNone(cfg, m);
      HexNone();
    } else {
      FeedDigits(cfg, m, xs);
      var mid := Progress(m.f.(state := ChunkSize, contentLength := HexValue(xs)), |xs|, m.log);
      NextDigit(cfg, mid.f, d);
      LineByte(cfg, mid, d, mid.f.(contentLength := HexValue(ds)));
      FeedOne(cfg, mid, d);
    }
  }

  lemma FeedNone(cfg: Config, m: Progress)
    ensures Feed(cfg, m, []) == Going(m)
  {
  }

  lemma HexNone()
    ensures HexValue([]) == 0
  {
  }

  lemma HexPrefix(ds: seq<Byte>)
    requires ds != [] && HexDigits(ds)
    ensures HexDigits(ds[..|ds| - 1]) && HexValue(ds) == 16 * HexValue(ds[..|ds| - 1]) + Unhex(ds[|ds| - 1])
  {
  }

  lemma ExtByte(cfg: Config, f: Fields, b: Byte)
    requires (f.state.ChunkSize? && (b == ';' as int || b == SPACE)) || (f.state.ChunkParameters? && b != CR)
    ensures React(cfg, f, b) == Reaction(f.(state := ChunkParameters), Nothing, false, Next)
    ensures ParsingHeader(f.state)
  {
  }

  /** Extensions are skipped. */
  lemma {:induction false} FeedExtension(cfg: Config, m: Progress, ext: seq<Byte>)
    requires m.f.state.ChunkSize? && Extension(ext) && m.nread + |ext| <= cfg.maxHeaderSize
    ensures Feed(cfg, m, ext) ==
            Going(Progress(if ext == [] then m.f else m.f.(state := ChunkParameters), m.nread + |ext|, m.log))
    decreases |ext|
  {
    hide React, ByteStep, ParsingHeader, Feed;
    if ext == [] {
      FeedNone(cfg, m);
    } else {
      var n := |ext| - 1;
      var xs, b := ext[..n], ext[n];
      assert ext == xs + [b];
      FeedSplit(cfg, m, xs, [b]);
      FeedExtension(cfg, m, xs);
      var mid := Progress(if xs == [] then m.f else m.f.(state := ChunkParameters), m.nread + |xs|, m.log);
      ExtByte(cfg, mid.f, b);
      LineByte(cfg, mid, b, mid.f.(state := ChunkParameters));
      FeedOne(cfg, mid, b);
    }
  }

  /** What a chunk's line leads to: its data, or the end of the body. */
  function AfterLine(f: Fields, size: nat): Fields {
    if size == 0 then f.(state := HeaderFieldStart, contentLength := 0, flags := f.flags.(trailing := true))
    else f.(state := ChunkData, contentLength := size)
  }

  lemma LineEnd(cfg: Config, f: Fields)
    ensures f.state.ChunkSize? || f.state.ChunkParameters? ==>
              React(cfg, f, CR) == Reaction(f.(state := ChunkSizeAlmostDone), Nothing, false, Next) && ParsingHeader(f.state)
    ensures f.state.ChunkSizeAlmostDone? ==>
              React(cfg, f, LF) == Reaction(AfterLine(f, f.contentLength), Tell(ChunkHeader), true, Next) && ParsingHeader(f.state)
  {
  }

  lemma FeedLine(cfg: Config, m: Progress, c: Chunk)
    requires m.f.state.ChunkSizeStart? && m.nread == 0 && WfLine(cfg, c)
    ensures Feed(cfg, m, Line(c)) == Going(Progress(AfterLine(m.f, |c.body|), 0, m.log + [Note(ChunkHeader)]))
  {
    hide React, ParsingHeader, Feed, HexValue, Settle;
    FeedDigits(cfg, m, c.digits);
    var m1 := Progress(m.f.(state := ChunkSize, contentLength := |c.body|), |c.digits|, m.log);
    FeedExtension(cfg, m1, c.ext);
    var m2 := Progress(if c.ext == [] then m1.f else m1.f.(state := ChunkParameters), |c.digits| + |c.ext|, m.log);
    FeedSplit(cfg, m, c.digits, c.ext);
    LineEnd(cfg, m2.f);
    LineByte(cfg, m2, CR, m2.f.(state := ChunkSizeAlmostDone));
    FeedOne(cfg, m2, CR);
    var m3 := Progress(m2.f.(state := ChunkSizeAlmostDone), m2.nread + 1, m.log);
    LineEnd(cfg, m3.f);
    FreshByte(cfg, m3, LF, AfterLine(m3.f, |c.body|), ChunkHeader);
    FeedOne(cfg, m3, LF);
    FeedSplit(cfg, m2, [CR], [LF]);
    assert [CR] + [LF] == [CR, LF];
    FeedSplit(cfg, m, c.digits + c.ext, [CR, LF]);
    hide ByteStep;
    assert AfterLine(m3.f, |c.body|) == AfterLine(m.f, |c.body|);
  }

  /** A byte that starts a new count and reports a notice. */
  lemma FreshByte(cfg: Config, m: Progress, b: Byte, f: Fields, n: Notice)
    requires ParsingHeader(m.f.state) ==> m.nread + 1 <= cfg.maxHeaderSize
    requires React(cfg, m.f, b) == Reaction(f, Tell(n), true, Next)
    ensures ByteStep(cfg, m, b) == Going(Progress(f, 0, m.log + [Note(n)]))
  {
    hide React, ParsingHeader;
  }

  // ----- one chunk -----

  lemma DataByte(cfg: Config, m: Progress, b: Byte)
    requires m.f.state.ChunkData? && m.f.contentLength > 0
    ensures ByteStep(cfg, m, b) ==
            Going(Progress(m.f.(contentLength := m.f.contentLength - 1,
                                state := if m.f.contentLength == 1 then ChunkDataAlmostDone else ChunkData),
                           m.nread, Add(m.log, Event.Data(BodyK, [b]))))
  {
    hide Add;
  }

  /** The bytes left of a chunk are those announced but not yet delivered. */
  lemma {:induction false} FeedData(cfg: Config, m: Progress, xs: seq<Byte>)
    requires m.f.state.ChunkData? && 0 < |xs| <= m.f.contentLength
    ensures Feed(cfg, m, xs) ==
            Going(Progress(m.f.(contentLength := m.f.contentLength - |xs|,
                                state := if m.f.contentLength == |xs| then ChunkDataAlmostDone else ChunkData),
                           m.nread, Add(m.log, Event.Data(BodyK, xs))))
    decreases |xs|
  {
    hide ByteStep, Feed, Add;
    var n := |xs| - 1;
    var ys, b := xs[..n], xs[n];
    assert xs == ys + [b];
    FeedSplit(cfg, m, ys, [b]);
    if ys == [] {
      FeedNone(cfg, m);
      DataByte(cfg, m, b);
      FeedOne(cfg, m, b);
    } else {
      FeedData(cfg, m, ys);
      var mid := Progress(m.f.(contentLength := m.f.contentLength - |ys|), m.nread, Add(m.log, Event.Data(BodyK, ys)));
      DataByte(cfg, mid, b);
      FeedOne(cfg, mid, b);
      AddTwice(m.log, BodyK, ys, [b]);
    }
  }

  lemma DataEnd(cfg: Config, m: Progress)
    ensures m.f.state.ChunkDataAlmostDone? ==> ByteStep(cfg, m, CR) == Going(m.(f := m.f.(state := ChunkDataDone)))
    ensures m.f.state.ChunkDataDone? ==>
              ByteStep(cfg, m, LF) == Going(Progress(m.f.(state := ChunkSizeStart), 0, m.log + [Note(ChunkComplete)]))
  {
  }

  lemma FeedChunk(cfg: Config, m: Progress, c: Chunk)
    requires m.f.state.ChunkSizeStart? && m.nread == 0 && WfChunk(cfg, c)
    ensures Feed(cfg, m, Encode(c)) == Going(Progress(m.f.(contentLength := 0), 0, m.log + EventsOf(c)))
  {
    hide ByteStep, Feed, HexValue;
    FeedLine(cfg, m, c);
    var m1 := Progress(AfterLine(m.f, |c.body|), 0, m.log + [Note(ChunkHeader)]);
    FeedData(cfg, m1, c.body);
    assert Add(m1.log, Event.Data(BodyK, c.body)) == m1.log + [Event.Data(BodyK, c.body)];
    var m2 := Progress(m.f.(state := ChunkDataAlmostDone, contentLength := 0), 0, m1.log + [Event.Data(BodyK, c.body)]);
    FeedSplit(cfg, m, Line(c), c.body);
    DataEnd(cfg, m2);
    FeedOne(cfg, m2, CR);
    var m3 := m2.(f := m2.f.(state := ChunkDataDone));
    DataEnd(cfg, m3);
    FeedOne(cfg, m3, LF);
    FeedSplit(cfg, m2, [CR], [LF]);
    assert [CR] + [LF] == [CR, LF];
    FeedSplit(cfg, m, Line(c) + c.body, [CR, LF]);
    assert m1.log + [Event.Data(BodyK, c.body)] + [Note(ChunkComplete)] == m.log + EventsOf(c);
  }

  // ----- the whole body -----

  lemma {:induction false} FeedChunks(cfg: Config, m: Progress, cs: seq<Chunk>)
    requires m.f.state.ChunkSizeStart? && m.nread == 0 && forall i :: 0 <= i < |cs| ==> WfChunk(cfg, cs[i])
    ensures Feed(cfg, m, EncodeAll(cs)) ==
            Going(Progress(if cs == [] then m.f else m.f.(contentLength := 0), 0, m.log + EventsOfAll(cs)))
    decreases |cs|
  {
    hide Feed, WfChunk;
    if cs == [] {
      FeedNone(cfg, m);
    } else {
      FeedChunk(cfg, m, cs[0]);
      var m1 := Progress(m.f.(contentLength := 0), 0, m.log + EventsOf(cs[0]));
      FeedChunks(cfg, m1, cs[1..]);
      FeedSplit(cfg, m, Encode(cs[0]), EncodeAll(cs[1..]));
      hide Encode, EventsOf;
      assert m1.log + EventsOfAll(cs[1..]) == m.log + EventsOfAll(cs);
    }
  }

  /** The parser after a chunked message. */
  function AfterMessage(f: Fields): Fields {
    var g := f.(state := MessageDone, contentLength := 0, flags := f.flags.(trailing := true));
    g.(state := NewMessage(g))
  }

  lemma EndingReacts(cfg: Config, f: Fields)
    requires f.flags.trailing
    ensures f.state.HeaderFieldStart? ==>
              React(cfg, f, CR) == Reaction(f.(state := HeadersAlmostDone), Nothing, false, Next) && ParsingHeader(f.state)
    ensures f.state.HeadersAlmostDone? ==>
              React(cfg, f, LF) == Reaction(f.(state := MessageDone), Tell(ChunkComplete), false, Again) && ParsingHeader(f.state)
    ensures f.state.MessageDone? ==>
              React(cfg, f, LF) == Reaction(f.(state := NewMessage(f)), Tell(MessageComplete), false, if f.msg.upgrade then Leave else Next)
  {
    hide NewMessage;
  }

  lemma FeedEnding(cfg: Config, m: Progress)
    requires m.f.state.HeaderFieldStart? && m.f.flags.trailing && m.f.contentLength == 0 && m.nread == 0 && cfg.maxHeaderSize >= 2
    ensures var n := Progress(AfterMessage(m.f), 2, m.log + [Note(ChunkComplete), Note(MessageComplete)]);
            Feed(cfg, m, [CR, LF]) == if m.f.msg.upgrade then Left(n, 0) else Going(n)
  {
    hide React, ParsingHeader, NewMessage, Feed;
    EndingReacts(cfg, m.f);
    var m1 := Progress(m.f.(state := HeadersAlmostDone), 1, m.log);
    assert Feed(cfg, m, [CR]) == Going(m1) by {
      LineByte(cfg, m, CR, m.f.(state := HeadersAlmostDone));
      FeedOne(cfg, m, CR);
    }
    FeedEndingLf(cfg, m.f, m.log);
    FeedSplit(cfg, m, [CR], [LF]);
    assert [CR] + [LF] == [CR, LF];
  }

  lemma FeedEndingLf(cfg: Config, f: Fields, log: seq<Event>)
    requires f.flags.trailing && f.contentLength == 0 && cfg.maxHeaderSize >= 2
    ensures var n := Progress(AfterMessage(f), 2, log + [Note(ChunkComplete), Note(MessageComplete)]);
            Feed(cfg, Progress(f.(state := HeadersAlmostDone), 1, log), [LF]) == if f.msg.upgrade then Left(n, 0) else Going(n)
  {
    hide React, ParsingHeader, NewMessage, Feed;
    var m1 := Progress(f.(state := HeadersAlmostDone), 1, log);
    var m2 := Progress(f.(state := MessageDone), 2, log + [Note(ChunkComplete)]);
    EndingReacts(cfg, m1.f);
    EndingReacts(cfg, m2.f);
    assert ByteStep(cfg, m1, LF) == Settle(cfg, m2, LF);
    assert m2.log + [Note(MessageComplete)] == log + [Note(ChunkComplete), Note(MessageComplete)];
    FeedOne(cfg, m1, LF);
  }

  /** A chunked body: chunks with data, then one without. */
  function Body(cs: seq<Chunk>, last: Chunk): seq<Byte> {
    EncodeAll(cs) + Line(last) + [CR, LF]
  }

  function DataOf(cs: seq<Chunk>): seq<Byte> {
    if cs == [] then [] else cs[0].body + DataOf(cs[1..])
  }

  /** The body data among events. */
  function BodyOf(log: seq<Event>): seq<Byte> {
    if log == [] then []
    else (if log[0].Data? && log[0].k == BodyK then log[0].bytes else []) + BodyOf(log[1..])
  }

  /** Chunk headers and chunk completions alternate, beginning with a header unless
      `open`, and ending with a completion. */
  predicate Alternating(log: seq<Event>, open: bool) {
    if log == [] then !open
    else if log[0] == Note(ChunkHeader) then !open && Alternating(log[1..], true)
    else if log[0] == Note(ChunkComplete) then open && Alternating(log[1..], false)
    else Alternating(log[1..], open)
  }

  function Completions(log: seq<Event>): nat {
    if log == [] then 0 else (if log[0] == Note(MessageComplete) then 1 else 0) + Completions(log[1..])
  }

  /**
   The round trip: whatever was written in chunks comes out as the data of the chunks
   in order, chunk headers and completions alternate, and there is one completion of
   the message.
   */
  lemma ChunkedRoundTrip(cfg: Config, m: Progress, cs: seq<Chunk>, last: Chunk)
    requires m.f.state.ChunkSizeStart? && m.nread == 0
    requires (forall i :: 0 <= i < |cs| ==> WfChunk(cfg, cs[i])) && WfLine(cfg, last) && last.body == []
    ensures var events := EventsOfAll(cs) + ENDING;
            var n := Progress(AfterMessage(m.f), 2, m.log + events);
            && Feed(cfg, m, Body(cs, last)) == (if m.f.msg.upgrade then Left(n, 0) else Going(n))
            && BodyOf(events) == DataOf(cs)
            && Alternating(events, false)
            && Completions(events) == 1
  {
    hide Feed, WfChunk, WfLine, Line, NewMessage;
    assert cfg.maxHeaderSize >= 2 by { LineFits(cfg, last); }
    FeedChunks(cfg, m, cs);
    var m1 := Progress(if cs == [] then m.f else m.f.(contentLength := 0), 0, m.log + EventsOfAll(cs));
    FeedLine(cfg, m1, last);
    FeedSplit(cfg, m, EncodeAll(cs), Line(last));
    var m2 := Progress(AfterLine(m1.f, 0), 0, m1.log + [Note(ChunkHeader)]);
    FeedEnding(cfg, m2);
    FeedSplit(cfg, m, EncodeAll(cs) + Line(last), [CR, LF]);
    assert AfterMessage(m2.f) == AfterMessage(m.f);
    assert m2.log + [Note(ChunkComplete), Note(MessageComplete)] == m.log + (EventsOfAll(cs) + ENDING);
    hide EventsOfAll, AfterMessage;
    EventsReadBack(cs);
  }

  lemma LineFits(cfg: Config, c: Chunk)
    requires WfLine(cfg, c)
    ensures cfg.maxHeaderSize >= 2
  {
  }

  lemma {:induction false} EventsReadBack(cs: seq<Chunk>)
    ensures var events := EventsOfAll(cs) + ENDING;
            BodyOf(events) == DataOf(cs) && Alternating(events, false) && Completions(events) == 1
    decreases |cs|
  {
    if cs == [] {
      assert EventsOfAll(cs) + ENDING == ENDING;
      assert ENDING[1..] == [Note(ChunkComplete), Note(MessageComplete)];
      assert ENDING[1..][1..] == [Note(MessageComplete)];
      assert ENDING[1..][1..][1..] == [];
    } else {
      EventsReadBack(cs[1..]);
      ChunkReadBack(cs[0], EventsOfAll(cs[1..]) + ENDING);
      assert EventsOfAll(cs) + ENDING == EventsOf(cs[0]) + (EventsOfAll(cs[1..]) + ENDING);
    }
  }

  lemma {:induction false} ChunkReadBack(c: Chunk, rest: seq<Event>)
    ensures var events := EventsOf(c) + rest;
            && BodyOf(events) == c.body + BodyOf(rest)
            && Alternating(events, false) == Alternating(rest, false)
            && Completions(events) == Completions(rest)
  {
    var events := EventsOf(c) + rest;
    var e1 := events[1..];
    var e2 := e1[1..];
    assert e2[1..] == rest;
    assert Alternating(e2, true) == Alternating(rest, false);
    assert Alternating(e1, true) == Alternating(e2, true);
    assert BodyOf(e1) == c.body + BodyOf(e2);
    assert Completions(e1) == Completions(e2);
  }
}
