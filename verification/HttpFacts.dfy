/**
 What every state of the HTTP parser can rely on: the facts that its assertions
 check.
 */
module HttpFacts {
  import opened HttpChars
  import opened HttpMachine
  import opened HttpStream
  import opened HttpRun

  /** The word being matched in a header name or value. */
  function Word(hs: HeaderState): string {
    match hs
    case MatchingConnection => CONNECTION
    case MatchingProxyConnection => PROXY_CONNECTION
    case MatchingContentLength => CONTENT_LENGTH
    case MatchingTransferEncoding => TRANSFER_ENCODING
    case MatchingUpgrade => UPGRADE
    case TeChunkedMatch => CHUNKED
    case ConnKeepAliveMatch => KEEP_ALIVE
    case ConnCloseMatch => CLOSE
    case ConnUpgradeMatch => UPGRADE
    case _ => ""
  }

  /** States of a header name. */
  predicate NameState(hs: HeaderState) {
    hs.General? || hs.HC? || hs.HCO? || hs.HCON? || hs.MatchingConnection? || hs.MatchingProxyConnection?
    || hs.MatchingContentLength? || hs.MatchingTransferEncoding? || hs.MatchingUpgrade?
    || hs.Connection? || hs.ContentLength? || hs.TransferEncoding? || hs.Upgrade?
  }

  /** States of a header value. */
  predicate ValueState(hs: HeaderState) {
    hs.General? || hs.ContentLengthNum? || hs.ContentLengthWs?
    || hs.TeTokenStart? || hs.TeChunkedMatch? || hs.TeToken? || hs.TeChunked?
    || hs.ConnTokenStart? || hs.ConnKeepAliveMatch? || hs.ConnCloseMatch? || hs.ConnUpgradeMatch? || hs.ConnToken?
    || hs.ConnKeepAlive? || hs.ConnClose? || hs.ConnUpgrade?
  }

  /** The position in the word being matched: the next comparison is within it. */
  predicate IndexOk(f: Fields) {
    && (f.hs.HC? ==> f.index == 0)
    && (f.hs.HCO? ==> f.index == 1)
    && (f.hs.HCON? ==> f.index == 2)
    && (Word(f.hs) != "" ==> f.index + 1 < |Word(f.hs)|)
  }

  predicate ValueIndexOk(f: Fields) {
    && (f.hs.TeTokenStart? || f.hs.ConnTokenStart? ==> f.index == 0)
    && (Word(f.hs) != "" ==> f.index + 1 < |Word(f.hs)|)
  }

  predicate InChunk(s: State) {
    s.ChunkSizeStart? || s.ChunkSize? || s.ChunkParameters? || s.ChunkSizeAlmostDone?
    || s.ChunkData? || s.ChunkDataAlmostDone? || s.ChunkDataDone?
  }

  /** What the assertions of the parser rely on in each state. */
  predicate FieldsOk(f: Fields) {
    && f.contentLength <= ULLONG_MAX
    && f.index < 32
    && (f.state.ReqMethod? ==> f.index <= |MethodString(f.msg.verb)|)
    && (f.state.HeaderField? ==> NameState(f.hs) && IndexOk(f))
    && (f.state.HeaderValue? ==> ValueState(f.hs) && ValueIndexOk(f))
    && (InChunk(f.state) ==> f.flags.chunked)
    && (f.state.ChunkSize? || f.state.ChunkParameters? || f.state.ChunkSizeAlmostDone? ==> f.contentLength != ULLONG_MAX)
    && (f.state.ChunkData? || f.state.BodyIdentity? ==> f.contentLength != 0 && f.contentLength != ULLONG_MAX)
    && (f.state.ChunkDataAlmostDone? ==> f.contentLength == 0)
  }

  lemma ReactFields(cfg: Config, f: Fields, b: Byte)
    requires FieldsOk(f) && !React(cfg, f, b).v.Fail?
    ensures FieldsOk(React(cfg, f, b).f)
  {
    hide ReactStart, ReactStatusLine, ReactUrl, ReactRequestLine, ReactHeader, ReactBody, ReactHeadersAlmostDone, ReactHeadersDone, FieldsOk;
    if InStart(f.state) {
      StartFields(f, b);
    } else if InStatusLine(f.state) {
      StatusLineFields(f, b);
    } else if InUrl(f.state) {
      UrlFields(f, b);
    } else if InRequestLine(f.state) {
      RequestLineFields(f, b);
    } else if InHeader(f.state) {
      HeaderFields(cfg, f, b);
    } else if InBody(f.state) {
      BodyFields(f, b);
    } else if f.state.HeadersAlmostDone? {
      HeadersAlmostDoneFields(cfg, f, b);
    } else {
      HeadersDoneFields(cfg, f, b);
    }
  }

  lemma StartFields(f: Fields, b: Byte)
    requires FieldsOk(f) && InStart(f.state) && !ReactStart(f, b).v.Fail?
    ensures FieldsOk(ReactStart(f, b).f)
  {
    hide NameState, ValueState, IndexOk, ValueIndexOk, FirstGuess, MethodString;
    assert |MethodString(HEAD)| == 4 by { HeadLength(); }
    assert FirstGuess(b) != [] ==> |MethodString(FirstGuess(b)[0])| > 1;
  }

  lemma HeadLength()
    ensures |MethodString(HEAD)| == 4
  {
  }

  lemma StatusLineFields(f: Fields, b: Byte)
    requires FieldsOk(f) && InStatusLine(f.state) && !ReactStatusLine(f, b).v.Fail?
    ensures FieldsOk(ReactStatusLine(f, b).f)
  {
    hide NameState, ValueState, IndexOk, ValueIndexOk, MethodString, IsNum;
  }

  lemma UrlFields(f: Fields, b: Byte)
    requires FieldsOk(f) && InUrl(f.state) && !ReactUrl(f, b).v.Fail?
    ensures FieldsOk(ReactUrl(f, b).f)
  {
    UrlStates(f.state, b);
    hide NameState, ValueState, IndexOk, ValueIndexOk, MethodString, ParseUrlChar;
  }

  lemma RequestLineFields(f: Fields, b: Byte)
    requires FieldsOk(f) && InRequestLine(f.state) && !ReactRequestLine(f, b).v.Fail?
    ensures FieldsOk(ReactRequestLine(f, b).f)
  {
    UrlStates(if f.msg.verb == CONNECT then ReqServerStart else ReqSpacesBeforeUrl, b);
    hide NameState, ValueState, IndexOk, ValueIndexOk, MethodString, ParseUrlChar, IsNum, ReactMethod;
    if f.state.ReqMethod? {
      MethodFields(f, b);
    }
  }

  lemma MethodLengths(m: Method)
    ensures |MethodString(m)| <= 11
  {
  }

  lemma CorrectedLength(m: Method, i: nat, b: Byte)
    ensures Corrected(m, i, b) != [] ==> i + 1 <= |MethodString(Corrected(m, i, b)[0])| && i < 5
  {
    CorrectedIndex(m, i, b);
    hide Corrected, MethodString;
    if Corrected(m, i, b) != [] {
      LongEnough(Corrected(m, i, b)[0]);
    }
  }

  lemma CorrectedIndex(m: Method, i: nat, b: Byte)
    ensures Corrected(m, i, b) != [] ==> i < 5 && (i >= 3 ==> Corrected(m, i, b)[0] in {PROPPATCH, MKCALENDAR, UNLINK})
  {
    hide MethodString;
  }

  lemma LongEnough(m: Method)
    ensures |MethodString(m)| >= if m in {PROPPATCH, MKCALENDAR, UNLINK} then 5 else 3
  {
  }

  lemma MethodFields(f: Fields, b: Byte)
    requires FieldsOk(f) && f.state.ReqMethod? && !ReactMethod(f, b).v.Fail?
    ensures FieldsOk(ReactMethod(f, b).f)
  {
    MethodLengths(f.msg.verb);
    CorrectedLength(f.msg.verb, f.index, b);
    hide NameState, ValueState, IndexOk, ValueIndexOk, MethodString, Corrected;
  }

  lemma HeaderFields(cfg: Config, f: Fields, b: Byte)
    requires FieldsOk(f) && InHeader(f.state) && !ReactHeader(cfg, f, b).v.Fail?
    ensures FieldsOk(ReactHeader(cfg, f, b).f)
  {
    hide FieldsOk, ReactHeaderField, ReactHeaderValue, ReactValueStart, MethodString;
    if f.state.HeaderField? {
      NameFields(f, b);
    } else if f.state.HeaderValue? {
      ValueFields(cfg, f, b);
    } else if !ReactValueStart(f, b).v.Fail? {
      ValueStartFields(f, b);
      OtherHeaderFields(cfg, f, b);
    } else {
      OtherHeaderFields(cfg, f, b);
    }
  }

  lemma OtherHeaderFields(cfg: Config, f: Fields, b: Byte)
    requires FieldsOk(f) && InHeader(f.state) && !ReactHeader(cfg, f, b).v.Fail?
    requires !f.state.HeaderField? && !f.state.HeaderValue?
    ensures FieldsOk(ReactHeader(cfg, f, b).f) || ReactHeader(cfg, f, b) == ReactValueStart(f, b)
  {
    hide FieldsOk, ReactHeader, ReactValueStart;
    if f.state.HeaderFieldStart? {
      FieldStartFields(cfg, f, b);
    } else if f.state.HeaderValueLws? || f.state.HeaderValueDiscardLws? {
      FoldFields(cfg, f, b);
      BetweenFields(f, ReactHeader(cfg, f, b).f);
    } else if !StartsValue(f, b) {
      SpaceFields(cfg, f, b);
      BetweenFields(f, ReactHeader(cfg, f, b).f);
    } else {
      ValueStarts(cfg, f, b);
    }
  }

  /** Nothing is said about fields between a header line's end and the next name or value. */
  predicate Between(s: State) {
    s.HeaderFieldStart? || s.HeaderValueDiscardWs? || s.HeaderValueDiscardWsAlmostDone?
    || s.HeaderValueDiscardLws? || s.HeaderValueStart? || s.HeaderValueLws?
  }

  lemma BetweenFields(f: Fields, g: Fields)
    requires FieldsOk(f) && Between(g.state) && g.index == f.index && g.contentLength == f.contentLength
    ensures FieldsOk(g)
  {
    hide MethodString, NameState, ValueState, IndexOk, ValueIndexOk;
  }

  /** The byte is the first of a value. */
  predicate StartsValue(f: Fields, b: Byte) {
    f.state.HeaderValueStart? || (f.state.HeaderValueDiscardWs? && b != SPACE && b != TAB && b != CR && b != LF)
  }

  lemma ValueStarts(cfg: Config, f: Fields, b: Byte)
    requires InHeader(f.state) && StartsValue(f, b)
    ensures ReactHeader(cfg, f, b) == ReactValueStart(f, b)
  {
    hide ReactHeaderField, ReactHeaderValue, ReactValueStart, SetFlags;
  }

  /** The states that wait for the end of a line or skip blanks. */
  lemma SpaceFields(cfg: Config, f: Fields, b: Byte)
    requires InHeader(f.state) && !ReactHeader(cfg, f, b).v.Fail? && !StartsValue(f, b)
    requires f.state.HeaderValueDiscardWs? || f.state.HeaderAlmostDone? || f.state.HeaderValueDiscardWsAlmostDone?
    ensures var g := ReactHeader(cfg, f, b).f;
            Between(g.state) && g.index == f.index && g.contentLength == f.contentLength
  {
    hide ReactHeaderField, ReactHeaderValue, ReactValueStart, SetFlags, Token, FirstField;
  }

  /** The states after a line's end, where the next line may continue the value. */
  lemma FoldFields(cfg: Config, f: Fields, b: Byte)
    requires InHeader(f.state) && !ReactHeader(cfg, f, b).v.Fail?
    requires f.state.HeaderValueLws? || f.state.HeaderValueDiscardLws?
    ensures var g := ReactHeader(cfg, f, b).f;
            Between(g.state) && g.index == f.index && g.contentLength == f.contentLength
  {
    hide ReactHeaderField, ReactHeaderValue, ReactValueStart, SetFlags, Token, FirstField;
    FlagsOnly(f);
  }

  lemma FieldStartFields(cfg: Config, f: Fields, b: Byte)
    requires FieldsOk(f) && f.state.HeaderFieldStart? && !ReactHeader(cfg, f, b).v.Fail?
    ensures FieldsOk(ReactHeader(cfg, f, b).f)
  {
    hide MethodString, Token, SetFlags;
    assert NameState(FirstField(Token(b))) && IndexOk(f.(index := 0, hs := FirstField(Token(b))));
    hide NameState, IndexOk, FirstField, ValueState, ValueIndexOk;
  }

  lemma FlagsOnly(f: Fields)
    ensures SetFlags(f) == f.(flags := SetFlags(f).flags)
    ensures f.flags.chunked ==> SetFlags(f).flags.chunked
  {
  }

  lemma ValueStartFields(f: Fields, b: Byte)
    requires FieldsOk(f) && !ReactValueStart(f, b).v.Fail?
    ensures FieldsOk(ReactValueStart(f, b).f)
  {
    hide MethodString, Lower;
  }

  lemma NameFields(f: Fields, b: Byte)
    requires FieldsOk(f) && f.state.HeaderField? && !ReactHeaderField(f, b).v.Fail?
    ensures FieldsOk(ReactHeaderField(f, b).f)
  {
    hide MethodString, Token;
    if Token(b) != 0 {
      NextFieldOk(f, b, Token(b));
      hide NextField, NameState, IndexOk;
    }
  }

  lemma NextFieldOk(f: Fields, b: Byte, c: Byte)
    requires NameState(f.hs) && IndexOk(f) && f.index < 32
    ensures var g := NextField(f, b, c);
            && NameState(g.hs) && IndexOk(g) && g.index < 32 && g.state == f.state && g.contentLength == f.contentLength
  {
  }

  lemma ValueFields(cfg: Config, f: Fields, b: Byte)
    requires FieldsOk(f) && f.state.HeaderValue? && !ReactHeaderValue(cfg, f, b).v.Fail?
    ensures FieldsOk(ReactHeaderValue(cfg, f, b).f)
  {
    hide MethodString, IsHeaderChar, NextValue;
    if NextValue(f, b).Good? {
      NextValueOk(f, b);
      hide ValueState, ValueIndexOk;
    }
  }

  lemma NextValueOk(f: Fields, b: Byte)
    requires ValueState(f.hs) && ValueIndexOk(f) && f.index < 32 && NextValue(f, b).Good?
    requires f.contentLength <= ULLONG_MAX
    ensures var g := NextValue(f, b).f;
            && ValueState(g.hs) && ValueIndexOk(g) && g.index < 32 && g.state == f.state && g.contentLength <= ULLONG_MAX
  {
    hide Token, Lower;
  }

  lemma BodyFields(f: Fields, b: Byte)
    requires FieldsOk(f) && InBody(f.state) && !ReactBody(f, b).v.Fail?
    ensures FieldsOk(ReactBody(f, b).f)
  {
    NewMessageState(f);
    hide NameState, ValueState, IndexOk, ValueIndexOk, MethodString, NewMessage, Unhex;
  }

  lemma HeadersAlmostDoneFields(cfg: Config, f: Fields, b: Byte)
    requires FieldsOk(f) && !ReactHeadersAlmostDone(cfg, f, b).v.Fail?
    ensures FieldsOk(ReactHeadersAlmostDone(cfg, f, b).f)
  {
    hide NameState, ValueState, IndexOk, ValueIndexOk, MethodString;
    var r := ReactHeadersAlmostDone(cfg, f, b);
    assert r.f.index == f.index && r.f.contentLength == f.contentLength && (r.f.state.MessageDone? || r.f.state.HeadersDone?);
    hide ReactHeadersAlmostDone;
  }

  lemma HeadersDoneFields(cfg: Config, f: Fields, b: Byte)
    requires FieldsOk(f) && !ReactHeadersDone(cfg, f, b).v.Fail?
    ensures FieldsOk(ReactHeadersDone(cfg, f, b).f)
  {
    NewMessageState(f);
    hide NameState, ValueState, IndexOk, ValueIndexOk, MethodString, NewMessage, NeedsEof;
  }

  lemma FailsWithError(cfg: Config, f: Fields, b: Byte)
    ensures React(cfg, f, b).v.Fail? ==> !React(cfg, f, b).v.e.NoError?
  {
    hide ReactStart, ReactStatusLine, ReactUrl, ReactRequestLine, ReactHeader, ReactBody, ReactHeadersAlmostDone, ReactHeadersDone;
    if InStart(f.state) || InStatusLine(f.state) || InUrl(f.state) || InRequestLine(f.state) {
      EarlyError(f, b);
    } else if InHeader(f.state) {
      HeaderError(cfg, f, b);
    } else {
      LateError(cfg, f, b);
    }
  }

  lemma EarlyError(f: Fields, b: Byte)
    ensures InStart(f.state) && ReactStart(f, b).v.Fail? ==> !ReactStart(f, b).v.e.NoError?
    ensures InStatusLine(f.state) && ReactStatusLine(f, b).v.Fail? ==> !ReactStatusLine(f, b).v.e.NoError?
    ensures InUrl(f.state) && ReactUrl(f, b).v.Fail? ==> !ReactUrl(f, b).v.e.NoError?
    ensures InRequestLine(f.state) && ReactRequestLine(f, b).v.Fail? ==> !ReactRequestLine(f, b).v.e.NoError?
  {
    hide ParseUrlChar, MethodString, Corrected, FirstGuess, IsNum, NewMessage;
  }

  lemma HeaderError(cfg: Config, f: Fields, b: Byte)
    requires InHeader(f.state)
    ensures ReactHeader(cfg, f, b).v.Fail? ==> !ReactHeader(cfg, f, b).v.e.NoError?
  {
    hide Token, IsNum, IsHeaderChar, SetFlags, NextField, NextValue, FirstField, Lower;
  }

  lemma LateError(cfg: Config, f: Fields, b: Byte)
    ensures InBody(f.state) && ReactBody(f, b).v.Fail? ==> !ReactBody(f, b).v.e.NoError?
    ensures ReactHeadersAlmostDone(cfg, f, b).v.Fail? ==> !ReactHeadersAlmostDone(cfg, f, b).v.e.NoError?
    ensures ReactHeadersDone(cfg, f, b).v.Fail? ==> !ReactHeadersDone(cfg, f, b).v.e.NoError?
  {
    hide Unhex, NewMessage, NeedsEof;
  }

  /** The count of header bytes starts anew before each chunk size. */
  lemma ChunkStartsAnew(cfg: Config, f: Fields, b: Byte)
    ensures var r := React(cfg, f, b); !r.v.Fail? && r.f.state.ChunkSizeStart? ==> r.anew
  {
    hide ReactStart, ReactStatusLine, ReactUrl, ReactRequestLine, ReactHeader, ReactBody, ReactHeadersAlmostDone, ReactHeadersDone;
    if InStart(f.state) || InStatusLine(f.state) || InUrl(f.state) || InRequestLine(f.state) {
      EarlyNoChunk(f, b);
    } else if InHeader(f.state) {
      HeaderNoChunk(cfg, f, b);
    } else {
      LateChunk(cfg, f, b);
    }
  }

  lemma EarlyNoChunk(f: Fields, b: Byte)
    ensures InStart(f.state) && !ReactStart(f, b).v.Fail? ==> !ReactStart(f, b).f.state.ChunkSizeStart?
    ensures InStatusLine(f.state) && !ReactStatusLine(f, b).v.Fail? ==> !ReactStatusLine(f, b).f.state.ChunkSizeStart?
    ensures InUrl(f.state) && !ReactUrl(f, b).v.Fail? ==> !ReactUrl(f, b).f.state.ChunkSizeStart?
    ensures InRequestLine(f.state) && !ReactRequestLine(f, b).v.Fail? ==> !ReactRequestLine(f, b).f.state.ChunkSizeStart?
  {
    UrlStates(f.state, b);
    UrlStates(if f.msg.verb == CONNECT then ReqServerStart else ReqSpacesBeforeUrl, b);
    hide ParseUrlChar, MethodString, Corrected, FirstGuess, IsNum;
  }

  lemma HeaderNoChunk(cfg: Config, f: Fields, b: Byte)
    requires InHeader(f.state)
    ensures !ReactHeader(cfg, f, b).v.Fail? ==> !ReactHeader(cfg, f, b).f.state.ChunkSizeStart?
  {
    if f.state.HeaderField? {
      NameNoChunk(f, b);
    } else if f.state.HeaderValue? {
      ValueNoChunk(cfg, f, b);
    }
    ValueStartNoChunk(f, b);
    FlagsOnly(f);
    hide ReactHeaderField, ReactHeaderValue, ReactValueStart, Token, SetFlags, FirstField;
  }

  lemma NameNoChunk(f: Fields, b: Byte)
    requires f.state.HeaderField?
    ensures !ReactHeaderField(f, b).v.Fail? ==> !ReactHeaderField(f, b).f.state.ChunkSizeStart?
  {
    assert NextField(f, b, Token(b)).state == f.state;
    hide Token, NextField;
  }

  lemma ValueNoChunk(cfg: Config, f: Fields, b: Byte)
    requires f.state.HeaderValue?
    ensures !ReactHeaderValue(cfg, f, b).v.Fail? ==> !ReactHeaderValue(cfg, f, b).f.state.ChunkSizeStart?
  {
    assert NextValue(f, b).Good? ==> NextValue(f, b).f.state == f.state;
    hide NextValue, IsHeaderChar;
  }

  lemma ValueStartNoChunk(f: Fields, b: Byte)
    ensures !ReactValueStart(f, b).v.Fail? ==> !ReactValueStart(f, b).f.state.ChunkSizeStart?
  {
    hide Lower, IsNum;
  }

  lemma LateChunk(cfg: Config, f: Fields, b: Byte)
    ensures InBody(f.state) && !ReactBody(f, b).v.Fail? && ReactBody(f, b).f.state.ChunkSizeStart? ==> ReactBody(f, b).anew
    ensures f.state.HeadersAlmostDone? && !ReactHeadersAlmostDone(cfg, f, b).v.Fail? ==> !ReactHeadersAlmostDone(cfg, f, b).f.state.ChunkSizeStart?
    ensures ReactHeadersDone(cfg, f, b).f.state.ChunkSizeStart? && !ReactHeadersDone(cfg, f, b).v.Fail? ==> ReactHeadersDone(cfg, f, b).anew
  {
    NewMessageState(f);
    hide Unhex, NewMessage, NeedsEof;
  }

  lemma NameKeeps(cfg: Config, f: Fields, b: Byte, marks: Marks, p: nat)
    requires f.state.HeaderField? && Token(b) != 0 && FieldsOk(f) && MarksOk(HeaderField, marks, p)
    ensures FieldsOk(NextField(f, b, Token(b))) && NextField(f, b, Token(b)).state.HeaderField?
    ensures MarksOk(HeaderField, marks, p + 1)
  {
    hide FieldsOk, MarksOk, NextField, Token, React;
    NameReact(cfg, f, b);
    ReactFields(cfg, f, b);
    MarksLater(HeaderField, marks, p);
  }

  lemma NameDone(cfg: Config, f: Fields, b: Byte, marks: Marks, log: seq<Event>, data: seq<Byte>, p: nat)
    requires f.state.HeaderField? && b == ':' as int && p < |data| && data[p] == b && FieldsOk(f) && MarksOk(HeaderField, marks, p)
    ensures React(cfg, f, b) == Reaction(f.(state := HeaderValueDiscardWs), Close(FieldK), false, Next)
    ensures FieldsOk(f.(state := HeaderValueDiscardWs)) && MarksOk(HeaderValueDiscardWs, Put(marks, FieldK, -1), p + 1)
  {
    assert React(cfg, f, b) == Reaction(f.(state := HeaderValueDiscardWs), Close(FieldK), false, Next);
    hide React, FieldsOk, MarksOk;
    ReactFields(cfg, f, b);
    HandledMarks(cfg, f, b, marks, log, data, p);
  }

  lemma NameBad(cfg: Config, f: Fields, b: Byte)
    requires f.state.HeaderField? && Token(b) == 0 && b != ':' as int
    ensures React(cfg, f, b).v.Fail?
  {
    hide Token;
  }

  lemma ValueKeeps(cfg: Config, f: Fields, b: Byte, marks: Marks, p: nat)
    requires f.state.HeaderValue? && ValueByte(cfg, b) && NextValue(f, b).Good? && FieldsOk(f) && MarksOk(HeaderValue, marks, p)
    ensures FieldsOk(NextValue(f, b).f) && NextValue(f, b).f.state.HeaderValue?
    ensures MarksOk(HeaderValue, marks, p + 1)
  {
    hide FieldsOk, MarksOk, NextValue, React, ValueByte;
    ValueReact(cfg, f, b);
    ReactFields(cfg, f, b);
    MarksLater(HeaderValue, marks, p);
  }

  lemma ValueDone(cfg: Config, f: Fields, b: Byte, marks: Marks, log: seq<Event>, data: seq<Byte>, p: nat)
    requires f.state.HeaderValue? && (b == CR || b == LF) && p < |data| && data[p] == b && FieldsOk(f) && MarksOk(HeaderValue, marks, p)
    ensures React(cfg, f, b) == Reaction(f.(state := HeaderAlmostDone), Close(ValueK), false, if b == CR then Next else Again)
    ensures FieldsOk(f.(state := HeaderAlmostDone)) && MarksOk(HeaderAlmostDone, Put(marks, ValueK, -1), p)
    ensures MarksOk(HeaderAlmostDone, Put(marks, ValueK, -1), p + 1)
  {
    assert React(cfg, f, b) == Reaction(f.(state := HeaderAlmostDone), Close(ValueK), false, if b == CR then Next else Again);
    hide React, FieldsOk, MarksOk;
    ReactFields(cfg, f, b);
    HandledMarks(cfg, f, b, marks, log, data, p);
  }

  lemma ValueBad(cfg: Config, f: Fields, b: Byte)
    requires f.state.HeaderValue? && b != CR && b != LF && !ValueByte(cfg, b)
    ensures React(cfg, f, b).v.Fail?
  {
    hide IsHeaderChar, NextValue;
  }

  /** A byte that is looked at again stays counted, and only in headers was it counted. */
  lemma AgainFacts(cfg: Config, f: Fields, b: Byte)
    ensures var r := React(cfg, f, b); r.v.Again? ==> !r.anew && (ParsingHeader(r.f.state) ==> ParsingHeader(f.state))
  {
    hide ReactStart, ReactStatusLine, ReactUrl, ReactRequestLine, ReactHeader, ReactBody, ReactHeadersAlmostDone, ReactHeadersDone;
    if InStart(f.state) || InStatusLine(f.state) {
      StartAgain(f, b);
    } else if InUrl(f.state) || InRequestLine(f.state) {
      RequestLineOnce(f, b);
    } else if InHeader(f.state) {
      HeaderAgain(cfg, f, b);
    } else if InBody(f.state) {
      BodyAgain(f, b);
    } else {
      HeadersEndAgain(cfg, f, b);
    }
  }

  lemma StartAgain(f: Fields, b: Byte)
    ensures InStart(f.state) && ReactStart(f, b).v.Again? ==> !ReactStart(f, b).anew
    ensures InStatusLine(f.state) && ReactStatusLine(f, b).v.Again? ==> !ReactStatusLine(f, b).anew
  {
    hide FirstGuess, IsNum;
  }

  lemma HeaderAgain(cfg: Config, f: Fields, b: Byte)
    requires InHeader(f.state)
    ensures ReactHeader(cfg, f, b).v.Again? ==> !ReactHeader(cfg, f, b).anew
  {
    hide Token, IsNum, IsHeaderChar, SetFlags, NextField, NextValue, FirstField, Lower;
  }

  lemma BodyAgain(f: Fields, b: Byte)
    requires InBody(f.state)
    ensures ReactBody(f, b).v.Again? ==> !ReactBody(f, b).anew && !ParsingHeader(ReactBody(f, b).f.state)
  {
    hide Unhex, NewMessage;
  }

  lemma HeadersEndAgain(cfg: Config, f: Fields, b: Byte)
    ensures ReactHeadersAlmostDone(cfg, f, b).v.Again? ==> !ReactHeadersAlmostDone(cfg, f, b).anew
    ensures !ReactHeadersDone(cfg, f, b).v.Again?
  {
    hide NewMessage, NeedsEof;
  }

  lemma HeaderStates()
    ensures ParsingHeader(ChunkSizeStart) && ParsingHeader(HeaderField) && ParsingHeader(HeaderValue)
  {
  }
}
