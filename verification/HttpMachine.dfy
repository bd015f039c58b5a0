/**
 The HTTP parser as a machine that reads one byte at a time: its states, its
 reaction to a byte in each of them, and the events it reports.
 */
module HttpMachine {
  import opened HttpChars

  datatype State =
    | Dead
    | StartReqOrRes | ResOrRespH
    | StartRes | ResH | ResHT | ResHTT | ResHTTP
    | ResHttpMajor | ResHttpDot | ResHttpMinor | ResHttpEnd
    | ResFirstStatusCode | ResStatusCode | ResStatusStart | ResStatus | ResLineAlmostDone
    | StartReq | ReqMethod | ReqSpacesBeforeUrl
    | ReqSchema | ReqSchemaSlash | ReqSchemaSlashSlash
    | ReqServerStart | ReqServer | ReqServerWithAt
    | ReqPath | ReqQueryStringStart | ReqQueryString | ReqFragmentStart | ReqFragment
    | ReqHttpStart | ReqHttpH | ReqHttpHT | ReqHttpHTT | ReqHttpHTTP | ReqHttpI | ReqHttpIC
    | ReqHttpMajor | ReqHttpDot | ReqHttpMinor | ReqHttpEnd | ReqLineAlmostDone
    | HeaderFieldStart | HeaderField
    | HeaderValueDiscardWs | HeaderValueDiscardWsAlmostDone | HeaderValueDiscardLws
    | HeaderValueStart | HeaderValue | HeaderValueLws | HeaderAlmostDone
    | ChunkSizeStart | ChunkSize | ChunkParameters | ChunkSizeAlmostDone
    | HeadersAlmostDone | HeadersDone
    | ChunkData | ChunkDataAlmostDone | ChunkDataDone
    | BodyIdentity | BodyIdentityEof
    | MessageDone

  /** The states whose bytes count against the limit of the header size. */
  predicate ParsingHeader(s: State) {
    !(s.ChunkData? || s.ChunkDataAlmostDone? || s.ChunkDataDone? || s.BodyIdentity? || s.BodyIdentityEof? || s.MessageDone?)
  }

  datatype HeaderState =
    | General | HC | HCO | HCON
    | MatchingConnection | MatchingProxyConnection | MatchingContentLength | MatchingTransferEncoding | MatchingUpgrade
    | Connection | ContentLength | ContentLengthNum | ContentLengthWs | TransferEncoding | Upgrade
    | TeTokenStart | TeChunkedMatch | TeToken
    | ConnTokenStart | ConnKeepAliveMatch | ConnCloseMatch | ConnUpgradeMatch | ConnToken
    | TeChunked | ConnKeepAlive | ConnClose | ConnUpgrade

  datatype MessageType = Request | Response | Both

  datatype Method =
    | DELETE | GET | HEAD | POST | PUT | CONNECT | OPTIONS | TRACE | COPY | LOCK | MKCOL | MOVE
    | PROPFIND | PROPPATCH | SEARCH | UNLOCK | BIND | REBIND | UNBIND | ACL | REPORT | MKACTIVITY
    | CHECKOUT | MERGE | MSEARCH | NOTIFY | SUBSCRIBE | UNSUBSCRIBE | PATCH | PURGE | MKCALENDAR
    | LINK | UNLINK | SOURCE

  function MethodString(m: Method): string {
    match m
    case DELETE => "DELETE" case GET => "GET" case HEAD => "HEAD" case POST => "POST" case PUT => "PUT"
    case CONNECT => "CONNECT" case OPTIONS => "OPTIONS" case TRACE => "TRACE" case COPY => "COPY" case LOCK => "LOCK"
    case MKCOL => "MKCOL" case MOVE => "MOVE" case PROPFIND => "PROPFIND" case PROPPATCH => "PROPPATCH"
    case SEARCH => "SEARCH" case UNLOCK => "UNLOCK" case BIND => "BIND" case REBIND => "REBIND" case UNBIND => "UNBIND"
    case ACL => "ACL" case REPORT => "REPORT" case MKACTIVITY => "MKACTIVITY" case CHECKOUT => "CHECKOUT"
    case MERGE => "MERGE" case MSEARCH => "M-SEARCH" case NOTIFY => "NOTIFY" case SUBSCRIBE => "SUBSCRIBE"
    case UNSUBSCRIBE => "UNSUBSCRIBE" case PATCH => "PATCH" case PURGE => "PURGE" case MKCALENDAR => "MKCALENDAR"
    case LINK => "LINK" case UNLINK => "UNLINK" case SOURCE => "SOURCE"
  }

  const ULLONG_MAX: nat := 0xFFFF_FFFF_FFFF_FFFF

  /** The fields of a parser, but for the byte count `nread` and the error number. */
  datatype Fields = Fields(state: State, hs: HeaderState, index: nat, contentLength: nat, msg: Message, flags: Flags)

  /** What the first line of the message said, and whether the protocol changes after it. */
  datatype Message = Message(kind: MessageType, major: nat, minor: nat, status: nat, verb: Method, upgrade: bool)

  datatype Flags = Flags(
    usesTE: bool, chunked: bool, keepAlive: bool, close: bool, connUpgrade: bool,
    trailing: bool, upgrade: bool, skipBody: bool, hasLength: bool)

  const NOFLAGS := Flags(false, false, false, false, false, false, false, false, false)

  /** What is set up from outside: leniency, the limit of the header size, and the
      answer of the callback at the end of the headers. */
  datatype Config = Config(lenient: bool, allowChunkedLength: bool, maxHeaderSize: nat, answer: Fields -> nat)

  datatype Kind = FieldK | ValueK | UrlK | BodyK | StatusK

  datatype Notice = MessageBegin | HeadersComplete | MessageComplete | ChunkHeader | ChunkComplete

  datatype Errno =
    | InvalidEofState | HeaderOverflow | ClosedConnection | InvalidVersion | InvalidStatus | InvalidMethod
    | InvalidUrl | LfExpected | InvalidHeaderToken | InvalidContentLength | UnexpectedContentLength
    | InvalidChunkSize | InvalidConstant | Strict | InvalidTransferEncoding | CbHeadersComplete | NoError

  /**
   What the code does with events while it handles a byte, in terms of the marks
   where data fields start and the callbacks that report them:
   Tell: a notice. Begin: the mark is set, and the byte belongs to the field.
   Extend: the byte belongs to the open field. Close: the open field is reported, up to
   the byte. Start: the mark is set, and the byte is looked at again. Empty: a field
   without bytes is reported. Last: the byte belongs to the field, which is reported.
   */
  datatype Act =
    | Nothing | Tell(n: Notice)
    | Begin(k: Kind) | Extend(k: Kind) | Close(k: Kind) | Start(k: Kind) | Empty(k: Kind) | Last(k: Kind)

  /** What happens next: the following byte, the same byte in the new state, an
      error, or leaving the parser because the protocol changes. */
  datatype Verdict = Next | Again | Fail(e: Errno) | Leave

  /** `anew` says that the count of header bytes starts anew. */
  datatype Reaction = Reaction(f: Fields, act: Act, anew: bool, v: Verdict)

  // ----- tests on the whole message -----

  function StartState(f: Fields): State {
    if f.msg.kind == Request then StartReq else StartRes
  }

  predicate NeedsEof(f: Fields) {
    if f.msg.kind == Request then false
    else if f.msg.status / 100 == 1 || f.msg.status == 204 || f.msg.status == 304 || f.flags.skipBody then false
    else if f.flags.usesTE && !f.flags.chunked then true
    else if f.flags.chunked || f.contentLength != ULLONG_MAX then false
    else true
  }

  predicate ShouldKeepAlive(f: Fields) {
    if f.msg.major > 0 && f.msg.minor > 0 then !f.flags.close && !NeedsEof(f)
    else f.flags.keepAlive && !NeedsEof(f)
  }

  function NewMessage(f: Fields): State {
    if ShouldKeepAlive(f) then StartState(f) else Dead
  }

  // ----- bytes of URLs, methods and headers -----

  /** The state after a byte of a URL; Dead if it is not allowed. */
  function ParseUrlChar(s: State, ch: Byte): State {
    if ch == SPACE || ch == CR || ch == LF || ch == TAB || ch == FF then Dead
    else match s
      case ReqSpacesBeforeUrl =>
        if ch == '/' as int || ch == '*' as int then ReqPath
        else if IsAlpha(ch) then ReqSchema else Dead
      case ReqSchema =>
        if IsAlpha(ch) then ReqSchema else if ch == ':' as int then ReqSchemaSlash else Dead
      case ReqSchemaSlash => if ch == '/' as int then ReqSchemaSlashSlash else Dead
      case ReqSchemaSlashSlash => if ch == '/' as int then ReqServerStart else Dead
      case ReqServerWithAt => if ch == '@' as int then Dead else ParseServerChar(ch)
      case ReqServerStart => ParseServerChar(ch)
      case ReqServer => ParseServerChar(ch)
      case ReqPath =>
        if IsUrlChar(ch) then ReqPath
        else if ch == '?' as int then ReqQueryStringStart
        else if ch == '#' as int then ReqFragmentStart else Dead
      case ReqQueryStringStart => ParseQueryChar(ch)
      case ReqQueryString => ParseQueryChar(ch)
      case ReqFragmentStart =>
        if IsUrlChar(ch) || ch == '?' as int then ReqFragment
        else if ch == '#' as int then ReqFragmentStart else Dead
      case ReqFragment =>
        if IsUrlChar(ch) || ch == '?' as int || ch == '#' as int then ReqFragment else Dead
      case _ => Dead
  }

  function ParseServerChar(ch: Byte): State {
    if ch == '/' as int then ReqPath
    else if ch == '?' as int then ReqQueryStringStart
    else if ch == '@' as int then ReqServerWithAt
    else if IsUserinfoChar(ch) || ch == '[' as int || ch == ']' as int then ReqServer
    else Dead
  }

  function ParseQueryChar(ch: Byte): State {
    if IsUrlChar(ch) || ch == '?' as int then ReqQueryString
    else if ch == '#' as int then ReqFragmentStart else Dead
  }

  /** The method guessed from the first byte. */
  function FirstGuess(ch: Byte): (m: seq<Method>)
    ensures |m| <= 1
    ensures |m| == 1 ==> |MethodString(m[0])| > 1 && MethodString(m[0])[0] as int == ch
  {
    if ch == 'A' as int then [ACL]
    else if ch == 'B' as int then [BIND]
    else if ch == 'C' as int then [CONNECT]
    else if ch == 'D' as int then [DELETE]
    else if ch == 'G' as int then [GET]
    else if ch == 'H' as int then [HEAD]
    else if ch == 'L' as int then [LOCK]
    else if ch == 'M' as int then [MKCOL]
    else if ch == 'N' as int then [NOTIFY]
    else if ch == 'O' as int then [OPTIONS]
    else if ch == 'P' as int then [POST]
    else if ch == 'R' as int then [REPORT]
    else if ch == 'S' as int then [SUBSCRIBE]
    else if ch == 'T' as int then [TRACE]
    else if ch == 'U' as int then [UNLOCK]
    else []
  }

  /** The method that the guess is corrected to. */
  function Corrected(m: Method, index: nat, ch: Byte): seq<Method> {
    if m == POST && index == 1 && ch == 'U' as int then [PUT]
    else if m == POST && index == 1 && ch == 'A' as int then [PATCH]
    else if m == POST && index == 1 && ch == 'R' as int then [PROPFIND]
    else if m == PUT && index == 2 && ch == 'R' as int then [PURGE]
    else if m == CONNECT && index == 1 && ch == 'H' as int then [CHECKOUT]
    else if m == CONNECT && index == 2 && ch == 'P' as int then [COPY]
    else if m == MKCOL && index == 1 && ch == 'O' as int then [MOVE]
    else if m == MKCOL && index == 1 && ch == 'E' as int then [MERGE]
    else if m == MKCOL && index == 1 && ch == '-' as int then [MSEARCH]
    else if m == MKCOL && index == 2 && ch == 'A' as int then [MKACTIVITY]
    else if m == MKCOL && index == 3 && ch == 'A' as int then [MKCALENDAR]
    else if m == SUBSCRIBE && index == 1 && ch == 'E' as int then [SEARCH]
    else if m == SUBSCRIBE && index == 1 && ch == 'O' as int then [SOURCE]
    else if m == REPORT && index == 2 && ch == 'B' as int then [REBIND]
    else if m == PROPFIND && index == 4 && ch == 'P' as int then [PROPPATCH]
    else if m == LOCK && index == 1 && ch == 'I' as int then [LINK]
    else if m == UNLOCK && index == 2 && ch == 'S' as int then [UNSUBSCRIBE]
    else if m == UNLOCK && index == 2 && ch == 'B' as int then [UNBIND]
    else if m == UNLOCK && index == 3 && ch == 'I' as int then [UNLINK]
    else []
  }

  /** One more character of a word that is being matched: the next index, and whether
      the word is still possible and now complete. */
  datatype Match = Miss | Partial | Complete

  function Matching(word: string, index: nat, c: Byte): Match
    requires |word| > 0
  {
    if index > |word| || (if index == |word| then c != 0 else c != word[index] as int) then Miss
    else if index == |word| - 1 then Complete
    else Partial
  }

  const CONNECTION := "connection"
  const PROXY_CONNECTION := "proxy-connection"
  const CONTENT_LENGTH := "content-length"
  const TRANSFER_ENCODING := "transfer-encoding"
  const UPGRADE := "upgrade"
  const CHUNKED := "chunked"
  const KEEP_ALIVE := "keep-alive"
  const CLOSE := "close"

  // ----- reactions -----

  function Go(f: Fields, s: State): Reaction {
    Reaction(f.(state := s), Nothing, false, Next)
  }

  function Stay(f: Fields): Reaction {
    Reaction(f, Nothing, false, Next)
  }

  function Redo(f: Fields, s: State): Reaction {
    Reaction(f.(state := s), Nothing, false, Again)
  }

  function Err(f: Fields, e: Errno): Reaction {
    Reaction(f, Nothing, false, Fail(e))
  }

  /** Go on to `s` if the byte is the expected one. */
  function Expect(f: Fields, ok: bool, e: Errno, s: State): Reaction {
    if ok then Go(f, s) else Err(f, e)
  }

  function Digit(ch: Byte): int {
    ch - '0' as int
  }

  function Blank(f: Fields): Fields {
    f.(flags := NOFLAGS, contentLength := ULLONG_MAX)
  }

  function ReactStart(f: Fields, ch: Byte): Reaction
    requires f.state.Dead? || f.state.StartReqOrRes? || f.state.ResOrRespH? || f.state.StartRes? || f.state.StartReq?
  {
    if (ch == CR || ch == LF) && !f.state.ResOrRespH? then Stay(f)
    else match f.state
      case Dead => Err(f, ClosedConnection)
      case StartReqOrRes =>
        if ch == 'H' as int then Reaction(Blank(f).(state := ResOrRespH), Tell(MessageBegin), false, Next)
        else Redo(Blank(f).(msg := f.msg.(kind := Request)), StartReq)
      case ResOrRespH =>
        if ch == 'T' as int then Go(f.(msg := f.msg.(kind := Response)), ResHT)
        else if ch != 'E' as int then Err(f, InvalidConstant)
        else Go(f.(msg := f.msg.(kind := Request, verb := HEAD), index := 2), ReqMethod)
      case StartRes =>
        if ch == 'H' as int then Reaction(Blank(f).(state := ResH), Tell(MessageBegin), false, Next)
        else Err(f, InvalidConstant)
      case StartReq =>
        var guess := FirstGuess(ch);
        if guess == [] then Err(f, InvalidMethod)
        else Reaction(Blank(f).(msg := f.msg.(verb := guess[0]), index := 1, state := ReqMethod), Tell(MessageBegin), false, Next)
  }

  predicate InStatusLine(s: State) {
    s.ResH? || s.ResHT? || s.ResHTT? || s.ResHTTP? || s.ResHttpMajor? || s.ResHttpDot? || s.ResHttpMinor? || s.ResHttpEnd?
    || s.ResFirstStatusCode? || s.ResStatusCode? || s.ResStatusStart? || s.ResStatus? || s.ResLineAlmostDone?
  }

  function ReactStatusLine(f: Fields, ch: Byte): Reaction
    requires InStatusLine(f.state)
  {
    match f.state
    case ResH => Expect(f, ch == 'T' as int, Strict, ResHT)
    case ResHT => Expect(f, ch == 'T' as int, Strict, ResHTT)
    case ResHTT => Expect(f, ch == 'P' as int, Strict, ResHTTP)
    case ResHTTP => Expect(f, ch == '/' as int, Strict, ResHttpMajor)
    case ResHttpMajor => if IsNum(ch) then Go(f.(msg := f.msg.(major := Digit(ch))), ResHttpDot) else Err(f, InvalidVersion)
    case ResHttpDot => Expect(f, ch == '.' as int, InvalidVersion, ResHttpMinor)
    case ResHttpMinor => if IsNum(ch) then Go(f.(msg := f.msg.(minor := Digit(ch))), ResHttpEnd) else Err(f, InvalidVersion)
    case ResHttpEnd => Expect(f, ch == SPACE, InvalidVersion, ResFirstStatusCode)
    case ResFirstStatusCode =>
      if IsNum(ch) then Go(f.(msg := f.msg.(status := Digit(ch))), ResStatusCode)
      else if ch == SPACE then Stay(f) else Err(f, InvalidStatus)
    case ResStatusCode =>
      if IsNum(ch) then
        var code := f.msg.status * 10 + Digit(ch);
        if code > 999 then Err(f, InvalidStatus) else Stay(f.(msg := f.msg.(status := code)))
      else if ch == SPACE then Go(f, ResStatusStart)
      else if ch == CR || ch == LF then Redo(f, ResStatusStart)
      else Err(f, InvalidStatus)
    case ResStatusStart =>
      var g := f.(state := ResStatus, index := 0);
      if ch == CR || ch == LF then Reaction(g, Start(StatusK), false, Again)
      else Reaction(g, Begin(StatusK), false, Next)
    case ResStatus =>
      if ch == CR then Reaction(f.(state := ResLineAlmostDone), Close(StatusK), false, Next)
      else if ch == LF then Reaction(f.(state := HeaderFieldStart), Close(StatusK), false, Next)
      else Reaction(f, Extend(StatusK), false, Next)
    case ResLineAlmostDone => Expect(f, ch == LF, Strict, HeaderFieldStart)
  }

  predicate InUrl(s: State) {
    s.ReqSchema? || s.ReqSchemaSlash? || s.ReqSchemaSlashSlash? || s.ReqServerStart? || s.ReqServer? || s.ReqServerWithAt?
    || s.ReqPath? || s.ReqQueryStringStart? || s.ReqQueryString? || s.ReqFragmentStart? || s.ReqFragment?
  }

  predicate InRequestLine(s: State) {
    s.ReqMethod? || s.ReqSpacesBeforeUrl? || s.ReqHttpStart? || s.ReqHttpH? || s.ReqHttpHT? || s.ReqHttpHTT?
    || s.ReqHttpHTTP? || s.ReqHttpI? || s.ReqHttpIC? || s.ReqHttpMajor? || s.ReqHttpDot? || s.ReqHttpMinor?
    || s.ReqHttpEnd? || s.ReqLineAlmostDone?
  }

  function ReactMethod(f: Fields, ch: Byte): Reaction {
    var matcher := MethodString(f.msg.verb);
    if ch == 0 then Err(f, InvalidMethod)
    else if ch == SPACE && f.index == |matcher| then Go(f.(index := f.index + 1), ReqSpacesBeforeUrl)
    else if f.index < |matcher| && ch == matcher[f.index] as int then Stay(f.(index := f.index + 1))
    else if 'A' as int <= ch <= 'Z' as int || ch == '-' as int then
      var m := Corrected(f.msg.verb, f.index, ch);
      if m == [] then Err(f, InvalidMethod) else Stay(f.(msg := f.msg.(verb := m[0]), index := f.index + 1))
    else Err(f, InvalidMethod)
  }

  function ReactUrl(f: Fields, ch: Byte): Reaction
    requires InUrl(f.state)
  {
    var s := f.state;
    if s.ReqSchema? || s.ReqSchemaSlash? || s.ReqSchemaSlashSlash? || s.ReqServerStart? then
      if ch == SPACE || ch == CR || ch == LF then Err(f, InvalidUrl)
      else
        var t := ParseUrlChar(s, ch);
        if t.Dead? then Err(f, InvalidUrl) else Reaction(f.(state := t), Extend(UrlK), false, Next)
    else if ch == SPACE then Reaction(f.(state := ReqHttpStart), Close(UrlK), false, Next)
    else if ch == CR || ch == LF then
      Reaction(f.(msg := f.msg.(major := 0, minor := 9), state := if ch == CR then ReqLineAlmostDone else HeaderFieldStart),
               Close(UrlK), false, Next)
    else
      var t := ParseUrlChar(s, ch);
      if t.Dead? then Err(f, InvalidUrl) else Reaction(f.(state := t), Extend(UrlK), false, Next)
  }

  function ReactRequestLine(f: Fields, ch: Byte): Reaction
    requires InRequestLine(f.state)
  {
    match f.state
    case ReqMethod => ReactMethod(f, ch)
    case ReqSpacesBeforeUrl =>
      if ch == SPACE then Stay(f)
      else
        var t := ParseUrlChar(if f.msg.verb == CONNECT then ReqServerStart else ReqSpacesBeforeUrl, ch);
        if t.Dead? then Err(f, InvalidUrl) else Reaction(f.(state := t), Begin(UrlK), false, Next)
    case ReqHttpStart =>
      if ch == SPACE then Stay(f)
      else if ch == 'H' as int then Go(f, ReqHttpH)
      else if ch == 'I' as int && f.msg.verb == SOURCE then Go(f, ReqHttpI)
      else Err(f, InvalidConstant)
    case ReqHttpH => Expect(f, ch == 'T' as int, Strict, ReqHttpHT)
    case ReqHttpHT => Expect(f, ch == 'T' as int, Strict, ReqHttpHTT)
    case ReqHttpHTT => Expect(f, ch == 'P' as int, Strict, ReqHttpHTTP)
    case ReqHttpI => Expect(f, ch == 'C' as int, Strict, ReqHttpIC)
    case ReqHttpIC => Expect(f, ch == 'E' as int, Strict, ReqHttpHTTP)
    case ReqHttpHTTP => Expect(f, ch == '/' as int, Strict, ReqHttpMajor)
    case ReqHttpMajor => if IsNum(ch) then Go(f.(msg := f.msg.(major := Digit(ch))), ReqHttpDot) else Err(f, InvalidVersion)
    case ReqHttpDot => Expect(f, ch == '.' as int, InvalidVersion, ReqHttpMinor)
    case ReqHttpMinor => if IsNum(ch) then Go(f.(msg := f.msg.(minor := Digit(ch))), ReqHttpEnd) else Err(f, InvalidVersion)
    case ReqHttpEnd =>
      if ch == CR then Go(f, ReqLineAlmostDone)
      else if ch == LF then Go(f, HeaderFieldStart)
      else Err(f, InvalidVersion)
    case ReqLineAlmostDone => Expect(f, ch == LF, LfExpected, HeaderFieldStart)
  }

  // ----- headers -----

  /** Matching of the header names that matter. */
  function MatchField(f: Fields, word: string, hs: HeaderState, c: Byte): Fields
    requires |word| > 0
  {
    var g := f.(index := f.index + 1);
    match Matching(word, g.index, c)
    case Miss => g.(hs := General)
    case Partial => g
    case Complete => g.(hs := hs, flags := g.flags.(usesTE := g.flags.usesTE || hs == TransferEncoding))
  }

  function NextField(f: Fields, ch: Byte, c: Byte): Fields {
    var g := f.(index := f.index + 1);
    match f.hs
    case HC => g.(hs := if c == 'o' as int then HCO else General)
    case HCO => g.(hs := if c == 'n' as int then HCON else General)
    case HCON =>
      g.(hs := if c == 'n' as int then MatchingConnection else if c == 't' as int then MatchingContentLength else General)
    case MatchingConnection => MatchField(f, CONNECTION, Connection, c)
    case MatchingProxyConnection => MatchField(f, PROXY_CONNECTION, Connection, c)
    case MatchingContentLength => MatchField(f, CONTENT_LENGTH, ContentLength, c)
    case MatchingTransferEncoding => MatchField(f, TRANSFER_ENCODING, TransferEncoding, c)
    case MatchingUpgrade => MatchField(f, UPGRADE, Upgrade, c)
    case Connection => if ch != SPACE then f.(hs := General) else f
    case ContentLength => if ch != SPACE then f.(hs := General) else f
    case TransferEncoding => if ch != SPACE then f.(hs := General) else f
    case Upgrade => if ch != SPACE then f.(hs := General) else f
    case _ => f
  }

  function ReactHeaderField(f: Fields, ch: Byte): Reaction {
    var c := Token(ch);
    if c != 0 then Reaction(NextField(f, ch, c), Extend(FieldK), false, Next)
    else if ch == ':' as int then Reaction(f.(state := HeaderValueDiscardWs), Close(FieldK), false, Next)
    else Err(f, InvalidHeaderToken)
  }

  function FirstField(c: Byte): HeaderState {
    if c == 'c' as int then HC
    else if c == 'p' as int then MatchingProxyConnection
    else if c == 't' as int then MatchingTransferEncoding
    else if c == 'u' as int then MatchingUpgrade
    else General
  }

  /** Matching of the header values that matter. */
  function MatchValue(f: Fields, word: string, hit: HeaderState, miss: HeaderState, c: Byte): Fields
    requires |word| > 0
  {
    var g := f.(index := f.index + 1);
    match Matching(word, g.index, c)
    case Miss => g.(hs := miss)
    case Partial => g
    case Complete => g.(hs := hit)
  }

  /** The flag of a complete `Connection` token, or of a chunked encoding. */
  function SetFlag(f: Fields): Fields {
    match f.hs
    case ConnKeepAlive => f.(flags := f.flags.(keepAlive := true))
    case ConnClose => f.(flags := f.flags.(close := true))
    case ConnUpgrade => f.(flags := f.flags.(connUpgrade := true))
    case _ => f
  }

  function SetFlags(f: Fields): Fields {
    if f.hs == TeChunked then f.(flags := f.flags.(chunked := true)) else SetFlag(f)
  }

  datatype Valued = Good(f: Fields) | BadLength

  function LengthDigit(f: Fields, ch: Byte): Valued {
    if ch == SPACE then Good(f.(hs := ContentLengthWs))
    else if !IsNum(ch) then BadLength
    else if (ULLONG_MAX - 10) / 10 < f.contentLength then BadLength
    else Good(f.(hs := ContentLengthNum, contentLength := f.contentLength * 10 + Digit(ch)))
  }

  function NextValue(f: Fields, ch: Byte): Valued {
    var c := Lower(ch);
    match f.hs
    case ContentLength => if ch == SPACE then Good(f) else LengthDigit(f, ch)
    case ContentLengthNum => LengthDigit(f, ch)
    case ContentLengthWs => if ch == SPACE then Good(f) else BadLength
    case TeTokenStart =>
      Good(f.(hs := if c == 'c' as int then TeChunkedMatch
                    else if c != SPACE && Token(c) != 0 then TeToken
                    else if c == SPACE || c == TAB then TeTokenStart
                    else General))
    case TeChunkedMatch => Good(MatchValue(f, CHUNKED, TeChunked, TeToken, c))
    case TeToken => Good(if ch == ',' as int then f.(hs := TeTokenStart, index := 0) else f)
    case ConnTokenStart =>
      Good(f.(hs := if c == 'k' as int then ConnKeepAliveMatch
                    else if c == 'c' as int then ConnCloseMatch
                    else if c == 'u' as int then ConnUpgradeMatch
                    else if c != SPACE && Token(c) != 0 then ConnToken
                    else if c == SPACE || c == TAB then ConnTokenStart
                    else General))
    case ConnKeepAliveMatch => Good(MatchValue(f, KEEP_ALIVE, ConnKeepAlive, ConnToken, c))
    case ConnCloseMatch => Good(MatchValue(f, CLOSE, ConnClose, ConnToken, c))
    case ConnUpgradeMatch => Good(MatchValue(f, UPGRADE, ConnUpgrade, ConnToken, c))
    case ConnToken => Good(if ch == ',' as int then f.(hs := ConnTokenStart, index := 0) else f)
    case TeChunked => Good(if ch != SPACE then f.(hs := TeToken) else f)
    case ConnKeepAlive => Good(NextConnection(f, ch))
    case ConnClose => Good(NextConnection(f, ch))
    case ConnUpgrade => Good(NextConnection(f, ch))
    case _ => Good(f.(hs := General))
  }

  function NextConnection(f: Fields, ch: Byte): Fields {
    if ch == ',' as int then SetFlag(f).(hs := ConnTokenStart, index := 0)
    else if ch != SPACE then f.(hs := ConnToken)
    else f
  }

  function ReactHeaderValue(cfg: Config, f: Fields, ch: Byte): Reaction {
    if ch == CR then Reaction(f.(state := HeaderAlmostDone), Close(ValueK), false, Next)
    else if ch == LF then Reaction(f.(state := HeaderAlmostDone), Close(ValueK), false, Again)
    else if !cfg.lenient && !IsHeaderChar(ch) then Err(f, InvalidHeaderToken)
    else match NextValue(f, ch)
      case Good(g) => Reaction(g, Extend(ValueK), false, Next)
      case BadLength => Err(f, InvalidContentLength)
  }

  function ReactValueStart(f: Fields, ch: Byte): Reaction {
    var c := Lower(ch);
    var g := f.(state := HeaderValue, index := 0);
    var act := Begin(ValueK);
    match f.hs
    case Upgrade => Reaction(g.(flags := f.flags.(upgrade := true), hs := General), act, false, Next)
    case TransferEncoding => Reaction(g.(hs := if c == 'c' as int then TeChunkedMatch else TeToken), act, false, Next)
    case TeTokenStart => Reaction(g, act, false, Next)
    case ContentLength =>
      if !IsNum(ch) then Err(f, InvalidContentLength)
      else if f.flags.hasLength then Err(f, UnexpectedContentLength)
      else Reaction(g.(flags := f.flags.(hasLength := true), contentLength := Digit(ch), hs := ContentLengthNum), act, false, Next)
    case ContentLengthWs => Reaction(g, act, false, Next)
    case Connection =>
      Reaction(g.(hs := if c == 'k' as int then ConnKeepAliveMatch
                        else if c == 'c' as int then ConnCloseMatch
                        else if c == 'u' as int then ConnUpgradeMatch
                        else ConnToken), act, false, Next)
    case ConnTokenStart => Reaction(g, act, false, Next)
    case _ => Reaction(g.(hs := General), act, false, Next)
  }

  predicate InHeader(s: State) {
    s.HeaderFieldStart? || s.HeaderField? || s.HeaderValueDiscardWs? || s.HeaderValueDiscardWsAlmostDone?
    || s.HeaderValueDiscardLws? || s.HeaderValueStart? || s.HeaderValue? || s.HeaderValueLws? || s.HeaderAlmostDone?
  }

  function ReactHeader(cfg: Config, f: Fields, ch: Byte): Reaction
    requires InHeader(f.state)
  {
    match f.state
    case HeaderFieldStart =>
      if ch == CR then Go(f, HeadersAlmostDone)
      else if ch == LF then Redo(f, HeadersAlmostDone)
      else if Token(ch) == 0 then Err(f, InvalidHeaderToken)
      else Reaction(f.(state := HeaderField, index := 0, hs := FirstField(Token(ch))), Begin(FieldK), false, Next)
    case HeaderField => ReactHeaderField(f, ch)
    case HeaderValueDiscardWs =>
      if ch == SPACE || ch == TAB then Stay(f)
      else if ch == CR then Go(f, HeaderValueDiscardWsAlmostDone)
      else if ch == LF then Go(f, HeaderValueDiscardLws)
      else ReactValueStart(f, ch)
    case HeaderValueStart => ReactValueStart(f, ch)
    case HeaderValue => ReactHeaderValue(cfg, f, ch)
    case HeaderAlmostDone => Expect(f, ch == LF, LfExpected, HeaderValueLws)
    case HeaderValueLws =>
      if ch == SPACE || ch == TAB then
        Redo(f.(hs := if f.hs == ContentLengthNum then ContentLengthWs else f.hs), HeaderValueStart)
      else Redo(SetFlags(f), HeaderFieldStart)
    case HeaderValueDiscardWsAlmostDone => Expect(f, ch == LF, Strict, HeaderValueDiscardLws)
    case HeaderValueDiscardLws =>
      if ch == SPACE || ch == TAB then Go(f, HeaderValueDiscardWs)
      else if f.hs == ContentLength then Err(f, InvalidContentLength)
      else Reaction(SetFlags(f).(state := HeaderFieldStart), Empty(ValueK), false, Again)
  }

  // ----- the end of the headers, and the body -----

  function ReactHeadersAlmostDone(cfg: Config, f: Fields, ch: Byte): Reaction {
    if ch != LF then Err(f, Strict)
    else if f.flags.trailing then Reaction(f.(state := MessageDone), Tell(ChunkComplete), false, Again)
    else if f.flags.usesTE && f.flags.hasLength && (if f.flags.chunked then !cfg.allowChunkedLength else !cfg.lenient) then
      Err(f, UnexpectedContentLength)
    else
      var g := f.(state := HeadersDone, msg := f.msg.(upgrade :=
                  if f.flags.upgrade && f.flags.connUpgrade then f.msg.kind == Request || f.msg.status == 101
                  else f.msg.verb == CONNECT));
      var a := cfg.answer(g);
      if a == 0 then Reaction(g, Tell(HeadersComplete), false, Again)
      else if a == 1 then Reaction(g.(flags := g.flags.(skipBody := true)), Tell(HeadersComplete), false, Again)
      else if a == 2 then Reaction(g.(flags := g.flags.(skipBody := true), msg := g.msg.(upgrade := true)), Tell(HeadersComplete), false, Again)
      else Err(f, CbHeadersComplete)
  }

  function Finished(f: Fields, v: Verdict): Reaction {
    Reaction(f.(state := NewMessage(f)), Tell(MessageComplete), true, v)
  }

  function ReactHeadersDone(cfg: Config, f: Fields, ch: Byte): Reaction {
    var hasBody := f.flags.chunked || (f.contentLength > 0 && f.contentLength != ULLONG_MAX);
    if ch != LF then Err(f, Strict)
    else if f.msg.upgrade && (f.msg.verb == CONNECT || f.flags.skipBody || !hasBody) then Finished(f, Leave)
    else if f.flags.skipBody then Finished(f, Next)
    else if f.flags.chunked then Reaction(f.(state := ChunkSizeStart), Nothing, true, Next)
    else if f.flags.usesTE then
      if f.msg.kind == Request && !cfg.lenient then Err(f, InvalidTransferEncoding)
      else Reaction(f.(state := BodyIdentityEof), Nothing, true, Next)
    else if f.contentLength == 0 then Finished(f, Next)
    else if f.contentLength != ULLONG_MAX then Reaction(f.(state := BodyIdentity), Nothing, true, Next)
    else if !NeedsEof(f) then Finished(f, Next)
    else Reaction(f.(state := BodyIdentityEof), Nothing, true, Next)
  }

  predicate InBody(s: State) {
    s.ChunkSizeStart? || s.ChunkSize? || s.ChunkParameters? || s.ChunkSizeAlmostDone?
    || s.ChunkData? || s.ChunkDataAlmostDone? || s.ChunkDataDone? || s.BodyIdentity? || s.BodyIdentityEof? || s.MessageDone?
  }

  function ReactBody(f: Fields, ch: Byte): Reaction
    requires InBody(f.state)
  {
    match f.state
    case BodyIdentity =>
      var left := if f.contentLength > 0 then f.contentLength - 1 else 0;
      if left == 0 then Reaction(f.(contentLength := 0, state := MessageDone), Last(BodyK), false, Again)
      else Reaction(f.(contentLength := left), Begin(BodyK), false, Next)
    case BodyIdentityEof => Reaction(f, Begin(BodyK), false, Next)
    case MessageDone => Reaction(f.(state := NewMessage(f)), Tell(MessageComplete), false, if f.msg.upgrade then Leave else Next)
    case ChunkSizeStart =>
      if Unhex(ch) == -1 then Err(f, InvalidChunkSize) else Go(f.(contentLength := Unhex(ch)), ChunkSize)
    case ChunkSize =>
      if ch == CR then Go(f, ChunkSizeAlmostDone)
      else if Unhex(ch) == -1 then
        if ch == ';' as int || ch == SPACE then Go(f, ChunkParameters) else Err(f, InvalidChunkSize)
      else if (ULLONG_MAX - 16) / 16 < f.contentLength then Err(f, InvalidContentLength)
      else Stay(f.(contentLength := f.contentLength * 16 + Unhex(ch)))
    case ChunkParameters => if ch == CR then Go(f, ChunkSizeAlmostDone) else Stay(f)
    case ChunkSizeAlmostDone =>
      if ch != LF then Err(f, Strict)
      else if f.contentLength == 0 then
        Reaction(f.(flags := f.flags.(trailing := true), state := HeaderFieldStart), Tell(ChunkHeader), true, Next)
      else Reaction(f.(state := ChunkData), Tell(ChunkHeader), true, Next)
    case ChunkData =>
      var left := if f.contentLength > 0 then f.contentLength - 1 else 0;
      Reaction(f.(contentLength := left, state := if left == 0 then ChunkDataAlmostDone else ChunkData),
               Begin(BodyK), false, Next)
    case ChunkDataAlmostDone =>
      if ch != CR then Err(f, Strict) else Reaction(f.(state := ChunkDataDone), Close(BodyK), false, Next)
    case ChunkDataDone =>
      if ch != LF then Err(f, Strict) else Reaction(f.(state := ChunkSizeStart), Tell(ChunkComplete), true, Next)
  }

  predicate InStart(s: State) {
    s.Dead? || s.StartReqOrRes? || s.ResOrRespH? || s.StartRes? || s.StartReq?
  }

  /** The reaction to a byte in any state. */
  function React(cfg: Config, f: Fields, ch: Byte): Reaction {
    if InStart(f.state) then ReactStart(f, ch)
    else if InStatusLine(f.state) then ReactStatusLine(f, ch)
    else if InUrl(f.state) then ReactUrl(f, ch)
    else if InRequestLine(f.state) then ReactRequestLine(f, ch)
    else if InHeader(f.state) then ReactHeader(cfg, f, ch)
    else if InBody(f.state) then ReactBody(f, ch)
    else if f.state.HeadersAlmostDone? then ReactHeadersAlmostDone(cfg, f, ch)
    else ReactHeadersDone(cfg, f, ch)
  }

  /** How often a byte can still be looked at again. */
  function Rank(s: State): nat {
    match s
    case HeaderValueLws => 3
    case HeaderValueDiscardLws => 3
    case HeaderFieldStart => 2
    case ResStatusCode => 2
    case HeadersAlmostDone => 1
    case HeaderValue => 1
    case StartReqOrRes => 1
    case ResStatusStart => 1
    case BodyIdentity => 1
    case _ => 0
  }

  lemma AgainRanks(cfg: Config, f: Fields, ch: Byte)
    ensures React(cfg, f, ch).v.Again? ==> Rank(React(cfg, f, ch).f.state) < Rank(f.state)
  {
    hide ReactStart, ReactStatusLine, ReactUrl, ReactRequestLine, ReactHeader, ReactBody, ReactHeadersAlmostDone, ReactHeadersDone;
    if InStart(f.state) {
      StartRanks(f, ch);
    } else if InStatusLine(f.state) {
      StatusLineRanks(f, ch);
    } else if InUrl(f.state) || InRequestLine(f.state) {
      RequestLineOnce(f, ch);
    } else if InHeader(f.state) {
      HeaderRanks(cfg, f, ch);
    } else if InBody(f.state) {
      BodyRanks(f, ch);
    } else {
      HeadersEndRanks(cfg, f, ch);
    }
  }

  lemma StartRanks(f: Fields, ch: Byte)
    requires InStart(f.state)
    ensures ReactStart(f, ch).v.Again? ==> Rank(ReactStart(f, ch).f.state) < Rank(f.state)
  {
    hide FirstGuess;
  }

  lemma StatusLineRanks(f: Fields, ch: Byte)
    requires InStatusLine(f.state)
    ensures ReactStatusLine(f, ch).v.Again? ==> Rank(ReactStatusLine(f, ch).f.state) < Rank(f.state)
  {
    var s := f.state;
    if s.ResStatusCode? {
    } else if s.ResStatusStart? {
    } else {
      assert !ReactStatusLine(f, ch).v.Again?;
    }
  }

  lemma RequestLineOnce(f: Fields, ch: Byte)
    ensures InUrl(f.state) ==> !ReactUrl(f, ch).v.Again?
    ensures InRequestLine(f.state) ==> !ReactRequestLine(f, ch).v.Again?
  {
    hide ParseUrlChar, Corrected, MethodString;
  }

  lemma HeaderRanks(cfg: Config, f: Fields, ch: Byte)
    requires InHeader(f.state)
    ensures ReactHeader(cfg, f, ch).v.Again? ==> Rank(ReactHeader(cfg, f, ch).f.state) < Rank(f.state)
  {
    hide ReactHeader;
    HeaderRedo(cfg, f, ch);
  }

  /** The states of the headers in which a byte is looked at again, and where. */
  lemma HeaderRedo(cfg: Config, f: Fields, ch: Byte)
    requires InHeader(f.state)
    ensures var s, r := f.state, ReactHeader(cfg, f, ch);
            r.v.Again? ==>
              || (s.HeaderFieldStart? && r.f.state.HeadersAlmostDone?)
              || (s.HeaderValue? && r.f.state.HeaderAlmostDone?)
              || (s.HeaderValueLws? && (r.f.state.HeaderValueStart? || r.f.state.HeaderFieldStart?))
              || (s.HeaderValueDiscardLws? && r.f.state.HeaderFieldStart?)
  {
    hide NextField, NextValue, Token, IsHeaderChar, IsNum, Lower, SetFlags, ReactValueStart, FirstField;
    ValueStartOnce(f, ch);
    if f.state.HeaderValue? {
      assert ReactHeader(cfg, f, ch) == ReactHeaderValue(cfg, f, ch);
    } else {
      hide ReactHeaderValue;
    }
  }

  lemma ValueStartOnce(f: Fields, ch: Byte)
    ensures !ReactValueStart(f, ch).v.Again?
  {
  }

  lemma BodyRanks(f: Fields, ch: Byte)
    requires InBody(f.state)
    ensures ReactBody(f, ch).v.Again? ==> Rank(ReactBody(f, ch).f.state) < Rank(f.state)
  {
    hide NewMessage, Unhex;
    if !f.state.BodyIdentity? {
      assert !ReactBody(f, ch).v.Again?;
    }
  }

  lemma HeadersEndRanks(cfg: Config, f: Fields, ch: Byte)
    ensures f.state.HeadersAlmostDone? ==>
              var r := ReactHeadersAlmostDone(cfg, f, ch); r.v.Again? ==> Rank(r.f.state) < Rank(f.state)
    ensures !ReactHeadersDone(cfg, f, ch).v.Again?
  {
    hide NewMessage, NeedsEof;
    HeadersEndRedo(cfg, f, ch);
    hide ReactHeadersAlmostDone;
  }

  lemma HeadersEndRedo(cfg: Config, f: Fields, ch: Byte)
    ensures var r := ReactHeadersAlmostDone(cfg, f, ch); r.v.Again? ==> r.f.state.MessageDone? || r.f.state.HeadersDone?
  {
  }

  /** Within a URL a byte leads to a state of the URL or nowhere. */
  lemma UrlStates(s: State, b: Byte)
    ensures InUrl(ParseUrlChar(s, b)) || ParseUrlChar(s, b).Dead?
  {
    hide IsAlpha, IsUrlChar, IsUserinfoChar;
  }

  lemma NewMessageState(f: Fields)
    ensures NewMessage(f).Dead? || NewMessage(f).StartReq? || NewMessage(f).StartRes?
  {
    hide ShouldKeepAlive;
  }
}
