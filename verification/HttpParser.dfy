/**
 The streaming HTTP parser: buffers are worked off in place, with marks where data
 fields start and whole runs of bytes handled at once.
 */
module HttpParser {
  import opened HttpChars
  import opened HttpMachine
  import opened HttpStream
  import opened HttpRun
  import opened HttpFacts
  import opened HttpChunks

  const TWO32: nat := 0x1_0000_0000

  /** How the handling of a byte ends. */
  datatype Flow = Advance | Reexecute | Error | Return

  /** A buffer of `n` bytes cannot make the count of a header wrap around. */
  predicate Fits(cfg: Config, n: nat) {
    cfg.maxHeaderSize + n <= TWO32 && cfg.maxHeaderSize + 1 < TWO32
  }

  /** The 32-bit count after `n` more bytes. */
  function After(count: nat, n: nat): nat {
    (count + n) % TWO32
  }

  /** `n` bytes more are accepted by the 32-bit counter: one is checked at first, all of
      them are checked together. */
  predicate WithinLimit(cfg: Config, count: nat, n: nat) {
    After(count, 1) <= cfg.maxHeaderSize && After(count, n) <= cfg.maxHeaderSize
  }

  lemma WrapsOnce(count: nat, n: nat)
    requires n > 0
    ensures After(After(count, 1), n - 1) == After(count, n)
  {
    var q := (count + 1) / TWO32;
    assert (count + 1) % TWO32 + (n - 1) == (count + n) - q * TWO32;
  }

  /** Nothing but characters of a header name from `p` on. */
  predicate NameOnly(data: seq<Byte>, p: nat) {
    forall i :: p <= i < |data| ==> Token(data[i]) != 0
  }

  /** Nothing but bytes of a header value from `p` on. */
  predicate ValueOnly(cfg: Config, data: seq<Byte>, p: nat) {
    forall i :: p <= i < |data| ==> ValueByte(cfg, data[i])
  }

  /** Nothing from `p` on ends the header value or is rejected in it. */
  predicate ValuesFrom(cfg: Config, f: Fields, data: seq<Byte>, p: nat)
    decreases |data| - p
  {
    p < |data| ==>
      && ValueByte(cfg, data[p]) && NextValue(f, data[p]).Good?
      && ValuesFrom(cfg, NextValue(f, data[p]).f, data, p + 1)
  }

  /** The fields after the bytes of a header value from `p` on. */
  function ValueAfter(f: Fields, data: seq<Byte>, p: nat): Fields
    decreases |data| - p
  {
    if p < |data| && NextValue(f, data[p]).Good? then ValueAfter(NextValue(f, data[p]).f, data, p + 1) else f
  }

  /** All bytes from `p` on belong to one header name, or to one header value. */
  predicate InOneRun(cfg: Config, f: Fields, data: seq<Byte>, p: nat) {
    (f.state.HeaderField? && NameOnly(data, p)) || (f.state.HeaderValue? && ValuesFrom(cfg, f, data, p))
  }

  lemma RunInHeader(cfg: Config, f: Fields, data: seq<Byte>, p: nat)
    requires InOneRun(cfg, f, data, p)
    ensures ParsingHeader(f.state)
  {
    HeaderStates();
  }

  /** The fields `g` after such bytes. */
  predicate Ran(f: Fields, data: seq<Byte>, p: nat, g: Fields) {
    g.state == f.state && (f.state.HeaderValue? ==> g == ValueAfter(f, data, p))
  }

  /** Where a value does not matter, all its bytes are alike. */
  lemma {:induction false} GeneralRun(cfg: Config, f: Fields, data: seq<Byte>, p: nat, q: nat)
    requires f.hs.General? && ValuesFrom(cfg, f, data, p) && p <= q <= |data|
    ensures ValuesFrom(cfg, f, data, q) && ValueAfter(f, data, q) == ValueAfter(f, data, p)
    ensures forall i :: p <= i < q ==> ValueByte(cfg, data[i])
    decreases |data| - p
  {
    hide ValueByte;
    if p < q {
      GeneralStays(f, data[p]);
      GeneralRun(cfg, f, data, p + 1, q);
    }
  }

  lemma GeneralStays(f: Fields, b: Byte)
    requires f.hs.General?
    ensures NextValue(f, b) == Good(f)
  {
  }

  /** A run goes on in its second part where its first part ends. */
  lemma RunSplit(cfg: Config, f: Fields, xs: seq<Byte>, ys: seq<Byte>, g: Fields)
    requires InOneRun(cfg, f, xs + ys, 0)
    ensures InOneRun(cfg, f, xs, 0) && (Ran(f, xs, 0, g) ==> InOneRun(cfg, g, ys, 0))
  {
    hide ValueByte, NextValue, Token;
    if f.state.HeaderValue? {
      ValuesSplit(cfg, f, xs, ys, 0);
      if Ran(f, xs, 0, g) {
        ValuesShift(cfg, g, xs, ys, 0);
      }
    } else {
      NamesSplit(xs, ys);
    }
  }

  lemma NamesSplit(xs: seq<Byte>, ys: seq<Byte>)
    requires NameOnly(xs + ys, 0)
    ensures NameOnly(xs, 0) && NameOnly(ys, 0)
  {
    hide Token;
    var all := xs + ys;
    forall i | 0 <= i < |xs| ensures Token(xs[i]) != 0 {
      assert xs[i] == all[i];
    }
    forall i | 0 <= i < |ys| ensures Token(ys[i]) != 0 {
      assert ys[i] == all[|xs| + i];
    }
  }

  lemma {:induction false} ValuesSplit(cfg: Config, f: Fields, xs: seq<Byte>, ys: seq<Byte>, p: nat)
    requires p <= |xs| && ValuesFrom(cfg, f, xs + ys, p)
    ensures ValuesFrom(cfg, f, xs, p) && ValuesFrom(cfg, ValueAfter(f, xs, p), xs + ys, |xs|)
    decreases |xs| - p
  {
    hide ValueByte, NextValue;
    if p < |xs| {
      assert xs[p] == (xs + ys)[p];
      ValuesSplit(cfg, NextValue(f, xs[p]).f, xs, ys, p + 1);
    }
  }

  lemma {:induction false} ValuesShift(cfg: Config, f: Fields, xs: seq<Byte>, ys: seq<Byte>, p: nat)
    requires p <= |ys| && ValuesFrom(cfg, f, xs + ys, |xs| + p)
    ensures ValuesFrom(cfg, f, ys, p)
    decreases |ys| - p
  {
    hide ValueByte, NextValue;
    if p < |ys| {
      assert ys[p] == (xs + ys)[|xs| + p];
      ValuesShift(cfg, NextValue(f, ys[p]).f, xs, ys, p + 1);
    }
  }

  class Parser {
    const cfg: Config
    var f: Fields
    var nread: nat
    var errno: Errno
    var log: seq<Event>     // the callbacks made, in order

    ghost predicate Valid()
      reads this
    {
      && cfg.maxHeaderSize < TWO32
      && (errno.NoError? ==> FieldsOk(f))
      && (errno.NoError? ==> nread <= cfg.maxHeaderSize)
      && (errno.NoError? && f.state.ChunkSizeStart? ==> nread == 0)
      && (errno.NoError? ==> Resumable(f.state, Join(log)))
    }

    constructor (cfg: Config, kind: MessageType)
      requires cfg.maxHeaderSize < TWO32
      ensures Valid() && errno.NoError? && this.cfg == cfg && log == [] && nread == 0
      ensures f.state == (match kind case Request => StartReq case Response => StartRes case Both => StartReqOrRes)
    {
      this.cfg := cfg;
      f := Fields(match kind case Request => StartReq case Response => StartRes case Both => StartReqOrRes,
                  General, 0, 0, Message(kind, 0, 0, 0, DELETE, false), NOFLAGS);
      nread := 0;
      errno := NoError;
      log := [];
    }

    /** A copy of a parser, as an assignment of the structure makes it. */
    constructor Copy(p: Parser)
      requires p.Valid()
      ensures Valid() && cfg == p.cfg && f == p.f && nread == p.nread && errno == p.errno && log == p.log
    {
      cfg, f, nread, errno, log := p.cfg, p.f, p.nread, p.errno, p.log;
    }

    /** Counts header bytes; the counter has 32 bits. */
    method CountHeaderSize(n: nat) returns (ok: bool)
      modifies this`nread, this`errno
      ensures nread == (old(nread) + n % TWO32) % TWO32 && nread == After(old(nread), n)
      ensures ok <==> nread <= cfg.maxHeaderSize
      ensures if ok then errno == old(errno) else errno == HeaderOverflow
    {
      nread := (nread + n % TWO32) % TWO32;
      ok := nread <= cfg.maxHeaderSize;
      if !ok {
        errno := HeaderOverflow;
      }
    }

    /** The callback for an open field, if there is one. */
    method CallbackData(marks: Marks, k: Kind, data: seq<Byte>, e: nat) returns (marks': Marks)
      modifies this`log
      ensures log == Flush(old(log), marks, k, data, e) && marks' == Put(marks, k, -1)
    {
      marks' := marks;
      if Get(marks, k) >= 0 {
        log := log + [Data(k, Slice(data, Get(marks, k), e))];
      }
      marks' := Put(marks, k, -1);
    }

    /** States that handle one byte at a time. */
    method HandleByte(data: seq<Byte>, p: nat, marks: Marks, ghost goal: Outcome, ghost small: bool) returns (marks': Marks, flow: Flow)
      requires p < |data| && FieldsOk(f) && MarksOk(f.state, marks, p) && errno.NoError?
      requires small ==> On(cfg, goal, Abs(f, nread, log, marks, data, p), data, p)
      modifies this`f, this`nread, this`log, this`errno
      ensures flow.Error? <==> !errno.NoError?
      ensures nread <= old(nread)
      ensures flow.Error? && small ==> goal == Failed
      ensures !flow.Error? ==> FieldsOk(f) && (f.state.ChunkSizeStart? ==> nread == 0)
      ensures flow.Advance? ==> MarksOk(f.state, marks', p + 1)
      ensures flow.Advance? && small ==> At(cfg, goal, Abs(f, nread, log, marks', data, p + 1), data, p + 1)
      ensures flow.Reexecute? ==> MarksOk(f.state, marks', p) && Rank(f.state) < Rank(old(f.state)) && nread == old(nread)
      ensures flow.Reexecute? && ParsingHeader(f.state) ==> ParsingHeader(old(f.state))
      ensures flow.Reexecute? && small ==> On(cfg, goal, Abs(f, nread, log, marks', data, p), data, p)
      ensures flow.Return? ==> Open(f.state) == []
      ensures flow.Return? && small ==> goal == Left(Progress(f, nread, Join(log)), |data| - p - 1)
    {
      hide React, On, At, Abs, FieldsOk, Rank, Reported, Marked, Open, ParsingHeader;
      var r := React(cfg, f, data[p]);
      if small {
        Single(cfg, goal, f, nread, log, marks, data, p);
      }
      AgainRanks(cfg, f, data[p]);
      AgainFacts(cfg, f, data[p]);
      marks' := marks;
      if r.v.Fail? {
        errno := r.v.e;
        FailsWithError(cfg, f, data[p]);
        return marks, Error;
      }
      ReactFields(cfg, f, data[p]);
      HandledMarks(cfg, f, data[p], marks, log, data, p);
      ChunkStartsAnew(cfg, f, data[p]);
      log := Reported(log, marks, r.act, data, p);
      marks' := Marked(marks, r.act, p);
      f := r.f;
      if r.anew {
        nread := 0;
      }
      flow := if r.v.Next? then Advance else if r.v.Again? then Reexecute else Return;
    }

    /** The characters of a header name: matched one by one while the name may matter,
        and skipped in one go when it does not. */
    method MatchName(data: seq<Byte>, start: nat, marks: Marks, ghost goal: Outcome, ghost small: bool) returns (p: nat)
      requires start < |data| && f.state.HeaderField? && FieldsOk(f) && MarksOk(HeaderField, marks, start)
      requires small ==> InRun(cfg, goal, f, nread, start, log, marks, data, start)
      modifies this`f
      ensures start <= p <= |data| && f.state.HeaderField? && FieldsOk(f) && MarksOk(HeaderField, marks, p)
      ensures p < |data| ==> Token(data[p]) == 0
      ensures small ==> InRun(cfg, goal, f, nread, start, log, marks, data, p)
    {
      hide React, FieldsOk, Open, InRun, MarksOk, NextField, Token;
      p := start;
      while p < |data|
        invariant start <= p <= |data| && f.state.HeaderField? && FieldsOk(f) && MarksOk(HeaderField, marks, p)
        invariant small ==> InRun(cfg, goal, f, nread, start, log, marks, data, p)
      {
        var ch := data[p];
        var c := Token(ch);
        if c == 0 {
          break;
        }
        if small {
          NameStep(cfg, goal, f, nread, start, log, marks, data, p);
        }
        NameKeeps(cfg, f, ch, marks, p);
        if f.hs.General? {
          var left := |data| - p;
          var pe := p + if left < cfg.maxHeaderSize then left else cfg.maxHeaderSize;
          p := SkipName(data, start, p, pe, marks, goal, small);
        } else {
          f := NextField(f, ch, c);
        }
        p := p + 1;
      }
    }

    /** Skips characters of a name that does not matter, up to `pe`. */
    method SkipName(data: seq<Byte>, start: nat, p0: nat, pe: nat, marks: Marks, ghost goal: Outcome, ghost small: bool) returns (p: nat)
      requires start <= p0 < |data| && pe <= |data| && f.state.HeaderField? && f.hs.General? && MarksOk(HeaderField, marks, p0 + 1)
      requires small ==> InRun(cfg, goal, f, nread, start, log, marks, data, p0 + 1)
      ensures p0 <= p < |data| && MarksOk(HeaderField, marks, p + 1)
      ensures small ==> InRun(cfg, goal, f, nread, start, log, marks, data, p + 1)
    {
      hide React, Open, InRun, MarksOk, NextField, Token;
      p := p0;
      while p + 1 < pe && Token(data[p + 1]) != 0
        invariant p0 <= p < |data| && MarksOk(HeaderField, marks, p + 1)
        invariant small ==> InRun(cfg, goal, f, nread, start, log, marks, data, p + 1)
      {
        if small {
          NameStep(cfg, goal, f, nread, start, log, marks, data, p + 1);
        }
        MarksLater(HeaderField, marks, p + 1);
        p := p + 1;
      }
    }

    /** A run of header bytes ends at `p`: they are counted. */
    method EndRun(data: seq<Byte>, start: nat, p: nat, marks: Marks, ghost goal: Outcome, ghost small: bool) returns (ok: bool)
      requires start <= p <= |data| && start < |data| && errno.NoError?
      requires small ==> nread + |data| <= TWO32 && InRun(cfg, goal, f, nread, start, log, marks, data, p)
      modifies this`nread, this`errno
      ensures if ok then errno.NoError? && nread <= cfg.maxHeaderSize else !errno.NoError?
      ensures p == |data| ==> nread == After(old(nread), p - 1 - start) && (ok <==> nread <= cfg.maxHeaderSize)
      ensures small && !ok ==> goal == Failed
      ensures small && ok && p < |data| ==> On(cfg, goal, Abs(f, nread, log, marks, data, p), data, p)
      ensures small && ok && p == |data| ==> At(cfg, goal, Abs(f, nread, log, marks, data, p), data, p)
    {
      hide InRun, On, At, Abs, After;
      ok := CountHeaderSize(if p == |data| then p - 1 - start else p - start);
      if small {
        if p == |data| {
          RunEnd(cfg, goal, f, old(nread), start, log, marks, data, nread);
        } else {
          RunStop(cfg, goal, f, old(nread), start, log, marks, data, p, nread);
        }
      }
    }

    /** A header name, as far as it is in the buffer. */
    method RunHeaderField(data: seq<Byte>, start: nat, marks: Marks, ghost goal: Outcome, ghost small: bool)
      returns (p: nat, marks': Marks, flow: Flow)
      requires start < |data| && f.state.HeaderField? && FieldsOk(f) && MarksOk(HeaderField, marks, start) && errno.NoError?
      requires small ==> nread <= cfg.maxHeaderSize && nread + |data| <= TWO32
      requires small ==> On(cfg, goal, Abs(f, nread, log, marks, data, start), data, start)
      modifies this`f, this`nread, this`log, this`errno
      ensures flow.Advance? || flow.Error?
      ensures flow.Error? <==> !errno.NoError?
      ensures flow.Error? && small ==> goal == Failed
      ensures flow.Advance? ==> start <= p < |data| && FieldsOk(f) && MarksOk(f.state, marks', p + 1) && nread <= cfg.maxHeaderSize
      ensures flow.Advance? ==> !f.state.ChunkSizeStart?
      ensures flow.Advance? && small ==> At(cfg, goal, Abs(f, nread, log, marks', data, p + 1), data, p + 1)
      ensures NameOnly(data, start) ==>
                && (flow.Advance? <==> After(old(nread), |data| - 1 - start) <= cfg.maxHeaderSize)
                && (flow.Advance? ==> p == |data| - 1 && f.state.HeaderField? && nread == After(old(nread), |data| - 1 - start))
    {
      hide React, On, At, Abs, FieldsOk, Open, InRun, MarksOk, NextField, Token, Reported, Marked;
      marks' := marks;
      if small {
        RunFirst(cfg, goal, f, nread, start, log, marks, data);
      }
      p := MatchName(data, start, marks, goal, small);
      var ok := EndRun(data, start, p, marks, goal, small);
      if !ok {
        return p, marks, Error;
      }
      if p == |data| {
        return p - 1, marks, Advance;
      }
      p, marks', flow := EndName(data, p, marks, goal, small);
    }

    /** The byte after a header name. */
    method EndName(data: seq<Byte>, p0: nat, marks: Marks, ghost goal: Outcome, ghost small: bool)
      returns (p: nat, marks': Marks, flow: Flow)
      requires p0 < |data| && f.state.HeaderField? && FieldsOk(f) && MarksOk(HeaderField, marks, p0) && errno.NoError?
      requires Token(data[p0]) == 0
      requires small ==> On(cfg, goal, Abs(f, nread, log, marks, data, p0), data, p0)
      modifies this`f, this`log, this`errno
      ensures p == p0 && (flow.Advance? || flow.Error?)
      ensures flow.Error? <==> !errno.NoError?
      ensures flow.Error? && small ==> goal == Failed
      ensures flow.Advance? ==> FieldsOk(f) && MarksOk(f.state, marks', p + 1) && !f.state.ChunkSizeStart?
      ensures flow.Advance? && small ==> At(cfg, goal, Abs(f, nread, log, marks', data, p + 1), data, p + 1)
    {
      hide React, On, At, Abs, FieldsOk, Open, MarksOk, Token;
      p := p0;
      if small {
        Single(cfg, goal, f, nread, log, marks, data, p);
      }
      if data[p] == ':' as int {
        NameDone(cfg, f, data[p], marks, log, data, p);
        f := f.(state := HeaderValueDiscardWs);
        marks' := CallbackData(marks, FieldK, data, p);
        flow := Advance;
      } else {
        NameBad(cfg, f, data[p]);
        errno := InvalidHeaderToken;
        marks', flow := marks, Error;
      }
    }

    /** Skips bytes of a value that does not matter, up to `pe`; ends at the last byte that
        needs no more attention. */
    method SkipValue(data: seq<Byte>, start: nat, p0: nat, pe: nat, marks: Marks, ghost goal: Outcome, ghost small: bool)
      returns (p: nat, ok: bool)
      requires start <= p0 < |data| && pe <= |data| && p0 <= pe && f.state.HeaderValue? && f.hs.General? && MarksOk(HeaderValue, marks, p0)
      requires ValueByte(cfg, data[p0]) && (pe < |data| ==> pe - p0 == cfg.maxHeaderSize)
      requires small ==> nread >= 1 && InRun(cfg, goal, f, nread, start, log, marks, data, p0)
      modifies this`errno
      ensures ok ==> errno == old(errno) && p0 <= p < |data| && MarksOk(HeaderValue, marks, p + 1)
      ensures ok && small ==> InRun(cfg, goal, f, nread, start, log, marks, data, p + 1)
      ensures !ok ==> !errno.NoError? && (small ==> goal == Failed)
      ensures ValueOnly(cfg, data, p0) ==> ok
    {
      hide React, Open, InRun, MarksOk, NextValue, IsHeaderChar;
      p := p0;
      var ch := data[p];
      while p != pe
        invariant p0 <= p <= pe && errno == old(errno) && MarksOk(HeaderValue, marks, p)
        invariant small ==> InRun(cfg, goal, f, nread, start, log, marks, data, p)
      {
        ch := data[p];
        if ch == CR || ch == LF {
          p := p - 1;
          return p, true;
        }
        if !cfg.lenient && !IsHeaderChar(ch) {
          errno := InvalidHeaderToken;
          ValueBad(cfg, f, ch);
          if small {
            RunFails(cfg, goal, f, nread, start, log, marks, data, p);
          }
          return p, false;
        }
        ValueReact(cfg, f, ch);
        if small {
          ValueStep(cfg, goal, f, nread, start, log, marks, data, p);
        }
        MarksLater(HeaderValue, marks, p);
        p := p + 1;
      }
      if p == |data| {
        return p - 1, true;
      }
      // the byte at `pe` is skipped without a look: the limit is exceeded anyway
      if small {
        RunOver(cfg, goal, f, nread, start, log, marks, data, p, f, log, marks);
      }
      MarksLater(HeaderValue, marks, p);
      return p, true;
    }

    /** The bytes of a header value up to its end or the end of the buffer. */
    method MatchValues(data: seq<Byte>, start: nat, marks: Marks, ghost goal: Outcome, ghost small: bool) returns (p: nat, ok: bool)
      requires start < |data| && f.state.HeaderValue? && FieldsOk(f) && MarksOk(HeaderValue, marks, start) && errno.NoError?
      requires small ==> nread >= 1 && InRun(cfg, goal, f, nread, start, log, marks, data, start)
      modifies this`f, this`errno
      ensures !ok ==> !errno.NoError? && (small ==> goal == Failed)
      ensures ok ==> errno.NoError? && start <= p <= |data| && f.state.HeaderValue? && FieldsOk(f) && MarksOk(HeaderValue, marks, p)
      ensures ok && p < |data| ==> data[p] == CR || data[p] == LF
      ensures ok && small ==> InRun(cfg, goal, f, nread, start, log, marks, data, p)
      ensures ValuesFrom(cfg, old(f), data, start) ==> ok && p == |data| && f == ValueAfter(old(f), data, start)
    {
      hide React, FieldsOk, Open, InRun, MarksOk, NextValue, IsHeaderChar;
      p := start;
      while p < |data|
        invariant start <= p <= |data| && f.state.HeaderValue? && FieldsOk(f) && MarksOk(HeaderValue, marks, p) && errno.NoError?
        invariant small ==> InRun(cfg, goal, f, nread, start, log, marks, data, p)
        invariant ValuesFrom(cfg, old(f), data, start) ==>
                    ValuesFrom(cfg, f, data, p) && ValueAfter(f, data, p) == ValueAfter(old(f), data, start)
      {
        var ch := data[p];
        if ch == CR || ch == LF {
          return p, true;
        }
        if !cfg.lenient && !IsHeaderChar(ch) {
          errno := InvalidHeaderToken;
          ValueBad(cfg, f, ch);
          if small {
            RunFails(cfg, goal, f, nread, start, log, marks, data, p);
          }
          return p, false;
        }
        ValueReact(cfg, f, ch);
        if f.hs.General? {
          var left := |data| - p;
          var pe := p + if left < cfg.maxHeaderSize then left else cfg.maxHeaderSize;
          ghost var from := p;
          if ValuesFrom(cfg, f, data, from) {
            GeneralRun(cfg, f, data, from, |data|);
          }
          p, ok := SkipValue(data, start, p, pe, marks, goal, small);
          if !ok {
            return p, false;
          }
          if ValuesFrom(cfg, f, data, from) {
            GeneralRun(cfg, f, data, from, p + 1);
          }
        } else {
          var next := NextValue(f, ch);
          if next.BadLength? {
            errno := InvalidContentLength;
            if small {
              RunFails(cfg, goal, f, nread, start, log, marks, data, p);
            }
            return p, false;
          }
          if small {
            ValueStep(cfg, goal, f, nread, start, log, marks, data, p);
          }
          ValueKeeps(cfg, f, ch, marks, p);
          f := next.f;
        }
        p := p + 1;
      }
      return p, true;
    }

    /** A header value, as far as it is in the buffer. */
    method RunHeaderValue(data: seq<Byte>, start: nat, marks: Marks, ghost goal: Outcome, ghost small: bool)
      returns (p: nat, marks': Marks, flow: Flow)
      requires start < |data| && f.state.HeaderValue? && FieldsOk(f) && MarksOk(HeaderValue, marks, start) && errno.NoError?
      requires small ==> 1 <= nread <= cfg.maxHeaderSize && nread + |data| <= TWO32
      requires small ==> On(cfg, goal, Abs(f, nread, log, marks, data, start), data, start)
      modifies this`f, this`nread, this`log, this`errno
      ensures flow.Error? <==> !errno.NoError?
      ensures !flow.Return?
      ensures flow.Error? && small ==> goal == Failed
      ensures !flow.Error? ==> start <= p < |data| && FieldsOk(f) && nread <= cfg.maxHeaderSize && !f.state.ChunkSizeStart?
      ensures flow.Advance? ==> MarksOk(f.state, marks', p + 1)
      ensures flow.Advance? && small ==> At(cfg, goal, Abs(f, nread, log, marks', data, p + 1), data, p + 1)
      ensures flow.Reexecute? ==> f.state.HeaderAlmostDone? && MarksOk(f.state, marks', p)
      ensures flow.Reexecute? && small ==> nread >= 1
      ensures flow.Reexecute? && small ==> On(cfg, goal, Abs(f, nread, log, marks', data, p), data, p)
      ensures ValuesFrom(cfg, old(f), data, start) ==>
                && (flow.Advance? <==> After(old(nread), |data| - 1 - start) <= cfg.maxHeaderSize)
                && (flow.Error? <==> !flow.Advance?)
                && (flow.Advance? ==> p == |data| - 1 && f.state.HeaderValue? && f == ValueAfter(old(f), data, start)
                                      && nread == After(old(nread), |data| - 1 - start))
    {
      hide React, On, At, Abs, FieldsOk, Open, InRun, MarksOk, NextValue;
      marks' := marks;
      if small {
        RunFirst(cfg, goal, f, nread, start, log, marks, data);
      }
      var ok;
      p, ok := MatchValues(data, start, marks, goal, small);
      if !ok {
        return p, marks, Error;
      }
      if p < |data| {
        p, marks', flow := EndValue(data, start, p, marks, goal, small);
        return p, marks', flow;
      }
      ok := EndRun(data, start, p, marks, goal, small);
      return p - 1, marks, if ok then Advance else Error;
    }

    /** The byte that ends a header value. */
    method EndValue(data: seq<Byte>, start: nat, p0: nat, marks: Marks, ghost goal: Outcome, ghost small: bool)
      returns (p: nat, marks': Marks, flow: Flow)
      requires start <= p0 < |data| && f.state.HeaderValue? && FieldsOk(f) && MarksOk(HeaderValue, marks, p0) && errno.NoError?
      requires data[p0] == CR || data[p0] == LF
      requires small ==> nread + |data| <= TWO32 && InRun(cfg, goal, f, nread, start, log, marks, data, p0)
      modifies this`f, this`nread, this`log, this`errno
      ensures flow.Error? <==> !errno.NoError?
      ensures !flow.Return? && p == p0
      ensures flow.Error? && small ==> goal == Failed
      ensures !flow.Error? ==> FieldsOk(f) && nread <= cfg.maxHeaderSize && f.state.HeaderAlmostDone?
      ensures small ==> nread >= old(nread)
      ensures flow.Advance? ==> MarksOk(f.state, marks', p + 1)
      ensures flow.Advance? && small ==> At(cfg, goal, Abs(f, nread, log, marks', data, p + 1), data, p + 1)
      ensures flow.Reexecute? ==> MarksOk(f.state, marks', p)
      ensures flow.Reexecute? && small ==> On(cfg, goal, Abs(f, nread, log, marks', data, p), data, p)
    {
      hide React, On, At, Abs, FieldsOk, Open, InRun, MarksOk;
      p := p0;
      ghost var g, l := f, log;
      ValueDone(cfg, f, data[p], marks, log, data, p);
      f := f.(state := HeaderAlmostDone);
      var ok;
      if data[p] == CR {
        marks' := CallbackData(marks, ValueK, data, p);
        ok := CountHeaderSize(p - start);
      } else {
        ok := CountHeaderSize(p - start);
        marks' := CallbackData(marks, ValueK, data, p);
      }
      if small {
        RunStop(cfg, goal, g, old(nread), start, l, marks, data, p, nread);
        assert nread == old(nread) + (p - start);
        if ok {
          Single(cfg, goal, g, nread, l, marks, data, p);
        }
      }
      flow := if !ok then Error else if data[p] == CR then Advance else Reexecute;
    }

    /** Body bytes are taken as many as there are, without looking at them. */
    method ReadBody(data: seq<Byte>, p0: nat, marks: Marks, ghost goal: Outcome, ghost small: bool)
      returns (p: nat, marks': Marks, flow: Flow)
      requires p0 < |data| && InData(f.state) && FieldsOk(f) && MarksOk(f.state, marks, p0) && errno.NoError?
      requires small ==> On(cfg, goal, Abs(f, nread, log, marks, data, p0), data, p0)
      modifies this`f, this`log
      ensures (flow.Advance? || flow.Reexecute?) && p0 <= p < |data| && FieldsOk(f) && !f.state.ChunkSizeStart?
      ensures flow.Advance? ==> MarksOk(f.state, marks', p + 1)
      ensures flow.Advance? && small ==> At(cfg, goal, Abs(f, nread, log, marks', data, p + 1), data, p + 1)
      ensures flow.Reexecute? ==> f.state.MessageDone? && old(f.state).BodyIdentity? && MarksOk(f.state, marks', p)
      ensures flow.Reexecute? && small ==> On(cfg, goal, Abs(f, nread, log, marks', data, p), data, p)
    {
      hide On, At, Abs, Open, MarksOk, NameState, ValueState, IndexOk, ValueIndexOk, MethodString;
      ghost var g := f;
      flow := Advance;
      BodyMarks(f.state, marks, p0, |data|);
      marks' := SetMark(marks, BodyK, p0);
      if f.state.BodyIdentityEof? {
        p := |data| - 1;
        if small {
          BodyRest(cfg, goal, g, nread, log, marks, data, p0);
        }
        return p, marks', flow;
      }
      assert f.contentLength != 0 && f.contentLength != ULLONG_MAX;
      var toRead := if f.contentLength < |data| - p0 then f.contentLength else |data| - p0;
      f := f.(contentLength := f.contentLength - toRead);
      p := p0 + toRead - 1;
      if f.contentLength == 0 {
        if small {
          BodyLast(cfg, goal, g, nread, log, marks, data, p0, p);
        }
        BodyMarksLast(g.state, marks, p0, p);
        if f.state.BodyIdentity? {
          f := f.(state := MessageDone);
          marks' := CallbackData(marks', BodyK, data, p + 1);
          flow := Reexecute;
        } else {
          f := f.(state := ChunkDataAlmostDone);
        }
      } else if small {
        BodyRest(cfg, goal, g, nread, log, marks, data, p0);
      }
    }

    /** The handling of byte `p` in the current state. */
    method Dispatch(data: seq<Byte>, p0: nat, marks: Marks, ghost goal: Outcome, ghost small: bool)
      returns (p: nat, marks': Marks, flow: Flow)
      requires p0 < |data| && FieldsOk(f) && MarksOk(f.state, marks, p0) && errno.NoError? && nread <= cfg.maxHeaderSize
      requires small ==> Fits(cfg, |data|) && (ParsingHeader(f.state) ==> nread >= 1)
      requires small ==> On(cfg, goal, Abs(f, nread, log, marks, data, p0), data, p0)
      modifies this
      ensures flow.Error? <==> !errno.NoError?
      ensures flow.Error? && small ==> goal == Failed
      ensures !flow.Error? ==> p0 <= p < |data| && FieldsOk(f) && nread <= cfg.maxHeaderSize
      ensures !flow.Error? && !flow.Reexecute? && f.state.ChunkSizeStart? ==> nread == 0
      ensures flow.Advance? ==> MarksOk(f.state, marks', p + 1)
      ensures flow.Advance? && small ==> At(cfg, goal, Abs(f, nread, log, marks', data, p + 1), data, p + 1)
      ensures flow.Reexecute? ==> MarksOk(f.state, marks', p) && Rank(f.state) < Rank(old(f.state))
      ensures flow.Reexecute? && small ==>
                && Fits(cfg, |data|) && (ParsingHeader(f.state) ==> nread >= 1)
                && On(cfg, goal, Abs(f, nread, log, marks', data, p), data, p)
      ensures flow.Return? ==> Open(f.state) == []
      ensures flow.Return? && small ==> goal == Left(Progress(f, nread, Join(log)), |data| - p - 1)
      ensures InOneRun(cfg, old(f), data, p0) ==>
                && (flow.Advance? <==> After(old(nread), |data| - 1 - p0) <= cfg.maxHeaderSize)
                && (flow.Error? <==> !flow.Advance?) && (flow.Advance? ==> p == |data| - 1 && Ran(old(f), data, p0, f) && nread == After(old(nread), |data| - 1 - p0))
    {
      hide On, At, Abs, FieldsOk, Open, MarksOk, After, NameOnly, ValuesFrom, ValueAfter;
      if f.state.HeaderField? {
        p, marks', flow := RunHeaderField(data, p0, marks, goal, small);
      } else if f.state.HeaderValue? {
        p, marks', flow := RunHeaderValue(data, p0, marks, goal, small);
      } else if InData(f.state) {
        p, marks', flow := ReadBody(data, p0, marks, goal, small);
      } else {
        p := p0;
        marks', flow := HandleByte(data, p0, marks, goal, small);
      }
    }

    /** Handles byte `p` until the next one is wanted. */
    method HandleAll(data: seq<Byte>, p0: nat, marks: Marks, ghost goal: Outcome, ghost small: bool)
      returns (p: nat, marks': Marks, flow: Flow)
      requires p0 < |data| && FieldsOk(f) && MarksOk(f.state, marks, p0) && errno.NoError? && nread <= cfg.maxHeaderSize
      requires small ==> Fits(cfg, |data|) && (ParsingHeader(f.state) ==> nread >= 1)
      requires small ==> On(cfg, goal, Abs(f, nread, log, marks, data, p0), data, p0)
      modifies this
      ensures !flow.Reexecute?
      ensures flow.Error? <==> !errno.NoError?
      ensures flow.Error? && small ==> goal == Failed
      ensures !flow.Error? ==> p0 <= p < |data| && FieldsOk(f) && nread <= cfg.maxHeaderSize && (f.state.ChunkSizeStart? ==> nread == 0)
      ensures flow.Advance? ==> MarksOk(f.state, marks', p + 1)
      ensures flow.Advance? && small ==> At(cfg, goal, Abs(f, nread, log, marks', data, p + 1), data, p + 1)
      ensures flow.Return? ==> Open(f.state) == []
      ensures flow.Return? && small ==> goal == Left(Progress(f, nread, Join(log)), |data| - p - 1)
      ensures InOneRun(cfg, old(f), data, p0) ==>
                && (flow.Advance? <==> After(old(nread), |data| - 1 - p0) <= cfg.maxHeaderSize)
                && (flow.Error? <==> !flow.Advance?) && (flow.Advance? ==> p == |data| - 1 && Ran(old(f), data, p0, f) && nread == After(old(nread), |data| - 1 - p0))
    {
      hide On, At, Abs, FieldsOk, Open, MarksOk, Rank, ParsingHeader, InOneRun, Ran, After;
      p, marks', flow := p0, marks, Reexecute;
      while flow.Reexecute?
        invariant flow.Error? <==> !errno.NoError?
        invariant flow.Error? && small ==> goal == Failed
        invariant !flow.Error? ==> p0 <= p < |data| && FieldsOk(f) && nread <= cfg.maxHeaderSize
        invariant flow.Advance? || flow.Return? ==> (f.state.ChunkSizeStart? ==> nread == 0)
        invariant flow.Advance? ==> MarksOk(f.state, marks', p + 1)
        invariant flow.Advance? && small ==> At(cfg, goal, Abs(f, nread, log, marks', data, p + 1), data, p + 1)
        invariant flow.Reexecute? ==> MarksOk(f.state, marks', p)
        invariant flow.Reexecute? && small ==>
                    && Fits(cfg, |data|) && (ParsingHeader(f.state) ==> nread >= 1)
                    && On(cfg, goal, Abs(f, nread, log, marks', data, p), data, p)
        invariant flow.Return? ==> Open(f.state) == []
        invariant flow.Return? && small ==> goal == Left(Progress(f, nread, Join(log)), |data| - p - 1)
        invariant InOneRun(cfg, old(f), data, p0) ==>
                    if flow.Reexecute? then p == p0 && f == old(f) && nread == old(nread)
                    else
                      && (flow.Advance? <==> After(old(nread), |data| - 1 - p0) <= cfg.maxHeaderSize)
                      && (flow.Error? <==> !flow.Advance?) && (flow.Advance? ==> p == |data| - 1 && Ran(old(f), data, p0, f) && nread == After(old(nread), |data| - 1 - p0))
        decreases if flow.Reexecute? then Rank(f.state) + 1 else 0
      {
        p, marks', flow := Dispatch(data, p, marks', goal, small);
      }
    }

    /** Counts byte `p` and handles it. */
    method NextByte(data: seq<Byte>, p0: nat, marks: Marks, ghost goal: Outcome, ghost small: bool)
      returns (p: nat, marks': Marks, flow: Flow)
      requires p0 < |data| && FieldsOk(f) && MarksOk(f.state, marks, p0) && errno.NoError? && nread <= cfg.maxHeaderSize
      requires f.state.ChunkSizeStart? ==> nread == 0
      requires small ==> Fits(cfg, |data|) && At(cfg, goal, Abs(f, nread, log, marks, data, p0), data, p0)
      modifies this
      ensures !flow.Reexecute?
      ensures flow.Error? <==> !errno.NoError?
      ensures flow.Error? && small ==> goal == Failed
      ensures !flow.Error? ==> p0 <= p < |data| && FieldsOk(f) && nread <= cfg.maxHeaderSize && (f.state.ChunkSizeStart? ==> nread == 0)
      ensures flow.Advance? ==> MarksOk(f.state, marks', p + 1)
      ensures flow.Advance? && small ==> At(cfg, goal, Abs(f, nread, log, marks', data, p + 1), data, p + 1)
      ensures flow.Return? ==> Open(f.state) == []
      ensures flow.Return? && small ==> goal == Left(Progress(f, nread, Join(log)), |data| - p - 1)
      ensures InOneRun(cfg, old(f), data, p0) ==>
                && (flow.Advance? <==> WithinLimit(cfg, old(nread), |data| - p0))
                && (flow.Error? <==> !flow.Advance?) && (flow.Advance? ==> p == |data| - 1 && Ran(old(f), data, p0, f) && nread == After(old(nread), |data| - p0))
    {
      hide On, At, Abs, FieldsOk, Open, MarksOk, ParsingHeader, Pend, InOneRun, Ran, After;
      HeaderStates();
      if InOneRun(cfg, f, data, p0) {
        RunInHeader(cfg, f, data, p0);
      }
      WrapsOnce(nread, |data| - p0);
      var ok := CountByte(data, p0, marks, goal, small);
      if !ok {
        return p0, marks, Error;
      }
      assert f.state.ChunkSizeStart? ==> nread == 1;
      p, marks', flow := HandleAll(data, p0, marks, goal, small);
    }

    /** Counts byte `p0` if it belongs to a header. */
    method CountByte(data: seq<Byte>, p0: nat, marks: Marks, ghost goal: Outcome, ghost small: bool) returns (ok: bool)
      requires p0 < |data| && errno.NoError? && nread <= cfg.maxHeaderSize
      requires small ==> Fits(cfg, |data|) && At(cfg, goal, Abs(f, nread, log, marks, data, p0), data, p0)
      modifies this`nread, this`errno
      ensures ok <==> errno.NoError?
      ensures ok ==> nread <= cfg.maxHeaderSize
      ensures ParsingHeader(f.state) ==> nread == After(old(nread), 1) && (ok <==> nread <= cfg.maxHeaderSize)
      ensures ParsingHeader(f.state) && old(nread) == 0 ==> nread == 1
      ensures ParsingHeader(f.state) && small ==> nread >= 1
      ensures !ParsingHeader(f.state) ==> ok && nread == old(nread)
      ensures small && ok ==> On(cfg, goal, Abs(f, nread, log, marks, data, p0), data, p0)
      ensures small && !ok ==> goal == Failed
    {
      hide On, At, ParsingHeader, Pend;
      if small {
        AbsCounted(cfg, goal, f, nread, log, marks, data, p0);
      }
      ok := true;
      if ParsingHeader(f.state) {
        ok := CountHeaderSize(1);
      }
    }

    /** The end of the input. */
    method AtEof() returns (n: nat)
      requires Valid() && errno.NoError?
      modifies this`log, this`errno
      ensures Valid()
      ensures f.state.BodyIdentityEof? ==> n == 0 && errno.NoError? && log == old(log) + [Note(MessageComplete)]
      ensures InStart(f.state) && !f.state.ResOrRespH? ==> n == 0 && errno.NoError? && log == old(log)
      ensures !f.state.BodyIdentityEof? && (InStart(f.state) ==> f.state.ResOrRespH?) ==> n == 1 && errno == InvalidEofState && log == old(log)
    {
      hide FieldsOk;
      if f.state.BodyIdentityEof? {
        log := log + [Note(MessageComplete)];
        return 0;
      }
      if f.state.Dead? || f.state.StartReqOrRes? || f.state.StartRes? || f.state.StartReq? {
        return 0;
      }
      errno := InvalidEofState;
      return 1;
    }

    /** The fold over the bytes that a buffer stands for. */
    ghost function Goal(data: seq<Byte>): Outcome
      reads this
    {
      Feed(cfg, Progress(f, nread, Join(log)), data)
    }

    /**
     Works off a buffer. Unless the 32-bit counter can wrap around, the outcome is that of
     reading the bytes one at a time: the same fields, the same count, the same events
     once adjacent data is joined.
     */
    method Execute(data: seq<Byte>) returns (n: nat)
      requires Valid()
      modifies this
      ensures Valid()
      ensures !old(errno).NoError? ==> n == 0 && errno == old(errno) && log == old(log) && f == old(f)
      ensures old(errno).NoError? && data != [] && Fits(cfg, |data|) ==>
                match old(Goal(data))
                case Going(m) => errno.NoError? && n == |data| && f == m.f && nread == m.nread && Join(log) == m.log
                case Left(m, u) => errno.NoError? && n == |data| - u && f == m.f && nread == m.nread && Join(log) == m.log
                case Failed => !errno.NoError?
      ensures old(errno).NoError? && data != [] && InOneRun(cfg, old(f), data, 0) ==>
                && (errno.NoError? <==> WithinLimit(cfg, old(nread), |data|))
                && (errno.NoError? ==> Ran(old(f), data, 0, f) && nread == After(old(nread), |data|))
    {
      hide InOneRun, Ran, WithinLimit, After, On, At, FieldsOk, Open, MarksOk, ParsingHeader, Pend, Resumable, Feed, FlushAll, MarksAt;
      if !errno.NoError? {
        return 0;
      }
      if data == [] {
        n := AtEof();
        return n;
      }
      ghost var small, goal := Fits(cfg, |data|), Goal(data);
      var marks := MarksAt(f.state);
      Resume(f.state, Join(log), data);
      AtStart(cfg, goal, Progress(f, nread, Join(log)), data);
      var p := 0;
      while p < |data|
        invariant p <= |data| && FieldsOk(f) && MarksOk(f.state, marks, p) && errno.NoError? && nread <= cfg.maxHeaderSize
        invariant f.state.ChunkSizeStart? ==> nread == 0
        invariant small ==> At(cfg, goal, Abs(f, nread, log, marks, data, p), data, p)
        invariant InOneRun(cfg, old(f), data, 0) ==>
                    || (p == 0 && f == old(f) && nread == old(nread))
                    || (p == |data| && WithinLimit(cfg, old(nread), |data|) && Ran(old(f), data, 0, f) && nread == After(old(nread), |data|))
      {
        var flow;
        p, marks, flow := NextByte(data, p, marks, goal, small);
        if flow.Error? {
          return p;
        }
        if flow.Return? {
          ClosedResumes(f.state, Join(log));
          return p + 1;
        }
        p := p + 1;
      }
      OneMark(f.state, marks, p);
      assert Count(marks) <= 1;
      Leftover(f.state, log, marks, data, p);
      if small {
        AtEnd(cfg, goal, Abs(f, nread, log, marks, data, p), data);
      }
      FlushMarks(data, marks);
      return |data|;
    }

    /** The callbacks for the fields still open at the end of a buffer. */
    method FlushMarks(data: seq<Byte>, marks: Marks)
      modifies this`log
      ensures log == FlushAll(old(log), marks, data, |data|)
    {
      var m := CallbackData(marks, FieldK, data, |data|);
      m := CallbackData(m, ValueK, data, |data|);
      m := CallbackData(m, UrlK, data, |data|);
      m := CallbackData(m, BodyK, data, |data|);
      m := CallbackData(m, StatusK, data, |data|);
    }
  }

  /**
   Split invariance: a buffer that is parsed without error and without leaving the parser
   can be given in two parts, with the same result.
   */
  method ExecuteSplit(a: Parser, b: Parser, xs: seq<Byte>, ys: seq<Byte>)
    requires a != b && a.Valid() && b.Valid() && a.cfg == b.cfg && a.errno.NoError? && b.errno.NoError?
    requires a.f == b.f && a.nread == b.nread && Join(a.log) == Join(b.log)
    requires xs != [] && ys != [] && a.cfg.maxHeaderSize + |xs| + |ys| <= TWO32
    requires a.Goal(xs + ys).Going?
    modifies a, b
    ensures a.errno.NoError? && b.errno.NoError?
    ensures a.f == b.f && a.nread == b.nread && Join(a.log) == Join(b.log)
  {
    hide FieldsOk, Resumable, Feed;
    FeedSplit(a.cfg, Progress(a.f, a.nread, Join(a.log)), xs, ys);
    var n := a.Execute(xs + ys);
    var i := b.Execute(xs);
    var j := b.Execute(ys);
  }

  /**
   Without the bound on the size, split invariance fails: within a header name or value a
   buffer is accepted exactly if the wrapped count stays within the limit, at its first
   byte and at its end. In two parts the count is also checked at the end of the first
   and at the first byte of the second.
   */
  method SplitRun(a: Parser, b: Parser, xs: seq<Byte>, ys: seq<Byte>)
    requires a != b && a.Valid() && b.Valid() && a.cfg == b.cfg && a.errno.NoError? && b.errno.NoError?
    requires a.f == b.f && a.nread == b.nread && InOneRun(a.cfg, a.f, xs + ys, 0) && xs != [] && ys != []
    modifies a, b
    ensures a.errno.NoError? <==> WithinLimit(a.cfg, old(a.nread), |xs| + |ys|)
    ensures b.errno.NoError? <==>
              WithinLimit(a.cfg, old(a.nread), |xs|) && WithinLimit(a.cfg, After(old(a.nread), |xs|), |ys|)
  {
    hide FieldsOk, Resumable, Feed, InOneRun, Ran, Join;
    ghost var f := b.f;
    RunSplit(b.cfg, f, xs, ys, f);
    var n := a.Execute(xs + ys);
    var i := b.Execute(xs);
    if b.errno.NoError? {
      RunSplit(b.cfg, f, xs, ys, b.f);
      var j := b.Execute(ys);
    }
  }

  /** A run that ends with a wrapped count within the limit is accepted at once, and rejected
      when cut where the count has reached the limit. */
  lemma WrapAround(cfg: Config, count: nat, xs: nat, ys: nat)
    requires count < cfg.maxHeaderSize < TWO32 - 1
    requires After(count, xs + ys) <= cfg.maxHeaderSize <= After(count, xs)
    ensures WithinLimit(cfg, count, xs + ys)
    ensures !(WithinLimit(cfg, count, xs) && WithinLimit(cfg, After(count, xs), ys))
  {
  }

  function Concat(buffers: seq<seq<Byte>>): seq<Byte> {
    if buffers == [] then [] else buffers[0] + Concat(buffers[1..])
  }

  /** Any number of buffers: the outcome depends only on the bytes, however they are cut. */
  method ExecuteAll(parser: Parser, buffers: seq<seq<Byte>>)
    requires parser.Valid() && parser.errno.NoError?
    requires forall i :: 0 <= i < |buffers| ==> buffers[i] != [] && Fits(parser.cfg, |buffers[i]|)
    requires parser.Goal(Concat(buffers)).Going?
    modifies parser
    ensures parser.Valid() && parser.errno.NoError?
    ensures old(parser.Goal(Concat(buffers))) == Going(Progress(parser.f, parser.nread, Join(parser.log)))
  {
    hide FieldsOk, Resumable, Feed;
    ghost var goal := parser.Goal(Concat(buffers));
    var i := 0;
    assert buffers[0..] == buffers;
    while i < |buffers|
      invariant i <= |buffers| && parser.Valid() && parser.errno.NoError?
      invariant goal == parser.Goal(Concat(buffers[i..]))
    {
      ghost var rest := buffers[i..];
      assert rest[1..] == buffers[i + 1..];
      FeedSplit(parser.cfg, Progress(parser.f, parser.nread, Join(parser.log)), buffers[i], Concat(rest[1..]));
      var n := parser.Execute(buffers[i]);
      i := i + 1;
    }
    FeedNone(parser.cfg, Progress(parser.f, parser.nread, Join(parser.log)));
  }

  /** A chunked body, given in whatever buffers, is reported chunk by chunk. */
  method ExecuteChunked(parser: Parser, buffers: seq<seq<Byte>>, ghost cs: seq<Chunk>, ghost last: Chunk)
    requires parser.Valid() && parser.errno.NoError? && parser.f.state.ChunkSizeStart? && !parser.f.msg.upgrade
    requires forall i :: 0 <= i < |buffers| ==> buffers[i] != [] && Fits(parser.cfg, |buffers[i]|)
    requires (forall i :: 0 <= i < |cs| ==> WfChunk(parser.cfg, cs[i])) && WfLine(parser.cfg, last) && last.body == []
    requires Concat(buffers) == Body(cs, last)
    modifies parser
    ensures parser.Valid() && parser.errno.NoError? && parser.f == AfterMessage(old(parser.f))
    ensures Join(parser.log) == Join(old(parser.log)) + EventsOfAll(cs) + ENDING
  {
    hide FieldsOk, Resumable, Feed, WfChunk, WfLine, Body;
    ChunkedRoundTrip(parser.cfg, Progress(parser.f, parser.nread, Join(parser.log)), cs, last);
    ExecuteAll(parser, buffers);
    assert old(Join(parser.log)) + (EventsOfAll(cs) + ENDING) == old(Join(parser.log)) + EventsOfAll(cs) + ENDING;
  }
}
