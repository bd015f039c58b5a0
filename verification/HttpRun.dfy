/**
 How a buffer is worked off: marks in place of copied bytes, runs of bytes handled
 at once, and header bytes counted once per run, against the fold over bytes.
 */
module HttpRun {
  import opened HttpChars
  import opened HttpMachine
  import opened HttpStream

  /** Where the open data fields start in the current buffer; -1 for no mark. */
  datatype Marks = Marks(field: int, value: int, url: int, body: int, status: int)

  const NOMARKS := Marks(-1, -1, -1, -1, -1)

  function Get(m: Marks, k: Kind): int {
    match k
    case FieldK => m.field
    case ValueK => m.value
    case UrlK => m.url
    case BodyK => m.body
    case StatusK => m.status
  }

  function Put(m: Marks, k: Kind, i: int): Marks {
    match k
    case FieldK => m.(field := i)
    case ValueK => m.(value := i)
    case UrlK => m.(url := i)
    case BodyK => m.(body := i)
    case StatusK => m.(status := i)
  }

  /** How many marks are set. */
  function Count(m: Marks): nat {
    (if m.field >= 0 then 1 else 0) + (if m.value >= 0 then 1 else 0) + (if m.url >= 0 then 1 else 0)
    + (if m.body >= 0 then 1 else 0) + (if m.status >= 0 then 1 else 0)
  }

  function Slice(data: seq<Byte>, i: int, p: nat): seq<Byte> {
    if 0 <= i <= p <= |data| then data[i..p] else []
  }

  function AddMark(log: seq<Event>, marks: Marks, k: Kind, data: seq<Byte>, p: nat): seq<Event> {
    if Get(marks, k) >= 0 then Add(log, Data(k, Slice(data, Get(marks, k), p))) else log
  }

  /** The events up to `p`, those of open fields included. */
  function Pend(log: seq<Event>, marks: Marks, data: seq<Byte>, p: nat): seq<Event> {
    AddMark(AddMark(AddMark(AddMark(AddMark(log, marks, FieldK, data, p), marks, ValueK, data, p),
      marks, UrlK, data, p), marks, BodyK, data, p), marks, StatusK, data, p)
  }

  /** Only the mark of `k` is set, not after `p`. */
  predicate Only(marks: Marks, k: Kind, p: nat) {
    0 <= Get(marks, k) <= p && marks == Put(NOMARKS, k, Get(marks, k))
  }

  /** Only the field of the state is open; a body may have started in an earlier buffer. */
  predicate MarksOk(s: State, marks: Marks, p: nat) {
    if Open(s) == [] then marks == NOMARKS
    else (marks == NOMARKS && Open(s)[0] == BodyK) || Only(marks, Open(s)[0], p)
  }

  lemma OneMark(s: State, marks: Marks, p: nat)
    requires MarksOk(s, marks, p)
    ensures Count(marks) <= 1
  {
  }

  lemma PendNone(log: seq<Event>, data: seq<Byte>, p: nat)
    ensures Pend(log, NOMARKS, data, p) == log
  {
  }

  lemma PendOne(log: seq<Event>, marks: Marks, k: Kind, data: seq<Byte>, p: nat)
    requires Only(marks, k, p)
    ensures Pend(log, marks, data, p) == Add(log, Data(k, Slice(data, Get(marks, k), p)))
  {
    hide Add, Slice;
  }

  function SetMark(marks: Marks, k: Kind, p: nat): Marks {
    if Get(marks, k) >= 0 then marks else Put(marks, k, p)
  }

  /** The marks after an act at `p`. */
  function Marked(marks: Marks, act: Act, p: nat): Marks {
    match act
    case Begin(k) => SetMark(marks, k, p)
    case Start(k) => SetMark(marks, k, p)
    case Close(k) => Put(marks, k, -1)
    case Empty(k) => Put(SetMark(marks, k, p), k, -1)
    case Last(k) => Put(SetMark(marks, k, p), k, -1)
    case _ => marks
  }

  /** The callback that reports an open field up to `e`. */
  function Flush(log: seq<Event>, marks: Marks, k: Kind, data: seq<Byte>, e: nat): seq<Event> {
    if Get(marks, k) >= 0 then log + [Data(k, Slice(data, Get(marks, k), e))] else log
  }

  /** The callbacks made by an act at `p`. */
  function Reported(log: seq<Event>, marks: Marks, act: Act, data: seq<Byte>, p: nat): seq<Event> {
    match act
    case Tell(n) => log + [Note(n)]
    case Close(k) => Flush(log, marks, k, data, p)
    case Empty(k) => Flush(log, SetMark(marks, k, p), k, data, p)
    case Last(k) => Flush(log, SetMark(marks, k, p), k, data, p + 1)
    case _ => log
  }

  /** The byte belongs to a field that stays open. */
  predicate Taken(act: Act) {
    act.Begin? || act.Extend?
  }

  /** The marks and reports of an act agree with reporting byte by byte. */
  predicate Faithful(log: seq<Event>, marks: Marks, act: Act, data: seq<Byte>, p: nat)
    requires p < |data|
  {
    Pend(Join(Reported(log, marks, act, data, p)), Marked(marks, act, p), data, if Taken(act) then p + 1 else p)
      == LogAct(Pend(Join(log), marks, data, p), act, data[p])
  }

  /** With marks, an act reports what it reports byte by byte. */
  lemma ActReport(log: seq<Event>, marks: Marks, s: State, act: Act, t: State, v: Verdict, data: seq<Byte>, p: nat)
    requires p < |data| && Shaped(s, act, t, v) && MarksOk(s, marks, p)
    ensures MarksOk(t, Marked(marks, act, p), p) && Faithful(log, marks, act, data, p)
    ensures v.Next? && !Taken(act) ==> Marked(marks, act, p) == NOMARKS
    ensures v.Again? ==> !Taken(act)
  {
    hide Faithful, Open;
    match act {
      case Nothing => PlainReport(log, act, data, p);
      case Tell(n) => PlainReport(log, act, data, p);
      case Begin(k) => OpeningReport(log, marks, act, k, data, p);
      case Extend(k) => OpenReport(log, marks, act, k, data, p);
      case Close(k) => OpenReport(log, marks, act, k, data, p);
      case Start(k) => OpeningReport(log, marks, act, k, data, p);
      case Empty(k) => OpeningReport(log, marks, act, k, data, p);
      case Last(k) => OpeningReport(log, marks, act, k, data, p);
    }
  }

  lemma PlainReport(log: seq<Event>, act: Act, data: seq<Byte>, p: nat)
    requires p < |data| && (act.Nothing? || act.Tell?)
    ensures Faithful(log, NOMARKS, act, data, p)
  {
    hide Pend, Join, Slice, Add;
    PendNone(Join(log), data, p);
    if act.Tell? {
      PendNone(Join(log + [Note(act.n)]), data, p);
      JoinMore(log, Note(act.n));
    }
  }

  lemma OpenReport(log: seq<Event>, marks: Marks, act: Act, k: Kind, data: seq<Byte>, p: nat)
    requires p < |data| && (act == Extend(k) || act == Close(k))
    requires (marks == NOMARKS && act.Close?) || Only(marks, k, p)
    ensures Faithful(log, marks, act, data, p)
    ensures act.Close? ==> Put(marks, k, -1) == NOMARKS
  {
    hide Pend, Join, Slice, Add, Flush;
    if act.Extend? {
      TakeReport(Join(log), marks, k, data, p);
    } else {
      FlushReport(log, marks, k, data, p, p);
    }
  }

  lemma OpeningReport(log: seq<Event>, marks: Marks, act: Act, k: Kind, data: seq<Byte>, p: nat)
    requires p < |data| && (act == Begin(k) || act == Start(k) || act == Empty(k) || act == Last(k))
    requires marks == NOMARKS || Only(marks, k, p)
    ensures Faithful(log, marks, act, data, p)
    ensures Only(SetMark(marks, k, p), k, p) && Put(SetMark(marks, k, p), k, -1) == NOMARKS
  {
    hide Pend, Join, Slice, Add, Flush;
    MarkReport(Join(log), marks, k, data, p);
    var m := SetMark(marks, k, p);
    if act.Begin? || act.Last? {
      TakeReport(Join(log), m, k, data, p);
      AddTwice(Pend(Join(log), marks, data, p), k, [], [data[p]]);
      assert [] + [data[p]] == [data[p]];
      FlushReport(log, m, k, data, p, p + 1);
    } else {
      FlushReport(log, m, k, data, p, p);
    }
  }

  /** A byte more in an open field. */
  lemma TakeReport(log: seq<Event>, marks: Marks, k: Kind, data: seq<Byte>, p: nat)
    requires p < |data| && Only(marks, k, p)
    ensures Pend(log, marks, data, p + 1) == Add(Pend(log, marks, data, p), Data(k, [data[p]]))
  {
    PendOne(log, marks, k, data, p);
    PendOne(log, marks, k, data, p + 1);
    assert data[Get(marks, k)..p + 1] == data[Get(marks, k)..p] + [data[p]];
    AddTwice(log, k, data[Get(marks, k)..p], [data[p]]);
    hide Add;
  }

  /** Opening a field, or leaving it open. */
  lemma MarkReport(log: seq<Event>, marks: Marks, k: Kind, data: seq<Byte>, p: nat)
    requires p < |data| && (marks == NOMARKS || Only(marks, k, p))
    ensures var m := SetMark(marks, k, p);
            && Only(m, k, p)
            && Pend(log, m, data, p) == Add(Pend(log, marks, data, p), Data(k, []))
  {
    if Get(marks, k) >= 0 {
      PendOne(log, marks, k, data, p);
      AddTwice(log, k, Slice(data, Get(marks, k), p), []);
      assert Slice(data, Get(marks, k), p) + [] == Slice(data, Get(marks, k), p);
    } else {
      PendNone(log, data, p);
      PendOne(log, Put(marks, k, p), k, data, p);
      assert data[p..p] == [];
    }
    hide Add, Pend;
  }

  /** Reporting and closing a field. */
  lemma FlushReport(log: seq<Event>, marks: Marks, k: Kind, data: seq<Byte>, p: nat, e: nat)
    requires marks == NOMARKS || Only(marks, k, e)
    ensures Put(marks, k, -1) == NOMARKS
    ensures Pend(Join(Flush(log, marks, k, data, e)), Put(marks, k, -1), data, p)
         == Pend(Join(log), marks, data, e)
  {
    if Get(marks, k) >= 0 {
      JoinMore(log, Data(k, Slice(data, Get(marks, k), e)));
      PendOne(Join(log), marks, k, data, e);
      PendNone(Join(log + [Data(k, Slice(data, Get(marks, k), e))]), data, p);
    } else {
      PendNone(Join(log), data, p);
      PendNone(Join(log), data, e);
    }
    hide Pend, Join, Add;
  }

  // ----- a buffer in the middle of being worked off -----

  /** What becomes of a byte, and then of the rest of the buffer. */
  function AfterByte(cfg: Config, o: Outcome, rest: seq<Byte>): Outcome {
    match o
    case Going(m) => Feed(cfg, m, rest)
    case Failed => Failed
    case Left(m, _) => Left(m, |rest|)
  }

  /** The state the fold would be in. */
  function Abs(f: Fields, nread: nat, log: seq<Event>, marks: Marks, data: seq<Byte>, p: nat): Progress {
    Progress(f, nread, Pend(Join(log), marks, data, p))
  }

  /** Before byte `p`: the rest of the buffer leads to `goal`. */
  ghost predicate At(cfg: Config, goal: Outcome, m: Progress, data: seq<Byte>, p: nat) {
    p <= |data| && goal == Feed(cfg, m, data[p..])
  }

  /** At byte `p`, which has been counted. */
  ghost predicate On(cfg: Config, goal: Outcome, m: Progress, data: seq<Byte>, p: nat) {
    p < |data| && goal == AfterByte(cfg, Settle(cfg, m, data[p]), data[p + 1..])
  }

  /** The byte is counted if it belongs to a header. */
  lemma Counted(cfg: Config, goal: Outcome, m: Progress, data: seq<Byte>, p: nat)
    requires At(cfg, goal, m, data, p) && p < |data|
    ensures !ParsingHeader(m.f.state) ==> On(cfg, goal, m, data, p)
    ensures ParsingHeader(m.f.state) && m.nread + 1 <= cfg.maxHeaderSize ==>
              On(cfg, goal, m.(nread := m.nread + 1), data, p)
    ensures ParsingHeader(m.f.state) && m.nread + 1 > cfg.maxHeaderSize ==> goal == Failed
  {
    hide ParsingHeader, Settle;
    var rest := data[p..];
    assert rest[1..] == data[p + 1..];
  }

  lemma Settled(cfg: Config, goal: Outcome, m: Progress, data: seq<Byte>, p: nat)
    requires On(cfg, goal, m, data, p)
    ensures var r := React(cfg, m.f, data[p]);
            && (r.v.Next? ==> At(cfg, goal, Apply(m, r, data[p]), data, p + 1))
            && (r.v.Again? ==> On(cfg, goal, Apply(m, r, data[p]), data, p))
            && (r.v.Fail? ==> goal == Failed)
            && (r.v.Leave? ==> goal == Left(Apply(m, r, data[p]), |data| - p - 1))
  {
    hide React, LogAct, Feed;
  }

  function NewCount(r: Reaction, nread: nat): nat {
    if r.anew then 0 else nread
  }

  /** The reaction to a byte, carried out with marks. */
  lemma Single(cfg: Config, goal: Outcome, f: Fields, nread: nat, log: seq<Event>, marks: Marks, data: seq<Byte>, p: nat)
    requires p < |data| && On(cfg, goal, Abs(f, nread, log, marks, data, p), data, p) && MarksOk(f.state, marks, p)
    ensures var r := React(cfg, f, data[p]);
            var log', marks', n := Reported(log, marks, r.act, data, p), Marked(marks, r.act, p), NewCount(r, nread);
            && (r.v.Next? ==> At(cfg, goal, Abs(r.f, n, log', marks', data, p + 1), data, p + 1) && MarksOk(r.f.state, marks', p + 1))
            && (r.v.Again? ==> On(cfg, goal, Abs(r.f, n, log', marks', data, p), data, p) && MarksOk(r.f.state, marks', p))
            && (r.v.Fail? ==> goal == Failed)
            && (r.v.Leave? ==> goal == Left(Progress(r.f, n, Join(log')), |data| - p - 1))
  {
    hide React, At, On, Pend, Join, Reported, Marked, LogAct;
    var r := React(cfg, f, data[p]);
    Settled(cfg, goal, Abs(f, nread, log, marks, data, p), data, p);
    if !r.v.Fail? {
      ReactShaped(cfg, f, data[p]);
      ActReport(log, marks, f.state, r.act, r.f.state, r.v, data, p);
      var log', marks' := Reported(log, marks, r.act, data, p), Marked(marks, r.act, p);
      MarksLater(r.f.state, marks', p);
      PendNone(Join(log'), data, p);
      PendNone(Join(log'), data, p + 1);
      if r.v.Leave? {
        LeaveMarks(f.state, r.act, r.f.state, r.v, marks, p);
      }
      hide Shaped, MarksOk;
    }
  }

  lemma MarksLater(s: State, marks: Marks, p: nat)
    requires MarksOk(s, marks, p)
    ensures MarksOk(s, marks, p + 1)
  {
    hide Open;
  }

  lemma LeaveMarks(s: State, act: Act, t: State, v: Verdict, marks: Marks, p: nat)
    requires Shaped(s, act, t, v) && MarksOk(s, marks, p) && v.Leave?
    ensures Marked(marks, act, p) == NOMARKS && !Taken(act)
  {
    hide Open;
  }

  // ----- runs of header bytes -----

  /**
   In a run of header bytes that began at `start`, with the count `nr` so far including
   that byte: either everything is as if each byte had been counted, or the limit is
   exceeded and the end of the run will notice it.
   */
  ghost predicate InRun(cfg: Config, goal: Outcome, f: Fields, nr: nat, start: nat, log: seq<Event>, marks: Marks, data: seq<Byte>, p: nat) {
    && start <= p <= |data| && start < |data|
    && (if p < |data| then
          || (goal == Failed && nr + (p - start) > cfg.maxHeaderSize)
          || (nr + (p - start) <= cfg.maxHeaderSize && On(cfg, goal, Abs(f, nr + (p - start), log, marks, data, p), data, p))
        else
          || (goal == Failed && nr + (p - 1 - start) > cfg.maxHeaderSize)
          || (nr + (p - 1 - start) <= cfg.maxHeaderSize && At(cfg, goal, Abs(f, nr + (p - 1 - start), log, marks, data, p), data, p)))
  }

  /** One more byte of the run. */
  lemma RunStep(cfg: Config, goal: Outcome, f: Fields, nr: nat, start: nat, log: seq<Event>, marks: Marks, data: seq<Byte>, p: nat, k: Kind)
    requires InRun(cfg, goal, f, nr, start, log, marks, data, p) && p < |data| && MarksOk(f.state, marks, p)
    requires var r := React(cfg, f, data[p]); r.v.Next? && r.act == Extend(k) && !r.anew && ParsingHeader(r.f.state)
    ensures InRun(cfg, goal, React(cfg, f, data[p]).f, nr, start, log, marks, data, p + 1)
  {
    hide React, At, On, ParsingHeader, MarksOk, Abs;
    var r := React(cfg, f, data[p]);
    if nr + (p - start) <= cfg.maxHeaderSize && On(cfg, goal, Abs(f, nr + (p - start), log, marks, data, p), data, p) {
      Single(cfg, goal, f, nr + (p - start), log, marks, data, p);
      var m := Abs(r.f, nr + (p - start), log, marks, data, p + 1);
      if p + 1 < |data| {
        AbsCounted(cfg, goal, r.f, nr + (p - start), log, marks, data, p + 1);
      }
    }
  }

  lemma AbsCounted(cfg: Config, goal: Outcome, f: Fields, nread: nat, log: seq<Event>, marks: Marks, data: seq<Byte>, p: nat)
    requires At(cfg, goal, Abs(f, nread, log, marks, data, p), data, p) && p < |data|
    ensures !ParsingHeader(f.state) ==> On(cfg, goal, Abs(f, nread, log, marks, data, p), data, p)
    ensures ParsingHeader(f.state) ==>
              if nread + 1 <= cfg.maxHeaderSize then On(cfg, goal, Abs(f, nread + 1, log, marks, data, p), data, p) else goal == Failed
  {
    hide At, On, ParsingHeader;
    Counted(cfg, goal, Abs(f, nread, log, marks, data, p), data, p);
  }

  /** Past the limit nothing matters any more. */
  lemma RunOver(cfg: Config, goal: Outcome, f: Fields, nr: nat, start: nat, log: seq<Event>, marks: Marks, data: seq<Byte>, p: nat,
                f': Fields, log': seq<Event>, marks': Marks)
    requires InRun(cfg, goal, f, nr, start, log, marks, data, p) && p < |data| && nr + (p - start) > cfg.maxHeaderSize
    ensures InRun(cfg, goal, f', nr, start, log', marks', data, p + 1)
  {
  }

  // ----- bodies -----

  predicate InData(s: State) {
    s.BodyIdentity? || s.BodyIdentityEof? || s.ChunkData?
  }

  /** A body with `n` fewer bytes to go. */
  function Less(f: Fields, n: nat): Fields {
    if f.state.BodyIdentityEof? then f else f.(contentLength := if f.contentLength >= n then f.contentLength - n else 0)
  }

  /** The bytes of a body, all but a last one that ends it. */
  lemma {:induction false} BodyRun(cfg: Config, goal: Outcome, f: Fields, nread: nat, log: seq<Event>, marks: Marks, data: seq<Byte>, p: nat, q: nat)
    requires InData(f.state) && p <= q <= |data| && (!f.state.BodyIdentityEof? ==> q - p < f.contentLength)
    requires At(cfg, goal, Abs(f, nread, log, marks, data, p), data, p) && MarksOk(f.state, marks, p)
    ensures var m := if p < q then SetMark(marks, BodyK, p) else marks;
            At(cfg, goal, Abs(Less(f, q - p), nread, log, m, data, q), data, q) && MarksOk(f.state, m, q)
    decreases q - p
  {
    hide At, On, React, Abs, MarksOk;
    if p == q {
      assert Less(f, 0) == f;
    } else {
      BodyStep(cfg, goal, f, nread, log, marks, data, p);
      var m := SetMark(marks, BodyK, p);
      BodyRun(cfg, goal, Less(f, 1), nread, log, m, data, p + 1, q);
      assert SetMark(m, BodyK, p + 1) == m;
      assert Less(Less(f, 1), q - p - 1) == Less(f, q - p);
    }
  }

  lemma BodyStep(cfg: Config, goal: Outcome, f: Fields, nread: nat, log: seq<Event>, marks: Marks, data: seq<Byte>, p: nat)
    requires InData(f.state) && p < |data| && (!f.state.BodyIdentityEof? ==> f.contentLength > 1)
    requires At(cfg, goal, Abs(f, nread, log, marks, data, p), data, p) && MarksOk(f.state, marks, p)
    ensures At(cfg, goal, Abs(Less(f, 1), nread, log, SetMark(marks, BodyK, p), data, p + 1), data, p + 1)
    ensures MarksOk(f.state, SetMark(marks, BodyK, p), p + 1)
  {
    hide At, On, React, Abs, MarksOk;
    assert !ParsingHeader(f.state);
    AbsCounted(cfg, goal, f, nread, log, marks, data, p);
    BodyReact(cfg, f, data[p]);
    Single(cfg, goal, f, nread, log, marks, data, p);
  }

  lemma BodyReact(cfg: Config, f: Fields, b: Byte)
    requires InData(f.state) && (!f.state.BodyIdentityEof? ==> f.contentLength > 1)
    ensures React(cfg, f, b) == Reaction(Less(f, 1), Begin(BodyK), false, Next)
  {
  }

  // ----- from one buffer to the next -----

  /** In a field that was left open at the end of a buffer, its data is the last event. */
  predicate Resumable(s: State, log: seq<Event>) {
    Open(s) != [] && Open(s)[0] != BodyK ==> log != [] && log[|log| - 1].Data? && log[|log| - 1].k == Open(s)[0]
  }

  /** The marks at the start of a buffer. */
  function MarksAt(s: State): Marks {
    if Open(s) != [] && Open(s)[0] != BodyK then Put(NOMARKS, Open(s)[0], 0) else NOMARKS
  }

  lemma Resume(s: State, log: seq<Event>, data: seq<Byte>)
    requires Resumable(s, log)
    ensures MarksOk(s, MarksAt(s), 0) && Pend(log, MarksAt(s), data, 0) == log
  {
    hide Open;
    var m := MarksAt(s);
    if Open(s) != [] && Open(s)[0] != BodyK {
      var k := Open(s)[0];
      PendOne(log, m, k, data, 0);
      assert Slice(data, 0, 0) == [];
      assert log[|log| - 1].bytes + [] == log[|log| - 1].bytes;
    } else {
      PendNone(log, data, 0);
    }
  }

  /** All open fields are reported at the end of a buffer; at most one is. */
  function FlushAll(log: seq<Event>, marks: Marks, data: seq<Byte>, p: nat): seq<Event> {
    Flush(Flush(Flush(Flush(Flush(log, marks, FieldK, data, p), marks, ValueK, data, p), marks, UrlK, data, p),
      marks, BodyK, data, p), marks, StatusK, data, p)
  }

  lemma Leftover(s: State, log: seq<Event>, marks: Marks, data: seq<Byte>, p: nat)
    requires MarksOk(s, marks, p)
    ensures Join(FlushAll(log, marks, data, p)) == Pend(Join(log), marks, data, p)
    ensures Resumable(s, Join(FlushAll(log, marks, data, p)))
  {
    hide Open, Slice, Join;
    if marks == NOMARKS {
      assert FlushAll(log, marks, data, p) == log;
      PendNone(Join(log), data, p);
    } else {
      var k := Open(s)[0];
      LeftoverOne(log, marks, k, data, p);
    }
  }

  lemma LeftoverOne(log: seq<Event>, marks: Marks, k: Kind, data: seq<Byte>, p: nat)
    requires Only(marks, k, p)
    ensures Join(FlushAll(log, marks, data, p)) == Pend(Join(log), marks, data, p)
    ensures var j := Join(FlushAll(log, marks, data, p)); j != [] && j[|j| - 1].Data? && j[|j| - 1].k == k
  {
    hide Slice, Join, Pend;
    var d := Data(k, Slice(data, Get(marks, k), p));
    assert FlushAll(log, marks, data, p) == log + [d];
    JoinMore(log, d);
    PendOne(Join(log), marks, k, data, p);
  }

  /** The marks after a reaction, whatever was counted. */
  lemma HandledMarks(cfg: Config, f: Fields, b: Byte, marks: Marks, log: seq<Event>, data: seq<Byte>, p: nat)
    requires p < |data| && data[p] == b && MarksOk(f.state, marks, p) && !React(cfg, f, b).v.Fail?
    ensures var r := React(cfg, f, b);
            && MarksOk(r.f.state, Marked(marks, r.act, p), p) && MarksOk(r.f.state, Marked(marks, r.act, p), p + 1)
            && (r.v.Leave? ==> Open(r.f.state) == [])
  {
    hide React, Open;
    var r := React(cfg, f, b);
    ReactShaped(cfg, f, b);
    ActReport(log, marks, f.state, r.act, r.f.state, r.v, data, p);
    MarksLater(r.f.state, Marked(marks, r.act, p), p);
  }

  // ----- the loops over header bytes -----

  lemma RunFirst(cfg: Config, goal: Outcome, f: Fields, nr: nat, start: nat, log: seq<Event>, marks: Marks, data: seq<Byte>)
    requires start < |data| && nr <= cfg.maxHeaderSize
    requires On(cfg, goal, Abs(f, nr, log, marks, data, start), data, start)
    ensures InRun(cfg, goal, f, nr, start, log, marks, data, start)
  {
  }

  /** The run reached the end of the buffer, and `n` is the count now. */
  lemma RunEnd(cfg: Config, goal: Outcome, f: Fields, nr: nat, start: nat, log: seq<Event>, marks: Marks, data: seq<Byte>, n: nat)
    requires InRun(cfg, goal, f, nr, start, log, marks, data, |data|) && nr + |data| <= 0x1_0000_0000
    requires n == (nr + (|data| - 1 - start) % 0x1_0000_0000) % 0x1_0000_0000
    ensures n <= cfg.maxHeaderSize ==> At(cfg, goal, Abs(f, n, log, marks, data, |data|), data, |data|)
    ensures n > cfg.maxHeaderSize ==> goal == Failed
  {
    NoWrap(nr, |data| - 1 - start);
    hide At, Abs;
  }

  /** A count below 2^32 does not wrap. */
  lemma NoWrap(nr: nat, k: nat)
    requires nr + k < 0x1_0000_0000
    ensures (nr + k % 0x1_0000_0000) % 0x1_0000_0000 == nr + k
  {
  }

  /** The run stopped at byte `p`, and `n` is the count now. */
  lemma RunStop(cfg: Config, goal: Outcome, f: Fields, nr: nat, start: nat, log: seq<Event>, marks: Marks, data: seq<Byte>, p: nat, n: nat)
    requires p < |data| && InRun(cfg, goal, f, nr, start, log, marks, data, p) && nr + |data| <= 0x1_0000_0000
    requires n == (nr + (p - start) % 0x1_0000_0000) % 0x1_0000_0000
    ensures n <= cfg.maxHeaderSize ==> On(cfg, goal, Abs(f, n, log, marks, data, p), data, p)
    ensures n > cfg.maxHeaderSize ==> goal == Failed
  {
    assert start <= p;
    hide InRun, On, Abs;
    NoWrap(nr, p - start);
    Stopped(cfg, goal, f, nr, start, log, marks, data, p);
  }

  lemma Stopped(cfg: Config, goal: Outcome, f: Fields, nr: nat, start: nat, log: seq<Event>, marks: Marks, data: seq<Byte>, p: nat)
    requires p < |data| && InRun(cfg, goal, f, nr, start, log, marks, data, p)
    ensures var n := nr + (p - start);
            && (n <= cfg.maxHeaderSize ==> On(cfg, goal, Abs(f, n, log, marks, data, p), data, p))
            && (n > cfg.maxHeaderSize ==> goal == Failed)
  {
    hide On, Abs;
  }

  /** A character of a header name. */
  lemma NameReact(cfg: Config, f: Fields, b: Byte)
    requires f.state.HeaderField? && Token(b) != 0
    ensures React(cfg, f, b) == Reaction(NextField(f, b, Token(b)), Extend(FieldK), false, Next)
    ensures NextField(f, b, Token(b)).state.HeaderField?
    ensures f.hs.General? ==> NextField(f, b, Token(b)) == f
  {
    hide Token, Matching;
  }

  lemma NameStep(cfg: Config, goal: Outcome, f: Fields, nr: nat, start: nat, log: seq<Event>, marks: Marks, data: seq<Byte>, p: nat)
    requires InRun(cfg, goal, f, nr, start, log, marks, data, p) && p < |data| && MarksOk(f.state, marks, p)
    requires f.state.HeaderField? && Token(data[p]) != 0
    ensures InRun(cfg, goal, NextField(f, data[p], Token(data[p])), nr, start, log, marks, data, p + 1)
    ensures f.hs.General? ==> NextField(f, data[p], Token(data[p])) == f
  {
    NameReact(cfg, f, data[p]);
    hide InRun, MarksOk, React, NextField, Token;
    assert ParsingHeader(HeaderField);
    RunStep(cfg, goal, f, nr, start, log, marks, data, p, FieldK);
  }

  /** A byte of a header value that is not its end. */
  predicate ValueByte(cfg: Config, b: Byte) {
    b != CR && b != LF && (cfg.lenient || IsHeaderChar(b))
  }

  lemma ValueReact(cfg: Config, f: Fields, b: Byte)
    requires f.state.HeaderValue? && ValueByte(cfg, b)
    ensures NextValue(f, b).Good? ==>
              React(cfg, f, b) == Reaction(NextValue(f, b).f, Extend(ValueK), false, Next) && NextValue(f, b).f.state.HeaderValue?
    ensures NextValue(f, b).BadLength? ==> React(cfg, f, b).v.Fail?
    ensures f.hs.General? ==> NextValue(f, b) == Good(f)
  {
    NextValueState(f, b);
    assert f.hs.General? ==> NextValue(f, b) == Good(f);
    hide IsHeaderChar, NextValue;
  }

  lemma ValueStep(cfg: Config, goal: Outcome, f: Fields, nr: nat, start: nat, log: seq<Event>, marks: Marks, data: seq<Byte>, p: nat)
    requires InRun(cfg, goal, f, nr, start, log, marks, data, p) && p < |data| && MarksOk(f.state, marks, p)
    requires f.state.HeaderValue? && ValueByte(cfg, data[p]) && NextValue(f, data[p]).Good?
    ensures InRun(cfg, goal, NextValue(f, data[p]).f, nr, start, log, marks, data, p + 1)
  {
    ValueReact(cfg, f, data[p]);
    hide InRun, MarksOk, React, NextValue, ValueByte;
    assert ParsingHeader(HeaderValue);
    RunStep(cfg, goal, f, nr, start, log, marks, data, p, ValueK);
  }

  /** A byte that the fold rejects. */
  lemma RunFails(cfg: Config, goal: Outcome, f: Fields, nr: nat, start: nat, log: seq<Event>, marks: Marks, data: seq<Byte>, p: nat)
    requires InRun(cfg, goal, f, nr, start, log, marks, data, p) && p < |data| && React(cfg, f, data[p]).v.Fail?
    ensures goal == Failed
  {
    hide React, On;
    if goal != Failed {
      Settled(cfg, goal, Abs(f, nr + (p - start), log, marks, data, p), data, p);
    }
  }

  /** Body bytes are not counted. */
  lemma Uncounted(cfg: Config, goal: Outcome, m: Progress, data: seq<Byte>, p: nat)
    requires On(cfg, goal, m, data, p) && !ParsingHeader(m.f.state)
    ensures At(cfg, goal, m, data, p)
  {
    hide ParsingHeader, Settle;
    assert data[p..][1..] == data[p + 1..];
  }

  /** Reading on to the end of the buffer within a body. */
  lemma BodyRest(cfg: Config, goal: Outcome, f: Fields, nread: nat, log: seq<Event>, marks: Marks, data: seq<Byte>, p: nat)
    requires InData(f.state) && p < |data| && (!f.state.BodyIdentityEof? ==> |data| - p < f.contentLength)
    requires On(cfg, goal, Abs(f, nread, log, marks, data, p), data, p) && MarksOk(f.state, marks, p)
    ensures At(cfg, goal, Abs(Less(f, |data| - p), nread, log, SetMark(marks, BodyK, p), data, |data|), data, |data|)
    ensures MarksOk(f.state, SetMark(marks, BodyK, p), |data|)
  {
    assert !ParsingHeader(f.state);
    hide On, At, MarksOk, ParsingHeader, InData;
    Uncounted(cfg, goal, Abs(f, nread, log, marks, data, p), data, p);
    BodyRun(cfg, goal, f, nread, log, marks, data, p, |data|);
  }

  /** Reading up to the last byte of a body. */
  lemma BodyLast(cfg: Config, goal: Outcome, f: Fields, nread: nat, log: seq<Event>, marks: Marks, data: seq<Byte>, p: nat, q: nat)
    requires (f.state.BodyIdentity? || f.state.ChunkData?) && p <= q < |data| && q - p + 1 == f.contentLength
    requires On(cfg, goal, Abs(f, nread, log, marks, data, p), data, p) && MarksOk(f.state, marks, p)
    ensures var m, g := SetMark(marks, BodyK, p), f.(contentLength := 0);
            && (f.state.ChunkData? ==> At(cfg, goal, Abs(g.(state := ChunkDataAlmostDone), nread, log, m, data, q + 1), data, q + 1))
            && (f.state.ChunkData? ==> MarksOk(ChunkDataAlmostDone, m, q + 1))
            && (f.state.BodyIdentity? ==>
                  On(cfg, goal, Abs(g.(state := MessageDone), nread, Flush(log, m, BodyK, data, q + 1), Put(m, BodyK, -1), data, q), data, q))
            && (f.state.BodyIdentity? ==> MarksOk(MessageDone, Put(m, BodyK, -1), q))
  {
    assert !ParsingHeader(f.state) && InData(f.state);
    hide On, At, MarksOk, ParsingHeader, InData, Abs, Flush;
    Uncounted(cfg, goal, Abs(f, nread, log, marks, data, p), data, p) by { AbsFields(f, nread, log, marks, data, p); }
    BodyRun(cfg, goal, f, nread, log, marks, data, p, q);
    var m := if p < q then SetMark(marks, BodyK, p) else marks;
    var g := Less(f, q - p);
    AbsCounted(cfg, goal, g, nread, log, m, data, q);
    assert SetMark(m, BodyK, q) == SetMark(marks, BodyK, p);
    assert g.(contentLength := 0) == f.(contentLength := 0) && g.contentLength == 1 && g.state == f.state;
    hide SetMark, Less;
    LastOne(cfg, goal, g, nread, log, m, data, q);
  }

  lemma LastOne(cfg: Config, goal: Outcome, f: Fields, nread: nat, log: seq<Event>, marks: Marks, data: seq<Byte>, q: nat)
    requires (f.state.BodyIdentity? || f.state.ChunkData?) && q < |data| && f.contentLength == 1
    requires On(cfg, goal, Abs(f, nread, log, marks, data, q), data, q) && MarksOk(f.state, marks, q)
    ensures var m, g := SetMark(marks, BodyK, q), f.(contentLength := 0);
            && (f.state.ChunkData? ==> At(cfg, goal, Abs(g.(state := ChunkDataAlmostDone), nread, log, m, data, q + 1), data, q + 1))
            && (f.state.ChunkData? ==> MarksOk(ChunkDataAlmostDone, m, q + 1))
            && (f.state.BodyIdentity? ==>
                  On(cfg, goal, Abs(g.(state := MessageDone), nread, Flush(log, m, BodyK, data, q + 1), Put(m, BodyK, -1), data, q), data, q))
            && (f.state.BodyIdentity? ==> MarksOk(MessageDone, Put(m, BodyK, -1), q))
  {
    hide On, At, MarksOk, Abs, Flush, SetMark, React, Put;
    LastReact(cfg, f, data[q]);
    Single(cfg, goal, f, nread, log, marks, data, q);
  }

  lemma AbsFields(f: Fields, nread: nat, log: seq<Event>, marks: Marks, data: seq<Byte>, p: nat)
    ensures Abs(f, nread, log, marks, data, p).f == f
  {
  }

  lemma LastReact(cfg: Config, f: Fields, b: Byte)
    requires f.contentLength == 1
    ensures f.state.BodyIdentity? ==>
              React(cfg, f, b) == Reaction(f.(contentLength := 0, state := MessageDone), Last(BodyK), false, Again)
    ensures f.state.ChunkData? ==>
              React(cfg, f, b) == Reaction(f.(contentLength := 0, state := ChunkDataAlmostDone), Begin(BodyK), false, Next)
  {
  }

  lemma BodyMarks(s: State, marks: Marks, p: nat, q: nat)
    requires InData(s) && MarksOk(s, marks, p) && p <= q
    ensures MarksOk(s, SetMark(marks, BodyK, p), q)
  {
  }

  lemma BodyMarksLast(s: State, marks: Marks, p: nat, q: nat)
    requires InData(s) && MarksOk(s, marks, p) && p <= q
    ensures MarksOk(ChunkDataAlmostDone, SetMark(marks, BodyK, p), q + 1)
    ensures MarksOk(MessageDone, Put(SetMark(marks, BodyK, p), BodyK, -1), q)
  {
  }

  lemma AtStart(cfg: Config, goal: Outcome, m: Progress, data: seq<Byte>)
    requires goal == Feed(cfg, m, data)
    ensures At(cfg, goal, m, data, 0)
  {
    hide Feed;
    assert data[0..] == data;
  }

  lemma AtEnd(cfg: Config, goal: Outcome, m: Progress, data: seq<Byte>)
    requires At(cfg, goal, m, data, |data|)
    ensures goal == Going(m)
  {
  }

  lemma ClosedResumes(s: State, log: seq<Event>)
    requires Open(s) == []
    ensures Resumable(s, log)
  {
  }
}
