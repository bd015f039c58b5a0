/**
 Line information of a function: one signed byte for each instruction, and absolute entries
 where a byte is not enough or too many instructions have gone by.
 */
module LineInfo {

  const LIMLINEDIFF := 0x80
  const ABSLINEINFO: LineDif := -0x80
  const MAXIWTHABS := 128

  type LineDif = d: int | -128 <= d <= 127
  type Byte = b: nat | b < 256

  datatype AbsLineInfo = AbsLineInfo(pc: nat, line: nat)

  /** A finished function; without debug information `lineinfo` is empty. */
  datatype Proto = Proto(linedefined: nat, lineinfo: seq<LineDif>, abslineinfo: seq<AbsLineInfo>)

  /** The line before that of instruction `pc`. */
  function LineBefore(f: Proto, lines: seq<nat>, pc: nat): nat
    requires pc <= |lines|
  {
    if pc == 0 then f.linedefined else lines[pc - 1]
  }

  /** The place of the last absolute entry, or the start. */
  function LastAbs(f: Proto): nat {
    if f.abslineinfo == [] then 0 else f.abslineinfo[|f.abslineinfo| - 1].pc
  }

  /** Each byte tells its line from the one before, or stands for an absolute entry. */
  ghost predicate Bytes(f: Proto, lines: seq<nat>) {
    && |f.lineinfo| == |lines|
    && forall pc :: 0 <= pc < |lines| ==>
         if f.lineinfo[pc] == ABSLINEINFO then exists k :: AbsAt(f, k, pc)
         else lines[pc] == LineBefore(f, lines, pc) + f.lineinfo[pc]
  }

  ghost predicate AbsAt(f: Proto, k: int, pc: nat) {
    0 <= k < |f.abslineinfo| && f.abslineinfo[k].pc == pc
  }

  ghost predicate AbsEntries(f: Proto, lines: seq<nat>) {
    && |f.lineinfo| == |lines|
    && forall k :: 0 <= k < |f.abslineinfo| ==>
         && f.abslineinfo[k].pc < |lines|
         && f.lineinfo[f.abslineinfo[k].pc] == ABSLINEINFO
         && f.abslineinfo[k].line == lines[f.abslineinfo[k].pc]
  }

  /** Absolute entries come in order, at most MAXIWTHABS instructions apart. */
  ghost predicate Spaced(f: Proto) {
    && (forall j, k :: 0 <= j < k < |f.abslineinfo| ==> f.abslineinfo[j].pc < f.abslineinfo[k].pc)
    && (forall k :: 0 <= k < |f.abslineinfo| ==> f.abslineinfo[k].pc <= MAXIWTHABS * (k + 1))
    && (forall k :: 0 < k < |f.abslineinfo| ==> f.abslineinfo[k].pc - f.abslineinfo[k - 1].pc <= MAXIWTHABS)
  }

  /** The function's line information stands for these lines. */
  ghost predicate Encodes(f: Proto, lines: seq<nat>) {
    && Bytes(f, lines) && AbsEntries(f, lines) && Spaced(f)
    && LastAbs(f) <= |lines| <= LastAbs(f) + MAXIWTHABS
  }

  class FuncState {
    const linedefined: nat
    var pc: nat                            // instructions so far
    var lineinfo: seq<LineDif>             // room for at least `pc` of them
    var abslineinfo: seq<AbsLineInfo>
    var nabslineinfo: nat
    var previousline: nat
    var iwthabs: Byte                      // instructions since the last absolute entry
    ghost var lines: seq<nat>

    ghost predicate Room()
      reads this
    {
      pc <= |lineinfo| && nabslineinfo <= |abslineinfo|
    }

    function AsProto(): Proto
      requires Room()
      reads this
    {
      Proto(linedefined, lineinfo[..pc], abslineinfo[..nabslineinfo])
    }

    ghost predicate Valid()
      reads this
    {
      Room() && |lines| == pc && Encodes(AsProto(), lines) && Tracks(AsProto(), lines, previousline, iwthabs)
    }

    constructor (linedefined: nat)
      ensures Valid() && lines == [] && this.linedefined == linedefined
    {
      this.linedefined := linedefined;
      pc, lineinfo, abslineinfo, nabslineinfo := 0, [], [], 0;
      previousline, iwthabs := linedefined, 0;
      lines := [];
    }

    /** Saves the line of the last instruction, whose place in `lineinfo` is free. */
    method SaveLineInfo(line: nat)
      requires pc > 0 && pc - 1 <= |lineinfo| && nabslineinfo <= |abslineinfo| && |lines| == pc - 1
      requires var f := Proto(linedefined, lineinfo[..pc - 1], abslineinfo[..nabslineinfo]);
               Encodes(f, lines) && (Tracks(f, lines, previousline, iwthabs) || iwthabs == MAXIWTHABS + 1)
      modifies this`lineinfo, this`abslineinfo, this`nabslineinfo, this`previousline, this`iwthabs, this`lines
      ensures Valid() && lines == old(lines) + [line]
    {
      hide Encodes, Tracks;
      ghost var f := Proto(linedefined, lineinfo[..pc - 1], abslineinfo[..nabslineinfo]);
      ghost var was, k := lines, iwthabs;
      Ready(f, lines, previousline, iwthabs);
      var linedif: int := line - previousline;
      var last := pc - 1;
      var absolute := linedif >= LIMLINEDIFF || linedif <= -LIMLINEDIFF;
      if !absolute {
        absolute := iwthabs >= MAXIWTHABS;
        iwthabs := iwthabs + 1;
      }
      if absolute {
        abslineinfo := if nabslineinfo < |abslineinfo| then abslineinfo[nabslineinfo := AbsLineInfo(last, line)]
                       else abslineinfo + [AbsLineInfo(last, line)];
        nabslineinfo := nabslineinfo + 1;
        linedif := ABSLINEINFO;
        iwthabs := 1;
        AddAbsolute(f, was, line);
        assert abslineinfo[..nabslineinfo] == f.abslineinfo + [AbsLineInfo(last, line)];
      } else {
        AddRelative(f, was, line, linedif, previousline, k);
      }
      lineinfo := if last < |lineinfo| then lineinfo[last := linedif] else lineinfo + [linedif];
      assert lineinfo[..pc] == f.lineinfo + [linedif];
      previousline := line;
      lines := lines + [line];
    }

    /** Takes back the line of the last instruction. After an absolute line the next one
        will be absolute too. */
    method RemoveLastLineInfo()
      requires Valid() && pc > 0
      modifies this`nabslineinfo, this`previousline, this`iwthabs, this`lines
      ensures lines == old(lines)[..pc - 1] && nabslineinfo <= |abslineinfo|
      ensures var f := Proto(linedefined, lineinfo[..pc - 1], abslineinfo[..nabslineinfo]);
              Encodes(f, lines) && (Tracks(f, lines, previousline, iwthabs) || iwthabs == MAXIWTHABS + 1)
    {
      hide Encodes;
      ghost var f := AsProto();
      var last := pc - 1;
      LastByte(f, lines);
      assert f.lineinfo[..last] == lineinfo[..last];
      if lineinfo[last] != ABSLINEINFO {
        previousline := previousline - lineinfo[last];
        iwthabs := iwthabs - 1;
      } else {
        assert abslineinfo[nabslineinfo - 1].pc == last;
        nabslineinfo := nabslineinfo - 1;
        assert f.abslineinfo[..nabslineinfo] == abslineinfo[..nabslineinfo];
        iwthabs := MAXIWTHABS + 1;
      }
      lines := lines[..last];
    }

    /** Emits an instruction for the current line. */
    method Code(line: nat)
      requires pc <= |lineinfo| && nabslineinfo <= |abslineinfo| && |lines| == pc
      requires var f := Proto(linedefined, lineinfo[..pc], abslineinfo[..nabslineinfo]);
               Encodes(f, lines) && (Tracks(f, lines, previousline, iwthabs) || iwthabs == MAXIWTHABS + 1)
      modifies this
      ensures Valid() && lines == old(lines) + [line]
    {
      hide Encodes;
      pc := pc + 1;
      SaveLineInfo(line);
    }

    /** Changes the line of the last instruction. */
    method FixLine(line: nat)
      requires Valid() && pc > 0
      modifies this
      ensures Valid() && lines == old(lines)[old(pc) - 1 := line] && pc == old(pc)
    {
      hide Encodes;
      RemoveLastLineInfo();
      SaveLineInfo(line);
    }

    /** Replaces the last instruction by one for the current line. */
    method ReplaceLast(line: nat)
      requires Valid() && pc > 0
      modifies this
      ensures Valid() && lines == old(lines)[old(pc) - 1 := line] && pc == old(pc)
    {
      hide Encodes;
      RemoveLastLineInfo();
      pc := pc - 1;
      Code(line);
    }

    /** The finished function, cut to size: its line information stands for the lines. */
    method Close() returns (f: Proto)
      requires Valid()
      ensures Encodes(f, lines) && f.linedefined == linedefined
    {
      f := AsProto();
    }
  }

  /** The writer knows the last line and the distance from the last absolute entry. */
  ghost predicate Tracks(f: Proto, lines: seq<nat>, previousline: nat, iwthabs: nat) {
    && previousline == LineBefore(f, lines, |lines|)
    && LastAbs(f) <= |lines| && iwthabs == |lines| - LastAbs(f) && iwthabs <= MAXIWTHABS
  }

  lemma AddRelative(f: Proto, lines: seq<nat>, line: nat, dif: LineDif, previousline: nat, k: nat)
    requires Encodes(f, lines) && dif != ABSLINEINFO && line == previousline + dif
    requires Tracks(f, lines, previousline, k) && k < MAXIWTHABS
    ensures Encodes(f.(lineinfo := f.lineinfo + [dif]), lines + [line])
    ensures Tracks(f.(lineinfo := f.lineinfo + [dif]), lines + [line], line, k + 1)
  {
    hide Bytes, AbsEntries, Spaced;
    var g := f.(lineinfo := f.lineinfo + [dif]);
    MoreBytes(f, g, lines, line, dif);
    MoreEntries(f, g, lines, line, dif);
    SameSpaces(f, g);
  }

  lemma AddAbsolute(f: Proto, lines: seq<nat>, line: nat)
    requires Encodes(f, lines)
    ensures Encodes(f.(lineinfo := f.lineinfo + [ABSLINEINFO], abslineinfo := f.abslineinfo + [AbsLineInfo(|lines|, line)]),
                    lines + [line])
    ensures Tracks(f.(lineinfo := f.lineinfo + [ABSLINEINFO], abslineinfo := f.abslineinfo + [AbsLineInfo(|lines|, line)]),
                   lines + [line], line, 1)
  {
    hide Bytes, AbsEntries, Spaced;
    var g := f.(lineinfo := f.lineinfo + [ABSLINEINFO], abslineinfo := f.abslineinfo + [AbsLineInfo(|lines|, line)]);
    assert AbsAt(g, |f.abslineinfo|, |lines|);
    MoreBytes(f, g, lines, line, ABSLINEINFO);
    MoreEntries(f, g, lines, line, ABSLINEINFO);
    MoreSpaces(f, g, lines, line);
  }

  lemma MoreBytes(f: Proto, g: Proto, lines: seq<nat>, line: nat, dif: LineDif)
    requires Bytes(f, lines) && g.linedefined == f.linedefined && g.lineinfo == f.lineinfo + [dif]
    requires |f.abslineinfo| <= |g.abslineinfo| && g.abslineinfo[..|f.abslineinfo|] == f.abslineinfo
    requires if dif == ABSLINEINFO then AbsAt(g, |f.abslineinfo|, |lines|) else line == LineBefore(f, lines, |lines|) + dif
    ensures Bytes(g, lines + [line])
  {
    var now := lines + [line];
    forall pc | 0 <= pc < |lines|
      ensures if g.lineinfo[pc] == ABSLINEINFO then exists k :: AbsAt(g, k, pc)
              else now[pc] == LineBefore(g, now, pc) + g.lineinfo[pc]
    {
      OldByte(f, g, lines, now, pc);
    }
  }

  lemma OldByte(f: Proto, g: Proto, lines: seq<nat>, now: seq<nat>, pc: nat)
    requires Bytes(f, lines) && g.linedefined == f.linedefined && pc < |lines| && pc < |now| && pc < |g.lineinfo|
    requires g.lineinfo[pc] == f.lineinfo[pc] && now[pc] == lines[pc] && (pc > 0 ==> now[pc - 1] == lines[pc - 1])
    requires forall k :: 0 <= k < |f.abslineinfo| && f.abslineinfo[k].pc == pc ==>
               k < |g.abslineinfo| && g.abslineinfo[k] == f.abslineinfo[k]
    ensures if g.lineinfo[pc] == ABSLINEINFO then exists k :: AbsAt(g, k, pc)
            else now[pc] == LineBefore(g, now, pc) + g.lineinfo[pc]
  {
    if g.lineinfo[pc] == ABSLINEINFO {
      var k :| AbsAt(f, k, pc);
      assert AbsAt(g, k, pc);
    }
  }

  lemma MoreEntries(f: Proto, g: Proto, lines: seq<nat>, line: nat, dif: LineDif)
    requires AbsEntries(f, lines) && g.lineinfo == f.lineinfo + [dif]
    requires g.abslineinfo == if dif == ABSLINEINFO then f.abslineinfo + [AbsLineInfo(|lines|, line)] else f.abslineinfo
    ensures AbsEntries(g, lines + [line])
  {
  }

  lemma SameSpaces(f: Proto, g: Proto)
    requires Spaced(f) && g.abslineinfo == f.abslineinfo
    ensures Spaced(g)
  {
  }

  lemma MoreSpaces(f: Proto, g: Proto, lines: seq<nat>, line: nat)
    requires Encodes(f, lines) && g.abslineinfo == f.abslineinfo + [AbsLineInfo(|lines|, line)]
    ensures Spaced(g)
  {
    hide Bytes;
    LastIsLargest(f, lines);
  }

  lemma Ready(f: Proto, lines: seq<nat>, previousline: nat, k: nat)
    requires Encodes(f, lines) && (Tracks(f, lines, previousline, k) || k == MAXIWTHABS + 1)
    ensures k <= MAXIWTHABS + 1 && |f.lineinfo| == |lines|
  {
  }

  lemma LastIsLargest(f: Proto, lines: seq<nat>)
    requires Encodes(f, lines)
    ensures forall k :: 0 <= k < |f.abslineinfo| ==> f.abslineinfo[k].pc <= LastAbs(f) < |lines|
    ensures LastAbs(f) <= MAXIWTHABS * |f.abslineinfo|
  {
  }

  /** What is left when the last line goes. */
  lemma LastByte(f: Proto, lines: seq<nat>)
    requires Encodes(f, lines) && lines != []
    ensures f.lineinfo != []
    ensures var n := |lines| - 1; var g := f.(lineinfo := f.lineinfo[..n]);
            f.lineinfo[n] != ABSLINEINFO ==>
              Encodes(g, lines[..n]) && LastAbs(f) <= n && lines[n] == LineBefore(f, lines[..n], n) + f.lineinfo[n]
    ensures var n := |lines| - 1;
            f.lineinfo[n] == ABSLINEINFO ==>
              && f.abslineinfo != [] && LastAbs(f) == n
              && Encodes(f.(lineinfo := f.lineinfo[..n], abslineinfo := f.abslineinfo[..|f.abslineinfo| - 1]), lines[..n])
  {
    hide Spaced;
    var n := |lines| - 1;
    if f.lineinfo[n] != ABSLINEINFO {
      DropRelative(f, lines);
    } else {
      DropAbsolute(f, lines);
    }
  }

  lemma DropRelative(f: Proto, lines: seq<nat>)
    requires Encodes(f, lines) && lines != [] && f.lineinfo[|lines| - 1] != ABSLINEINFO
    ensures Encodes(f.(lineinfo := f.lineinfo[..|lines| - 1]), lines[..|lines| - 1])
    ensures LastAbs(f) <= |lines| - 1
  {
    hide Bytes, Spaced;
    var n := |lines| - 1;
    var g := f.(lineinfo := f.lineinfo[..n]);
    forall k | 0 <= k < |f.abslineinfo| ensures f.abslineinfo[k].pc < n {
      assert f.lineinfo[f.abslineinfo[k].pc] == ABSLINEINFO;
    }
    FewerBytes(f, g, lines);
    SameSpaces(f, g);
  }

  lemma FewerBytes(f: Proto, g: Proto, lines: seq<nat>)
    requires Bytes(f, lines) && lines != [] && g.linedefined == f.linedefined && g.lineinfo == f.lineinfo[..|lines| - 1]
    requires forall k :: 0 <= k < |f.abslineinfo| && f.abslineinfo[k].pc < |lines| - 1 ==>
               k < |g.abslineinfo| && g.abslineinfo[k] == f.abslineinfo[k]
    ensures Bytes(g, lines[..|lines| - 1])
  {
    var now := lines[..|lines| - 1];
    forall pc | 0 <= pc < |now|
      ensures if g.lineinfo[pc] == ABSLINEINFO then exists k :: AbsAt(g, k, pc)
              else now[pc] == LineBefore(g, now, pc) + g.lineinfo[pc]
    {
      OldByte(f, g, lines, now, pc);
    }
  }

  lemma DropAbsolute(f: Proto, lines: seq<nat>)
    requires Encodes(f, lines) && lines != [] && f.lineinfo[|lines| - 1] == ABSLINEINFO
    ensures f.abslineinfo != [] && LastAbs(f) == |lines| - 1
    ensures Encodes(f.(lineinfo := f.lineinfo[..|lines| - 1], abslineinfo := f.abslineinfo[..|f.abslineinfo| - 1]),
                    lines[..|lines| - 1])
  {
    hide Spaced, Bytes;
    var n, m := |lines| - 1, |f.abslineinfo| - 1;
    LastAbsolute(f, lines);
    var g := f.(lineinfo := f.lineinfo[..n], abslineinfo := f.abslineinfo[..m]);
    FewerBytes(f, g, lines);
    FewerSpaces(f, g);
  }

  lemma LastAbsolute(f: Proto, lines: seq<nat>)
    requires Encodes(f, lines) && lines != [] && f.lineinfo[|lines| - 1] == ABSLINEINFO
    ensures f.abslineinfo != [] && f.abslineinfo[|f.abslineinfo| - 1].pc == |lines| - 1
    ensures forall k :: 0 <= k < |f.abslineinfo| - 1 ==> f.abslineinfo[k].pc < |lines| - 1
  {
    var last :| AbsAt(f, last, |lines| - 1);
    LastIsLargest(f, lines);
  }

  lemma FewerSpaces(f: Proto, g: Proto)
    requires Spaced(f) && f.abslineinfo != [] && g.abslineinfo == f.abslineinfo[..|f.abslineinfo| - 1]
    ensures Spaced(g) && LastAbs(f) - LastAbs(g) <= MAXIWTHABS
  {
  }

  // ---- readers ---------------------------------------------------------------------------

  /** The base line of an instruction: that of the last absolute entry not after it, found from
      the estimate `pc / MAXIWTHABS - 1`, or the line of the function's definition. */
  method GetBaseLine(f: Proto, pc: nat, ghost lines: seq<nat>) returns (baseline: nat, basepc: int)
    requires Encodes(f, lines) && pc < |lines|
    ensures -1 <= basepc <= pc
    ensures baseline == if basepc == -1 then f.linedefined else lines[basepc]
    ensures forall p :: basepc < p <= pc ==> f.lineinfo[p] != ABSLINEINFO
    ensures basepc >= 0 ==> f.lineinfo[basepc] == ABSLINEINFO
  {
    hide Bytes, AbsAt;
    if |f.abslineinfo| == 0 || pc < f.abslineinfo[0].pc {
      NoneBetween(f, lines, -1, pc);
      return f.linedefined, -1;
    }
    var i := pc / MAXIWTHABS - 1;
    Estimate(f, lines, pc);
    assert i < 0 || (i < |f.abslineinfo| && f.abslineinfo[i].pc <= pc);
    while i + 1 < |f.abslineinfo| && pc >= f.abslineinfo[i + 1].pc
      invariant -1 <= i < |f.abslineinfo| && (i >= 0 ==> f.abslineinfo[i].pc <= pc)
      decreases |f.abslineinfo| - i
    {
      i := i + 1;
    }
    NoneBetween(f, lines, i, pc);
    return f.abslineinfo[i].line, f.abslineinfo[i].pc;
  }

  /** The estimate of the reader is never past the right entry. */
  lemma Estimate(f: Proto, lines: seq<nat>, pc: nat)
    requires Encodes(f, lines) && pc < |lines|
    ensures var i := pc / MAXIWTHABS - 1; i < 0 || (i < |f.abslineinfo| && f.abslineinfo[i].pc <= pc)
  {
    hide Bytes, AbsEntries;
    var i := pc / MAXIWTHABS - 1;
    assert LastAbs(f) <= MAXIWTHABS * |f.abslineinfo|;
    assert MAXIWTHABS * (i + 1) <= pc;
  }

  lemma Apart(f: Proto, i: int, k: nat)
    requires Spaced(f) && -1 <= i < |f.abslineinfo| && k < |f.abslineinfo|
    ensures k <= i ==> f.abslineinfo[k].pc <= f.abslineinfo[i].pc
    ensures k > i ==> f.abslineinfo[k].pc >= f.abslineinfo[i + 1].pc
  {
  }

  lemma NoneBetween(f: Proto, lines: seq<nat>, i: int, pc: nat)
    requires Encodes(f, lines) && pc < |lines| && -1 <= i < |f.abslineinfo|
    requires i + 1 < |f.abslineinfo| ==> pc < f.abslineinfo[i + 1].pc
    ensures forall p :: (if i < 0 then -1 else f.abslineinfo[i].pc) < p <= pc ==> f.lineinfo[p] != ABSLINEINFO
  {
    forall p | (if i < 0 then -1 else f.abslineinfo[i].pc) < p <= pc ensures f.lineinfo[p] != ABSLINEINFO {
      forall k | 0 <= k < |f.abslineinfo| ensures !AbsAt(f, k, p) {
        Apart(f, i, k);
      }
    }
  }

  lemma Step(f: Proto, lines: seq<nat>, pc: nat)
    requires Encodes(f, lines) && pc < |lines|
    ensures |f.lineinfo| == |lines|
    ensures f.lineinfo[pc] != ABSLINEINFO ==> lines[pc] == LineBefore(f, lines, pc) + f.lineinfo[pc]
  {
    hide AbsAt, AbsEntries, Spaced;
  }

  lemma SameLength(f: Proto, lines: seq<nat>)
    requires Encodes(f, lines)
    ensures |f.lineinfo| == |lines|
  {
  }

  /** The line of an instruction: the recorded one. */
  method GetFuncLine(f: Proto, pc: nat, ghost lines: seq<nat>) returns (line: int)
    requires f.lineinfo == [] || (Encodes(f, lines) && pc < |lines|)
    ensures line == if f.lineinfo == [] then -1 else lines[pc]
  {
    hide Bytes, AbsEntries, Spaced;
    if |f.lineinfo| == 0 {
      return -1;
    }
    SameLength(f, lines);
    var baseline, basepc := GetBaseLine(f, pc, lines);
    line := baseline;
    while basepc < pc
      invariant -1 <= basepc <= pc && line == LineBefore(f, lines, basepc + 1)
      invariant forall p :: basepc < p <= pc ==> f.lineinfo[p] != ABSLINEINFO
    {
      basepc := basepc + 1;
      assert f.lineinfo[basepc] != ABSLINEINFO;
      Step(f, lines, basepc);
      line := line + f.lineinfo[basepc];
    }
  }

  /** Whether two instructions are on different lines; without line information they never are. */
  method ChangedLine(f: Proto, oldpc: nat, newpc: nat, ghost lines: seq<nat>) returns (changed: bool)
    requires oldpc < newpc && (f.lineinfo == [] || (Encodes(f, lines) && newpc < |lines|))
    ensures changed == (f.lineinfo != [] && lines[oldpc] != lines[newpc])
  {
    hide Bytes, AbsEntries, Spaced;
    if |f.lineinfo| == 0 {
      return false;
    }
    SameLength(f, lines);
    if newpc - oldpc < MAXIWTHABS / 2 {
      var delta: int := 0;
      var pc := oldpc;
      while true
        invariant oldpc <= pc < newpc && lines[pc] == lines[oldpc] + delta
        decreases newpc - pc
      {
        pc := pc + 1;
        var lineinfo := f.lineinfo[pc];
        if lineinfo == ABSLINEINFO {
          break;
        }
        Step(f, lines, pc);
        delta := delta + lineinfo;
        if pc == newpc {
          return delta != 0;
        }
      }
    }
    var oldline := GetFuncLine(f, oldpc, lines);
    var newline := GetFuncLine(f, newpc, lines);
    return oldline != newline;
  }
}
