/**
 Length arithmetic: the 64-bit accumulator for Content-Length and chunk sizes holds the true,
 unbounded value of what has been read, or the parser has stopped.
 */
module HttpLengths {
  import opened HttpTypes
  import opened HttpStep
  import opened HttpRun
  import opened HttpInvariant
  import opened HttpBlocks
  import opened HttpReach

  // The largest value the conservative overflow test lets through, for either base.
  const MAX_DECIMAL: nat := 18446744073709551609
  const MAX_HEX: nat := 18446744073709551599

  lemma AccumulateLimit(p: Parser, base: nat, d: nat)
    requires base == 10 || base == 16
    requires d < base && p.errno == OK
    ensures var q, v := Accumulate(p, base, d), p.contentLength * base + d;
            && (q.errno == OK <==> v <= if base == 10 then MAX_DECIMAL else MAX_HEX)
            && (q.errno == OK ==> q.contentLength == v < ULLONG_MAX)
  {
  }

  // ---------------------------------------------------------------- Content-Length

  predicate IsDecimal(s: Bytes) {
    forall i :: 0 <= i < |s| ==> IsNum(s[i]) || s[i] == ' '
  }

  // The decimal value of s, spaces skipped.
  function Decimal(s: Bytes): nat
    requires IsDecimal(s)
    decreases |s|
  {
    if s == [] then 0
    else
      var v, ch := Decimal(s[..|s| - 1]), s[|s| - 1];
      if ch == ' ' then v else v * 10 + DigitOf(ch)
  }

  // s is a length the parser accepts.
  predicate IsLength(s: Bytes) {
    s != [] && IsNum(s[0]) && IsDecimal(s) && Decimal(s) <= MAX_DECIMAL
  }

  // The parser c has read the length s.
  function WithLength(c: Config, s: Bytes): Parser
    requires IsDecimal(s)
  {
    c.p.(state := AtValue(HeaderValue), index := 0, contentLength := Decimal(s))
  }

  lemma FirstDigit(c: Config, ch: Byte, hc: Callback)
    requires Running(c) && c.p.state == AtValue(HeaderValueDiscardWs) && c.p.hstate == ContentLength
    requires ch != ' ' && ch != '\t' && ch != CR && ch != LF
    ensures var d := Advance(c, ch, hc);
            if IsNum(ch) then
              IsDecimal([ch]) && Reaches(c, [ch], hc, WithLength(c, [ch]), Push(c.log, Data(OnHeaderValue, [ch])))
            else d.p.errno != OK
  {
    hide StepEvents, Emit, EndField, InValue, Reaches;
    if IsNum(ch) {
      OneDigit(ch);
      ReachMark(c, ch, hc, OnHeaderValue);
    }
  }

  // What one more byte does to a length.
  lemma LengthNext(s: Bytes, ch: Byte)
    requires IsLength(s)
    ensures IsDecimal(s) && (IsDecimal(s + [ch]) <==> IsNum(ch) || ch == ' ')
    ensures ch == ' ' ==> Decimal(s + [ch]) == Decimal(s) && IsLength(s + [ch])
    ensures IsNum(ch) ==>
              && Decimal(s + [ch]) == Decimal(s) * 10 + DigitOf(ch)
              && (IsLength(s + [ch]) <==> Decimal(s) * 10 + DigitOf(ch) <= MAX_DECIMAL)
    ensures IsLength(s + [ch]) ==> IsNum(ch) || ch == ' '
  {
    var t := s + [ch];
    assert t[..|s|] == s && t[|s|] == ch;
    assert forall i :: 0 <= i < |s| ==> t[i] == s[i];
  }

  lemma NextDigit(b: Config, s: Bytes, c: Config, ch: Byte, hc: Callback)
    requires IsLength(s) && Running(c) && b.p.hstate == ContentLength
    requires c.p == WithLength(b, s) && c.log == Push(b.log, Data(OnHeaderValue, s)) && IsValueText(ch)
    ensures var t := s + [ch];
            if IsLength(t) then Reaches(c, [ch], hc, WithLength(b, t), Push(b.log, Data(OnHeaderValue, t)))
            else Advance(c, ch, hc).p.errno != OK
  {
    hide StepEvents, Emit, EndField, Accumulate, Lower, StartValue, Reaches, IsLength, IsDecimal, Decimal;
    LengthNext(s, ch);
    PushSplit(b.log, OnHeaderValue, s, [ch]);
    if IsNum(ch) {
      AccumulateLimit(c.p, 10, DigitOf(ch));
    }
    if IsLength(s + [ch]) {
      ReachData(c, ch, hc, OnHeaderValue);
    }
  }

  lemma PrefixLength(s: Bytes, i: nat)
    requires 1 <= i <= |s| && IsLength(s)
    ensures IsLength(s[..i])
    decreases |s|
  {
    if i < |s| {
      var t := s[..|s| - 1];
      assert Decimal(t) <= Decimal(s);
      PrefixLength(t, i);
      assert t[..i] == s[..i];
    } else {
      assert s[..i] == s;
    }
  }

  // A Content-Length value is accepted exactly if it is digits, with spaces after the first
  // of them skipped, and does not exceed the limit; content_length is then its decimal value,
  // which is never the one that stands for an absent length, and the value is reported.
  lemma {:induction false} ContentLengthRead(c: Config, s: Bytes, hc: Callback)
    requires Running(c) && c.p.state == AtValue(HeaderValueDiscardWs) && c.p.hstate == ContentLength
    requires s != [] && s[0] != ' ' && s[0] != '\t' && forall i :: 0 <= i < |s| ==> IsValueText(s[i])
    ensures var d := Run(c, s, hc);
            && (d.p.errno == OK <==> IsLength(s))
            && (IsLength(s) ==> Reaches(c, s, hc, WithLength(c, s), Push(c.log, Data(OnHeaderValue, s))))
    decreases |s|
  {
    hide Advance, Run, Decimal, IsLength, IsDecimal, Push;
    var t, ch := s[..|s| - 1], s[|s| - 1];
    assert s == t + [ch];
    if t == [] {
      assert s == [ch];
      FirstDigit(c, ch, hc);
      RunOne(c, ch, hc);
      OneDigit(ch);
    } else {
      RunConcat(c, t, [ch], hc);
      ContentLengthRead(c, t, hc);
      if IsLength(t) {
        NextDigit(c, t, Run(c, t, hc), ch, hc);
        RunOne(Run(c, t, hc), ch, hc);
      } else {
        RunStopped(Run(c, t, hc), [ch], hc);
        if IsLength(s) {
          PrefixLength(s, |t|);
        }
      }
    }
  }

  lemma OneDigit(ch: Byte)
    ensures IsNum(ch) ==> IsDecimal([ch]) && Decimal([ch]) == DigitOf(ch)
    ensures IsLength([ch]) <==> IsNum(ch)
  {
    assert [ch][..0] == [];
  }

  // ---------------------------------------------------------------- chunk sizes

  predicate IsHexRead(s: Bytes) {
    forall i :: 0 <= i < |s| ==> Unhex(s[i]) != -1
  }

  // The value of s in base 16, by the unhex table.
  function HexValue(s: Bytes): nat
    requires IsHexRead(s)
    decreases |s|
  {
    if s == [] then 0 else HexValue(s[..|s| - 1]) * 16 + Unhex(s[|s| - 1])
  }

  predicate IsSize(s: Bytes) {
    s != [] && IsHexRead(s) && HexValue(s) <= MAX_HEX
  }

  // The parser c has read the size s.
  function WithSize(c: Config, s: Bytes): Parser
    requires IsHexRead(s)
  {
    c.p.(state := AtChunkSize(ChunkSize), contentLength := HexValue(s))
  }

  lemma OneHex(ch: Byte)
    requires Unhex(ch) != -1
    ensures IsHexRead([ch]) && HexValue([ch]) == Unhex(ch) <= 15
  {
    assert [ch][..0] == [];
  }

  lemma FirstHex(c: Config, ch: Byte, hc: Callback)
    requires Running(c) && c.p.state == AtChunkSize(ChunkSizeStart)
    ensures var d := Advance(c, ch, hc);
            if Unhex(ch) != -1 then IsHexRead([ch]) && Reaches(c, [ch], hc, WithSize(c, [ch]), c.log)
            else d.p.errno != OK
  {
    hide StepEvents, Emit, HexValue, Reaches, Unhex;
    UnhexRange(ch);
    if Unhex(ch) != -1 {
      OneHex(ch);
      ReachQuiet(c, ch, hc);
    }
  }

  lemma NextHex(b: Config, s: Bytes, c: Config, ch: Byte, hc: Callback)
    requires IsSize(s) && Running(c) && c.p == WithSize(b, s) && ch != CR && ch != ' ' && ch != ';'
    ensures if IsSize(s + [ch]) then Reaches(c, [ch], hc, WithSize(b, s + [ch]), c.log)
            else Advance(c, ch, hc).p.errno != OK
  {
    hide StepEvents, Emit, Accumulate, Unhex, Reaches;
    assert (s + [ch])[..|s|] == s && (s + [ch])[|s|] == ch;
    UnhexRange(ch);
    if Unhex(ch) != -1 {
      AccumulateLimit(c.p, 16, Unhex(ch));
      if IsSize(s + [ch]) {
        ReachQuiet(c, ch, hc);
      }
    }
  }

  lemma UnhexRange(ch: Byte)
    ensures -1 <= Unhex(ch) <= 15
  {
  }

  lemma PrefixSize(s: Bytes, i: nat)
    requires 1 <= i <= |s| && IsSize(s)
    ensures IsSize(s[..i])
    decreases |s|
  {
    if i < |s| {
      var t := s[..|s| - 1];
      assert HexValue(t) <= HexValue(s);
      PrefixSize(t, i);
      assert t[..i] == s[..i];
    } else {
      assert s[..i] == s;
    }
  }

  // A chunk size is accepted exactly if every byte of it is in the unhex table and its value
  // does not exceed the limit; content_length is then that value.
  lemma {:induction false} ChunkSizeRead(c: Config, s: Bytes, hc: Callback)
    requires Running(c) && c.p.state == AtChunkSize(ChunkSizeStart) && s != []
    requires forall i :: 0 < i < |s| ==> s[i] != CR && s[i] != ' ' && s[i] != ';'
    ensures var d := Run(c, s, hc);
            && (d.p.errno == OK <==> IsSize(s))
            && (IsSize(s) ==> Reaches(c, s, hc, WithSize(c, s), c.log))
    decreases |s|
  {
    hide Advance, HexValue, Unhex;
    var t, ch := s[..|s| - 1], s[|s| - 1];
    assert s == t + [ch];
    RunConcat(c, t, [ch], hc);
    if t == [] {
      FirstHex(c, ch, hc);
      RunOne(c, ch, hc);
      if Unhex(ch) != -1 {
        OneHex(ch);
      }
    } else {
      ChunkSizeRead(c, t, hc);
      if IsSize(t) {
        NextHex(c, t, Run(c, t, hc), ch, hc);
        RunOne(Run(c, t, hc), ch, hc);
      } else {
        RunStopped(Run(c, t, hc), [ch], hc);
        if IsSize(s) {
          PrefixSize(s, |t|);
        }
      }
    }
  }

  predicate IsHexNumber(s: Bytes) { forall i :: 0 <= i < |s| ==> IsHex(s[i]) }

  // Section 4.1 of RFC 7230 has only hexadecimal digits in a chunk size.  The table also takes
  // every byte from 128 up, as a zero, so accepted sizes are hexadecimal numbers exactly if
  // they have no such byte.
  lemma SizesAreHexadecimal(s: Bytes)
    requires IsSize(s)
    ensures IsHexNumber(s) <==> forall i :: 0 <= i < |s| ==> s[i] as int < 128
  {
    forall i | 0 <= i < |s| ensures IsHex(s[i]) <==> s[i] as int < 128 {
      HexOrHigh(s[i]);
    }
  }

  lemma HexOrHigh(ch: Byte)
    ensures Unhex(ch) != -1 <==> IsHex(ch) || ch as int >= 128
    ensures ch as int >= 128 ==> Unhex(ch) == 0 && !IsHex(ch)
  {
  }

  lemma HighByteIsASize()
    ensures IsSize("\U{80}") && !IsHexNumber("\U{80}") && HexValue("\U{80}") == 0
  {
    HexOrHigh('\U{80}');
    OneHex('\U{80}');
  }
}
