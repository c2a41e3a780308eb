/** 64-bit length arithmetic: the decimal Content-Length and the hexadecimal chunk size, read digit by digit with a
    one-sided wrap test (src/http_parser.c:1393-1400, 1447-1470, 1692-1744). */
module Lengths {
  import opened Bytes
  import opened ParserState
  import opened Switch
  import opened Trace
  import opened Machine

  // What the parser takes for the digits of a chunk size: hexadecimal digits, and every byte from 128 up, as 0.
  predicate SizeBytes(ds: seq<byte>) { forall i | 0 <= i < |ds| :: Unhex(ds[i]) != -1 }

  // The number it makes of them.
  function HexValue(ds: seq<byte>): nat
    requires SizeBytes(ds)
  {
    if ds == [] then 0 else HexValue(ds[..|ds| - 1]) * 16 + Unhex(ds[|ds| - 1])
  }

  // A Content-Length value: digits, with spaces ignored after the first.
  predicate SpacedDigits(ds: seq<byte>) { forall i | 0 <= i < |ds| :: IsNum(ds[i]) || (i > 0 && ds[i] == ' ') }

  function DecValue(ds: seq<byte>): nat
    requires SpacedDigits(ds)
  {
    if ds == [] then 0
    else if ds[|ds| - 1] == ' ' then DecValue(ds[..|ds| - 1])
    else DecValue(ds[..|ds| - 1]) * 10 + DigitOf(ds[|ds| - 1])
  }

  const MAX_LENGTH: int := 0xFFFF_FFFF_FFFF_FFFE // the largest length that can be stored, 2^64 - 2

  // Reading on from the value v to the value w, the number that is stored drops, or becomes 2^64 - 1.
  predicate Drops(v: nat, w: nat) { w % U64 < v % U64 || w % U64 == U64 - 1 }

  predicate HexClimbs(ds: seq<byte>)
    requires SizeBytes(ds)
  {
    forall k | 1 <= k < |ds| :: !Drops(HexValue(ds[..k]), HexValue(ds[..k + 1]))
  }

  predicate DecClimbs(ds: seq<byte>)
    requires SpacedDigits(ds)
  {
    forall k | 1 <= k < |ds| :: !Drops(DecValue(ds[..k]), DecValue(ds[..k + 1]))
  }

  lemma HexClimbsSnoc(ds: seq<byte>)
    requires SizeBytes(ds) && |ds| > 1
    ensures var n := |ds| - 1; HexClimbs(ds) <==> HexClimbs(ds[..n]) && !Drops(HexValue(ds[..n]), HexValue(ds))
  {
    hide Drops, HexValue;
    var n := |ds| - 1;
    assert ds[..n + 1] == ds;
    assert forall k | 0 <= k <= n :: ds[..n][..k] == ds[..k];
  }

  lemma DecClimbsSnoc(ds: seq<byte>)
    requires SpacedDigits(ds) && |ds| > 1
    ensures var n := |ds| - 1; DecClimbs(ds) <==> DecClimbs(ds[..n]) && !Drops(DecValue(ds[..n]), DecValue(ds))
  {
    hide Drops, DecValue;
    var n := |ds| - 1;
    assert ds[..n + 1] == ds;
    assert forall k | 0 <= k <= n :: ds[..n][..k] == ds[..k];
  }

  // How far the stored length c reflects the value v of the digits read so far.
  ghost predicate Reflects(c: uint64, v: nat) {
    c as int == v % U64 && c != ULLONG_MAX && (v <= MAX_LENGTH ==> c as int == v)
  }

  lemma AccumulateMod(c: uint64, v: nat, base: nat, d: nat)
    requires c as int == v % U64 && (base == 10 || base == 16)
    ensures Accumulate(c, base, d) as int == (v * base + d) % U64
  {
    var k, x := v / U64, c as int * base + d;
    assert v == k * U64 + c as int;
    Distribute(k, c as int, base, d);
    ModShift(k * base, x);
    ModSum(c as int * base, d);
  }

  // One digit: the wrapped sum is congruent; it is refused for 2^64 - 1 and never for less.
  lemma OneDigit(c: uint64, v: nat, base: nat, d: nat)
    requires Reflects(c, v) && (base == 10 || base == 16) && d < base
    ensures var t := Accumulate(c, base, d);
            && (LengthRefused(c, t) <==> Drops(v, v * base + d))
            && (!LengthRefused(c, t) ==> Reflects(t, v * base + d))
            && (v * base + d <= MAX_LENGTH ==> !LengthRefused(c, t))
            && (v * base + d == MAX_LENGTH + 1 ==> LengthRefused(c, t))
  {
    AccumulateMod(c, v, base, d);
    hide Accumulate;
    assert v <= v * base + d by { if base == 10 { } else { } }
  }

  // A space leaves the value as it is.
  lemma NoDrop(c: uint64, v: nat)
    requires Reflects(c, v)
    ensures !Drops(v, v) && v != MAX_LENGTH + 1
  {
  }

  lemma Distribute(k: nat, c: nat, base: nat, d: nat)
    requires base == 10 || base == 16
    ensures (k * U64 + c) * base + d == (k * base) * U64 + (c * base + d)
  {
  }

  lemma ModSum(x: nat, d: nat)
    ensures (x % U64 + d) % U64 == (x + d) % U64
  {
    ModShift(x / U64, x % U64 + d);
  }

  lemma ModShift(k: nat, x: nat)
    ensures (k * U64 + x) % U64 == x % U64
  {
  }

  lemma ReflectsDigit(d: uint64)
    requires d < 16
    ensures Reflects(d, d as int)
  {
  }

  /* ---- The digits as the parser reads them. ---- */

  // A byte refused by the switch.
  lemma OneRefusal(p: Parser, ch: byte, skip: Answers)
    requires Ready(p) && Enter(p).nread <= MAX_HEADER_SIZE && SwitchOn(p.core, ch).act.Fail?
    ensures var t := SwitchOn(p.core, ch);
            Run(p, [ch], skip) == Result(After(Enter(p), t, skip), [], 0, Stop)
  {
  }

  function Sized(p: Parser, c: uint64, n: nat): Parser {
    p.(core := p.core.(state := ChunkSize, contentLength := c), nread := n)
  }

  // A digit, as the switch takes it.
  lemma DigitTurns(c: Core, ch: byte)
    requires Inv(c)
    ensures c.state.ChunkSize? && Unhex(ch) != -1 ==>
              var t := Accumulate(c.contentLength, 16, Unhex(ch));
              if LengthRefused(c.contentLength, t) then SwitchOn(c, ch).act == Fail(InvalidContentLength)
              else SwitchOn(c, ch) == Turn(c.(contentLength := t), Break)
    ensures c.state.HeaderValue? && c.headerState.ContentLength? && ch == ' ' ==>
              SwitchOn(c, ch) == Turn(c, Keep(Value))
    ensures c.state.HeaderValue? && c.headerState.ContentLength? && IsNum(ch) ==>
              var t := Accumulate(c.contentLength, 10, DigitOf(ch));
              if LengthRefused(c.contentLength, t) then SwitchOn(c, ch).act == Fail(InvalidContentLength)
              else SwitchOn(c, ch) == Turn(c.(contentLength := t), Keep(Value))
  {
    hide Accumulate, LengthRefused, Sound;
  }

  lemma ChunkSizeDigit(p: Parser, ch: byte, skip: Answers)
    requires Ready(p) && p.core.state.ChunkSize? && Unhex(ch) != -1 && p.nread < MAX_HEADER_SIZE
    ensures var t := Accumulate(p.core.contentLength, 16, Unhex(ch));
            var r := Run(p, [ch], skip);
            if LengthRefused(p.core.contentLength, t) then r.verdict == Stop && r.parser.errno == InvalidContentLength
            else r == Result(Sized(p, t, p.nread + 1), [], 1, Go)
  {
    DigitTurns(p.core, ch);
    hide Run, SwitchOn, Accumulate, LengthRefused, Inv;
    var t := SwitchOn(p.core, ch);
    if t.act.Fail? { OneRefusal(p, ch, skip); } else { OnePass(p, ch, skip); }
  }

  lemma FirstChunkSizeDigit(p: Parser, ch: byte, skip: Answers)
    requires Ready(p) && p.core.state.ChunkSizeStart? && Unhex(ch) != -1
    ensures Run(p, [ch], skip) == Result(Sized(p, Unhex(ch) as uint64, 1), [], 1, Go)
  {
    hide Run, Sound;
    OnePass(p, ch, skip);
  }

  // A chunk size of any number of digits, within the header limit.
  lemma {:induction false} HexRun(p: Parser, ds: seq<byte>, skip: Answers)
    requires Ready(p) && p.core.state.ChunkSizeStart? && SizeBytes(ds) && 0 < |ds| <= MAX_HEADER_SIZE
    ensures var r := Run(p, ds, skip);
            var c, v := r.parser.core.contentLength, HexValue(ds);
            && (r.verdict == Go <==> HexClimbs(ds))
            && (v <= MAX_LENGTH ==> r.verdict == Go)
            && (v == MAX_LENGTH + 1 ==> r.verdict == Stop)
            && (r.verdict == Go ==> Reflects(c, v) && r == Result(Sized(p, c, |ds|), [], |ds|, Go))
            && (r.verdict != Go ==> r.verdict == Stop && r.parser.errno == InvalidContentLength)
    decreases |ds|
  {
    hide Run, SwitchOn, Reflects, Inv, Drops, Unhex, HexClimbs, HexValue;
    var n := |ds| - 1;
    if n == 0 {
      HexStart(p, ds, skip);
    } else {
      HexRun(p, ds[..n], skip);
      HexClimbsSnoc(ds);
      HexSnoc(ds);
      var r := Run(p, ds[..n], skip);
      if r.verdict == Go {
        HexNext(p, ds, r.parser.core.contentLength, skip);
      } else {
        RunConcat(p, ds[..n], [ds[n]], skip);
        assert ds[..n] + [ds[n]] == ds;
      }
    }
  }

  lemma HexSnoc(ds: seq<byte>)
    requires SizeBytes(ds) && |ds| > 1
    ensures SizeBytes(ds[..|ds| - 1]) && HexValue(ds[..|ds| - 1]) <= HexValue(ds)
  {
  }

  lemma HexNext(p: Parser, ds: seq<byte>, c: uint64, skip: Answers)
    requires Ready(p) && p.core.state.ChunkSizeStart? && SizeBytes(ds) && 1 < |ds| <= MAX_HEADER_SIZE
    requires var n := |ds| - 1;
             Run(p, ds[..n], skip) == Result(Sized(p, c, n), [], n, Go) && Reflects(c, HexValue(ds[..n]))
    ensures var r := Run(p, ds, skip);
            var d, v := r.parser.core.contentLength, HexValue(ds);
            && (r.verdict == Go <==> !Drops(HexValue(ds[..|ds| - 1]), v))
            && (v <= MAX_LENGTH ==> r.verdict == Go)
            && (v == MAX_LENGTH + 1 ==> r.verdict == Stop)
            && (r.verdict == Go ==> Reflects(d, v) && r == Result(Sized(p, d, |ds|), [], |ds|, Go))
            && (r.verdict != Go ==> r.verdict == Stop && r.parser.errno == InvalidContentLength)
  {
    hide Run, SwitchOn, Accumulate, LengthRefused, Reflects, Inv, Drops, Unhex;
    var n := |ds| - 1;
    var v, x := HexValue(ds[..n]), Unhex(ds[n]);
    assert HexValue(ds) == v * 16 + x;
    hide HexValue;
    RunConcat(p, ds[..n], [ds[n]], skip);
    assert ds[..n] + [ds[n]] == ds;
    ChunkSizeDigit(Sized(p, c, n), ds[n], skip);
    OneDigit(c, v, 16, x);
  }

  lemma HexStart(p: Parser, ds: seq<byte>, skip: Answers)
    requires Ready(p) && p.core.state.ChunkSizeStart? && SizeBytes(ds) && |ds| == 1
    ensures var c := Unhex(ds[0]);
            && 0 <= c == HexValue(ds) && HexClimbs(ds) && Reflects(c as uint64, c)
            && Run(p, ds, skip) == Result(Sized(p, c as uint64, 1), [], 1, Go)
  {
    hide Run, SwitchOn, Reflects, Inv;
    assert ds == [ds[0]] && ds[..0] == [];
    FirstChunkSizeDigit(p, ds[0], skip);
    ReflectsDigit(Unhex(ds[0]) as uint64);
  }

  /* ---- A chunk size should be made of hexadecimal digits. ---- */

  predicate AllHex(s: seq<byte>) { forall i | 0 <= i < |s| :: IsHex(s[i]) }

  predicate AllLow(s: seq<byte>) { forall i | 0 <= i < |s| :: s[i] as int < 128 }

  lemma UnhexTakes(ch: byte)
    ensures Unhex(ch) != -1 <==> IsHex(ch) || ch as int >= 128
  {
  }

  // Large letters count as small ones: both are ten and up, in order.
  lemma HexLetters(k: nat)
    requires k < 6
    ensures Unhex(('a' as int + k) as char) == Unhex(('A' as int + k) as char) == 10 + k
  {
  }

  // The turns of a chunk size.
  lemma SizeTurns(c: Core, ch: byte)
    requires Inv(c)
    ensures c.state.ChunkSizeStart? ==>
              if Unhex(ch) == -1 then SwitchOn(c, ch).act == Fail(InvalidChunkSize)
              else SwitchOn(c, ch).act.Break?
    ensures c.state.ChunkSize? && Unhex(ch) == -1 ==>
              if ch == CR then SwitchOn(c, ch) == Turn(c.(state := ChunkSizeAlmostDone), Break)
              else if ch == ';' || ch == ' ' then SwitchOn(c, ch) == Turn(c.(state := ChunkParameters), Break)
              else SwitchOn(c, ch).act == Fail(InvalidChunkSize)
  {
    hide Accumulate, LengthRefused, Sound;
  }

  // Which bytes are refused as part of a chunk size.
  lemma SizeRefused(p: Parser, ch: byte, skip: Answers)
    requires Ready(p) && p.nread < MAX_HEADER_SIZE
    ensures p.core.state.ChunkSizeStart? ==>
              (Run(p, [ch], skip).parser.errno == InvalidChunkSize <==> ch as int < 128 && !IsHex(ch))
    ensures p.core.state.ChunkSize? ==>
              (Run(p, [ch], skip).parser.errno == InvalidChunkSize <==>
               ch as int < 128 && !IsHex(ch) && ch != CR && ch != ';' && ch != ' ')
  {
    UnhexTakes(ch);
    SizeTurns(p.core, ch);
    hide Run, SwitchOn, Inv, Unhex, IsHex;
    if p.core.state.ChunkSizeStart? || p.core.state.ChunkSize? {
      if SwitchOn(p.core, ch).act.Fail? {
        OneRefusal(p, ch, skip);
      } else if Unhex(ch) == -1 || p.core.state.ChunkSizeStart? {
        OnePass(p, ch, skip);
      } else {
        ChunkSizeDigit(p, ch, skip);
      }
    }
  }

  // Every byte of s is read as part of a chunk size.
  ghost predicate InSize(p: Parser, s: seq<byte>, skip: Answers)
    requires Ready(p)
  {
    forall k | 0 < k <= |s| :: Run(p, s[..k], skip).verdict == Go && Run(p, s[..k], skip).parser.core.state.ChunkSize?
  }

  lemma SizeByte(p: Parser, ch: byte, skip: Answers)
    requires Ready(p) && (p.core.state.ChunkSizeStart? || p.core.state.ChunkSize?) && Run(p, [ch], skip).verdict == Go
    requires Run(p, [ch], skip).parser.core.state.ChunkSize?
    ensures Unhex(ch) != -1
  {
    SizeTurns(p.core, ch);
    hide Run, SwitchOn, Inv, Unhex;
    WithinLimit(p, [ch], skip);
    if Unhex(ch) == -1 {
      if SwitchOn(p.core, ch).act.Fail? { OneRefusal(p, ch, skip); } else { OnePass(p, ch, skip); }
    }
  }

  lemma {:induction false} SizeRead(p: Parser, s: seq<byte>, skip: Answers)
    requires Ready(p) && p.core.state.ChunkSizeStart? && InSize(p, s, skip)
    ensures SizeBytes(s)
    decreases |s|
  {
    hide Run, SwitchOn, Inv, Unhex;
    if s != [] {
      var n := |s| - 1;
      assert s == s[..n] + [s[n]] && s[..|s|] == s;
      forall k | 0 < k <= n
        ensures s[..n][..k] == s[..k]
      {
      }
      SizeRead(p, s[..n], skip);
      RunConcat(p, s[..n], [s[n]], skip);
      if n == 0 { EmptyRun(p, skip); } else { assert Run(p, s[..n], skip).verdict == Go; }
      SizeByte(Run(p, s[..n], skip).parser, s[n], skip);
    }
  }

  // Exactly what is read as a chunk size: it is made of hexadecimal digits if and only if it has no byte from 128 up.
  lemma ChunkSizeExactly(p: Parser, s: seq<byte>, skip: Answers)
    requires Ready(p) && p.core.state.ChunkSizeStart? && 0 < |s| <= MAX_HEADER_SIZE
    ensures InSize(p, s, skip) <==> SizeBytes(s) && HexClimbs(s)
    ensures InSize(p, s, skip) ==> (AllHex(s) <==> AllLow(s))
  {
    hide Run, Inv, Reflects, HexValue, Drops, Unhex, IsHex;
    assert s[..|s|] == s;
    if InSize(p, s, skip) {
      SizeRead(p, s, skip);
      HexRun(p, s, skip);
    }
    if SizeBytes(s) && HexClimbs(s) {
      forall k | 0 < k <= |s|
        ensures Run(p, s[..k], skip).verdict == Go && Run(p, s[..k], skip).parser.core.state.ChunkSize?
      {
        ClimbsBefore(s, k);
        HexRun(p, s[..k], skip);
      }
    }
    forall i | 0 <= i < |s| ensures Unhex(s[i]) != -1 <==> IsHex(s[i]) || s[i] as int >= 128 { UnhexTakes(s[i]); }
    forall i | 0 <= i < |s| ensures IsHex(s[i]) ==> s[i] as int < 128 { HexLow(s[i]); }
  }

  lemma HexLow(ch: byte)
    ensures IsHex(ch) ==> ch as int < 128
  {
  }

  lemma ClimbsBefore(s: seq<byte>, k: nat)
    requires SizeBytes(s) && HexClimbs(s) && k <= |s|
    ensures HexClimbs(s[..k])
  {
    hide Drops, HexValue;
    forall l | 1 <= l < k
      ensures !Drops(HexValue(s[..k][..l]), HexValue(s[..k][..l + 1]))
    {
      assert s[..k][..l] == s[..l] && s[..k][..l + 1] == s[..l + 1];
    }
  }

  /* ---- Content-Length. ---- */

  // The fields inside a Content-Length value.
  function Valued(p: Parser, c: uint64): Core { p.core.(state := HeaderValue, index := 0, contentLength := c) }

  lemma FirstLengthDigit(p: Parser, ch: byte, skip: Answers)
    requires Ready(p) && p.core.state.HeaderValueStart? && p.core.headerState.ContentLength? && IsNum(ch)
    requires p.nread < MAX_HEADER_SIZE
    ensures Run(p, [ch], skip) ==
            Result(p.(core := Valued(p, DigitOf(ch) as uint64), nread := p.nread + 1), [Data(Value, [ch])], 1, Go)
  {
    hide Run, Sound;
    OnePass(p, ch, skip);
  }

  lemma LengthDigit(p: Parser, ch: byte, skip: Answers)
    requires Ready(p) && p.core.state.HeaderValue? && p.core.headerState.ContentLength? && (IsNum(ch) || ch == ' ')
    requires p.nread < MAX_HEADER_SIZE
    ensures var c := p.core.contentLength;
            var t := if ch == ' ' then c else Accumulate(c, 10, DigitOf(ch));
            var r := Run(p, [ch], skip);
            if ch != ' ' && LengthRefused(c, t) then r.verdict == Stop && r.parser.errno == InvalidContentLength
            else r == Result(p.(core := p.core.(contentLength := t), nread := p.nread + 1), [Data(Value, [ch])], 1, Go)
  {
    DigitTurns(p.core, ch);
    hide Run, SwitchOn, Accumulate, LengthRefused, Inv;
    var t := SwitchOn(p.core, ch);
    if t.act.Fail? { OneRefusal(p, ch, skip); } else { OnePass(p, ch, skip); }
  }

  // A Content-Length value of any length, within the header limit.
  lemma {:induction false} DecRun(p: Parser, ds: seq<byte>, skip: Answers)
    requires Ready(p) && p.core.state.HeaderValueStart? && p.core.headerState.ContentLength?
    requires SpacedDigits(ds) && ds != [] && p.nread + |ds| <= MAX_HEADER_SIZE
    ensures var r := Run(p, ds, skip);
            var c, v := r.parser.core.contentLength, DecValue(ds);
            && (r.verdict == Go <==> DecClimbs(ds))
            && (v <= MAX_LENGTH ==> r.verdict == Go)
            && (v == MAX_LENGTH + 1 ==> r.verdict == Stop)
            && (r.verdict == Go ==> Reflects(c, v)
                                    && r.parser == p.(core := Valued(p, c), nread := p.nread + |ds|)
                                    && r.used == |ds|)
            && (r.verdict != Go ==> r.verdict == Stop && r.parser.errno == InvalidContentLength)
    decreases |ds|
  {
    hide Run, SwitchOn, Accumulate, LengthRefused, Inv, Reflects, Drops;
    var n := |ds| - 1;
    if n == 0 {
      assert ds == [ds[0]] && ds[..0] == [];
      FirstLengthDigit(p, ds[0], skip);
      ReflectsDigit(DigitOf(ds[0]) as uint64);
    } else {
      DecRun(p, ds[..n], skip);
      DecClimbsSnoc(ds);
      hide DecClimbs;
      var r := Run(p, ds[..n], skip);
      RunConcat(p, ds[..n], [ds[n]], skip);
      assert ds[..n] + [ds[n]] == ds;
      if r.verdict == Go {
        LengthDigit(r.parser, ds[n], skip);
        if ds[n] == ' ' {
          NoDrop(r.parser.core.contentLength, DecValue(ds[..n]));
        } else {
          OneDigit(r.parser.core.contentLength, DecValue(ds[..n]), 10, DigitOf(ds[n]));
        }
      }
    }
  }

  // A length is refused exactly when, at some digit, the number stored modulo 2^64 drops or becomes 2^64 - 1; and it is
  // stored, and stored as the number that was sent, exactly when that number is at most 2^64 - 2.
  lemma LengthsExact(p: Parser, ds: seq<byte>, skip: Answers)
    requires Ready(p) && ds != [] && p.nread + |ds| <= MAX_HEADER_SIZE
    requires (p.core.state.ChunkSizeStart? && SizeBytes(ds))
             || (p.core.state.HeaderValueStart? && p.core.headerState.ContentLength? && SpacedDigits(ds))
    ensures var r, v := Run(p, ds, skip), if p.core.state.ChunkSizeStart? then HexValue(ds) else DecValue(ds);
            && (r.verdict == Go <==> if p.core.state.ChunkSizeStart? then HexClimbs(ds) else DecClimbs(ds))
            && (r.verdict == Go && r.parser.core.contentLength as int == v <==> v <= MAX_LENGTH)
            && (r.verdict != Go ==> r.verdict == Stop && r.parser.errno == InvalidContentLength)
            && (v == MAX_LENGTH + 1 ==> r.verdict == Stop)
            && (r.verdict == Go ==>
                  r.parser.core.contentLength as int == v % U64 && r.parser.core.contentLength != ULLONG_MAX)
  {
    hide Run, HexValue, DecValue, Inv, HexClimbs, DecClimbs;
    if p.core.state.ChunkSizeStart? { HexRun(p, ds, skip); } else { DecRun(p, ds, skip); }
  }

  /* ---- A length that is stored as another. ---- */

  function Pow16(k: nat): nat { if k == 0 then 1 else 16 * Pow16(k - 1) }

  lemma SixteenDigits()
    ensures Pow16(16) == U64 && Pow16(15) * 16 == U64
  {
    assert Pow16(4) == 0x1_0000;
    assert Pow16(8) == 0x1_0000_0000;
    assert Pow16(12) == 0x1_0000_0000_0000;
  }

  // The digit 1 and n digits F.
  function OneAndFs(n: nat): seq<byte> { if n == 0 then ['1'] else OneAndFs(n - 1) + ['F'] }

  lemma {:induction false} OneAndFsValue(n: nat)
    ensures SizeBytes(OneAndFs(n)) && |OneAndFs(n)| == n + 1 && HexValue(OneAndFs(n)) == 2 * Pow16(n) - 1
  {
    if n == 0 {
      assert ['1'][..0] == [];
    } else {
      var x := Pow16(n - 1);
      assert OneAndFs(n) == OneAndFs(n - 1) + ['F'] && Pow16(n) == 16 * x;
      hide HexValue, SizeBytes, OneAndFs, Pow16, Unhex;
      OneAndFsValue(n - 1);
      HexDigitF(OneAndFs(n - 1));
    }
  }

  lemma HexDigitF(ds: seq<byte>)
    requires SizeBytes(ds)
    ensures SizeBytes(ds + ['F']) && HexValue(ds + ['F']) == HexValue(ds) * 16 + 15
  {
    assert Unhex('F') == 15;
    hide Unhex;
    assert (ds + ['F'])[..|ds|] == ds;
  }

  // The wrap test is one-sided: the chunk size 1FFFFFFFFFFFFFFF0, that is 2^65 - 16, is accepted and stored as
  // 2^64 - 16.
  lemma WrapAccepted(p: Parser, skip: Answers)
    requires Ready(p) && p.core.state.ChunkSizeStart?
    ensures var ds := OneAndFs(15) + ['0'];
            && SizeBytes(ds) && HexValue(ds) == 0x1_FFFF_FFFF_FFFF_FFF0
            && Run(p, ds, skip) == Result(Sized(p, 0xFFFF_FFFF_FFFF_FFF0, 17), [], 17, Go)
  {
    hide Run, SwitchOn, Inv, OneAndFs, Pow16;
    var fs := OneAndFs(15);
    SixteenDigits();
    OneAndFsValue(15);
    assert (fs + ['0'])[..16] == fs;
    HexRun(p, fs, skip);
    RunConcat(p, fs, ['0'], skip);
    ChunkSizeDigit(Run(p, fs, skip).parser, '0', skip);
  }
}
