/** The Base64 codec of the DVR's pages: UTF-16 text, as UTF-8, in the Base64 alphabet of section 4 of RFC 4648
    (reverseEngineering/ha8xxb_v2.2_1130/cramfs/www/tools.js:1-135). */
module Base64 {
  // A UTF-16 code unit, as charCodeAt gives it and String.fromCharCode takes it.
  type unit = bv16

  const CR: unit := 13
  const LF: unit := 10
  const PAD: unit := 61 // '=', at index 64

  function Min(i: nat, n: nat): nat { if i <= n then i else n }

  // charCodeAt in an operand of a bit operation: NaN counts as 0.
  function At(s: seq<unit>, i: nat): unit { if i < |s| then s[i] else 0 }

  // _keyStr.charAt: A-Z, a-z, 0-9, '+', '/' and '='.
  function KeyAt(i: unit): unit
    requires i <= 64
  {
    if i < 26 then 65 + i
    else if i < 52 then 71 + i
    else if i < 62 then i - 4
    else if i == 62 then 43
    else if i == 63 then 47
    else PAD
  }

  // The characters that the filter of decode keeps.
  predicate InAlphabet(c: unit) { 65 <= c <= 90 || 97 <= c <= 122 || 48 <= c <= 57 || c == 43 || c == 47 || c == PAD }

  // _keyStr.indexOf, of a character of the alphabet.
  function IndexOf(c: unit): (i: unit)
    requires InAlphabet(c)
    ensures i <= 64 && KeyAt(i) == c
  {
    if 65 <= c <= 90 then c - 65
    else if 97 <= c <= 122 then c - 71
    else if 48 <= c <= 57 then c + 4
    else if c == 43 then 62
    else if c == 47 then 63
    else 64
  }

  lemma KeyIndex(i: unit)
    requires i <= 64
    ensures InAlphabet(KeyAt(i)) && IndexOf(KeyAt(i)) == i
  {
  }

  // The alphabet of section 4 of RFC 4648, and the padding.
  lemma Alphabet(i: unit)
    ensures i < 26 ==> KeyAt(i) == 'A' as unit + i
    ensures 26 <= i < 52 ==> KeyAt(i) == 'a' as unit + (i - 26)
    ensures 52 <= i < 62 ==> KeyAt(i) == '0' as unit + (i - 52)
    ensures KeyAt(62) == '+' as unit && KeyAt(63) == '/' as unit && KeyAt(64) == '=' as unit
  {
  }

  predicate OfAlphabet(t: seq<unit>) { forall i | 0 <= i < |t| :: InAlphabet(t[i]) }

  // input.replace(/[^A-Za-z0-9\+\/\=]/g, "")
  function Filter(t: seq<unit>): (f: seq<unit>)
    ensures OfAlphabet(f)
  {
    if t == [] then [] else (if InAlphabet(t[0]) then [t[0]] else []) + Filter(t[1..])
  }

  lemma {:induction false} FilterKeeps(t: seq<unit>)
    requires OfAlphabet(t)
    ensures Filter(t) == t
  {
    if t != [] { FilterKeeps(t[1..]); }
  }

  /* ---- The bits. ---- */

  // UTF-8, after the case of one byte.
  function Lead2(c: unit): unit { (c >> 6) | 192 }
  function Lead3(c: unit): unit { (c >> 12) | 224 }
  function Next(c: unit): unit { ((c >> 6) & 63) | 128 }
  function Last(c: unit): unit { (c & 63) | 128 }
  function Unit2(c: unit, c2: unit): unit { ((c & 31) << 6) | (c2 & 63) }
  function Unit3(c: unit, c2: unit, c3: unit): unit { ((c & 15) << 12) | ((c2 & 63) << 6) | (c3 & 63) }

  lemma TwoByteUnit(c: unit)
    requires 128 <= c < 2048
    ensures 191 < Lead2(c) < 224 && Last(c) < 256 && Unit2(Lead2(c), Last(c)) == c
  {
  }

  lemma ThreeByteUnit(c: unit)
    requires c >= 2048
    ensures 224 <= Lead3(c) < 256 && Next(c) < 256 && Last(c) < 256 && Unit3(Lead3(c), Next(c), Last(c)) == c
  {
  }

  // Base64.
  function Enc1(c1: unit): unit { c1 >> 2 }
  function Enc2(c1: unit, c2: unit): unit { ((c1 & 3) << 4) | (c2 >> 4) }
  function Enc3(c2: unit, c3: unit): unit { ((c2 & 15) << 2) | (c3 >> 6) }
  function Enc4(c3: unit): unit { c3 & 63 }
  function Chr1(e1: unit, e2: unit): unit { (e1 << 2) | (e2 >> 4) }
  function Chr2(e2: unit, e3: unit): unit { ((e2 & 15) << 4) | (e3 >> 2) }
  function Chr3(e3: unit, e4: unit): unit { ((e3 & 3) << 6) | e4 }

  lemma EncRange(c1: unit, c2: unit, c3: unit)
    requires c1 < 256 && c2 < 256 && c3 < 256
    ensures Enc1(c1) < 64 && Enc2(c1, c2) < 64 && Enc3(c2, c3) < 64 && Enc4(c3) < 64
  {
  }

  lemma ThreeBytes(c1: unit, c2: unit, c3: unit)
    requires c1 < 256 && c2 < 256 && c3 < 256
    ensures Chr1(Enc1(c1), Enc2(c1, c2)) == c1 && Chr2(Enc2(c1, c2), Enc3(c2, c3)) == c2
    ensures Chr3(Enc3(c2, c3), Enc4(c3)) == c3
  {
  }

  /* ---- UTF-8. ---- */

  // string.replace(/\r\n/g,"\n")
  function Newlines(s: seq<unit>): seq<unit> {
    if s == [] then []
    else if |s| >= 2 && s[0] == CR && s[1] == LF then [LF] + Newlines(s[2..])
    else [s[0]] + Newlines(s[1..])
  }

  // What replacing does: text without a CR LF stays as it is, and each CR LF becomes LF.
  predicate NoCrLf(s: seq<unit>) { forall i | 0 <= i && i + 1 < |s| :: s[i] != CR || s[i + 1] != LF }

  lemma {:induction false} NewlinesAlone(s: seq<unit>)
    requires NoCrLf(s)
    ensures Newlines(s) == s
  {
    if s != [] {
      assert |s| >= 2 ==> s[0] != CR || s[0 + 1] != LF;
      assert forall i | 0 <= i < |s| - 1 :: s[1..][i] == s[i + 1];
      NewlinesAlone(s[1..]);
    }
  }

  lemma {:induction false} NewlinesAt(a: seq<unit>, b: seq<unit>)
    requires NoCrLf(a)
    ensures Newlines(a + [CR, LF] + b) == a + [LF] + Newlines(b)
  {
    var s := a + [CR, LF] + b;
    if a == [] {
      assert s[2..] == b;
    } else {
      assert |a| >= 2 ==> a[0] != CR || a[0 + 1] != LF;
      assert forall i | 0 <= i < |a| - 1 :: a[1..][i] == a[i + 1];
      assert s[1..] == a[1..] + [CR, LF] + b && s[0] == a[0];
      NewlinesAt(a[1..], b);
    }
  }

  function Utf8Of(c: unit): (b: seq<unit>)
    ensures 1 <= |b| <= 3
  {
    if c < 128 then [c]
    else if c < 2048 then [Lead2(c), Last(c)]
    else [Lead3(c), Next(c), Last(c)]
  }

  function Utf8(s: seq<unit>): seq<unit> { if s == [] then [] else Utf8Of(s[0]) + Utf8(s[1..]) }

  function Width(c: unit): nat { if c < 128 then 1 else if c < 2048 then 2 else 3 }

  // The unit that two or three bytes stand for, in digits of 64.
  function Value2(b0: unit, b1: unit): unit { (b0 - 192) * 64 + (b1 - 128) }
  function Value3(b0: unit, b1: unit, b2: unit): unit { (b0 - 224) * 4096 + (b1 - 128) * 64 + (b2 - 128) }

  predicate Continues(b: unit) { 128 <= b < 192 }

  // The bytes b stand for the unit c, as section 3 of RFC 3629 has it.
  predicate StandsFor(b: seq<unit>, c: unit) {
    && |b| == Width(c)
    && (|b| == 1 ==> b[0] == c)
    && (|b| == 2 ==> 192 <= b[0] < 224 && Continues(b[1]) && c == Value2(b[0], b[1]))
    && (|b| == 3 ==> 224 <= b[0] < 240 && Continues(b[1]) && Continues(b[2]) && c == Value3(b[0], b[1], b[2]))
  }

  // The bytes b stand for the units s, one after the other.
  predicate StandForAll(b: seq<unit>, s: seq<unit>)
    decreases |s|
  {
    if s == [] then b == []
    else Width(s[0]) <= |b| && StandsFor(b[..Width(s[0])], s[0]) && StandForAll(b[Width(s[0])..], s[1..])
  }

  lemma OneStands(b: seq<unit>, c: unit)
    ensures StandsFor(b, c) <==> b == Utf8Of(c)
  {
    hide Value2, Value3, Lead2, Lead3, Next, Last, Continues;
    if c >= 2048 {
      ThreeByteValue(c);
      if StandsFor(b, c) { ThreeByteDigits(b[0], b[1], b[2]); }
    } else if c >= 128 {
      TwoByteValue(c);
      if StandsFor(b, c) { TwoByteDigits(b[0], b[1]); }
    }
  }

  lemma TwoByteValue(c: unit)
    requires 128 <= c < 2048
    ensures 192 <= Lead2(c) < 224 && Continues(Last(c)) && c == Value2(Lead2(c), Last(c))
  {
  }

  lemma TwoByteDigits(b0: unit, b1: unit)
    requires 192 <= b0 < 224 && Continues(b1)
    ensures b0 == Lead2(Value2(b0, b1)) && b1 == Last(Value2(b0, b1))
  {
  }

  lemma ThreeByteValue(c: unit)
    requires c >= 2048
    ensures 224 <= Lead3(c) < 240 && Continues(Next(c)) && Continues(Last(c))
    ensures c == Value3(Lead3(c), Next(c), Last(c))
  {
  }

  lemma ThreeByteDigits(b0: unit, b1: unit, b2: unit)
    requires 224 <= b0 < 240 && Continues(b1) && Continues(b2)
    ensures var c := Value3(b0, b1, b2); b0 == Lead3(c) && b1 == Next(c) && b2 == Last(c)
  {
  }

  // The encoding is UTF-8: exactly the bytes that stand for the units, in order.
  lemma {:induction false} Utf8Exactly(s: seq<unit>, b: seq<unit>)
    ensures StandForAll(b, s) <==> b == Utf8(s)
    decreases |s|
  {
    if s != [] {
      var head, n := Utf8Of(s[0]), Width(s[0]);
      OneStands(head, s[0]);
      assert |head| == n;
      if n <= |b| {
        OneStands(b[..n], s[0]);
        Utf8Exactly(s[1..], b[n..]);
        assert b == b[..n] + b[n..];
      }
      hide Utf8Of, StandsFor;
      assert Utf8(s)[..n] == head && Utf8(s)[n..] == Utf8(s[1..]);
    }
  }

  // How many bytes a leading byte announces: anything that is not one or two is taken for three.
  function Announced(c: unit): (n: nat)
    ensures 1 <= n <= 3
  {
    if c < 128 then 1 else if c > 191 && c < 224 then 2 else 3
  }

  function Unit(t: seq<unit>): unit
    requires t != []
  {
    var c, n := t[0], Announced(t[0]);
    if n == 1 then c
    else if n == 2 then Unit2(c, At(t, 1))
    else Unit3(c, At(t, 1), At(t, 2))
  }

  function Units(t: seq<unit>): seq<unit> {
    if t == [] then [] else [Unit(t)] + Units(t[Min(Announced(t[0]), |t|)..])
  }

  predicate Bytes(t: seq<unit>) { forall i | 0 <= i < |t| :: t[i] < 256 }

  lemma OneUnit(c: unit)
    ensures Announced(Utf8Of(c)[0]) == |Utf8Of(c)| && Unit(Utf8Of(c)) == c && Bytes(Utf8Of(c))
  {
    if c >= 2048 { ThreeByteUnit(c); } else if c >= 128 { TwoByteUnit(c); }
    hide Lead2, Lead3, Next, Last, Unit2, Unit3;
  }

  // A continuation byte, or what stands in its place, counts modulo 64; a missing one counts as 0.
  function Digit(t: seq<unit>, i: nat): unit { if i < |t| then t[i] % 64 else 0 }

  // What any bytes are decoded to, well-formed or not: a byte that announces neither one nor two is the first of three.
  lemma UnitValue(t: seq<unit>)
    requires t != []
    ensures t[0] < 128 ==> Announced(t[0]) == 1 && Unit(t) == t[0]
    ensures 192 <= t[0] < 224 ==> Announced(t[0]) == 2 && Unit(t) == t[0] % 32 * 64 + Digit(t, 1)
    ensures 128 <= t[0] < 192 || 224 <= t[0] ==>
              Announced(t[0]) == 3 && Unit(t) == t[0] % 16 * 4096 + Digit(t, 1) * 64 + Digit(t, 2)
  {
  }

  // Decoding undoes encoding, whatever the code units, surrogates included; and encoding gives bytes.
  lemma {:induction false} Utf8RoundTrip(s: seq<unit>)
    ensures Units(Utf8(s)) == s && Bytes(Utf8(s))
  {
    if s != [] {
      var head, rest := Utf8Of(s[0]), Utf8(s[1..]);
      OneUnit(s[0]);
      Utf8RoundTrip(s[1..]);
      var t := head + rest;
      assert t[0] == head[0] && At(t, 1) == (if |head| > 1 then At(head, 1) else At(t, 1));
      assert |head| == 3 ==> At(t, 2) == At(head, 2);
      assert t[|head|..] == rest;
      hide Utf8Of, Unit;
      UnitOfPrefix(head, rest);
    }
  }

  lemma UnitOfPrefix(head: seq<unit>, rest: seq<unit>)
    requires head != [] && Announced(head[0]) == |head|
    ensures Unit(head + rest) == Unit(head)
  {
  }

  /* ---- Base64. ---- */

  // The indices of a group, and how many bytes it has.
  function Group(b: seq<unit>): (g: (unit, unit, unit, unit))
    requires b != [] && Bytes(b)
    ensures g.0 < 64 && g.1 < 64 && g.2 <= 64 && g.3 <= 64
  {
    var c1, c2, c3 := b[0], At(b, 1), At(b, 2);
    EncRange(c1, c2, c3);
    (Enc1(c1), Enc2(c1, c2), if |b| == 1 then 64 else Enc3(c2, c3), if |b| <= 2 then 64 else Enc4(c3))
  }

  function Print(g: (unit, unit, unit, unit)): (p: seq<unit>)
    requires g.0 <= 64 && g.1 <= 64 && g.2 <= 64 && g.3 <= 64
    ensures |p| == 4
  {
    [KeyAt(g.0), KeyAt(g.1), KeyAt(g.2), KeyAt(g.3)]
  }

  function Armour(b: seq<unit>): seq<unit>
    requires Bytes(b)
  {
    if b == [] then [] else Print(Group(b)) + Armour(b[Min(3, |b|)..])
  }

  // _keyStr.indexOf(input.charAt(i)): the empty string beyond the end is found at 0.
  function IndexAt(t: seq<unit>, i: nat): (x: unit)
    requires OfAlphabet(t)
    ensures x <= 64
  {
    if i < |t| then IndexOf(t[i]) else 0
  }

  function Ungroup(e1: unit, e2: unit, e3: unit, e4: unit): seq<unit> {
    [Chr1(e1, e2)] + (if e3 != 64 then [Chr2(e2, e3)] else []) + (if e4 != 64 then [Chr3(e3, e4)] else [])
  }

  function Unarmour(t: seq<unit>): seq<unit>
    requires OfAlphabet(t)
  {
    if t == [] then []
    else Ungroup(IndexAt(t, 0), IndexAt(t, 1), IndexAt(t, 2), IndexAt(t, 3)) + Unarmour(t[Min(4, |t|)..])
  }

  // One, two or three bytes come back.
  lemma OneGroup(b: seq<unit>)
    requires b != [] && Bytes(b)
    ensures var g := Group(b); Ungroup(g.0, g.1, g.2, g.3) == b[..Min(3, |b|)]
  {
    hide Enc1, Enc2, Enc3, Enc4, Chr1, Chr2, Chr3;
    var c1, c2, c3 := b[0], At(b, 1), At(b, 2);
    ThreeBytes(c1, c2, c3);
    EncRange(c1, c2, c3);
    LastBytes(c1, c2);
  }

  // A group of one or two bytes: the padding does not change what comes back.
  lemma LastBytes(c1: unit, c2: unit)
    requires c1 < 256 && c2 < 256
    ensures Chr1(Enc1(c1), Enc2(c1, 0)) == c1 && Chr2(Enc2(c1, c2), Enc3(c2, 0)) == c2
  {
    ThreeBytes(c1, c2, 0);
    ThreeBytes(c1, 0, 0);
  }

  // A group is the four 6-bit digits of the 24-bit number its bytes make, as section 4 of RFC 4648 has it; what is
  // missing at the end counts as zero bits, and a digit of which nothing is there is the padding.
  lemma GroupDigits(b: seq<unit>)
    requires b != [] && Bytes(b)
    ensures var v, g := (b[0] as bv32 << 16) | (At(b, 1) as bv32 << 8) | (At(b, 2) as bv32), Group(b);
            && g.0 as bv32 == v >> 18 && g.1 as bv32 == (v >> 12) & 63
            && (if |b| >= 2 then g.2 as bv32 == (v >> 6) & 63 else g.2 == 64)
            && (if |b| >= 3 then g.3 as bv32 == v & 63 else g.3 == 64)
  {
    assert b[0] < 256 && At(b, 1) < 256 && At(b, 2) < 256;
  }

  // The armoured text is in whole groups of four, and decode's filter leaves it alone.
  lemma {:induction false} ArmourShape(b: seq<unit>)
    requires Bytes(b)
    ensures |Armour(b)| == (|b| + 2) / 3 * 4 && OfAlphabet(Armour(b))
    decreases |b|
  {
    if b != [] {
      var g, rest := Group(b), b[Min(3, |b|)..];
      ArmourShape(rest);
      GroupInAlphabet(b);
      CountGroups(|b|);
      hide Group, KeyAt, InAlphabet;
      assert Armour(b) == Print(g) + Armour(rest);
    }
  }

  lemma GroupInAlphabet(b: seq<unit>)
    requires b != [] && Bytes(b)
    ensures OfAlphabet(Print(Group(b)))
  {
    var g := Group(b);
    hide Group;
    KeyIndex(g.0);
    KeyIndex(g.1);
    KeyIndex(g.2);
    KeyIndex(g.3);
  }

  // The k-th group of four characters is that of the k-th three bytes.
  lemma {:induction false} ArmourGroup(b: seq<unit>, k: nat)
    requires Bytes(b) && 3 * k < |b|
    ensures 4 * k + 4 <= |Armour(b)| && Armour(b)[4 * k..4 * k + 4] == Print(Group(b[3 * k..]))
    decreases k
  {
    var rest := b[Min(3, |b|)..];
    BytesFrom(b, 3 * k);
    ArmourOn(b);
    hide Group, Print, Armour, Bytes;
    if k == 0 {
      assert b[0..] == b;
    } else {
      assert rest[3 * (k - 1)..] == b[3 * k..];
      ArmourGroup(rest, k - 1);
      Later(Print(Group(b)), Armour(rest), 4 * (k - 1));
    }
  }

  lemma BytesFrom(b: seq<unit>, i: nat)
    requires Bytes(b) && i <= |b|
    ensures Bytes(b[i..])
  {
  }

  lemma ArmourOn(b: seq<unit>)
    requires Bytes(b) && b != []
    ensures Bytes(b[Min(3, |b|)..]) && Armour(b) == Print(Group(b)) + Armour(b[Min(3, |b|)..])
  {
    hide Group, Print;
  }

  lemma Later(head: seq<unit>, rest: seq<unit>, i: nat)
    requires |head| == 4 && i + 4 <= |rest|
    ensures (head + rest)[i + 4..i + 8] == rest[i..i + 4]
  {
  }

  // Four digits give the three bytes of their 24-bit number.
  lemma UngroupBytes(e1: unit, e2: unit, e3: unit, e4: unit)
    requires e1 < 64 && e2 < 64 && e3 < 64 && e4 < 64
    ensures var v, b := (e1 as bv32 << 18) | (e2 as bv32 << 12) | (e3 as bv32 << 6) | (e4 as bv32),
                        Ungroup(e1, e2, e3, e4);
            && |b| == 3 && (b[0] & 255) as bv32 == v >> 16 && (b[1] & 255) as bv32 == (v >> 8) & 255
            && (b[2] & 255) as bv32 == v & 255
  {
  }

  // Padding leaves out the bytes for which it stands.
  lemma UngroupPadded(e1: unit, e2: unit, e3: unit)
    requires e1 < 64 && e2 < 64 && e3 < 64
    ensures var v, b, a := (e1 as bv32 << 18) | (e2 as bv32 << 12) | (e3 as bv32 << 6),
                           Ungroup(e1, e2, e3, 64), Ungroup(e1, e2, 64, 64);
            && |b| == 2 && (b[0] & 255) as bv32 == v >> 16 && (b[1] & 255) as bv32 == (v >> 8) & 255
            && a == [b[0]]
  {
  }

  // A text that stops inside a group is decoded as if the letter A followed.
  lemma {:induction false} UnarmourCut(t: seq<unit>)
    requires OfAlphabet(t) && |t| % 4 != 0
    ensures OfAlphabet(t + [65]) && Unarmour(t + [65]) == Unarmour(t)
  {
    var more := t + [65];
    assert InAlphabet(65) && IndexOf(65) == 0;
    hide Ungroup, InAlphabet, IndexOf;
    if |t| > 4 { UnarmourCut(t[4..]); }
    assert |t| > 4 ==> more[4..] == t[4..] + [65];
    assert |t| < 4 ==> more[Min(4, |more|)..] == [] == t[Min(4, |t|)..];
  }

  // How many padding characters n bytes need.
  function Padding(n: nat): nat { if n % 3 == 0 then 0 else 3 - n % 3 }

  // Padding stands only at the end: two characters after one byte left over, one after two.
  lemma {:induction false} ArmourPadding(b: seq<unit>, i: nat)
    requires Bytes(b) && i < |Armour(b)|
    ensures Armour(b)[i] == PAD <==> i >= |Armour(b)| - Padding(|b|)
    decreases |b|
  {
    ArmourShape(b);
    var g, rest := Group(b), b[Min(3, |b|)..];
    NoPadding(b);
    CountGroups(|b|);
    ArmourShape(rest);
    hide Group, KeyAt, InAlphabet, Padding, Bytes;
    if i >= 4 { ArmourPadding(rest, i - 4); }
    assert Armour(b) == Print(g) + Armour(rest);
  }

  lemma CountGroups(n: nat)
    requires n >= 1
    ensures (n + 2) / 3 * 4 == 4 + (n - Min(3, n) + 2) / 3 * 4
    ensures Padding(n) == if n <= 3 then 3 - n else Padding(n - 3)
  {
  }

  lemma NoPadding(b: seq<unit>)
    requires b != [] && Bytes(b)
    ensures var p := Print(Group(b));
            p[0] != PAD && p[1] != PAD && (p[2] == PAD <==> |b| == 1) && (p[3] == PAD <==> |b| <= 2)
  {
    hide Enc1, Enc2, Enc3, Enc4;
    EncRange(b[0], At(b, 1), At(b, 2));
  }

  // Taking the armour off gives the bytes back.
  lemma {:induction false} ArmourRoundTrip(b: seq<unit>)
    requires Bytes(b)
    ensures OfAlphabet(Armour(b)) && Unarmour(Armour(b)) == b
    decreases |b|
  {
    ArmourShape(b);
    if b != [] {
      var g, n := Group(b), Min(3, |b|);
      var t, rest := Armour(b), Armour(b[n..]);
      ArmourRoundTrip(b[n..]);
      OneGroup(b);
      KeyIndex(g.0);
      KeyIndex(g.1);
      KeyIndex(g.2);
      KeyIndex(g.3);
      hide Group, KeyAt, IndexOf, Ungroup, InAlphabet;
      assert t == Print(g) + rest && t[4..] == rest;
      assert b == b[..n] + b[n..];
    }
  }

  /* ---- The codec. ---- */

  function Encode(s: seq<unit>): seq<unit> {
    Utf8RoundTrip(Newlines(s));
    Armour(Utf8(Newlines(s)))
  }

  function Decode(t: seq<unit>): seq<unit> { Units(Unarmour(Filter(t))) }

  // The encoding is the Base64 form of exactly the bytes that stand for the text, its newlines replaced.
  lemma EncodeExactly(text: seq<unit>, b: seq<unit>)
    ensures StandForAll(b, Newlines(text)) <==> Bytes(b) && Encode(text) == Armour(b)
  {
    hide Utf8, Armour, Newlines, StandForAll;
    var s := Newlines(text);
    Utf8Exactly(s, b);
    Utf8RoundTrip(s);
    if Bytes(b) && Encode(text) == Armour(b) {
      ArmourRoundTrip(b);
      ArmourRoundTrip(Utf8(s));
    }
  }

  // Decoding what was encoded gives the text back, but for each CR LF, which has become LF.
  lemma RoundTrip(s: seq<unit>)
    ensures Decode(Encode(s)) == Newlines(s)
  {
    hide Units, Utf8, Armour, Unarmour, Filter;
    var b := Utf8(Newlines(s));
    Utf8RoundTrip(Newlines(s));
    ArmourRoundTrip(b);
    FilterKeeps(Armour(b));
  }

  /* ---- In the source's form. ---- */

  // The remaining input, one step of each loop further.
  lemma Utf8Step(s: seq<unit>, n: nat, was: seq<unit>, all: seq<unit>)
    requires n < |s| && was + Utf8(s[n..]) == all
    ensures was + Utf8Of(s[n]) + Utf8(s[n + 1..]) == all
  {
    hide Utf8Of;
    assert s[n..][1..] == s[n + 1..];
  }

  lemma UnitsStep(t: seq<unit>, i: nat, was: seq<unit>, all: seq<unit>)
    requires i < |t| && was + Units(t[i..]) == all
    ensures was + [Unit(t[i..])] + Units(t[Min(i + Announced(t[i]), |t|)..]) == all
  {
    hide Unit;
    var rest := t[i..];
    assert rest[Min(Announced(t[i]), |rest|)..] == t[Min(i + Announced(t[i]), |t|)..];
  }

  lemma ArmourStep(b: seq<unit>, i: nat, was: seq<unit>, all: seq<unit>)
    requires i < |b| && Bytes(b) && was + Armour(b[i..]) == all
    ensures was + Print(Group(b[i..])) + Armour(b[Min(i + 3, |b|)..]) == all
  {
    hide Group, Print;
    var rest := b[i..];
    assert rest[Min(3, |rest|)..] == b[Min(i + 3, |b|)..];
  }

  lemma UnarmourStep(t: seq<unit>, i: nat, was: seq<unit>, all: seq<unit>)
    requires i < |t| && OfAlphabet(t) && was + Unarmour(t[i..]) == all
    ensures was + Ungroup(IndexAt(t, i), IndexAt(t, i + 1), IndexAt(t, i + 2), IndexAt(t, i + 3))
            + Unarmour(t[Min(i + 4, |t|)..])
            == all
    ensures OfAlphabet(t[Min(i + 4, |t|)..])
  {
    hide Ungroup, IndexOf, InAlphabet;
    var rest := t[i..];
    assert rest[Min(4, |rest|)..] == t[Min(i + 4, |t|)..];
  }

  class Codec {
    static method Utf8Encode(text: seq<unit>) returns (utftext: seq<unit>)
      ensures utftext == Utf8(Newlines(text)) && StandForAll(utftext, Newlines(text))
    {
      hide Utf8Of, Lead2, Lead3, Next, Last, Newlines, StandsFor;
      var s := Newlines(text);
      Utf8Exactly(s, Utf8(s));
      utftext := [];
      assert s[0..] == s;
      ghost var all := Utf8(s);
      for n := 0 to |s|
        invariant utftext + Utf8(s[n..]) == all
      {
        hide Utf8;
        var c := s[n];
        ghost var was := utftext;
        if c < 128 {
          utftext := utftext + [c];
        } else if c > 127 && c < 2048 {
          utftext := utftext + [Lead2(c)];
          utftext := utftext + [Last(c)];
        } else {
          utftext := utftext + [Lead3(c)];
          utftext := utftext + [Next(c)];
          utftext := utftext + [Last(c)];
        }
        AppendsUnit(was, utftext, c);
        Utf8Step(s, n, was, all);
      }
    }

    static method Utf8Decode(utftext: seq<unit>) returns (s: seq<unit>)
      ensures s == Units(utftext)
    {
      hide Unit, Unit2, Unit3, At;
      s := [];
      var i := 0;
      assert utftext[0..] == utftext;
      ghost var all := Units(utftext);
      while i < |utftext|
        invariant s + Units(utftext[Min(i, |utftext|)..]) == all
      {
        hide Units;
        ghost var was, from := s, i;
        UnitAt(utftext, i);
        var c := utftext[i];
        if c < 128 {
          s := s + [c];
          i := i + 1;
        } else if c > 191 && c < 224 {
          var c2 := At(utftext, i + 1);
          s := s + [Unit2(c, c2)];
          i := i + 2;
        } else {
          var c2 := At(utftext, i + 1);
          var c3 := At(utftext, i + 2);
          s := s + [Unit3(c, c2, c3)];
          i := i + 3;
        }
        UnitsStep(utftext, from, was, all);
      }
    }

    static method EncodeText(text: seq<unit>) returns (output: seq<unit>)
      ensures output == Encode(text)
    {
      hide Group, Print, Utf8, Enc1, Enc2, Enc3, Enc4, At;
      output := [];
      var input := Utf8Encode(text);
      Utf8RoundTrip(Newlines(text));
      hide Bytes, Newlines;
      var i := 0;
      assert input[0..] == input;
      ghost var all := Armour(input);
      while i < |input|
        invariant Bytes(input) && Bytes(input[Min(i, |input|)..]) && output + Armour(input[Min(i, |input|)..]) == all
      {
        hide Armour;
        var chr1, chr2, chr3 := input[i], At(input, i + 1), At(input, i + 2);
        GroupAt(input, i);
        var enc1, enc2 := Enc1(chr1), Enc2(chr1, chr2);
        var enc3, enc4 := Enc3(chr2, chr3), Enc4(chr3);
        if i + 1 >= |input| {
          enc3, enc4 := 64, 64;
        } else if i + 2 >= |input| {
          enc4 := 64;
        }
        ArmourStep(input, i, output, all);
        output := output + Print((enc1, enc2, enc3, enc4));
        i := i + 3;
      }
      assert output + [] == output;
    }

    static method DecodeText(text: seq<unit>) returns (s: seq<unit>)
      ensures s == Decode(text)
    {
      hide Units, IndexOf, InAlphabet, Ungroup, Chr1, Chr2, Chr3, Filter;
      var input := Filter(text);
      hide OfAlphabet;
      var output: seq<unit> := [];
      var i := 0;
      assert input[0..] == input;
      ghost var all := Unarmour(input);
      while i < |input|
        invariant OfAlphabet(input[Min(i, |input|)..]) && output + Unarmour(input[Min(i, |input|)..]) == all
      {
        hide Unarmour;
        ghost var was := output;
        var enc1, enc2, enc3, enc4 := IndexAt(input, i), IndexAt(input, i + 1), IndexAt(input, i + 2),
          IndexAt(input, i + 3);
        output := output + [Chr1(enc1, enc2)];
        if enc3 != 64 { output := output + [Chr2(enc2, enc3)]; }
        if enc4 != 64 { output := output + [Chr3(enc3, enc4)]; }
        AppendsGroup(was, output, enc1, enc2, enc3, enc4);
        UnarmourStep(input, i, was, all);
        i := i + 4;
      }
      assert output + [] == output;
      s := Utf8Decode(output);
    }
  }

  lemma AppendsUnit(was: seq<unit>, now: seq<unit>, c: unit)
    requires now == if c < 128 then was + [c]
                    else if c < 2048 then was + [Lead2(c)] + [Last(c)]
                    else was + [Lead3(c)] + [Next(c)] + [Last(c)]
    ensures now == was + Utf8Of(c)
  {
  }

  lemma AppendsGroup(was: seq<unit>, now: seq<unit>, e1: unit, e2: unit, e3: unit, e4: unit)
    requires now == was + [Chr1(e1, e2)] + (if e3 != 64 then [Chr2(e2, e3)] else [])
             + (if e4 != 64 then [Chr3(e3, e4)] else [])
    ensures now == was + Ungroup(e1, e2, e3, e4)
  {
  }

  lemma UnitAt(t: seq<unit>, i: nat)
    requires i < |t|
    ensures var c, n := t[i], Announced(t[i]);
            Unit(t[i..]) == if n == 1 then c
                            else if n == 2 then Unit2(c, At(t, i + 1))
                            else Unit3(c, At(t, i + 1), At(t, i + 2))
  {
  }

  lemma GroupAt(b: seq<unit>, i: nat)
    requires i < |b| && Bytes(b)
    ensures Bytes(b[i..]) && Bytes(b[Min(i + 3, |b|)..])
    ensures var c1, c2, c3 := b[i], At(b, i + 1), At(b, i + 2);
            Group(b[i..]) == (Enc1(c1), Enc2(c1, c2), if i + 1 >= |b| then 64 else Enc3(c2, c3),
                              if i + 2 >= |b| then 64 else Enc4(c3))
  {
  }
}
