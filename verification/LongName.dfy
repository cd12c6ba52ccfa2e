/** Long file names (src/fs/fat32.c): UTF-8 to UTF-16 and back, and the 13-unit directory slots. */
module LongName {
  import opened Pmm
  import Paging

  type byte = Paging.byte

  const MAX_UNITS: nat := 255
  const SLOT_UNITS: nat := 13
  const MAX_SLOTS: nat := 20
  const NAME_CAPACITY: nat := 768

  // ---- one character ----

  predicate Continues(b: byte) { b / 64 == 2 }

  function Join2(a: int, b: int): int { a % 32 * 64 + b % 64 }

  function Join3(a: int, b: int, c: int): int { a % 16 * 4096 + b % 64 * 64 + c % 64 }

  function Join4(a: int, b: int, c: int, d: int): int { a % 8 * 262144 + b % 64 * 4096 + c % 64 * 64 + d % 64 }

  /** The first character of a UTF-8 string and its length; ill-formed and overlong forms, surrogates
      and values above U+10FFFF are refused. */
  function Read8(s: seq<byte>): (r: Option<(nat, nat)>)
    requires s != []
    ensures r.Some? ==> 1 <= r.value.1 <= |s| && r.value.1 <= 4
  {
    var b := s[0];
    if b < 0x80 then Some((b, 1))
    else if 0xC2 <= b <= 0xDF then
      if |s| < 2 || !Continues(s[1]) then None else Some((Join2(b, s[1]), 2))
    else if 0xE0 <= b <= 0xEF then
      if |s| < 3 || !Continues(s[1]) || !Continues(s[2]) || (b == 0xE0 && s[1] < 0xA0)
        || (b == 0xED && s[1] >= 0xA0) then None
      else Some((Join3(b, s[1], s[2]), 3))
    else if 0xF0 <= b <= 0xF4 then
      if |s| < 4 || !Continues(s[1]) || !Continues(s[2]) || !Continues(s[3]) || (b == 0xF0 && s[1] < 0x90)
        || (b == 0xF4 && s[1] >= 0x90) then None
      else Some((Join4(b, s[1], s[2], s[3]), 4))
    else None
  }

  predicate Scalar(c: nat) { c < 0x110000 && !(0xD800 <= c < 0xE000) }

  function Write8(c: nat): seq<byte>
    requires c < 0x110000
  {
    if c < 0x80 then [c]
    else if c < 0x800 then [0xC0 + c / 64, 0x80 + c % 64]
    else if c < 0x10000 then [0xE0 + c / 4096, 0x80 + c / 64 % 64, 0x80 + c % 64]
    else [0xF0 + c / 262144, 0x80 + c / 4096 % 64, 0x80 + c / 64 % 64, 0x80 + c % 64]
  }

  lemma Digits(x: nat, y: nat)
    requires y < 64
    ensures (64 * x + y) / 64 == x && (64 * x + y) % 64 == y
  {
  }

  lemma Read8Two(a: byte, b: byte)
    requires 0xC2 <= a <= 0xDF && Continues(b)
    ensures var c := Join2(a, b); 0x80 <= c < 0x800 && a == 0xC0 + c / 64 && b == 0x80 + c % 64
  {
  }

  lemma Read8Three(a: byte, b: byte, d: byte)
    requires 0xE0 <= a <= 0xEF && Continues(b) && Continues(d) && !(a == 0xE0 && b < 0xA0) && !(a == 0xED && b >= 0xA0)
    ensures var c := Join3(a, b, d);
      0x800 <= c < 0x10000 && Scalar(c) && a == 0xE0 + c / 4096 && b == 0x80 + c / 64 % 64 && d == 0x80 + c % 64
  {
    var x: nat, y: nat, z: nat := a - 0xE0, b - 0x80, d - 0x80;
    assert a % 16 == x && b % 64 == y && d % 64 == z;
    var c := Join3(a, b, d);
    assert c == 64 * (64 * x + y) + z;
    Digits(64 * x + y, z);
    Digits(x, y);
    Div4096(x, 64 * y + z);
    assert c == 4096 * x + (64 * y + z);
  }

  lemma Read8Four(a: byte, b: byte, d: byte, e: byte)
    requires 0xF0 <= a <= 0xF4 && Continues(b) && Continues(d) && Continues(e) && !(a == 0xF0 && b < 0x90)
    requires !(a == 0xF4 && b >= 0x90)
    ensures var c := Join4(a, b, d, e);
      0x10000 <= c < 0x110000 && a == 0xF0 + c / 262144 && b == 0x80 + c / 4096 % 64 && d == 0x80 + c / 64 % 64
        && e == 0x80 + c % 64
  {
    var w: nat, x: nat, y: nat, z: nat := a - 0xF0, b - 0x80, d - 0x80, e - 0x80;
    assert a % 8 == w && b % 64 == x && d % 64 == y && e % 64 == z;
    var c := Join4(a, b, d, e);
    assert c == 64 * (64 * (64 * w + x) + y) + z;
    Places(w, x, y, z);
  }

  lemma Places(w: nat, x: nat, y: nat, z: nat)
    requires x < 64 && y < 64 && z < 64
    ensures var c := 64 * (64 * (64 * w + x) + y) + z;
      c % 64 == z && c / 64 % 64 == y && c / 4096 % 64 == x && c / 262144 == w
  {
    var c := 64 * (64 * (64 * w + x) + y) + z;
    Digits(64 * (64 * w + x) + y, z);
    Digits(64 * w + x, y);
    Digits(w, x);
    Div4096(64 * w + x, 64 * y + z);
    Div262144(w, 4096 * x + 64 * y + z);
    assert c == 4096 * (64 * w + x) + (64 * y + z) == 262144 * w + (4096 * x + 64 * y + z);
  }

  lemma Div4096(a: nat, b: nat)
    requires b < 4096
    ensures (4096 * a + b) / 4096 == a
  {
  }

  lemma Div262144(a: nat, b: nat)
    requires b < 262144
    ensures (262144 * a + b) / 262144 == a
  {
  }

  lemma WriteOne(a: byte)
    requires a < 0x80
    ensures Scalar(a) && Write8(a) == [a]
  {
  }

  lemma WriteTwo(a: byte, b: byte)
    requires 0xC2 <= a <= 0xDF && Continues(b)
    ensures Scalar(Join2(a, b)) && Write8(Join2(a, b)) == [a, b]
  {
    hide Join2;
    Read8Two(a, b);
  }

  lemma WriteThree(a: byte, b: byte, d: byte)
    requires 0xE0 <= a <= 0xEF && Continues(b) && Continues(d) && !(a == 0xE0 && b < 0xA0) && !(a == 0xED && b >= 0xA0)
    ensures Scalar(Join3(a, b, d)) && Write8(Join3(a, b, d)) == [a, b, d]
  {
    hide Join3;
    Read8Three(a, b, d);
  }

  lemma WriteFour(a: byte, b: byte, d: byte, e: byte)
    requires 0xF0 <= a <= 0xF4 && Continues(b) && Continues(d) && Continues(e) && !(a == 0xF0 && b < 0x90)
    requires !(a == 0xF4 && b >= 0x90)
    ensures Scalar(Join4(a, b, d, e)) && Write8(Join4(a, b, d, e)) == [a, b, d, e]
  {
    hide Join4;
    Read8Four(a, b, d, e);
  }

  /** What was read is written back as the same bytes. */
  lemma Read8Write8(s: seq<byte>)
    requires s != [] && Read8(s).Some?
    ensures Scalar(Read8(s).value.0) && Write8(Read8(s).value.0) == s[..Read8(s).value.1]
  {
    hide Join2, Join3, Join4, Write8;
    var b := s[0];
    if b < 0x80 {
      WriteOne(b);
    } else if 0xC2 <= b <= 0xDF {
      WriteTwo(b, s[1]);
    } else if 0xE0 <= b <= 0xEF {
      WriteThree(b, s[1], s[2]);
    } else if 0xF0 <= b {
      WriteFour(b, s[1], s[2], s[3]);
    }
  }

  function Write16(c: nat): (u: seq<nat>)
    ensures |u| == if c <= 0xFFFF then 1 else 2
  {
    if c <= 0xFFFF then [c] else [0xD800 + (c - 0x10000) / 1024, 0xDC00 + (c - 0x10000) % 1024]
  }

  /** The first character of a UTF-16 string; a lone surrogate is refused. */
  function Read16(u: seq<nat>): (r: Option<(nat, nat)>)
    requires u != []
    ensures r.Some? ==> 1 <= r.value.1 <= |u|
  {
    if 0xD800 <= u[0] <= 0xDBFF then
      if |u| < 2 || u[1] < 0xDC00 || u[1] > 0xDFFF then None
      else Some((0x10000 + (u[0] - 0xD800) * 1024 + (u[1] - 0xDC00), 2))
    else if 0xDC00 <= u[0] <= 0xDFFF then None else Some((u[0], 1))
  }

  lemma Write16Read16(c: nat, rest: seq<nat>)
    requires Scalar(c)
    ensures Read16(Write16(c) + rest) == Some((c, |Write16(c)|))
    ensures c > 0xFFFF ==> 0xFFFF !in Write16(c) && 0 !in Write16(c)
  {
    if c > 0xFFFF {
      var d := c - 0x10000;
      assert d == d / 1024 * 1024 + d % 1024 && d / 1024 < 1024;
    }
  }

  lemma Write8Places(c: nat)
    requires Scalar(c)
    ensures 0x80 <= c < 0x800 ==> Join2(0xC0 + c / 64, 0x80 + c % 64) == c && 0xC2 <= 0xC0 + c / 64 <= 0xDF
    ensures 0x800 <= c < 0x10000 ==> Join3(0xE0 + c / 4096, 0x80 + c / 64 % 64, 0x80 + c % 64) == c && c / 4096 < 16
    ensures c >= 0x10000 ==> Join4(0xF0 + c / 262144, 0x80 + c / 4096 % 64, 0x80 + c / 64 % 64, 0x80 + c % 64) == c
    ensures c >= 0x10000 ==> c / 262144 <= 4
  {
    Quotients(c);
    Low6(c % 64);
    Low6(c / 64 % 64);
    Low6(c / 4096 % 64);
    if c < 0x800 {
      Low5(c / 64);
    } else if c < 0x10000 {
      Low4(c / 4096);
    } else {
      Low3(c / 262144);
    }
  }

  lemma Low6(r: nat)
    requires r < 64
    ensures (0x80 + r) % 64 == r
  {
  }

  lemma Low5(r: nat)
    requires r < 32
    ensures (0xC0 + r) % 32 == r
  {
  }

  lemma Low4(r: nat)
    requires r < 16
    ensures (0xE0 + r) % 16 == r
  {
  }

  lemma Low3(r: nat)
    requires r < 8
    ensures (0xF0 + r) % 8 == r
  {
  }

  lemma Quotients(c: nat)
    ensures c == 64 * (c / 64) + c % 64
    ensures c / 64 == 64 * (c / 4096) + c / 64 % 64
    ensures c / 4096 == 64 * (c / 262144) + c / 4096 % 64
  {
  }

  /** Every character's UTF-8 form is read as that character. */
  lemma Write8Read8(c: nat, rest: seq<byte>)
    requires Scalar(c)
    ensures Read8(Write8(c) + rest) == Some((c, |Write8(c)|))
  {
    hide Join2, Join3, Join4;
    Write8Places(c);
    Write8Guards(c);
  }

  lemma Write8Guards(c: nat)
    requires Scalar(c)
    ensures 0x800 <= c < 0x10000 ==> !(c / 4096 == 0 && c / 64 % 64 < 0x20) && !(c / 4096 == 0xD && c / 64 % 64 >= 0x20)
    ensures c >= 0x10000 ==> !(c / 262144 == 0 && c / 4096 % 64 < 0x10) && !(c / 262144 == 4 && c / 4096 % 64 >= 0x10)
  {
    Quotients(c);
  }

  // ---- whole names ----

  predicate Forbidden(c: nat) {
    c < 0x20 || c == 0x7F || c == 0x2F || c == 0x5C || c == 0x3A || c == 0x2A || c == 0x3F || c == 0x22
      || c == 0x3C || c == 0x3E || c == 0x7C
  }

  const NOT_IN_NAMES := "/\\:*?\"<>|"

  /** What may not stand in a name: control characters and the nine signs with a meaning in paths, shells
      and patterns. */
  lemma ForbiddenIs(c: nat)
    ensures Forbidden(c) <==> c < 0x20 || c == 0x7F || exists i | 0 <= i < |NOT_IN_NAMES| :: NOT_IN_NAMES[i] as nat == c
  {
    var s := NOT_IN_NAMES;
    assert s[0] as nat == 0x2F && s[1] as nat == 0x5C && s[2] as nat == 0x3A && s[3] as nat == 0x2A
      && s[4] as nat == 0x3F;
    assert s[5] as nat == 0x22 && s[6] as nat == 0x3C && s[7] as nat == 0x3E && s[8] as nat == 0x7C && |s| == 9;
  }

  /** The UTF-16 units of a UTF-8 string whose characters may all stand in a name. */
  function Units(s: seq<byte>): Option<seq<nat>>
    decreases |s|
  {
    if s == [] then Some([]) else
      var r := Read8(s);
      if r.None? || Forbidden(r.value.0) then None else
        var rest := Units(s[r.value.1..]);
        if rest.None? then None else Some(Write16(r.value.0) + rest.value)
  }

  predicate NameEnds(name: seq<byte>) {
    name != [] && name[0] != 0x20 && name[|name| - 1] != 0x20 && name[|name| - 1] != 0x2E
  }

  /** A name neither begins with a space nor ends with a space or a full stop. */
  lemma NameEndsIs(name: seq<byte>)
    ensures NameEnds(name) <==>
      name != [] && name[0] as char != ' ' && name[|name| - 1] as char != ' ' && name[|name| - 1] as char != '.'
  {
  }

  /** utf8_to_utf16 */
  function Encode(name: seq<byte>): Option<seq<nat>> {
    if !NameEnds(name) then None else
      var u := Units(name);
      if u.None? || |u.value| > MAX_UNITS then None else u
  }

  predicate UnitsOk(u: seq<nat>) { forall i | 0 <= i < |u| :: u[i] <= 0xFFFF }

  /** The UTF-8 form of UTF-16 units up to the first 0 or 0xFFFF. */
  function Text(u: seq<nat>): Option<seq<byte>>
    requires UnitsOk(u)
    decreases |u|
  {
    if u == [] || u[0] == 0 || u[0] == 0xFFFF then Some([]) else
      var r := Read16(u);
      if r.None? then None else
        var rest := Text(u[r.value.1..]);
        if rest.None? then None else Some(Write8(r.value.0) + rest.value)
  }

  /** utf16_to_utf8 */
  function Decode(u: seq<nat>, capacity: nat): Option<seq<byte>>
    requires UnitsOk(u)
  {
    var t := Text(u);
    if t.None? || |t.value| >= capacity then None else t
  }

  /** Accepted names become units without 0, at most three bytes of name for each. */
  lemma {:induction false} UnitsFacts(s: seq<byte>)
    requires Units(s).Some?
    ensures UnitsOk(Units(s).value) && 0 !in Units(s).value && |s| <= 3 * |Units(s).value|
    decreases |s|
  {
    if s != [] {
      var (c, n) := Read8(s).value;
      Read8Write8(s);
      UnitsFacts(s[n..]);
      Write16Read16(c, []);
      assert |s| == n + |s[n..]| && |Write8(c)| == n;
      assert n <= 3 * |Write16(c)|;
    }
  }

  /** Up to the first U+FFFF the units give the name back. */
  lemma {:induction false} TextOfUnits(s: seq<byte>)
    requires Units(s).Some? && UnitsOk(Units(s).value)
    ensures Text(Units(s).value).Some? && Text(Units(s).value).value <= s
    ensures Text(Units(s).value).value == s <==> 0xFFFF !in Units(s).value
    decreases |s|
  {
    hide Read8, Read16, Write8, Write16, Text, Forbidden;
    if s == [] {
      TextStops([]);
    } else {
      var (c, n) := Read8(s).value;
      var rest := Units(s[n..]).value;
      Read8Write8(s);
      NotForbidden(s);
      PaddingUnit(c, rest);
      if c == 0xFFFF {
        TextStops(Write16(c) + rest);
      } else {
        UnitsFacts(s[n..]);
        TextOfUnits(s[n..]);
        TextHead(c, rest);
        Spliced(s, n, Text(rest).value);
      }
    }
  }

  lemma NotForbidden(s: seq<byte>)
    requires s != [] && Units(s).Some?
    ensures Read8(s).value.0 != 0
  {
  }

  lemma TextStops(u: seq<nat>)
    requires UnitsOk(u) && (u == [] || u[0] == 0xFFFF)
    ensures Text(u) == Some([])
  {
  }

  lemma PaddingUnit(c: nat, rest: seq<nat>)
    requires Scalar(c)
    ensures 0xFFFF in Write16(c) + rest <==> c == 0xFFFF || 0xFFFF in rest
    ensures c == 0xFFFF ==> (Write16(c) + rest)[0] == 0xFFFF
  {
    Write16Read16(c, rest);
  }

  lemma Spliced(s: seq<byte>, n: nat, t: seq<byte>)
    requires n <= |s| && t <= s[n..]
    ensures s[..n] + t <= s && (s[..n] + t == s <==> t == s[n..])
  {
    assert s == s[..n] + s[n..];
    if s[..n] + t == s {
      assert |t| == |s[n..]|;
    }
  }

  lemma TextHead(c: nat, rest: seq<nat>)
    requires Scalar(c) && c != 0 && c != 0xFFFF && UnitsOk(rest) && Text(rest).Some?
    ensures UnitsOk(Write16(c) + rest) && Text(Write16(c) + rest) == Some(Write8(c) + Text(rest).value)
  {
    var u, k := Write16(c) + rest, |Write16(c)|;
    Write16Read16(c, rest);
    assert u[k..] == rest;
    assert u[0] != 0 && u[0] != 0xFFFF;
  }

  // ---- which names are accepted ----

  predicate NameCharacters(cs: seq<nat>) { forall i | 0 <= i < |cs| :: Scalar(cs[i]) && !Forbidden(cs[i]) }

  function Utf8(cs: seq<nat>): seq<byte>
    requires NameCharacters(cs)
  {
    if cs == [] then [] else Write8(cs[0]) + Utf8(cs[1..])
  }

  function Utf16(cs: seq<nat>): seq<nat> {
    if cs == [] then [] else Write16(cs[0]) + Utf16(cs[1..])
  }

  lemma {:induction false} UnitsComplete(cs: seq<nat>)
    requires NameCharacters(cs)
    ensures Units(Utf8(cs)) == Some(Utf16(cs))
  {
    hide Read8, Write8, Write16, Forbidden;
    if cs != [] {
      var rest := Utf8(cs[1..]);
      Write8Read8(cs[0], rest);
      UnitsComplete(cs[1..]);
      assert (Write8(cs[0]) + rest)[|Write8(cs[0])|..] == rest;
    }
  }

  lemma {:induction false} UnitsSound(s: seq<byte>) returns (cs: seq<nat>)
    requires Units(s).Some?
    ensures NameCharacters(cs) && Utf8(cs) == s && Utf16(cs) == Units(s).value
    decreases |s|
  {
    hide Read8, Write8, Write16, Forbidden;
    if s == [] {
      cs := [];
    } else {
      var (c, n) := Read8(s).value;
      Read8Write8(s);
      var rest := UnitsSound(s[n..]);
      cs := [c] + rest;
      assert cs[1..] == rest;
      assert s == s[..n] + s[n..];
    }
  }

  /** The encoder accepts exactly the UTF-8 forms of sequences of permitted characters, without a
      blank at either end or a dot at the end, that take at most 255 units, and gives their UTF-16
      form. */
  lemma EncodeExact(name: seq<byte>)
    ensures Encode(name).Some? <==>
      NameEnds(name) && exists cs :: NameCharacters(cs) && Utf8(cs) == name && |Utf16(cs)| <= MAX_UNITS
    ensures forall cs | NameCharacters(cs) && Utf8(cs) == name && Encode(name).Some? :: Encode(name).value == Utf16(cs)
  {
    forall cs | NameCharacters(cs) && Utf8(cs) == name ensures Units(name) == Some(Utf16(cs)) {
      UnitsComplete(cs);
    }
    if Units(name).Some? {
      var cs := UnitsSound(name);
    }
  }

  /** Only the character U+FFFF gives the unit that stands for padding. */
  lemma {:induction false} PaddingCharacter(cs: seq<nat>)
    requires NameCharacters(cs)
    ensures 0xFFFF in Utf16(cs) <==> 0xFFFF in cs
  {
    hide Write16, Forbidden, Scalar;
    if cs != [] {
      PaddingCharacter(cs[1..]);
      PaddingUnit(cs[0], Utf16(cs[1..]));
      assert cs == [cs[0]] + cs[1..];
    }
  }

  /** Encoding and decoding a name gives it back, into a buffer of 768 bytes, exactly when the
      character U+FFFF is not in it: the decoder takes that unit for padding. */
  lemma NameRoundTrip(cs: seq<nat>)
    requires NameCharacters(cs) && Encode(Utf8(cs)).Some?
    ensures var name := Utf8(cs);
      UnitsOk(Encode(name).value) && (Decode(Encode(name).value, NAME_CAPACITY) == Some(name) <==> 0xFFFF !in cs)
  {
    hide Decode, Encode, NameCharacters;
    TextOfName(Utf8(cs));
    EncodeExact(Utf8(cs));
    PaddingCharacter(cs);
  }

  lemma TextOfName(name: seq<byte>)
    requires Encode(name).Some?
    ensures UnitsOk(Encode(name).value)
    ensures Decode(Encode(name).value, NAME_CAPACITY) == Some(name) <==> 0xFFFF !in Encode(name).value
  {
    UnitsFacts(name);
    TextOfUnits(name);
  }

  /** Such names are accepted: the single character U+FFFF is one. */
  lemma NoncharacterLost()
    ensures var name: seq<byte> := [0xEF, 0xBF, 0xBF];
      Encode(name) == Some([0xFFFF]) && UnitsOk([0xFFFF]) && Decode([0xFFFF], NAME_CAPACITY) == Some([])
  {
    var name: seq<byte> := [0xEF, 0xBF, 0xBF];
    assert Read8(name) == Some((0xFFFF, 3));
    assert name[3..] == [];
    assert Units(name[3..]) == Some([]);
    assert Write16(0xFFFF) + [] == [0xFFFF];
    assert Units(name) == Some([0xFFFF]);
  }

  // ---- directory slots ----

  /** lfn_checksum: rotate right and add, over the eleven bytes of the short alias. */
  function Checksum(alias: seq<byte>): byte {
    if alias == [] then 0 else
      var sum: int := Checksum(alias[..|alias| - 1]);
      (sum % 2 * 128 + sum / 2 + alias[|alias| - 1]) % 256
  }

  function Power(n: nat): nat { if n == 0 then 1 else 2 * Power(n - 1) }

  /** The last `n` bits of a number, lowest first. */
  function Bits(x: nat, n: nat): (b: seq<nat>)
    ensures |b| == n && forall i | 0 <= i < n :: b[i] < 2
  {
    if n == 0 then [] else [x % 2] + Bits(x / 2, n - 1)
  }

  function Value(b: seq<nat>): nat { if b == [] then 0 else b[0] + 2 * Value(b[1..]) }

  lemma {:induction false} BitsValue(x: nat, n: nat)
    requires x < Power(n)
    ensures Value(Bits(x, n)) == x
  {
    if n > 0 {
      BitsValue(x / 2, n - 1);
      assert Bits(x, n)[1..] == Bits(x / 2, n - 1);
    }
  }

  lemma {:induction false} ValueAppend(b: seq<nat>, top: nat)
    ensures Value(b + [top]) == Value(b) + Power(|b|) * top
  {
    if b != [] {
      assert (b + [top])[1..] == b[1..] + [top];
      ValueAppend(b[1..], top);
    } else {
      assert [top][1..] == [];
    }
  }

  /** The eight bits of a byte, turned right by one: the lowest becomes the highest. */
  function TurnedRight(x: byte): nat {
    var b := Bits(x, 8);
    Value(b[1..] + [b[0]])
  }

  lemma Power8()
    ensures Power(7) == 128 && Power(8) == 256
  {
    assert Power(4) == 16;
  }

  lemma TurnedIs(x: byte)
    ensures TurnedRight(x) == x % 2 * 128 + x / 2
  {
    hide Value, Power;
    Power8();
    BitsValue(x / 2, 7);
    ValueAppend(Bits(x / 2, 7), x % 2);
    assert Bits(x, 8)[1..] == Bits(x / 2, 7);
  }

  /** The sum starts at zero, and for each byte its bits turn right by one before the byte is added. */
  lemma ChecksumIs(alias: seq<byte>, b: byte)
    ensures Checksum([]) == 0 && Checksum(alias + [b]) == (TurnedRight(Checksum(alias)) + b) % 256
  {
    hide TurnedRight;
    TurnedIs(Checksum(alias));
    assert (alias + [b])[..|alias|] == alias;
  }

  function Get16(item: seq<byte>, at: nat): nat
    requires at + 1 < |item|
  {
    var low: int, high: int := item[at], item[at + 1];
    low + 256 * high
  }

  function Put16(item: seq<byte>, at: nat, v: nat): (r: seq<byte>)
    requires at + 1 < |item| && v < 65536
    ensures |r| == |item| && Get16(r, at) == v
    ensures forall k | 0 <= k < |item| && k != at && k != at + 1 :: r[k] == item[k]
  {
    item[at := v % 256][at + 1 := v / 256]
  }

  /** Where unit `j` of a slot is stored. */
  function Position(j: nat): (p: nat)
    requires j < SLOT_UNITS
    ensures 1 <= p <= 9 || 14 <= p <= 24 || 28 <= p <= 30
    ensures p == [1, 3, 5, 7, 9, 14, 16, 18, 20, 22, 24, 28, 30][j]
  {
    if j < 5 then 1 + 2 * j else if j < 11 then 14 + 2 * (j - 5) else 28 + 2 * (j - 11)
  }

  lemma PositionsApart(i: nat, j: nat)
    requires i < SLOT_UNITS && j < SLOT_UNITS && i != j
    ensures Position(i) + 1 < Position(j) || Position(j) + 1 < Position(i)
  {
  }

  /** The units of a name followed by its terminator and padding. */
  function PaddedUnit(u: seq<nat>, k: nat): nat {
    if k < |u| then u[k] else if k == |u| then 0 else 0xFFFF
  }

  /** The units of `n` slots: the name, a zero if there is room for it, and 0xFFFF up to the end. */
  lemma PaddedIs(u: seq<nat>, n: nat)
    requires |u| <= n
    ensures seq(n, k requires 0 <= k < n => PaddedUnit(u, k))
      == if |u| == n then u else u + [0] + seq(n - |u| - 1, _ => 0xFFFF)
  {
  }

  /** A slot on disk: ordinal, marks, checksum, and thirteen units of the name. */
  predicate SlotOk(item: seq<byte>, u: seq<nat>, ordinal: nat, last: bool, checksum: byte) {
    && |item| == 32 && 1 <= ordinal
    && item[0] == ordinal + (if last then 64 else 0)
    && item[11] == 0x0F && item[12] == 0 && item[13] == checksum && Get16(item, 26) == 0
    && forall j | 0 <= j < SLOT_UNITS :: Get16(item, Position(j)) == PaddedUnit(u, (ordinal - 1) * 13 + j)
  }

  lemma SameGet16(a: seq<byte>, b: seq<byte>, at: nat)
    requires at + 1 < |a| && at + 1 < |b| && Get16(a, at) == Get16(b, at)
    ensures a[at] == b[at] && a[at + 1] == b[at + 1]
  {
  }

  /** Which unit, if any, has byte `k` of a slot. */
  function UnitAt(k: nat): Option<nat>
    requires k < 32
  {
    if 1 <= k < 11 then Some((k - 1) / 2) else if 14 <= k < 26 then Some((k - 14) / 2 + 5)
    else if k >= 28 then Some((k - 28) / 2 + 11) else None
  }

  lemma UnitIsAt(k: nat)
    requires k < 32 && UnitAt(k).Some?
    ensures UnitAt(k).value < SLOT_UNITS && Position(UnitAt(k).value) <= k <= Position(UnitAt(k).value) + 1
  {
  }

  /** A slot is laid out completely: its name, its place in the name and the checksum fix all of its bytes. */
  lemma SlotUnique(a: seq<byte>, b: seq<byte>, u: seq<nat>, ordinal: nat, last: bool, checksum: byte)
    requires SlotOk(a, u, ordinal, last, checksum) && SlotOk(b, u, ordinal, last, checksum)
    ensures a == b
  {
    hide Get16, Position, UnitAt;
    SameGet16(a, b, 26);
    forall k | 0 <= k < 32 ensures a[k] == b[k] {
      SlotByte(a, b, u, ordinal, last, checksum, k);
    }
  }

  lemma SlotByte(a: seq<byte>, b: seq<byte>, u: seq<nat>, ordinal: nat, last: bool, checksum: byte, k: nat)
    requires SlotOk(a, u, ordinal, last, checksum) && SlotOk(b, u, ordinal, last, checksum) && k < 32
    ensures a[k] == b[k]
  {
    hide Get16, Position;
    if UnitAt(k).Some? {
      UnitIsAt(k);
      SameGet16(a, b, Position(UnitAt(k).value));
    } else {
      SameGet16(a, b, 26);
    }
  }

  function Blank(): (r: seq<byte>)
    ensures |r| == 32 && forall i | 0 <= i < 32 :: r[i] == 0
  {
    seq(32, _ => 0)
  }

  /** The inner part of create_named_entry: one slot. */
  method MakeSlot(u: seq<nat>, ordinal: nat, last: bool, checksum: byte) returns (item: seq<byte>)
    requires UnitsOk(u) && 1 <= ordinal <= MAX_SLOTS
    ensures SlotOk(item, u, ordinal, last, checksum)
  {
    item := Blank();
    var head: seq<byte> := item[0 := ordinal + if last then 64 else 0][11 := 0x0F][13 := checksum];
    item := Put16(head, 26, 0);
    var j := 0;
    while j < SLOT_UNITS
      invariant 0 <= j <= SLOT_UNITS && |item| == 32
      invariant item[0] == ordinal + (if last then 64 else 0) && item[11] == 0x0F && item[12] == 0
      invariant item[13] == checksum && Get16(item, 26) == 0
      invariant forall k | 0 <= k < j :: Get16(item, Position(k)) == PaddedUnit(u, (ordinal - 1) * 13 + k)
    {
      var before := item;
      item := Put16(item, Position(j), PaddedUnit(u, (ordinal - 1) * 13 + j));
      forall k | 0 <= k < j ensures Get16(item, Position(k)) == Get16(before, Position(k)) {
        PositionsApart(k, j);
      }
      j := j + 1;
    }
  }

  /** The slots of a name: descending ordinals, the first one marked as the last of the name. */
  predicate SlotsOk(items: seq<seq<byte>>, u: seq<nat>, checksum: byte) {
    |items| == (|u| + 12) / 13 && forall i | 0 <= i < |items| :: SlotOk(items[i], u, |items| - i, i == 0, checksum)
  }

  /** The loop of create_named_entry over the slots of a long name. */
  method MakeSlots(u: seq<nat>, checksum: byte) returns (items: seq<seq<byte>>)
    requires UnitsOk(u) && |u| <= MAX_UNITS
    ensures SlotsOk(items, u, checksum)
  {
    var count := (|u| + 12) / 13;
    items := [];
    while |items| < count
      invariant |items| <= count && forall i | 0 <= i < |items| :: SlotOk(items[i], u, count - i, i == 0, checksum)
    {
      var item := MakeSlot(u, count - |items|, |items| == 0, checksum);
      items := items + [item];
    }
  }

  // ---- reading slots back ----

  datatype Reader = Reader(units: seq<nat>, checksum: byte, expected: nat, total: nat, active: bool)

  function Reset(r: Reader): Reader { r.(active := false, expected := 0, total := 0) }

  function Padding(): (u: seq<nat>)
    ensures |u| == 260 && forall i | 0 <= i < 260 :: u[i] == 0xFFFF
  {
    seq(260, _ => 0xFFFF)
  }

  function Ordinal(entry: seq<byte>): nat
    requires entry != []
  {
    var b: int := entry[0];
    b % 32
  }

  /** The thirteen units of a slot. */
  function SlotUnits(entry: seq<byte>): (u: seq<nat>)
    requires |entry| == 32
    ensures |u| == SLOT_UNITS
  {
    seq(SLOT_UNITS, j requires 0 <= j < SLOT_UNITS => Get16(entry, Position(j)))
  }

  predicate Marked(b: int, bit: int)
    requires bit > 0
  {
    b / bit % 2 == 1
  }

  /** The reader after the test for the last slot of a name. */
  function Begun(r: Reader, entry: seq<byte>): Reader
    requires |entry| == 32
  {
    if Marked(entry[0], 64) then Reader(Padding(), entry[13], Ordinal(entry), Ordinal(entry),
      0 < Ordinal(entry) <= MAX_SLOTS) else r
  }

  predicate Fits(r: Reader, entry: seq<byte>)
    requires |entry| == 32
  {
    r.active && Ordinal(entry) == r.expected && entry[13] == r.checksum && entry[12] == 0 && Get16(entry, 26) == 0
  }

  predicate ReaderOk(r: Reader) {
    |r.units| == 260 && UnitsOk(r.units) && (r.active ==> r.expected <= r.total <= MAX_SLOTS)
  }

  /** lfn_add_entry */
  function Add(r: Reader, entry: seq<byte>): Reader
    requires |entry| == 32 && entry[0] != 0 && ReaderOk(r)
  {
    if Marked(entry[0], 128) || Marked(entry[0], 32) then Reset(r) else
      var b := Begun(r, entry);
      if !Fits(b, entry) then Reset(b) else
        var base := (Ordinal(entry) - 1) * 13;
        b.(units := b.units[..base] + SlotUnits(entry) + b.units[base + 13..], expected := b.expected - 1)
  }

  lemma AddOk(r: Reader, entry: seq<byte>)
    requires |entry| == 32 && entry[0] != 0 && ReaderOk(r)
    ensures ReaderOk(Add(r, entry))
  {
    forall j | 0 <= j < SLOT_UNITS ensures SlotUnits(entry)[j] <= 0xFFFF {
    }
  }

  /** The reader has taken the slots down to ordinal `k` of a name in `n` slots. */
  ghost predicate TakenDown(r: Reader, u: seq<nat>, checksum: byte, n: nat, k: nat) {
    && ReaderOk(r) && r.active && r.total == n && r.expected == k <= n && r.checksum == checksum
    && forall i | k * 13 <= i < n * 13 :: r.units[i] == PaddedUnit(u, i)
  }

  lemma SlotBits(item: seq<byte>, u: seq<nat>, ordinal: nat, last: bool, checksum: byte)
    requires SlotOk(item, u, ordinal, last, checksum) && ordinal <= MAX_SLOTS
    ensures item[0] != 0 && !Marked(item[0], 128) && !Marked(item[0], 32) && (Marked(item[0], 64) <==> last)
    ensures Ordinal(item) == ordinal
  {
  }

  lemma UnitPlaces(units: seq<nat>, item: seq<byte>, u: seq<nat>, ordinal: nat, last: bool, checksum: byte)
    requires |units| == 260 && SlotOk(item, u, ordinal, last, checksum) && ordinal <= MAX_SLOTS
    ensures var base := (ordinal - 1) * 13; var v := units[..base] + SlotUnits(item) + units[base + 13..];
      && |v| == 260
      && (forall i | base <= i < base + 13 :: v[i] == PaddedUnit(u, i))
      && (forall i | base + 13 <= i < 260 :: v[i] == units[i])
  {
    var base := (ordinal - 1) * 13;
    forall i | base <= i < base + 13 ensures SlotUnits(item)[i - base] == PaddedUnit(u, i) {
      assert Get16(item, Position(i - base)) == PaddedUnit(u, base + (i - base));
    }
  }

  lemma AddFirst(r: Reader, item: seq<byte>, u: seq<nat>, n: nat, checksum: byte)
    requires ReaderOk(r) && SlotOk(item, u, n, true, checksum) && n <= MAX_SLOTS
    ensures item[0] != 0 && TakenDown(Add(r, item), u, checksum, n, n - 1)
  {
    SlotBits(item, u, n, true, checksum);
    UnitPlaces(Padding(), item, u, n, true, checksum);
  }

  lemma AddNext(r: Reader, item: seq<byte>, u: seq<nat>, n: nat, k: nat, checksum: byte)
    requires TakenDown(r, u, checksum, n, k) && SlotOk(item, u, k, false, checksum)
    ensures item[0] != 0 && TakenDown(Add(r, item), u, checksum, n, k - 1)
  {
    SlotBits(item, u, k, false, checksum);
    UnitPlaces(r.units, item, u, k, false, checksum);
  }

  predicate Entries(items: seq<seq<byte>>) {
    forall i | 0 <= i < |items| :: |items[i]| == 32 && items[i][0] != 0
  }

  /** Reading a run of slots. */
  function AddAll(r: Reader, items: seq<seq<byte>>): (q: Reader)
    requires ReaderOk(r) && Entries(items)
    ensures ReaderOk(q)
  {
    if items == [] then r else
      var q := AddAll(r, items[..|items| - 1]);
      AddOk(q, items[|items| - 1]);
      Add(q, items[|items| - 1])
  }

  lemma AddAllStep(r: Reader, items: seq<seq<byte>>, k: nat)
    requires ReaderOk(r) && Entries(items) && 0 < k <= |items|
    ensures AddAll(r, items[..k]) == Add(AddAll(r, items[..k - 1]), items[k - 1])
  {
    assert items[..k][..k - 1] == items[..k - 1];
  }

  lemma SlotEntries(items: seq<seq<byte>>, u: seq<nat>, checksum: byte)
    requires SlotsOk(items, u, checksum) && |u| <= MAX_UNITS
    ensures Entries(items)
  {
    forall i | 0 <= i < |items| ensures |items[i]| == 32 && items[i][0] != 0 {
      SlotBits(items[i], u, |items| - i, i == 0, checksum);
    }
  }

  lemma SlotAt(items: seq<seq<byte>>, u: seq<nat>, checksum: byte, i: nat)
    requires SlotsOk(items, u, checksum) && i < |items|
    ensures SlotOk(items[i], u, |items| - i, i == 0, checksum)
  {
  }

  lemma NoneRead(r: Reader, items: seq<seq<byte>>)
    requires ReaderOk(r) && Entries(items)
    ensures AddAll(r, items[..0]) == r
  {
  }

  lemma {:induction false} SlotsTaken(r: Reader, items: seq<seq<byte>>, u: seq<nat>, checksum: byte, k: nat)
    requires ReaderOk(r) && SlotsOk(items, u, checksum) && |u| <= MAX_UNITS && 0 < k <= |items| <= MAX_SLOTS
    requires Entries(items)
    ensures TakenDown(AddAll(r, items[..k]), u, checksum, |items|, |items| - k)
    decreases k
  {
    hide ReaderOk, SlotsOk, SlotOk, TakenDown, Add, AddAll;
    AddAllStep(r, items, k);
    SlotAt(items, u, checksum, k - 1);
    if k == 1 {
      NoneRead(r, items);
      AddFirst(r, items[0], u, |items|, checksum);
    } else {
      SlotsTaken(r, items, u, checksum, k - 1);
      AddNext(AddAll(r, items[..k - 1]), items[k - 1], u, |items|, |items| - (k - 1), checksum);
    }
  }

  /** Index of the first zero unit, or the length. */
  function FirstZero(u: seq<nat>): (k: nat)
    ensures k <= |u| && (forall i | 0 <= i < k :: u[i] != 0) && (k < |u| ==> u[k] == 0)
  {
    if u == [] || u[0] == 0 then 0 else 1 + FirstZero(u[1..])
  }

  /** lfn_decode */
  function DecodeName(r: Reader, alias: seq<byte>, capacity: nat): Option<seq<byte>>
    requires ReaderOk(r)
  {
    if !r.active || r.expected != 0 || Checksum(alias) != r.checksum then None else
      Decode(r.units[..FirstZero(r.units[..r.total * 13])], capacity)
  }

  lemma PaddedEnd(v: seq<nat>, u: seq<nat>, n: nat)
    requires n == (|u| + 12) / 13 && n * 13 <= |v| && 0 !in u && forall i | 0 <= i < n * 13 :: v[i] == PaddedUnit(u, i)
    ensures v[..FirstZero(v[..n * 13])] == u
  {
    var w := v[..n * 13];
    assert |u| <= n * 13;
    forall i | 0 <= i < |u| ensures w[i] == u[i] != 0 {
      assert u[i] in u;
    }
    assert |u| < n * 13 ==> w[|u|] == 0;
    assert FirstZero(w) == |u|;
  }

  /** The whole way: the slots written for an accepted name, read in order from any state of the
      reader and decoded against the alias, give the name back if and only if it has no U+FFFF. */
  lemma LongNameRoundTrip(cs: seq<nat>, alias: seq<byte>, items: seq<seq<byte>>, r: Reader)
    requires NameCharacters(cs) && Encode(Utf8(cs)).Some? && SlotsOk(items, Encode(Utf8(cs)).value, Checksum(alias))
    requires ReaderOk(r)
    ensures Entries(items) && (DecodeName(AddAll(r, items), alias, NAME_CAPACITY) == Some(Utf8(cs)) <==> 0xFFFF !in cs)
  {
    var name := Utf8(cs);
    var u := Encode(name).value;
    UnitsFacts(name);
    NotNone(name);
    SlotEntries(items, u, Checksum(alias));
    SlotsTaken(r, items, u, Checksum(alias), |items|);
    assert items[..|items|] == items;
    PaddedEnd(AddAll(r, items).units, u, |items|);
    NameRoundTrip(cs);
  }

  lemma NotNone(name: seq<byte>)
    requires Encode(name).Some?
    ensures Encode(name).value != []
  {
    var (c, n) := Read8(name).value;
    assert |Write16(c)| > 0;
  }

  // ---- what the reader accepts ----

  /** The slot is number `ordinal` of a name with this checksum, and the first to come exactly if it is
      the last of the name. */
  predicate Belongs(item: seq<byte>, ordinal: nat, first: bool, checksum: byte) {
    && |item| == 32 && item[0] == ordinal + (if first then 64 else 0) && item[12] == 0 && item[13] == checksum
    && Get16(item, 26) == 0
  }

  /** The slots from place `k` on are the beginning of a name that the reader has taken in, each in its place. */
  ghost predicate Following(q: Reader, items: seq<seq<byte>>, k: nat) {
    && ReaderOk(q) && k < |items| && q.expected < q.total <= MAX_SLOTS && |items| - k == q.total - q.expected
    && forall i | k <= i < |items| :: FollowingAt(q, items[i], q.total - (i - k), i == k)
  }

  ghost predicate FollowingAt(q: Reader, item: seq<byte>, ordinal: nat, first: bool) {
    && Belongs(item, ordinal, first, q.checksum) && 1 <= ordinal && ordinal * 13 <= |q.units|
    && q.units[(ordinal - 1) * 13..ordinal * 13] == SlotUnits(item)
  }

  lemma BitsOf(b: byte)
    requires b != 0 && !Marked(b, 128) && !Marked(b, 32)
    ensures b == b % 32 + (if Marked(b, 64) then 64 else 0) && (!Marked(b, 64) ==> b % 32 > 0)
  {
  }

  lemma UnitsKept(units: seq<nat>, slot: seq<nat>, base: nat, lo: nat, hi: nat)
    requires |slot| == 13 && base + 13 <= lo <= hi <= |units|
    ensures var v := units[..base] + slot + units[base + 13..];
      |v| == |units| && v[base..base + 13] == slot && v[lo..hi] == units[lo..hi]
  {
  }

  lemma FollowFirst(r: Reader, items: seq<seq<byte>>, item: seq<byte>)
    requires ReaderOk(r) && |item| == 32 && item[0] != 0 && Marked(item[0], 64) && Add(r, item).active
    ensures Following(Add(r, item), items + [item], |items|)
  {
    hide SlotUnits, Get16;
    AddOk(r, item);
    BitsOf(item[0]);
    var q, n := Add(r, item), Ordinal(item);
    UnitsKept(Padding(), SlotUnits(item), (n - 1) * 13, n * 13, n * 13);
    assert FollowingAt(q, item, n, true);
  }

  lemma FollowKept(r: Reader, q: Reader, slot: seq<nat>, n: nat, item: seq<byte>, ordinal: nat, first: bool)
    requires FollowingAt(r, item, ordinal, first) && 1 <= n < ordinal && |slot| == 13 && q.checksum == r.checksum
    requires q.units == r.units[..(n - 1) * 13] + slot + r.units[n * 13..]
    ensures FollowingAt(q, item, ordinal, first)
  {
    hide SlotUnits, Belongs;
    UnitsKept(r.units, slot, (n - 1) * 13, (ordinal - 1) * 13, ordinal * 13);
  }

  lemma FollowNext(r: Reader, items: seq<seq<byte>>, item: seq<byte>, k: nat)
    requires Following(r, items, k) && r.active && |item| == 32 && item[0] != 0 && !Marked(item[0], 64)
    requires Add(r, item).active
    ensures Following(Add(r, item), items + [item], k)
  {
    hide SlotUnits, Get16, UnitsOk, FollowingAt;
    AddOk(r, item);
    BitsOf(item[0]);
    var q, n, all := Add(r, item), Ordinal(item), items + [item];
    FollowHere(r, item);
    forall i | k <= i < |all| ensures FollowingAt(q, all[i], q.total - (i - k), i == k) {
      if i < |items| {
        FollowKept(r, q, SlotUnits(item), n, items[i], r.total - (i - k), i == k);
      }
    }
  }

  lemma FollowHere(r: Reader, item: seq<byte>)
    requires ReaderOk(r) && r.active && |item| == 32 && item[0] != 0 && !Marked(item[0], 64) && Add(r, item).active
    ensures FollowingAt(Add(r, item), item, r.expected, false)
  {
    hide SlotUnits, Get16, UnitsOk;
    BitsOf(item[0]);
    var n := Ordinal(item);
    UnitsKept(r.units, SlotUnits(item), (n - 1) * 13, n * 13, n * 13);
  }

  lemma {:induction false} ReadsRuns(r: Reader, items: seq<seq<byte>>)
    requires ReaderOk(r) && !r.active && Entries(items) && AddAll(r, items).active
    ensures exists k: nat :: Following(AddAll(r, items), items, k)
  {
    hide Add, ReaderOk, Following;
    if items != [] {
      var before, item := items[..|items| - 1], items[|items| - 1];
      var q := AddAll(r, before);
      assert items == before + [item];
      if Marked(item[0], 64) {
        FollowFirst(q, before, item);
      } else {
        WasActive(q, item);
        ReadsRuns(r, before);
        var k: nat :| Following(q, before, k);
        FollowNext(q, before, item, k);
      }
    }
  }

  lemma WasActive(r: Reader, item: seq<byte>)
    requires |item| == 32 && item[0] != 0 && ReaderOk(r) && !Marked(item[0], 64) && Add(r, item).active
    ensures r.active
  {
  }

  /** These are all the slots of a name, in descending order, and `units` holds their units in ascending
      order. */
  ghost predicate WholeName(units: seq<nat>, items: seq<seq<byte>>, checksum: byte) {
    && |items| * 13 <= |units|
    && forall i | 0 <= i < |items| ::
         var ordinal := |items| - i;
         Belongs(items[i], ordinal, i == 0, checksum) && units[(ordinal - 1) * 13..ordinal * 13] == SlotUnits(items[i])
  }

  lemma WholeFrom(q: Reader, items: seq<seq<byte>>, k: nat)
    requires Following(q, items, k) && q.expected == 0
    ensures WholeName(q.units, items[k..], q.checksum)
  {
    hide SlotUnits, Get16;
    var run := items[k..];
    forall i | 0 <= i < |run|
      ensures var ordinal := |run| - i;
        Belongs(run[i], ordinal, i == 0, q.checksum) && ordinal * 13 <= |q.units|
          && q.units[(ordinal - 1) * 13..ordinal * 13] == SlotUnits(run[i]) {
      assert FollowingAt(q, items[k + i], q.total - i, k + i == k);
    }
    assert FollowingAt(q, items[k], q.total, true);
  }

  /** A long name is used only if the slots right before the short entry are all of its slots, each with
      the checksum of the alias; its units are then those of the slots. */
  lemma OnlyWholeNames(r: Reader, items: seq<seq<byte>>, alias: seq<byte>, capacity: nat)
    requires ReaderOk(r) && !r.active && Entries(items) && DecodeName(AddAll(r, items), alias, capacity).Some?
    ensures exists k: nat | k < |items| :: WholeName(AddAll(r, items).units, items[k..], Checksum(alias))
  {
    hide AddAll, Decode, WholeName;
    ReadsRuns(r, items);
    var k: nat :| Following(AddAll(r, items), items, k);
    WholeFrom(AddAll(r, items), items, k);
  }

  /** Some characters with forms of every length. */
  lemma KnownCharacters()
    ensures Write8(0x41) == [0x41] && Write8(0xE9) == [0xC3, 0xA9] && Write8(0x20AC) == [0xE2, 0x82, 0xAC]
    ensures Write8(0x1F600) == [0xF0, 0x9F, 0x98, 0x80]
    ensures Write16(0x20AC) == [0x20AC] && Write16(0x1F600) == [0xD83D, 0xDE00]
  {
  }

  // ---- the code ----

  ghost predicate SameRest(whole: Option<seq<nat>>, done: seq<nat>, rest: Option<seq<nat>>) {
    whole == if rest.None? then None else Some(done + rest.value)
  }

  /** utf8_to_utf16, with the unit count checked on the way. */
  method EncodeName(name: seq<byte>) returns (r: Option<seq<nat>>)
    ensures r == Encode(name)
  {
    hide Units, Read8, SameRest;
    if !NameEnds(name) {
      return None;
    }
    var bytes, out := 0, [];
    assert name[0..] == name;
    SameStart(Units(name));
    while bytes < |name|
      invariant 0 <= bytes <= |name| && |out| <= MAX_UNITS && SameRest(Units(name), out, Units(name[bytes..]))
    {
      var rest := name[bytes..];
      var c := Read8(rest);
      if c.None? || Forbidden(c.value.0) {
        UnitsStop(rest, out, Units(name));
        return None;
      }
      var units := Write16(c.value.0);
      assert rest[c.value.1..] == name[bytes + c.value.1..];
      UnitsStep(rest, c.value.0, c.value.1, out, Units(name));
      if |out| + |units| > MAX_UNITS {
        return None;
      }
      bytes, out := bytes + c.value.1, out + units;
    }
    assert name[bytes..] == [];
    SameEnd(Units(name), out);
    return Some(out);
  }

  lemma SameStart(whole: Option<seq<nat>>)
    ensures SameRest(whole, [], whole)
  {
    if whole.Some? {
      assert [] + whole.value == whole.value;
    }
  }

  lemma SameEnd(whole: Option<seq<nat>>, out: seq<nat>)
    requires SameRest(whole, out, Units([]))
    ensures whole == Some(out)
  {
    assert out + [] == out;
  }

  lemma UnitsStop(rest: seq<byte>, out: seq<nat>, whole: Option<seq<nat>>)
    requires rest != [] && (Read8(rest).None? || Forbidden(Read8(rest).value.0)) && SameRest(whole, out, Units(rest))
    ensures whole == None
  {
  }

  lemma UnitsStep(rest: seq<byte>, c: nat, n: nat, out: seq<nat>, whole: Option<seq<nat>>)
    requires rest != [] && Read8(rest) == Some((c, n)) && !Forbidden(c) && SameRest(whole, out, Units(rest))
    ensures SameRest(whole, out + Write16(c), Units(rest[n..]))
    ensures whole.Some? ==> |whole.value| >= |out| + |Write16(c)|
  {
    var tail := Units(rest[n..]);
    if tail.Some? {
      assert out + (Write16(c) + tail.value) == out + Write16(c) + tail.value;
    }
  }

  /** The long-name state that a directory scan carries along. */
  class LfnState {
    const units: array<nat>
    var checksum: byte
    var expected: nat
    var total: nat
    var active: bool

    ghost function R(): Reader
      reads this, units
    {
      Reader(units[..], checksum, expected, total, active)
    }

    constructor ()
      ensures ReaderOk(R()) && !active && fresh(units)
    {
      units := new nat[260](_ => 0xFFFF);
      checksum, expected, total, active := 0, 0, 0, false;
    }

    /** lfn_add_entry. A slot that does not continue the run resets the reader. */
    method AddEntry(entry: seq<byte>)
      requires |entry| == 32 && entry[0] != 0 && ReaderOk(R())
      modifies this, units
      ensures ReaderOk(R()) && R() == Add(old(R()), entry)
    {
      hide SlotUnits, Get16, Position, Padding, UnitsOk;
      AddOk(R(), entry);
      var ordinal := Ordinal(entry);
      if Marked(entry[0], 128) || Marked(entry[0], 32) {
        active, expected, total := false, 0, 0;
        return;
      }
      if Marked(entry[0], 64) {
        active, total, expected, checksum := 0 < ordinal <= MAX_SLOTS, ordinal, ordinal, entry[13];
        Clear();
      }
      ghost var b := R();
      assert b == Begun(old(R()), entry);
      if !active || ordinal != expected || entry[13] != checksum || entry[12] != 0 || Get16(entry, 26) != 0 {
        active, expected, total := false, 0, 0;
        return;
      }
      var base := (ordinal - 1) * 13;
      CopyUnits(entry, base);
      expected := expected - 1;
    }

    method Clear()
      requires units.Length == 260
      modifies units
      ensures units[..] == Padding()
    {
      var i := 0;
      while i < 260
        invariant 0 <= i <= 260 && forall k | 0 <= k < i :: units[k] == 0xFFFF
      {
        units[i] := 0xFFFF;
        i := i + 1;
      }
    }

    method CopyUnits(entry: seq<byte>, base: nat)
      requires |entry| == 32 && base + 13 <= units.Length
      modifies units
      ensures units[..] == old(units[..])[..base] + SlotUnits(entry) + old(units[..])[base + 13..]
    {
      var i := 0;
      while i < 13
        invariant 0 <= i <= 13
        invariant forall k | 0 <= k < units.Length ::
          units[k] == if base <= k < base + i then SlotUnits(entry)[k - base] else old(units[k])
      {
        units[base + i] := Get16(entry, Position(i));
        i := i + 1;
      }
    }

    /** lfn_decode */
    method DecodeEntry(alias: seq<byte>, capacity: nat) returns (r: Option<seq<byte>>)
      requires ReaderOk(R()) && capacity > 0
      ensures r == DecodeName(R(), alias, capacity)
    {
      if !active || expected != 0 || Checksum(alias) != checksum {
        return None;
      }
      var n := total * 13;
      var k := 0;
      while k < n && units[k] != 0
        invariant 0 <= k <= n && forall i | 0 <= i < k :: units[i] != 0
      {
        k := k + 1;
      }
      ZeroAt(units[..n], k);
      assert units[..n] == R().units[..n] && units[..k] == R().units[..k];
      r := DecodeUnits(units[..k], capacity);
    }
  }

  lemma ZeroAt(u: seq<nat>, k: nat)
    requires k <= |u| && (forall i | 0 <= i < k :: u[i] != 0) && (k < |u| ==> u[k] == 0)
    ensures FirstZero(u) == k
  {
  }

  ghost predicate SameText(whole: Option<seq<byte>>, done: seq<byte>, rest: Option<seq<byte>>) {
    whole == if rest.None? then None else Some(done + rest.value)
  }

  /** utf16_to_utf8, with the capacity checked on the way. */
  method DecodeUnits(u: seq<nat>, capacity: nat) returns (r: Option<seq<byte>>)
    requires UnitsOk(u) && capacity > 0
    ensures r == Decode(u, capacity)
  {
    hide Text, Read16, SameText;
    var i: nat, out: seq<byte> := 0, [];
    assert u[0..] == u;
    TextStart(Text(u));
    while i < |u| && u[i] != 0 && u[i] != 0xFFFF
      invariant 0 <= i <= |u| && |out| < capacity && UnitsOk(u[i..]) && SameText(Text(u), out, Text(u[i..]))
    {
      var rest := u[i..];
      var c := Read16(rest);
      if c.None? {
        TextFail(rest, out, Text(u));
        return None;
      }
      assert rest[c.value.1..] == u[i + c.value.1..];
      TextStep(rest, c.value.0, c.value.1, out, Text(u));
      var bytes := Write8(c.value.0);
      if |out| + |bytes| >= capacity {
        return None;
      }
      i, out := i + c.value.1, out + bytes;
    }
    TextStop(u[i..], out, Text(u));
    return Some(out);
  }

  lemma TextStart(whole: Option<seq<byte>>)
    ensures SameText(whole, [], whole)
  {
    if whole.Some? {
      assert [] + whole.value == whole.value;
    }
  }

  lemma TextStop(rest: seq<nat>, out: seq<byte>, whole: Option<seq<byte>>)
    requires UnitsOk(rest) && (rest == [] || rest[0] == 0 || rest[0] == 0xFFFF) && SameText(whole, out, Text(rest))
    ensures whole == Some(out)
  {
    assert out + [] == out;
  }

  lemma TextFail(rest: seq<nat>, out: seq<byte>, whole: Option<seq<byte>>)
    requires rest != [] && UnitsOk(rest) && rest[0] != 0 && rest[0] != 0xFFFF && Read16(rest).None?
    requires SameText(whole, out, Text(rest))
    ensures whole == None
  {
  }

  lemma TextStep(rest: seq<nat>, c: nat, n: nat, out: seq<byte>, whole: Option<seq<byte>>)
    requires rest != [] && UnitsOk(rest) && rest[0] != 0 && rest[0] != 0xFFFF && Read16(rest) == Some((c, n))
    requires SameText(whole, out, Text(rest))
    ensures UnitsOk(rest[n..]) && c < 0x110000 && SameText(whole, out + Write8(c), Text(rest[n..]))
    ensures whole.Some? ==> |whole.value| >= |out| + |Write8(c)|
  {
    var tail := Text(rest[n..]);
    if tail.Some? {
      assert out + (Write8(c) + tail.value) == out + Write8(c) + tail.value;
    }
  }
}
