/** Request-scoped metadata of a call context (utils/meta.go): keys are
    lowercased, and the value of a key ending in "-bin" is stored base64
    encoded (section 4 of RFC 4648, the standard alphabet with padding). */
module Meta {
  import opened Grpc

  type byte = b: int | 0 <= b < 256

  const BinSuffix: string := "-bin"

  // ---------------------------------------------------------------------
  // Lowercasing (the ASCII letters; see README for the Unicode cases)

  predicate IsUpperAscii(c: char)
  {
    'A' <= c <= 'Z'
  }

  function LowerChar(c: char): (d: char)
  {
    if IsUpperAscii(c) then (c as int - 'A' as int + 'a' as int) as char else c
  }

  /** `strings.ToLower` on the ASCII letters. */
  function Lower(s: string): (r: string)
    ensures |r| == |s|
    ensures forall i :: 0 <= i < |s| ==> r[i] == LowerChar(s[i])
  {
    if s == [] then [] else [LowerChar(s[0])] + Lower(s[1..])
  }

  /** A string with no upper-case ASCII letter. */
  predicate IsLowered(s: string)
  {
    forall i :: 0 <= i < |s| ==> !IsUpperAscii(s[i])
  }

  /** Lowering gives a lowered string, and a lowered string is a fixed point:
      so lowering twice is lowering once. */
  lemma {:induction false} LowerIsLowered(s: string)
    ensures IsLowered(Lower(s))
    ensures IsLowered(s) ==> Lower(s) == s
  {
    if s != [] {
      LowerIsLowered(s[1..]);
      assert Lower(s) == [LowerChar(s[0])] + Lower(s[1..]);
    }
  }

  lemma LowerIdempotent(s: string)
    ensures Lower(Lower(s)) == Lower(s)
  {
    LowerIsLowered(s);
    LowerIsLowered(Lower(s));
  }

  predicate HasSuffix(s: string, suffix: string)
  {
    |suffix| <= |s| && s[|s| - |suffix|..] == suffix
  }

  // ---------------------------------------------------------------------
  // The bytes of a string (`[]byte(v)`): UTF-8

  function Utf8Char(c: char): (bs: seq<byte>)
    ensures 1 <= |bs| <= 4
    ensures c as int < 0x80 ==> bs == [c as int]
  {
    var n := c as int;
    if n < 0x80 then [n]
    else if n < 0x800 then [0xC0 + n / 64, 0x80 + n % 64]
    else if n < 0x1_0000 then [0xE0 + n / 4096, 0x80 + (n / 64) % 64, 0x80 + n % 64]
    else [0xF0 + n / 262144, 0x80 + (n / 4096) % 64, 0x80 + (n / 64) % 64, 0x80 + n % 64]
  }

  function Utf8(s: string): (bs: seq<byte>)
    ensures |s| <= |bs| <= 4 * |s|
  {
    if s == [] then [] else Utf8Char(s[0]) + Utf8(s[1..])
  }

  // ---------------------------------------------------------------------
  // Base64, section 4 of RFC 4648

  /** The 64 characters of the base64 alphabet. */
  predicate InAlphabet(c: char)
  {
    'A' <= c <= 'Z' || 'a' <= c <= 'z' || '0' <= c <= '9' || c == '+' || c == '/'
  }

  /** The character that stands for the 6-bit value `i`. */
  function Digit(i: int): (c: char)
    requires 0 <= i < 64
  {
    if i < 26 then ('A' as int + i) as char
    else if i < 52 then ('a' as int + (i - 26)) as char
    else if i < 62 then ('0' as int + (i - 52)) as char
    else if i == 62 then '+'
    else '/'
  }

  /** The 6-bit value a character of the alphabet stands for. */
  function DigitValue(c: char): (r: Option<int>)
    ensures r.Some? ==> 0 <= r.value < 64
  {
    if 'A' <= c <= 'Z' then Some(c as int - 'A' as int)
    else if 'a' <= c <= 'z' then Some(c as int - 'a' as int + 26)
    else if '0' <= c <= '9' then Some(c as int - '0' as int + 52)
    else if c == '+' then Some(62)
    else if c == '/' then Some(63)
    else None
  }

  lemma DigitInAlphabet(i: int)
    requires 0 <= i < 64
    ensures InAlphabet(Digit(i))
  {
  }

  lemma DigitValueOfDigit(i: int)
    requires 0 <= i < 64
    ensures DigitValue(Digit(i)) == Some(i)
  {
  }

  /** Base64 of `bs`: each group of three bytes becomes four characters, and
      a final group of one or two bytes is padded with '='. */
  function Base64Encode(bs: seq<byte>): (s: string)
    decreases |bs|
  {
    if |bs| == 0 then ""
    else if |bs| == 1 then
      [Digit(bs[0] / 4), Digit((bs[0] % 4) * 16), '=', '=']
    else if |bs| == 2 then
      [Digit(bs[0] / 4), Digit((bs[0] % 4) * 16 + bs[1] / 16), Digit((bs[1] % 16) * 4), '=']
    else
      [Digit(bs[0] / 4), Digit((bs[0] % 4) * 16 + bs[1] / 16),
       Digit((bs[1] % 16) * 4 + bs[2] / 64), Digit(bs[2] % 64)]
      + Base64Encode(bs[3..])
  }

  /** Decodes one group of four characters; padding is accepted only in the
      last group. */
  function DecodeGroup(q: string, last: bool): (r: Option<seq<byte>>)
    requires |q| == 4
    ensures r.Some? ==> 1 <= |r.value| <= 3
  {
    var d0, d1, d2, d3 := DigitValue(q[0]), DigitValue(q[1]), DigitValue(q[2]), DigitValue(q[3]);
    if d0.None? || d1.None? then None
    else
      var b0 := d0.value * 4 + d1.value / 16;
      if d2.Some? && d3.Some? then
        Some([b0, (d1.value % 16) * 16 + d2.value / 4, (d2.value % 4) * 64 + d3.value])
      else if last && d2.Some? && q[3] == '=' then
        Some([b0, (d1.value % 16) * 16 + d2.value / 4])
      else if last && q[2] == '=' && q[3] == '=' then
        Some([b0])
      else None
  }

  /** The inverse of `Base64Encode`: None on text that is not base64. */
  function Base64Decode(s: string): (r: Option<seq<byte>>)
    decreases |s|
  {
    if |s| == 0 then Some([])
    else if |s| < 4 then None
    else
      match DecodeGroup(s[..4], |s| == 4)
      case None => None
      case Some(g) =>
        match Base64Decode(s[4..])
        case None => None
        case Some(rest) => Some(g + rest)
  }

  lemma GroupRoundTrip(x: byte, y: byte, z: byte)
    ensures (x / 4) * 4 + ((x % 4) * 16 + y / 16) / 16 == x
    ensures (((x % 4) * 16 + y / 16) % 16) * 16 + ((y % 16) * 4 + z / 64) / 4 == y
    ensures (((y % 16) * 4 + z / 64) % 4) * 64 + z % 64 == z
  {
  }

  /** Text of one group decodes as that group alone. */
  lemma SingleGroup(s: string, g: seq<byte>)
    requires |s| == 4 && DecodeGroup(s, true) == Some(g)
    ensures Base64Decode(s) == Some(g)
  {
    assert s[..4] == s && s[4..] == [];
    assert g + [] == g;
  }

  lemma OneByteDecodes(x: byte)
    ensures DecodeGroup([Digit(x / 4), Digit((x % 4) * 16), '=', '='], true) == Some([x])
  {
    var c0, c1 := x / 4, (x % 4) * 16;
    var q := [Digit(c0), Digit(c1), '=', '='];
    GroupRoundTrip(x, 0, 0);
    DigitValueOfDigit(c0);
    DigitValueOfDigit(c1);
    assert DigitValue(q[0]) == Some(c0) && DigitValue(q[1]) == Some(c1) && DigitValue(q[2]).None?;
    assert c0 * 4 + c1 / 16 == x;
  }

  lemma OneByteRoundTrip(bs: seq<byte>)
    requires |bs| == 1
    ensures Base64Decode(Base64Encode(bs)) == Some(bs)
  {
    OneByteDecodes(bs[0]);
    SingleGroup(Base64Encode(bs), [bs[0]]);
    assert [bs[0]] == bs;
  }

  lemma DecodeGroupPadded(q: string, a: int, b: int, c: int)
    requires |q| == 4 && q[3] == '='
    requires DigitValue(q[0]) == Some(a) && DigitValue(q[1]) == Some(b) && DigitValue(q[2]) == Some(c)
    ensures DecodeGroup(q, true) == Some([a * 4 + b / 16, (b % 16) * 16 + c / 4])
  {
  }

  lemma TwoBytesDecode(x: byte, y: byte)
    ensures DecodeGroup([Digit(x / 4), Digit((x % 4) * 16 + y / 16), Digit((y % 16) * 4), '='], true) == Some([x, y])
  {
    var c0, c1, c2 := x / 4, (x % 4) * 16 + y / 16, (y % 16) * 4;
    var q := [Digit(c0), Digit(c1), Digit(c2), '='];
    GroupRoundTrip(x, y, 0);
    assert c0 * 4 + c1 / 16 == x;
    assert (c1 % 16) * 16 + c2 / 4 == y;
    DigitValueOfDigit(c0);
    DigitValueOfDigit(c1);
    DigitValueOfDigit(c2);
    DecodeGroupPadded(q, c0, c1, c2);
  }

  lemma TwoBytesRoundTrip(bs: seq<byte>)
    requires |bs| == 2
    ensures Base64Decode(Base64Encode(bs)) == Some(bs)
  {
    var x, y := bs[0], bs[1];
    var q := [Digit(x / 4), Digit((x % 4) * 16 + y / 16), Digit((y % 16) * 4), '='];
    assert Base64Encode(bs) == q;
    TwoBytesDecode(x, y);
    SingleGroup(q, [x, y]);
    assert [bs[0], bs[1]] == bs;
  }

  /** A full group of four digits decodes to the three bytes it encodes. */
  lemma FullGroupDecodes(x: byte, y: byte, z: byte, last: bool)
    ensures DecodeGroup([Digit(x / 4), Digit((x % 4) * 16 + y / 16), Digit((y % 16) * 4 + z / 64), Digit(z % 64)], last)
            == Some([x, y, z])
  {
    var c0, c1 := x / 4, (x % 4) * 16 + y / 16;
    var c2, c3 := (y % 16) * 4 + z / 64, z % 64;
    var q := [Digit(c0), Digit(c1), Digit(c2), Digit(c3)];
    GroupRoundTrip(x, y, z);
    DigitValueOfDigit(c0);
    DigitValueOfDigit(c1);
    DigitValueOfDigit(c2);
    DigitValueOfDigit(c3);
    assert DigitValue(q[0]) == Some(c0) && DigitValue(q[1]) == Some(c1);
    assert DigitValue(q[2]) == Some(c2) && DigitValue(q[3]) == Some(c3);
    assert c0 * 4 + c1 / 16 == x;
    assert (c1 % 16) * 16 + c2 / 4 == y;
    assert (c2 % 4) * 64 + c3 == z;
  }

  lemma FirstGroupDecodes(bs: seq<byte>, last: bool)
    requires |bs| >= 3
    ensures |Base64Encode(bs)| >= 4
    ensures Base64Encode(bs)[4..] == Base64Encode(bs[3..])
    ensures DecodeGroup(Base64Encode(bs)[..4], last) == Some(bs[..3])
  {
    var s := Base64Encode(bs);
    var x, y, z := bs[0], bs[1], bs[2];
    var q := [Digit(x / 4), Digit((x % 4) * 16 + y / 16), Digit((y % 16) * 4 + z / 64), Digit(z % 64)];
    assert s == q + Base64Encode(bs[3..]);
    assert s[..4] == q;
    FullGroupDecodes(x, y, z, last);
    assert [x, y, z] == bs[..3];
  }

  /** Decoding what was encoded gives back the bytes. */
  lemma {:induction false} Base64RoundTrip(bs: seq<byte>)
    ensures Base64Decode(Base64Encode(bs)) == Some(bs)
    decreases |bs|
  {
    if |bs| == 1 {
      OneByteRoundTrip(bs);
    } else if |bs| == 2 {
      TwoBytesRoundTrip(bs);
    } else if |bs| > 2 {
      var s := Base64Encode(bs);
      FirstGroupDecodes(bs, |s| == 4);
      Base64RoundTrip(bs[3..]);
      assert bs[..3] + bs[3..] == bs;
    }
  }

  /** Four characters for every started group of three bytes. */
  lemma {:induction false} Base64Length(bs: seq<byte>)
    ensures |Base64Encode(bs)| == 4 * ((|bs| + 2) / 3)
    decreases |bs|
  {
    if |bs| > 2 {
      Base64Length(bs[3..]);
    }
  }

  /** Base64 text is made of alphabet characters, with the padding '=' only
      in the last two places. */
  lemma {:induction false} Base64Alphabet(bs: seq<byte>)
    ensures forall i :: 0 <= i < |Base64Encode(bs)| ==>
              InAlphabet(Base64Encode(bs)[i]) || (Base64Encode(bs)[i] == '=' && i >= |Base64Encode(bs)| - 2)
    decreases |bs|
  {
    if |bs| >= 1 {
      DigitInAlphabet(bs[0] / 4);
    }
    if |bs| == 1 {
      DigitInAlphabet((bs[0] % 4) * 16);
    } else if |bs| == 2 {
      DigitInAlphabet((bs[0] % 4) * 16 + bs[1] / 16);
      DigitInAlphabet((bs[1] % 16) * 4);
    } else if |bs| > 2 {
      DigitInAlphabet((bs[0] % 4) * 16 + bs[1] / 16);
      DigitInAlphabet((bs[1] % 16) * 4 + bs[2] / 64);
      DigitInAlphabet(bs[2] % 64);
      var s := Base64Encode(bs);
      var t := Base64Encode(bs[3..]);
      Base64Alphabet(bs[3..]);
      assert s[4..] == t;
      forall i | 4 <= i < |s|
        ensures InAlphabet(s[i]) || (s[i] == '=' && i >= |s| - 2)
      {
        assert s[i] == t[i - 4];
      }
    }
  }

  // ---------------------------------------------------------------------
  // Keys and values

  predicate IsBinKey(k: string)
  {
    HasSuffix(k, BinSuffix)
  }

  /** `encode`: the key lowercased, and the value base64-encoded exactly when
      that key ends in "-bin". */
  function Encode(k: string, v: string): (r: (string, string))
    ensures r.0 == Lower(k)
    ensures IsBinKey(Lower(k)) ==> r.1 == Base64Encode(Utf8(v))
    ensures !IsBinKey(Lower(k)) ==> r.1 == v
  {
    var key := Lower(k);
    if IsBinKey(key) then (key, Base64Encode(Utf8(v))) else (key, v)
  }

  /** A key that is already lowercase is stored as it is. */
  lemma EncodeKeepsLoweredKey(k: string, v: string)
    requires IsLowered(k)
    ensures Encode(k, v).0 == k
  {
    LowerIsLowered(k);
  }

  /** The UTF-8 bytes of a binary key's value can be recovered from what is
      stored. */
  lemma EncodeBinValueDecodes(k: string, v: string)
    requires IsBinKey(Lower(k))
    ensures Base64Decode(Encode(k, v).1) == Some(Utf8(v))
  {
    Base64RoundTrip(Utf8(v));
  }

  // ---------------------------------------------------------------------
  // Metadata attached to a context

  /** `metadata.MD`: a map object shared by every context that carries it. */
  class Metadata {
    var entries: map<string, seq<string>>

    constructor (entries: map<string, seq<string>>)
      ensures this.entries == entries
    {
      this.entries := entries;
    }
  }

  /** A call context as far as the middleware uses it: the per-attempt
      timeouts applied to it (outermost first) and its metadata, if any. */
  datatype Context = Context(timeouts: seq<int>, md: Option<Metadata>)

  function Frame(ctx: Context): set<object>
  {
    if ctx.md.Some? then {ctx.md.value} else {}
  }

  /** The entries of the context's metadata, None when it has none. */
  function Entries(ctx: Context): Option<map<string, seq<string>>>
    reads Frame(ctx)
  {
    if ctx.md.Some? then Some(ctx.md.value.entries) else None
  }

  /** `Get` on the entries: found only for a key, lowercased, that holds
      exactly one value. */
  function Lookup(md: Option<map<string, seq<string>>>, key: string): (r: (string, bool))
    ensures r.1 <==> md.Some? && Lower(key) in md.value && |md.value[Lower(key)]| == 1
    ensures r.1 ==> r.0 == md.value[Lower(key)][0]
    ensures !r.1 ==> r.0 == ""
  {
    if md.None? then ("", false)
    else
      var k := Lower(key);
      if k !in md.value then ("", false)
      else if |md.value[k]| != 1 then ("", false)
      else (md.value[k][0], true)
  }

  function Get(ctx: Context, key: string): (r: (string, bool))
    reads Frame(ctx)
    ensures r.1 <==> ctx.md.Some? && Lower(key) in ctx.md.value.entries && |ctx.md.value.entries[Lower(key)]| == 1
    ensures r.1 ==> r.0 == ctx.md.value.entries[Lower(key)][0]
    ensures !r.1 ==> r.0 == ""
  {
    Lookup(Entries(ctx), key)
  }

  /** The entries after `Set` wrote `v` under `k` into existing metadata. */
  function Store(m: map<string, seq<string>>, k: string, v: string): (m': map<string, seq<string>>)
  {
    var e := Encode(k, v);
    m[e.0 := [e.1]]
  }

  /** The metadata `metadata.Pairs(key, value)` makes. The grpc-go metadata
      package whose `FromContext`/`NewContext` this code calls passes each
      pair through the same encoding as `encode`: the key lowercased, and the
      value base64 under a "-bin" key. */
  function Pairs(key: string, value: string): (m: map<string, seq<string>>)
    ensures m == Store(map[], key, value)
  {
    var e := Encode(key, value);
    map[e.0 := [e.1]]
  }

  /** `Set`: on a context that has metadata, writes the encoded pair into that
      same metadata object and returns the same context; otherwise returns a
      new context whose fresh metadata holds the pair. */
  method Set(ctx: Context, key: string, value: string) returns (ctx': Context)
    modifies Frame(ctx)
    ensures ctx.md.Some? ==> ctx' == ctx
    ensures ctx.md.Some? ==> ctx.md.value.entries == Store(old(ctx.md.value.entries), key, value)
    ensures ctx.md.None? ==> ctx'.timeouts == ctx.timeouts && ctx'.md.Some? && fresh(ctx'.md.value)
    ensures ctx.md.None? ==> ctx'.md.value.entries == Pairs(key, value)
  {
    if ctx.md.None? {
      var md := new Metadata(Pairs(key, value));
      ctx' := Context(ctx.timeouts, Some(md));
      return;
    }
    var md := ctx.md.value;
    var kv := Encode(key, value);
    md.entries := md.entries[kv.0 := [kv.1]];
    ctx' := ctx;
  }

  /** After a write of a non-binary key, reading it back under any spelling
      of the same lowercase key gives the value. */
  lemma SetThenGet(m: map<string, seq<string>>, k: string, v: string, k2: string)
    requires Lower(k2) == Lower(k)
    requires !IsBinKey(Lower(k))
    ensures Lookup(Some(Store(m, k, v)), k2) == (v, true)
  {
  }

  /** After a write of a binary key, reading it back gives the base64 text of
      the value, from which the value's bytes decode. */
  lemma SetBinThenGet(m: map<string, seq<string>>, k: string, v: string, k2: string)
    requires Lower(k2) == Lower(k)
    requires IsBinKey(Lower(k))
    ensures Lookup(Some(Store(m, k, v)), k2) == (Base64Encode(Utf8(v)), true)
    ensures Base64Decode(Lookup(Some(Store(m, k, v)), k2).0) == Some(Utf8(v))
  {
    Base64RoundTrip(Utf8(v));
  }

  /** On a context without metadata, the new metadata holds the encoded
      pair: the value itself under a plain key, its base64 text under a
      "-bin" key. */
  lemma PairsThenGet(k: string, v: string, k2: string)
    requires Lower(k2) == Lower(k)
    ensures !IsBinKey(Lower(k)) ==> Lookup(Some(Pairs(k, v)), k2) == (v, true)
    ensures IsBinKey(Lower(k)) ==> Lookup(Some(Pairs(k, v)), k2) == (Base64Encode(Utf8(v)), true)
    ensures forall k3 :: Lower(k3) != Lower(k) ==> !Lookup(Some(Pairs(k, v)), k3).1
  {
  }

  /** A write leaves the reading of every other key as it was. */
  lemma SetLeavesOtherKeys(m: map<string, seq<string>>, k: string, v: string, k2: string)
    requires Lower(k2) != Lower(k)
    ensures Lookup(Some(Store(m, k, v)), k2) == Lookup(Some(m), k2)
  {
  }
}
