/** The digest record, its nibble-swapped and reversed hex form, and the distance score. */
module TlshCodec {
  import opened Options
  import opened Text

  const CODE_SIZE := 32
  const HEXLEN := 70
  const HEX_UPPER := "0123456789ABCDEF"

  type Code = s: seq<bv8> | |s| == CODE_SIZE witness seq(CODE_SIZE, _ => 0)

  datatype Digest = Digest(checksum: bv8, lvalue: bv8, q1ratio: bv8, q2ratio: bv8, code: Code)

  /** The record as the engine produces it: both ratios fit in a nibble. */
  predicate Canonical(d: Digest) {
    d.q1ratio < 16 && d.q2ratio < 16
  }

  function SwapByte(x: bv8): bv8 {
    ((x & 0xF0) >> 4) | ((x & 0x0F) << 4)
  }

  lemma {:induction false} SwapByteInvolution(x: bv8)
    ensures SwapByte(SwapByte(x)) == x
  {
  }

  // ----- hex characters

  function HexChar(n: bv8): char
    requires n < 16
  {
    HEX_UPPER[n as int]
  }

  function HexNibble(c: char): (v: bv8)
    requires IsHex(c)
  {
    if '0' <= c <= '9' then (c as int - '0' as int) as bv8
    else if 'A' <= c <= 'F' then (c as int - 'A' as int + 10) as bv8
    else (c as int - 'a' as int + 10) as bv8
  }

  function UpperChar(c: char): char {
    if 'a' <= c <= 'f' then (c as int - 'a' as int + 'A' as int) as char else c
  }

  function Upper(s: string): string {
    seq(|s|, i requires 0 <= i < |s| => UpperChar(s[i]))
  }

  lemma {:induction false} NibbleOfHexChar(n: bv8)
    requires n < 16
    ensures IsHex(HexChar(n)) && HexNibble(HexChar(n)) == n
  {
    assert n == 0 || n == 1 || n == 2 || n == 3 || n == 4 || n == 5 || n == 6 || n == 7
      || n == 8 || n == 9 || n == 10 || n == 11 || n == 12 || n == 13 || n == 14 || n == 15;
  }

  lemma {:induction false} HexCharOfNibble(c: char)
    requires IsHex(c)
    ensures HexNibble(c) < 16 && HexChar(HexNibble(c)) == UpperChar(c)
  {
    if '0' <= c <= '9' {
      assert HexChar(HexNibble(c)) == c;
    } else {
      var k := UpperChar(c) as int - 'A' as int;
      assert k == 0 || k == 1 || k == 2 || k == 3 || k == 4 || k == 5;
    }
  }

  // ----- the two forms

  function Reversed(code: Code): Code {
    seq(CODE_SIZE, i requires 0 <= i < CODE_SIZE => code[CODE_SIZE - 1 - i])
  }

  lemma {:induction false} ReversedTwice(code: Code)
    ensures Reversed(Reversed(code)) == code
  {
  }

  /** Both ratios in one byte, the first in the low nibble. */
  function PackRatios(q1: bv8, q2: bv8): bv8 {
    q1 | (q2 << 4)
  }

  function LowNibble(x: bv8): (n: bv8)
    ensures n < 16
  {
    x & 0x0F
  }

  function HighNibble(x: bv8): (n: bv8)
    ensures n < 16
  {
    (x >> 4) & 0x0F
  }

  lemma {:induction false} RatiosUnpacked(q1: bv8, q2: bv8)
    requires q1 < 16 && q2 < 16
    ensures LowNibble(PackRatios(q1, q2)) == q1 && HighNibble(PackRatios(q1, q2)) == q2
  {
  }

  lemma {:induction false} RatiosRepacked(x: bv8)
    ensures PackRatios(LowNibble(x), HighNibble(x)) == x
  {
  }

  /** The serialised bytes: swapped header, then the body back to front. */
  function Raw(d: Digest): (raw: seq<bv8>)
    ensures |raw| == 3 + CODE_SIZE
  {
    [SwapByte(d.checksum), SwapByte(d.lvalue), SwapByte(PackRatios(d.q1ratio, d.q2ratio))] + Reversed(d.code)
  }

  function Unraw(raw: seq<bv8>): (d: Digest)
    requires |raw| == 3 + CODE_SIZE
    ensures Canonical(d)
  {
    Digest(SwapByte(raw[0]), SwapByte(raw[1]),
           LowNibble(SwapByte(raw[2])), HighNibble(SwapByte(raw[2])),
           Reversed(raw[3..]))
  }

  function NibbleAt(raw: seq<bv8>, k: nat): (n: bv8)
    requires |raw| == 3 + CODE_SIZE && k < HEXLEN
    ensures n < 16
  {
    if k % 2 == 0 then raw[k / 2] >> 4 else raw[k / 2] & 0x0F
  }

  function HexOf(raw: seq<bv8>): (s: string)
    requires |raw| == 3 + CODE_SIZE
    ensures |s| == HEXLEN
  {
    seq(HEXLEN, k requires 0 <= k < HEXLEN => HexChar(NibbleAt(raw, k)))
  }

  function Encode(d: Digest): (s: string)
    ensures |s| == HEXLEN
  {
    HexOf(Raw(d))
  }

  predicate IsDigestText(s: string) {
    |s| == HEXLEN && forall k :: 0 <= k < HEXLEN ==> IsHex(s[k])
  }

  function RawByte(s: string, i: nat): bv8
    requires IsDigestText(s) && i < 3 + CODE_SIZE
  {
    JoinNibbles(s[2 * i], s[2 * i + 1])
  }

  function RawOf(s: string): (raw: seq<bv8>)
    requires IsDigestText(s)
    ensures |raw| == 3 + CODE_SIZE
  {
    seq(3 + CODE_SIZE, i requires 0 <= i < 3 + CODE_SIZE => RawByte(s, i))
  }

  function Decode(s: string): Option<Digest> {
    if IsDigestText(s) then Some(Unraw(RawOf(s))) else None
  }

  // ----- round trips

  function JoinNibbles(hi: char, lo: char): bv8
    requires IsHex(hi) && IsHex(lo)
  {
    (HexNibble(hi) << 4) | HexNibble(lo)
  }

  lemma {:induction false} ByteToTextToByte(x: bv8)
    ensures x >> 4 < 16 && x & 0x0F < 16
    ensures IsHex(HexChar(x >> 4)) && IsHex(HexChar(x & 0x0F))
    ensures JoinNibbles(HexChar(x >> 4), HexChar(x & 0x0F)) == x
  {
    NibbleOfHexChar(x >> 4);
    NibbleOfHexChar(x & 0x0F);
  }

  lemma {:induction false} TextToByteToText(hi: char, lo: char)
    requires IsHex(hi) && IsHex(lo)
    ensures JoinNibbles(hi, lo) >> 4 < 16 && JoinNibbles(hi, lo) & 0x0F < 16
    ensures HexChar(JoinNibbles(hi, lo) >> 4) == UpperChar(hi)
    ensures HexChar(JoinNibbles(hi, lo) & 0x0F) == UpperChar(lo)
  {
    HexCharOfNibble(hi);
    HexCharOfNibble(lo);
    var h, l := HexNibble(hi), HexNibble(lo);
    assert ((h << 4) | l) >> 4 == h && ((h << 4) | l) & 0x0F == l;
  }

  lemma {:induction false} HexOfAt(raw: seq<bv8>, i: nat)
    requires |raw| == 3 + CODE_SIZE && i < 3 + CODE_SIZE
    ensures raw[i] >> 4 < 16 && raw[i] & 0x0F < 16
    ensures HexOf(raw)[2 * i] == HexChar(raw[i] >> 4)
    ensures HexOf(raw)[2 * i + 1] == HexChar(raw[i] & 0x0F)
  {
    assert NibbleAt(raw, 2 * i) == raw[i] >> 4;
    assert NibbleAt(raw, 2 * i + 1) == raw[i] & 0x0F;
  }

  lemma {:induction false} SwappedNibbles(x: bv8, y: bv8)
    requires y == SwapByte(x)
    ensures y >> 4 == LowNibble(x) && y & 0x0F == HighNibble(x)
  {
  }

  lemma {:induction false} PlainNibbles(x: bv8)
    ensures x >> 4 == HighNibble(x) && x & 0x0F == LowNibble(x)
  {
  }

  /** A byte of the text that was written swapped. */
  lemma {:induction false} SwappedAt(raw: seq<bv8>, i: nat, x: bv8)
    requires |raw| == 3 + CODE_SIZE && i < 3 + CODE_SIZE && raw[i] == SwapByte(x)
    ensures HexOf(raw)[2 * i] == HexChar(LowNibble(x)) && HexOf(raw)[2 * i + 1] == HexChar(HighNibble(x))
  {
    HexOfAt(raw, i);
    SwappedNibbles(x, raw[i]);
  }

  lemma {:induction false} PlainAt(raw: seq<bv8>, i: nat)
    requires |raw| == 3 + CODE_SIZE && i < 3 + CODE_SIZE
    ensures HexOf(raw)[2 * i] == HexChar(HighNibble(raw[i])) && HexOf(raw)[2 * i + 1] == HexChar(LowNibble(raw[i]))
  {
    HexOfAt(raw, i);
    PlainNibbles(raw[i]);
  }

  lemma {:induction false} HexHeader(d: Digest)
    requires Canonical(d)
    ensures var s := Encode(d);
      && s[0] == HexChar(LowNibble(d.checksum)) && s[1] == HexChar(HighNibble(d.checksum))
      && s[2] == HexChar(LowNibble(d.lvalue)) && s[3] == HexChar(HighNibble(d.lvalue))
      && s[4] == HexChar(d.q1ratio) && s[5] == HexChar(d.q2ratio)
  {
    var raw := Raw(d);
    SwappedAt(raw, 0, d.checksum);
    SwappedAt(raw, 1, d.lvalue);
    SwappedAt(raw, 2, PackRatios(d.q1ratio, d.q2ratio));
    RatiosUnpacked(d.q1ratio, d.q2ratio);
  }

  lemma {:induction false} HexBody(d: Digest, i: nat)
    requires i < 32
    ensures Encode(d)[6 + 2 * i] == HexChar(HighNibble(d.code[31 - i]))
    ensures Encode(d)[7 + 2 * i] == HexChar(LowNibble(d.code[31 - i]))
  {
    PlainAt(Raw(d), 3 + i);
    assert Raw(d)[3 + i] == d.code[31 - i];
  }

  /** Where each part of a digest stands in its text: checksum and length byte low nibble first, the
      first ratio before the second, and the body from its last byte to its first, high nibble first. */
  lemma {:induction false} HexLayout(d: Digest, i: nat)
    requires Canonical(d) && i < 32
    ensures var s := Encode(d);
      && s[0] == HexChar(LowNibble(d.checksum)) && s[1] == HexChar(HighNibble(d.checksum))
      && s[2] == HexChar(LowNibble(d.lvalue)) && s[3] == HexChar(HighNibble(d.lvalue))
      && s[4] == HexChar(d.q1ratio) && s[5] == HexChar(d.q2ratio)
      && s[6 + 2 * i] == HexChar(HighNibble(d.code[31 - i])) && s[7 + 2 * i] == HexChar(LowNibble(d.code[31 - i]))
  {
    HexHeader(d);
    HexBody(d, i);
  }

  lemma {:induction false} RawOfHexOf(raw: seq<bv8>)
    requires |raw| == 3 + CODE_SIZE
    ensures IsDigestText(HexOf(raw)) && RawOf(HexOf(raw)) == raw
  {
    var s := HexOf(raw);
    forall k | 0 <= k < HEXLEN ensures IsHex(s[k]) {
      NibbleOfHexChar(NibbleAt(raw, k));
    }
    forall i | 0 <= i < 3 + CODE_SIZE ensures RawByte(s, i) == raw[i] {
      HexOfAt(raw, i);
      ByteToTextToByte(raw[i]);
    }
  }

  lemma {:induction false} HexPairOfRawOf(s: string, i: nat)
    requires IsDigestText(s) && i < 3 + CODE_SIZE
    ensures HexOf(RawOf(s))[2 * i] == UpperChar(s[2 * i])
    ensures HexOf(RawOf(s))[2 * i + 1] == UpperChar(s[2 * i + 1])
  {
    HexOfAt(RawOf(s), i);
    TextToByteToText(s[2 * i], s[2 * i + 1]);
  }

  lemma {:induction false} HexOfRawOf(s: string)
    requires IsDigestText(s)
    ensures HexOf(RawOf(s)) == Upper(s)
  {
    var t, u := HexOf(RawOf(s)), Upper(s);
    forall k | 0 <= k < HEXLEN ensures t[k] == u[k] {
      HexPairOfRawOf(s, k / 2);
      assert k == 2 * (k / 2) || k == 2 * (k / 2) + 1;
    }
  }

  lemma {:induction false} UnrawHeader(c: bv8, l: bv8, q: bv8, code: Code)
    ensures Unraw([SwapByte(c), SwapByte(l), SwapByte(q)] + Reversed(code))
         == Digest(c, l, LowNibble(q), HighNibble(q), code)
  {
    SwapByteInvolution(c);
    SwapByteInvolution(l);
    SwapByteInvolution(q);
    ReversedTwice(code);
    assert ([SwapByte(c), SwapByte(l), SwapByte(q)] + Reversed(code))[3..] == Reversed(code);
  }

  lemma {:induction false} UnrawRaw(d: Digest)
    ensures Unraw(Raw(d)) == d <==> Canonical(d)
  {
    UnrawHeader(d.checksum, d.lvalue, PackRatios(d.q1ratio, d.q2ratio), d.code);
    if Canonical(d) {
      RatiosUnpacked(d.q1ratio, d.q2ratio);
    }
  }

  /** Reading back a written digest returns it, exactly when both ratios fit in a nibble. */
  lemma {:induction false} DecodeEncode(d: Digest)
    ensures Decode(Encode(d)) == Some(d) <==> Canonical(d)
  {
    RawOfHexOf(Raw(d));
    UnrawRaw(d);
  }

  lemma {:induction false} RawUnraw(raw: seq<bv8>)
    requires |raw| == 3 + CODE_SIZE
    ensures Raw(Unraw(raw)) == raw
  {
    SwapByteInvolution(raw[0]);
    SwapByteInvolution(raw[1]);
    RatiosRepacked(SwapByte(raw[2]));
    SwapByteInvolution(raw[2]);
    ReversedTwice(raw[3..]);
    assert raw == [raw[0], raw[1], raw[2]] + raw[3..];
  }

  /** Writing what was read from any accepted text gives that text in upper case. */
  lemma {:induction false} EncodeDecode(s: string)
    requires Decode(s).Some?
    ensures Encode(Decode(s).value) == Upper(s)
  {
    RawUnraw(RawOf(s));
    HexOfRawOf(s);
  }

  // ----- the buffer loops

  method ToRaw(d: Digest) returns (raw: array<bv8>)
    ensures fresh(raw) && raw[..] == Raw(d)
  {
    raw := new bv8[3 + CODE_SIZE];
    raw[0] := SwapByte(d.checksum);
    raw[1] := SwapByte(d.lvalue);
    raw[2] := SwapByte(PackRatios(d.q1ratio, d.q2ratio));
    ghost var want := Raw(d);
    for i := 0 to CODE_SIZE
      invariant forall k :: 0 <= k < 3 + i ==> raw[k] == want[k]
    {
      assert want[3 + i] == Reversed(d.code)[i];
      raw[3 + i] := d.code[CODE_SIZE - 1 - i];
    }
  }

  /** The two characters of one byte. */
  method HexPair(raw: seq<bv8>, i: nat) returns (hi: char, lo: char)
    requires |raw| == 3 + CODE_SIZE && i < 3 + CODE_SIZE
    ensures hi == HexOf(raw)[2 * i] && lo == HexOf(raw)[2 * i + 1]
  {
    HexOfAt(raw, i);
    hi, lo := HexChar(raw[i] >> 4), HexChar(raw[i] & 0x0F);
  }

  /** Writes the digest and a terminator; what lies behind them in the buffer is kept. */
  method ToHex(d: Digest, buf: array<char>)
    requires buf.Length > HEXLEN
    modifies buf
    ensures buf[..HEXLEN] == Encode(d) && buf[HEXLEN] == '\0'
    ensures buf[HEXLEN + 1..] == old(buf[HEXLEN + 1..])
  {
    var rawBytes := ToRaw(d);
    var raw := rawBytes[..];
    ghost var s := HexOf(raw);
    var p := 0;
    for i := 0 to 3 + CODE_SIZE
      invariant p == 2 * i
      invariant forall k :: 0 <= k < p ==> buf[k] == s[k]
      invariant buf[HEXLEN + 1..] == old(buf[HEXLEN + 1..])
    {
      var hi, lo := HexPair(raw, i);
      buf[p] := hi;
      p := p + 1;
      buf[p] := lo;
      p := p + 1;
    }
    buf[p] := '\0';
  }

  method FromHex(s: string) returns (r: Option<Digest>)
    ensures r == Decode(s)
  {
    if |s| != HEXLEN {
      return None;
    }
    var raw := new bv8[3 + CODE_SIZE];
    for i := 0 to 3 + CODE_SIZE
      invariant forall k :: 0 <= k < 2 * i ==> IsHex(s[k])
      invariant forall k :: 0 <= k < i ==> raw[k] == JoinNibbles(s[2 * k], s[2 * k + 1])
    {
      if !IsHex(s[2 * i]) || !IsHex(s[2 * i + 1]) {
        return None;
      }
      raw[i] := (HexNibble(s[2 * i]) << 4) | HexNibble(s[2 * i + 1]);
    }
    assert raw[..] == RawOf(s);
    r := Some(Unraw(raw[..]));
  }
}
