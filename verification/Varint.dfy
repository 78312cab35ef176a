/** Unsigned LEB128 integers (section 7.6 of the DWARF standard, version 4), the
    number format of every buffer header.  Bytes are small integers, so the
    bit operations of the original appear as arithmetic: `n & 0x7f` is `n % 128`,
    `n >> 7` is `n / 128`, and setting or testing bit 0x80 is adding 128 or
    comparing with 128. */
module Varint {
  import opened Wrappers

  type Byte = b: int | 0 <= b < 256
  type ByteString = seq<Byte>

  /** A decoded number together with the position just after it. */
  datatype Decoded = Decoded(number: nat, end: nat)

  function Encode(n: nat): (s: ByteString)
    ensures |s| >= 1
  {
    if n < 128 then [n] else [128 + n % 128] + Encode(n / 128)
  }

  /** `None` when the bytes run out before a byte below 128 is found. */
  function Decode(b: ByteString, start: nat): (r: Option<Decoded>)
    ensures r.Some? ==> start < r.value.end <= |b|
    decreases |b| - start
  {
    if start >= |b| then None
    else if b[start] < 128 then Some(Decoded(b[start], start + 1))
    else
      match Decode(b, start + 1)
      case None => None
      case Some(d) => Some(Decoded(b[start] - 128 + 128 * d.number, d.end))
  }

  method EncodeInt(number: nat) returns (buf: ByteString)
    ensures buf == Encode(number)
  {
    buf := [];
    var n := number;
    while true
      invariant buf + Encode(n) == Encode(number)
      decreases n
    {
      var towrite := n % 128;
      if n / 128 != 0 {
        assert buf + Encode(n) == buf + [towrite + 128] + Encode(n / 128);
        n := n / 128;
        buf := buf + [towrite + 128];
      } else {
        buf := buf + [towrite];
        break;
      }
    }
  }

  method DecodeBytes(b: ByteString, start: nat) returns (r: Option<Decoded>)
    ensures r == Decode(b, start)
  {
    var scale: nat, result: nat, pos := 1, 0, start;
    while true
      invariant pos == start || start < pos <= |b|
      invariant scale >= 1 && result >= 0
      invariant Decode(b, start) == Scaled(Decode(b, pos), result, scale)
      decreases |b| - pos
    {
      if pos >= |b| {
        return None;
      }
      var i: int := b[pos];
      ghost var rest := Decode(b, pos + 1);
      if i >= 128 {
        ScaleStep(rest, result, scale, i % 128);
      }
      result := result + (i % 128) * scale;
      scale := scale * 128;
      pos := pos + 1;
      if i < 128 {
        break;
      }
    }
    return Some(Decoded(result, pos));
  }

  /** What remains to be decoded, shifted left and added to what was read. */
  ghost function Scaled(rest: Option<Decoded>, result: nat, scale: nat): Option<Decoded> {
    match rest
    case None => None
    case Some(d) => Some(Decoded(result + d.number * scale, d.end))
  }

  lemma ScaleStep(rest: Option<Decoded>, result: nat, scale: nat, digit: nat)
    ensures rest.None? ||
            Scaled(Some(Decoded(digit + 128 * rest.value.number, rest.value.end)), result, scale)
            == Scaled(rest, result + digit * scale, scale * 128)
  {
    if rest.Some? {
      var m := rest.value.number;
      assert (digit + 128 * m) * scale == digit * scale + m * (scale * 128);
    }
  }

  /** Wherever the encoding of `n` lies inside any bytes, decoding there gives back
      `n` and the position after it. */
  lemma {:induction false} DecodeEncode(n: nat, b: ByteString, start: nat)
    requires start + |Encode(n)| <= |b|
    requires b[start..start + |Encode(n)|] == Encode(n)
    ensures Decode(b, start) == Some(Decoded(n, start + |Encode(n)|))
    decreases n
  {
    var e := Encode(n);
    assert b[start] == b[start..start + |e|][0] == e[0];
    if n >= 128 {
      assert b[start + 1..start + |e|] == b[start..start + |e|][1..] == Encode(n / 128);
      DecodeEncode(n / 128, b, start + 1);
    }
  }

  /** The encoding is the shortest of all bytes that decode to a number, and the only one
      of that length. */
  lemma {:induction false} EncodeIsShortest(b: ByteString, start: nat)
    requires Decode(b, start).Some?
    ensures var d := Decode(b, start).value;
            && |Encode(d.number)| <= d.end - start
            && (|Encode(d.number)| == d.end - start ==> b[start..d.end] == Encode(d.number))
    decreases |b| - start
  {
    var d := Decode(b, start).value;
    if b[start] >= 128 {
      EncodeIsShortest(b, start + 1);
      var m := Decode(b, start + 1).value.number;
      assert d.number / 128 == m && d.number % 128 == b[start] - 128;
      assert b[start..d.end] == [b[start]] + b[start + 1..d.end];
    }
  }

  // ------------------------------------------------------------------ numbers as digits

  ghost function Power(k: nat): nat {
    if k == 0 then 1 else Power(k - 1) * 128
  }

  /** The low seven bits of each byte as a digit to the base of 128, the lowest first. */
  ghost function Digits(s: ByteString): nat {
    if s == [] then 0 else Digits(s[..|s| - 1]) + s[|s| - 1] % 128 * Power(|s| - 1)
  }

  lemma {:induction false} DigitsFirst(x: Byte, s: ByteString)
    ensures Digits([x] + s) == x % 128 + 128 * Digits(s)
    decreases |s|
  {
    var whole := [x] + s;
    if s == [] {
      assert whole == [x] && whole[..0] == [];
    } else {
      var n := |s| - 1;
      DigitsFirst(x, s[..n]);
      assert whole[..n + 1] == [x] + s[..n];
      assert s[n] % 128 * Power(n + 1) == 128 * (s[n] % 128 * Power(n));
    }
  }

  /** Whatever the bytes, decoding reads up to the first byte below 128 and takes what it
      read as digits; it fails exactly when there is no such byte. */
  lemma {:induction false} DecodeIs(b: ByteString, start: nat)
    ensures Decode(b, start).None? <==> forall k | start <= k < |b| :: b[k] >= 128
    ensures Decode(b, start).Some? ==>
              var d := Decode(b, start).value;
              && b[d.end - 1] < 128 && (forall k | start <= k < d.end - 1 :: b[k] >= 128)
              && d.number == Digits(b[start..d.end])
    decreases |b| - start
  {
    if start < |b| {
      if b[start] < 128 {
        assert b[start..start + 1] == [b[start]] + [];
        DigitsFirst(b[start], []);
      } else {
        DecodeIs(b, start + 1);
        if Decode(b, start + 1).Some? {
          var d := Decode(b, start).value;
          assert b[start..d.end] == [b[start]] + b[start + 1..d.end];
          DigitsFirst(b[start], b[start + 1..d.end]);
        }
      }
    }
  }

  lemma {:induction false} EncodeLengthMonotone(m: nat, n: nat)
    requires m <= n
    ensures |Encode(m)| <= |Encode(n)|
    decreases n
  {
    if n >= 128 && m >= 128 {
      EncodeLengthMonotone(m / 128, n / 128);
    }
  }
}
