/** `hexlify` (certreader/parse.py:10-11): bytes rendered as upper-case two-digit hex,
    joined by `:`; and the reading that undoes it. */
module Hex {
  import opened Wrappers
  import opened Text

  type Byte = b: int | 0 <= b < 0x100

  /** The lower-case digit `bytes.hex` writes for a nibble. */
  function LowerDigit(n: nat): char
    requires n < 16
  {
    if n < 10 then ('0' as int + n) as char else ('a' as int + n - 10) as char
  }

  /** The upper-case digit for a nibble: what `hexlify` shows after `.upper()`. */
  function HexDigit(n: nat): (c: char)
    requires n < 16
    ensures '0' <= c <= '9' || 'A' <= c <= 'F'
  {
    if n < 10 then ('0' as int + n) as char else ('A' as int + n - 10) as char
  }

  /** `bytes([b]).hex()`. */
  function ByteHex(b: Byte): string {
    [LowerDigit(b / 16), LowerDigit(b % 16)]
  }

  /** `":".join([bytes([byte]).hex() for byte in binary]).upper()`. */
  function Hexlify(binary: seq<Byte>): string {
    Upper(Join(":", seq(|binary|, i requires 0 <= i < |binary| => ByteHex(binary[i]))))
  }

  /** The value of an upper-case hex digit; lower-case digits are not accepted, since
      `hexlify` never writes them. */
  function DigitValue(c: char): (r: Option<nat>)
    ensures r.Some? ==> r.value < 16 && HexDigit(r.value) == c
    ensures forall n :: 0 <= n < 16 && HexDigit(n) == c ==> r == Some(n)
  {
    if '0' <= c <= '9' then Some(c as int - '0' as int)
    else if 'A' <= c <= 'F' then Some(c as int - 'A' as int + 10)
    else None
  }

  /** Splits at `:` and reads each piece as exactly two upper-case hex digits. */
  function Unhexlify(s: string): Option<seq<Byte>>
    decreases |s|
  {
    if s == [] then Some([])
    else if |s| < 2 then None
    else match (DigitValue(s[0]), DigitValue(s[1]))
      case (Some(hi), Some(lo)) =>
        var b: Byte := hi * 16 + lo;
        if |s| == 2 then Some([b])
        else if |s| > 3 && s[2] == ':' then
          (match Unhexlify(s[3..])
           case Some(rest) => Some([b] + rest)
           case None => None)
        else None
      case _ => None
  }

  /** The two characters `hexlify` writes for one byte. */
  function UpperPair(b: Byte): string {
    [HexDigit(b / 16), HexDigit(b % 16)]
  }

  lemma UpperByteHex(b: Byte)
    ensures Upper(ByteHex(b)) == UpperPair(b)
  {
  }

  /** `hexlify` unfolded one byte at a time. */
  lemma {:induction false} HexlifyCons(binary: seq<Byte>)
    requires |binary| >= 1
    ensures |binary| == 1 ==> Hexlify(binary) == UpperPair(binary[0])
    ensures |binary| >= 2 ==> Hexlify(binary) == UpperPair(binary[0]) + ":" + Hexlify(binary[1..])
  {
    var parts := seq(|binary|, i requires 0 <= i < |binary| => ByteHex(binary[i]));
    UpperByteHex(binary[0]);
    if |binary| >= 2 {
      var tail := binary[1..];
      assert parts[1..] == seq(|tail|, i requires 0 <= i < |tail| => ByteHex(tail[i]));
      assert Join(":", parts) == ByteHex(binary[0]) + ":" + Join(":", parts[1..]);
      UpperAppend(ByteHex(binary[0]) + ":", Join(":", parts[1..]));
      UpperAppend(ByteHex(binary[0]), ":");
    }
  }

  /** The shape of the output: empty for no bytes, otherwise 3|B| - 1 characters with a
      `:` exactly at every third position and each byte as its two upper-case digits. */
  lemma {:induction false} HexlifyFormat(binary: seq<Byte>)
    ensures |Hexlify(binary)| == if binary == [] then 0 else 3 * |binary| - 1
    ensures forall k :: 0 <= k < |Hexlify(binary)| ==> (Hexlify(binary)[k] == ':' <==> k % 3 == 2)
    ensures forall k :: 0 <= k < |Hexlify(binary)| && k % 3 == 0 ==> Hexlify(binary)[k] == HexDigit(binary[k / 3] / 16)
    ensures forall k :: 0 <= k < |Hexlify(binary)| && k % 3 == 1 ==> Hexlify(binary)[k] == HexDigit(binary[k / 3] % 16)
    decreases |binary|
  {
    if binary == [] {
    } else if |binary| == 1 {
      HexlifyCons(binary);
    } else {
      HexlifyCons(binary);
      var tail := binary[1..];
      HexlifyFormat(tail);
      var s, t := Hexlify(binary), Hexlify(tail);
      assert s == UpperPair(binary[0]) + ":" + t;
      forall k | 3 <= k < |s|
        ensures s[k] == t[k - 3] && k % 3 == (k - 3) % 3 && k / 3 == (k - 3) / 3 + 1
      {
      }
    }
  }

  /** Reading one rendered byte, alone or followed by `:` and more text. */
  lemma UnhexlifyPair(b: Byte, t: string)
    ensures Unhexlify(UpperPair(b)) == Some([b])
    ensures t != [] ==>
              Unhexlify(UpperPair(b) + ":" + t) ==
              (match Unhexlify(t) case Some(rest) => Some([b] + rest) case None => None)
  {
    assert DigitValue(HexDigit(b / 16)) == Some(b / 16);
    assert DigitValue(HexDigit(b % 16)) == Some(b % 16);
    assert b / 16 * 16 + b % 16 == b;
    if t != [] {
      var s := UpperPair(b) + ":" + t;
      assert s[0] == HexDigit(b / 16) && s[1] == HexDigit(b % 16) && s[2] == ':';
      assert s[3..] == t;
    }
  }

  /** Reading the output back gives the bytes. */
  lemma {:induction false} UnhexlifyHexlify(binary: seq<Byte>)
    ensures Unhexlify(Hexlify(binary)) == Some(binary)
    decreases |binary|
  {
    if binary != [] {
      HexlifyCons(binary);
      UnhexlifyPair(binary[0], Hexlify(binary[1..]));
      if |binary| >= 2 {
        HexlifyCons(binary[1..]);
        UnhexlifyHexlify(binary[1..]);
        assert Hexlify(binary[1..]) != [];
        assert [binary[0]] + binary[1..] == binary;
      } else {
        assert [binary[0]] == binary;
      }
    }
  }

  /** Whatever `Unhexlify` accepts is exactly what `hexlify` writes for the bytes it reads. */
  lemma {:induction false} HexlifyUnhexlify(s: string)
    ensures Unhexlify(s).Some? ==> Hexlify(Unhexlify(s).value) == s
    decreases |s|
  {
    if s != [] && Unhexlify(s).Some? {
      var binary := Unhexlify(s).value;
      var hi, lo := DigitValue(s[0]).value, DigitValue(s[1]).value;
      assert binary[0] / 16 == hi && binary[0] % 16 == lo;
      HexlifyCons(binary);
      if |s| == 2 {
        assert s == [s[0], s[1]];
      } else {
        HexlifyUnhexlify(s[3..]);
        assert binary[1..] == Unhexlify(s[3..]).value;
        assert s == [s[0], s[1]] + ":" + s[3..];
        assert |binary| >= 2;
      }
    }
  }

  /** Distinct byte strings never share a rendering. */
  lemma HexlifyInjective(a: seq<Byte>, b: seq<Byte>)
    requires Hexlify(a) == Hexlify(b)
    ensures a == b
  {
    UnhexlifyHexlify(a);
    UnhexlifyHexlify(b);
  }
}
