/** Lower-case hexadecimal text of a byte string, built the way the client
    builds the text of a SHA-256 digest: every byte is written with
    Number.prototype.toString(16), left-padded to two characters with '0'
    (String.prototype.padStart), and the pieces are joined with the empty
    separator (Array.prototype.join). */
module Hex {
  import opened Common

  type byte = b: nat | b < 256

  predicate IsDigit(c: char)
  {
    '0' <= c <= '9' || 'a' <= c <= 'f'
  }

  predicate IsLowerHex(s: string)
  {
    forall i :: 0 <= i < |s| ==> IsDigit(s[i])
  }

  /** The character toString(16) writes for the digit value d. */
  function Digit(d: nat): (c: char)
    requires d < 16
    ensures IsDigit(c)
  {
    if d < 10 then ('0' as int + d) as char else ('a' as int + d - 10) as char
  }

  /** The value of a lower-case hexadecimal digit; None for any other character. */
  function DigitValue(c: char): (r: Option<nat>)
    ensures r.Some? <==> IsDigit(c)
    ensures r.Some? ==> r.value < 16 && Digit(r.value) == c
  {
    if '0' <= c <= '9' then Some(c as int - '0' as int)
    else if 'a' <= c <= 'f' then Some(c as int - 'a' as int + 10)
    else None
  }

  /** Number.prototype.toString(16) of a non-negative integer: no leading zeros. */
  function ToString16(n: nat): string
    decreases n
  {
    if n < 16 then [Digit(n)] else ToString16(n / 16) + [Digit(n % 16)]
  }

  /** String.prototype.padStart with a one-character fill. */
  function PadStart(s: string, width: nat, fill: char): string
  {
    if |s| >= width then s else seq(width - |s|, _ => fill) + s
  }

  /** `b.toString(16).padStart(2, '0')`: always the high and the low digit. */
  function ByteText(b: byte): (s: string)
    ensures s == [Digit(b / 16), Digit(b % 16)]
  {
    assert b < 16 ==> ToString16(b) == [Digit(b)];
    assert b >= 16 ==> ToString16(b / 16) == [Digit(b / 16)];
    PadStart(ToString16(b), 2, '0')
  }

  /** `bytes.map(b => b.toString(16).padStart(2, '0'))` */
  function Parts(bytes: seq<byte>): seq<string>
  {
    seq(|bytes|, i requires 0 <= i < |bytes| => ByteText(bytes[i]))
  }

  /** `parts.join('')` */
  function Join(parts: seq<string>): string
  {
    if parts == [] then "" else parts[0] + Join(parts[1..])
  }

  /** Joining two-character pieces puts piece i at positions 2i and 2i+1. */
  lemma {:induction false} JoinOfPairs(parts: seq<string>)
    requires forall k :: 0 <= k < |parts| ==> |parts[k]| == 2 && IsLowerHex(parts[k])
    ensures |Join(parts)| == 2 * |parts|
    ensures IsLowerHex(Join(parts))
    ensures forall i :: 0 <= i < |parts| ==>
              Join(parts)[2 * i] == parts[i][0] && Join(parts)[2 * i + 1] == parts[i][1]
  {
    if parts != [] {
      var rest := parts[1..];
      JoinOfPairs(rest);
      assert Join(parts) == parts[0] + Join(rest);
      forall i | 0 < i < |parts|
        ensures Join(parts)[2 * i] == parts[i][0] && Join(parts)[2 * i + 1] == parts[i][1]
      {
        assert rest[i - 1] == parts[i];
      }
    }
  }

  /** The hexadecimal text of a byte string: two digits per byte, high digit
      first, bytes in order, every character in 0-9a-f. */
  function Encode(bytes: seq<byte>): (s: string)
    ensures |s| == 2 * |bytes|
    ensures IsLowerHex(s)
    ensures forall i :: 0 <= i < |bytes| ==>
              s[2 * i] == Digit(bytes[i] / 16) && s[2 * i + 1] == Digit(bytes[i] % 16)
  {
    JoinOfPairs(Parts(bytes));
    Join(Parts(bytes))
  }

  lemma EncodeCons(bytes: seq<byte>)
    requires bytes != []
    ensures Encode(bytes) == ByteText(bytes[0]) + Encode(bytes[1..])
  {
    assert Parts(bytes)[1..] == Parts(bytes[1..]);
  }

  /** Reads hexadecimal text back into bytes, two digits per byte; None when
      the length is odd or a character is not a lower-case hexadecimal digit. */
  function Decode(s: string): Option<seq<byte>>
    decreases |s|
  {
    if s == [] then Some([])
    else if |s| < 2 then None
    else
      var hi, lo, rest := DigitValue(s[0]), DigitValue(s[1]), Decode(s[2..]);
      if hi.None? || lo.None? || rest.None? then None
      else Some([hi.value * 16 + lo.value] + rest.value)
  }

  /** Because every byte takes exactly two digits, the bytes can be read back. */
  lemma {:induction false} DecodeEncode(bytes: seq<byte>)
    ensures Decode(Encode(bytes)) == Some(bytes)
  {
    if bytes != [] {
      var s := Encode(bytes);
      EncodeCons(bytes);
      assert s[2..] == Encode(bytes[1..]);
      DecodeEncode(bytes[1..]);
      var b := bytes[0];
      assert DigitValue(s[0]) == Some(b / 16);
      assert DigitValue(s[1]) == Some(b % 16);
      assert [b] + bytes[1..] == bytes;
    }
  }

  /** Text that reads back as bytes is exactly the encoding of those bytes. */
  lemma {:induction false} EncodeDecode(s: string)
    ensures Decode(s).Some? ==> Encode(Decode(s).value) == s
  {
    if |s| >= 2 && Decode(s).Some? {
      var bytes := Decode(s).value;
      var hi, lo := DigitValue(s[0]).value, DigitValue(s[1]).value;
      assert bytes[0] == hi * 16 + lo && bytes[1..] == Decode(s[2..]).value;
      SplitByte(hi, lo);
      assert ByteText(bytes[0]) == [s[0], s[1]];
      EncodeDecode(s[2..]);
      EncodeCons(bytes);
      assert s == [s[0], s[1]] + s[2..];
    }
  }

  lemma SplitByte(hi: nat, lo: nat)
    requires hi < 16 && lo < 16
    ensures (hi * 16 + lo) / 16 == hi && (hi * 16 + lo) % 16 == lo
  {
  }

  /** The strings that read back as bytes are the even-length lower-case hexadecimal ones. */
  lemma {:induction false} DecodeDefined(s: string)
    ensures Decode(s).Some? <==> |s| % 2 == 0 && IsLowerHex(s)
  {
    if |s| >= 2 {
      var tail := s[2..];
      DecodeDefined(tail);
      assert forall i :: 2 <= i < |s| ==> s[i] == tail[i - 2];
      if Decode(s).Some? {
        assert DigitValue(s[0]).Some? && DigitValue(s[1]).Some? && Decode(tail).Some?;
        assert IsLowerHex(s);
      }
      if |s| % 2 == 0 && IsLowerHex(s) {
        assert IsDigit(s[0]) && IsDigit(s[1]);
        assert IsLowerHex(tail);
      }
    }
  }

  /** Distinct byte strings never share a text. */
  lemma EncodeInjective(a: seq<byte>, b: seq<byte>)
    ensures Encode(a) == Encode(b) ==> a == b
  {
    DecodeEncode(a);
    DecodeEncode(b);
  }
}
