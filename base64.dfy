/**
 * Base64 with the standard alphabet and `=` padding (section 4 of RFC 4648),
 * the encoding HTTP Basic credentials use (section 2 of RFC 7617).
 */
module Base64 {
  import opened Wrappers
  import opened Utf8

  type sextet = i: int | 0 <= i < 64

  /** The alphabet of section 4 of RFC 4648: A-Z, a-z, 0-9, '+', '/'. */
  function Digit(i: sextet): char
  {
    if i < 26 then ('A' as int + i) as char
    else if i < 52 then ('a' as int + (i - 26)) as char
    else if i < 62 then ('0' as int + (i - 52)) as char
    else if i == 62 then '+'
    else '/'
  }

  function DigitIndex(c: char): Option<sextet>
  {
    if 'A' <= c <= 'Z' then Some(c as int - 'A' as int)
    else if 'a' <= c <= 'z' then Some(c as int - 'a' as int + 26)
    else if '0' <= c <= '9' then Some(c as int - '0' as int + 52)
    else if c == '+' then Some(62)
    else if c == '/' then Some(63)
    else None
  }

  predicate IsDigit(c: char)
  {
    DigitIndex(c).Some?
  }

  lemma DigitRoundTrip(i: sextet)
    ensures DigitIndex(Digit(i)) == Some(i)
  {
  }

  /** Three bytes as four digits (a final group of one or two bytes is padded with `=`). */
  function Encode(bs: seq<byte>): string
  {
    if |bs| == 0 then ""
    else if |bs| == 1 then
      [Digit(bs[0] / 4), Digit((bs[0] % 4) * 16), '=', '=']
    else if |bs| == 2 then
      [Digit(bs[0] / 4), Digit((bs[0] % 4) * 16 + bs[1] / 16), Digit((bs[1] % 16) * 4), '=']
    else Group(bs[0], bs[1], bs[2]) + Encode(bs[3..])
  }

  /** The four digits of three bytes: their 24 bits, six at a time. */
  function Group(b0: byte, b1: byte, b2: byte): (g: string)
    ensures |g| == 4
  {
    [Digit(b0 / 4), Digit((b0 % 4) * 16 + b1 / 16), Digit((b1 % 16) * 4 + b2 / 64), Digit(b2 % 64)]
  }

  /** Reads groups of four characters; `None` for text that is not Base64. */
  function Decode(s: string): Option<seq<byte>>
    decreases |s|
  {
    if s == [] then Some([])
    else if |s| < 4 then None
    else match (DigitIndex(s[0]), DigitIndex(s[1]))
      case (Some(c0), Some(c1)) =>
        var b0: byte := c0 * 4 + c1 / 16;
        if |s| == 4 && s[2] == '=' && s[3] == '=' then Some([b0])
        else
          (match DigitIndex(s[2])
           case None => None
           case Some(c2) =>
             var b1: byte := (c1 % 16) * 16 + c2 / 4;
             if |s| == 4 && s[3] == '=' then Some([b0, b1])
             else
               (match DigitIndex(s[3])
                case None => None
                case Some(c3) =>
                  match Decode(s[4..])
                  case Some(rest) => Some(Ungroup(c0, c1, c2, c3) + rest)
                  case None => None))
      case _ => None
  }

  /** The three bytes whose 24 bits four digits carry. */
  function Ungroup(c0: sextet, c1: sextet, c2: sextet, c3: sextet): seq<byte>
  {
    [c0 * 4 + c1 / 16, (c1 % 16) * 16 + c2 / 4, (c2 % 4) * 64 + c3]
  }

  /** The arithmetic of one group: the four sextets of three bytes give the bytes back. */
  lemma GroupDigits(b0: byte, b1: byte, b2: byte) returns (c0: sextet, c1: sextet, c2: sextet, c3: sextet)
    ensures Group(b0, b1, b2) == [Digit(c0), Digit(c1), Digit(c2), Digit(c3)]
    ensures Ungroup(c0, c1, c2, c3) == [b0, b1, b2]
  {
    c0, c1, c2, c3 := b0 / 4, (b0 % 4) * 16 + b1 / 16, (b1 % 16) * 4 + b2 / 64, b2 % 64;
    assert c1 / 16 == b0 % 4 && c1 % 16 == b1 / 16;
    assert c2 / 4 == b1 % 16 && c2 % 4 == b2 / 64;
  }

  /** How `Decode` reads a group of four digits. */
  lemma DecodeDigits(s: string, c0: sextet, c1: sextet, c2: sextet, c3: sextet)
    requires |s| >= 4
    requires DigitIndex(s[0]) == Some(c0) && DigitIndex(s[1]) == Some(c1)
    requires DigitIndex(s[2]) == Some(c2) && DigitIndex(s[3]) == Some(c3)
    ensures Decode(s) == match Decode(s[4..])
      case Some(r) => Some(Ungroup(c0, c1, c2, c3) + r)
      case None => None
  {
    assert s[2] != '=' && s[3] != '=';
  }

  /** Decoding a full group followed by any text. */
  lemma DecodeGroup(b0: byte, b1: byte, b2: byte, t: string)
    ensures Decode(Group(b0, b1, b2) + t) == match Decode(t)
      case Some(r) => Some([b0, b1, b2] + r)
      case None => None
  {
    var c0, c1, c2, c3 := GroupDigits(b0, b1, b2);
    var s := Group(b0, b1, b2) + t;
    DigitRoundTrip(c0);
    DigitRoundTrip(c1);
    DigitRoundTrip(c2);
    DigitRoundTrip(c3);
    assert s[0] == Digit(c0) && s[1] == Digit(c1) && s[2] == Digit(c2) && s[3] == Digit(c3);
    assert s[4..] == t;
    DecodeDigits(s, c0, c1, c2, c3);
  }

  /** A final group of one byte. */
  lemma RoundTripOne(b0: byte)
    ensures Decode(Encode([b0])) == Some([b0])
  {
    var c0: sextet, c1: sextet := b0 / 4, (b0 % 4) * 16;
    DigitRoundTrip(c0);
    DigitRoundTrip(c1);
    assert c0 * 4 + c1 / 16 == b0;
  }

  /** A final group of two bytes. */
  lemma RoundTripTwo(b0: byte, b1: byte)
    ensures Decode(Encode([b0, b1])) == Some([b0, b1])
  {
    var c0: sextet, c1: sextet, c2: sextet := b0 / 4, (b0 % 4) * 16 + b1 / 16, (b1 % 16) * 4;
    DigitRoundTrip(c0);
    DigitRoundTrip(c1);
    DigitRoundTrip(c2);
    assert c1 / 16 == b0 % 4 && c1 % 16 == b1 / 16 && c2 / 4 == b1 % 16;
    var s := Encode([b0, b1]);
    assert s == [Digit(c0), Digit(c1), Digit(c2), '='];
    assert s[2] != '=';
  }

  /** Decoding the encoding of any byte string gives it back. */
  lemma {:induction false} RoundTrip(bs: seq<byte>)
    ensures Decode(Encode(bs)) == Some(bs)
  {
    if |bs| == 1 {
      RoundTripOne(bs[0]);
      assert [bs[0]] == bs;
    } else if |bs| == 2 {
      RoundTripTwo(bs[0], bs[1]);
      assert [bs[0], bs[1]] == bs;
    } else if |bs| >= 3 {
      DecodeGroup(bs[0], bs[1], bs[2], Encode(bs[3..]));
      RoundTrip(bs[3..]);
      assert [bs[0], bs[1], bs[2]] + bs[3..] == bs;
    }
  }

  /** Every character of an encoding is an alphabet digit or padding; none is a space. */
  lemma {:induction false} Alphabet(bs: seq<byte>)
    ensures forall i :: 0 <= i < |Encode(bs)| ==> IsDigit(Encode(bs)[i]) || Encode(bs)[i] == '='
  {
    if |bs| >= 3 {
      Alphabet(bs[3..]);
      var s := Encode(bs);
      forall i | 4 <= i < |s| ensures IsDigit(s[i]) || s[i] == '=' {
        assert s[i] == Encode(bs[3..])[i - 4];
      }
      forall i | 0 <= i < 4 ensures IsDigit(s[i]) || s[i] == '=' {
      }
    }
  }
}
