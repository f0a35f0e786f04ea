/**
 * encodeURIComponent and decodeURIComponent (ECMA-262, 2015 edition,
 * sections 18.2.6.5 and 18.2.6.3): every character outside the unreserved set
 * `A-Z a-z 0-9 - _ . ! ~ * ' ( )` is written as the %XX escapes of its UTF-8
 * bytes (RFC 3986 section 2.1), with upper-case hexadecimal digits.
 */
module UriEncoding {
  import opened Wrappers
  import opened Utf8

  predicate Unreserved(c: char)
  {
    ('A' <= c <= 'Z') || ('a' <= c <= 'z') || ('0' <= c <= '9') ||
    c == '-' || c == '_' || c == '.' || c == '!' || c == '~' || c == '*' || c == '\'' || c == '(' || c == ')'
  }

  predicate IsUpperHex(c: char)
  {
    ('0' <= c <= '9') || ('A' <= c <= 'F')
  }

  function HexDigit(d: int): (c: char)
    requires 0 <= d < 16
    ensures IsUpperHex(c)
  {
    "0123456789ABCDEF"[d]
  }

  /** The value of a hexadecimal digit of either case. */
  function HexValue(c: char): Option<int>
  {
    if '0' <= c <= '9' then Some(c as int - '0' as int)
    else if 'A' <= c <= 'F' then Some(c as int - 'A' as int + 10)
    else if 'a' <= c <= 'f' then Some(c as int - 'a' as int + 10)
    else None
  }

  lemma HexDigitValue(d: int)
    requires 0 <= d < 16
    ensures HexValue(HexDigit(d)) == Some(d)
  {
  }

  function PercentByte(b: byte): (s: string)
    ensures |s| == 3 && s[0] == '%'
  {
    ['%', HexDigit(b / 16), HexDigit(b % 16)]
  }

  function PercentBytes(bs: seq<byte>): (s: string)
    ensures |s| == 3 * |bs|
  {
    if bs == [] then [] else PercentByte(bs[0]) + PercentBytes(bs[1..])
  }

  function EncodeChar(c: char): (s: string)
    ensures |s| >= 1
  {
    if Unreserved(c) then [c] else PercentBytes(CharBytes(c))
  }

  /** encodeURIComponent, for every string of Unicode scalar values. */
  function EncodeURIComponent(s: string): string
  {
    if s == [] then [] else EncodeChar(s[0]) + EncodeURIComponent(s[1..])
  }

  /** The byte written as the `i`-th %XX escape of `s`, if that escape is there. */
  function ByteAt(s: string, i: nat): Option<byte>
  {
    if 3 * i + 3 <= |s| && s[3 * i] == '%' then
      match (HexValue(s[3 * i + 1]), HexValue(s[3 * i + 2]))
      case (Some(hi), Some(lo)) => if 0 <= hi * 16 + lo < 256 then Some(hi * 16 + lo) else None
      case _ => None
    else None
  }

  /** The bytes of the first `n` %XX escapes of `s`. */
  function BytesAt(s: string, n: nat): (r: Option<seq<byte>>)
    ensures r.Some? ==> |r.value| == n && 3 * n <= |s|
  {
    if n == 0 then Some([])
    else match ByteAt(s, 0)
      case None => None
      case Some(b) =>
        match BytesAt(s[3..], n - 1)
        case Some(rest) => Some([b] + rest)
        case None => None
  }

  /**
   * decodeURIComponent: a character other than `%` stands for itself; `%`
   * starts the UTF-8 sequence of one character. A malformed escape or sequence
   * is a URIError (`None`).
   */
  function DecodeURIComponent(s: string): Option<string>
    decreases |s|
  {
    if s == [] then Some([])
    else if s[0] != '%' then
      match DecodeURIComponent(s[1..])
      case Some(rest) => Some([s[0]] + rest)
      case None => None
    else match ByteAt(s, 0)
      case None => None
      case Some(b0) =>
        var n := LeadLength(b0);
        if n == 0 then None
        else match BytesAt(s, n)
          case None => None
          case Some(bs) =>
            match (DecodeChar(bs), DecodeURIComponent(s[3 * n..]))
            case (Some(c), Some(rest)) => Some([c] + rest)
            case _ => None
  }

  lemma {:induction false} BytesAtPercent(bs: seq<byte>, rest: string)
    ensures BytesAt(PercentBytes(bs) + rest, |bs|) == Some(bs)
  {
    if bs != [] {
      var s := PercentBytes(bs) + rest;
      var b := bs[0];
      assert s[..3] == PercentByte(b);
      HexDigitValue(b / 16);
      HexDigitValue(b % 16);
      assert ByteAt(s, 0) == Some(b);
      assert s[3..] == PercentBytes(bs[1..]) + rest;
      BytesAtPercent(bs[1..], rest);
      assert [b] + bs[1..] == bs;
    }
  }

  /** Decoding the escape of one character, followed by anything, yields that character first. */
  lemma DecodeEncodedChar(c: char, rest: string)
    ensures DecodeURIComponent(EncodeChar(c) + rest) ==
      match DecodeURIComponent(rest) case Some(r) => Some([c] + r) case None => None
  {
    var s := EncodeChar(c) + rest;
    if Unreserved(c) {
      assert s[1..] == rest;
    } else {
      var bs := CharBytes(c);
      CharRoundTrip(c);
      BytesAtPercent(bs, rest);
      assert s == PercentBytes(bs) + rest;
      assert s[..3] == PercentByte(bs[0]);
      HexDigitValue(bs[0] / 16);
      HexDigitValue(bs[0] % 16);
      assert ByteAt(s, 0) == Some(bs[0]);
      assert s[3 * |bs|..] == rest;
    }
  }

  /** Round trip: decodeURIComponent undoes encodeURIComponent. */
  lemma {:induction false} RoundTrip(s: string)
    ensures DecodeURIComponent(EncodeURIComponent(s)) == Some(s)
  {
    if s != [] {
      RoundTrip(s[1..]);
      DecodeEncodedChar(s[0], EncodeURIComponent(s[1..]));
      assert [s[0]] + s[1..] == s;
    }
  }

  lemma {:induction false} PercentBytesAlphabet(bs: seq<byte>)
    ensures forall i :: 0 <= i < |PercentBytes(bs)| ==>
      (i % 3 == 0 <==> PercentBytes(bs)[i] == '%') && (i % 3 != 0 ==> IsUpperHex(PercentBytes(bs)[i]))
  {
    if bs != [] {
      PercentBytesAlphabet(bs[1..]);
      var s := PercentBytes(bs);
      forall i | 0 <= i < |s|
        ensures (i % 3 == 0 <==> s[i] == '%') && (i % 3 != 0 ==> IsUpperHex(s[i]))
      {
        if i >= 3 {
          assert s[i] == PercentBytes(bs[1..])[i - 3];
        }
      }
    }
  }

  /** The output consists of unreserved characters, `%` signs and upper-case hexadecimal digits. */
  lemma {:induction false} EncodedAlphabet(s: string)
    ensures forall i :: 0 <= i < |EncodeURIComponent(s)| ==>
      var c := EncodeURIComponent(s)[i]; Unreserved(c) || c == '%' || IsUpperHex(c)
  {
    if s != [] {
      EncodedAlphabet(s[1..]);
      var head := EncodeChar(s[0]);
      if !Unreserved(s[0]) {
        PercentBytesAlphabet(CharBytes(s[0]));
      }
      var e := EncodeURIComponent(s);
      forall i | 0 <= i < |e| ensures Unreserved(e[i]) || e[i] == '%' || IsUpperHex(e[i]) {
        if i >= |head| {
          assert e[i] == EncodeURIComponent(s[1..])[i - |head|];
        } else {
          assert e[i] == head[i];
        }
      }
    }
  }

  lemma {:induction false} EncodedLength(s: string)
    ensures |EncodeURIComponent(s)| >= |s|
    ensures |EncodeURIComponent(s)| == |s| <==> forall i :: 0 <= i < |s| ==> Unreserved(s[i])
  {
    if s != [] {
      EncodedLength(s[1..]);
      assert forall i :: 1 <= i < |s| ==> s[i] == s[1..][i - 1];
    }
  }

  /** A string is left as it is exactly when all its characters are unreserved. */
  lemma Identity(s: string)
    ensures EncodeURIComponent(s) == s <==> forall i :: 0 <= i < |s| ==> Unreserved(s[i])
  {
    EncodedLength(s);
    if forall i :: 0 <= i < |s| ==> Unreserved(s[i]) {
      UnreservedUnchanged(s);
    }
  }

  lemma {:induction false} UnreservedUnchanged(s: string)
    requires forall i :: 0 <= i < |s| ==> Unreserved(s[i])
    ensures EncodeURIComponent(s) == s
  {
    if s != [] {
      UnreservedUnchanged(s[1..]);
      assert [s[0]] + s[1..] == s;
    }
  }

  /** Encoding distributes over concatenation. */
  lemma {:induction false} EncodeAppend(a: string, b: string)
    ensures EncodeURIComponent(a + b) == EncodeURIComponent(a) + EncodeURIComponent(b)
  {
    if a != [] {
      assert (a + b)[1..] == a[1..] + b;
      EncodeAppend(a[1..], b);
    } else {
      assert a + b == b;
    }
  }
}
