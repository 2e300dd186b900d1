/**
 * Base64 as section 4 of RFC 4648 defines it (standard alphabet, `=`
 * padding), with no line breaks: the form `android.util.Base64` produces
 * with the NO_WRAP flag for the binary fields of both wire codecs.
 */
module Base64 {
  import opened Wrappers
  import opened JavaInt

  /** The character for a 6-bit value (table 1 of RFC 4648). */
  function CharOf(v: int): (c: char)
    requires 0 <= v < 64
    ensures IndexOf(c) == Some(v)
  {
    if v < 26 then ('A' as int + v) as char
    else if v < 52 then ('a' as int + v - 26) as char
    else if v < 62 then ('0' as int + v - 52) as char
    else if v == 62 then '+'
    else '/'
  }

  /** The 6-bit value of an alphabet character; None for any other character. */
  function IndexOf(c: char): (r: Option<int>)
    ensures r.Some? ==> 0 <= r.value < 64
    ensures c == '=' ==> r.None?
  {
    if 'A' <= c <= 'Z' then Some(c as int - 'A' as int)
    else if 'a' <= c <= 'z' then Some(c as int - 'a' as int + 26)
    else if '0' <= c <= '9' then Some(c as int - '0' as int + 52)
    else if c == '+' then Some(62)
    else if c == '/' then Some(63)
    else None
  }

  /** Four characters for three octets. */
  function EncodeTriple(b0: Byte, b1: Byte, b2: Byte): (r: string)
    ensures |r| == 4
  {
    [CharOf(b0 / 4), CharOf((b0 % 4) * 16 + b1 / 16), CharOf((b1 % 16) * 4 + b2 / 64), CharOf(b2 % 64)]
  }

  /** A final group holding one octet: two digits and two `=`. */
  function EncodeOne(b0: Byte): (r: string)
    ensures |r| == 4 && r[2] == '=' && r[3] == '='
  {
    [CharOf(b0 / 4), CharOf((b0 % 4) * 16), '=', '=']
  }

  /** A final group holding two octets: three digits and one `=`. */
  function EncodePair(b0: Byte, b1: Byte): (r: string)
    ensures |r| == 4 && r[3] == '='
  {
    [CharOf(b0 / 4), CharOf((b0 % 4) * 16 + b1 / 16), CharOf((b1 % 16) * 4), '=']
  }

  /** The encoded text: full groups of three octets, then a padded final group. */
  function Encode(bs: seq<Byte>): (r: string)
    ensures |r| % 4 == 0
    ensures |bs| > 0 ==> |r| >= 4
    ensures |bs| <= 2 ==> |r| <= 4
  {
    if |bs| == 0 then []
    else if |bs| == 1 then EncodeOne(bs[0])
    else if |bs| == 2 then EncodePair(bs[0], bs[1])
    else EncodeTriple(bs[0], bs[1], bs[2]) + Encode(bs[3..])
  }

  /** The octets of one group of four characters, honouring `=` padding at the end. */
  function DecodeQuad(q: string, last: bool): (r: Option<seq<Byte>>)
    requires |q| == 4
    ensures r.Some? ==> 1 <= |r.value| <= 3
    ensures r.Some? && !last ==> |r.value| == 3
  {
    match (IndexOf(q[0]), IndexOf(q[1]), IndexOf(q[2]), IndexOf(q[3]))
    case (Some(c0), Some(c1), Some(c2), Some(c3)) =>
      Some([c0 * 4 + c1 / 16, (c1 % 16) * 16 + c2 / 4, (c2 % 4) * 64 + c3])
    case (Some(c0), Some(c1), Some(c2), None) =>
      if last && q[3] == '=' then Some([c0 * 4 + c1 / 16, (c1 % 16) * 16 + c2 / 4]) else None
    case (Some(c0), Some(c1), None, None) =>
      if last && q[2] == '=' && q[3] == '=' then Some([c0 * 4 + c1 / 16]) else None
    case _ => None
  }

  /**
   * Decoding: None for text that is not a padded Base64 string (a length
   * that is not a multiple of four, a character outside the alphabet, or
   * padding anywhere but at the end).
   */
  function Decode(s: string): (r: Option<seq<Byte>>)
    ensures r.Some? ==> |s| % 4 == 0
    decreases |s|
  {
    if |s| == 0 then Some([])
    else if |s| < 4 then None
    else
      match (DecodeQuad(s[..4], |s| == 4), Decode(s[4..]))
      case (Some(head), Some(tail)) => Some(head + tail)
      case _ => None
  }

  lemma TripleRoundTrip(b0: Byte, b1: Byte, b2: Byte)
    ensures DecodeQuad(EncodeTriple(b0, b1, b2), false) == Some([b0, b1, b2])
    ensures DecodeQuad(EncodeTriple(b0, b1, b2), true) == Some([b0, b1, b2])
  {
    var c1 := (b0 % 4) * 16 + b1 / 16;
    var c2 := (b1 % 16) * 4 + b2 / 64;
    Sixteens(b0 % 4, b1 / 16);
    Fours(b1 % 16, b2 / 64);
    var q := EncodeTriple(b0, b1, b2);
    assert IndexOf(q[0]) == Some(b0 / 4) && IndexOf(q[1]) == Some(c1);
    assert IndexOf(q[2]) == Some(c2) && IndexOf(q[3]) == Some(b2 % 64);
    assert (b0 / 4) * 4 + c1 / 16 == b0;
    assert (c1 % 16) * 16 + c2 / 4 == b1;
    assert (c2 % 4) * 64 + b2 % 64 == b2;
  }

  /** A two-digit numeral in base 16 splits back into its digits. */
  lemma Sixteens(hi: int, lo: int)
    requires 0 <= lo < 16
    ensures (hi * 16 + lo) / 16 == hi && (hi * 16 + lo) % 16 == lo
  {
  }

  /** A two-digit numeral in base 4 splits back into its digits. */
  lemma Fours(hi: int, lo: int)
    requires 0 <= lo < 4
    ensures (hi * 4 + lo) / 4 == hi && (hi * 4 + lo) % 4 == lo
  {
  }

  lemma SingleRoundTrip(b0: Byte)
    ensures DecodeQuad(EncodeOne(b0), true) == Some([b0])
  {
    var c1 := (b0 % 4) * 16;
    assert c1 / 16 == b0 % 4;
  }

  lemma PairRoundTrip(b0: Byte, b1: Byte)
    ensures DecodeQuad(EncodePair(b0, b1), true)
         == Some([b0, b1])
  {
    var c1 := (b0 % 4) * 16 + b1 / 16;
    var c2 := (b1 % 16) * 4;
    assert c1 / 16 == b0 % 4 && c1 % 16 == b1 / 16;
    assert c2 / 4 == b1 % 16;
  }

  /** Decoding undoes encoding, for every octet string. */
  lemma {:induction false} RoundTrip(bs: seq<Byte>)
    ensures Decode(Encode(bs)) == Some(bs)
    decreases |bs|
  {
    if |bs| == 0 {
    } else if |bs| == 1 {
      OneOctet(bs);
    } else if |bs| == 2 {
      TwoOctets(bs);
    } else {
      var rest := Encode(bs[3..]);
      EncodeStep(bs);
      GroupStep(bs[0], bs[1], bs[2], rest);
      RoundTrip(bs[3..]);
      SplitGroup(bs);
    }
  }

  lemma SplitGroup(bs: seq<Byte>)
    requires |bs| >= 3
    ensures [bs[0], bs[1], bs[2]] + bs[3..] == bs
  {
    assert bs == bs[..3] + bs[3..] && bs[..3] == [bs[0], bs[1], bs[2]];
  }

  lemma EncodeStep(bs: seq<Byte>)
    requires |bs| >= 3
    ensures Encode(bs) == EncodeTriple(bs[0], bs[1], bs[2]) + Encode(bs[3..])
  {
  }

  lemma OneOctet(bs: seq<Byte>)
    requires |bs| == 1
    ensures Decode(Encode(bs)) == Some(bs)
  {
    var b0 := bs[0];
    assert bs == [b0];
    var e := EncodeOne(b0);
    assert Encode([b0]) == e;
    SingleRoundTrip(b0);
    DecodeGroup(e, []);
    assert e + [] == e && Decode([]) == Some([]);
    assert [b0] + [] == [b0];
  }

  lemma TwoOctets(bs: seq<Byte>)
    requires |bs| == 2
    ensures Decode(Encode(bs)) == Some(bs)
  {
    var b0, b1 := bs[0], bs[1];
    assert bs == [b0, b1];
    var e := EncodePair(b0, b1);
    assert Encode([b0, b1]) == e;
    PairRoundTrip(b0, b1);
    DecodeGroup(e, []);
    assert e + [] == e && Decode([]) == Some([]);
    assert [b0, b1] + [] == [b0, b1];
  }

  /** A full group decodes to its three octets, ahead of whatever the rest decodes to. */
  lemma GroupStep(b0: Byte, b1: Byte, b2: Byte, rest: string)
    ensures Decode(EncodeTriple(b0, b1, b2) + rest) ==
            (if Decode(rest).Some? then Some([b0, b1, b2] + Decode(rest).value) else None)
  {
    TripleRoundTrip(b0, b1, b2);
    DecodeGroup(EncodeTriple(b0, b1, b2), rest);
  }

  /** Decoding takes the text one group of four at a time; only the last group may be padded. */
  lemma DecodeGroup(q: string, rest: string)
    requires |q| == 4
    ensures Decode(q + rest) ==
            (var head := DecodeQuad(q, rest == []);
             var tail := Decode(rest);
             if head.Some? && tail.Some? then Some(head.value + tail.value) else None)
  {
    assert (q + rest)[..4] == q && (q + rest)[4..] == rest;
  }
}
