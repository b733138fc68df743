/** Python's `base64.b64encode`: the base 64 encoding of RFC 4648 section 4, with padding. */
module Base64 {
  import opened Wrappers
  import opened Bytes

  /** Table 1 of RFC 4648: the character for a 6-bit value. */
  function IndexToChar(i: int): char
    requires 0 <= i < 64
  {
    if i < 26 then ('A' as int + i) as char
    else if i < 52 then ('a' as int + (i - 26)) as char
    else if i < 62 then ('0' as int + (i - 52)) as char
    else if i == 62 then '+'
    else '/'
  }

  predicate IsAlphabetChar(c: char)
  {
    'A' <= c <= 'Z' || 'a' <= c <= 'z' || '0' <= c <= '9' || c == '+' || c == '/'
  }

  /** Table 1 read backwards: the 6-bit value of an alphabet character. */
  function CharToIndex(c: char): (i: int)
    requires IsAlphabetChar(c)
    ensures 0 <= i < 64 && IndexToChar(i) == c
  {
    if 'A' <= c <= 'Z' then c as int - 'A' as int
    else if 'a' <= c <= 'z' then c as int - 'a' as int + 26
    else if '0' <= c <= '9' then c as int - '0' as int + 52
    else if c == '+' then 62
    else 63
  }

  lemma IndexToCharInverse(i: int)
    requires 0 <= i < 64
    ensures IsAlphabetChar(IndexToChar(i)) && CharToIndex(IndexToChar(i)) == i
  {
  }

  /** The four characters for three bytes (RFC 4648 section 4: 24 bits as four 6-bit groups). */
  function EncodeFull(b0: uint8, b1: uint8, b2: uint8): string
  {
    [IndexToChar(b0 / 4), IndexToChar((b0 % 4) * 16 + b1 / 16), IndexToChar((b1 % 16) * 4 + b2 / 64), IndexToChar(b2 % 64)]
  }

  /** The final quantum for two bytes: three characters and one "=". */
  function EncodeTwo(b0: uint8, b1: uint8): string
  {
    [IndexToChar(b0 / 4), IndexToChar((b0 % 4) * 16 + b1 / 16), IndexToChar((b1 % 16) * 4), '=']
  }

  /** The final quantum for one byte: two characters and "==". */
  function EncodeOne(b0: uint8): string
  {
    [IndexToChar(b0 / 4), IndexToChar((b0 % 4) * 16), '=', '=']
  }

  /** An encoded character: of the alphabet, or "=" within the last two positions. */
  predicate EncodedCharAt(r: string, i: int)
    requires 0 <= i < |r|
  {
    IsAlphabetChar(r[i]) || (r[i] == '=' && i >= |r| - 2)
  }

  /** `base64.b64encode(b)`, as text. */
  function Encode(b: seq<uint8>): (r: string)
    ensures |r| == 4 * ((|b| + 2) / 3)
    ensures forall i :: 0 <= i < |r| ==> EncodedCharAt(r, i)
    decreases |b|
  {
    if |b| == 0 then ""
    else if |b| == 1 then EncodeOne(b[0])
    else if |b| == 2 then EncodeTwo(b[0], b[1])
    else
      var head := EncodeFull(b[0], b[1], b[2]);
      var tail := Encode(b[3..]);
      FullIsAlphabet(b[0], b[1], b[2]);
      QuantumCount(|b| - 3);
      assert forall i :: 4 <= i < |head + tail| ==> (head + tail)[i] == tail[i - 4] && EncodedCharAt(tail, i - 4);
      head + tail
  }

  /** Three more bytes make one more quantum. */
  lemma QuantumCount(m: nat)
    ensures 4 * ((m + 3 + 2) / 3) == 4 + 4 * ((m + 2) / 3)
  {
  }

  /** A full quantum consists of alphabet characters only. */
  lemma FullIsAlphabet(b0: uint8, b1: uint8, b2: uint8)
    ensures forall i :: 0 <= i < 4 ==> IsAlphabetChar(EncodeFull(b0, b1, b2)[i])
  {
    IndexToCharInverse(b0 / 4);
    IndexToCharInverse((b0 % 4) * 16 + b1 / 16);
    IndexToCharInverse((b1 % 16) * 4 + b2 / 64);
    IndexToCharInverse(b2 % 64);
  }

  /** The bytes of one four-character quantum; padding is accepted only in the last one. */
  function DecodeQuantum(q: string, last: bool): Option<seq<uint8>>
    requires |q| == 4
  {
    if IsAlphabetChar(q[0]) && IsAlphabetChar(q[1]) && IsAlphabetChar(q[2]) && IsAlphabetChar(q[3]) then
      var c0, c1, c2, c3 := CharToIndex(q[0]), CharToIndex(q[1]), CharToIndex(q[2]), CharToIndex(q[3]);
      Some([c0 * 4 + c1 / 16, (c1 % 16) * 16 + c2 / 4, (c2 % 4) * 64 + c3])
    else if last && IsAlphabetChar(q[0]) && IsAlphabetChar(q[1]) && IsAlphabetChar(q[2]) && q[3] == '=' then
      var c0, c1, c2 := CharToIndex(q[0]), CharToIndex(q[1]), CharToIndex(q[2]);
      Some([c0 * 4 + c1 / 16, (c1 % 16) * 16 + c2 / 4])
    else if last && IsAlphabetChar(q[0]) && IsAlphabetChar(q[1]) && q[2] == '=' && q[3] == '=' then
      var c0, c1 := CharToIndex(q[0]), CharToIndex(q[1]);
      Some([c0 * 4 + c1 / 16])
    else None
  }

  /** `base64.b64decode(s)` on padded text; None for text that is not an encoding. */
  function Decode(s: string): Option<seq<uint8>>
    decreases |s|
  {
    if s == [] then Some([])
    else if |s| < 4 then None
    else match DecodeQuantum(s[..4], |s| == 4)
      case None => None
      case Some(bytes) =>
        match Decode(s[4..])
        case None => None
        case Some(rest) => Some(bytes + rest)
  }

  /** The first decoded byte of a quantum recombines the first two 6-bit groups. */
  lemma RecombineFirst(b0: uint8, b1: uint8)
    ensures (b0 / 4) * 4 + ((b0 % 4) * 16 + b1 / 16) / 16 == b0
  {
    assert ((b0 % 4) * 16 + b1 / 16) / 16 == b0 % 4;
  }

  /** The second decoded byte recombines the second and third 6-bit groups. */
  lemma RecombineSecond(b0: uint8, b1: uint8, b2: uint8)
    ensures (((b0 % 4) * 16 + b1 / 16) % 16) * 16 + ((b1 % 16) * 4 + b2 / 64) / 4 == b1
  {
    assert ((b0 % 4) * 16 + b1 / 16) % 16 == b1 / 16;
    assert ((b1 % 16) * 4 + b2 / 64) / 4 == b1 % 16;
  }

  /** The third decoded byte recombines the last two 6-bit groups. */
  lemma RecombineThird(b1: uint8, b2: uint8)
    ensures (((b1 % 16) * 4 + b2 / 64) % 4) * 64 + b2 % 64 == b2
  {
    assert ((b1 % 16) * 4 + b2 / 64) % 4 == b2 / 64;
  }

  lemma FullQuantumRoundTrip(b0: uint8, b1: uint8, b2: uint8, last: bool)
    ensures DecodeQuantum(EncodeFull(b0, b1, b2), last) == Some([b0, b1, b2])
  {
    var c0, c1, c2, c3 := b0 / 4, (b0 % 4) * 16 + b1 / 16, (b1 % 16) * 4 + b2 / 64, b2 % 64;
    IndexToCharInverse(c0);
    IndexToCharInverse(c1);
    IndexToCharInverse(c2);
    IndexToCharInverse(c3);
    RecombineFirst(b0, b1);
    RecombineSecond(b0, b1, b2);
    RecombineThird(b1, b2);
  }

  lemma TwoQuantumRoundTrip(b0: uint8, b1: uint8)
    ensures DecodeQuantum(EncodeTwo(b0, b1), true) == Some([b0, b1])
  {
    var c0, c1, c2 := b0 / 4, (b0 % 4) * 16 + b1 / 16, (b1 % 16) * 4;
    IndexToCharInverse(c0);
    IndexToCharInverse(c1);
    IndexToCharInverse(c2);
    assert c1 / 16 == b0 % 4 && c1 % 16 == b1 / 16;
    assert c2 / 4 == b1 % 16;
  }

  lemma OneQuantumRoundTrip(b0: uint8)
    ensures DecodeQuantum(EncodeOne(b0), true) == Some([b0])
  {
    var c0, c1 := b0 / 4, (b0 % 4) * 16;
    IndexToCharInverse(c0);
    IndexToCharInverse(c1);
    assert c1 / 16 == b0 % 4;
  }

  /** Decoding a text of at least one quantum: its first quantum, then the rest. */
  lemma DecodeStep(s: string)
    requires |s| >= 4 && DecodeQuantum(s[..4], |s| == 4).Some? && Decode(s[4..]).Some?
    ensures Decode(s) == Some(DecodeQuantum(s[..4], |s| == 4).value + Decode(s[4..]).value)
  {
  }

  /** A text of exactly one quantum decodes as that final quantum. */
  lemma DecodeLastQuantum(s: string)
    requires |s| == 4 && DecodeQuantum(s, true).Some?
    ensures Decode(s) == DecodeQuantum(s, true)
  {
    assert s[..4] == s;
    assert Decode(s[4..]) == Some([]);
    assert DecodeQuantum(s, true).value + [] == DecodeQuantum(s, true).value;
  }

  lemma DecodeEncodeShort(b: seq<uint8>)
    requires 1 <= |b| <= 2
    ensures Decode(Encode(b)) == Some(b)
  {
    if |b| == 1 {
      assert Encode(b) == EncodeOne(b[0]);
      OneQuantumRoundTrip(b[0]);
      DecodeLastQuantum(EncodeOne(b[0]));
      assert [b[0]] == b;
    } else {
      assert Encode(b) == EncodeTwo(b[0], b[1]);
      TwoQuantumRoundTrip(b[0], b[1]);
      DecodeLastQuantum(EncodeTwo(b[0], b[1]));
      assert [b[0], b[1]] == b;
    }
  }

  lemma EncodeStep(b: seq<uint8>)
    requires |b| >= 3
    ensures Encode(b) == EncodeFull(b[0], b[1], b[2]) + Encode(b[3..])
  {
  }

  lemma SplitFirstThree(b: seq<uint8>)
    requires |b| >= 3
    ensures [b[0], b[1], b[2]] + b[3..] == b
  {
    assert b == b[..3] + b[3..];
  }

  /** Decoding undoes encoding. */
  lemma {:induction false} DecodeEncode(b: seq<uint8>)
    ensures Decode(Encode(b)) == Some(b)
    decreases |b|
  {
    if 1 <= |b| <= 2 {
      DecodeEncodeShort(b);
    } else if |b| >= 3 {
      var s, head, tail := Encode(b), EncodeFull(b[0], b[1], b[2]), Encode(b[3..]);
      EncodeStep(b);
      assert s[..4] == head && s[4..] == tail;
      FullQuantumRoundTrip(b[0], b[1], b[2], |s| == 4);
      DecodeEncode(b[3..]);
      DecodeStep(s);
      SplitFirstThree(b);
    }
  }
}
