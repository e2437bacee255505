/** Base64 as `binascii.b2a_base64` and `binascii.a2b_base64` use it: the
    standard alphabet and `=` padding of section 4 of RFC 4648. Every key
    encoding, ratchet snapshot and envelope body of the program goes
    through these two functions. */
module Base64 {
  import opened Common

  /** The value of one base64 digit. */
  type Sextet = x: int | 0 <= x < 64

  /** The digit for a value: `A`-`Z`, `a`-`z`, `0`-`9`, `+`, `/`. */
  function CharOf(v: Sextet): char {
    if v < 26 then (65 + v) as char
    else if v < 52 then (97 + (v - 26)) as char
    else if v < 62 then (48 + (v - 52)) as char
    else if v == 62 then '+'
    else '/'
  }

  /** The value of a digit, or None for a character outside the alphabet. */
  function ValueOf(c: char): Option<Sextet> {
    if 'A' <= c <= 'Z' then Some(c as int - 65)
    else if 'a' <= c <= 'z' then Some(c as int - 97 + 26)
    else if '0' <= c <= '9' then Some(c as int - 48 + 52)
    else if c == '+' then Some(62)
    else if c == '/' then Some(63)
    else None
  }

  predicate IsDigit(c: char) {
    ValueOf(c).Some?
  }

  /** The characters an encoder may emit: digits and the pad `=`. */
  predicate IsBase64Char(c: char) {
    IsDigit(c) || c == '='
  }

  lemma ValueOfCharOf(v: Sextet)
    ensures ValueOf(CharOf(v)) == Some(v)
  {
  }

  /** Three octets as four digits. */
  function EncodeTriple(a: Byte, b: Byte, c: Byte): string {
    var x, y, z := a as int, b as int, c as int;
    [CharOf(x / 4), CharOf(x % 4 * 16 + y / 16), CharOf(y % 16 * 4 + z / 64), CharOf(z % 64)]
  }

  /** Encoding without a trailing newline (`b2a_base64(s, newline=False)`):
      four characters per started group of three octets, padded with `=`. */
  function Encode(s: Bytes): (r: string)
    ensures |r| == 4 * ((|s| + 2) / 3)
    ensures forall i :: 0 <= i < |r| ==> IsBase64Char(r[i])
    decreases |s|
  {
    if |s| == 0 then ""
    else if |s| == 1 then
      var x := s[0] as int;
      [CharOf(x / 4), CharOf(x % 4 * 16), '=', '=']
    else if |s| == 2 then
      var x, y := s[0] as int, s[1] as int;
      [CharOf(x / 4), CharOf(x % 4 * 16 + y / 16), CharOf(y % 16 * 4), '=']
    else
      EncodeTriple(s[0], s[1], s[2]) + Encode(s[3..])
  }

  /** The octets a quantum spells: each takes the bits of two neighbouring digits. */
  function First(a: Sextet, b: Sextet): Byte {
    ((a as int) * 4 + (b as int) / 16) as Byte
  }

  function Second(b: Sextet, c: Sextet): Byte {
    ((b as int) % 16 * 16 + (c as int) / 4) as Byte
  }

  function Third(c: Sextet, d: Sextet): Byte {
    ((c as int) % 4 * 64 + (d as int)) as Byte
  }

  /** Four digits without padding as three octets. */
  function DecodeQuantum(q: string): Option<Bytes>
    requires |q| == 4
  {
    match (ValueOf(q[0]), ValueOf(q[1]), ValueOf(q[2]), ValueOf(q[3]))
    case (Some(a), Some(b), Some(c), Some(d)) =>
      Some([First(a, b), Second(b, c), Third(c, d)])
    case _ => None
  }

  /** The last quantum, which may carry one or two pad characters. */
  function DecodeLast(q: string): Option<Bytes>
    requires |q| == 4
  {
    if q[2] == '=' && q[3] == '=' then
      match (ValueOf(q[0]), ValueOf(q[1]))
      case (Some(a), Some(b)) => Some([First(a, b)])
      case _ => None
    else if q[3] == '=' then
      match (ValueOf(q[0]), ValueOf(q[1]), ValueOf(q[2]))
      case (Some(a), Some(b), Some(c)) => Some([First(a, b), Second(b, c)])
      case _ => None
    else
      DecodeQuantum(q)
  }

  /** Strict decoding: None unless the text is a sequence of whole
      quanta with padding only in the last one. */
  function Decode(t: string): Option<Bytes>
    decreases |t|
  {
    if |t| == 0 then Some([])
    else if |t| < 4 then None
    else if |t| == 4 then DecodeLast(t)
    else
      match DecodeQuantum(t[..4])
      case None => None
      case Some(head) =>
        match Decode(t[4..])
        case None => None
        case Some(tail) => Some(head + tail)
  }

  /** The characters `a2b_base64` looks at: it skips everything else. */
  function Filter(t: string): (r: string)
    ensures |r| <= |t|
    ensures forall i :: 0 <= i < |r| ==> IsBase64Char(r[i])
  {
    if |t| == 0 then ""
    else (if IsBase64Char(t[0]) then [t[0]] else "") + Filter(t[1..])
  }

  /** `binascii.b2a_base64(s, newline=...)`. */
  function B2a(s: Bytes, newline: bool): string {
    Encode(s) + (if newline then "\n" else "")
  }

  /** `binascii.a2b_base64(t)`; None stands for `binascii.Error`. */
  function A2b(t: string): Option<Bytes> {
    Decode(Filter(t))
  }

  /** The first octet comes back from the first two digits. */
  lemma FirstInverts(x: int, y: int)
    requires 0 <= x < 256 && 0 <= y < 256
    ensures First(x / 4, x % 4 * 16 + y / 16) as int == x
  {
    assert (x % 4 * 16 + y / 16) / 16 == x % 4;
  }

  /** The second octet comes back from the second and third digits. */
  lemma SecondInverts(x: int, y: int, z: int)
    requires 0 <= x < 256 && 0 <= y < 256 && 0 <= z < 256
    ensures Second(x % 4 * 16 + y / 16, y % 16 * 4 + z / 64) as int == y
  {
    assert (x % 4 * 16 + y / 16) % 16 == y / 16;
    assert (y % 16 * 4 + z / 64) / 4 == y % 16;
  }

  /** The third octet comes back from the last two digits. */
  lemma ThirdInverts(y: int, z: int)
    requires 0 <= y < 256 && 0 <= z < 256
    ensures Third(y % 16 * 4 + z / 64, z % 64) as int == z
  {
    assert (y % 16 * 4 + z / 64) % 4 == z / 64;
  }

  lemma TripleRoundTrip(a: Byte, b: Byte, c: Byte)
    ensures DecodeQuantum(EncodeTriple(a, b, c)) == Some([a, b, c])
  {
    var x, y, z := a as int, b as int, c as int;
    var p, q, r, w := x / 4, x % 4 * 16 + y / 16, y % 16 * 4 + z / 64, z % 64;
    ValueOfCharOf(p);
    ValueOfCharOf(q);
    ValueOfCharOf(r);
    ValueOfCharOf(w);
    assert DecodeQuantum(EncodeTriple(a, b, c)) == Some([First(p, q), Second(q, r), Third(r, w)]);
    FirstInverts(x, y);
    SecondInverts(x, y, z);
    ThirdInverts(y, z);
  }

  /** Decoding undoes encoding, for every byte string. */
  lemma {:induction false} DecodeEncode(s: Bytes)
    ensures Decode(Encode(s)) == Some(s)
    decreases |s|
  {
    if |s| == 0 {
    } else if |s| == 1 {
      var x := s[0] as int;
      ValueOfCharOf(x / 4);
      ValueOfCharOf(x % 4 * 16);
      assert Encode(s) == [CharOf(x / 4), CharOf(x % 4 * 16), '=', '='];
      FirstInverts(x, 0);
      assert s == [s[0]];
    } else if |s| == 2 {
      var x, y := s[0] as int, s[1] as int;
      ValueOfCharOf(x / 4);
      ValueOfCharOf(x % 4 * 16 + y / 16);
      ValueOfCharOf(y % 16 * 4);
      assert Encode(s) == [CharOf(x / 4), CharOf(x % 4 * 16 + y / 16), CharOf(y % 16 * 4), '='];
      FirstInverts(x, y);
      SecondInverts(x, y, 0);
      assert s == [s[0], s[1]];
    } else {
      DecodeEncodeLong(s);
    }
  }

  /** The inductive step: a whole first quantum, then the rest. */
  lemma {:induction false} DecodeEncodeLong(s: Bytes)
    requires |s| >= 3
    ensures Decode(Encode(s)) == Some(s)
    decreases |s|, 0
  {
    var head := EncodeTriple(s[0], s[1], s[2]);
    var t := Encode(s);
    assert t == head + Encode(s[3..]);
    TripleRoundTrip(s[0], s[1], s[2]);
    if |s| == 3 {
      assert t == head;
      assert Encode(s[3..]) == "";
      assert s == [s[0], s[1], s[2]];
      assert Decode(t) == DecodeLast(t);
      assert t[3] != '=' by {
        ValueOfCharOf(s[2] as int % 64);
      }
    } else {
      assert t[..4] == head;
      assert t[4..] == Encode(s[3..]);
      DecodeEncode(s[3..]);
      assert s == [s[0], s[1], s[2]] + s[3..];
    }
  }

  lemma {:induction false} FilterKeeps(t: string)
    requires forall i :: 0 <= i < |t| ==> IsBase64Char(t[i])
    ensures Filter(t) == t
    decreases |t|
  {
    if |t| > 0 {
      FilterKeeps(t[1..]);
      assert t == [t[0]] + t[1..];
    }
  }

  lemma {:induction false} FilterDropsNewline(t: string)
    ensures Filter(t + "\n") == Filter(t)
    decreases |t|
  {
    if |t| == 0 {
      assert Filter("\n") == "" + Filter("");
    } else {
      assert (t + "\n")[1..] == t[1..] + "\n";
      FilterDropsNewline(t[1..]);
    }
  }

  /** `a2b_base64` reads back what `b2a_base64` wrote, with or without the
      trailing newline. */
  lemma A2bB2a(s: Bytes, newline: bool)
    ensures A2b(B2a(s, newline)) == Some(s)
  {
    if newline {
      assert B2a(s, newline) == Encode(s) + "\n";
      FilterDropsNewline(Encode(s));
    } else {
      assert B2a(s, newline) == Encode(s);
    }
    FilterKeeps(Encode(s));
    DecodeEncode(s);
  }
}
