/** Base64 with the standard alphabet and padding: section 4 of RFC 4648. */
module Base64 {
  import opened Strings

  /** A Go string: a sequence of bytes, one `char` each. */
  type Bytes = s: string | forall i :: 0 <= i < |s| ==> s[i] as int < 256

  function Digit64(n: int): (c: char)
    requires 0 <= n < 64
    ensures ValueOf(c) == n && c != '='
  {
    if n < 26 then ('A' as int + n) as char
    else if n < 52 then ('a' as int + n - 26) as char
    else if n < 62 then ('0' as int + n - 52) as char
    else if n == 62 then '+'
    else '/'
  }

  /** The standard alphabet: capitals, small letters, digits, plus and slash. */
  lemma AlphabetIsStandard()
    ensures Digit64(0) == 'A' && Digit64(26) == 'a' && Digit64(52) == '0' && Digit64(62) == '+' && Digit64(63) == '/'
    ensures forall n :: 0 <= n < 61 && n !in {25, 51} ==> Digit64(n + 1) as int == Digit64(n) as int + 1
  {
  }

  function ValueOf(c: char): (n: int)
    ensures 0 <= n < 64
  {
    if 'A' <= c <= 'Z' then c as int - 'A' as int
    else if 'a' <= c <= 'z' then c as int - 'a' as int + 26
    else if '0' <= c <= '9' then c as int - '0' as int + 52
    else if c == '+' then 62
    else 63
  }

  function Sextet1(x: int): (n: int)
    requires 0 <= x < 256
    ensures 0 <= n < 64
  {
    x / 4
  }

  function Sextet2(x: int, y: int): (n: int)
    requires 0 <= x < 256 && 0 <= y < 256
    ensures 0 <= n < 64
  {
    x % 4 * 16 + y / 16
  }

  function Sextet3(y: int, z: int): (n: int)
    requires 0 <= y < 256 && 0 <= z < 256
    ensures 0 <= n < 64
  {
    y % 16 * 4 + z / 64
  }

  function Sextet4(z: int): (n: int)
    requires 0 <= z < 256
    ensures 0 <= n < 64
  {
    z % 64
  }

  /** Three bytes become four digits; one or two bytes at the end are filled up with zero bits and padded with '='. */
  function Encode(b: Bytes): string {
    if |b| == 0 then ""
    else
      var x := b[0] as int;
      if |b| == 1 then [Digit64(Sextet1(x)), Digit64(Sextet2(x, 0)), '=', '=']
      else
        var y := b[1] as int;
        if |b| == 2 then [Digit64(Sextet1(x)), Digit64(Sextet2(x, y)), Digit64(Sextet3(y, 0)), '=']
        else
          var z := b[2] as int;
          [Digit64(Sextet1(x)), Digit64(Sextet2(x, y)), Digit64(Sextet3(y, z)), Digit64(Sextet4(z))] + Encode(b[3..])
  }

  function Byte1(p: int, q: int): (c: char)
    requires 0 <= p < 64 && 0 <= q < 64
    ensures c as int < 256
  {
    (p * 4 + q / 16) as char
  }

  function Byte2(q: int, r: int): (c: char)
    requires 0 <= q < 64 && 0 <= r < 64
    ensures c as int < 256
  {
    (q % 16 * 16 + r / 4) as char
  }

  function Byte3(r: int, s: int): (c: char)
    requires 0 <= r < 64 && 0 <= s < 64
    ensures c as int < 256
  {
    (r % 4 * 64 + s) as char
  }

  function Decode(t: string): Bytes {
    if |t| < 4 then ""
    else
      var p, q, r, s := ValueOf(t[0]), ValueOf(t[1]), ValueOf(t[2]), ValueOf(t[3]);
      if t[2] == '=' then [Byte1(p, q)]
      else if t[3] == '=' then [Byte1(p, q), Byte2(q, r)]
      else [Byte1(p, q), Byte2(q, r), Byte3(r, s)] + Decode(t[4..])
  }

  lemma Byte1Back(x: int, y: int)
    requires 0 <= x < 256 && 0 <= y < 256
    ensures Byte1(Sextet1(x), Sextet2(x, y)) as int == x
  {
    assert (x % 4 * 16 + y / 16) / 16 == x % 4;
  }

  lemma Byte2Back(x: int, y: int, z: int)
    requires 0 <= x < 256 && 0 <= y < 256 && 0 <= z < 256
    ensures Byte2(Sextet2(x, y), Sextet3(y, z)) as int == y
  {
    assert (x % 4 * 16 + y / 16) % 16 == y / 16;
    assert (y % 16 * 4 + z / 64) / 4 == y % 16;
  }

  lemma Byte3Back(y: int, z: int)
    requires 0 <= y < 256 && 0 <= z < 256
    ensures Byte3(Sextet3(y, z), Sextet4(z)) as int == z
  {
    assert (y % 16 * 4 + z / 64) % 4 == z / 64;
  }

  lemma FullGroup(b: Bytes)
    requires |b| >= 3
    ensures Decode(Encode(b)) == [b[0], b[1], b[2]] + Decode(Encode(b[3..]))
  {
    hide Sextet1, Sextet2, Sextet3, Sextet4, Byte1, Byte2, Byte3, Digit64, ValueOf;
    var x, y, z := b[0] as int, b[1] as int, b[2] as int;
    Byte1Back(x, y);
    Byte2Back(x, y, z);
    Byte3Back(y, z);
    assert Encode(b)[4..] == Encode(b[3..]);
  }

  lemma OneByte(b: Bytes)
    requires |b| == 1
    ensures Decode(Encode(b)) == b
  {
    hide Sextet1, Sextet2, Sextet3, Sextet4, Byte1, Byte2, Byte3, Digit64, ValueOf;
    Byte1Back(b[0] as int, 0);
    assert b == [b[0]];
  }

  lemma TwoBytes(b: Bytes)
    requires |b| == 2
    ensures Decode(Encode(b)) == b
  {
    hide Sextet1, Sextet2, Sextet3, Sextet4, Byte1, Byte2, Byte3, Digit64, ValueOf;
    Byte1Back(b[0] as int, b[1] as int);
    Byte2Back(b[0] as int, b[1] as int, 0);
    assert b == [b[0], b[1]];
  }

  lemma {:induction false} RoundTrip(b: Bytes)
    ensures Decode(Encode(b)) == b
  {
    if |b| == 0 {
    } else if |b| == 1 {
      OneByte(b);
    } else if |b| == 2 {
      TwoBytes(b);
    } else {
      hide Encode, Decode;
      FullGroup(b);
      RoundTrip(b[3..]);
      assert b == [b[0], b[1], b[2]] + b[3..];
    }
  }

  /** The examples of section 10 of RFC 4648. */
  lemma StandardExamples()
    ensures Encode("") == "" && Encode("f") == "Zg==" && Encode("fo") == "Zm8=" && Encode("foo") == "Zm9v"
    ensures Encode("foob") == "Zm9vYg==" && Encode("foobar") == "Zm9vYmFy"
  {
    assert "foob"[3..] == "b" && "foobar"[3..] == "bar" && "foo"[3..] == "" && "bar"[3..] == "";
  }

  lemma EncodeInjective(a: Bytes, b: Bytes)
    requires Encode(a) == Encode(b)
    ensures a == b
  {
    RoundTrip(a);
    RoundTrip(b);
  }
}
