/** Base 64 as in section 4 of RFC 4648 (src/util.cpp). */
module Base64 {
  import opened Bytes

  type Sextet = v: int | 0 <= v < 64

  /** The 64 characters in their order. */
  function CharOf(v: Sextet): (c: char) {
    if v < 26 then 'A' + v as char
    else if v < 52 then 'a' + (v - 26) as char
    else if v < 62 then '0' + (v - 52) as char
    else if v == 62 then '+'
    else '/'
  }

  /** The place of `c` among the 64 characters, or 0xFF. */
  function IndexOf(c: char): Byte {
    if 'A' <= c <= 'Z' then c as int - 'A' as int
    else if 'a' <= c <= 'z' then c as int - 'a' as int + 26
    else if '0' <= c <= '9' then c as int - '0' as int + 52
    else if c == '+' then 62
    else if c == '/' then 63
    else 0xFF
  }

  /** `CharOf` and `IndexOf` are inverse to each other. */
  lemma CharAt(c: char, v: Sextet)
    ensures CharOf(v) == c <==> IndexOf(c) == v
  {
  }

  /** The four sextets of a group of three bytes. */
  function Sextet0(a: Byte): Sextet { a / 4 }

  function Sextet1(a: Byte, b: Byte): Sextet { a % 4 * 16 + b / 16 }

  function Sextet2(b: Byte, c: Byte): Sextet { b % 16 * 4 + c / 64 }

  function Sextet3(c: Byte): Sextet { c % 64 }

  /** The four characters of the next three bytes, padded if there are fewer. */
  function Group(s: seq<Byte>): (g: string)
    requires s != []
    ensures |g| == 4
  {
    if |s| == 1 then [CharOf(Sextet0(s[0])), CharOf(Sextet1(s[0], 0)), '=', '=']
    else if |s| == 2 then [CharOf(Sextet0(s[0])), CharOf(Sextet1(s[0], s[1])), CharOf(Sextet2(s[1], 0)), '=']
    else [CharOf(Sextet0(s[0])), CharOf(Sextet1(s[0], s[1])), CharOf(Sextet2(s[1], s[2])), CharOf(Sextet3(s[2]))]
  }

  function Rest(s: seq<Byte>): (r: seq<Byte>)
    ensures s != [] ==> |r| < |s|
  {
    if |s| < 3 then [] else s[3..]
  }

  function Encoded(s: seq<Byte>): string
    decreases |s|
  {
    if s == [] then [] else Group(s) + Encoded(Rest(s))
  }

  /** The bytes that four sextets hold. A sextet is 0xFF for a character that is none of the 64. */
  function First(p: Byte, q: Byte): Byte { p % 64 * 4 + q / 16 % 4 }

  function Second(q: Byte, r: Byte): Byte { q % 16 * 16 + r / 4 % 16 }

  function Third(r: Byte, s: Byte): Byte { r % 4 * 64 + s % 64 }

  /** The bytes of four characters, fewer than three if there is padding. */
  function Quad(p: char, q: char, r: char, s: char): (g: seq<Byte>)
    ensures |g| == if r == '=' then 1 else if s == '=' then 2 else 3
  {
    if r == '=' then [First(IndexOf(p), IndexOf(q))]
    else if s == '=' then [First(IndexOf(p), IndexOf(q)), Second(IndexOf(q), IndexOf(r))]
    else [First(IndexOf(p), IndexOf(q)), Second(IndexOf(q), IndexOf(r)), Third(IndexOf(r), IndexOf(s))]
  }

  predicate Padded(t: string)
    requires |t| >= 4
  {
    t[2] == '=' || t[3] == '='
  }

  /** Stops behind padding, and at a zero character, which the code takes for the end of the string. */
  function Decoded(t: string): seq<Byte>
    requires |t| % 4 == 0
    decreases |t|
  {
    if t == [] || t[0] == '\0' then []
    else Quad(t[0], t[1], t[2], t[3]) + Decoded(if Padded(t) then [] else t[4..])
  }

  /** A group is the 24 bits of its bytes cut into four sextets, the highest first. */
  lemma GroupBits(a: Byte, b: Byte, c: Byte)
    ensures Sextet0(a) * 0x4_0000 + Sextet1(a, b) * 0x1000 + Sextet2(b, c) * 0x40 + Sextet3(c)
         == a * 0x1_0000 + b * 0x100 + c
  {
  }

  const UPPER := "ABCDEFGHIJKLMNOPQRSTUVWXYZ"
  const LOWER := "abcdefghijklmnopqrstuvwxyz"
  const DIGITS := "0123456789"
  const ALPHABET := UPPER + LOWER + DIGITS + "+/"

  lemma UpperAt(v: nat)
    requires v < 26
    ensures |UPPER| == 26 && UPPER[v] == 'A' + v as char
  {
  }

  lemma LowerAt(v: nat)
    requires v < 26
    ensures |LOWER| == 26 && LOWER[v] == 'a' + v as char
  {
  }

  lemma DigitAt(v: nat)
    requires v < 10
    ensures |DIGITS| == 10 && DIGITS[v] == '0' + v as char
  {
  }

  /** The characters are those of table 1 of RFC 4648, in their order. */
  lemma Alphabet(v: Sextet)
    ensures |ALPHABET| == 64 && ALPHABET[v] == CharOf(v)
  {
    if v < 26 {
      UpperAt(v);
    } else if v < 52 {
      LowerAt(v - 26);
    } else if v < 62 {
      DigitAt(v - 52);
    }
  }

  /** A character is found where it stands in the table, and any other counts as 0xFF. */
  lemma IndexMeaning(c: char)
    ensures IndexOf(c) == 0xFF || (IndexOf(c) < 64 && ALPHABET[IndexOf(c)] == c)
    ensures forall v: Sextet :: ALPHABET[v] == c ==> IndexOf(c) == v
  {
    if IndexOf(c) < 64 {
      CharAt(c, IndexOf(c));
      Alphabet(IndexOf(c));
    }
    forall v: Sextet | ALPHABET[v] == c ensures IndexOf(c) == v {
      Alphabet(v);
      CharAt(c, v);
    }
  }

  /** Whatever four sextets hold is read as three bytes of the same 24 bits. */
  lemma QuadBits(p: Sextet, q: Sextet, r: Sextet, s: Sextet)
    ensures First(p, q) as int * 0x1_0000 + Second(q, r) as int * 0x100 + Third(r, s) as int
         == p as int * 0x4_0000 + q as int * 0x1000 + r as int * 0x40 + s as int
  {
  }

  /** Three bytes are written as the four characters of their 24 bits. */
  lemma GroupFormat(a: Byte, b: Byte, c: Byte)
    ensures var n := a * 0x1_0000 + b * 0x100 + c;
      Group([a, b, c])
      == [ALPHABET[n / 0x4_0000], ALPHABET[n / 0x1000 % 64], ALPHABET[n / 0x40 % 64], ALPHABET[n % 64]]
  {
    SextetsAreBits(a, b, c);
    Alphabet(Sextet0(a));
    Alphabet(Sextet1(a, b));
    Alphabet(Sextet2(b, c));
    Alphabet(Sextet3(c));
    hide CharOf, Sextet0, Sextet1, Sextet2, Sextet3;
  }

  lemma SextetsAreBits(a: Byte, b: Byte, c: Byte)
    ensures var n := a * 0x1_0000 + b * 0x100 + c;
      && Sextet0(a) == n / 0x4_0000 && Sextet1(a, b) == n / 0x1000 % 64
      && Sextet2(b, c) == n / 0x40 % 64 && Sextet3(c) == n % 64
  {
    var n := a * 0x1_0000 + b * 0x100 + c;
    var x: int, y: int, z: int, w: int := Sextet0(a), Sextet1(a, b), Sextet2(b, c), Sextet3(c);
    GroupBits(a, b, c);
    hide Sextet0, Sextet1, Sextet2, Sextet3;
    LastDigit(x * 0x1000 + y * 0x40 + z, w);
    LastDigit(x * 0x40 + y, z);
    LastDigit(x, y);
    DividedTwice(n);
  }

  lemma LastDigit(m: nat, d: nat)
    requires d < 64
    ensures (m * 64 + d) / 64 == m && (m * 64 + d) % 64 == d
  {
  }

  lemma DividedTwice(n: nat)
    ensures n / 0x1000 == n / 0x40 / 0x40 && n / 0x4_0000 == n / 0x40 / 0x40 / 0x40
  {
  }

  /** One or two bytes are written as if zero bytes followed, with padding for the characters that hold nothing. */
  lemma ShortGroup(a: Byte, b: Byte)
    ensures Group([a]) == Group([a, 0, 0])[..2] + "=="
    ensures Group([a, b]) == Group([a, b, 0])[..3] + "="
  {
  }

  lemma FirstBack(a: Byte, b: Byte)
    ensures First(Sextet0(a), Sextet1(a, b)) == a
  {
    var x, y := a % 4, b / 16;
    assert (x * 16 + y) / 16 == x;
  }

  lemma SecondBack(a: Byte, b: Byte, c: Byte)
    ensures Second(Sextet1(a, b), Sextet2(b, c)) == b
  {
    var x, y, z, w := a % 4, b / 16, b % 16, c / 64;
    assert (x * 16 + y) % 16 == y;
    assert (z * 4 + w) / 4 == z;
  }

  lemma ThirdBack(b: Byte, c: Byte)
    ensures Third(Sextet2(b, c), Sextet3(c)) == c
  {
    var z, w := b % 16, c / 64;
    assert (z * 4 + w) % 4 == w;
  }

  /** Characters of a group are found again, and are none of the two that mean something else. */
  lemma CharBack(v: Sextet)
    ensures IndexOf(CharOf(v)) == v && CharOf(v) != '=' && CharOf(v) != '\0'
  {
  }

  lemma GroupBack(s: seq<Byte>)
    requires s != []
    ensures var g := Group(s);
      && g[0] != '\0' && Quad(g[0], g[1], g[2], g[3]) == s[..if |s| < 3 then |s| else 3] && (Padded(g) <==> |s| < 3)
  {
    hide CharOf, IndexOf, First, Second, Third, Sextet0, Sextet1, Sextet2, Sextet3;
    var a, b, c := s[0], if |s| > 1 then s[1] else 0, if |s| > 2 then s[2] else 0;
    CharBack(Sextet0(a));
    CharBack(Sextet1(a, b));
    CharBack(Sextet2(b, c));
    CharBack(Sextet3(c));
    FirstBack(a, b);
    SecondBack(a, b, c);
    ThirdBack(b, c);
  }

  /** Decoding the text of a group and what follows it. */
  lemma DecodedGroup(s: seq<Byte>, rest: string)
    requires s != [] && |rest| % 4 == 0
    ensures Decoded(Group(s) + rest) == if |s| < 3 then s else s[..3] + Decoded(rest)
  {
    hide Quad, Group;
    GroupBack(s);
    assert (Group(s) + rest)[4..] == rest;
  }

  lemma {:induction false} EncodedLength(s: seq<Byte>)
    ensures |Encoded(s)| == (|s| + 2) / 3 * 4
    decreases |s|
  {
    hide Group;
    if s != [] {
      EncodedLength(Rest(s));
    }
  }

  lemma EmptyBack()
    ensures Encoded([]) == [] && Decoded([]) == []
  {
  }

  lemma EncodedNext(s: seq<Byte>)
    requires s != []
    ensures Encoded(s) == Group(s) + Encoded(Rest(s))
  {
    hide Group;
  }

  lemma FirstAndRest(s: seq<Byte>)
    ensures |s| < 3 ==> Rest(s) == []
    ensures |s| >= 3 ==> s[..3] + Rest(s) == s
  {
  }

  lemma {:induction false} RoundTrip(s: seq<Byte>)
    ensures |Encoded(s)| % 4 == 0 && Decoded(Encoded(s)) == s
    decreases |s|
  {
    hide *;
    if s == [] {
      EmptyBack();
    } else {
      EncodedNext(s);
      RoundTrip(Rest(s));
      DecodedGroup(s, Encoded(Rest(s)));
      FirstAndRest(s);
    }
  }

  /** The characters of one group, written from position `j` on; the input may end inside it. */
  method EncodeGroup(s: seq<Byte>, buf: array<char>, j: nat)
    requires s != [] && j + 4 <= buf.Length
    modifies buf
    ensures buf[..j + 4] == old(buf[..j]) + Group(s)
  {
    hide CharOf;
    buf[j] := CharOf(s[0] / 4);
    var current := s[0] % 4 * 16;
    if |s| == 1 {
      buf[j + 1], buf[j + 2], buf[j + 3] := CharOf(current), '=', '=';
      return;
    }
    buf[j + 1] := CharOf(current + s[1] / 16);
    current := s[1] % 16 * 4;
    if |s| == 2 {
      buf[j + 2], buf[j + 3] := CharOf(current), '=';
      return;
    }
    buf[j + 2] := CharOf(current + s[2] / 64);
    buf[j + 3] := CharOf(s[2] % 64);
  }

  /** `base64_encode`. The result string has room for one group more than there are whole ones. */
  method Encode(src: seq<Byte>) returns (result: string)
    ensures result == Encoded(src)
  {
    hide Group;
    var buf := new char[(|src| / 3 + 1) * 4];
    var i, j := 0, 0;
    ghost var done, rest := "", src;
    while i < |src|
      invariant 3 * j == 4 * i && i <= |src| + 2 && rest == (if i < |src| then src[i..] else [])
      invariant buf[..j] == done && done + Encoded(rest) == Encoded(src)
    {
      EncodeGroup(src[i..], buf, j);
      i, j := i + 3, j + 4;
      Append(done, Group(rest), Encoded(Rest(rest)));
      done, rest := done + Group(rest), Rest(rest);
    }
    result := buf[..j];
  }

  lemma Append<T>(a: seq<T>, b: seq<T>, c: seq<T>)
    ensures a + (b + c) == (a + b) + c
  {
  }

  /** The search of a group's four characters in the table, which ends early once all four are found. */
  method Search(p: char, q: char, r: char, s: char) returns (t0: Byte, t1: Byte, t2: Byte, t3: Byte)
    ensures t0 == IndexOf(p) && t1 == IndexOf(q) && t2 == IndexOf(r) && t3 == IndexOf(s)
  {
    t0, t1, t2, t3 := 0xFF, 0xFF, 0xFF, 0xFF;
    var k := 0;
    while k < 64 && (t0 == 0xFF || t1 == 0xFF || t2 == 0xFF || t3 == 0xFF)
      invariant k <= 64
      invariant t0 == (if IndexOf(p) < k then IndexOf(p) else 0xFF)
      invariant t1 == (if IndexOf(q) < k then IndexOf(q) else 0xFF)
      invariant t2 == (if IndexOf(r) < k then IndexOf(r) else 0xFF)
      invariant t3 == (if IndexOf(s) < k then IndexOf(s) else 0xFF)
    {
      CharAt(p, k);
      CharAt(q, k);
      CharAt(r, k);
      CharAt(s, k);
      if CharOf(k) == p { t0 := k; }
      if CharOf(k) == q { t1 := k; }
      if CharOf(k) == r { t2 := k; }
      if CharOf(k) == s { t3 := k; }
      k := k + 1;
    }
  }

  /** The bytes of one group, written from position `j` on; padding ends it early. */
  method DecodeGroup(p: char, q: char, r: char, s: char, buf: array<Byte>, j: nat) returns (n: nat)
    requires j + 3 <= buf.Length
    modifies buf
    ensures n == |Quad(p, q, r, s)| && buf[..j + n] == old(buf[..j]) + Quad(p, q, r, s)
  {
    hide IndexOf, First, Second, Third;
    var t0, t1, t2, t3 := Search(p, q, r, s);
    buf[j] := First(t0, t1);
    if r == '=' {
      return 1;
    }
    buf[j + 1] := Second(t1, t2);
    if s == '=' {
      return 2;
    }
    buf[j + 2] := Third(t2, t3);
    n := 3;
  }

  /** `base64_decode`, which reads four characters at a time. */
  method Decode(src: string) returns (result: seq<Byte>)
    requires |src| % 4 == 0
    ensures result == Decoded(src)
  {
    hide Quad, Decoded;
    var buf := new Byte[|src| * 3 / 4];
    var i, j := 0, 0;
    ghost var done, rest, k, groups := [], src, 0, |src| / 4;
    assert |src| == 4 * groups && buf.Length == 3 * groups;
    while i < |src| && src[i] != '\0'
      invariant i == 4 * k && j == 3 * k && k <= groups && rest == src[i..]
      invariant buf[..j] == done && done + Decoded(rest) == Decoded(src)
    {
      var n := DecodeGroup(src[i], src[i + 1], src[i + 2], src[i + 3], buf, j);
      DecodedStep(done, rest);
      done := done + Quad(rest[0], rest[1], rest[2], rest[3]);
      j := j + n;
      if src[i + 2] == '=' || src[i + 3] == '=' {
        rest := [];
        break;
      }
      i := i + 4;
      rest, k := rest[4..], k + 1;
    }
    DecodedEnd(rest);
    result := buf[..j];
  }

  lemma DecodedStep(done: seq<Byte>, t: string)
    requires t != [] && |t| % 4 == 0 && t[0] != '\0'
    ensures done + Decoded(t) == done + Quad(t[0], t[1], t[2], t[3]) + Decoded(if Padded(t) then [] else t[4..])
  {
  }

  lemma DecodedEnd(t: string)
    requires |t| % 4 == 0 && (t == [] || t[0] == '\0')
    ensures Decoded(t) == []
  {
  }
}
