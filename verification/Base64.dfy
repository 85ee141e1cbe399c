/** base64.RawStdEncoding of Go: the standard alphabet of RFC 4648 section 4 without padding
    (section 3.2), encoded canonically and decoded leniently, as the library does it. */
module Base64 {
  import opened Prelude

  type Sextet = v: int | 0 <= v < 64

  function Char(v: Sextet): char {
    if v < 26 then ('A' as int + v) as char
    else if v < 52 then ('a' as int + v - 26) as char
    else if v < 62 then ('0' as int + v - 52) as char
    else if v == 62 then '+' else '/'
  }

  function Index(c: char): (r: Option<Sextet>)
    ensures r.Some? ==> Char(r.value) == c
  {
    if 'A' <= c <= 'Z' then Some(c as int - 'A' as int)
    else if 'a' <= c <= 'z' then Some(c as int - 'a' as int + 26)
    else if '0' <= c <= '9' then Some(c as int - '0' as int + 52)
    else if c == '+' then Some(62)
    else if c == '/' then Some(63)
    else None
  }

  lemma IndexUndoesChar(v: Sextet)
    ensures Index(Char(v)) == Some(v)
  {
    assert v == 62 || v == 63 || v < 26 || 26 <= v < 52 || 52 <= v < 62;
  }

  /** Table 1 of RFC 4648, by code point. */
  lemma CharsOfAlphabet(v: Sextet)
    ensures v < 26 ==> Char(v) as int == 65 + v
    ensures 26 <= v < 52 ==> Char(v) as int == 97 + (v - 26)
    ensures 52 <= v < 62 ==> Char(v) as int == 48 + (v - 52)
    ensures Char(62) == '+' && Char(63) == '/'
  {
  }

  // Bits of a group of three bytes, regrouped as four sextets and back.
  function Six0(p: int): Sextet requires 0 <= p < 256 { p / 4 }
  function Six1(p: int, q: int): Sextet requires 0 <= p < 256 && 0 <= q < 256 { p % 4 * 16 + q / 16 }
  function Six2(q: int, r: int): Sextet requires 0 <= q < 256 && 0 <= r < 256 { q % 16 * 4 + r / 64 }
  function Six3(r: int): Sextet requires 0 <= r < 256 { r % 64 }

  function Eight0(a: int, b: int): Byte requires 0 <= a < 64 && 0 <= b < 64 { a * 4 + b / 16 }
  function Eight1(b: int, c: int): Byte requires 0 <= b < 64 && 0 <= c < 64 { b % 16 * 16 + c / 4 }
  function Eight2(c: int, d: int): Byte requires 0 <= c < 64 && 0 <= d < 64 { c % 4 * 64 + d }

  function Sextets(b: seq<Byte>): seq<Sextet> {
    if |b| == 0 then []
    else if |b| == 1 then [Six0(b[0]), Six1(b[0], 0)]
    else if |b| == 2 then [Six0(b[0]), Six1(b[0], b[1]), Six2(b[1], 0)]
    else Group(b[0], b[1], b[2]) + Sextets(b[3..])
  }

  function Group(p: int, q: int, r: int): (g: seq<Sextet>)
    requires 0 <= p < 256 && 0 <= q < 256 && 0 <= r < 256
    ensures |g| == 4
  {
    [Six0(p), Six1(p, q), Six2(q, r), Six3(r)]
  }

  /** Whole bytes out of sextets. A single left-over sextet is an error; the unused low bits of a
      left-over pair or triple are ignored, since the decoder is not the strict one. */
  function Bytes(x: seq<Sextet>): Option<seq<Byte>> {
    if |x| == 0 then Some([])
    else if |x| == 1 then None
    else if |x| == 2 then Some([Eight0(x[0], x[1])])
    else if |x| == 3 then Some([Eight0(x[0], x[1]), Eight1(x[1], x[2])])
    else
      match Bytes(x[4..])
      case None => None
      case Some(rest) => Some([Eight0(x[0], x[1]), Eight1(x[1], x[2]), Eight2(x[2], x[3])] + rest)
  }

  function Chars(x: seq<Sextet>): string {
    if x == [] then [] else [Char(x[0])] + Chars(x[1..])
  }

  /** The value of every character; line breaks are skipped, anything else foreign is an error. */
  function Indices(s: string): Option<seq<Sextet>> {
    if s == [] then Some([])
    else if s[0] == '\n' || s[0] == '\r' then Indices(s[1..])
    else if Index(s[0]).None? || Indices(s[1..]).None? then None
    else Some([Index(s[0]).value] + Indices(s[1..]).value)
  }

  function Encode(b: seq<Byte>): string {
    Chars(Sextets(b))
  }

  function Decode(s: string): Option<seq<Byte>> {
    match Indices(s)
    case None => None
    case Some(x) => Bytes(x)
  }

  /** a, b, c and d spell the group of bits, most significant first. */
  predicate Spells(text: string, a: int, b: int, c: int, d: int, bits: int) {
    && 0 <= a < 64 && 0 <= b < 64 && 0 <= c < 64 && 0 <= d < 64
    && ((a * 64 + b) * 64 + c) * 64 + d == bits
    && text == [Char(a), Char(b), Char(c), Char(d)]
  }

  /** Twenty-four bits, most significant first, as three bytes and as four characters. */
  lemma EncodesThree(p: int, q: int, r: int, rest: seq<Byte>) returns (a: int, b: int, c: int, d: int, text: string)
    requires 0 <= p < 256 && 0 <= q < 256 && 0 <= r < 256
    ensures Spells(text, a, b, c, d, (p * 256 + q) * 256 + r)
    ensures Encode([p, q, r] + rest) == text + Encode(rest)
  {
    SextetsUnfold(p, q, r, rest);
    CharsOfFour(Group(p, q, r), Sextets(rest));
    a, b, c, d := Six0(p), Six1(p, q), Six2(q, r), Six3(r);
    GroupBits(p, q, r);
    text := [Char(a), Char(b), Char(c), Char(d)];
  }

  /** A last group of two bytes is filled with zero bits and leaves out the character that holds none of
      its own. */
  lemma EncodesTwo(p: int, q: int) returns (a: int, b: int, c: int, text: string)
    requires 0 <= p < 256 && 0 <= q < 256
    ensures Spells(text, a, b, c, 0, (p * 256 + q) * 256) && Encode([p, q]) == text[..3]
  {
    a, b, c := Six0(p), Six1(p, q), Six2(q, 0);
    text := [Char(a), Char(b), Char(c), Char(0)];
    GroupBits(p, q, 0);
    var x: seq<Sextet>, y: seq<Sextet>, z: seq<Sextet> := [a, b, c], [b, c], [c];
    assert Sextets([p, q]) == x && x[1..] == y && y[1..] == z;
    assert Chars(z) == [Char(c)] && Chars(y) == [Char(b)] + Chars(z) && Chars(x) == [Char(a)] + Chars(y);
  }

  /** And so a last byte alone; no bytes are no characters. */
  lemma EncodesOne(p: int) returns (a: int, b: int, text: string)
    requires 0 <= p < 256
    ensures Spells(text, a, b, 0, 0, p * 256 * 256) && Encode([p]) == text[..2]
    ensures Encode([]) == ""
  {
    a, b := Six0(p), Six1(p, 0);
    text := [Char(a), Char(b), Char(0), Char(0)];
    GroupBits(p, 0, 0);
    var x: seq<Sextet>, y: seq<Sextet> := [a, b], [b];
    assert Sextets([p]) == x && x[1..] == y;
    assert Chars(y) == [Char(b)] && Chars(x) == [Char(a)] + Chars(y);
  }

  lemma GroupBits(p: int, q: int, r: int)
    requires 0 <= p < 256 && 0 <= q < 256 && 0 <= r < 256
    ensures ((Six0(p) as int * 64 + Six1(p, q) as int) * 64 + Six2(q, r) as int) * 64 + Six3(r) as int
         == (p * 256 + q) * 256 + r
  {
  }

  lemma CharsOfFour(g: seq<Sextet>, x: seq<Sextet>)
    requires |g| == 4
    ensures Chars(g + x) == [Char(g[0]), Char(g[1]), Char(g[2]), Char(g[3])] + Chars(x)
  {
    var y := g + x;
    assert y[1..][1..] == y[2..] && y[2..][1..] == y[3..] && y[3..][1..] == y[4..] == x;
    assert Chars(y[3..]) == [Char(g[3])] + Chars(x);
    assert Chars(y[2..]) == [Char(g[2])] + Chars(y[3..]);
    assert Chars(y[1..]) == [Char(g[1])] + Chars(y[2..]);
  }

  // ---- decoding undoes encoding, at every length ----

  lemma GroupRoundTrip(p: int, q: int, r: int)
    requires 0 <= p < 256 && 0 <= q < 256 && 0 <= r < 256
    ensures Eight0(Six0(p), Six1(p, q)) == p
    ensures Eight1(Six1(p, q), Six2(q, r)) == q
    ensures Eight2(Six2(q, r), Six3(r)) == r
  {
  }

  lemma BytesOfGroup(p: int, q: int, r: int, x: seq<Sextet>)
    requires 0 <= p < 256 && 0 <= q < 256 && 0 <= r < 256
    requires Bytes(x).Some?
    ensures Bytes(Group(p, q, r) + x) == Some([p, q, r] + Bytes(x).value)
  {
    GroupRoundTrip(p, q, r);
    assert (Group(p, q, r) + x)[4..] == x;
  }

  lemma BytesOfOne(p: int)
    requires 0 <= p < 256
    ensures Bytes(Sextets([p])) == Some([p])
  {
    var x: seq<Sextet> := [Six0(p), Six1(p, 0)];
    assert Sextets([p]) == x;
    assert Eight0(x[0], x[1]) == p;
  }

  lemma BytesOfTwo(p: int, q: int)
    requires 0 <= p < 256 && 0 <= q < 256
    ensures Bytes(Sextets([p, q])) == Some([p, q])
  {
    GroupRoundTrip(p, q, 0);
    assert Sextets([p, q]) == [Six0(p), Six1(p, q), Six2(q, 0)];
  }

  lemma NoBytes()
    ensures Sextets([]) == [] && Bytes([]) == Some([])
  {
  }

  lemma {:induction false} BytesUndoSextets(b: seq<Byte>)
    ensures Bytes(Sextets(b)) == Some(b)
  {
    hide *;
    if |b| == 0 {
      NoBytes();
      assert b == [];
    } else if |b| == 1 {
      BytesOfOne(b[0]);
      assert b == [b[0]];
    } else if |b| == 2 {
      BytesOfTwo(b[0], b[1]);
      assert b == [b[0], b[1]];
    } else {
      BytesUndoSextets(b[3..]);
      BytesOfGroup(b[0], b[1], b[2], Sextets(b[3..]));
      SextetsUnfold(b[0], b[1], b[2], b[3..]);
      assert b == [b[0], b[1], b[2]] + b[3..];
    }
  }

  lemma {:induction false} IndicesUndoChars(x: seq<Sextet>)
    ensures Indices(Chars(x)) == Some(x)
  {
    if x != [] {
      IndexUndoesChar(x[0]);
      IndicesUndoChars(x[1..]);
      assert Chars(x)[1..] == Chars(x[1..]);
      assert x == [x[0]] + x[1..];
    }
  }

  lemma DecodeUndoesEncode(b: seq<Byte>)
    ensures Decode(Encode(b)) == Some(b)
  {
    BytesUndoSextets(b);
    IndicesUndoChars(Sextets(b));
  }

  /** What decodes holds no foreign character, in particular no field separator. */
  lemma {:induction false} DecodableIsPlain(s: string, c: char)
    requires Indices(s).Some?
    requires Index(c).None? && c != '\n' && c != '\r'
    ensures c !in s
  {
    if s != [] {
      DecodableIsPlain(s[1..], c);
    }
  }

  // ---- exactly what is read ----

  function WithoutBreaks(s: string): string {
    if s == [] then []
    else if s[0] == '\n' || s[0] == '\r' then WithoutBreaks(s[1..])
    else [s[0]] + WithoutBreaks(s[1..])
  }

  lemma {:induction false} BreaksAreSkipped(s: string)
    ensures Indices(s) == Indices(WithoutBreaks(s))
    ensures '\n' !in WithoutBreaks(s) && '\r' !in WithoutBreaks(s)
  {
    if s != [] {
      BreaksAreSkipped(s[1..]);
      if s[0] != '\n' && s[0] != '\r' {
        assert WithoutBreaks(s)[1..] == WithoutBreaks(s[1..]);
      }
    }
  }

  /** The two agree but for the bits of the last sextet that a short group does not use. */
  ghost predicate AgreeBut(x: seq<Sextet>, y: seq<Sextet>) {
    && |x| == |y|
    && (forall k :: 0 <= k < |x| - 1 ==> x[k] == y[k])
    && (x != [] ==> AgreeLast(x[|x| - 1], y[|y| - 1], |x| % 4))
  }

  predicate AgreeLast(v: Sextet, u: Sextet, used: nat) {
    if used == 2 then v / 16 == u / 16 else if used == 3 then v / 4 == u / 4 else v == u
  }

  lemma {:induction false} BytesIff(x: seq<Sextet>, b: seq<Byte>)
    ensures Bytes(x) == Some(b) <==> AgreeBut(x, Sextets(b))
  {
    var y := Sextets(b);
    if |x| < 4 || |b| < 3 {
      ShortBytesIff(x, b);
    } else {
      BytesIff(x[4..], b[3..]);
      assert b == [b[0], b[1], b[2]] + b[3..];
      FourIff(x[0], x[1], x[2], x[3], b[0], b[1], b[2]);
      var z := Sextets(b[3..]);
      assert y == Group(b[0], b[1], b[2]) + z;
      assert forall k :: 0 <= k < |z| ==> y[k + 4] == z[k];
      assert forall k :: 0 <= k < |x| - 4 ==> x[k + 4] == x[4..][k];
      SextetsLength(b[3..]);
      AgreeTail(x, y, z);
      if Bytes(x[4..]).Some? {
        var rest := Bytes(x[4..]).value;
        var three: seq<Byte> := [Eight0(x[0], x[1]), Eight1(x[1], x[2]), Eight2(x[2], x[3])];
        assert Bytes(x) == Some(three + rest);
        assert three + rest == b <==> three == [b[0], b[1], b[2]] && rest == b[3..] by {
          assert (three + rest)[..3] == three && (three + rest)[3..] == rest;
          assert b[..3] == [b[0], b[1], b[2]];
        }
      }
    }
  }

  lemma FourIff(a: int, b: int, c: int, d: int, p: int, q: int, r: int)
    requires 0 <= a < 64 && 0 <= b < 64 && 0 <= c < 64 && 0 <= d < 64
    requires 0 <= p < 256 && 0 <= q < 256 && 0 <= r < 256
    ensures Eight0(a, b) == p && Eight1(b, c) == q && Eight2(c, d) == r
       <==> a == Six0(p) && b == Six1(p, q) && c == Six2(q, r) && d == Six3(r)
  {
    GroupRoundTrip(p, q, r);
    SextetGroupRoundTrip(a, b, c, d);
  }

  lemma AgreeTail(x: seq<Sextet>, y: seq<Sextet>, z: seq<Sextet>)
    requires |x| >= 4 && |y| >= 4 && y[4..] == z && |z| % 4 != 1
    ensures AgreeBut(x, y) <==> x[..4] == y[..4] && AgreeBut(x[4..], z)
  {
    assert |x[4..]| % 4 == |x| % 4;
    assert x == x[..4] + x[4..] && y == y[..4] + z;
  }

  lemma LongerThan(b: seq<Byte>)
    ensures |b| == 1 ==> |Sextets(b)| == 2
    ensures |b| == 2 ==> |Sextets(b)| == 3
    ensures |b| >= 3 ==> |Sextets(b)| >= 4
    ensures |b| == 0 ==> |Sextets(b)| == 0
  {
  }

  lemma {:induction false} SextetsLength(b: seq<Byte>)
    ensures |Sextets(b)| % 4 != 1
    ensures |Sextets(b)| < 4 <==> |b| < 3
  {
    hide *;
    LongerThan(b);
    if |b| >= 3 {
      SextetsLength(b[3..]);
      SextetsUnfold(b[0], b[1], b[2], b[3..]);
      assert b == [b[0], b[1], b[2]] + b[3..];
    }
  }

  lemma TwoIff(a: int, b: int, p: int)
    requires 0 <= a < 64 && 0 <= b < 64 && 0 <= p < 256
    ensures Eight0(a, b) == p <==> a == Six0(p) && b / 16 == Six1(p, 0) / 16
  {
  }

  lemma ThreeIff(a: int, b: int, c: int, p: int, q: int)
    requires 0 <= a < 64 && 0 <= b < 64 && 0 <= c < 64 && 0 <= p < 256 && 0 <= q < 256
    ensures Eight0(a, b) == p && Eight1(b, c) == q <==> a == Six0(p) && b == Six1(p, q) && c / 4 == Six2(q, 0) / 4
  {
  }

  lemma ShortBytesIff(x: seq<Sextet>, b: seq<Byte>)
    requires |x| < 4 || |b| < 3
    ensures Bytes(x) == Some(b) <==> AgreeBut(x, Sextets(b))
  {
    SextetsLength(b);
    if |x| == 2 {
      if |b| == 1 {
        TwoIff(x[0], x[1], b[0]);
        assert b == [b[0]];
      }
      LongerThan(b);
    } else if |x| == 3 {
      if |b| == 2 {
        ThreeIff(x[0], x[1], x[2], b[0], b[1]);
        assert b == [b[0], b[1]];
      }
      LongerThan(b);
    } else if |x| < 2 {
      LongerThan(b);
    } else {
      LongBytes(x);
    }
  }

  lemma LongBytes(x: seq<Sextet>)
    requires |x| >= 4
    ensures Bytes(x).Some? ==> |Bytes(x).value| >= 3
  {
  }

  /** Line breaks aside, what decodes to b is its encoding, but for the value of the bits of the last
      character that are not used. */
  lemma DecodesIff(s: string, b: seq<Byte>)
    ensures Decode(s) == Some(b) <==> exists x :: Chars(x) == WithoutBreaks(s) && AgreeBut(x, Sextets(b))
  {
    var t := WithoutBreaks(s);
    BreaksAreSkipped(s);
    if Indices(t).Some? {
      CharsUndoIndices(t);
      BytesIff(Indices(t).value, b);
    }
    if exists x :: Chars(x) == t && AgreeBut(x, Sextets(b)) {
      var x :| Chars(x) == t && AgreeBut(x, Sextets(b));
      IndicesUndoChars(x);
    }
  }

  // ---- exactly which texts encoding gives back ----

  /** No line break anywhere, and zero in the bits a final short group does not use. */
  ghost predicate Canonical(s: string) {
    && '\n' !in s && '\r' !in s
    && (|s| % 4 == 2 ==> exists v: Sextet :: Index(s[|s| - 1]) == Some(v) && v % 16 == 0)
    && (|s| % 4 == 3 ==> exists v: Sextet :: Index(s[|s| - 1]) == Some(v) && v % 4 == 0)
  }

  ghost predicate ZeroTail(x: seq<Sextet>) {
    && (|x| % 4 == 2 ==> x[|x| - 1] % 16 == 0)
    && (|x| % 4 == 3 ==> x[|x| - 1] % 4 == 0)
  }

  lemma SextetGroupRoundTrip(a: int, b: int, c: int, d: int)
    requires 0 <= a < 64 && 0 <= b < 64 && 0 <= c < 64 && 0 <= d < 64
    ensures Six0(Eight0(a, b)) == a
    ensures Six1(Eight0(a, b), Eight1(b, c)) == b && Six2(Eight1(b, c), Eight2(c, d)) == c && Six3(Eight2(c, d)) == d
    ensures Six1(Eight0(a, b), 0) == b <==> b % 16 == 0
    ensures Six2(Eight1(b, c), 0) == c <==> c % 4 == 0
  {
  }

  lemma SextetsUnfold(p: int, q: int, r: int, rest: seq<Byte>)
    requires 0 <= p < 256 && 0 <= q < 256 && 0 <= r < 256
    ensures Sextets([p, q, r] + rest) == Group(p, q, r) + Sextets(rest)
  {
    assert ([p, q, r] + rest)[3..] == rest;
  }

  lemma SextetsOfGroup(a: int, b: int, c: int, d: int, rest: seq<Byte>)
    requires 0 <= a < 64 && 0 <= b < 64 && 0 <= c < 64 && 0 <= d < 64
    ensures Sextets([Eight0(a, b), Eight1(b, c), Eight2(c, d)] + rest) == [a, b, c, d] + Sextets(rest)
  {
    SextetsUnfold(Eight0(a, b), Eight1(b, c), Eight2(c, d), rest);
    SextetGroupRoundTrip(a, b, c, d);
  }

  lemma SextetsOfTwo(a: int, b: int)
    requires 0 <= a < 64 && 0 <= b < 64
    ensures Sextets([Eight0(a, b)]) == [a, b] <==> b % 16 == 0
  {
    SextetGroupRoundTrip(a, b, 0, 0);
    assert Sextets([Eight0(a, b)]) == [Six0(Eight0(a, b)), Six1(Eight0(a, b), 0)];
  }

  lemma SextetsOfThree(a: int, b: int, c: int)
    requires 0 <= a < 64 && 0 <= b < 64 && 0 <= c < 64
    ensures Sextets([Eight0(a, b), Eight1(b, c)]) == [a, b, c] <==> c % 4 == 0
  {
    SextetGroupRoundTrip(a, b, c, 0);
    assert Sextets([Eight0(a, b), Eight1(b, c)])
        == [Six0(Eight0(a, b)), Six1(Eight0(a, b), Eight1(b, c)), Six2(Eight1(b, c), 0)];
  }

  lemma {:induction false} SextetsUndoBytes(x: seq<Sextet>)
    requires Bytes(x).Some?
    ensures Sextets(Bytes(x).value) == x <==> ZeroTail(x)
  {
    if |x| == 2 {
      SextetsOfTwo(x[0], x[1]);
      assert x == [x[0], x[1]];
    } else if |x| == 3 {
      SextetsOfThree(x[0], x[1], x[2]);
      assert x == [x[0], x[1], x[2]];
    } else if |x| >= 4 {
      SextetsUndoBytes(x[4..]);
      SextetsOfLong(x, Bytes(x[4..]).value);
    }
  }

  lemma ZeroTailOfRest(x: seq<Sextet>)
    requires |x| >= 4 && |x| != 5
    ensures ZeroTail(x) <==> ZeroTail(x[4..])
  {
    assert |x[4..]| % 4 == |x| % 4;
  }

  lemma SextetsOfLong(x: seq<Sextet>, rest: seq<Byte>)
    requires |x| >= 4 && Bytes(x[4..]) == Some(rest)
    requires Sextets(rest) == x[4..] <==> ZeroTail(x[4..])
    ensures Sextets(Bytes(x).value) == x <==> ZeroTail(x)
  {
    ZeroTailOfRest(x);
    SextetsOfGroup(x[0], x[1], x[2], x[3], rest);
    var group: seq<Sextet> := [x[0], x[1], x[2], x[3]];
    var s := Sextets(rest);
    assert Sextets(Bytes(x).value) == group + s;
    PrefixCancels(group, s, x);
  }

  lemma PrefixCancels(group: seq<Sextet>, s: seq<Sextet>, x: seq<Sextet>)
    requires |group| <= |x| && x[..|group|] == group
    ensures group + s == x <==> s == x[|group|..]
  {
    assert x == group + x[|group|..];
    assert (group + s)[|group|..] == s;
  }

  lemma {:induction false} CharsUndoIndices(s: string)
    requires Indices(s).Some?
    ensures |Indices(s).value| <= |s|
    ensures '\n' !in s && '\r' !in s ==> Chars(Indices(s).value) == s && |Indices(s).value| == |s|
    ensures '\n' !in s && '\r' !in s ==> forall k :: 0 <= k < |s| ==> Index(s[k]) == Some(Indices(s).value[k])
    ensures '\n' in s || '\r' in s ==> |Indices(s).value| < |s|
  {
    if s != [] {
      CharsUndoIndices(s[1..]);
      assert s == [s[0]] + s[1..];
      if s[0] != '\n' && s[0] != '\r' {
        var x := Indices(s).value;
        assert x[1..] == Indices(s[1..]).value;
      }
    }
  }

  lemma {:induction false} CharsLength(x: seq<Sextet>)
    ensures |Chars(x)| == |x|
  {
    if x != [] {
      CharsLength(x[1..]);
    }
  }

  lemma {:induction false} CharsInjective(x: seq<Sextet>, y: seq<Sextet>)
    requires Chars(x) == Chars(y)
    ensures x == y
  {
    IndicesUndoChars(x);
    IndicesUndoChars(y);
  }

  /** A decodable text is its own re-encoding exactly when it is canonical. */
  lemma EncodeUndoesDecodeIff(s: string)
    requires Decode(s).Some?
    ensures Encode(Decode(s).value) == s <==> Canonical(s)
  {
    var x := Indices(s).value;
    var b := Bytes(x).value;
    CharsUndoIndices(s);
    SextetsUndoBytes(x);
    if '\n' in s || '\r' in s {
      if Encode(b) == s {
        IndicesUndoChars(Sextets(b));
        CharsLength(Sextets(b));
        assert false;
      }
    } else {
      assert Canonical(s) <==> ZeroTail(x);
      if Encode(b) == s {
        CharsInjective(Sextets(b), x);
      }
    }
  }
}
