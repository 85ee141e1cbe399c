/** Recovery codes of service/totp.go: generation, spelling, and removal from the stored list. */
module Recovery {
  import opened Prelude
  import opened World
  import opened GoSlices

  const CODES := 8
  const RAW_BYTES := 7

  // ---- strings.TrimSpace, ReplaceAll(_, "-", "") and ToLower ----

  /** unicode.IsSpace */
  predicate IsSpace(c: char) {
    var u := c as int;
    9 <= u <= 13 || u == 32 || u == 0x85 || u == 0xA0 || u == 0x1680 || 0x2000 <= u <= 0x200a
    || u == 0x2028 || u == 0x2029 || u == 0x202f || u == 0x205f || u == 0x3000
  }

  function TrimLeft(s: string): string {
    if s != [] && IsSpace(s[0]) then TrimLeft(s[1..]) else s
  }

  function TrimRight(s: string): string {
    if s != [] && IsSpace(s[|s| - 1]) then TrimRight(s[..|s| - 1]) else s
  }

  function RemoveHyphens(s: string): string {
    if s == [] then [] else (if s[0] == '-' then [] else [s[0]]) + RemoveHyphens(s[1..])
  }

  /** unicode.ToLower on the letters it takes into the alphabet of a code: A to Z, the dotted capital I
      and the Kelvin sign. */
  function LowerChar(c: char): char {
    if 'A' <= c <= 'Z' then (c as int + 32) as char
    else if c as int == 0x130 then 'i'
    else if c as int == 0x212a then 'k'
    else c
  }

  function Lower(s: string): (r: string)
    ensures |r| == |s| && forall k :: 0 <= k < |s| ==> r[k] == LowerChar(s[k])
  {
    if s == [] then [] else [LowerChar(s[0])] + Lower(s[1..])
  }

  function Normalise(code: string): string {
    Lower(RemoveHyphens(TrimRight(TrimLeft(code))))
  }

  // ---- generation: base32 of seven random bytes, lower case, first ten characters ----

  type Quintet = v: int | 0 <= v < 32

  function UpperChar(v: Quintet): char {
    if v < 26 then ('A' as int + v) as char else ('2' as int + v - 26) as char
  }

  function Letter(v: Quintet): char {
    if v < 26 then ('a' as int + v) as char else ('2' as int + v - 26) as char
  }

  predicate IsLetter(c: char) {
    'a' <= c <= 'z' || '2' <= c <= '7'
  }

  /** Table 3 of RFC 4648 in lower case, by code point. */
  lemma LettersOfAlphabet(v: Quintet)
    ensures v < 26 ==> Letter(v) as int == 97 + v
    ensures v >= 26 ==> Letter(v) as int == 50 + (v - 26)
  {
  }

  /** base32 without padding, of exactly seven bytes: eight characters for five bytes, four for two. */
  function Quintets(b: seq<Byte>): (q: seq<Quintet>)
    requires |b| == RAW_BYTES
    ensures |q| == 12
  {
    [ b[0] as int / 8,
      b[0] as int % 8 * 4 + b[1] as int / 64,
      b[1] as int / 2 % 32,
      b[1] as int % 2 * 16 + b[2] as int / 16,
      b[2] as int % 16 * 2 + b[3] as int / 128,
      b[3] as int / 4 % 32,
      b[3] as int % 4 * 8 + b[4] as int / 32,
      b[4] as int % 32,
      b[5] as int / 8,
      b[5] as int % 8 * 4 + b[6] as int / 64,
      b[6] as int / 2 % 32,
      b[6] as int % 2 * 16 ]
  }

  function Encode(b: seq<Byte>): string
    requires |b| == RAW_BYTES
  {
    var q := Quintets(b);
    seq(12, i requires 0 <= i < 12 => UpperChar(q[i]))
  }

  function Code(b: seq<Byte>): (code: string)
    requires |b| == RAW_BYTES
    ensures |code| == 10 && forall k :: 0 <= k < 10 ==> code[k] == Letter(Quintets(b)[k]) && IsLetter(code[k])
  {
    Lower(Encode(b))[..10]
  }

  function Hyphenate(code: string): string
    requires |code| == 10
  {
    code[..5] + "-" + code[5..]
  }

  /** NewRecoveryCodes: an error from the source of randomness or from bcrypt abandons both lists. */
  method NewRecoveryCodes(w: World, raws: seq<Option<seq<Byte>>>, salts: seq<Option<seq<Byte>>>)
    returns (plain: seq<string>, hashes: seq<string>, err: bool)
    requires |raws| == CODES && |salts| == CODES
    requires forall i :: 0 <= i < CODES && raws[i].Some? ==> |raws[i].value| == RAW_BYTES
    ensures err <==> exists i :: 0 <= i < CODES && (raws[i].None? || salts[i].None?)
    ensures err ==> plain == [] && hashes == []
    ensures !err ==> |plain| == |hashes| == CODES
    ensures !err ==> forall i :: 0 <= i < CODES ==> plain[i] == Hyphenate(Code(raws[i].value))
    ensures !err ==> forall i :: 0 <= i < CODES ==> hashes[i] == w.bcryptHash(Code(raws[i].value), salts[i].value)
  {
    plain, hashes := [], [];
    for i := 0 to CODES
      invariant |plain| == |hashes| == i
      invariant forall k :: 0 <= k < i ==> raws[k].Some? && salts[k].Some?
      invariant forall k :: 0 <= k < i ==> plain[k] == Hyphenate(Code(raws[k].value))
      invariant forall k :: 0 <= k < i ==> hashes[k] == w.bcryptHash(Code(raws[k].value), salts[k].value)
    {
      if raws[i].None? {
        return [], [], true;
      }
      var code := Code(raws[i].value);
      if salts[i].None? {
        return [], [], true;
      }
      plain := plain + [code[..5] + "-" + code[5..]];
      hashes := hashes + [w.bcryptHash(code, salts[i].value)];
    }
    return plain, hashes, false;
  }

  /** The two lists as functions of what was drawn. */
  function PlainCodes(raws: seq<seq<Byte>>): (plain: seq<string>)
    requires forall i :: 0 <= i < |raws| ==> |raws[i]| == RAW_BYTES
  {
    seq(|raws|, i requires 0 <= i < |raws| => Hyphenate(Code(raws[i])))
  }

  function HashesOf(w: World, raws: seq<seq<Byte>>, salts: seq<seq<Byte>>): (hashes: seq<string>)
    requires |salts| == |raws| && forall i :: 0 <= i < |raws| ==> |raws[i]| == RAW_BYTES
  {
    seq(|raws|, i requires 0 <= i < |raws| => w.bcryptHash(Code(raws[i]), salts[i]))
  }

  // ---- fifty bits, no more and no less ----

  function Number(digits: seq<int>, base: nat): int {
    if digits == [] then 0 else Number(digits[..|digits| - 1], base) * base + digits[|digits| - 1]
  }

  /** The first fifty of the fifty-six random bits. */
  function FirstFifty(b: seq<Byte>): int
    requires |b| == RAW_BYTES
  {
    Number(b, 256) / 64
  }

  lemma Unfold7(b: seq<int>)
    requires |b| == 7
    ensures Number(b, 256)
         == (((((b[0] * 256 + b[1]) * 256 + b[2]) * 256 + b[3]) * 256 + b[4]) * 256 + b[5]) * 256 + b[6]
  {
    assert b[..6][..5] == b[..5] && b[..5][..4] == b[..4] && b[..4][..3] == b[..3];
    assert b[..3][..2] == b[..2] && b[..2][..1] == b[..1];
    assert b[..1][..0] == [];
    assert Number(b[..1], 256) == b[0];
    assert Number(b[..2], 256) == b[0] * 256 + b[1];
    assert Number(b[..3], 256) == (b[0] * 256 + b[1]) * 256 + b[2];
    assert Number(b[..4], 256) == ((b[0] * 256 + b[1]) * 256 + b[2]) * 256 + b[3];
    assert Number(b[..5], 256) == (((b[0] * 256 + b[1]) * 256 + b[2]) * 256 + b[3]) * 256 + b[4];
    assert Number(b[..6], 256) == ((((b[0] * 256 + b[1]) * 256 + b[2]) * 256 + b[3]) * 256 + b[4]) * 256 + b[5];
  }

  lemma Unfold10(q: seq<int>)
    requires |q| == 10
    ensures Number(q, 32)
         == ((((((((q[0] * 32 + q[1]) * 32 + q[2]) * 32 + q[3]) * 32 + q[4]) * 32
              + q[5]) * 32 + q[6]) * 32 + q[7]) * 32 + q[8]) * 32 + q[9]
  {
    assert q[..9][..8] == q[..8] && q[..8][..7] == q[..7] && q[..7][..6] == q[..6] && q[..6][..5] == q[..5];
    assert q[..5][..4] == q[..4] && q[..4][..3] == q[..3] && q[..3][..2] == q[..2] && q[..2][..1] == q[..1];
    assert q[..1][..0] == [];
    assert Number(q[..1], 32) == q[0];
    assert Number(q[..2], 32) == q[0] * 32 + q[1];
    assert Number(q[..3], 32) == (q[0] * 32 + q[1]) * 32 + q[2];
    var n3 := Number(q[..3], 32);
    assert Number(q[..4], 32) == n3 * 32 + q[3];
    assert Number(q[..5], 32) == (n3 * 32 + q[3]) * 32 + q[4];
    assert Number(q[..6], 32) == ((n3 * 32 + q[3]) * 32 + q[4]) * 32 + q[5];
    var n6 := Number(q[..6], 32);
    assert Number(q[..7], 32) == n6 * 32 + q[6];
    assert Number(q[..8], 32) == (n6 * 32 + q[6]) * 32 + q[7];
    assert Number(q[..9], 32) == ((n6 * 32 + q[6]) * 32 + q[7]) * 32 + q[8];
  }

  /** The ten digits of a code, read in base 32, are the first fifty bits. */
  lemma CodeIsFirstFifty(b: seq<Byte>)
    requires |b| == RAW_BYTES
    ensures Number(Quintets(b)[..10], 32) == FirstFifty(b)
  {
    Unfold7(b);
    Unfold10(Quintets(b)[..10]);
    Regroup(b[0], b[1], b[2], b[3], b[4], b[5], b[6]);
  }

  /** A byte cut at the boundaries of the five-bit groups it spans. */
  lemma CutByte(b: int)
    requires 0 <= b < 256
    ensures b == b / 8 * 8 + b % 8
    ensures b == b / 64 * 64 + b / 2 % 32 * 2 + b % 2
    ensures b == b / 16 * 16 + b % 16
    ensures b == b / 128 * 128 + b / 4 % 32 * 4 + b % 4
    ensures b == b / 32 * 32 + b % 32
    ensures 0 <= b % 64 < 64 && b == b / 64 * 64 + b % 64
  {
    assert b / 2 == b / 64 * 32 + b / 2 % 32;
    assert b / 4 == b / 128 * 32 + b / 4 % 32;
  }

  lemma Regroup(b0: int, b1: int, b2: int, b3: int, b4: int, b5: int, b6: int)
    requires 0 <= b0 < 256 && 0 <= b1 < 256 && 0 <= b2 < 256 && 0 <= b3 < 256
    requires 0 <= b4 < 256 && 0 <= b5 < 256 && 0 <= b6 < 256
    ensures ((((((((((b0 / 8) * 32 + (b0 % 8 * 4 + b1 / 64)) * 32 + b1 / 2 % 32) * 32 + (b1 % 2 * 16 + b2 / 16)) * 32
              + (b2 % 16 * 2 + b3 / 128)) * 32 + b3 / 4 % 32) * 32 + (b3 % 4 * 8 + b4 / 32)) * 32 + b4 % 32) * 32
              + b5 / 8) * 32 + (b5 % 8 * 4 + b6 / 64))
         == ((((((b0 * 256 + b1) * 256 + b2) * 256 + b3) * 256 + b4) * 256 + b5) * 256 + b6) / 64
  {
    CutByte(b0); CutByte(b1); CutByte(b2); CutByte(b3); CutByte(b4); CutByte(b5); CutByte(b6);
    Regrouped(b0 / 8, b0 % 8, b1 / 64, b1 / 2 % 32, b1 % 2, b2 / 16, b2 % 16, b3 / 128, b3 / 4 % 32, b3 % 4,
              b4 / 32, b4 % 32, b5 / 8, b5 % 8, b6 / 64, b6 % 64);
  }

  lemma Regrouped(x0: int, y0: int, x1: int, y1: int, z1: int, x2: int, y2: int, x3: int, y3: int, z3: int,
                  x4: int, y4: int, x5: int, y5: int, x6: int, y6: int)
    requires 0 <= y6 < 64
    ensures (((((((((x0 * 32 + (y0 * 4 + x1)) * 32 + y1) * 32 + (z1 * 16 + x2)) * 32 + (y2 * 2 + x3)) * 32 + y3) * 32
              + (z3 * 8 + x4)) * 32 + y4) * 32 + x5) * 32 + (y5 * 4 + x6))
         == (((((((x0 * 8 + y0) * 256 + (x1 * 64 + y1 * 2 + z1)) * 256 + (x2 * 16 + y2)) * 256
              + (x3 * 128 + y3 * 4 + z3)) * 256
              + (x4 * 32 + y4)) * 256 + (x5 * 8 + y5)) * 256 + (x6 * 64 + y6)) / 64
  {
  }

  lemma LastDigit(a: int, d: int, b: int, e: int)
    requires 0 <= d < 32 && 0 <= e < 32
    requires a * 32 + d == b * 32 + e
    ensures a == b && d == e
  {
  }

  lemma {:induction false} NumberInjective(x: seq<Quintet>, y: seq<Quintet>)
    requires |x| == |y| && Number(x, 32) == Number(y, 32)
    ensures x == y
  {
    if x != [] {
      var n := |x| - 1;
      LastDigit(Number(x[..n], 32), x[n], Number(y[..n], 32), y[n]);
      NumberInjective(x[..n], y[..n]);
      assert x == x[..n] + [x[n]] && y == y[..n] + [y[n]];
    }
  }

  lemma LetterInjective(v: Quintet, u: Quintet)
    requires Letter(v) == Letter(u)
    ensures v == u
  {
  }

  /** Two draws give the same code exactly when their first fifty bits agree. */
  lemma CodeDeterminesFifty(a: seq<Byte>, b: seq<Byte>)
    requires |a| == |b| == RAW_BYTES
    ensures Code(a) == Code(b) <==> FirstFifty(a) == FirstFifty(b)
  {
    var x, y := Quintets(a)[..10], Quintets(b)[..10];
    CodeIsFirstFifty(a);
    CodeIsFirstFifty(b);
    if FirstFifty(a) == FirstFifty(b) {
      NumberInjective(x, y);
      forall k | 0 <= k < 10
        ensures Code(a)[k] == Code(b)[k]
      {
        assert x[k] == y[k];
      }
      assert Code(a) == Code(b);
    }
    if Code(a) == Code(b) {
      forall k | 0 <= k < 10
        ensures x[k] == y[k]
      {
        assert Code(a)[k] == Code(b)[k];
        LetterInjective(x[k], y[k]);
      }
      assert x == y;
    }
  }

  // ---- every spelling of a code is accepted ----

  ghost predicate AllSpace(s: string) {
    forall k :: 0 <= k < |s| ==> IsSpace(s[k])
  }

  lemma {:induction false} TrimLeftDrops(pre: string, body: string)
    requires AllSpace(pre) && (body == [] || !IsSpace(body[0]))
    ensures TrimLeft(pre + body) == body
  {
    if pre == [] {
      assert pre + body == body;
    } else {
      assert (pre + body)[1..] == pre[1..] + body;
      TrimLeftDrops(pre[1..], body);
    }
  }

  lemma {:induction false} TrimRightDrops(body: string, post: string)
    requires AllSpace(post) && (body == [] || !IsSpace(body[|body| - 1]))
    ensures TrimRight(body + post) == body
  {
    if post == [] {
      assert body + post == body;
    } else {
      var n := |post| - 1;
      assert (body + post)[..|body| + n] == body + post[..n];
      TrimRightDrops(body, post[..n]);
    }
  }

  lemma {:induction false} OutsideHyphens(s: string, c: char)
    requires c in s && c != '-'
    ensures c in RemoveHyphens(s)
  {
    if s[0] != c {
      assert c in s[1..];
      OutsideHyphens(s[1..], c);
    }
  }

  lemma SpaceIsNoLetter(c: char)
    ensures IsSpace(c) ==> !IsLetter(LowerChar(c)) && c != '-'
  {
  }

  lemma LowerHyphen(c: char)
    ensures LowerChar(c) == '-' <==> c == '-'
  {
  }

  lemma BodyHasNoSpace(body: string, code: string)
    requires forall k :: 0 <= k < |code| ==> IsLetter(code[k])
    requires Lower(RemoveHyphens(body)) == code
    ensures forall k :: 0 <= k < |body| ==> !IsSpace(body[k])
  {
    forall k | 0 <= k < |body|
      ensures !IsSpace(body[k])
    {
      SpaceIsNoLetter(body[k]);
      if body[k] != '-' {
        OutsideHyphens(body, body[k]);
        var letters := RemoveHyphens(body);
        var j :| 0 <= j < |letters| && letters[j] == body[k];
        assert code[j] == LowerChar(body[k]);
      }
    }
  }

  /** Letters of either case, hyphens anywhere, spaces around: the same ten characters. */
  lemma SpellingNormalises(pre: string, body: string, post: string, code: string)
    requires |code| == 10 && forall k :: 0 <= k < |code| ==> IsLetter(code[k])
    requires AllSpace(pre) && AllSpace(post)
    requires Lower(RemoveHyphens(body)) == code
    ensures Normalise(pre + body + post) == code
  {
    BodyHasNoSpace(body, code);
    assert pre + body + post == pre + (body + post);
    TrimLeftDrops(pre, body + post);
    TrimRightDrops(body, post);
  }

  lemma {:induction false} HyphenFree(s: string)
    requires '-' !in s
    ensures RemoveHyphens(s) == s
  {
    if s != [] {
      HyphenFree(s[1..]);
      assert s == [s[0]] + s[1..];
    }
  }

  lemma PlainBody(body: string, code: string)
    requires |code| == 10 && forall k :: 0 <= k < |code| ==> IsLetter(code[k])
    requires Lower(body) == code
    ensures RemoveHyphens(body) == body
  {
    forall k | 0 <= k < |body|
      ensures body[k] != '-'
    {
      LowerHyphen(body[k]);
      assert IsLetter(code[k]) && code[k] == LowerChar(body[k]);
    }
    HyphenFree(body);
  }

  lemma {:induction false} RemoveMiddleHyphen(front: string, back: string)
    requires '-' !in front && '-' !in back
    ensures RemoveHyphens(front + (['-'] + back)) == front + back
  {
    var s := front + (['-'] + back);
    if front == [] {
      HyphenFree(back);
      assert s[0] == '-' && s[1..] == back;
    } else {
      RemoveMiddleHyphen(front[1..], back);
      assert s[0] == front[0] && s[1..] == front[1..] + (['-'] + back);
      assert front + back == [front[0]] + (front[1..] + back);
    }
  }

  lemma CutAtHyphen(body: string)
    requires |body| == 11 && body[5] == '-'
    ensures body == body[..5] + (['-'] + body[6..])
  {
  }

  lemma HyphenatedBody(body: string, code: string)
    requires |code| == 10 && forall k :: 0 <= k < |code| ==> IsLetter(code[k])
    requires Lower(body) == Hyphenate(code)
    ensures |body| == 11 && RemoveHyphens(body) == body[..5] + body[6..]
  {
    HyphenOnlyInTheMiddle(body, code);
    CutAtHyphen(body);
    RemoveMiddleHyphen(body[..5], body[6..]);
  }

  lemma LowerWithoutMiddle(body: string, code: string)
    requires |code| == 10 && |body| == 11
    requires Lower(body) == Hyphenate(code)
    ensures Lower(body[..5] + body[6..]) == code
  {
    var r := Lower(body[..5] + body[6..]);
    var hyphenated := Hyphenate(code);
    assert hyphenated[..5] == code[..5] && hyphenated[6..] == code[5..];
    forall k | 0 <= k < 10
      ensures r[k] == code[k]
    {
      var j := if k < 5 then k else k + 1;
      assert hyphenated[j] == code[k] && hyphenated[j] == LowerChar(body[j]);
    }
  }

  /** The code as handed out is one of the spellings, and so is any re-casing of it. */
  lemma HandedOutIsSpelling(body: string, code: string)
    requires |code| == 10 && forall k :: 0 <= k < |code| ==> IsLetter(code[k])
    requires Lower(body) == Hyphenate(code) || Lower(body) == code
    ensures Lower(RemoveHyphens(body)) == code
  {
    if Lower(body) == code {
      PlainBody(body, code);
    } else {
      HyphenatedBody(body, code);
      LowerWithoutMiddle(body, code);
    }
  }

  lemma HyphenOnlyInTheMiddle(body: string, code: string)
    requires |code| == 10 && forall k :: 0 <= k < |code| ==> IsLetter(code[k])
    requires Lower(body) == Hyphenate(code)
    ensures |body| == 11 && body[5] == '-' && '-' !in body[..5] && '-' !in body[6..]
  {
    forall k | 0 <= k < |body|
      ensures body[k] == '-' <==> k == 5
    {
      LowerHyphen(body[k]);
      HyphenatedAt(code, k);
      assert Lower(body)[k] == LowerChar(body[k]);
    }
  }

  lemma HyphenatedAt(code: string, k: nat)
    requires |code| == 10 && forall k :: 0 <= k < |code| ==> IsLetter(code[k])
    requires k < 11
    ensures Hyphenate(code)[k] == '-' <==> k == 5
  {
  }

  // ---- and nothing else spells it ----

  /** c is the letter d of a code, in either case; two capitals outside ASCII have an ASCII lower case. */
  predicate StandsFor(c: char, d: char) {
    || c == d
    || ('a' <= d <= 'z' && c as int == d as int - 32)
    || (d == 'i' && c as int == 0x130)
    || (d == 'k' && c as int == 0x212a)
  }

  /** body is code letter by letter, with hyphens put in anywhere. */
  predicate WritesDown(body: string, code: string) {
    if body == [] then code == []
    else if body[0] == '-' then WritesDown(body[1..], code)
    else code != [] && StandsFor(body[0], code[0]) && WritesDown(body[1..], code[1..])
  }

  /** The white space of Unicode, by code point. */
  lemma SpaceIff(c: char)
    ensures IsSpace(c)
       <==> c as int in {9, 10, 11, 12, 13, 32, 0x85, 0xa0, 0x1680, 0x2000, 0x2001, 0x2002, 0x2003, 0x2004, 0x2005,
                         0x2006, 0x2007, 0x2008, 0x2009, 0x200a, 0x2028, 0x2029, 0x202f, 0x205f, 0x3000}
  {
  }

  lemma LowerCharIff(c: char, d: char)
    requires IsLetter(d)
    ensures LowerChar(c) == d <==> StandsFor(c, d)
  {
  }

  lemma {:induction false} WritesDownIff(body: string, code: string)
    requires forall k :: 0 <= k < |code| ==> IsLetter(code[k])
    ensures Lower(RemoveHyphens(body)) == code <==> WritesDown(body, code)
  {
    if body != [] {
      var letters := RemoveHyphens(body[1..]);
      if body[0] == '-' {
        WritesDownIff(body[1..], code);
        assert RemoveHyphens(body) == letters;
      } else {
        assert RemoveHyphens(body) == [body[0]] + letters;
        assert Lower(RemoveHyphens(body)) == [LowerChar(body[0])] + Lower(letters);
        if code != [] {
          LowerCharIff(body[0], code[0]);
          WritesDownIff(body[1..], code[1..]);
          assert code == [code[0]] + code[1..];
        }
      }
    }
  }

  lemma {:induction false} TrimLeftTakes(s: string) returns (pre: string)
    ensures AllSpace(pre) && s == pre + TrimLeft(s)
  {
    pre := [];
    if s != [] && IsSpace(s[0]) {
      var rest := TrimLeftTakes(s[1..]);
      pre := [s[0]] + rest;
      assert s == [s[0]] + s[1..];
    }
  }

  lemma {:induction false} TrimRightTakes(s: string) returns (post: string)
    ensures AllSpace(post) && s == TrimRight(s) + post
  {
    post := [];
    if s != [] && IsSpace(s[|s| - 1]) {
      var rest := TrimRightTakes(s[..|s| - 1]);
      post := rest + [s[|s| - 1]];
      assert s == s[..|s| - 1] + [s[|s| - 1]];
    }
  }

  /** text is code written down, with white space around. */
  ghost predicate IsSpelling(text: string, code: string) {
    exists pre, body, post :: SpelledAs(text, code, pre, body, post)
  }

  ghost predicate SpelledAs(text: string, code: string, pre: string, body: string, post: string) {
    text == pre + body + post && AllSpace(pre) && AllSpace(post) && WritesDown(body, code)
  }

  /** What normalises to a code is what spells it, no more and no less. */
  lemma SpellingIff(text: string, code: string)
    requires |code| == 10 && forall k :: 0 <= k < |code| ==> IsLetter(code[k])
    ensures Normalise(text) == code <==> IsSpelling(text, code)
  {
    if Normalise(text) == code {
      var pre := TrimLeftTakes(text);
      var post := TrimRightTakes(TrimLeft(text));
      var body := TrimRight(TrimLeft(text));
      WritesDownIff(body, code);
      assert text == pre + body + post;
      assert SpelledAs(text, code, pre, body, post);
    }
    if IsSpelling(text, code) {
      var pre, body, post :| SpelledAs(text, code, pre, body, post);
      WritesDownIff(body, code);
      SpellingNormalises(pre, body, post, code);
    }
  }

  // ---- ConsumeRecoveryCode ----

  /** The index of the first stored hash the normalised code matches. */
  function FirstMatch(w: World, hashes: seq<string>, code: string): (i: Option<nat>)
    ensures i.Some? ==> i.value < |hashes| && w.bcryptMatches(hashes[i.value], Normalise(code))
    ensures i.Some? ==> forall k :: 0 <= k < i.value ==> !w.bcryptMatches(hashes[k], Normalise(code))
    ensures i.None? ==> forall k :: 0 <= k < |hashes| ==> !w.bcryptMatches(hashes[k], Normalise(code))
  {
    if hashes == [] then None
    else if w.bcryptMatches(hashes[0], Normalise(code)) then Some(0)
    else
      match FirstMatch(w, hashes[1..], code)
      case None => None
      case Some(i) => Some(i + 1)
  }

  /** The removal, on slices as the source has it: no array that existed before is written, whatever
      the offset, length and capacity, so the caller's list still reads as it did. */
  method ConsumeRecoveryCode(w: World, hashes: Slice, code: string) returns (remaining: Slice, ok: bool)
    requires hashes.Valid()
    ensures ok <==> FirstMatch(w, hashes.Contents(), code).Some?
    ensures remaining.Valid()
    ensures ok ==> remaining.Contents() == RemoveAt(hashes.Contents(), FirstMatch(w, hashes.Contents(), code).value)
    ensures !ok ==> remaining == hashes
  {
    var text := Normalise(code);
    for i := 0 to hashes.length
      invariant forall k :: 0 <= k < i ==> !w.bcryptMatches(hashes.Contents()[k], text)
    {
      var h := At(hashes, i);
      if w.bcryptMatches(h, text) {
        assert FirstMatch(w, hashes.Contents(), code) == Some(i);
        var front := Head(hashes, i, i);
        var back := Tail(hashes, i + 1);
        remaining := Append(front, back);
        return remaining, true;
      }
    }
    return hashes, false;
  }

  /** Any spelling of a code whose hash is still stored is accepted. */
  lemma HandedOutIsAccepted(w: World, raw: seq<Byte>, salt: seq<Byte>, hashes: seq<string>, text: string)
    requires LawfulWorld(w)
    requires |raw| == RAW_BYTES && w.bcryptHash(Code(raw), salt) in hashes
    requires IsSpelling(text, Code(raw))
    ensures FirstMatch(w, hashes, text).Some?
  {
    SpellingIff(text, Code(raw));
    var k :| 0 <= k < |hashes| && hashes[k] == w.bcryptHash(Code(raw), salt);
    assert w.bcryptMatches(hashes[k], Code(raw));
  }

  /** The code as it is handed out is one of its spellings. */
  lemma PlainIsSpelling(code: string)
    requires |code| == 10 && forall k :: 0 <= k < |code| ==> IsLetter(code[k])
    ensures IsSpelling(Hyphenate(code), code)
  {
    var plain := Hyphenate(code);
    forall k | 0 <= k < |plain|
      ensures Lower(plain)[k] == plain[k]
    {
      HyphenatedAt(code, k);
      if k != 5 {
        assert plain[k] == code[if k < 5 then k else k - 1];
      }
    }
    assert Lower(plain) == plain;
    HandedOutIsSpelling(plain, code);
    WritesDownIff(plain, code);
    assert SpelledAs(plain, code, "", plain, "");
  }
}
