/** Password hashes: the PHC string of pkg/utils/encryption/password.go. */
module Password {
  import opened Prelude
  import opened Text
  import Base64

  const ARGON_VERSION: nat := 19
  const ARGON_MEMORY: nat := 19 * 1024 // KiB
  const ARGON_TIME: nat := 2
  const ARGON_THREADS: nat := 1
  const ARGON_KEY_LEN: nat := 32
  const ARGON_SALT_LEN: nat := 16
  const ARGON_MAX_MEMORY: nat := 256 * 1024
  const ARGON_MAX_TIME: nat := 10
  const ARGON_MAX_THREADS: nat := 16

  const UINT32_MAX: nat := 0xFFFF_FFFF
  const UINT8_MAX: nat := 0xFF

  datatype ArgonHash = ArgonHash(memory: nat, time: nat, threads: nat, salt: seq<Byte>, key: seq<Byte>)

  /** What this repository imports: key derivation, the legacy digest, and the integer scanner. */
  datatype Primitives = Primitives(
    // password, salt, time, memory, threads, key length
    idKey: (string, seq<Byte>, nat, nat, nat, nat) -> seq<Byte>,
    md5: string -> string,
    scanVersion: string -> Option<int>,
    // memory: uint32, time: uint32, threads: uint8
    scanParams: string -> Option<(nat, nat, nat)>)

  /** argon2.IDKey returns as many bytes as asked for; the hex of a digest holds no '$'. */
  ghost predicate Lawful(p: Primitives) {
    && (forall pw: string, salt: seq<Byte>, t: nat, m: nat, th: nat, n: nat :: |p.idKey(pw, salt, t, m, th, n)| == n)
    && (forall pw :: '$' !in p.md5(pw))
  }

  function VersionText(v: int): string {
    "v=" + SignedDecimal(v)
  }

  function ParamText(m: nat, t: nat, th: nat): string {
    "m=" + Decimal(m) + ",t=" + Decimal(t) + ",p=" + Decimal(th)
  }

  /** The one thing the parser needs of its scanner: it reads back what %d prints.
      It may accept any amount of other text besides. */
  ghost predicate ReadsBack(p: Primitives) {
    && p.scanVersion(VersionText(ARGON_VERSION)) == Some(ARGON_VERSION)
    && (forall m: nat, t: nat, th: nat | m <= UINT32_MAX && t <= UINT32_MAX && th <= UINT8_MAX
          :: p.scanParams(ParamText(m, t, th)) == Some((m, t, th)))
  }

  /** The bounds, with the 32-bit product written out. */
  predicate ParamsInBounds(m: nat, t: nat, th: nat) {
    && !(th == 0 || th > ARGON_MAX_THREADS || t == 0 || t > ARGON_MAX_TIME)
    && !(m < 8 * th % 0x1_0000_0000 || m > ARGON_MAX_MEMORY)
  }

  function ParseArgon(p: Primitives, stored: string): Option<ArgonHash> {
    var parts := Split(stored, '$');
    if |parts| != 6 || parts[0] != "" || parts[1] != "argon2id" then None else
    match p.scanVersion(parts[2])
    case None => None
    case Some(version) =>
      if version != ARGON_VERSION || parts[2] != VersionText(version) then None else
      match p.scanParams(parts[3])
      case None => None
      case Some((m, t, th)) =>
        if parts[3] != ParamText(m, t, th) || !ParamsInBounds(m, t, th) then None else
        match Base64.Decode(parts[4])
        case None => None
        case Some(salt) =>
          if |salt| < 8 then None else
          match Base64.Decode(parts[5])
          case None => None
          case Some(key) =>
            if |key| < 16 || |key| > 64 then None else Some(ArgonHash(m, t, th, salt, key))
  }

  function Print(h: ArgonHash): string {
    "$argon2id$" + VersionText(ARGON_VERSION) + "$" + ParamText(h.memory, h.time, h.threads)
    + "$" + Base64.Encode(h.salt) + "$" + Base64.Encode(h.key)
  }

  function HashPassword(p: Primitives, password: string, salt: seq<Byte>): string {
    Print(ArgonHash(ARGON_MEMORY, ARGON_TIME, ARGON_THREADS, salt,
                    p.idKey(password, salt, ARGON_TIME, ARGON_MEMORY, ARGON_THREADS, ARGON_KEY_LEN)))
  }

  predicate VerifyPassword(p: Primitives, stored: string, candidate: string) {
    match ParseArgon(p, stored)
    case Some(h) => p.idKey(candidate, h.salt, h.time, h.memory, h.threads, |h.key|) == h.key
    case None => stored == p.md5(candidate)
  }

  predicate NeedsRehash(p: Primitives, stored: string) {
    match ParseArgon(p, stored)
    case None => true
    case Some(h) =>
      h.memory != ARGON_MEMORY || h.time != ARGON_TIME || h.threads != ARGON_THREADS || |h.key| != ARGON_KEY_LEN
  }

  // ---- the accepted language, stated without a parser ----

  predicate InBounds(h: ArgonHash) {
    && 1 <= h.threads <= 16
    && 1 <= h.time <= 10
    && 8 * h.threads <= h.memory <= 262144
    && |h.salt| >= 8
    && 16 <= |h.key| <= 64
  }

  /** stored is the PHC string of h with these two base64 texts. */
  ghost predicate Spells(stored: string, h: ArgonHash, saltText: string, keyText: string) {
    && stored == "$argon2id$v=19$" + ParamText(h.memory, h.time, h.threads) + "$" + saltText + "$" + keyText
    && Base64.Decode(saltText) == Some(h.salt)
    && Base64.Decode(keyText) == Some(h.key)
  }

  lemma VersionTextIs19()
    ensures VersionText(ARGON_VERSION) == "v=19"
  {
    assert Decimal(19) == Decimal(1) + [Digit(9)];
    assert Decimal(1) == [Digit(1)];
  }

  lemma FieldsPlain(m: nat, t: nat, th: nat)
    ensures '$' !in ParamText(m, t, th)
  {
  }

  lemma DecodablePlain(s: string)
    requires Base64.Decode(s).Some?
    ensures '$' !in s
  {
    Base64.DecodableIsPlain(s, '$');
  }

  /** Joining the six fields is writing the '$' between them. */
  lemma SixFields(v: string, params: string, salt: string, key: string)
    ensures Join(["", "argon2id", v, params, salt, key], '$')
         == "$argon2id$" + v + "$" + params + "$" + salt + "$" + key
  {
    var p5 := [key];
    var p4 := [salt, key];
    var p3 := [params, salt, key];
    var p2 := [v, params, salt, key];
    var p1 := ["argon2id", v, params, salt, key];
    var p0 := ["", "argon2id", v, params, salt, key];
    assert p4[1..] == p5 && p3[1..] == p4 && p2[1..] == p3 && p1[1..] == p2 && p0[1..] == p1;
    assert Join(p4, '$') == salt + "$" + key;
    assert Join(p3, '$') == params + "$" + (salt + "$" + key);
    assert Join(p2, '$') == v + "$" + (params + "$" + (salt + "$" + key));
    assert Join(p1, '$') == "argon2id" + "$" + (v + "$" + (params + "$" + (salt + "$" + key)));
    assert Join(p0, '$') == "" + "$" + ("argon2id" + "$" + (v + "$" + (params + "$" + (salt + "$" + key))));
  }

  lemma SpelledSplits(stored: string, h: ArgonHash, saltText: string, keyText: string)
    requires Spells(stored, h, saltText, keyText)
    ensures Split(stored, '$') == ["", "argon2id", "v=19", ParamText(h.memory, h.time, h.threads), saltText, keyText]
  {
    var params := ParamText(h.memory, h.time, h.threads);
    var parts := ["", "argon2id", "v=19", params, saltText, keyText];
    FieldsPlain(h.memory, h.time, h.threads);
    DecodablePlain(saltText);
    DecodablePlain(keyText);
    SixFieldsWithVersion(params, saltText, keyText);
    assert stored == Join(parts, '$');
    SplitUndoesJoin(parts, '$');
  }

  lemma AcceptedFields(p: Primitives, stored: string)
    requires ParseArgon(p, stored).Some?
    ensures var h := ParseArgon(p, stored).value; var parts := Split(stored, '$');
            && |parts| == 6 && InBounds(h)
            && parts[0] == "" && parts[1] == "argon2id" && parts[2] == "v=19"
            && parts[3] == ParamText(h.memory, h.time, h.threads)
            && Base64.Decode(parts[4]) == Some(h.salt) && Base64.Decode(parts[5]) == Some(h.key)
  {
    VersionTextIs19();
  }

  lemma SixFieldsWithVersion(params: string, salt: string, key: string)
    ensures Join(["", "argon2id", "v=19", params, salt, key], '$')
         == "$argon2id$v=19$" + params + "$" + salt + "$" + key
  {
    SixFields("v=19", params, salt, key);
    assert "$argon2id$" + "v=19" + "$" == "$argon2id$v=19$";
  }

  /** Strictness, whatever the scanner accepts: what parses is spelled with canonical numbers,
      and its values are within the bounds. */
  lemma AcceptedIsSpelled(p: Primitives, stored: string) returns (saltText: string, keyText: string)
    requires ParseArgon(p, stored).Some?
    ensures Spells(stored, ParseArgon(p, stored).value, saltText, keyText)
    ensures InBounds(ParseArgon(p, stored).value)
  {
    AcceptedFields(p, stored);
    var parts := Split(stored, '$');
    saltText, keyText := parts[4], parts[5];
    JoinUndoesSplit(stored, '$');
    SixFieldsWithVersion(parts[3], saltText, keyText);
    assert parts == ["", "argon2id", "v=19", parts[3], saltText, keyText];
  }

  /** The parser accepts exactly the language: no more, no less, for every scanner that reads
      back what is printed. */
  lemma ParsesExactly(p: Primitives, stored: string, h: ArgonHash)
    requires ReadsBack(p)
    ensures ParseArgon(p, stored) == Some(h)
       <==> InBounds(h) && exists saltText, keyText :: Spells(stored, h, saltText, keyText)
  {
    if ParseArgon(p, stored) == Some(h) {
      var saltText, keyText := AcceptedIsSpelled(p, stored);
    }
    if InBounds(h) && exists saltText, keyText :: Spells(stored, h, saltText, keyText) {
      var saltText, keyText :| Spells(stored, h, saltText, keyText);
      SpelledIsAccepted(p, stored, h, saltText, keyText);
    }
  }

  lemma SpelledIsAccepted(p: Primitives, stored: string, h: ArgonHash, saltText: string, keyText: string)
    requires ReadsBack(p)
    requires InBounds(h) && Spells(stored, h, saltText, keyText)
    ensures ParseArgon(p, stored) == Some(h)
  {
    SpelledSplits(stored, h, saltText, keyText);
    var parts := Split(stored, '$');
    VersionTextIs19();
    assert p.scanVersion(parts[2]) == Some(ARGON_VERSION);
    assert p.scanParams(parts[3]) == Some((h.memory, h.time, h.threads));
  }

  /** So the leniency of the scanner cannot be observed. */
  lemma ScannerDoesNotMatter(p: Primitives, q: Primitives, stored: string)
    requires ReadsBack(p) && ReadsBack(q)
    ensures ParseArgon(p, stored) == ParseArgon(q, stored)
  {
    if ParseArgon(p, stored).Some? {
      ParsesExactly(p, stored, ParseArgon(p, stored).value);
      ParsesExactly(q, stored, ParseArgon(p, stored).value);
    }
    if ParseArgon(q, stored).Some? {
      ParsesExactly(p, stored, ParseArgon(q, stored).value);
      ParsesExactly(q, stored, ParseArgon(q, stored).value);
    }
  }

  /** A key derivation is never asked for less than one pass, one lane and 8 KiB a lane, nor for
      more than 256 MiB, and no product on the way wraps. */
  lemma DerivationIsBounded(p: Primitives, stored: string)
    requires ParseArgon(p, stored).Some?
    ensures var h := ParseArgon(p, stored).value;
            h.time >= 1 && h.threads >= 1 && h.memory >= 8 * h.threads && 8 * h.threads <= UINT32_MAX
            && h.memory <= ARGON_MAX_MEMORY
  {
    var saltText, keyText := AcceptedIsSpelled(p, stored);
  }

  // ---- printing and parsing ----

  lemma PrintSpells(h: ArgonHash)
    ensures Spells(Print(h), h, Base64.Encode(h.salt), Base64.Encode(h.key))
  {
    Base64.DecodeUndoesEncode(h.salt);
    Base64.DecodeUndoesEncode(h.key);
    VersionTextIs19();
    assert "$argon2id$" + "v=19" + "$" == "$argon2id$v=19$";
  }

  lemma ParseUndoesPrint(p: Primitives, h: ArgonHash)
    requires ReadsBack(p)
    requires InBounds(h)
    ensures ParseArgon(p, Print(h)) == Some(h)
  {
    PrintSpells(h);
    ParsesExactly(p, Print(h), h);
  }

  /** The converse fails for some accepted strings, since base64 is read leniently: it holds exactly
      when both base64 fields are canonical. */
  lemma PrintUndoesParseIff(p: Primitives, stored: string)
    requires ParseArgon(p, stored).Some?
    ensures Print(ParseArgon(p, stored).value) == stored
       <==> var parts := Split(stored, '$'); Base64.Canonical(parts[4]) && Base64.Canonical(parts[5])
  {
    var h := ParseArgon(p, stored).value;
    var parts := Split(stored, '$');
    var saltText, keyText := AcceptedIsSpelled(p, stored);
    SpelledSplits(stored, h, saltText, keyText);
    Base64.EncodeUndoesDecodeIff(saltText);
    Base64.EncodeUndoesDecodeIff(keyText);
    PrintSpells(h);
    SpelledSplits(Print(h), h, Base64.Encode(h.salt), Base64.Encode(h.key));
  }

  /** A line break before the salt is read over: for every hash there is such a stored string that
      parses to it and is not what it prints. */
  lemma LineBreakIsIgnored(p: Primitives, h: ArgonHash) returns (stored: string)
    requires ReadsBack(p)
    requires InBounds(h)
    ensures ParseArgon(p, stored) == Some(h) && Print(h) != stored
  {
    var saltText, keyText := "\n" + Base64.Encode(h.salt), Base64.Encode(h.key);
    stored := "$argon2id$v=19$" + ParamText(h.memory, h.time, h.threads) + "$" + saltText + "$" + keyText;
    Base64.DecodeUndoesEncode(h.salt);
    Base64.DecodeUndoesEncode(h.key);
    assert saltText[1..] == Base64.Encode(h.salt);
    assert Spells(stored, h, saltText, keyText);
    ParsesExactly(p, stored, h);
    SpelledSplits(stored, h, saltText, keyText);
    PrintUndoesParseIff(p, stored);
    assert saltText[0] == '\n';
  }

  // ---- hashing and verifying ----

  lemma HashShape(p: Primitives, password: string, salt: seq<Byte>)
    requires Lawful(p) && ReadsBack(p)
    requires |salt| == ARGON_SALT_LEN
    ensures ParseArgon(p, HashPassword(p, password, salt))
         == Some(ArgonHash(ARGON_MEMORY, ARGON_TIME, ARGON_THREADS, salt,
                           p.idKey(password, salt, ARGON_TIME, ARGON_MEMORY, ARGON_THREADS, ARGON_KEY_LEN)))
  {
    ParseUndoesPrint(p, ArgonHash(ARGON_MEMORY, ARGON_TIME, ARGON_THREADS, salt,
                                  p.idKey(password, salt, ARGON_TIME, ARGON_MEMORY, ARGON_THREADS, ARGON_KEY_LEN)));
  }

  /** A fresh hash verifies its password and needs no rehash. */
  lemma HashVerifies(p: Primitives, password: string, salt: seq<Byte>)
    requires Lawful(p) && ReadsBack(p)
    requires |salt| == ARGON_SALT_LEN
    ensures VerifyPassword(p, HashPassword(p, password, salt), password)
    ensures !NeedsRehash(p, HashPassword(p, password, salt))
  {
    HashShape(p, password, salt);
  }

  /** A fresh hash spelled out: 19 MiB, two passes, one lane, sixteen bytes of salt and thirty-two of key,
      and the key derived with just these. */
  lemma HashIsSpelled(p: Primitives, password: string, salt: seq<Byte>)
    requires Lawful(p)
    ensures var key := p.idKey(password, salt, 2, 19456, 1, 32);
            && |key| == 32
            && HashPassword(p, password, salt)
               == "$argon2id$v=19$m=19456,t=2,p=1$" + Base64.Encode(salt) + "$" + Base64.Encode(key)
    ensures ARGON_SALT_LEN == 16
  {
    var key := p.idKey(password, salt, 2, 19456, 1, 32);
    PrintSpells(ArgonHash(19456, 2, 1, salt, key));
    TodaysParameters();
    var salted, keyed := Base64.Encode(salt), Base64.Encode(key);
    assert "$argon2id$v=19$" + "m=19456,t=2,p=1" + "$" == "$argon2id$v=19$m=19456,t=2,p=1$";
  }

  lemma TodaysParameters()
    ensures ParamText(19456, 2, 1) == "m=19456,t=2,p=1"
  {
    assert Decimal(1) == [Digit(1)] && Decimal(2) == [Digit(2)];
    assert Decimal(19) == Decimal(1) + [Digit(9)];
    assert Decimal(194) == Decimal(19) + [Digit(4)];
    assert Decimal(1945) == Decimal(194) + [Digit(5)];
    assert Decimal(19456) == Decimal(1945) + [Digit(6)];
    assert Decimal(19456) == "19456";
  }

  /** A stored hash verifies just the passwords whose key, derived with its own salt, parameters and key
      length, is its key; and it is to be made again exactly if these are not today's. */
  lemma VerifiesWithItsOwn(p: Primitives, stored: string, h: ArgonHash, saltText: string, keyText: string,
                           candidate: string)
    requires ReadsBack(p) && InBounds(h) && Spells(stored, h, saltText, keyText)
    ensures VerifyPassword(p, stored, candidate)
       <==> p.idKey(candidate, h.salt, h.time, h.memory, h.threads, |h.key|) == h.key
    ensures NeedsRehash(p, stored) <==> (h.memory, h.time, h.threads, |h.key|) != (19456, 2, 1, 32)
  {
    SpelledIsAccepted(p, stored, h, saltText, keyText);
  }

  /** So does a printed one. */
  lemma PrintedVerifiesWithItsOwn(p: Primitives, h: ArgonHash, candidate: string)
    requires ReadsBack(p) && InBounds(h)
    ensures VerifyPassword(p, Print(h), candidate)
       <==> p.idKey(candidate, h.salt, h.time, h.memory, h.threads, |h.key|) == h.key
    ensures NeedsRehash(p, Print(h)) <==> (h.memory, h.time, h.threads, |h.key|) != (19456, 2, 1, 32)
  {
    PrintSpells(h);
    VerifiesWithItsOwn(p, Print(h), h, Base64.Encode(h.salt), Base64.Encode(h.key), candidate);
  }

  /** Whatever else is stored verifies just the passwords it is the MD5 of, and is to be replaced. */
  lemma OtherVerifiesDigest(p: Primitives, stored: string, candidate: string)
    requires forall h, saltText, keyText :: InBounds(h) ==> !Spells(stored, h, saltText, keyText)
    ensures VerifyPassword(p, stored, candidate) <==> stored == p.md5(candidate)
    ensures NeedsRehash(p, stored)
  {
    if ParseArgon(p, stored).Some? {
      var saltText, keyText := AcceptedIsSpelled(p, stored);
    }
  }

  /** Two hashes of one password made with different salts differ. */
  lemma SaltsShow(p: Primitives, password: string, s1: seq<Byte>, s2: seq<Byte>)
    requires Lawful(p) && ReadsBack(p)
    requires |s1| == ARGON_SALT_LEN && |s2| == ARGON_SALT_LEN && s1 != s2
    ensures HashPassword(p, password, s1) != HashPassword(p, password, s2)
  {
    HashShape(p, password, s1);
    HashShape(p, password, s2);
  }

  /** The legacy digest of a password still verifies it, and only what has that digest, and asks to be replaced. */
  lemma LegacyVerifies(p: Primitives, password: string, candidate: string)
    requires Lawful(p)
    ensures VerifyPassword(p, p.md5(password), candidate) <==> p.md5(candidate) == p.md5(password)
    ensures NeedsRehash(p, p.md5(password))
  {
    SplitPlain(p.md5(password), '$');
  }

  // ---- a scanner like Sscanf's, lenient about what follows the last number ----

  function ScanField(s: string, literal: string, max: nat): Option<(nat, string)> {
    match ScanLiteral(s, literal)
    case None => None
    case Some(rest) => ScanUint(rest, max)
  }

  function SscanfVersion(s: string): Option<int> {
    match ScanField(s, "v=", UINT32_MAX)
    case None => None
    case Some((v, _)) => Some(v)
  }

  function SscanfParams(s: string): Option<(nat, nat, nat)> {
    match ScanField(s, "m=", UINT32_MAX) case None => None case Some((m, s1)) =>
    match ScanField(s1, ",t=", UINT32_MAX) case None => None case Some((t, s2)) =>
    match ScanField(s2, ",p=", UINT8_MAX) case None => None case Some((th, _)) => Some((m, t, th))
  }

  lemma ScanFieldReadsBack(literal: string, n: nat, rest: string, max: nat)
    requires n <= max
    requires rest == [] || !IsDigit(rest[0])
    ensures ScanField(literal + (Decimal(n) + rest), literal, max) == Some((n, rest))
  {
    assert (literal + (Decimal(n) + rest))[|literal|..] == Decimal(n) + rest;
    ScanUndoesDecimal(n, rest, max);
  }

  lemma SscanfParamsReadsBack(m: nat, t: nat, th: nat)
    requires m <= UINT32_MAX && t <= UINT32_MAX && th <= UINT8_MAX
    ensures SscanfParams(ParamText(m, t, th)) == Some((m, t, th))
  {
    var s2 := ",p=" + (Decimal(th) + []);
    var s1 := ",t=" + (Decimal(t) + s2);
    assert ParamText(m, t, th) == "m=" + (Decimal(m) + s1);
    ScanFieldReadsBack("m=", m, s1, UINT32_MAX);
    ScanFieldReadsBack(",t=", t, s2, UINT32_MAX);
    ScanFieldReadsBack(",p=", th, [], UINT8_MAX);
  }

  /** It reads back what is printed, so the parser above is exact with it. */
  lemma SscanfReadsBack(p: Primitives)
    requires forall s :: p.scanVersion(s) == SscanfVersion(s)
    requires forall s :: p.scanParams(s) == SscanfParams(s)
    ensures ReadsBack(p)
  {
    forall m: nat, t: nat, th: nat | m <= UINT32_MAX && t <= UINT32_MAX && th <= UINT8_MAX
      ensures p.scanParams(ParamText(m, t, th)) == Some((m, t, th))
    {
      SscanfParamsReadsBack(m, t, th);
    }
    ScanFieldReadsBack("v=", 19, [], UINT32_MAX);
    assert VersionText(19) == "v=" + (Decimal(19) + []);
  }

  // ---- the parser in the source's own order, filling its result field by field ----

  method ParseArgonInPlace(p: Primitives, stored: string) returns (h: ArgonHash, ok: bool)
    ensures ok <==> ParseArgon(p, stored).Some?
    ensures h == if ok then ParseArgon(p, stored).value else ArgonHash(0, 0, 0, [], [])
  {
    var zero := ArgonHash(0, 0, 0, [], []);
    var parts := Split(stored, '$');
    if |parts| != 6 || parts[0] != "" || parts[1] != "argon2id" {
      return zero, false;
    }
    var version := p.scanVersion(parts[2]);
    if version.None? || version.value != ARGON_VERSION || parts[2] != VersionText(version.value) {
      return zero, false;
    }
    h := zero;
    var params := p.scanParams(parts[3]);
    if params.None? {
      return zero, false;
    }
    h := h.(memory := params.value.0, time := params.value.1, threads := params.value.2);
    if parts[3] != ParamText(h.memory, h.time, h.threads) {
      return zero, false;
    }
    if h.threads == 0 || h.threads > ARGON_MAX_THREADS || h.time == 0 || h.time > ARGON_MAX_TIME ||
       h.memory < 8 * h.threads % 0x1_0000_0000 || h.memory > ARGON_MAX_MEMORY {
      return zero, false;
    }
    var salt := Base64.Decode(parts[4]);
    if salt.None? || |salt.value| < 8 {
      return zero, false;
    }
    h := h.(salt := salt.value);
    var key := Base64.Decode(parts[5]);
    if key.None? || |key.value| < 16 || |key.value| > 64 {
      return zero, false;
    }
    h := h.(key := key.value);
    return h, true;
  }
}
