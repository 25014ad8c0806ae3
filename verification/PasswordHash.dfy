/** The stored form of a password: a PHC string that carries its own parameters. */
module PasswordHash {
  import opened Wrappers
  import opened Base64

  const VERSION := 19
  const ARGON_MEMORY := 19 * 1024
  const ARGON_TIME := 2
  const ARGON_KEY_LEN := 32
  const ARGON_SALT_LEN := 16
  const MIN_DIGEST_LEN := 16
  const MAX_DIGEST_LEN := 64
  const MAX_SALT_LEN := 64
  const UINT32 := 0x1_0000_0000
  const UINT8 := 256

  datatype Params = Params(memory: nat, time: nat, parallelism: nat)

  /** A decoded hash. */
  datatype Decoded = Decoded(params: Params, salt: Bytes, digest: Bytes)

  datatype HashError = FieldCount | Algorithm | Version | Parameters | Salt | Digest | EmptyPassword

  predicate ValidParams(p: Params) {
    0 < p.memory < UINT32 && 0 < p.time < UINT32 && 0 < p.parallelism < UINT8
  }

  predicate ValidHash(d: Decoded) {
    && ValidParams(d.params)
    && 1 <= |d.salt| <= MAX_SALT_LEN
    && MIN_DIGEST_LEN <= |d.digest| <= MAX_DIGEST_LEN
  }

  // ----- decimal numerals -----

  function Digit(d: nat): char
    requires d < 10
  {
    '0' + d as char
  }

  predicate IsDigit(c: char) {
    '0' <= c <= '9'
  }

  function Decimal(n: nat): (s: string)
    ensures 0 < |s| && forall i | 0 <= i < |s| :: IsDigit(s[i])
  {
    if n < 10 then [Digit(n)] else Decimal(n / 10) + [Digit(n % 10)]
  }

  /** The length of the longest run of digits at the start. */
  function DigitRun(s: string): (n: nat)
    ensures n <= |s| && (forall i | 0 <= i < n :: IsDigit(s[i])) && (n < |s| ==> !IsDigit(s[n]))
  {
    if s == "" || !IsDigit(s[0]) then 0 else 1 + DigitRun(s[1..])
  }

  function ValueOfDigits(s: string): nat
    requires forall i | 0 <= i < |s| :: IsDigit(s[i])
  {
    if s == "" then 0
    else
      assert IsDigit(s[|s| - 1]);
      10 * ValueOfDigits(s[..|s| - 1]) + (s[|s| - 1] as int - '0' as int)
  }

  /** Decimal numerals, most significant digit first. */
  lemma NumeralsArePositional(n: nat)
    ensures n < 10 ==> Decimal(n) == ["0123456789"[n]]
    ensures n >= 10 ==> Decimal(n) == Decimal(n / 10) + ["0123456789"[n % 10]]
  {
    DigitsInOrder(n % 10);
  }

  lemma DigitsInOrder(d: nat)
    requires d < 10
    ensures Digit(d) == "0123456789"[d]
  {
  }

  lemma {:induction false} DecimalRoundTrip(n: nat)
    ensures ValueOfDigits(Decimal(n)) == n
  {
    var s := Decimal(n);
    if n >= 10 {
      DecimalRoundTrip(n / 10);
      assert s[..|s| - 1] == Decimal(n / 10);
      assert s[|s| - 1] == Digit(n % 10);
    } else {
      assert s[..0] == "";
    }
  }

  // ----- scanning, as fmt.Sscanf does -----

  /** Spaces skipped before a number; a line feed is an error instead. */
  predicate IsBlank(c: char) {
    c == ' ' || c == '\t' || c == '\r' || c == '\U{0B}' || c == '\U{0C}' || c == '\U{85}' || c == '\U{A0}'
  }

  function SkipBlanks(s: string): string {
    if s != "" && IsBlank(s[0]) then SkipBlanks(s[1..]) else s
  }

  /** Text of the format must be matched exactly; the rest of the input remains. */
  function ScanText(s: string, text: string): Option<string> {
    if text <= s then Some(s[|text|..]) else None
  }

  /** %d into an unsigned integer below `limit`: the longest run of digits. */
  function ScanUint(s: string, limit: nat): Option<(nat, string)> {
    var t := SkipBlanks(s);
    var n := DigitRun(t);
    if n == 0 then None
    else
      var value := ValueOfDigits(t[..n]);
      if value < limit then Some((value, t[n..])) else None
  }

  /** %d into a signed 64-bit integer: an optional sign first. */
  function ScanInt(s: string): Option<int> {
    var t := SkipBlanks(s);
    var negative := t != "" && t[0] == '-';
    var digits := if t != "" && (t[0] == '-' || t[0] == '+') then t[1..] else t;
    var n := DigitRun(digits);
    if n == 0 then None
    else
      var value: int := ValueOfDigits(digits[..n]);
      if negative then (if value <= 0x8000_0000_0000_0000 then Some(-value) else None)
      else if value < 0x8000_0000_0000_0000 then Some(value) else None
  }

  /** Sscanf(s, "v=%d"): whatever follows the number is not looked at. */
  function ScanVersion(s: string): Option<int> {
    match ScanText(s, "v=")
    case Some(rest) => ScanInt(rest)
    case None => None
  }

  /** Sscanf(s, "m=%d,t=%d,p=%d"). */
  function ScanParams(s: string): Option<Params> {
    match ScanField(s, "m=", UINT32)
    case None => None
    case Some((memory, s1)) =>
      match ScanField(s1, ",t=", UINT32)
      case None => None
      case Some((time, s2)) =>
        match ScanField(s2, ",p=", UINT8)
        case None => None
        case Some((parallelism, _)) => Some(Params(memory, time, parallelism))
  }

  function ScanField(s: string, name: string, limit: nat): Option<(nat, string)> {
    match ScanText(s, name)
    case Some(rest) => ScanUint(rest, limit)
    case None => None
  }

  lemma {:induction false} DigitRunOfNumeral(digits: string, rest: string)
    requires forall i | 0 <= i < |digits| :: IsDigit(digits[i])
    requires rest == "" || !IsDigit(rest[0])
    ensures DigitRun(digits + rest) == |digits|
  {
    if digits != "" {
      DigitRunOfNumeral(digits[1..], rest);
      assert (digits + rest)[1..] == digits[1..] + rest;
    } else {
      assert digits + rest == rest;
    }
  }

  lemma ScanReadsDecimal(n: nat, rest: string, limit: nat)
    requires n < limit && (rest == "" || !IsDigit(rest[0]))
    ensures ScanUint(Decimal(n) + rest, limit) == Some((n, rest))
    ensures n < 0x8000_0000_0000_0000 ==> ScanInt(Decimal(n) + rest) == Some(n)
  {
    var s := Decimal(n) + rest;
    assert IsDigit(s[0]);
    assert SkipBlanks(s) == s;
    DigitRunOfNumeral(Decimal(n), rest);
    assert s[..|Decimal(n)|] == Decimal(n) && s[|Decimal(n)|..] == rest;
    DecimalRoundTrip(n);
  }

  lemma ScanFieldReads(name: string, n: nat, rest: string, limit: nat)
    requires n < limit && (rest == "" || !IsDigit(rest[0]))
    ensures ScanField(name + Decimal(n) + rest, name, limit) == Some((n, rest))
  {
    var s := name + Decimal(n) + rest;
    assert s[|name|..] == Decimal(n) + rest;
    ScanReadsDecimal(n, rest, limit);
  }

  // ----- what scanning makes of other spellings -----

  predicate Blank(s: string) {
    forall i | 0 <= i < |s| :: s[i] in {' ', '\t', '\r', '\U{0B}', '\U{0C}', '\U{85}', '\U{A0}'}
  }

  predicate Zeros(s: string) {
    forall i | 0 <= i < |s| :: s[i] == '0'
  }

  lemma {:induction false} BlanksAreSkipped(blanks: string, t: string)
    requires Blank(blanks) && (t == "" || !Blank([t[0]]))
    ensures SkipBlanks(blanks + t) == t
  {
    if blanks == "" {
      assert blanks + t == t;
      assert t != "" ==> [t[0]][0] == t[0];
    } else {
      assert (blanks + t)[1..] == blanks[1..] + t;
      BlanksAreSkipped(blanks[1..], t);
    }
  }

  lemma {:induction false} ZerosAddNothing(zeros: string, digits: string)
    requires Zeros(zeros) && forall i | 0 <= i < |digits| :: IsDigit(digits[i])
    ensures ValueOfDigits(zeros + digits) == ValueOfDigits(digits)
  {
    var all := zeros + digits;
    if digits != "" {
      assert all[..|all| - 1] == zeros + digits[..|digits| - 1];
      ZerosAddNothing(zeros, digits[..|digits| - 1]);
    } else if zeros != "" {
      assert all == zeros && all[..|all| - 1] == zeros[..|zeros| - 1] + "";
      ZerosAddNothing(zeros[..|zeros| - 1], "");
    }
  }

  /** A number may follow spaces and carry zeros in front, and what comes after it is
      left alone; it must be below its limit, and there must be one. */
  lemma NumbersAreRead(blanks: string, zeros: string, n: nat, rest: string, limit: nat)
    requires Blank(blanks) && Zeros(zeros) && (rest == "" || !IsDigit(rest[0]))
    ensures ScanUint(blanks + zeros + Decimal(n) + rest, limit) == if n < limit then Some((n, rest)) else None
    ensures rest == "" || !Blank([rest[0]]) ==> ScanUint(blanks + rest, limit) == None
  {
    var digits := zeros + Decimal(n);
    var t := digits + rest;
    assert blanks + zeros + Decimal(n) + rest == blanks + t;
    assert IsDigit(digits[0]) && t[0] == digits[0] && [t[0]][0] == t[0];
    BlanksAreSkipped(blanks, t);
    DigitRunOfNumeral(digits, rest);
    assert t[..|digits|] == digits && t[|digits|..] == rest;
    ZerosAddNothing(zeros, Decimal(n));
    DecimalRoundTrip(n);
    if rest == "" || !Blank([rest[0]]) {
      BlanksAreSkipped(blanks, rest);
    }
  }

  lemma SignIsRead(sign: string, digits: string, rest: string)
    requires sign in {"", "+", "-"} && digits != "" && forall i | 0 <= i < |digits| :: IsDigit(digits[i])
    ensures var t := sign + digits + rest;
            && t != "" && !Blank([t[0]])
            && (t[0] == '-' <==> sign == "-") && (t[0] == '-' || t[0] == '+' <==> sign != "")
            && (if t[0] == '-' || t[0] == '+' then t[1..] else t) == digits + rest
  {
    var t := sign + digits + rest;
    assert IsDigit(digits[0]) && t[0] == (if sign == "" then digits[0] else sign[0]) && [t[0]][0] == t[0];
    assert sign == "" ==> t == digits + rest;
    assert sign != "" ==> t[1..] == digits + rest;
  }

  /** The version may carry a sign besides, within 64 bits. */
  lemma SignedNumbersAreRead(blanks: string, sign: string, n: nat, value: int, rest: string)
    requires Blank(blanks) && sign in {"", "+", "-"} && (rest == "" || !IsDigit(rest[0]))
    requires value == if sign == "-" then -(n as int) else n
    ensures ScanInt(blanks + (sign + Decimal(n) + rest))
         == if -0x8000_0000_0000_0000 <= value < 0x8000_0000_0000_0000 then Some(value) else None
  {
    SignIsRead(sign, Decimal(n), rest);
    BlanksAreSkipped(blanks, sign + Decimal(n) + rest);
    DigitRunOfNumeral(Decimal(n), rest);
    assert (Decimal(n) + rest)[..|Decimal(n)|] == Decimal(n);
    DecimalRoundTrip(n);
  }

  // ----- splitting on '$' -----

  function Fields(s: string): (f: seq<string>)
    ensures |f| >= 1
  {
    if s == "" then [""]
    else
      var rest := Fields(s[1..]);
      if s[0] == '$' then [""] + rest else [[s[0]] + rest[0]] + rest[1..]
  }

  predicate NoDollar(s: string) {
    '$' !in s
  }

  lemma {:induction false} FieldEndsAtDollar(a: string, rest: string)
    requires NoDollar(a)
    ensures Fields(a + "$" + rest) == [a] + Fields(rest)
  {
    var s := a + "$" + rest;
    if a == "" {
      assert s[1..] == rest;
    } else {
      FieldEndsAtDollar(a[1..], rest);
      assert s[1..] == a[1..] + "$" + rest;
      assert a == [a[0]] + a[1..];
    }
  }

  lemma {:induction false} LastField(a: string)
    requires NoDollar(a)
    ensures Fields(a) == [a]
  {
    if a != "" {
      LastField(a[1..]);
      assert a == [a[0]] + a[1..];
    }
  }

  // ----- printing and decoding -----

  function PrintVersion(): string {
    "v=" + Decimal(VERSION)
  }

  function PrintParams(p: Params): string {
    "m=" + Decimal(p.memory) + ",t=" + Decimal(p.time) + ",p=" + Decimal(p.parallelism)
  }

  function Field(a: string, rest: string): string {
    a + "$" + rest
  }

  /** The format string of HashPassword: $argon2id$v=..$m=..,t=..,p=..$salt$digest. */
  function Print(d: Decoded): string {
    Field("", Field("argon2id", Field(PrintVersion(), Field(PrintParams(d.params),
      Field(Encode(Standard, d.salt), Encode(Standard, d.digest))))))
  }

  /** Whatever decodes is within bounds, so no hash can ask for an absurd
      allocation or overflow the digest length. */
  function DecodeHash(encoded: string): (r: Result<Decoded, HashError>)
    ensures r.Ok? ==>
              && 1 <= r.value.params.memory <= 0xFFFF_FFFF && 1 <= r.value.params.time <= 0xFFFF_FFFF
              && 1 <= r.value.params.parallelism <= 255
              && 1 <= |r.value.salt| <= 64 && 16 <= |r.value.digest| <= 64
  {
    DecodeFields(Fields(encoded))
  }

  function DecodeFields(parts: seq<string>): (r: Result<Decoded, HashError>)
    ensures r.Ok? ==> ValidHash(r.value)
    ensures r == Err(FieldCount) <==> |parts| != 6 || parts[0] != ""
    ensures r == Err(Algorithm) <==> |parts| == 6 && parts[0] == "" && parts[1] != "argon2id"
    ensures r.Err? ==> r.error != EmptyPassword
  {
    if |parts| != 6 || parts[0] != "" then Err(FieldCount)
    else if parts[1] != "argon2id" then Err(Algorithm)
    else
      match ScanVersion(parts[2])
      case None => Err(Version)
      case Some(version) =>
        if version != VERSION then Err(Version)
        else
          match ScanParams(parts[3])
          case None => Err(Parameters)
          case Some(p) =>
            if p.memory == 0 || p.time == 0 || p.parallelism == 0 then Err(Parameters)
            else
              match DecodeRaw(Standard, parts[4])
              case None => Err(Salt)
              case Some(salt) =>
                match DecodeRaw(Standard, parts[5])
                case None => Err(Digest)
                case Some(digest) =>
                  if |salt| == 0 || |salt| > MAX_SALT_LEN then Err(Salt)
                  else if |digest| < MIN_DIGEST_LEN || |digest| > MAX_DIGEST_LEN then Err(Digest)
                  else Ok(Decoded(p, salt, digest))
  }

  lemma DecimalHasNoDollar(n: nat)
    ensures NoDollar(Decimal(n))
  {
  }

  lemma EncodedHasNoDollar(b: Bytes)
    ensures NoDollar(Encode(Standard, b))
  {
    EncodedTextIsClean(Standard, b);
  }

  lemma SixFields(a: string, b: string, c: string, d: string, e: string)
    requires NoDollar(a) && NoDollar(b) && NoDollar(c) && NoDollar(d) && NoDollar(e)
    ensures Fields(Field("", Field(a, Field(b, Field(c, Field(d, e)))))) == ["", a, b, c, d, e]
  {
    LastField(e);
    FieldEndsAtDollar(d, e);
    FieldEndsAtDollar(c, Field(d, e));
    FieldEndsAtDollar(b, Field(c, Field(d, e)));
    FieldEndsAtDollar(a, Field(b, Field(c, Field(d, e))));
    FieldEndsAtDollar("", Field(a, Field(b, Field(c, Field(d, e)))));
  }

  lemma PrintedFields(d: Decoded)
    ensures Fields(Print(d))
         == ["", "argon2id", PrintVersion(), PrintParams(d.params),
             Encode(Standard, d.salt), Encode(Standard, d.digest)]
  {
    EncodedHasNoDollar(d.digest);
    EncodedHasNoDollar(d.salt);
    ParamsHaveNoDollar(d.params);
    VersionHasNoDollar();
    SixFields("argon2id", PrintVersion(), PrintParams(d.params), Encode(Standard, d.salt), Encode(Standard, d.digest));
  }

  lemma VersionHasNoDollar()
    ensures NoDollar(PrintVersion())
  {
    DecimalHasNoDollar(VERSION);
  }

  lemma ParamsHaveNoDollar(p: Params)
    ensures NoDollar(PrintParams(p))
  {
    DecimalHasNoDollar(p.memory);
    DecimalHasNoDollar(p.time);
    DecimalHasNoDollar(p.parallelism);
  }

  /** Parameters read back, whatever follows them. */
  lemma ParamsRoundTrip(p: Params, rest: string)
    requires ValidParams(p) && (rest == "" || !IsDigit(rest[0]))
    ensures ScanParams(PrintParams(p) + rest) == Some(p)
  {
    var s2 := ",p=" + Decimal(p.parallelism) + rest;
    var s1 := ",t=" + Decimal(p.time) + s2;
    assert PrintParams(p) + rest == "m=" + Decimal(p.memory) + s1;
    ScanFieldReads("m=", p.memory, s1, UINT32);
    ScanFieldReads(",t=", p.time, s2, UINT32);
    ScanFieldReads(",p=", p.parallelism, rest, UINT8);
  }

  lemma VersionRoundTrip()
    ensures ScanVersion(PrintVersion()) == Some(VERSION)
  {
    assert PrintVersion()[2..] == Decimal(VERSION) == Decimal(VERSION) + "";
    ScanReadsDecimal(VERSION, "", UINT32);
  }

  /** Each field reads back as the part of the hash it stands for. */
  ghost predicate ReadBack(d: Decoded, parts: seq<string>) {
    && |parts| == 6 && parts[0] == "" && parts[1] == "argon2id"
    && ScanVersion(parts[2]) == Some(VERSION) && ScanParams(parts[3]) == Some(d.params)
    && DecodeRaw(Standard, parts[4]) == Some(d.salt) && DecodeRaw(Standard, parts[5]) == Some(d.digest)
  }

  lemma FieldsReadBack(d: Decoded, parts: seq<string>)
    requires ValidHash(d)
    requires |parts| == 6 && parts[0] == "" && parts[1] == "argon2id"
    requires parts[2] == PrintVersion() && parts[3] == PrintParams(d.params)
    requires parts[4] == Encode(Standard, d.salt) && parts[5] == Encode(Standard, d.digest)
    ensures ReadBack(d, parts)
  {
    VersionRoundTrip();
    ParamsRoundTrip(d.params, "");
    assert parts[3] + "" == parts[3];
    RawRoundTrip(Standard, d.salt);
    RawRoundTrip(Standard, d.digest);
  }

  lemma FieldsDecode(d: Decoded, parts: seq<string>)
    requires ValidHash(d) && ReadBack(d, parts)
    ensures DecodeFields(parts) == Ok(d)
  {
  }

  lemma SixFieldsInARow(a: string, b: string, c: string, d: string, e: string)
    ensures Field("", Field(a, Field(b, Field(c, Field(d, e)))))
         == "$" + a + "$" + b + "$" + c + "$" + d + "$" + e
  {
    assert Field(c, Field(d, e)) == c + "$" + d + "$" + e;
    assert Field(a, Field(b, Field(c, Field(d, e)))) == a + "$" + b + "$" + c + "$" + d + "$" + e;
  }

  /** The stored form in full: algorithm, version 19, memory, passes and lanes, salt and
      digest in unpadded standard base64. */
  lemma StoredFormSpelledOut(d: Decoded)
    ensures Print(d) == "$" + "argon2id" + "$" + "v=19" + "$" + PrintParams(d.params)
                        + "$" + Encode(Standard, d.salt) + "$" + Encode(Standard, d.digest)
    ensures PrintParams(d.params) == "m=" + Decimal(d.params.memory) + ",t=" + Decimal(d.params.time)
                                     + ",p=" + Decimal(d.params.parallelism)
  {
    NumeralsArePositional(19);
    NumeralsArePositional(1);
    assert PrintVersion() == "v=19";
    SixFieldsInARow("argon2id", PrintVersion(), PrintParams(d.params), Encode(Standard, d.salt),
                    Encode(Standard, d.digest));
  }

  /** Decoding undoes printing, for every set of parameters, salt and digest the
      decoder's bounds allow. */
  lemma HashRoundTrip(d: Decoded)
    requires 1 <= d.params.memory <= 0xFFFF_FFFF && 1 <= d.params.time <= 0xFFFF_FFFF
    requires 1 <= d.params.parallelism <= 255
    requires 1 <= |d.salt| <= 64 && 16 <= |d.digest| <= 64
    ensures DecodeHash(Print(d)) == Ok(d)
  {
    var parts := Fields(Print(d));
    PrintedFields(d);
    FieldsReadBack(d, parts);
    FieldsDecode(d, parts);
  }

  // ----- hashing and verifying -----

  /** The key derivation: password, salt, parameters and output length. */
  type Kdf = (string, Bytes, Params, nat) -> Bytes

  ghost predicate KdfLength(kdf: Kdf) {
    forall password, salt, p, n :: |kdf(password, salt, p, n)| == n
  }

  function CurrentParams(lanes: nat): Params {
    Params(ARGON_MEMORY, ARGON_TIME, lanes)
  }

  function HashPassword(kdf: Kdf, password: string, salt: Bytes, lanes: nat): (r: Result<string, HashError>)
    ensures r.Err? <==> password == ""
    ensures r.Err? ==> r.error == EmptyPassword
  {
    if password == "" then Err(EmptyPassword)
    else Ok(Print(Decoded(CurrentParams(lanes), salt, kdf(password, salt, CurrentParams(lanes), ARGON_KEY_LEN))))
  }

  datatype Verdict = Verdict(ok: bool, needsRehash: bool)

  function VerifyPassword(kdf: Kdf, encoded: string, password: string): Result<Verdict, HashError> {
    match DecodeHash(encoded)
    case Err(e) => Err(e)
    case Ok(d) =>
      if kdf(password, d.salt, d.params, |d.digest|) != d.digest then Ok(Verdict(false, false))
      else Ok(Verdict(true, d.params.memory < ARGON_MEMORY || d.params.time < ARGON_TIME))
  }

  /** A fresh hash verifies against its own password without being called stale,
      and against another exactly when the key derivation cannot tell them apart. */
  lemma FreshHashesVerify(kdf: Kdf, password: string, other: string, salt: Bytes, lanes: nat)
    requires KdfLength(kdf) && password != "" && |salt| == 16 && 1 <= lanes <= 4
    ensures var h := HashPassword(kdf, password, salt, lanes);
            && h.Ok?
            && DecodeHash(h.value)
               == Ok(Decoded(Params(19_456, 2, lanes), salt, kdf(password, salt, Params(19_456, 2, lanes), 32)))
            && VerifyPassword(kdf, h.value, password) == Ok(Verdict(true, false))
            && (VerifyPassword(kdf, h.value, other) == Ok(Verdict(true, false))
                <==> kdf(other, salt, CurrentParams(lanes), ARGON_KEY_LEN)
                     == kdf(password, salt, CurrentParams(lanes), ARGON_KEY_LEN))
  {
    HashRoundTrip(Decoded(CurrentParams(lanes), salt, kdf(password, salt, CurrentParams(lanes), ARGON_KEY_LEN)));
  }

  /** A stored hash asks to be recomputed exactly when the password matches and it
      was made with less memory or fewer passes than today's. */
  lemma StaleIffWeaker(kdf: Kdf, d: Decoded, password: string)
    requires KdfLength(kdf) && ValidHash(d)
    ensures var v := VerifyPassword(kdf, Print(d), password);
            && v.Ok?
            && (v.value.ok <==> kdf(password, d.salt, d.params, |d.digest|) == d.digest)
            && (v.value.needsRehash <==>
                  v.value.ok && (d.params.memory < 19_456 || d.params.time < 2))
  {
    HashRoundTrip(d);
  }
}
