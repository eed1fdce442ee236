/** Personal API keys: the printed form, its parser, and verification across pepper rotations. */
module ApiKeys {
  import opened Wrappers

  // ---- decimal numbers ----

  function Digit(d: nat): char
    requires d < 10
  {
    '0' + d as char
  }

  predicate IsDigit(c: char) { '0' <= c <= '9' }

  predicate AllDigits(s: string) { s != "" && forall c | c in s :: IsDigit(c) }

  function PrintNat(n: nat): string {
    if n < 10 then [Digit(n)] else PrintNat(n / 10) + [Digit(n % 10)]
  }

  /** A version as an f-string prints it. */
  function PrintInt(n: int): string { if n < 0 then "-" + PrintNat(-n) else PrintNat(n) }

  function ReadNat(s: string): nat
    requires forall c | c in s :: IsDigit(c)
  {
    if s == "" then 0
    else
      assert s[|s| - 1] in s && IsDigit(s[|s| - 1]);
      ReadNat(s[..|s| - 1]) * 10 + (s[|s| - 1] as int - '0' as int)
  }

  lemma {:induction false} ReadPrinted(n: nat)
    ensures AllDigits(PrintNat(n)) && ReadNat(PrintNat(n)) == n
    ensures n > 0 ==> PrintNat(n)[0] != '0'
  {
    if n >= 10 {
      ReadPrinted(n / 10);
      assert PrintNat(n)[..|PrintNat(n)| - 1] == PrintNat(n / 10);
    } else {
      assert PrintNat(n)[..0] == "";
    }
  }

  // ---- split ----

  function IndexOf(s: string, c: char): (i: nat)
    ensures i <= |s| && (i < |s| ==> s[i] == c) && c !in s[..i]
  {
    if s == "" || s[0] == c then 0
    else
      var i := IndexOf(s[1..], c);
      assert s[..i + 1] == [s[0]] + s[1..][..i];
      i + 1
  }

  /** str.split with a separator and a maximal number of cuts. */
  function Split(s: string, c: char, cuts: nat): seq<string>
    decreases cuts
  {
    var i := IndexOf(s, c);
    if cuts == 0 || i == |s| then [s] else [s[..i]] + Split(s[i + 1..], c, cuts - 1)
  }

  /** Two parts with an underscore between them. */
  function Join(head: string, tail: string): string { head + "_" + tail }

  lemma {:induction false} IndexInJoin(head: string, tail: string)
    requires '_' !in head
    ensures IndexOf(Join(head, tail), '_') == |head|
  {
    if head != "" {
      assert Join(head, tail)[0] == head[0];
      assert Join(head, tail)[1..] == Join(head[1..], tail);
      IndexInJoin(head[1..], tail);
    }
  }

  lemma SplitJoin(head: string, tail: string, cuts: nat)
    requires '_' !in head && cuts > 0
    ensures Split(Join(head, tail), '_', cuts) == [head] + Split(tail, '_', cuts - 1)
  {
    IndexInJoin(head, tail);
    var s := Join(head, tail);
    assert s[..|head|] == head && s[|head| + 1..] == tail;
  }

  /** What a split that finds a separator found. */
  lemma SplitIsJoin(s: string, cuts: nat)
    ensures |Split(s, '_', cuts)| > 0
    ensures |Split(s, '_', cuts)| == 1 ==> Split(s, '_', cuts) == [s]
    ensures |Split(s, '_', cuts)| > 1 ==>
              var head := Split(s, '_', cuts)[0];
              && cuts > 0 && '_' !in head && |head| < |s|
              && s == Join(head, s[|head| + 1..])
              && Split(s, '_', cuts)[1..] == Split(s[|head| + 1..], '_', cuts - 1)
  {
    var i := IndexOf(s, '_');
    if cuts > 0 && i < |s| {
      assert s == s[..i] + "_" + s[i + 1..];
    }
  }

  // ---- the key ----

  const PREFIX := "openknowledge"

  datatype ParsedKey = ParsedKey(publicId: string, secret: string, version: int)
  datatype KeyError = BadFormat

  function PrintKey(version: int, publicId: string, secret: string): string {
    Join(PREFIX, Join("v" + PrintInt(version), Join(publicId, secret)))
  }

  function ParseKey(raw: string): Result<ParsedKey, KeyError> {
    var parts := Split(raw, '_', 3);
    if |parts| != 4 || parts[0] != PREFIX || |parts[1]| == 0 || parts[1][0] != 'v' || !AllDigits(parts[1][1..])
       || parts[2] == "" || parts[3] == ""
    then Failure(BadFormat)
    else Success(ParsedKey(parts[2], parts[3], ReadNat(parts[1][1..])))
  }

  /** What issued ids and secrets satisfy: a hexadecimal id, a URL-safe secret. */
  predicate Issuable(publicId: string, secret: string) {
    publicId != "" && '_' !in publicId && secret != ""
  }

  /** A key written with any digits for its version. */
  function KeyText(digits: string, publicId: string, secret: string): string {
    Join(PREFIX, Join("v" + digits, Join(publicId, secret)))
  }

  lemma ParseKeyText(digits: string, publicId: string, secret: string)
    requires AllDigits(digits) && Issuable(publicId, secret)
    ensures ParseKey(KeyText(digits, publicId, secret)) == Success(ParsedKey(publicId, secret, ReadNat(digits)))
  {
    hide Split, Join;
    assert '_' !in "v" + digits by { assert !IsDigit('_'); }
    SplitJoin(PREFIX, Join("v" + digits, Join(publicId, secret)), 3);
    SplitJoin("v" + digits, Join(publicId, secret), 2);
    SplitJoin(publicId, secret, 1);
    SplitIsJoin(secret, 0);
    assert Split(KeyText(digits, publicId, secret), '_', 3) == [PREFIX, "v" + digits, publicId, secret];
    assert ("v" + digits)[1..] == digits;
  }

  /** Only texts of that form parse. */
  lemma ParsedKeyText(raw: string) returns (digits: string)
    requires ParseKey(raw).Success?
    ensures var k := ParseKey(raw).value;
            && digits != "" && (forall c | c in digits :: '0' <= c <= '9')
            && k.publicId != "" && '_' !in k.publicId && k.secret != ""
            && k.version == ReadNat(digits) && raw == KeyText(digits, k.publicId, k.secret)
  {
    hide Split, Join, ReadNat;
    var parts := Split(raw, '_', 3);
    digits := parts[1][1..];
    SplitIsJoin(raw, 3);
    var rest1 := raw[|parts[0]| + 1..];
    SplitIsJoin(rest1, 2);
    var rest2 := rest1[|parts[1]| + 1..];
    SplitIsJoin(rest2, 1);
    var rest3 := rest2[|parts[2]| + 1..];
    SplitIsJoin(rest3, 0);
    assert parts[1] == "v" + digits;
  }

  /**
   Parsing a printed key gives back its parts exactly when the version is a natural number, the id is
   nonempty and free of underscores, and the secret is nonempty (whatever underscores it holds).
   */
  lemma PrintThenParse(version: int, publicId: string, secret: string)
    ensures ParseKey(PrintKey(version, publicId, secret)) == Success(ParsedKey(publicId, secret, version))
            <==> version >= 0 && publicId != "" && '_' !in publicId && secret != ""
  {
    var raw := PrintKey(version, publicId, secret);
    if version >= 0 && Issuable(publicId, secret) {
      ReadPrinted(version);
      ParseKeyText(PrintNat(version), publicId, secret);
    } else if ParseKey(raw).Success? {
      var digits := ParsedKeyText(raw);
    }
  }

  // ---- the codec ----

  type Digest(==)
  type Pepper = string
  /** HMAC-SHA-256 of a message under a pepper; nothing is assumed of it unless a lemma says so. */
  type Hmac = (Pepper, string) -> Digest

  datatype Codec = Codec(peppers: map<int, Pepper>, active: int)
  datatype IssuedKey = IssuedKey(publicId: string, secret: string, digest: Digest, version: int)

  /** What the constructor insists on. */
  predicate Valid(codec: Codec) { codec.active in codec.peppers }

  function Payload(publicId: string, secret: string, version: int): string {
    "v" + PrintInt(version) + ":" + publicId + ":" + secret
  }

  function DigestParts(codec: Codec, hmac: Hmac, publicId: string, secret: string, version: int): Option<Digest> {
    if version in codec.peppers then Some(hmac(codec.peppers[version], Payload(publicId, secret, version))) else None
  }

  function Issue(codec: Codec, hmac: Hmac, publicId: string, secret: string): IssuedKey
    requires Valid(codec)
  {
    IssuedKey(publicId, PrintKey(codec.active, publicId, secret),
              hmac(codec.peppers[codec.active], Payload(publicId, secret, codec.active)), codec.active)
  }

  /** `pepperVersion` is the version stored beside the digest; zero counts as absent, as Python's `or` has it. */
  function Verify(codec: Codec, hmac: Hmac, raw: string, expected: Digest, pepperVersion: Option<int>): bool
    requires Valid(codec)
  {
    var invalid := hmac(codec.peppers[codec.active], "invalid");
    match ParseKey(raw)
    case Failure(_) => invalid == expected
    case Success(key) =>
      var version := if pepperVersion.Some? && pepperVersion.value != 0 then pepperVersion.value else key.version;
      if key.version != version then false
      else
        match DigestParts(codec, hmac, key.publicId, key.secret, version)
        case Some(actual) => actual == expected
        case None => invalid == expected
  }

  /**
   A key issued under a natural version keeps verifying under every codec that still holds that
   version's pepper, whichever version that codec issues with; a stored version other than the key's
   own makes it fail, and is the only thing that does.
   */
  lemma IssuedKeyKeepsVerifying(issuer: Codec, later: Codec, hmac: Hmac, publicId: string, secret: string,
      stored: Option<int>)
    requires Valid(issuer) && issuer.active >= 0 && Issuable(publicId, secret)
    requires Valid(later) && issuer.active in later.peppers &&
        later.peppers[issuer.active] == issuer.peppers[issuer.active]
    ensures var key := Issue(issuer, hmac, publicId, secret);
            Verify(later, hmac, key.secret, key.digest, stored) <==> stored in {None, Some(0), Some(key.version)}
  {
    PrintThenParse(issuer.active, publicId, secret);
  }

  // ---- the texts in full ----

  /** The text of a key, and the message its digest is taken of. */
  lemma TextsInFull(version: int, digits: string, publicId: string, secret: string)
    ensures PrintKey(version, publicId, secret) ==
            "openknowledge_v" + PrintInt(version) + "_" + publicId + "_" + secret
    ensures KeyText(digits, publicId, secret) == "openknowledge_v" + digits + "_" + publicId + "_" + secret
    ensures Payload(publicId, secret, version) == "v" + PrintInt(version) + ":" + publicId + ":" + secret
  {
    KeyTextInFull(digits, publicId, secret);
    KeyTextInFull(PrintInt(version), publicId, secret);
    hide PrintInt;
  }

  lemma KeyTextInFull(digits: string, publicId: string, secret: string)
    ensures KeyText(digits, publicId, secret) == "openknowledge_v" + digits + "_" + publicId + "_" + secret
  {
    assert "openknowledge" + "_" == "openknowledge_";
    assert "openknowledge_" + "v" == "openknowledge_v";
    var rest := digits + "_" + publicId + "_" + secret;
    assert Join("v" + digits, Join(publicId, secret)) == "v" + rest;
    assert "openknowledge" + "_" + ("v" + rest) == "openknowledge" + "_" + "v" + rest;
    assert "openknowledge_v" + digits + "_" + publicId + "_" + secret == "openknowledge_v" + rest;
  }

  lemma OneDigitMore(n: nat, text: string, d: nat, c: char)
    requires n > 0 && d < 10 && PrintNat(n) == text && c as int == '0' as int + d
    ensures PrintNat(n * 10 + d) == text + [c]
  {
    assert (n * 10 + d) / 10 == n && (n * 10 + d) % 10 == d;
  }

  lemma EveryDigit()
    ensures PrintNat(1234567890) == "1234567890"
  {
    assert PrintNat(1) == "1";
    hide PrintNat;
    OneDigitMore(1, "1", 2, '2');
    OneDigitMore(12, "12", 3, '3');
    OneDigitMore(123, "123", 4, '4');
    OneDigitMore(1234, "1234", 5, '5');
    OneDigitMore(12345, "12345", 6, '6');
    OneDigitMore(123456, "123456", 7, '7');
    OneDigitMore(1234567, "1234567", 8, '8');
    OneDigitMore(12345678, "12345678", 9, '9');
    OneDigitMore(123456789, "123456789", 0, '0');
  }

  /** One key in full: every digit of the version is printed as itself. */
  lemma OneKeyInFull()
    ensures PrintKey(1234567890, "0f", "s_t") == "openknowledge_v1234567890_0f_s_t"
    ensures PrintKey(-7, "0f", "s") == "openknowledge_v-7_0f_s"
  {
    EveryDigit();
    assert PrintInt(1234567890) == "1234567890" && PrintInt(-7) == "-7" by {
      assert PrintNat(7) == "7";
      hide PrintNat;
    }
    hide *;
    TextsInFull(1234567890, "", "0f", "s_t");
    TextsInFull(-7, "", "0f", "s");
    Literals();
  }

  lemma Literals()
    ensures "openknowledge_v" + "1234567890" + "_" + "0f" + "_" + "s_t" == "openknowledge_v1234567890_0f_s_t"
    ensures "openknowledge_v" + "-7" + "_" + "0f" + "_" + "s" == "openknowledge_v-7_0f_s"
  {
  }

  // ---- what else verifies, if the digests do not collide ----

  ghost predicate CollisionFree(hmac: Hmac) {
    forall p, m, q, n :: hmac(p, m) == hmac(q, n) ==> p == q && m == n
  }

  lemma NoColons(version: int)
    ensures ':' !in PrintInt(version)
  {
    ReadPrinted(if version < 0 then -version else version);
    assert !IsDigit(':');
  }

  lemma {:induction false} SameHead(a: string, b: string, s: string, t: string)
    requires ':' !in a && ':' !in b && a + ":" + s == b + ":" + t
    ensures a == b && s == t
  {
    var x, y := a + ":" + s, b + ":" + t;
    assert x[0] == y[0];
    if a == "" || b == "" {
      assert a == b;
    } else {
      assert x[1..] == a[1..] + ":" + s && y[1..] == b[1..] + ":" + t;
      SameHead(a[1..], b[1..], s, t);
      assert a == [a[0]] + a[1..] && b == [b[0]] + b[1..];
    }
    assert s == x[|a| + 1..] && t == y[|b| + 1..];
  }

  lemma OneColon(publicId: string, secret: string, otherId: string, otherSecret: string)
    requires ':' !in publicId && ':' !in secret && publicId + ":" + secret == otherId + ":" + otherSecret
    ensures otherId == publicId && otherSecret == secret
  {
    var x, y := publicId + ":" + secret, otherId + ":" + otherSecret;
    forall j | 0 <= j < |otherId| ensures otherId[j] != ':' {
      assert y[|otherId|] == ':' && y[j] == otherId[j];
      assert forall k | 0 <= k < |x| && k != |publicId| ::
          x[k] == if k < |publicId| then publicId[k] else secret[k - |publicId| - 1];
    }
    SameHead(publicId, otherId, secret, otherSecret);
  }

  lemma PayloadHead(publicId: string, secret: string, version: int)
    ensures Payload(publicId, secret, version) == ("v" + PrintInt(version)) + ":" + (publicId + ":" + secret)
    ensures ':' !in "v" + PrintInt(version)
    ensures Payload(publicId, secret, version)[0] == 'v'
  {
    NoColons(version);
    assert Payload(publicId, secret, version) == ("v" + PrintInt(version)) + ":" + (publicId + ":" + secret);
  }

  /** A payload says which key it is for, when the id and the secret hold no colon (issued ones do not). */
  lemma PayloadIsOfOneKey(publicId: string, secret: string, version: nat, otherId: string, otherSecret: string,
      otherVersion: nat)
    requires ':' !in publicId && ':' !in secret
    requires Payload(publicId, secret, version) == Payload(otherId, otherSecret, otherVersion)
    ensures publicId == otherId && secret == otherSecret && version == otherVersion
  {
    PayloadHead(publicId, secret, version);
    PayloadHead(otherId, otherSecret, otherVersion);
    var a, b := "v" + PrintInt(version), "v" + PrintInt(otherVersion);
    SameHead(a, b, publicId + ":" + secret, otherId + ":" + otherSecret);
    assert a[1..] == PrintNat(version) && b[1..] == PrintNat(otherVersion);
    ReadPrinted(version);
    ReadPrinted(otherVersion);
    OneColon(publicId, secret, otherId, otherSecret);
  }

  /** What a digest comparison tells apart when nothing collides. */
  lemma DigestIsOfOneKey(hmac: Hmac, p: Pepper, q: Pepper, publicId: string, secret: string, version: nat,
      other: ParsedKey)
    requires CollisionFree(hmac) && ':' !in publicId && ':' !in secret && other.version >= 0
    ensures hmac(p, "invalid") != hmac(q, Payload(publicId, secret, version))
    ensures hmac(p, Payload(other.publicId, other.secret, other.version)) ==
            hmac(q, Payload(publicId, secret, version)) ==>
              other == ParsedKey(publicId, secret, version)
  {
    PayloadHead(publicId, secret, version);
    assert "invalid"[0] == 'i';
    if Payload(other.publicId, other.secret, other.version) == Payload(publicId, secret, version) {
      PayloadIsOfOneKey(publicId, secret, version, other.publicId, other.secret, other.version);
    }
  }

  ghost predicate IsKeyTextOf(raw: string, version: nat, publicId: string, secret: string) {
    exists digits :: AllDigits(digits) && ReadNat(digits) == version && raw == KeyText(digits, publicId, secret)
  }

  /**
   Without collisions, exactly these strings verify against an issued key's digest, under any codec that
   still holds its pepper: the key itself, up to how its version is written (leading zeros are read).
   */
  lemma OnlyTheIssuedKeyVerifies(issuer: Codec, later: Codec, hmac: Hmac, publicId: string, secret: string, raw: string)
    requires CollisionFree(hmac)
    requires Valid(issuer) && issuer.active >= 0 && Issuable(publicId, secret) && ':' !in publicId && ':' !in secret
    requires Valid(later) && issuer.active in later.peppers &&
        later.peppers[issuer.active] == issuer.peppers[issuer.active]
    ensures Verify(later, hmac, raw, Issue(issuer, hmac, publicId, secret).digest, Some(issuer.active))
            <==> IsKeyTextOf(raw, issuer.active, publicId, secret)
  {
    hide ParseKey, Payload, PrintInt, KeyText, CollisionFree, ReadNat, PrintKey;
    DigestIsOfOneKey(hmac, later.peppers[later.active], issuer.peppers[issuer.active], publicId, secret, issuer.active,
                     ParsedKey(publicId, secret, 0));
    if IsKeyTextOf(raw, issuer.active, publicId, secret) {
      var digits :| AllDigits(digits) && ReadNat(digits) == issuer.active && raw == KeyText(digits, publicId, secret);
      ParseKeyText(digits, publicId, secret);
    } else if ParseKey(raw).Success? {
      var parsed := ParseKey(raw).value;
      var digits := ParsedKeyText(raw);
      if parsed.version in later.peppers {
        DigestIsOfOneKey(hmac, later.peppers[parsed.version], issuer.peppers[issuer.active], publicId, secret,
            issuer.active, parsed);
      }
    }
  }

  /** A retired pepper retires its keys: without it, and without collisions, nothing verifies against the digest. */
  lemma RetiredPepperRetiresItsKeys(issuer: Codec, later: Codec, hmac: Hmac, publicId: string, secret: string,
                                    raw: string, stored: Option<int>)
    requires CollisionFree(hmac)
    requires Valid(issuer) && issuer.active >= 0 && Issuable(publicId, secret) && ':' !in publicId && ':' !in secret
    requires Valid(later) && issuer.active !in later.peppers
    ensures !Verify(later, hmac, raw, Issue(issuer, hmac, publicId, secret).digest, stored)
  {
    hide ParseKey, Payload, PrintInt, KeyText, CollisionFree, ReadNat, PrintKey;
    DigestIsOfOneKey(hmac, later.peppers[later.active], issuer.peppers[issuer.active], publicId, secret, issuer.active,
                     ParsedKey(publicId, secret, 0));
    if ParseKey(raw).Success? {
      var parsed := ParseKey(raw).value;
      var digits := ParsedKeyText(raw);
      if parsed.version in later.peppers {
        DigestIsOfOneKey(hmac, later.peppers[parsed.version], issuer.peppers[issuer.active], publicId, secret,
            issuer.active, parsed);
      }
    }
  }
}
