/** Argon2id password strings: printing a hash as a PHC string, parsing one, and
    comparing a password with a stored string. The key derivation itself is a
    parameter whose output has the requested length. */
module Phc {
  import opened Text
  import opened Base64

  const MAX_INT := 0x7fff_ffff_ffff_ffff

  type Uint32 = n: int | 0 <= n < 0x1_0000_0000
  type Uint8 = n: int | 0 <= n < 0x100

  datatype Params = Params(saltLength: int, time: Uint32, memory: Uint32, threads: Uint8, keyLength: Uint32)
  datatype RawHash = RawHash(salt: seq<Byte>, hash: seq<Byte>, params: Params)
  datatype HashResult = HashResult(salt: string, hash: string, params: Params, phc: string)

  /** argon2.IDKey: password, salt, time, memory, threads, key length. */
  type KeyDerivation = (seq<Byte>, seq<Byte>, Uint32, Uint32, Uint8, Uint32) -> seq<Byte>

  ghost predicate GivesKeyLength(idKey: KeyDerivation) {
    forall p, s, t, m, h, n :: |idKey(p, s, t, m, h, n)| == n
  }

  // ---------------------------------------------------------------- decimals

  predicate IsDigit(c: char) {
    '0' <= c <= '9'
  }

  predicate AllDigits(s: string) {
    |s| > 0 && forall i :: 0 <= i < |s| ==> IsDigit(s[i])
  }

  function DigitChar(d: int): char
    requires 0 <= d < 10
  {
    ('0' as int + d) as char
  }

  /** %d of a non-negative number. */
  function Print(n: nat): string {
    if n < 10 then [DigitChar(n)] else Print(n / 10) + [DigitChar(n % 10)]
  }

  function Digits(s: string): nat
    requires forall i :: 0 <= i < |s| ==> IsDigit(s[i])
  {
    if |s| == 0 then 0 else assert IsDigit(s[|s| - 1]); Digits(s[..|s| - 1]) * 10 + (s[|s| - 1] as int - '0' as int)
  }

  /** strconv.Atoi on a run of digits. */
  function Atoi(s: string): Option<int>
    requires AllDigits(s)
  {
    if Digits(s) <= MAX_INT then Some(Digits(s)) else None
  }

  predicate NoLeadingZero(s: string) {
    AllDigits(s) && (|s| == 1 || s[0] != '0')
  }

  lemma {:induction false} PrintIsPlain(n: nat)
    ensures NoLeadingZero(Print(n)) && Digits(Print(n)) == n && (n > 0 ==> Print(n)[0] != '0')
  {
    if n >= 10 {
      PrintIsPlain(n / 10);
      assert Print(n)[..|Print(n)| - 1] == Print(n / 10);
    }
  }

  lemma {:induction false} DigitsPositive(s: string)
    requires AllDigits(s) && s[0] != '0'
    ensures Digits(s) > 0
  {
    if |s| > 1 {
      DigitsPositive(s[..|s| - 1]);
    } else {
      assert s[..0] == "";
    }
  }

  lemma {:induction false} PrintDigits(s: string)
    requires NoLeadingZero(s)
    ensures Print(Digits(s)) == s
  {
    var front, d := s[..|s| - 1], s[|s| - 1] as int - '0' as int;
    assert IsDigit(s[|s| - 1]);
    if |s| == 1 {
      assert front == "" && s == [DigitChar(d)];
    } else {
      assert NoLeadingZero(front);
      PrintDigits(front);
      DigitsPositive(front);
      assert s == front + [DigitChar(d)];
    }
  }

  /** Reading then printing restores the digits exactly when there is no leading zero. */
  lemma PrintDigitsIff(s: string)
    requires AllDigits(s)
    ensures Print(Digits(s)) == s <==> NoLeadingZero(s)
  {
    PrintIsPlain(Digits(s));
    if NoLeadingZero(s) {
      PrintDigits(s);
    }
  }

  // --------------------------------------------------------------- splitting

  /** strings.Split on a one-character separator. */
  function Split(s: string, c: char): (parts: seq<string>)
    ensures |parts| > 0
  {
    if |s| == 0 then [""]
    else
      var rest := Split(s[1..], c);
      if s[0] == c then [""] + rest else [[s[0]] + rest[0]] + rest[1..]
  }

  lemma {:induction false} SplitFree(s: string, c: char)
    requires c !in s
    ensures Split(s, c) == [s]
  {
    if |s| > 0 {
      SplitFree(s[1..], c);
      assert s == [s[0]] + s[1..];
    }
  }

  lemma {:induction false} SplitAt(a: string, b: string, c: char)
    requires c !in a
    ensures Split(a + [c] + b, c) == [a] + Split(b, c)
  {
    var s := a + [c] + b;
    if |a| == 0 {
      assert s[1..] == b && s[0] == c;
    } else {
      assert s[1..] == a[1..] + [c] + b && s[0] == a[0];
      SplitAt(a[1..], b, c);
      assert a == [a[0]] + a[1..];
    }
  }

  /** Splitting undoes joining parts that are free of the separator. */
  lemma {:induction false} SplitJoin(parts: seq<string>, c: char)
    requires |parts| > 0 && forall i :: 0 <= i < |parts| ==> c !in parts[i]
    ensures Split(Join(parts, [c]), c) == parts
  {
    if |parts| == 1 {
      SplitFree(parts[0], c);
    } else {
      SplitJoin(parts[1..], c);
      SplitAt(parts[0], Join(parts[1..], [c]), c);
      assert [parts[0]] + parts[1..] == parts;
    }
  }

  /** Joining the parts gives the text back. */
  lemma {:induction false} JoinSplit(s: string, c: char)
    ensures Join(Split(s, c), [c]) == s
  {
    if |s| > 0 {
      var rest := Split(s[1..], c);
      JoinSplit(s[1..], c);
      if s[0] == c {
        assert ([""] + rest)[1..] == rest;
        assert Join([""] + rest, [c]) == "" + [c] + Join(rest, [c]);
        assert s == [c] + s[1..];
      } else {
        var first := [s[0]] + rest[0];
        assert ([first] + rest[1..])[1..] == rest[1..];
        assert s == [s[0]] + s[1..];
        if |rest| > 1 {
          assert Join([first] + rest[1..], [c]) == first + [c] + Join(rest[1..], [c]);
          assert Join(rest, [c]) == rest[0] + [c] + Join(rest[1..], [c]);
        } else {
          assert [first] + rest[1..] == [first];
        }
      }
    }
  }

  /** A text determines its parts and the parts the text. */
  lemma SplitInjective(s: string, t: string, c: char)
    ensures Split(s, c) == Split(t, c) <==> s == t
  {
    JoinSplit(s, c);
    JoinSplit(t, c);
  }

  // -------------------------------------------------------------- PHC strings

  /** $argon2id$v=19$m=<memory>,t=<time>,p=<threads>$<salt>$<hash> */
  function PhcText(p: Params, salt: string, hash: string): string {
    Join(["", "argon2id", "v=19", ParamText(p), salt, hash], "$")
  }

  function ParamText(p: Params): string {
    Join(["m=" + Print(p.memory), "t=" + Print(p.time), "p=" + Print(p.threads)], ",")
  }

  function Encode(rh: RawHash): HashResult {
    var salt, hash := Base64.Encode(rh.salt), Base64.Encode(rh.hash);
    HashResult(salt, hash, rh.params, PhcText(rh.params, salt, hash))
  }

  /** The digits of a field `<name>=<digits>`. */
  function FieldDigits(field: string, name: string): Option<string> {
    if |field| > 2 && field[..2] == name && AllDigits(field[2..]) then Some(field[2..]) else None
  }

  /** ^m=([0-9]+),t=([0-9]+),p=([0-9]+)$ */
  function MatchParams(s: string): Option<(string, string, string)> {
    var fields := Split(s, ',');
    if |fields| != 3 then None
    else
      var m, t, p := FieldDigits(fields[0], "m="), FieldDigits(fields[1], "t="), FieldDigits(fields[2], "p=");
      if m.Some? && t.Some? && p.Some? then Some((m.value, t.value, p.value)) else None
  }

  lemma MatchedDigits(s: string)
    ensures MatchParams(s).Some? ==>
            var (m, t, p) := MatchParams(s).value; AllDigits(m) && AllDigits(t) && AllDigits(p)
  {
  }

  /** Memory, time and threads; conversions to narrower integers wrap. */
  function ParseParams(s: string): Option<(Uint32, Uint32, Uint8)> {
    var found := MatchParams(s);
    if found.None? then None
    else
      MatchedDigits(s);
      var (ms, ts, ps) := found.value;
      var m, t, p := Atoi(ms), Atoi(ts), Atoi(ps);
      if m.None? || t.None? || p.None? then None
      else Some((m.value % 0x1_0000_0000, t.value % 0x1_0000_0000, p.value % 0x100))
  }

  /** The algorithm and version fields are not looked at. */
  function ParsePHC(phc: string): Option<HashResult> {
    var parts := Split(phc, '$');
    if |parts| != 6 then None
    else
      var params := ParseParams(parts[3]);
      if params.None? then None
      else
        var salt, hash := Base64.Decode(parts[4]), Base64.Decode(parts[5]);
        if salt.None? || hash.None? then None
        else
          var (memory, time, threads) := params.value;
          Some(HashResult(parts[4], parts[5],
                          Params(|salt.value|, time, memory, threads, |hash.value| % 0x1_0000_0000), ""))
  }

  function Decode(hr: HashResult): Option<RawHash> {
    var salt, hash := Base64.Decode(hr.salt), Base64.Decode(hr.hash);
    if salt.None? || hash.None? then None else Some(RawHash(salt.value, hash.value, hr.params))
  }

  /** Hash with a given salt. */
  function Hash(idKey: KeyDerivation, password: seq<Byte>, salt: seq<Byte>, params: Params): RawHash {
    RawHash(salt, idKey(password, salt, params.time, params.memory, params.threads, params.keyLength), params)
  }

  function Compare(idKey: KeyDerivation, password: seq<Byte>, hr: HashResult): Option<bool> {
    var raw := Decode(hr);
    if raw.None? then None
    else Some(Encode(Hash(idKey, password, raw.value.salt, raw.value.params)).hash == hr.hash)
  }

  // ------------------------------------------------------------------ results

  lemma DigitsHaveNo(s: string, c: char)
    requires AllDigits(s) && !IsDigit(c)
    ensures c !in s
  {
  }

  lemma FieldOf(name: string, digits: string)
    requires |name| == 2 && AllDigits(digits)
    ensures FieldDigits(name + digits, name) == Some(digits)
  {
    assert (name + digits)[..2] == name && (name + digits)[2..] == digits;
  }

  lemma ParamFields(p: Params)
    ensures Split(ParamText(p), ',') == ["m=" + Print(p.memory), "t=" + Print(p.time), "p=" + Print(p.threads)]
  {
    PrintIsPlain(p.memory);
    PrintIsPlain(p.time);
    PrintIsPlain(p.threads);
    DigitsHaveNo(Print(p.memory), ',');
    DigitsHaveNo(Print(p.time), ',');
    DigitsHaveNo(Print(p.threads), ',');
    SplitJoin(["m=" + Print(p.memory), "t=" + Print(p.time), "p=" + Print(p.threads)], ',');
  }

  lemma AtoiPrint(n: nat)
    requires n <= MAX_INT
    ensures AllDigits(Print(n)) && Atoi(Print(n)) == Some(n)
  {
    PrintIsPlain(n);
  }

  lemma MatchOf(s: string, fields: seq<string>, m: string, t: string, p: string)
    requires Split(s, ',') == fields && |fields| == 3
    requires FieldDigits(fields[0], "m=") == Some(m) && FieldDigits(fields[1], "t=") == Some(t)
    requires FieldDigits(fields[2], "p=") == Some(p)
    ensures MatchParams(s) == Some((m, t, p))
  {
  }

  lemma ParamTextMatches(p: Params)
    ensures MatchParams(ParamText(p)) == Some((Print(p.memory), Print(p.time), Print(p.threads)))
  {
    var m, t, q := Print(p.memory), Print(p.time), Print(p.threads);
    ParamFields(p);
    AtoiPrint(p.memory);
    AtoiPrint(p.time);
    AtoiPrint(p.threads);
    FieldOf("m=", m);
    FieldOf("t=", t);
    FieldOf("p=", q);
    MatchOf(ParamText(p), ["m=" + m, "t=" + t, "p=" + q], m, t, q);
  }

  lemma ParsesParamText(p: Params)
    ensures ParseParams(ParamText(p)) == Some((p.memory, p.time, p.threads))
  {
    ParamTextMatches(p);
    AtoiPrint(p.memory);
    AtoiPrint(p.time);
    AtoiPrint(p.threads);
  }

  /** Any three runs of digits parse, leading zeros included, unless one is beyond a signed
      64-bit integer; memory and time keep 32 bits of what is left, threads 8. */
  lemma ParsesNumbers(m: string, t: string, p: string)
    requires AllDigits(m) && AllDigits(t) && AllDigits(p)
    ensures ParseParams(Join(["m=" + m, "t=" + t, "p=" + p], ","))
         == if Digits(m) >= 0x8000_0000_0000_0000 || Digits(t) >= 0x8000_0000_0000_0000 || Digits(p) >= 0x8000_0000_0000_0000 then None
            else Some((Digits(m) % 0x1_0000_0000, Digits(t) % 0x1_0000_0000, Digits(p) % 0x100))
  {
    var fields := ["m=" + m, "t=" + t, "p=" + p];
    DigitsHaveNo(m, ',');
    DigitsHaveNo(t, ',');
    DigitsHaveNo(p, ',');
    SplitJoin(fields, ',');
    FieldOf("m=", m);
    FieldOf("t=", t);
    FieldOf("p=", p);
    MatchOf(Join(fields, ","), fields, m, t, p);
  }

  /** And nothing else does. */
  lemma OnlyNumbersParse(s: string) returns (m: string, t: string, p: string)
    requires ParseParams(s).Some?
    ensures AllDigits(m) && AllDigits(t) && AllDigits(p) && s == Join(["m=" + m, "t=" + t, "p=" + p], ",")
  {
    MatchedDigits(s);
    var found := MatchParams(s).value;
    m, t, p := found.0, found.1, found.2;
    var fields := Split(s, ',');
    assert fields[0] == "m=" + m && fields[1] == "t=" + t && fields[2] == "p=" + p;
    RejoinsThree(s, fields, "m=" + m, "t=" + t, "p=" + p);
  }

  lemma ParamTextHasNoDollar(p: Params)
    ensures '$' !in ParamText(p)
  {
    PrintIsPlain(p.memory);
    PrintIsPlain(p.time);
    PrintIsPlain(p.threads);
    DigitsHaveNo(Print(p.memory), '$');
    DigitsHaveNo(Print(p.time), '$');
    DigitsHaveNo(Print(p.threads), '$');
    JoinHasNo(["m=" + Print(p.memory), "t=" + Print(p.time), "p=" + Print(p.threads)], ",", '$');
  }

  lemma {:induction false} JoinHasNo(parts: seq<string>, sep: string, c: char)
    requires c !in sep && forall i :: 0 <= i < |parts| ==> c !in parts[i]
    ensures c !in Join(parts, sep)
  {
    if |parts| > 1 {
      JoinHasNo(parts[1..], sep, c);
    }
  }

  lemma PhcParts(p: Params, salt: string, hash: string)
    requires AllSymbols(salt) && AllSymbols(hash)
    ensures Split(PhcText(p, salt, hash), '$') == ["", "argon2id", "v=19", ParamText(p), salt, hash]
  {
    ParamTextHasNoDollar(p);
    SymbolsAreNotDollar(salt);
    SymbolsAreNotDollar(hash);
    SplitJoin(["", "argon2id", "v=19", ParamText(p), salt, hash], '$');
  }

  /** The hash record agrees with its parameters. */
  predicate Sized(rh: RawHash) {
    |rh.salt| == rh.params.saltLength && |rh.hash| == rh.params.keyLength
  }

  lemma ParsesParts(phc: string, parts: seq<string>, p: Params, salt: seq<Byte>, hash: seq<Byte>)
    requires Split(phc, '$') == parts && |parts| == 6
    requires ParseParams(parts[3]) == Some((p.memory, p.time, p.threads))
    requires Base64.Decode(parts[4]) == Some(salt) && Base64.Decode(parts[5]) == Some(hash)
    requires |salt| == p.saltLength && |hash| == p.keyLength
    ensures ParsePHC(phc) == Some(HashResult(parts[4], parts[5], p, ""))
  {
  }

  /** What stands before the parameters is not looked at. */
  lemma PrefixIgnored(a: string, b: string, c: string, params: string, salt: string, hash: string)
    requires '$' !in a && '$' !in b && '$' !in c && '$' !in params && '$' !in salt && '$' !in hash
    ensures var numbers, s, h := ParseParams(params), Base64.Decode(salt), Base64.Decode(hash);
            ParsePHC(Join([a, b, c, params, salt, hash], "$"))
            == if numbers.None? || s.None? || h.None? then None
               else Some(HashResult(salt, hash, Params(|s.value|, numbers.value.1, numbers.value.0, numbers.value.2,
                                                       |h.value| % 0x1_0000_0000), ""))
  {
    SplitJoin([a, b, c, params, salt, hash], '$');
  }

  /** Only texts of six parts parse. */
  lemma SixParts(phc: string)
    ensures ParsePHC(phc).Some? ==> |Split(phc, '$')| == 6 && Join(Split(phc, '$'), "$") == phc
  {
    JoinSplit(phc, '$');
  }

  /** Printing, parsing and decoding give the hash back. */
  lemma PhcRoundTrip(rh: RawHash)
    requires Sized(rh)
    ensures var parsed := ParsePHC(Encode(rh).phc);
            parsed == Some(Encode(rh).(phc := "")) && Decode(parsed.value) == Some(rh)
  {
    var salt, hash := Base64.Encode(rh.salt), Base64.Encode(rh.hash);
    EncodeIsCanonical(rh.salt);
    EncodeIsCanonical(rh.hash);
    PhcParts(rh.params, salt, hash);
    ParsesParamText(rh.params);
    Base64.RoundTrip(rh.salt);
    Base64.RoundTrip(rh.hash);
    ParsesParts(Encode(rh).phc, ["", "argon2id", "v=19", ParamText(rh.params), salt, hash], rh.params, rh.salt, rh.hash);
  }

  /** What makes a PHC string canonical: the fixed prefix, numbers in range
      without leading zeros, and canonical base64. */
  predicate CanonicalPHC(phc: string) {
    var parts := Split(phc, '$');
    |parts| == 6 && parts[0] == "" && parts[1] == "argon2id" && parts[2] == "v=19"
    && CanonicalParams(parts[3]) && Base64.Canonical(parts[4]) && Base64.Canonical(parts[5])
  }

  predicate CanonicalParams(s: string) {
    MatchedDigits(s);
    var found := MatchParams(s);
    found.Some? &&
    var (m, t, p) := found.value;
    NoLeadingZero(m) && NoLeadingZero(t) && NoLeadingZero(p)
    && Digits(m) < 0x1_0000_0000 && Digits(t) < 0x1_0000_0000 && Digits(p) < 0x100
  }

  lemma FieldReprints(field: string, name: string, digits: string, n: nat)
    requires FieldDigits(field, name) == Some(digits) && n == Digits(digits)
    ensures field == name + Print(n) <==> NoLeadingZero(digits)
  {
    PrintDigitsIff(digits);
    assert field == name + digits;
    assert field[2..] == digits && (name + Print(n))[2..] == Print(n);
  }

  lemma CanonicalReprints(s: string, fields: seq<string>, p: Params)
    requires fields == Split(s, ',') && CanonicalParams(s) && ParseParams(s) == Some((p.memory, p.time, p.threads))
    ensures ParamText(p) == s
  {
    var (m, t, q) := MatchParams(s).value;
    FieldReprints(fields[0], "m=", m, p.memory);
    FieldReprints(fields[1], "t=", t, p.time);
    FieldReprints(fields[2], "p=", q, p.threads);
    RejoinsThree(s, fields, fields[0], fields[1], fields[2]);
  }

  lemma RejoinsThree(s: string, fields: seq<string>, a: string, b: string, c: string)
    requires fields == Split(s, ',') && |fields| == 3 && fields[0] == a && fields[1] == b && fields[2] == c
    ensures Join([a, b, c], ",") == s
  {
    assert fields == [a, b, c];
    JoinSplit(s, ',');
  }

  lemma CanonicalParamText(s: string, p: Params)
    requires ParseParams(s) == Some((p.memory, p.time, p.threads))
    ensures ParamText(p) == s <==> CanonicalParams(s)
  {
    if CanonicalParams(s) {
      CanonicalReprints(s, Split(s, ','), p);
    } else if ParamText(p) == s {
      ParamTextMatches(p);
      PrintIsPlain(p.memory);
      PrintIsPlain(p.time);
      PrintIsPlain(p.threads);
    }
  }

  /** A parsed string prints back to itself exactly when it is canonical. */
  lemma ReprintIff(phc: string)
    requires ParsePHC(phc).Some?
    ensures Decode(ParsePHC(phc).value).Some?
    ensures Encode(Decode(ParsePHC(phc).value).value).phc == phc <==> CanonicalPHC(phc)
  {
    var parts, hr := Split(phc, '$'), ParsePHC(phc).value;
    var raw := Decode(hr).value;
    var salt, hash := Base64.Encode(raw.salt), Base64.Encode(raw.hash);
    EncodeIsCanonical(raw.salt);
    EncodeIsCanonical(raw.hash);
    PhcParts(hr.params, salt, hash);
    SplitInjective(Encode(raw).phc, phc, '$');
    CanonicalParamText(parts[3], hr.params);
    CanonicalIff(parts[4]);
    CanonicalIff(parts[5]);
    var printed := ["", "argon2id", "v=19", ParamText(hr.params), salt, hash];
    assert printed == parts <==> forall i :: 0 <= i < 6 ==> printed[i] == parts[i];
  }

  /** For every record that decodes: a password matches exactly when the stored hash is
      canonical base64 and the key derived from the password, under the stored salt and
      parameters, is the bytes that it decodes to. */
  lemma CompareIff(idKey: KeyDerivation, given: seq<Byte>, hr: HashResult)
    requires Decode(hr).Some?
    ensures var salt, hash, p := Base64.Decode(hr.salt).value, Base64.Decode(hr.hash).value, hr.params;
            Compare(idKey, given, hr)
            == Some(Base64.Canonical(hr.hash) && idKey(given, salt, p.time, p.memory, p.threads, p.keyLength) == hash)
  {
    var raw := Decode(hr).value;
    var derived := Hash(idKey, given, raw.salt, raw.params).hash;
    EncodeIsCanonical(derived);
    CanonicalIff(hr.hash);
    EncodeInjective(derived, raw.hash);
  }

  /** Logging in: a password matches the stored string of another exactly when both derive
      the same key from the salt and the parameters that the string was made with. */
  lemma LoginIsKeyEquality(idKey: KeyDerivation, stored: seq<Byte>, given: seq<Byte>, salt: seq<Byte>, p: Params)
    requires GivesKeyLength(idKey) && |salt| == p.saltLength
    ensures var phc := Encode(Hash(idKey, stored, salt, p)).phc;
            ParsePHC(phc).Some? &&
            Compare(idKey, given, ParsePHC(phc).value)
            == Some(idKey(given, salt, p.time, p.memory, p.threads, p.keyLength)
                    == idKey(stored, salt, p.time, p.memory, p.threads, p.keyLength))
  {
    var rh := Hash(idKey, stored, salt, p);
    PhcRoundTrip(rh);
    CompareIff(idKey, given, ParsePHC(Encode(rh).phc).value);
    EncodeIsCanonical(rh.hash);
  }

  /** So the stored password logs in, and no other does whose key is not the same. */
  lemma LoginIff(idKey: KeyDerivation, stored: seq<Byte>, given: seq<Byte>, salt: seq<Byte>, p: Params)
    requires GivesKeyLength(idKey) && |salt| == p.saltLength
    requires given != stored ==>
               idKey(given, salt, p.time, p.memory, p.threads, p.keyLength) != idKey(stored, salt, p.time, p.memory, p.threads, p.keyLength)
    ensures var parsed := ParsePHC(Encode(Hash(idKey, stored, salt, p)).phc);
            parsed.Some? && (Compare(idKey, given, parsed.value) == Some(true) <==> given == stored)
  {
    LoginIsKeyEquality(idKey, stored, given, salt, p);
  }

  /** A stored hash that is not canonical base64 never matches any password. */
  lemma NonCanonicalNeverMatches(idKey: KeyDerivation, given: seq<Byte>, hr: HashResult)
    requires Decode(hr).Some? && !Base64.Canonical(hr.hash)
    ensures Compare(idKey, given, hr) == Some(false)
  {
    CompareIff(idKey, given, hr);
  }
}
