/** Unpadded standard base64 (sections 3.2, 3.5 and 4 of RFC 4648) as Go's
    RawStdEncoding computes it: carriage returns and newlines are skipped on
    decoding, and left-over bits of the last symbol are ignored. */
module Base64 {
  import opened Text

  type Byte = b: int | 0 <= b < 256
  type Sextet = v: int | 0 <= v < 64

  function Symbol(v: Sextet): char {
    if v < 26 then ('A' as int + v) as char
    else if v < 52 then ('a' as int + v - 26) as char
    else if v < 62 then ('0' as int + v - 52) as char
    else if v == 62 then '+' else '/'
  }

  function ValueOf(c: char): Option<Sextet> {
    if 'A' <= c <= 'Z' then Some(c as int - 'A' as int)
    else if 'a' <= c <= 'z' then Some(c as int - 'a' as int + 26)
    else if '0' <= c <= '9' then Some(c as int - '0' as int + 52)
    else if c == '+' then Some(62) else if c == '/' then Some(63) else None
  }

  lemma SymbolValue(v: Sextet)
    ensures ValueOf(Symbol(v)) == Some(v)
  {
  }

  lemma ValueSymbol(c: char)
    requires ValueOf(c).Some?
    ensures Symbol(ValueOf(c).value) == c
  {
  }

  /** One, two or three bytes as two, three or four sextets. */
  function Sextets(bs: seq<Byte>): (vs: seq<Sextet>)
    requires 1 <= |bs| <= 3
    ensures |vs| == |bs| + 1
  {
    if |bs| == 1 then [bs[0] / 4, bs[0] % 4 * 16]
    else if |bs| == 2 then [bs[0] / 4, bs[0] % 4 * 16 + bs[1] / 16, bs[1] % 16 * 4]
    else [bs[0] / 4, bs[0] % 4 * 16 + bs[1] / 16, bs[1] % 16 * 4 + bs[2] / 64, bs[2] % 64]
  }

  /** The whole bytes of two, three or four sextets. */
  function Bytes(vs: seq<Sextet>): (bs: seq<Byte>)
    requires 2 <= |vs| <= 4
    ensures |bs| == |vs| - 1
  {
    var v0: int, v1: int := vs[0], vs[1];
    if |vs| == 2 then [v0 * 4 + v1 / 16]
    else
      var v2: int := vs[2];
      if |vs| == 3 then [v0 * 4 + v1 / 16, v1 % 16 * 16 + v2 / 4]
      else
        var v3: int := vs[3];
        [v0 * 4 + v1 / 16, v1 % 16 * 16 + v2 / 4, v2 % 4 * 64 + v3]
  }

  /** The bits of the last sextet that no byte uses. */
  predicate SpareZero(vs: seq<Sextet>) {
    (|vs| == 2 ==> vs[1] % 16 == 0) && (|vs| == 3 ==> vs[2] % 4 == 0)
  }

  lemma BytesOfSextets(bs: seq<Byte>)
    requires 1 <= |bs| <= 3
    ensures Bytes(Sextets(bs)) == bs && SpareZero(Sextets(bs))
  {
  }

  lemma HighBits(x: Sextet, y: Sextet)
    ensures (x * 4 + y / 16) / 4 == x && (x * 4 + y / 16) % 4 == y / 16
  {
  }

  lemma MiddleBits(x: Sextet, y: Sextet)
    ensures (x % 16 * 16 + y / 4) / 16 == x % 16 && (x % 16 * 16 + y / 4) % 16 == y / 4
  {
  }

  lemma LowBits(x: Sextet, y: Sextet)
    ensures (x % 4 * 64 + y) / 64 == x % 4 && (x % 4 * 64 + y) % 64 == y
  {
  }

  lemma SextetsOfBytes(vs: seq<Sextet>)
    requires 2 <= |vs| <= 4
    ensures Sextets(Bytes(vs)) == vs <==> SpareZero(vs)
  {
    HighBits(vs[0], vs[1]);
    if |vs| > 2 {
      MiddleBits(vs[1], vs[2]);
    }
    if |vs| == 4 {
      LowBits(vs[2], vs[3]);
    }
  }

  predicate IsSymbol(c: char) {
    ValueOf(c).Some?
  }

  predicate AllSymbols(s: string) {
    forall i :: 0 <= i < |s| ==> IsSymbol(s[i])
  }

  function Symbols(vs: seq<Sextet>): (s: string)
    ensures |s| == |vs|
    ensures forall i :: 0 <= i < |vs| ==> s[i] == Symbol(vs[i])
  {
    seq(|vs|, i requires 0 <= i < |vs| => Symbol(vs[i]))
  }

  function Values(s: string): (vs: seq<Sextet>)
    requires AllSymbols(s)
    ensures |vs| == |s|
    ensures forall i :: 0 <= i < |s| ==> Some(vs[i]) == ValueOf(s[i])
  {
    seq(|s|, i requires 0 <= i < |s| => ValueOf(s[i]).value)
  }

  lemma ValuesOfSymbols(vs: seq<Sextet>)
    ensures AllSymbols(Symbols(vs)) && Values(Symbols(vs)) == vs
  {
    forall i | 0 <= i < |vs| ensures ValueOf(Symbols(vs)[i]) == Some(vs[i]) {
      SymbolValue(vs[i]);
    }
  }

  lemma SymbolsOfValues(s: string)
    requires AllSymbols(s)
    ensures Symbols(Values(s)) == s
  {
    forall i | 0 <= i < |s| ensures Symbols(Values(s))[i] == s[i] {
      ValueSymbol(s[i]);
    }
  }

  function EncodeSextets(bs: seq<Byte>): seq<Sextet> {
    if |bs| == 0 then [] else if |bs| <= 3 then Sextets(bs) else Sextets(bs[..3]) + EncodeSextets(bs[3..])
  }

  /** A single left-over sextet carries no whole byte. */
  function DecodeSextets(vs: seq<Sextet>): seq<Byte>
    requires |vs| % 4 != 1
  {
    if |vs| == 0 then [] else if |vs| <= 4 then Bytes(vs) else Bytes(vs[..4]) + DecodeSextets(vs[4..])
  }

  function Encode(bs: seq<Byte>): string {
    Symbols(EncodeSextets(bs))
  }

  function SkipNewlines(s: string): string {
    if |s| == 0 then "" else (if s[0] == '\n' || s[0] == '\r' then "" else [s[0]]) + SkipNewlines(s[1..])
  }

  function Decode(s: string): Option<seq<Byte>> {
    var t := SkipNewlines(s);
    if AllSymbols(t) && |t| % 4 != 1 then Some(DecodeSextets(Values(t))) else None
  }

  /** The spare bits of the last sextet are zero (section 3.5 of RFC 4648). */
  predicate ZeroSpareBits(vs: seq<Sextet>) {
    (|vs| % 4 == 2 ==> vs[|vs| - 1] % 16 == 0) && (|vs| % 4 == 3 ==> vs[|vs| - 1] % 4 == 0)
  }

  predicate Canonical(s: string) {
    AllSymbols(s) && |s| % 4 != 1 && ZeroSpareBits(Values(s))
  }

  lemma {:induction false} NoNewlines(s: string)
    requires AllSymbols(s)
    ensures SkipNewlines(s) == s
  {
    if |s| > 0 {
      assert IsSymbol(s[0]);
      NoNewlines(s[1..]);
    }
  }

  lemma {:induction false} SkippedIsClean(s: string)
    ensures '\n' !in SkipNewlines(s) && '\r' !in SkipNewlines(s)
    ensures |SkipNewlines(s)| <= |s| && (|SkipNewlines(s)| == |s| ==> SkipNewlines(s) == s)
  {
    if |s| > 0 {
      SkippedIsClean(s[1..]);
    }
  }

  lemma DecodeCons(head: seq<Sextet>, rest: seq<Sextet>)
    requires |head| == 4 && |rest| > 0 && |rest| % 4 != 1
    ensures |head + rest| % 4 == |rest| % 4 && DecodeSextets(head + rest) == Bytes(head) + DecodeSextets(rest)
  {
    assert (head + rest)[..4] == head && (head + rest)[4..] == rest;
  }

  lemma SpareCons(head: seq<Sextet>, rest: seq<Sextet>)
    requires |head| == 4 && |rest| > 0
    ensures ZeroSpareBits(head + rest) <==> ZeroSpareBits(rest)
  {
    assert (head + rest)[|head + rest| - 1] == rest[|rest| - 1];
  }

  lemma {:induction false} DecodeEncoded(bs: seq<Byte>)
    ensures var vs := EncodeSextets(bs);
            |vs| % 4 != 1 && ZeroSpareBits(vs) && DecodeSextets(vs) == bs && (|vs| == 0 <==> |bs| == 0)
  {
    if 0 < |bs| <= 3 {
      BytesOfSextets(bs);
    } else if |bs| > 3 {
      BytesOfSextets(bs[..3]);
      DecodeEncoded(bs[3..]);
      DecodeCons(Sextets(bs[..3]), EncodeSextets(bs[3..]));
      SpareCons(Sextets(bs[..3]), EncodeSextets(bs[3..]));
      assert bs == bs[..3] + bs[3..];
    }
  }

  lemma EncodeIsCanonical(bs: seq<Byte>)
    ensures Canonical(Encode(bs))
  {
    DecodeEncoded(bs);
    ValuesOfSymbols(EncodeSextets(bs));
  }

  /** Every byte sequence survives encoding and decoding. */
  lemma RoundTrip(bs: seq<Byte>)
    ensures Decode(Encode(bs)) == Some(bs)
  {
    DecodeEncoded(bs);
    ValuesOfSymbols(EncodeSextets(bs));
    NoNewlines(Encode(bs));
  }

  lemma {:induction false} EncodeDecoded(vs: seq<Sextet>)
    requires |vs| % 4 != 1 && ZeroSpareBits(vs)
    ensures EncodeSextets(DecodeSextets(vs)) == vs
  {
    if 0 < |vs| <= 4 {
      SextetsOfBytes(vs);
    } else if |vs| > 4 {
      SextetsOfBytes(vs[..4]);
      EncodeDecoded(vs[4..]);
      var bs := DecodeSextets(vs);
      assert bs[..3] == Bytes(vs[..4]) && bs[3..] == DecodeSextets(vs[4..]);
      assert vs == vs[..4] + vs[4..];
    }
  }

  /** Decoding then encoding restores the text exactly when it was canonical. */
  lemma CanonicalIff(s: string)
    requires Decode(s).Some?
    ensures Encode(Decode(s).value) == s <==> Canonical(s)
  {
    if Canonical(s) {
      NoNewlines(s);
      EncodeDecoded(Values(s));
      SymbolsOfValues(s);
    } else if Encode(Decode(s).value) == s {
      EncodeIsCanonical(Decode(s).value);
    }
  }

  /** No two byte sequences encode alike. */
  lemma EncodeInjective(a: seq<Byte>, b: seq<Byte>)
    ensures Encode(a) == Encode(b) <==> a == b
  {
    RoundTrip(a);
    RoundTrip(b);
  }

  /** The symbols of table 1 of RFC 4648. */
  predicate InTable(c: char) {
    'A' <= c <= 'Z' || 'a' <= c <= 'z' || '0' <= c <= '9' || c == '+' || c == '/'
  }

  /** Symbols and line breaks only. */
  predicate TableText(s: string) {
    forall i :: 0 <= i < |s| ==> InTable(s[i]) || s[i] == '\n' || s[i] == '\r'
  }

  lemma TextCons(c: char, rest: string)
    ensures TableText([c] + rest) <==> (InTable(c) || c == '\n' || c == '\r') && TableText(rest)
  {
    var s := [c] + rest;
    assert forall i :: 0 <= i < |rest| ==> rest[i] == s[i + 1];
    if TableText(s) {
      assert s[0] == c;
    }
  }

  lemma {:induction false} SkipKeeps(s: string)
    ensures |SkipNewlines(s)| == |s| - Count(s, '\n') - Count(s, '\r')
    ensures AllSymbols(SkipNewlines(s)) <==> TableText(s)
  {
    if |s| > 0 {
      var rest := SkipNewlines(s[1..]);
      SkipKeeps(s[1..]);
      TextCons(s[0], s[1..]);
      assert s == [s[0]] + s[1..];
      if s[0] == '\n' || s[0] == '\r' {
        assert SkipNewlines(s) == rest;
      } else {
        FirstSymbol(s[0], rest);
        assert SkipNewlines(s) == [s[0]] + rest;
      }
    }
  }

  lemma FirstSymbol(c: char, rest: string)
    ensures AllSymbols([c] + rest) <==> InTable(c) && AllSymbols(rest)
  {
    if AllSymbols([c] + rest) {
      assert IsSymbol(([c] + rest)[0]);
      forall i | 0 <= i < |rest| ensures IsSymbol(rest[i]) {
        assert ([c] + rest)[i + 1] == rest[i];
      }
    }
  }

  /** A text decodes exactly when, line breaks aside, it has symbols of the table only and
      their number is not one more than a multiple of four; bits left over do not matter. */
  lemma DecodesIff(s: string)
    ensures Decode(s).Some? <==>
            && TableText(s)
            && (|s| - Count(s, '\n') - Count(s, '\r')) % 4 != 1
  {
    SkipKeeps(s);
  }

  /** Texts known from section 10 of RFC 4648, without the padding, and one with the last
      two symbols of its table 1. */
  lemma KnownTexts()
    ensures Encode([102]) == "Zg" && Encode([102, 111]) == "Zm8" && Encode([102, 111, 111]) == "Zm9v"
    ensures Encode([251, 255]) == "+/8"
  {
    assert EncodeSextets([102]) == [25, 32] && EncodeSextets([102, 111]) == [25, 38, 60];
    assert [102, 111, 111][3..] == [];
    assert EncodeSextets([102, 111, 111]) == [25, 38, 61, 47];
    assert EncodeSextets([251, 255]) == [62, 63, 60];
  }

  lemma {:induction false} SymbolsAreNotDollar(s: string)
    requires AllSymbols(s)
    ensures '$' !in s
  {
    if '$' in s {
      assert IsSymbol('$');
    }
  }
}
