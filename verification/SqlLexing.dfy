/** How the reference lexer reads concatenated and joined text. */
module SqlLexing {
  import opened Text
  import opened SqlGrammar

  /** Cutting text here cannot split a word. */
  predicate Cut(a: string, b: string) {
    |a| == 0 || |b| == 0 || !IsWordChar(a[|a| - 1]) || !IsWordChar(b[0])
  }

  lemma {:induction false} WordLenConcat(a: string, b: string)
    requires Cut(a, b) && |a| > 0
    ensures WordLen(a + b) == WordLen(a)
  {
    assert (a + b)[0] == a[0] && (a + b)[1..] == a[1..] + b;
    if IsWordChar(a[0]) && |a| > 1 {
      WordLenConcat(a[1..], b);
    } else if |a| == 1 {
      assert a[1..] + b == b;
      assert |b| == 0 || !IsWordChar(b[0]) || !IsWordChar(a[0]);
    }
  }

  /** Reading the first word of a text. */
  lemma LexStep(s: string, n: nat, w: string, rest: string)
    requires |s| > 0 && IsWordChar(s[0]) && n == WordLen(s) && w == s[..n] && rest == s[n..]
    ensures Lex(s) == [Classify(w)] + Lex(rest)
  {
    assert s[0] != ' ';
  }

  lemma LexConcatWord(a: string, b: string, n: nat)
    requires Cut(a, b) && |a| > 0 && IsWordChar(a[0]) && n == WordLen(a)
    requires Lex(a[n..] + b) == Lex(a[n..]) + Lex(b)
    ensures Lex(a + b) == Lex(a) + Lex(b)
  {
    WordLenConcat(a, b);
    assert (a + b)[..n] == a[..n] && (a + b)[n..] == a[n..] + b;
    LexStep(a, n, a[..n], a[n..]);
    LexStep(a + b, n, a[..n], a[n..] + b);
    Regroup([Classify(a[..n])], Lex(a[n..]), Lex(b));
  }

  lemma {:induction false} LexConcat(a: string, b: string)
    requires Cut(a, b)
    ensures Lex(a + b) == Lex(a) + Lex(b)
    decreases |a|
  {
    if |a| == 0 {
      assert a + b == b;
    } else if IsWordChar(a[0]) {
      LexConcat(a[WordLen(a)..], b);
      LexConcatWord(a, b, WordLen(a));
    } else {
      assert (a + b)[1..] == a[1..] + b;
      LexConcat(a[1..], b);
    }
  }

  lemma LexConcat3(a: string, b: string, c: string)
    requires Cut(a, b) && Cut(b, c) && |b| > 0
    ensures Lex(a + b + c) == Lex(a) + Lex(b) + Lex(c)
  {
    LexConcat(a, b);
    assert (a + b)[|a + b| - 1] == b[|b| - 1];
    LexConcat(a + b, c);
  }

  predicate AllWordChars(s: string) {
    |s| > 0 && forall i :: 0 <= i < |s| ==> IsWordChar(s[i])
  }

  lemma {:induction false} WordLenAll(s: string)
    requires forall i :: 0 <= i < |s| ==> IsWordChar(s[i])
    ensures WordLen(s) == |s|
  {
    if |s| > 0 {
      WordLenAll(s[1..]);
    }
  }

  lemma LexWord(s: string)
    requires AllWordChars(s)
    ensures Lex(s) == [Classify(s)]
  {
    WordLenAll(s);
    assert s[..|s|] == s && s[|s|..] == [];
    assert IsWordChar(s[0]) && s[0] != ' ';
  }

  lemma LexSymbol(c: char)
    requires !IsWordChar(c)
    ensures Lex([c]) == if c == ' ' then [] else [Punctuation(c)]
  {
    assert [c][1..] == "";
  }

  /** A keyword with a blank on either side. */
  lemma LexSpaced(s: string)
    requires AllWordChars(s)
    ensures Lex(" " + s + " ") == [Classify(s)] && Lex(s + " ") == [Classify(s)] && Lex(" " + s) == [Classify(s)]
  {
    LexWord(s);
    LexSymbol(' ');
    LexConcat(" ", s);
    LexConcat(s, " ");
    LexConcat(" " + s, " ");
  }

  /** A keyword reads as itself, bare or with blanks around it. */
  predicate ReadsAs(w: string, t: Token) {
    Lex(w) == Lex(w + " ") == Lex(" " + w) == Lex(Spaced(w)) == [t]
  }

  lemma Keyword(w: string, t: Token)
    requires AllWordChars(w) && Classify(w) == t
    ensures ReadsAs(w, t)
  {
    LexSpaced(w);
  }

  lemma Uppercase(s: string)
    requires forall i :: 0 <= i < |s| ==> 'A' <= s[i] <= 'Z'
    ensures Upper(s) == s
  {
  }

  lemma ReadSelect() ensures ReadsAs("SELECT", SELECT) { Uppercase("SELECT"); Keyword("SELECT", SELECT); }
  lemma ReadFrom() ensures ReadsAs("FROM", FROM) { Uppercase("FROM"); Keyword("FROM", FROM); }
  lemma ReadWhere() ensures ReadsAs("WHERE", WHERE) { Uppercase("WHERE"); Keyword("WHERE", WHERE); }
  lemma ReadAnd() ensures ReadsAs("AND", AND) { Uppercase("AND"); Keyword("AND", AND); }
  lemma ReadOr() ensures ReadsAs("OR", OR) { Uppercase("OR"); Keyword("OR", OR); }
  lemma ReadIn() ensures ReadsAs("IN", IN) { Uppercase("IN"); Keyword("IN", IN); }
  lemma ReadExists() ensures ReadsAs("EXISTS", EXISTS) { Uppercase("EXISTS"); Keyword("EXISTS", EXISTS); }
  lemma ReadIs() ensures ReadsAs("IS", IS) { Uppercase("IS"); Keyword("IS", IS); }
  lemma ReadNot() ensures ReadsAs("NOT", NOT) { Uppercase("NOT"); Keyword("NOT", NOT); }
  lemma ReadNull() ensures ReadsAs("NULL", NULL) { Uppercase("NULL"); Keyword("NULL", NULL); }
  lemma ReadUpdate() ensures ReadsAs("UPDATE", UPDATE) { Uppercase("UPDATE"); Keyword("UPDATE", UPDATE); }
  lemma ReadSet() ensures ReadsAs("SET", SET) { Uppercase("SET"); Keyword("SET", SET); }
  lemma ReadInsert() ensures ReadsAs("INSERT", INSERT) { Uppercase("INSERT"); Keyword("INSERT", INSERT); }
  lemma ReadInto() ensures ReadsAs("INTO", INTO) { Uppercase("INTO"); Keyword("INTO", INTO); }
  lemma ReadValues() ensures ReadsAs("VALUES", VALUES) { Uppercase("VALUES"); Keyword("VALUES", VALUES); }

  /** An operator between blanks. */
  lemma LexInfix(a: string, w: string, b: string, t: Token)
    requires ReadsAs(w, t)
    ensures Lex(a + Spaced(w) + b) == Lex(a) + [t] + Lex(b)
  {
    LexConcat3(a, Spaced(w), b);
  }

  /** A leading keyword and a blank. */
  lemma LexPrefix(w: string, b: string, t: Token)
    requires ReadsAs(w, t)
    ensures Lex(w + " " + b) == [t] + Lex(b)
  {
    LexConcat(w + " ", b);
  }

  /** A keyword before a parenthesised text. */
  lemma LexCall(w: string, text: string, t: Token)
    requires ReadsAs(w, t)
    ensures Lex(w + " " + ("(" + text + ")")) == [t, LParen] + Lex(text) + [RParen]
  {
    LexParenthesised(text);
    LexPrefix(w, "(" + text + ")", t);
  }

  lemma LexParenthesised(text: string)
    ensures Lex("(" + text + ")") == [LParen] + Lex(text) + [RParen]
  {
    LexSymbol('(');
    LexSymbol(')');
    LexConcat("(", text);
    LexConcat("(" + text, ")");
  }

  /** A clause appended after a blank. */
  lemma LexClause(main: string, w: string, body: string, t: Token)
    requires ReadsAs(w, t)
    ensures Lex(main + " " + (w + " " + body)) == Lex(main) + [t] + Lex(body)
  {
    LexSymbol(' ');
    LexConcat(main, " ");
    LexPrefix(w, body, t);
    LexConcat(main + " ", w + " " + body);
  }

  /** Two keywords, each with what follows it. */
  lemma LexTwoKeywords(w: string, a: string, v: string, b: string, t: Token, u: Token)
    requires ReadsAs(w, t) && ReadsAs(v, u)
    ensures Lex(w + " " + a + Spaced(v) + b) == [t] + Lex(a) + [u] + Lex(b)
  {
    LexInfix(w + " " + a, v, b, u);
    LexPrefix(w, a, t);
  }

  lemma LexBlank(a: string, blank: string, b: string)
    requires |blank| == 1 && blank[0] == ' ' && Lex(blank) == []
    ensures Lex(a + blank + b) == Lex(a) + Lex(b)
  {
    LexConcat(a, blank);
    assert Lex(a + blank) == Lex(a);
    LexConcat(a + blank, b);
  }

  lemma LexEquals(a: string, b: string)
    ensures Lex(a + Spaced("=") + b) == Lex(a) + [Equals] + Lex(b)
  {
    LexSymbol('=');
    LexSymbol(' ');
    LexConcat3(" ", "=", " ");
    LexConcat3(a, Spaced("="), b);
  }

  /** The tokens of the parts, with `sep` tokens between them. */
  function JoinTokens(parts: seq<string>, sep: seq<Token>): seq<Token> {
    if |parts| == 0 then []
    else if |parts| == 1 then Lex(parts[0])
    else Lex(parts[0]) + sep + JoinTokens(parts[1..], sep)
  }

  lemma {:induction false} LexJoin(parts: seq<string>, sep: string)
    requires |sep| == 1 && !IsWordChar(sep[0])
    ensures Lex(Join(parts, sep)) == JoinTokens(parts, Lex(sep))
  {
    if |parts| > 1 {
      LexJoin(parts[1..], sep);
      LexConcat3(parts[0], sep, Join(parts[1..], sep));
    }
  }

  /** `?,?,…` */
  function MarkTokens(n: nat): seq<Token> {
    if n == 0 then [] else if n == 1 then [Question] else [Question, Comma] + MarkTokens(n - 1)
  }

  lemma {:induction false} LexMarks(n: nat)
    ensures Lex(Join(Repeat("?", n), ",")) == MarkTokens(n)
  {
    LexSymbol(',');
    LexSymbol('?');
    LexJoin(Repeat("?", n), ",");
    MarksAsJoin(n);
  }

  lemma {:induction false} MarksAsJoin(n: nat)
    requires Lex("?") == [Question]
    ensures JoinTokens(Repeat("?", n), [Comma]) == MarkTokens(n)
  {
    if n > 1 {
      assert Repeat("?", n)[1..] == Repeat("?", n - 1);
      MarksAsJoin(n - 1);
    }
  }

  /** `a,b,…` */
  function NameTokens(names: seq<string>): seq<Token> {
    if |names| == 0 then []
    else if |names| == 1 then [Word(names[0])]
    else [Word(names[0]), Comma] + NameTokens(names[1..])
  }

  ghost predicate AllNames(names: seq<string>) {
    forall i :: 0 <= i < |names| ==> IsName(names[i])
  }

  lemma LexNames(names: seq<string>)
    requires AllNames(names)
    ensures Lex(Join(names, ",")) == NameTokens(names)
  {
    LexSymbol(',');
    LexJoin(names, ",");
    NamesAsJoin(names);
  }

  lemma {:induction false} NamesAsJoin(names: seq<string>)
    requires AllNames(names)
    ensures JoinTokens(names, [Comma]) == NameTokens(names)
  {
    if |names| > 0 {
      LexWord(names[0]);
      NamesAsJoin(names[1..]);
    }
  }

  lemma {:induction false} ParsesNames(names: seq<string>, tail: seq<Token>)
    requires |names| > 0 && !Starts(tail, Comma)
    ensures ParseNames(NameTokens(names) + tail) == Got(names, tail, 0)
  {
    if |names| == 1 {
      assert (NameTokens(names) + tail)[1..] == tail;
      assert [names[0]] == names;
    } else {
      ParsesNames(names[1..], tail);
      ParsesNameComma(names[0], NameTokens(names[1..]) + tail, names[1..], tail);
      Regroup([Word(names[0]), Comma], NameTokens(names[1..]), tail);
      assert [names[0]] + names[1..] == names;
    }
  }

  lemma ParsesNameComma(name: string, more: seq<Token>, names: seq<string>, tail: seq<Token>)
    requires ParseNames(more) == Got(names, tail, 0)
    ensures ParseNames([Word(name), Comma] + more) == Got([name] + names, tail, 0)
  {
    var ts := [Word(name), Comma] + more;
    assert ts[1..] == [Comma] + more && ts[2..] == more;
  }

  lemma {:induction false} ParsesMarks(n: nat, tail: seq<Token>)
    requires !Starts(tail, Comma) && !Starts(tail, Question)
    ensures ParseMarks(MarkTokens(n) + tail) == if n == 0 then Fail else Got(n, tail, n)
  {
    var ts := MarkTokens(n) + tail;
    if n == 1 {
      assert ts[1..] == tail;
    } else if n > 1 {
      assert ts[2..] == MarkTokens(n - 1) + tail;
      assert ts[1..][0] == Comma;
      ParsesMarks(n - 1, tail);
    }
  }

  /** `(?,?,…)` */
  function TupleTokens(n: nat): seq<Token> {
    [LParen] + MarkTokens(n) + [RParen]
  }

  /** An empty tuple does not parse; any other is read in full. */
  lemma ParsesTuple(n: nat, tail: seq<Token>)
    ensures ParseTuple(TupleTokens(n) + tail) == if n == 0 then Fail else Got(n, tail, n)
  {
    var ts := TupleTokens(n) + tail;
    assert ts[1..] == MarkTokens(n) + ([RParen] + tail);
    ParsesMarks(n, [RParen] + tail);
    assert ([RParen] + tail)[1..] == tail;
  }
}
