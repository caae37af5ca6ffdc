/** A reference reading of the SQL that the query builder emits: characters to
    tokens, tokens to a syntax tree in which AND binds tighter than OR and the
    `?` marks are numbered left to right, and the meaning of such a tree on rows.
    Nothing in this module knows how the builder works. */
module SqlGrammar {
  import opened Text

  // ---------------------------------------------------------------- values

  datatype Value = Null | Bool(b: bool) | Num(n: int) | Str(s: string) | Time(t: int)

  type Row = map<string, Value>
  type Database = map<string, seq<Row>>

  /** SQL truth values. */
  datatype Truth = True | False | Unknown

  function And3(a: Truth, b: Truth): Truth {
    if a == False || b == False then False
    else if a == True && b == True then True else Unknown
  }

  function Or3(a: Truth, b: Truth): Truth {
    if a == True || b == True then True
    else if a == False && b == False then False else Unknown
  }

  function Eq3(a: Value, b: Value): Truth {
    if a == Null || b == Null then Unknown else if a == b then True else False
  }

  /** x IN (vs): the disjunction of the equalities. */
  function In3(x: Value, vs: seq<Value>): Truth {
    if |vs| == 0 then False else Or3(Eq3(x, vs[0]), In3(x, vs[1..]))
  }

  function Field(row: Row, column: string): Value {
    if column in row then row[column] else Null
  }

  // ---------------------------------------------------------------- tokens

  datatype Token =
    | Word(text: string)
    | SELECT | FROM | WHERE | AND | OR | IN | EXISTS | IS | NOT | NULL
    | UPDATE | SET | INSERT | INTO | VALUES
    | LParen | RParen | Comma | Equals | Question | Star | Stray(c: char)

  predicate IsWordChar(c: char) {
    'a' <= c <= 'z' || 'A' <= c <= 'Z' || '0' <= c <= '9' || c == '_' || c == '.'
  }

  function UpperChar(c: char): char {
    if 'a' <= c <= 'z' then (c as int - 32) as char else c
  }

  function Upper(s: string): string {
    seq(|s|, i requires 0 <= i < |s| => UpperChar(s[i]))
  }

  /** Keywords are recognised in any letter case. */
  function Classify(w: string): Token {
    var u := Upper(w);
    match |u|
    case 2 => if u == "OR" then OR else if u == "IN" then IN else if u == "IS" then IS else Word(w)
    case 3 => if u == "AND" then AND else if u == "NOT" then NOT else if u == "SET" then SET else Word(w)
    case 4 => if u == "FROM" then FROM else if u == "NULL" then NULL else if u == "INTO" then INTO else Word(w)
    case 5 => if u == "WHERE" then WHERE else Word(w)
    case 6 =>
      if u == "SELECT" then SELECT else if u == "EXISTS" then EXISTS else if u == "UPDATE" then UPDATE
      else if u == "INSERT" then INSERT else if u == "VALUES" then VALUES else Word(w)
    case _ => Word(w)
  }

  function Punctuation(c: char): Token {
    if c == '(' then LParen else if c == ')' then RParen
    else if c == ',' then Comma else if c == '=' then Equals
    else if c == '?' then Question else if c == '*' then Star
    else Stray(c)
  }

  /** Length of the longest prefix made of word characters. */
  function WordLen(s: string): (n: nat)
    ensures n <= |s|
    ensures forall i :: 0 <= i < n ==> IsWordChar(s[i])
    ensures n < |s| ==> !IsWordChar(s[n])
  {
    if |s| == 0 || !IsWordChar(s[0]) then 0 else 1 + WordLen(s[1..])
  }

  function Lex(s: string): seq<Token> {
    if |s| == 0 then []
    else if s[0] == ' ' then Lex(s[1..])
    else if IsWordChar(s[0]) then
      var n := WordLen(s);
      [Classify(s[..n])] + Lex(s[n..])
    else [Punctuation(s[0])] + Lex(s[1..])
  }

  /** A plain (possibly dotted) name that is not a keyword. */
  predicate IsName(s: string) {
    |s| > 0 && (forall i :: 0 <= i < |s| ==> IsWordChar(s[i])) && Classify(s) == Word(s)
  }

  // ---------------------------------------------------------------- syntax

  /** Conditions; a placeholder is the position of its argument. */
  datatype Ast =
    | EqA(column: string, arg: nat)
    | InA(column: string, first: nat, count: nat)
    | NullA(column: string, negated: bool)
    | ExistsA(query: SelectAst)
    | AndA(left: Ast, right: Ast)
    | OrA(left: Ast, right: Ast)

  datatype SelectAst = SelectAst(columns: Columns, table: string, where: Option<Ast>)

  datatype Columns = AllColumns | Named(names: seq<string>)

  datatype UpdateAst = UpdateAst(table: string, sets: seq<string>, where: Option<Ast>)

  datatype InsertAst = InsertAst(table: string, columns: seq<string>, widths: seq<nat>)

  /** A parse that consumed a prefix of the tokens and `next` placeholders in all. */
  datatype Parsed<+T> = Fail | Got(value: T, rest: seq<Token>, next: nat)

  predicate Starts(ts: seq<Token>, t: Token) {
    |ts| > 0 && ts[0] == t
  }

  function ParseOr(ts: seq<Token>, k: nat): (p: Parsed<Ast>)
    ensures p.Got? ==> |p.rest| < |ts|
    decreases |ts|, 3
  {
    var a := ParseAnd(ts, k);
    if a.Fail? then Fail
    else if !Starts(a.rest, OR) then a
    else
      var b := ParseOr(a.rest[1..], a.next);
      if b.Fail? then Fail else Got(OrA(a.value, b.value), b.rest, b.next)
  }

  function ParseAnd(ts: seq<Token>, k: nat): (p: Parsed<Ast>)
    ensures p.Got? ==> |p.rest| < |ts|
    decreases |ts|, 2
  {
    var a := ParseAtom(ts, k);
    if a.Fail? then Fail
    else if !Starts(a.rest, AND) then a
    else
      var b := ParseAnd(a.rest[1..], a.next);
      if b.Fail? then Fail else Got(AndA(a.value, b.value), b.rest, b.next)
  }

  function ParseAtom(ts: seq<Token>, k: nat): (p: Parsed<Ast>)
    ensures p.Got? ==> |p.rest| < |ts|
    decreases |ts|, 1
  {
    if |ts| < 2 then Fail
    else if ts[0] == LParen then
      var a := ParseOr(ts[1..], k);
      if a.Got? && Starts(a.rest, RParen) then Got(a.value, a.rest[1..], a.next) else Fail
    else if ts[0] == EXISTS && ts[1] == LParen then
      var q := ParseSelect(ts[2..], k);
      if q.Got? && Starts(q.rest, RParen) then Got(ExistsA(q.value), q.rest[1..], q.next) else Fail
    else if ts[0].Word? && ts[1] == Equals then
      var v := ParseParameter(ts[2..], k);
      if v.Fail? then Fail else Got(EqA(ts[0].text, v.value), v.rest, v.next)
    else if ts[0].Word? && ts[1] == IN then
      var l := ParseTuple(ts[2..]);
      if l.Fail? then Fail else Got(InA(ts[0].text, k, l.value), l.rest, k + l.value)
    else if ts[0].Word? && ts[1] == IS then
      if Starts(ts[2..], NULL) then Got(NullA(ts[0].text, false), ts[3..], k)
      else if Starts(ts[2..], NOT) && Starts(ts[3..], NULL) then Got(NullA(ts[0].text, true), ts[4..], k)
      else Fail
    else Fail
  }

  function ParseSelect(ts: seq<Token>, k: nat): (p: Parsed<SelectAst>)
    ensures p.Got? ==> |p.rest| < |ts|
    decreases |ts|, 0
  {
    if !Starts(ts, SELECT) then Fail
    else
      var c := ParseColumns(ts[1..]);
      if c.Fail? || |c.rest| < 2 || c.rest[0] != FROM || !c.rest[1].Word? then Fail
      else
        var w := ParseWhere(c.rest[2..], k);
        if w.Fail? then Fail
        else Got(SelectAst(c.value, c.rest[1].text, w.value), w.rest, w.next)
  }

  /** An optional WHERE clause. */
  function ParseWhere(ts: seq<Token>, k: nat): (p: Parsed<Option<Ast>>)
    ensures p.Got? ==> |p.rest| <= |ts|
    decreases |ts|, 4
  {
    if !Starts(ts, WHERE) then Got(None, ts, k)
    else
      var w := ParseOr(ts[1..], k);
      if w.Fail? then Fail else Got(Some(w.value), w.rest, w.next)
  }

  /** `?`, in any number of parentheses. */
  function ParseParameter(ts: seq<Token>, k: nat): (p: Parsed<nat>)
    ensures p.Got? ==> |p.rest| < |ts|
    decreases |ts|
  {
    if Starts(ts, Question) then Got(k, ts[1..], k + 1)
    else if Starts(ts, LParen) then
      var v := ParseParameter(ts[1..], k);
      if v.Got? && Starts(v.rest, RParen) then Got(v.value, v.rest[1..], v.next) else Fail
    else Fail
  }

  /** `(?,?,…)`, at least one mark; the value is their number. */
  function ParseTuple(ts: seq<Token>): (p: Parsed<nat>)
    ensures p.Got? ==> |p.rest| < |ts| && p.value > 0
  {
    if !Starts(ts, LParen) then Fail
    else
      var m := ParseMarks(ts[1..]);
      if m.Got? && Starts(m.rest, RParen) then Got(m.value, m.rest[1..], m.value) else Fail
  }

  function ParseMarks(ts: seq<Token>): (p: Parsed<nat>)
    ensures p.Got? ==> |p.rest| < |ts| && p.value > 0
    decreases |ts|
  {
    if !Starts(ts, Question) then Fail
    else if !Starts(ts[1..], Comma) then Got(1, ts[1..], 1)
    else
      var m := ParseMarks(ts[2..]);
      if m.Fail? then Fail else Got(m.value + 1, m.rest, m.value + 1)
  }

  function ParseColumns(ts: seq<Token>): (p: Parsed<Columns>)
    ensures p.Got? ==> |p.rest| < |ts|
  {
    if Starts(ts, Star) then Got(AllColumns, ts[1..], 0)
    else
      var n := ParseNames(ts);
      if n.Fail? then Fail else Got(Named(n.value), n.rest, 0)
  }

  function ParseNames(ts: seq<Token>): (p: Parsed<seq<string>>)
    ensures p.Got? ==> |p.rest| < |ts|
    decreases |ts|
  {
    if |ts| == 0 || !ts[0].Word? then Fail
    else if !Starts(ts[1..], Comma) then Got([ts[0].text], ts[1..], 0)
    else
      var n := ParseNames(ts[2..]);
      if n.Fail? then Fail else Got([ts[0].text] + n.value, n.rest, 0)
  }

  function ParseUpdate(ts: seq<Token>): Parsed<UpdateAst> {
    if |ts| < 3 || ts[0] != UPDATE || !ts[1].Word? || ts[2] != SET then Fail
    else
      var s := ParseAssignments(ts[3..]);
      if s.Fail? then Fail
      else
        var w := ParseWhere(s.rest, |s.value|);
        if w.Fail? then Fail
        else Got(UpdateAst(ts[1].text, s.value, w.value), w.rest, w.next)
  }

  /** `c = ?,d = ?,…`; mark i belongs to the i-th column. */
  function ParseAssignments(ts: seq<Token>): (p: Parsed<seq<string>>)
    decreases |ts|
  {
    if |ts| < 3 || !ts[0].Word? || ts[1] != Equals || ts[2] != Question then Fail
    else if !Starts(ts[3..], Comma) then Got([ts[0].text], ts[3..], 1)
    else
      var s := ParseAssignments(ts[4..]);
      if s.Fail? then Fail else Got([ts[0].text] + s.value, s.rest, s.next + 1)
  }

  function ParseInsert(ts: seq<Token>): Parsed<InsertAst> {
    if |ts| < 4 || ts[0] != INSERT || ts[1] != INTO || !ts[2].Word? || ts[3] != LParen then Fail
    else
      var n := ParseNames(ts[4..]);
      if n.Fail? || |n.rest| < 2 || n.rest[0] != RParen || n.rest[1] != VALUES then Fail
      else
        var t := ParseTuples(n.rest[2..]);
        if t.Fail? then Fail
        else Got(InsertAst(ts[2].text, n.value, t.value), t.rest, t.next)
  }

  function ParseTuples(ts: seq<Token>): (p: Parsed<seq<nat>>)
    decreases |ts|
  {
    var t := ParseTuple(ts);
    if t.Fail? then Fail
    else if !Starts(t.rest, Comma) then Got([t.value], t.rest, t.value)
    else
      var u := ParseTuples(t.rest[1..]);
      if u.Fail? then Fail else Got([t.value] + u.value, u.rest, t.value + u.next)
  }

  // ---------------------------------------------------------------- meaning

  function Bind(args: seq<Value>, i: nat): Value {
    if i < |args| then args[i] else Null
  }

  function BindRange(args: seq<Value>, first: nat, count: nat): (r: seq<Value>)
    ensures |r| == count
    ensures forall i :: 0 <= i < count ==> r[i] == Bind(args, first + i)
  {
    seq(count, i requires 0 <= i < count => Bind(args, first + i))
  }

  /** Value of a condition on a row. The columns of a subquery's table hide
      equally named columns of the enclosing row. */
  function Eval(a: Ast, args: seq<Value>, db: Database, row: Row): Truth
    decreases a
  {
    match a
    case EqA(c, i) => Eq3(Field(row, c), Bind(args, i))
    case InA(c, i, n) => In3(Field(row, c), BindRange(args, i, n))
    case NullA(c, neg) => if (Field(row, c) == Null) != neg then True else False
    case AndA(l, r) => And3(Eval(l, args, db, row), Eval(r, args, db, row))
    case OrA(l, r) => Or3(Eval(l, args, db, row), Eval(r, args, db, row))
    case ExistsA(q) =>
      var rows := TableRows(db, q.table);
      if exists i :: 0 <= i < |rows| && EvalWhere(q.where, args, db, row + rows[i]) == True then True else False
  }

  function EvalWhere(w: Option<Ast>, args: seq<Value>, db: Database, row: Row): Truth
    decreases w
  {
    match w
    case None => True
    case Some(a) => Eval(a, args, db, row)
  }

  function TableRows(db: Database, table: string): seq<Row> {
    if table in db then db[table] else []
  }

  function Project(c: Columns, row: Row): Row {
    match c
    case AllColumns => row
    case Named(ns) => map n | n in ns :: Field(row, n)
  }

  function Filter<T>(s: seq<T>, keep: T -> bool): seq<T> {
    if |s| == 0 then [] else (if keep(s[0]) then [s[0]] else []) + Filter(s[1..], keep)
  }

  function MapSeq<T, U>(s: seq<T>, f: T -> U): (r: seq<U>)
    ensures |r| == |s|
    ensures forall i :: 0 <= i < |s| ==> r[i] == f(s[i])
  {
    seq(|s|, i requires 0 <= i < |s| => f(s[i]))
  }

  /** Running a SELECT: None if the text does not parse as exactly one statement
      or the number of `?` marks differs from the number of arguments. */
  function RunSelect(text: string, args: seq<Value>, db: Database): Option<seq<Row>> {
    var p := ParseSelect(Lex(text), 0);
    if p.Fail? || p.rest != [] || p.next != |args| then None
    else
      var hits := Filter(TableRows(db, p.value.table),
                         (row: Row) => EvalWhere(p.value.where, args, db, row) == True);
      Some(MapSeq(hits, (row: Row) => Project(p.value.columns, row)))
  }

  /** Assigning columns in order; a repeated column keeps its last value. */
  function Assign(row: Row, columns: seq<string>, values: seq<Value>): Row
    decreases |columns|
  {
    if |columns| == 0 || |values| == 0 then row
    else Assign(row[columns[0] := values[0]], columns[1..], values[1..])
  }

  function RunUpdate(text: string, args: seq<Value>, db: Database): Option<seq<Row>> {
    var p := ParseUpdate(Lex(text));
    if p.Fail? || p.rest != [] || p.next != |args| then None
    else
      Some(MapSeq(TableRows(db, p.value.table),
                  (row: Row) =>
                    if EvalWhere(p.value.where, args, db, row) == True
                    then Assign(row, p.value.sets, BindRange(args, 0, |p.value.sets|)) else row))
  }

  /** The inserted rows: row r takes the next widths[r] arguments. */
  function BindRows(columns: seq<string>, widths: seq<nat>, args: seq<Value>, first: nat): seq<Row> {
    if |widths| == 0 then []
    else
      [Assign(map[], columns, BindRange(args, first, widths[0]))]
      + BindRows(columns, widths[1..], args, first + widths[0])
  }

  /** Running an INSERT: every row must give one value per column. */
  function RunInsert(text: string, args: seq<Value>): Option<seq<Row>> {
    var p := ParseInsert(Lex(text));
    if p.Fail? || p.rest != [] || p.next != |args|
       || (exists i :: 0 <= i < |p.value.widths| && p.value.widths[i] != |p.value.columns|) then None
    else Some(BindRows(p.value.columns, p.value.widths, args, 0))
  }
}
