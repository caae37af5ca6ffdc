/** End-to-end statements about built queries: SELECT, UPDATE and INSERT text with
    its arguments, executed by the reference reading of SQL. */
module SqlTheorems {
  import opened Text
  import opened SqlGrammar
  import opened SqlLexing
  import opened SqlBuilder
  import opened SqlMeaning
  import opened SqlParsing

  // ------------------------------------------------------------------ SELECT

  lemma {:induction false} FilterSame<T>(s: seq<T>, f: T -> bool, g: T -> bool)
    requires forall x :: x in s ==> f(x) == g(x)
    ensures Filter(s, f) == Filter(s, g)
  {
    if |s| > 0 {
      assert s[0] in s;
      FilterSame(s[1..], f, g);
    }
  }

  /** Filtering keeps the rows that hold, in their order and as often as they are there. */
  lemma {:induction false} FilterAppends<T>(s: seq<T>, x: T, keep: T -> bool)
    ensures Filter(s + [x], keep) == Filter(s, keep) + if keep(x) then [x] else []
  {
    if |s| == 0 {
      assert [x][1..] == [];
    } else {
      assert (s + [x])[0] == s[0] && (s + [x])[1..] == s[1..] + [x];
      FilterAppends(s[1..], x, keep);
    }
  }

  lemma {:induction false} FilterIff<T>(s: seq<T>, keep: T -> bool, x: T)
    ensures x in Filter(s, keep) <==> x in s && keep(x)
  {
    if |s| > 0 {
      FilterIff(s[1..], keep, x);
      assert x in s <==> x == s[0] || x in s[1..];
    }
  }

  /** What a condition says of a row: a column that the row does not have is NULL, and a
      comparison with NULL never holds. */
  lemma ConditionMeans(t: SqlMeaning.Step, db: Database, row: Row)
    ensures match t
            case EqualTo(c, v, _) => StepHolds(t, db, row) <==> v != Null && c in row && row[c] == v
            case OneOf(c, vs, _) => StepHolds(t, db, row) <==> c in row && row[c] != Null && row[c] in vs
            case IsNull(c, negated, _) => StepHolds(t, db, row) <==> ((c in row && row[c] != Null) == negated)
            case ExistsRow(q, _) =>
              StepHolds(t, db, row) <==> q.table in db && exists i :: 0 <= i < |db[q.table]| && WhereHolds(q.where, db, row + db[q.table][i])
  {
    if t.OneOf? && t.column in row && row[t.column] != Null && row[t.column] in t.choices {
      var i :| 0 <= i < |t.choices| && t.choices[i] == row[t.column];
      assert Eq3(Field(row, t.column), t.choices[i]) == True;
    }
  }

  /** The selected row r shows the asked columns of row, or all of them. */
  ghost predicate ShowsRow(columns: seq<string>, row: Row, r: Row) {
    if |columns| == 0 then r == row
    else (forall c :: c in r <==> c in columns) && forall c :: c in r ==> r[c] == if c in row then row[c] else Null
  }

  /** What is intended: the asked columns of each row of the table for which the clause
      holds, and nothing else. */
  lemma IntendedIff(q: Query, db: Database, r: Row)
    ensures r in Intended(q, db) <==>
            q.table in db && exists row :: row in db[q.table] && WhereHolds(q.where, db, row) && ShowsRow(q.columns, row, r)
  {
    var keep := (row: Row) => WhereHolds(q.where, db, row);
    var hits := Filter(TableRows(db, q.table), keep);
    var columns := if |q.columns| == 0 then AllColumns else Named(q.columns);
    if r in Intended(q, db) {
      var i :| 0 <= i < |hits| && Intended(q, db)[i] == r;
      FilterIff(TableRows(db, q.table), keep, hits[i]);
      assert ShowsRow(q.columns, hits[i], r);
    }
    if q.table in db && exists row :: row in db[q.table] && WhereHolds(q.where, db, row) && ShowsRow(q.columns, row, r) {
      var row :| row in db[q.table] && WhereHolds(q.where, db, row) && ShowsRow(q.columns, row, r);
      FilterIff(TableRows(db, q.table), keep, row);
      var i :| 0 <= i < |hits| && hits[i] == row;
      assert Intended(q, db)[i] == Project(columns, row) == r;
    }
  }

  /** The database can run the statement: it parses and every mark has an argument. */
  predicate Runnable(q: Query) {
    WellFormed(q) && IsCount(q) == 0
  }

  lemma QueryArgCount(q: Query)
    ensures |QueryArgs(q)| == QueryMarks(q) + IsCount(q)
  {
    if q.where.Clause? {
      MarksOfChain(q.where.steps);
    }
  }

  lemma ParsesText(q: Query)
    requires NamedQuery(q)
    ensures QueryParsed(q, [], 0, ParseSelect(Lex(QueryText(q)), 0))
  {
    LexQueryText(q);
    assert QueryTokens(q) + [] == QueryTokens(q);
    ParsesQuery(q, [], 0);
  }

  /** Running a parsed SELECT selects the intended rows. */
  lemma SelectsRows(q: Query, text: string, args: seq<Value>, db: Database, s: SelectAst)
    requires ParseSelect(Lex(text), 0) == Got(s, [], |args|) && args == QueryArgs(q) && s.table == q.table
    requires s.columns == (if |q.columns| == 0 then AllColumns else Named(q.columns)) && MeansWhere(s.where, q.where, 0)
    ensures RunSelect(text, args, db) == Some(Intended(q, db))
  {
    assert args[0..|args|] == args;
    forall row: Row ensures EvalWhere(s.where, args, db, row) == True <==> WhereHolds(q.where, db, row) {
      WhereMeaning(s.where, q.where, 0, args, db, row);
    }
    FilterSame(TableRows(db, q.table),
               (row: Row) => EvalWhere(s.where, args, db, row) == True,
               (row: Row) => WhereHolds(q.where, db, row));
  }

  lemma RunUnparsed(text: string, args: seq<Value>, db: Database)
    requires var p := ParseSelect(Lex(text), 0); p.Fail? || p.rest != [] || p.next != |args|
    ensures RunSelect(text, args, db) == None
  {
  }

  /** A SELECT is accepted exactly when it is well formed and uses no IS, and then
      returns exactly the intended rows, subqueries included. */
  lemma SelectMeaning(q: Query, db: Database)
    requires NamedQuery(q)
    ensures RunSelect(QueryText(q), QueryArgs(q), db) == if Runnable(q) then Some(Intended(q, db)) else None
  {
    ParsesText(q);
    QueryArgCount(q);
    if Runnable(q) {
      SelectsRows(q, QueryText(q), QueryArgs(q), db, ParseSelect(Lex(QueryText(q)), 0).value);
    } else {
      RunUnparsed(QueryText(q), QueryArgs(q), db);
    }
  }

  /** IS records an argument that has no mark: even the documented
      `Is(column, "NOT NULL")` is rejected by the database. */
  lemma IsIsRejected(db: Database)
    ensures var q := Query("Session", [], Clause([IsNull("CreatedOn", true, NoLink)]));
            RunSelect(QueryText(q), QueryArgs(q), db) == None
  {
    assert IsName("Session") && IsName("CreatedOn");
    LoneIsRejected(Query("Session", [], Clause([IsNull("CreatedOn", true, NoLink)])), db);
  }

  lemma LoneIsRejected(q: Query, db: Database)
    requires IsName(q.table) && q.columns == [] && q.where.Clause? && |q.where.steps| == 1
    requires q.where.steps[0].IsNull? && IsName(q.where.steps[0].column)
    ensures RunSelect(QueryText(q), QueryArgs(q), db) == None
  {
    var steps := q.where.steps;
    assert steps[1..] == [] && IsCountSteps(steps) == IsCountStep(steps[0]) + IsCountSteps(steps[1..]);
    assert NamedSteps(steps);
    SelectMeaning(q, db);
  }

  // ------------------------------------------------------------------ UPDATE

  /** An UPDATE: Update(table, columns).Args(values) and perhaps one Where(). */
  datatype Change = Change(table: string, columns: seq<string>, values: seq<Value>, where: Where)

  function ChangeText(c: Change): string {
    var main := UpdateMain(c.table, c.columns);
    match c.where case NoWhere => main case Clause(steps) => main + " " + WhereText(Lower(steps))
  }

  /** The SET values come first: Args runs before the conditions are chained. */
  function ChangeArgs(c: Change): seq<Value> {
    c.values + WhereArgs(c.where)
  }

  function WhereOf(c: Change): Query {
    Query(c.table, [], c.where)
  }

  ghost function Changed(c: Change, db: Database): seq<Row> {
    MapSeq(TableRows(db, c.table),
           (row: Row) => if WhereHolds(c.where, db, row) then Assign(row, c.columns, c.values) else row)
  }

  function SetTokens(columns: seq<string>): seq<Token> {
    if |columns| == 0 then []
    else [Word(columns[0]), Equals, Question] + (if |columns| > 1 then [Comma] else []) + SetTokens(columns[1..])
  }

  lemma LexAssignment(c: string)
    requires IsName(c)
    ensures Lex(c + " = ?") == [Word(c), Equals, Question]
  {
    LexWord(c);
    LexSymbol('?');
    LexEquals(c, "?");
    assert c + Spaced("=") + "?" == c + " = ?" by { assert Spaced("=") + "?" == " = ?"; }
  }

  lemma {:induction false} SetAsJoin(columns: seq<string>)
    requires AllNames(columns)
    ensures JoinTokens(MapSeq(columns, (c: string) => c + " = ?"), [Comma]) == SetTokens(columns)
  {
    if |columns| > 0 {
      var f := (c: string) => c + " = ?";
      LexAssignment(columns[0]);
      SetAsJoin(columns[1..]);
      assert MapSeq(columns, f)[1..] == MapSeq(columns[1..], f);
    }
  }

  /** One step of ParseAssignments. */
  lemma SetStep(ts: seq<Token>, c: string, next: seq<Token>)
    requires |ts| >= 3 && ts[0] == Word(c) && ts[1] == Equals && ts[2] == Question && ts[3..] == next
    ensures ParseAssignments(ts) ==
            if !Starts(next, Comma) then Got([c], next, 1)
            else var s := ParseAssignments(next[1..]); if s.Fail? then Fail else Got([c] + s.value, s.rest, s.next + 1)
  {
    if Starts(next, Comma) {
      assert ts[4..] == next[1..];
    }
  }

  lemma {:induction false} ParsesSet(columns: seq<string>, tail: seq<Token>)
    requires |columns| > 0 && !Starts(tail, Comma)
    ensures ParseAssignments(SetTokens(columns) + tail) == Got(columns, tail, |columns|)
  {
    var ts := SetTokens(columns) + tail;
    if |columns| == 1 {
      SetStep(ts, columns[0], tail);
      assert [columns[0]] == columns;
    } else {
      var more := SetTokens(columns[1..]) + tail;
      var next := [Comma] + more;
      assert next[1..] == more && ts[3..] == next;
      SetStep(ts, columns[0], next);
      ParsesSet(columns[1..], tail);
      assert [columns[0]] + columns[1..] == columns;
    }
  }

  lemma LexSet(columns: seq<string>)
    requires AllNames(columns)
    ensures Lex(SetText(columns)) == SetTokens(columns)
  {
    LexSymbol(',');
    LexJoin(MapSeq(columns, (c: string) => c + " = ?"), ",");
    SetAsJoin(columns);
  }

  lemma UpdateTokens(a: Token, x: Token, b: Token, rest: seq<Token>)
    ensures [a] + [x] + [b] + rest == [a, x, b] + rest
  {
  }

  lemma LexUpdateMain(table: string, columns: seq<string>)
    requires IsName(table) && AllNames(columns)
    ensures Lex(UpdateMain(table, columns)) == [UPDATE, Word(table), SET] + SetTokens(columns)
  {
    ReadUpdate();
    ReadSet();
    LexTwoKeywords("UPDATE", table, "SET", SetText(columns), UPDATE, SET);
    LexWord(table);
    LexSet(columns);
    UpdateTokens(UPDATE, Word(table), SET, SetTokens(columns));
  }

  lemma LexChange(c: Change)
    requires NamedQuery(WhereOf(c)) && AllNames(c.columns)
    ensures Lex(ChangeText(c)) == [UPDATE, Word(c.table), SET] + (SetTokens(c.columns) + WhereTokens(c.where))
  {
    LexUpdateMain(c.table, c.columns);
    if c.where.Clause? {
      LexChainText(c.where.steps);
      LexWhere(UpdateMain(c.table, c.columns), Lower(c.where.steps));
    }
  }

  /** What ParseUpdate makes of a change. */
  ghost predicate ChangeParsed(c: Change, p: Parsed<UpdateAst>) {
    if |c.columns| > 0 && WellFormed(WhereOf(c)) then
      p.Got? && p.rest == [] && p.next == |c.columns| + QueryMarks(WhereOf(c))
      && p.value.table == c.table && p.value.sets == c.columns
      && (IsCount(WhereOf(c)) == 0 ==> MeansWhere(p.value.where, c.where, |c.columns|))
    else Blocked(p)
  }

  lemma UpdateFromSet(table: string, body: seq<Token>)
    ensures ParseUpdate([UPDATE, Word(table), SET] + body) ==
            var s := ParseAssignments(body);
            if s.Fail? then Fail
            else
              var w := ParseWhere(s.rest, |s.value|);
              if w.Fail? then Fail else Got(UpdateAst(table, s.value, w.value), w.rest, w.next)
  {
    assert ([UPDATE, Word(table), SET] + body)[3..] == body;
  }

  lemma ParsesChange(c: Change)
    requires NamedQuery(WhereOf(c)) && AllNames(c.columns)
    ensures ChangeParsed(c, ParseUpdate([UPDATE, Word(c.table), SET] + (SetTokens(c.columns) + WhereTokens(c.where))))
  {
    var w := WhereTokens(c.where);
    UpdateFromSet(c.table, SetTokens(c.columns) + w);
    if |c.columns| > 0 {
      ParsesSet(c.columns, w);
      ParsesWhere(WhereOf(c), [], |c.columns|);
      assert w + [] == w;
    } else {
      assert SetTokens(c.columns) + w == w;
    }
  }

  lemma ChangeRows(c: Change, w: Option<Ast>, args: seq<Value>, db: Database, row: Row)
    requires |c.values| == |c.columns| && args == ChangeArgs(c) && MeansWhere(w, c.where, |c.columns|)
    ensures BindRange(args, 0, |c.columns|) == c.values
    ensures EvalWhere(w, args, db, row) == True <==> WhereHolds(c.where, db, row)
  {
    var n := |c.columns|;
    assert args[0..n] == c.values && args[n..n + |WhereArgs(c.where)|] == WhereArgs(c.where);
    BindAligned(args, 0, c.values);
    WhereMeaning(w, c.where, n, args, db, row);
  }

  lemma RunParsedUpdate(text: string, args: seq<Value>, db: Database, u: UpdateAst)
    requires ParseUpdate(Lex(text)) == Got(u, [], |args|)
    ensures RunUpdate(text, args, db).Some?
    ensures |RunUpdate(text, args, db).value| == |TableRows(db, u.table)|
    ensures forall i :: 0 <= i < |TableRows(db, u.table)| ==>
              var row := TableRows(db, u.table)[i];
              RunUpdate(text, args, db).value[i] ==
              if EvalWhere(u.where, args, db, row) == True
              then Assign(row, u.sets, BindRange(args, 0, |u.sets|)) else row
  {
  }

  /** Running a parsed UPDATE changes the intended rows. */
  lemma ChangesRows(c: Change, db: Database, u: UpdateAst)
    requires |c.values| == |c.columns| && ParseUpdate(Lex(ChangeText(c))) == Got(u, [], |ChangeArgs(c)|)
    requires u.table == c.table && u.sets == c.columns && MeansWhere(u.where, c.where, |c.columns|)
    ensures RunUpdate(ChangeText(c), ChangeArgs(c), db) == Some(Changed(c, db))
  {
    var args, rows := ChangeArgs(c), TableRows(db, c.table);
    RunParsedUpdate(ChangeText(c), args, db, u);
    var after := RunUpdate(ChangeText(c), args, db).value;
    forall i | 0 <= i < |rows| ensures after[i] == Changed(c, db)[i] {
      ChangeRows(c, u.where, args, db, rows[i]);
    }
    assert after == Changed(c, db);
  }

  /** An UPDATE with one value per column is accepted exactly when it sets some
      column and its clause is runnable, and then changes exactly the intended
      rows to exactly the given values. */
  lemma UpdateMeaning(c: Change, db: Database)
    requires NamedQuery(WhereOf(c)) && AllNames(c.columns) && |c.values| == |c.columns|
    ensures RunUpdate(ChangeText(c), ChangeArgs(c), db)
         == if |c.columns| > 0 && Runnable(WhereOf(c)) then Some(Changed(c, db)) else None
  {
    LexChange(c);
    ParsesChange(c);
    QueryArgCount(WhereOf(c));
    if |c.columns| > 0 && Runnable(WhereOf(c)) {
      ChangesRows(c, db, ParseUpdate(Lex(ChangeText(c))).value);
    }
  }
}
