/** Batch inserts: the marks printed for any number of rows, read back and bound. */
module SqlInsertText {
  import opened Text
  import opened SqlGrammar
  import opened SqlLexing
  import opened SqlBuilder
  import SqlMeaning
  import opened SqlParsing

  function RowTokens(columns: nat, rows: nat): seq<Token> {
    if rows == 0 then []
    else if rows == 1 then TupleTokens(columns)
    else TupleTokens(columns) + ([Comma] + RowTokens(columns, rows - 1))
  }

  lemma TupleAlone(columns: nat)
    ensures Lex(Tuple(columns)) == TupleTokens(columns)
  {
    assert Repeat(Tuple(columns), 1) == [Tuple(columns)];
    SqlMeaning.LexTuple(columns);
  }

  lemma {:induction false} RowsAsJoin(columns: nat, rows: nat)
    ensures JoinTokens(Repeat(Tuple(columns), rows), [Comma]) == RowTokens(columns, rows)
  {
    if rows > 0 {
      TupleAlone(columns);
      assert Repeat(Tuple(columns), rows)[1..] == Repeat(Tuple(columns), rows - 1);
      RowsAsJoin(columns, rows - 1);
    }
  }

  /** One step of ParseTuples, given the first tuple. */
  lemma TuplesStep(ts: seq<Token>, n: nat, next: seq<Token>)
    requires ParseTuple(ts) == Got(n, next, n) && Starts(next, Comma)
    ensures ParseTuples(ts) ==
            var u := ParseTuples(next[1..]);
            if u.Fail? then Fail else Got([n] + u.value, u.rest, n + u.next)
  {
  }

  lemma RepeatCons(n: nat, times: nat)
    requires times > 0
    ensures [n] + Repeat(n, times - 1) == Repeat(n, times)
    ensures n + n * (times - 1) == n * times
  {
  }

  /** A first tuple before rows that parse. */
  lemma ParsesMoreRows(all: seq<Token>, columns: nat, next: seq<Token>, rest: seq<Token>, widths: seq<nat>, marks: nat)
    requires ParseTuple(all) == Got(columns, next, columns) && Starts(next, Comma) && next[1..] == rest
    requires ParseTuples(rest) == Got(widths, [], marks)
    ensures ParseTuples(all) == Got([columns] + widths, [], columns + marks)
  {
    TuplesStep(all, columns, next);
  }

  lemma CommaBefore(rest: seq<Token>)
    ensures Starts([Comma] + rest, Comma) && ([Comma] + rest)[1..] == rest
  {
  }

  lemma ParsesOneRow(columns: nat)
    requires columns > 0
    ensures ParseTuples(TupleTokens(columns)) == Got([columns], [], columns)
  {
    assert TupleTokens(columns) + [] == TupleTokens(columns);
    ParsesTuple(columns, []);
  }

  /** The first tuple of several rows. */
  lemma FirstTuple(columns: nat, rows: nat) returns (all: seq<Token>, next: seq<Token>, rest: seq<Token>)
    requires columns > 0 && rows > 1
    ensures all == RowTokens(columns, rows) && rest == RowTokens(columns, rows - 1)
    ensures ParseTuple(all) == Got(columns, next, columns) && Starts(next, Comma) && next[1..] == rest
  {
    all, rest := RowTokens(columns, rows), RowTokens(columns, rows - 1);
    next := [Comma] + rest;
    CommaBefore(rest);
    ParsesTuple(columns, next);
  }

  lemma {:induction false} ParsesRows(columns: nat, rows: nat)
    requires columns > 0 && rows > 0
    ensures ParseTuples(RowTokens(columns, rows)) == Got(Repeat(columns, rows), [], columns * rows)
  {
    RepeatCons(columns, rows);
    if rows == 1 {
      ParsesOneRow(columns);
      assert [columns] + [] == [columns];
    } else {
      ParsesRows(columns, rows - 1);
      SeveralRows(columns, rows, Repeat(columns, rows - 1), columns * (rows - 1));
    }
  }

  lemma SeveralRows(columns: nat, rows: nat, widths: seq<nat>, marks: nat)
    requires columns > 0 && rows > 1 && ParseTuples(RowTokens(columns, rows - 1)) == Got(widths, [], marks)
    ensures ParseTuples(RowTokens(columns, rows)) == Got([columns] + widths, [], columns + marks)
  {
    var all, next, rest := FirstTuple(columns, rows);
    ParsesMoreRows(all, columns, next, rest, widths, marks);
  }

  lemma LexRows(columns: nat, rows: nat)
    requires rows > 0
    ensures Lex(Placeholder(columns, rows)) == RowTokens(columns, rows)
  {
    LexSymbol(',');
    LexJoin(Repeat(Tuple(columns), rows), ",");
    RowsAsJoin(columns, rows);
  }

  lemma LexInsertHead(table: string, columns: seq<string>, head: string)
    requires IsName(table) && AllNames(columns) && head == "INSERT" + Spaced("INTO") + table
    ensures Lex(head + " " + ("(" + Join(columns, ",") + ")"))
         == [INSERT] + [INTO] + [Word(table)] + ([LParen] + NameTokens(columns) + [RParen])
  {
    ReadInsert();
    ReadInto();
    LexInfix("INSERT", "INTO", table, INTO);
    LexWord(table);
    LexSymbol(' ');
    LexBlank(head, " ", "(" + Join(columns, ",") + ")");
    LexParenthesised(Join(columns, ","));
    LexNames(columns);
  }

  /** The parts of the token list of an INSERT. */
  predicate InsertShape(ts: seq<Token>, table: string, names: seq<Token>, rows: seq<Token>) {
    var n := 4 + |names|;
    |ts| >= n + 2 && ts[0] == INSERT && ts[1] == INTO && ts[2] == Word(table) && ts[3] == LParen
    && ts[4..n] == names && ts[n] == RParen && ts[n + 1] == VALUES && ts[n + 2..] == rows
  }

  lemma ShapeOf(table: string, names: seq<Token>, rows: seq<Token>)
    ensures InsertShape([INSERT] + [INTO] + [Word(table)] + ([LParen] + names + [RParen]) + [VALUES] + rows,
                        table, names, rows)
  {
  }

  lemma LexInsert(table: string, columns: seq<string>, rows: nat)
    requires IsName(table) && AllNames(columns) && rows > 0
    ensures InsertShape(Lex(InsertText(table, columns, rows)), table, NameTokens(columns), RowTokens(|columns|, rows))
  {
    var head := "INSERT" + Spaced("INTO") + table;
    ReadValues();
    LexInfix(head + " " + ("(" + Join(columns, ",") + ")"), "VALUES", Placeholder(|columns|, rows), VALUES);
    LexInsertHead(table, columns, head);
    LexRows(|columns|, rows);
    ShapeOf(table, NameTokens(columns), RowTokens(|columns|, rows));
  }

  lemma InsertStep(ts: seq<Token>, table: string, columns: seq<string>, next: seq<Token>)
    requires |ts| >= 4 && ts[0] == INSERT && ts[1] == INTO && ts[2] == Word(table) && ts[3] == LParen
    requires ParseNames(ts[4..]) == Got(columns, next, 0)
    requires |next| >= 2 && next[0] == RParen && next[1] == VALUES
    ensures ParseInsert(ts) ==
            var t := ParseTuples(next[2..]);
            if t.Fail? then Fail else Got(InsertAst(table, columns, t.value), t.rest, t.next)
  {
  }

  lemma SplitShape(ts: seq<Token>, table: string, names: seq<Token>, rows: seq<Token>) returns (next: seq<Token>)
    requires InsertShape(ts, table, names, rows)
    ensures ts[4..] == names + next && |next| >= 2 && next[0] == RParen && next[1] == VALUES && next[2..] == rows
  {
    next := ts[4 + |names|..];
  }

  lemma InsertFromShape(ts: seq<Token>, table: string, columns: seq<string>, names: seq<Token>, tuples: seq<Token>,
                        widths: seq<nat>, total: nat)
    requires InsertShape(ts, table, names, tuples)
    requires forall next :: !Starts(next, Comma) ==> ParseNames(names + next) == Got(columns, next, 0)
    requires ParseTuples(tuples) == Got(widths, [], total)
    ensures ParseInsert(ts) == Got(InsertAst(table, columns, widths), [], total)
  {
    var next := SplitShape(ts, table, names, tuples);
    InsertStep(ts, table, columns, next);
  }

  lemma NamesBefore(columns: seq<string>, names: seq<Token>)
    requires |columns| > 0 && names == NameTokens(columns)
    ensures forall next :: !Starts(next, Comma) ==> ParseNames(names + next) == Got(columns, next, 0)
  {
    forall next | !Starts(next, Comma) ensures ParseNames(names + next) == Got(columns, next, 0) {
      ParsesNames(columns, next);
    }
  }

  lemma ParsesInsert(table: string, columns: seq<string>, width: nat, rows: nat, ts: seq<Token>, names: seq<Token>)
    requires |columns| > 0 && width > 0 && rows > 0 && names == NameTokens(columns)
    requires InsertShape(ts, table, names, RowTokens(width, rows))
    ensures ParseInsert(ts) == Got(InsertAst(table, columns, Repeat(width, rows)), [], width * rows)
  {
    ParsesRows(width, rows);
    NamesBefore(columns, names);
    InsertFromShape(ts, table, columns, names, RowTokens(width, rows), Repeat(width, rows), width * rows);
  }

  /** Every row has `width` values. */
  ghost predicate Rectangular(rows: seq<seq<Value>>, width: nat) {
    forall i :: 0 <= i < |rows| ==> |rows[i]| == width
  }

  lemma {:induction false} ConcatSize(rows: seq<seq<Value>>, width: nat)
    requires Rectangular(rows, width)
    ensures |Concat(rows)| == width * |rows|
  {
    if |rows| > 0 {
      ConcatSize(rows[1..], width);
      assert width + width * (|rows| - 1) == width * |rows|;
    }
  }

  /** Each row's values, assigned to the columns in order. */
  function NewRows(columns: seq<string>, rows: seq<seq<Value>>): (r: seq<Row>)
    ensures |r| == |rows|
    ensures forall i :: 0 <= i < |rows| ==> r[i] == Assign(map[], columns, rows[i])
  {
    seq(|rows|, i requires 0 <= i < |rows| => Assign(map[], columns, rows[i]))
  }

  lemma {:induction false} BindsRows(columns: seq<string>, width: nat, rows: seq<seq<Value>>, args: seq<Value>, first: nat)
    requires width == |columns| && Rectangular(rows, width) && Aligned(args, first, Concat(rows))
    ensures BindRows(columns, Repeat(width, |rows|), args, first) == NewRows(columns, rows)
  {
    if |rows| > 0 {
      var widths := Repeat(width, |rows|);
      assert widths[1..] == Repeat(width, |rows| - 1);
      AlignedSplit(args, first, rows[0], Concat(rows[1..]));
      BindAligned(args, first, rows[0]);
      BindsRows(columns, width, rows[1..], args, first + width);
    }
  }

  lemma InsertRuns(table: string, columns: seq<string>, width: nat, n: nat, args: seq<Value>)
    requires IsName(table) && AllNames(columns) && |columns| == width > 0 && n > 0
    ensures RunInsert(InsertText(table, columns, n), args) ==
            if |args| != width * n then None else Some(BindRows(columns, Repeat(width, n), args, 0))
  {
    LexInsert(table, columns, n);
    ParsesInsert(table, columns, width, n, Lex(InsertText(table, columns, n)), NameTokens(columns));
    RunParsedInsert(InsertText(table, columns, n), table, columns, width, n, args);
  }

  /** The arguments of complete rows fill exactly that many rows. */
  lemma RowsOfArgs(rows: seq<seq<Value>>, width: nat)
    requires Rectangular(rows, width) && width > 0
    ensures |Concat(rows)| == width * |rows| && |Concat(rows)| % width == 0 && |Concat(rows)| / width == |rows|
  {
    ConcatSize(rows, width);
    DivideBack(width, |rows|);
  }

  lemma AlignedWhole(args: seq<Value>)
    ensures Aligned(args, 0, args)
  {
    assert args[0..|args|] == args;
  }

  /** A batch INSERT of complete rows binds the k-th mark of row r to the k-th
      value of row r. */
  lemma InsertMeaning(table: string, columns: seq<string>, width: nat, rows: seq<seq<Value>>, args: seq<Value>)
    requires IsName(table) && AllNames(columns) && |columns| == width > 0 && |rows| > 0
    requires Rectangular(rows, width) && args == Concat(rows)
    ensures RunInsert(InsertText(table, columns, |rows|), args) == Some(NewRows(columns, rows))
  {
    RowsOfArgs(rows, width);
    AlignedWhole(args);
    BindsRows(columns, width, rows, args, 0);
    InsertRuns(table, columns, width, |rows|, args);
  }

  /** Without rows one tuple is still printed, and the statement is rejected for
      want of arguments. */
  lemma EmptyInsertIsRejected(table: string, columns: seq<string>, width: nat)
    requires IsName(table) && AllNames(columns) && |columns| == width > 0
    ensures InsertText(table, columns, 0) == InsertText(table, columns, 1)
    ensures RunInsert(InsertText(table, columns, 0), []) == None
  {
    InsertRuns(table, columns, width, 1, []);
  }

  lemma RunParsedInsert(text: string, table: string, columns: seq<string>, width: nat, n: nat, args: seq<Value>)
    requires |columns| == width
    requires ParseInsert(Lex(text)) == Got(InsertAst(table, columns, Repeat(width, n)), [], width * n)
    ensures RunInsert(text, args) ==
            if |args| != width * n then None else Some(BindRows(columns, Repeat(width, n), args, 0))
  {
  }

  lemma DivideBack(width: nat, rows: nat)
    requires width > 0
    ensures (width * rows) % width == 0 && (width * rows) / width == rows
  {
    var q, m := (width * rows) / width, (width * rows) % width;
    assert width * rows == width * q + m;
    assert width * (rows - q) == m && width * (q - rows) == -m;
    if rows > q {
      AtLeastFactor(width, rows - q);
    } else if rows < q {
      AtLeastFactor(width, q - rows);
    }
  }

  lemma AtLeastFactor(a: nat, b: nat)
    requires b > 0
    ensures a * b >= a
  {
    assert a * b == a + a * (b - 1);
  }
}
