/** The main result about the query builder: the text it prints and the arguments
    it collects, read back by the reference grammar, mean what the caller chained. */
module SqlMeaning {
  import opened Text
  import opened SqlGrammar
  import opened SqlLexing
  import opened SqlBuilder

  // ---------------------------------------------------------------- intent

  /** What a caller wants to select; subqueries nest. */
  datatype Query = Query(table: string, columns: seq<string>, where: Where)
  datatype Where = NoWhere | Clause(steps: seq<Step>)
  /** One condition and the And/Or called after it, if any. */
  datatype Step =
    | EqualTo(column: string, arg: Value, link: Logic)
    | OneOf(column: string, choices: seq<Value>, link: Logic)
    | IsNull(column: string, negated: bool, link: Logic)
    | ExistsRow(query: Query, link: Logic)

  ghost predicate StepHolds(t: Step, db: Database, row: Row)
    decreases t
  {
    match t
    case EqualTo(c, v, _) => Eq3(Field(row, c), v) == True
    case OneOf(c, vs, _) => exists i :: 0 <= i < |vs| && Eq3(Field(row, c), vs[i]) == True
    case IsNull(c, negated, _) => (Field(row, c) == Null) != negated
    case ExistsRow(q, _) =>
      var rows := TableRows(db, q.table);
      exists i :: 0 <= i < |rows| && WhereHolds(q.where, db, row + rows[i])
  }

  ghost predicate WhereHolds(w: Where, db: Database, row: Row)
    decreases w
  {
    match w
    case NoWhere => true
    case Clause(steps) => ChainHolds(steps, db, row)
  }

  /** Positions i..k are joined by ANDs only. */
  predicate Joined(steps: seq<Step>, i: nat, k: nat) {
    k < |steps| && forall m :: i <= m < k ==> steps[m].link == LinkAnd
  }

  /** Every condition joined by ANDs to position i holds. */
  ghost predicate RunHolds(steps: seq<Step>, i: nat, db: Database, row: Row)
    decreases steps, 0
  {
    forall k | i <= k < |steps| && Joined(steps, i, k) :: StepHolds(steps[k], db, row)
  }

  ghost predicate Begins(steps: seq<Step>, i: nat) {
    i < |steps| && (i == 0 || steps[i - 1].link == LinkOr)
  }

  /** A chain holds when some maximal AND run in it holds in full. */
  ghost predicate ChainHolds(steps: seq<Step>, db: Database, row: Row)
    decreases steps, 1
  {
    exists i :: Begins(steps, i) && RunHolds(steps, i, db, row)
  }

  ghost function Intended(q: Query, db: Database): seq<Row> {
    MapSeq(Filter(TableRows(db, q.table), (row: Row) => WhereHolds(q.where, db, row)),
           (row: Row) => Project(if |q.columns| == 0 then AllColumns else Named(q.columns), row))
  }

  // ------------------------------------------ the builder calls of an intent

  function LowerStep(t: Step): (c: Condition)
    ensures c.Printable() && c.link == t.link
    decreases t
  {
    match t
    case EqualTo(c, v, _) => Condition(c, OpEqual, [v], t.link)
    case OneOf(c, vs, _) => Condition(c, OpIn, vs, t.link)
    case IsNull(c, negated, _) => Condition(c, OpIs, [Str(if negated then "NOT" + " " + "NULL" else "NULL")], t.link)
    case ExistsRow(q, _) => Condition(QueryText(q), OpExists, QueryArgs(q), t.link)
  }

  function Lower(steps: seq<Step>): (cs: seq<Condition>)
    ensures |cs| == |steps| && AllPrintable(cs)
    decreases steps
  {
    if |steps| == 0 then [] else [LowerStep(steps[0])] + Lower(steps[1..])
  }

  function QueryText(q: Query): string
    decreases q
  {
    var main := SelectMain(q.table, if |q.columns| == 0 then ["*"] else q.columns);
    match q.where case NoWhere => main case Clause(steps) => main + " " + WhereText(Lower(steps))
  }

  function QueryArgs(q: Query): seq<Value>
    decreases q
  {
    match q.where case NoWhere => [] case Clause(steps) => ArgsOf(Lower(steps))
  }

  // -------------------------------------------------- what can be understood

  /** Tables and columns are plain names, at every depth. */
  ghost predicate NamedStep(t: Step)
    decreases t
  {
    match t
    case EqualTo(c, _, _) => IsName(c)
    case OneOf(c, _, _) => IsName(c)
    case IsNull(c, _, _) => IsName(c)
    case ExistsRow(q, _) => NamedQuery(q)
  }

  ghost predicate NamedSteps(steps: seq<Step>)
    decreases steps
  {
    forall i :: 0 <= i < |steps| ==> NamedStep(steps[i])
  }

  ghost predicate NamedQuery(q: Query)
    decreases q
  {
    IsName(q.table) && AllNames(q.columns) && (q.where.Clause? ==> NamedSteps(q.where.steps))
  }

  /** The statement parses: no empty list, no empty clause, and an And or Or
      between every two conditions. */
  predicate WellFormedStep(t: Step)
    decreases t
  {
    match t
    case EqualTo(_, _, _) => true
    case OneOf(_, vs, _) => |vs| > 0
    case IsNull(_, _, _) => true
    case ExistsRow(q, _) => WellFormed(q)
  }

  predicate WellFormedSteps(steps: seq<Step>)
    decreases steps
  {
    |steps| > 0 && WellFormedStep(steps[0])
    && (|steps| > 1 ==> steps[0].link != NoLink && WellFormedSteps(steps[1..]))
  }

  predicate WellFormed(q: Query)
    decreases q
  {
    q.where.Clause? ==> WellFormedSteps(q.where.steps)
  }

  /** How many IS conditions occur, at any depth. */
  function IsCountStep(t: Step): nat
    decreases t
  {
    match t case IsNull(_, _, _) => 1 case ExistsRow(q, _) => IsCount(q) case _ => 0
  }

  function IsCountSteps(steps: seq<Step>): nat
    decreases steps
  {
    if |steps| == 0 then 0 else IsCountStep(steps[0]) + IsCountSteps(steps[1..])
  }

  function IsCount(q: Query): nat
    decreases q
  {
    match q.where case NoWhere => 0 case Clause(steps) => IsCountSteps(steps)
  }

  // ------------------------------------------------------- text to tokens

  function StepTokens(t: Step): seq<Token>
    decreases t
  {
    match t
    case EqualTo(c, _, _) => [Word(c), Equals] + TupleTokens(1)
    case OneOf(c, vs, _) => [Word(c), IN] + TupleTokens(|vs|)
    case IsNull(c, negated, _) => [Word(c), IS] + (if negated then [NOT, NULL] else [NULL])
    case ExistsRow(q, _) => [EXISTS, LParen] + QueryTokens(q) + [RParen]
  }

  function LinkTokens(l: Logic): seq<Token> {
    match l case NoLink => [] case LinkAnd => [AND] case LinkOr => [OR]
  }

  function ChainTokens(steps: seq<Step>): seq<Token>
    decreases steps
  {
    if |steps| == 0 then []
    else StepTokens(steps[0]) + (if |steps| > 1 then LinkTokens(steps[0].link) else []) + ChainTokens(steps[1..])
  }

  function ColumnTokens(columns: seq<string>): seq<Token> {
    if |columns| == 0 then [Star] else NameTokens(columns)
  }

  function WhereTokens(w: Where): seq<Token>
    decreases w
  {
    match w case NoWhere => [] case Clause(steps) => [WHERE] + ChainTokens(steps)
  }

  function QueryTokens(q: Query): seq<Token>
    decreases q
  {
    [SELECT] + ColumnTokens(q.columns) + [FROM, Word(q.table)] + WhereTokens(q.where)
  }

  lemma LexTuple(n: nat)
    ensures Lex(Placeholder(n, 1)) == TupleTokens(n)
  {
    assert Repeat(Tuple(n), 1) == [Tuple(n)];
    LexMarks(n);
    LexSymbol('(');
    LexSymbol(')');
    var marks := Join(Repeat("?", n), ",");
    LexConcat("(", marks);
    LexConcat("(" + marks, ")");
  }

  lemma LexNullTest(negated: bool)
    ensures Lex(if negated then "NOT" + " " + "NULL" else "NULL") == if negated then [NOT, NULL] else [NULL]
  {
    ReadNull();
    ReadNot();
    LexPrefix("NOT", "NULL", NOT);
  }

  lemma LexEqual(c: string, n: nat)
    requires IsName(c)
    ensures Lex(c + Spaced("=") + Placeholder(n, 1)) == [Word(c), Equals] + TupleTokens(n)
  {
    LexWord(c);
    LexTuple(n);
    LexEquals(c, Placeholder(n, 1));
  }

  lemma LexIn(c: string, n: nat)
    requires IsName(c)
    ensures Lex(c + Spaced("IN") + Placeholder(n, 1)) == [Word(c), IN] + TupleTokens(n)
  {
    ReadIn();
    LexWord(c);
    LexTuple(n);
    LexInfix(c, "IN", Placeholder(n, 1), IN);
  }

  lemma LexIs(c: string, negated: bool)
    requires IsName(c)
    ensures Lex(c + Spaced("IS") + (if negated then "NOT" + " " + "NULL" else "NULL"))
         == [Word(c), IS] + (if negated then [NOT, NULL] else [NULL])
  {
    ReadIs();
    LexWord(c);
    LexNullTest(negated);
    LexInfix(c, "IS", if negated then "NOT" + " " + "NULL" else "NULL", IS);
  }

  lemma LexExists(text: string)
    ensures Lex("EXISTS" + " " + ("(" + text + ")")) == [EXISTS, LParen] + Lex(text) + [RParen]
  {
    ReadExists();
    LexCall("EXISTS", text, EXISTS);
  }

  lemma LexColumns(columns: seq<string>)
    requires AllNames(columns)
    ensures Lex(Join(if |columns| == 0 then ["*"] else columns, ",")) == ColumnTokens(columns)
  {
    if |columns| == 0 {
      LexSymbol('*');
      assert Join(["*"], ",") == ['*'];
    } else {
      LexNames(columns);
    }
  }

  lemma SelectTokens(a: Token, columns: seq<Token>, b: Token, x: Token)
    ensures [a] + columns + [b] + [x] == [a] + columns + [b, x]
  {
  }

  lemma LexMain(table: string, columns: seq<string>)
    requires IsName(table) && AllNames(columns)
    ensures Lex(SelectMain(table, if |columns| == 0 then ["*"] else columns))
         == [SELECT] + ColumnTokens(columns) + [FROM, Word(table)]
  {
    ReadSelect();
    ReadFrom();
    LexTwoKeywords("SELECT", Join(if |columns| == 0 then ["*"] else columns, ","), "FROM", table, SELECT, FROM);
    LexWord(table);
    LexColumns(columns);
    SelectTokens(SELECT, ColumnTokens(columns), FROM, Word(table));
  }

  lemma {:induction false} LexStepText(t: Step)
    requires NamedStep(t)
    ensures Lex(NodeText(LowerStep(t))) == StepTokens(t)
    decreases t
  {
    match t
    case EqualTo(c, v, _) => LexEqual(c, 1);
    case OneOf(c, vs, _) => LexIn(c, |vs|);
    case IsNull(c, negated, _) => LexIs(c, negated);
    case ExistsRow(q, _) =>
      LexQueryText(q);
      LexExists(QueryText(q));
  }

  lemma {:induction false} LexChainText(steps: seq<Step>)
    requires NamedSteps(steps)
    ensures Lex(Join(Pieces(Lower(steps)), " ")) == ChainTokens(steps)
    decreases steps
  {
    LexSymbol(' ');
    LexJoin(Pieces(Lower(steps)), " ");
    ChainAsJoin(steps);
  }

  lemma LexLink(l: Logic)
    ensures l != NoLink ==> |LinkText(l)| == 1 && Lex(LinkText(l)[0]) == LinkTokens(l)
  {
    ReadAnd();
    ReadOr();
  }

  lemma JoinTokensCons(x: string, parts: seq<string>)
    ensures JoinTokens([x] + parts, []) == Lex(x) + JoinTokens(parts, [])
  {
    assert ([x] + parts)[1..] == parts;
  }

  lemma JoinLinked(x: string, link: seq<string>, rest: seq<string>)
    requires |link| <= 1
    ensures JoinTokens([x] + link + rest, [])
         == Lex(x) + (if |link| == 0 then [] else Lex(link[0])) + JoinTokens(rest, [])
  {
    Regroup([x], link, rest);
    JoinTokensCons(x, link + rest);
    if |link| == 1 {
      assert link == [link[0]];
      JoinTokensCons(link[0], rest);
      Regroup(Lex(x), Lex(link[0]), JoinTokens(rest, []));
    } else {
      assert link + rest == rest;
    }
  }

  lemma {:induction false} ChainAsJoin(steps: seq<Step>)
    requires NamedSteps(steps)
    ensures JoinTokens(Pieces(Lower(steps)), []) == ChainTokens(steps)
    decreases steps, 0
  {
    if |steps| > 0 {
      var cs := Lower(steps);
      assert cs[1..] == Lower(steps[1..]);
      assert NamedStep(steps[0]);
      LexStepText(steps[0]);
      ChainAsJoin(steps[1..]);
      LexLink(steps[0].link);
      JoinLinked(NodeText(cs[0]), PrintedLink(cs, 0), Pieces(cs[1..]));
    }
  }

  lemma {:induction false} LexQueryText(q: Query)
    requires NamedQuery(q)
    ensures Lex(QueryText(q)) == QueryTokens(q)
    decreases q
  {
    LexMain(q.table, q.columns);
    if q.where.Clause? {
      LexChainText(q.where.steps);
      LexWhere(SelectMain(q.table, if |q.columns| == 0 then ["*"] else q.columns), Lower(q.where.steps));
    }
  }

  lemma LexWhere(main: string, cs: seq<Condition>)
    requires AllPrintable(cs)
    ensures Lex(main + " " + WhereText(cs)) == Lex(main) + [WHERE] + Lex(Join(Pieces(cs), " "))
  {
    ReadWhere();
    LexClause(main, "WHERE", Join(Pieces(cs), " "), WHERE);
  }
}
