/** Parsing the tokens of an intended query gives back a tree with the intended
    meaning, and fails exactly when the query is not well formed. */
module SqlParsing {
  import opened Text
  import opened SqlGrammar
  import opened SqlLexing
  import opened SqlBuilder
  import opened SqlMeaning

  function StepArgs(t: Step): seq<Value> {
    LowerStep(t).args
  }

  function ChainArgs(steps: seq<Step>): seq<Value> {
    ArgsOf(Lower(steps))
  }

  lemma ChainArgsCons(steps: seq<Step>)
    requires |steps| > 0
    ensures ChainArgs(steps) == StepArgs(steps[0]) + ChainArgs(steps[1..])
  {
    assert Lower(steps)[1..] == Lower(steps[1..]);
  }

  // ---------------------------------------------------- marks and arguments

  function StepMarks(t: Step): nat
    decreases t
  {
    match t
    case EqualTo(_, _, _) => 1
    case OneOf(_, vs, _) => |vs|
    case IsNull(_, _, _) => 0
    case ExistsRow(q, _) => QueryMarks(q)
  }

  function ChainMarks(steps: seq<Step>): nat
    decreases steps
  {
    if |steps| == 0 then 0 else StepMarks(steps[0]) + ChainMarks(steps[1..])
  }

  function QueryMarks(q: Query): nat
    decreases q
  {
    match q.where case NoWhere => 0 case Clause(steps) => ChainMarks(steps)
  }

  /** Each IS condition contributes one argument and no mark. */
  lemma {:induction false} MarksOfStep(t: Step)
    ensures |StepArgs(t)| == StepMarks(t) + IsCountStep(t)
    decreases t
  {
    if t.ExistsRow? {
      var q := t.query;
      assert StepArgs(t) == QueryArgs(q) && StepMarks(t) == QueryMarks(q) && IsCountStep(t) == IsCount(q);
      if q.where.Clause? {
        MarksOfChain(q.where.steps);
      }
    }
  }

  lemma {:induction false} MarksOfChain(steps: seq<Step>)
    ensures |ChainArgs(steps)| == ChainMarks(steps) + IsCountSteps(steps)
    decreases steps
  {
    if |steps| > 0 {
      ChainArgsCons(steps);
      MarksOfStep(steps[0]);
      MarksOfChain(steps[1..]);
    }
  }

  // ------------------------------------------------------ meaning of a chain

  /** Some AND run after the first one holds. */
  ghost predicate LaterHolds(steps: seq<Step>, db: Database, row: Row) {
    exists i: nat :: 0 < i && Begins(steps, i) && RunHolds(steps, i, db, row)
  }

  lemma ChainSplit(steps: seq<Step>, db: Database, row: Row)
    requires |steps| > 0
    ensures ChainHolds(steps, db, row) <==> RunHolds(steps, 0, db, row) || LaterHolds(steps, db, row)
  {
    assert Begins(steps, 0);
  }

  lemma JoinedShift(steps: seq<Step>, i: nat, k: nat)
    requires |steps| > 0
    ensures Joined(steps, i + 1, k + 1) <==> Joined(steps[1..], i, k)
  {
    var tail := steps[1..];
    if Joined(tail, i, k) {
      assert forall m :: i + 1 <= m < k + 1 ==> steps[m] == tail[m - 1];
    }
    if Joined(steps, i + 1, k + 1) {
      assert forall m :: i <= m < k ==> tail[m] == steps[m + 1];
    }
  }

  lemma RunShift(steps: seq<Step>, i: nat, db: Database, row: Row)
    requires |steps| > 0
    ensures RunHolds(steps, i + 1, db, row) <==> RunHolds(steps[1..], i, db, row)
  {
    var tail := steps[1..];
    if RunHolds(tail, i, db, row) {
      forall k | i + 1 <= k < |steps| && Joined(steps, i + 1, k) ensures StepHolds(steps[k], db, row) {
        JoinedShift(steps, i, k - 1);
        assert steps[k] == tail[k - 1];
      }
    }
    if RunHolds(steps, i + 1, db, row) {
      forall k | i <= k < |tail| && Joined(tail, i, k) ensures StepHolds(tail[k], db, row) {
        JoinedShift(steps, i, k);
        assert tail[k] == steps[k + 1];
      }
    }
  }

  lemma RunCons(steps: seq<Step>, db: Database, row: Row)
    requires |steps| > 0
    ensures RunHolds(steps, 0, db, row) <==>
            StepHolds(steps[0], db, row)
            && (|steps| > 1 && steps[0].link == LinkAnd ==> RunHolds(steps[1..], 0, db, row))
  {
    RunShift(steps, 0, db, row);
    assert Joined(steps, 0, 0);
    if RunHolds(steps, 0, db, row) && steps[0].link == LinkAnd {
      forall k | 1 <= k < |steps| && Joined(steps, 1, k) ensures StepHolds(steps[k], db, row) {
        assert Joined(steps, 0, k);
      }
    }
    if StepHolds(steps[0], db, row) && (|steps| > 1 && steps[0].link == LinkAnd ==> RunHolds(steps, 1, db, row)) {
      forall k | 0 <= k < |steps| && Joined(steps, 0, k) ensures StepHolds(steps[k], db, row) {
        if k > 0 {
          assert steps[0].link == LinkAnd && Joined(steps, 1, k);
        }
      }
    }
  }

  lemma LaterCons(steps: seq<Step>, db: Database, row: Row)
    requires |steps| > 1 && steps[0].link != NoLink
    ensures LaterHolds(steps, db, row) <==>
            if steps[0].link == LinkOr then ChainHolds(steps[1..], db, row) else LaterHolds(steps[1..], db, row)
  {
    var tail := steps[1..];
    if LaterHolds(steps, db, row) {
      var i: nat :| 0 < i && Begins(steps, i) && RunHolds(steps, i, db, row);
      RunShift(steps, i - 1, db, row);
      assert Begins(tail, i - 1);
    }
    if ChainHolds(tail, db, row) && steps[0].link == LinkOr {
      var i: nat :| Begins(tail, i) && RunHolds(tail, i, db, row);
      RunShift(steps, i, db, row);
      assert Begins(steps, i + 1);
    }
    if LaterHolds(tail, db, row) {
      var i: nat :| 0 < i && Begins(tail, i) && RunHolds(tail, i, db, row);
      RunShift(steps, i, db, row);
      assert Begins(steps, i + 1);
    }
  }

  // --------------------------------------------------------------- arguments

  /** From position k on, args continues with xs. */
  ghost predicate Aligned(args: seq<Value>, k: nat, xs: seq<Value>) {
    k + |xs| <= |args| && args[k..k + |xs|] == xs
  }

  lemma AlignedSplit(args: seq<Value>, k: nat, xs: seq<Value>, ys: seq<Value>)
    requires Aligned(args, k, xs + ys)
    ensures Aligned(args, k, xs) && Aligned(args, k + |xs|, ys)
  {
    var zs := xs + ys;
    assert args[k..k + |xs|] == zs[..|xs|] == xs;
    assert args[k + |xs|..k + |xs| + |ys|] == zs[|xs|..] == ys;
  }

  lemma BindAligned(args: seq<Value>, k: nat, xs: seq<Value>)
    requires Aligned(args, k, xs)
    ensures BindRange(args, k, |xs|) == xs
  {
    forall i | 0 <= i < |xs| ensures BindRange(args, k, |xs|)[i] == xs[i] {
      assert args[k..k + |xs|][i] == args[k + i] == Bind(args, k + i);
    }
  }

  ghost predicate MeansStep(a: Ast, t: Step, k: nat) {
    forall args, db, row :: Aligned(args, k, StepArgs(t)) ==>
      (Eval(a, args, db, row) == True <==> StepHolds(t, db, row))
  }

  ghost predicate MeansRun(a: Ast, steps: seq<Step>, k: nat) {
    forall args, db, row :: Aligned(args, k, ChainArgs(steps)) ==>
      (Eval(a, args, db, row) == True <==> RunHolds(steps, 0, db, row))
  }

  ghost predicate MeansLater(a: Ast, steps: seq<Step>, k: nat) {
    forall args, db, row :: Aligned(args, k, ChainArgs(steps)) ==>
      (Eval(a, args, db, row) == True <==> LaterHolds(steps, db, row))
  }

  ghost predicate MeansChain(a: Ast, steps: seq<Step>, k: nat) {
    forall args, db, row :: Aligned(args, k, ChainArgs(steps)) ==>
      (Eval(a, args, db, row) == True <==> ChainHolds(steps, db, row))
  }

  ghost predicate MeansWhere(w: Option<Ast>, where: Where, k: nat) {
    match (w, where)
    case (None, NoWhere) => true
    case (Some(a), Clause(steps)) => MeansChain(a, steps, k)
    case _ => false
  }

  lemma {:induction false} In3True(x: Value, vs: seq<Value>)
    ensures In3(x, vs) == True <==> exists i :: 0 <= i < |vs| && Eq3(x, vs[i]) == True
  {
    if |vs| > 0 {
      In3True(x, vs[1..]);
      if In3(x, vs[1..]) == True {
        var i :| 0 <= i < |vs[1..]| && Eq3(x, vs[1..][i]) == True;
        assert Eq3(x, vs[i + 1]) == True;
      }
      if i :| 0 <= i < |vs| && Eq3(x, vs[i]) == True {
        assert i > 0 ==> vs[1..][i - 1] == vs[i];
      }
    }
  }

  // ------------------------------------------------------------ the parser

  /** What may follow a chain: the end of the text or a closing parenthesis. */
  predicate Closed(tail: seq<Token>) {
    |tail| == 0 || tail[0] == RParen
  }

  /** The parse fails, or stops in front of another condition. */
  predicate Blocked<T>(p: Parsed<T>) {
    p.Fail? || (|p.rest| > 0 && (p.rest[0].Word? || p.rest[0] == EXISTS))
  }

  lemma ParsesEqual(c: string, tail: seq<Token>, k: nat)
    ensures ParseAtom([Word(c), Equals] + TupleTokens(1) + tail, k) == Got(EqA(c, k), tail, k + 1)
  {
    var ts := [Word(c), Equals] + TupleTokens(1) + tail;
    var inner := [Question, RParen] + tail;
    assert ts[2..] == [LParen] + inner;
    assert ([LParen] + inner)[1..] == inner && inner[1..] == [RParen] + tail;
    assert ParseParameter(inner, k) == Got(k, [RParen] + tail, k + 1);
    assert ([RParen] + tail)[1..] == tail;
    assert ParseParameter(ts[2..], k) == Got(k, tail, k + 1);
  }

  lemma ParsesIn(c: string, n: nat, tail: seq<Token>, k: nat)
    ensures ParseAtom([Word(c), IN] + TupleTokens(n) + tail, k)
         == if n == 0 then Fail else Got(InA(c, k, n), tail, k + n)
  {
    var ts := [Word(c), IN] + TupleTokens(n) + tail;
    assert ts[2..] == TupleTokens(n) + tail;
    ParsesTuple(n, tail);
  }

  lemma ParsesIs(c: string, negated: bool, tail: seq<Token>, k: nat)
    ensures ParseAtom([Word(c), IS] + (if negated then [NOT, NULL] else [NULL]) + tail, k)
         == Got(NullA(c, negated), tail, k)
  {
    var ts := [Word(c), IS] + (if negated then [NOT, NULL] else [NULL]) + tail;
    assert if negated then ts[2] == NOT && ts[3] == NULL && ts[4..] == tail else ts[2] == NULL && ts[3..] == tail;
  }

  /** What ParseAtom makes of a step. */
  ghost predicate StepParsed(t: Step, tail: seq<Token>, k: nat, p: Parsed<Ast>) {
    if WellFormedStep(t) then
      p.Got? && p.rest == tail && p.next == k + StepMarks(t)
      && (IsCountStep(t) == 0 ==> MeansStep(p.value, t, k))
    else p.Fail?
  }

  lemma ParsesEqualStep(t: Step, tail: seq<Token>, k: nat)
    requires t.EqualTo?
    ensures StepParsed(t, tail, k, ParseAtom(StepTokens(t) + tail, k))
  {
    ParsesEqual(t.column, tail, k);
    forall args, db: Database, row: Row | Aligned(args, k, StepArgs(t))
      ensures Eval(EqA(t.column, k), args, db, row) == True <==> StepHolds(t, db, row)
    {
      assert args[k] == args[k..k + 1][0];
    }
  }

  lemma InMeaning(t: Step, k: nat)
    requires t.OneOf?
    ensures MeansStep(InA(t.column, k, |t.choices|), t, k)
  {
    var n := |t.choices|;
    forall args, db: Database, row: Row | Aligned(args, k, StepArgs(t))
      ensures Eval(InA(t.column, k, n), args, db, row) == True <==> StepHolds(t, db, row)
    {
      BindAligned(args, k, t.choices);
      In3True(Field(row, t.column), t.choices);
    }
  }

  lemma ParsesInStep(t: Step, tail: seq<Token>, k: nat)
    requires t.OneOf?
    ensures StepParsed(t, tail, k, ParseAtom(StepTokens(t) + tail, k))
  {
    ParsesIn(t.column, |t.choices|, tail, k);
    InMeaning(t, k);
  }

  lemma ExistsMeaning(t: Step, s: SelectAst, k: nat)
    requires t.ExistsRow? && s.table == t.query.table && MeansWhere(s.where, t.query.where, k)
    ensures MeansStep(ExistsA(s), t, k)
  {
    var q := t.query;
    forall args, db: Database, row: Row | Aligned(args, k, StepArgs(t))
      ensures Eval(ExistsA(s), args, db, row) == True <==> StepHolds(t, db, row)
    {
      var rows := TableRows(db, q.table);
      assert StepArgs(t) == QueryArgs(q) == WhereArgs(q.where);
      forall i | 0 <= i < |rows|
        ensures EvalWhere(s.where, args, db, row + rows[i]) == True <==> WhereHolds(q.where, db, row + rows[i])
      {
        WhereMeaning(s.where, q.where, k, args, db, row + rows[i]);
      }
    }
  }

  /** The arguments a clause brings. */
  function WhereArgs(w: Where): seq<Value> {
    match w case NoWhere => [] case Clause(steps) => ChainArgs(steps)
  }

  lemma WhereMeaning(w: Option<Ast>, where: Where, k: nat, args: seq<Value>, db: Database, row: Row)
    requires MeansWhere(w, where, k) && Aligned(args, k, WhereArgs(where))
    ensures EvalWhere(w, args, db, row) == True <==> WhereHolds(where, db, row)
  {
  }

  /** `EXISTS (…)`, given the parse of what is inside. */
  function ExistsOf(p: Parsed<SelectAst>): Parsed<Ast> {
    if p.Got? && Starts(p.rest, RParen) then Got(ExistsA(p.value), p.rest[1..], p.next) else Fail
  }

  lemma AtomOfExists(inner: seq<Token>, k: nat)
    ensures ParseAtom([EXISTS, LParen] + inner, k) == ExistsOf(ParseSelect(inner, k))
  {
    assert ([EXISTS, LParen] + inner)[2..] == inner;
  }

  lemma ParsesExistsStep(t: Step, tail: seq<Token>, k: nat, p: Parsed<SelectAst>)
    requires t.ExistsRow? && QueryParsed(t.query, [RParen] + tail, k, p)
    ensures StepParsed(t, tail, k, ExistsOf(p))
  {
    assert ([RParen] + tail)[1..] == tail;
    if WellFormedStep(t) && IsCountStep(t) == 0 {
      ExistsMeaning(t, p.value, k);
    }
  }

  lemma ExistsTokens(t: Step, tail: seq<Token>)
    requires t.ExistsRow?
    ensures StepTokens(t) + tail == [EXISTS, LParen] + (QueryTokens(t.query) + ([RParen] + tail))
  {
  }

  lemma ParsesIsStep(t: Step, tail: seq<Token>, k: nat)
    requires t.IsNull?
    ensures StepParsed(t, tail, k, ParseAtom(StepTokens(t) + tail, k))
  {
    ParsesIs(t.column, t.negated, tail, k);
  }

  lemma {:induction false} ParsesStep(t: Step, tail: seq<Token>, k: nat)
    requires NamedStep(t)
    ensures StepParsed(t, tail, k, ParseAtom(StepTokens(t) + tail, k))
    decreases t
  {
    match t
    case EqualTo(_, _, _) => ParsesEqualStep(t, tail, k);
    case OneOf(_, _, _) => ParsesInStep(t, tail, k);
    case IsNull(_, _, _) => ParsesIsStep(t, tail, k);
    case ExistsRow(q, _) =>
      ParsesQuery(q, [RParen] + tail, k);
      ExistsTokens(t, tail);
      AtomOfExists(QueryTokens(q) + ([RParen] + tail), k);
      ParsesExistsStep(t, tail, k, ParseSelect(QueryTokens(q) + ([RParen] + tail), k));
  }

  /** What ParseSelect makes of a query. */
  ghost predicate QueryParsed(q: Query, tail: seq<Token>, k: nat, p: Parsed<SelectAst>) {
    if WellFormed(q) then
      p.Got? && p.rest == tail && p.next == k + QueryMarks(q)
      && p.value.table == q.table
      && p.value.columns == (if |q.columns| == 0 then AllColumns else Named(q.columns))
      && (IsCount(q) == 0 ==> MeansWhere(p.value.where, q.where, k))
    else Blocked(p)
  }

  ghost predicate WhereParsed(q: Query, tail: seq<Token>, k: nat, p: Parsed<Option<Ast>>) {
    if WellFormed(q) then
      p.Got? && p.rest == tail && p.next == k + QueryMarks(q)
      && (IsCount(q) == 0 ==> MeansWhere(p.value, q.where, k))
    else Blocked(p)
  }

  /** ParseSelect, given its columns and what its clause parses to. */
  lemma SelectStep(ts: seq<Token>, k: nat, columns: Columns, more: seq<Token>, table: string, w: seq<Token>)
    requires Starts(ts, SELECT) && ParseColumns(ts[1..]) == Got(columns, more, 0)
    requires |more| >= 2 && more[0] == FROM && more[1] == Word(table) && more[2..] == w
    ensures ParseSelect(ts, k) ==
            var p := ParseWhere(w, k);
            if p.Fail? then Fail else Got(SelectAst(columns, table, p.value), p.rest, p.next)
  {
  }

  lemma SelectShape(q: Query, tail: seq<Token>) returns (ts: seq<Token>, columns: Columns, more: seq<Token>, w: seq<Token>)
    requires AllNames(q.columns)
    ensures ts == QueryTokens(q) + tail && w == WhereTokens(q.where) + tail
    ensures Starts(ts, SELECT) && ParseColumns(ts[1..]) == Got(columns, more, 0)
    ensures columns == if |q.columns| == 0 then AllColumns else Named(q.columns)
    ensures |more| >= 2 && more[0] == FROM && more[1] == Word(q.table) && more[2..] == w
  {
    ts, w := QueryTokens(q) + tail, WhereTokens(q.where) + tail;
    more := [FROM, Word(q.table)] + w;
    columns := if |q.columns| == 0 then AllColumns else Named(q.columns);
    assert ts == [SELECT] + (ColumnTokens(q.columns) + more);
    assert ts[1..] == ColumnTokens(q.columns) + more;
    ParsesColumns(q.columns, more);
    assert more[2..] == w;
  }

  lemma SelectFromWhere(q: Query, tail: seq<Token>, k: nat)
    requires AllNames(q.columns)
    requires WhereParsed(q, tail, k, ParseWhere(WhereTokens(q.where) + tail, k))
    ensures QueryParsed(q, tail, k, ParseSelect(QueryTokens(q) + tail, k))
  {
    var ts, columns, more, w := SelectShape(q, tail);
    SelectStep(ts, k, columns, more, q.table, w);
  }

  lemma WhereOfChain(w: seq<Token>, chain: seq<Token>, k: nat)
    requires w == [WHERE] + chain
    ensures ParseWhere(w, k) ==
            var c := ParseOr(chain, k);
            if c.Fail? then Fail else Got(Some(c.value), c.rest, c.next)
  {
    assert w[1..] == chain;
  }

  lemma {:induction false} ParsesWhere(q: Query, tail: seq<Token>, k: nat)
    requires NamedQuery(q) && Closed(tail)
    ensures WhereParsed(q, tail, k, ParseWhere(WhereTokens(q.where) + tail, k))
    decreases q, 0
  {
    match q.where
    case NoWhere => assert WhereTokens(q.where) + tail == tail;
    case Clause(steps) =>
      ParsesChain(steps, tail, k);
      ChainFromRun(steps, tail, k);
      WhereOfChain(WhereTokens(q.where) + tail, ChainTokens(steps) + tail, k);
  }

  lemma {:induction false} ParsesQuery(q: Query, tail: seq<Token>, k: nat)
    requires NamedQuery(q) && Closed(tail)
    ensures QueryParsed(q, tail, k, ParseSelect(QueryTokens(q) + tail, k))
    decreases q, 1
  {
    ParsesWhere(q, tail, k);
    SelectFromWhere(q, tail, k);
  }

  lemma ParsesColumns(columns: seq<string>, tail: seq<Token>)
    requires AllNames(columns) && !Starts(tail, Comma)
    ensures ParseColumns(ColumnTokens(columns) + tail)
         == Got(if |columns| == 0 then AllColumns else Named(columns), tail, 0)
  {
    if |columns| == 0 {
      assert ([Star] + tail)[1..] == tail;
    } else {
      ParsesNames(columns, tail);
    }
  }

  /** What ParseAnd, and ParseOr behind the next OR, make of a chain. */
  ghost predicate RunParsed(steps: seq<Step>, tail: seq<Token>, k: nat, a: Parsed<Ast>) {
    if WellFormedSteps(steps) then
      a.Got? &&
      if Starts(a.rest, OR) then
        var o := ParseOr(a.rest[1..], a.next);
        o.Got? && o.rest == tail && o.next == k + ChainMarks(steps)
        && (IsCountSteps(steps) == 0 ==> MeansRun(a.value, steps, k) && MeansLater(o.value, steps, k))
      else
        a.rest == tail && a.next == k + ChainMarks(steps)
        && (IsCountSteps(steps) == 0 ==>
              MeansRun(a.value, steps, k) && forall db, row :: !LaterHolds(steps, db, row))
    else
      Blocked(a) || (Starts(a.rest, OR) && Blocked(ParseOr(a.rest[1..], a.next)))
  }

  /** What ParseOr makes of a chain. */
  ghost predicate ChainParsed(steps: seq<Step>, tail: seq<Token>, k: nat, p: Parsed<Ast>) {
    if WellFormedSteps(steps) then
      p.Got? && p.rest == tail && p.next == k + ChainMarks(steps)
      && (IsCountSteps(steps) == 0 ==> MeansChain(p.value, steps, k))
    else Blocked(p)
  }

  /** From the run to the whole chain. */
  lemma ChainFromRun(steps: seq<Step>, tail: seq<Token>, k: nat)
    requires Closed(tail)
    requires RunParsed(steps, tail, k, ParseAnd(ChainTokens(steps) + tail, k))
    ensures ChainParsed(steps, tail, k, ParseOr(ChainTokens(steps) + tail, k))
  {
    var p := ParseOr(ChainTokens(steps) + tail, k);
    if WellFormedSteps(steps) && IsCountSteps(steps) == 0 {
      forall args, db: Database, row: Row | Aligned(args, k, ChainArgs(steps))
        ensures Eval(p.value, args, db, row) == True <==> ChainHolds(steps, db, row)
      {
        ChainSplit(steps, db, row);
      }
    }
  }

  // How meanings combine along a chain.

  lemma RunOfAnd(steps: seq<Step>, x: Ast, b: Ast, k: nat, m: nat)
    requires |steps| > 1 && steps[0].link == LinkAnd && m == k + |StepArgs(steps[0])|
    requires MeansStep(x, steps[0], k) && MeansRun(b, steps[1..], m)
    ensures MeansRun(AndA(x, b), steps, k)
  {
    ChainArgsCons(steps);
    forall args, db: Database, row: Row | Aligned(args, k, ChainArgs(steps))
      ensures Eval(AndA(x, b), args, db, row) == True <==> RunHolds(steps, 0, db, row)
    {
      AlignedSplit(args, k, StepArgs(steps[0]), ChainArgs(steps[1..]));
      RunCons(steps, db, row);
    }
  }

  lemma RunOfOne(steps: seq<Step>, x: Ast, k: nat)
    requires |steps| > 0 && (|steps| == 1 || steps[0].link != LinkAnd)
    requires MeansStep(x, steps[0], k)
    ensures MeansRun(x, steps, k)
  {
    ChainArgsCons(steps);
    forall args, db: Database, row: Row | Aligned(args, k, ChainArgs(steps))
      ensures Eval(x, args, db, row) == True <==> RunHolds(steps, 0, db, row)
    {
      AlignedSplit(args, k, StepArgs(steps[0]), ChainArgs(steps[1..]));
      RunCons(steps, db, row);
    }
  }

  lemma LaterOf(steps: seq<Step>, o: Ast, k: nat, m: nat)
    requires |steps| > 1 && steps[0].link != NoLink && m == k + |StepArgs(steps[0])|
    requires if steps[0].link == LinkOr then MeansChain(o, steps[1..], m) else MeansLater(o, steps[1..], m)
    ensures MeansLater(o, steps, k)
  {
    ChainArgsCons(steps);
    forall args, db: Database, row: Row | Aligned(args, k, ChainArgs(steps))
      ensures Eval(o, args, db, row) == True <==> LaterHolds(steps, db, row)
    {
      AlignedSplit(args, k, StepArgs(steps[0]), ChainArgs(steps[1..]));
      LaterCons(steps, db, row);
    }
  }

  /** One step of ParseAnd, given what ParseAtom read. */
  lemma AndStep(ts: seq<Token>, k: nat, x: Ast, next: seq<Token>, m: nat)
    requires ParseAtom(ts, k) == Got(x, next, m)
    ensures ParseAnd(ts, k) ==
            if !Starts(next, AND) then Got(x, next, m)
            else var b := ParseAnd(next[1..], m); if b.Fail? then Fail else Got(AndA(x, b.value), b.rest, b.next)
  {
  }

  lemma RunWithAnd(steps: seq<Step>, tail: seq<Token>, k: nat, m: nat, x: Ast, b: Parsed<Ast>)
    requires |steps| > 1 && steps[0].link == LinkAnd && WellFormedStep(steps[0]) && m == k + StepMarks(steps[0])
    requires IsCountStep(steps[0]) == 0 ==> MeansStep(x, steps[0], k)
    requires RunParsed(steps[1..], tail, m, b)
    ensures RunParsed(steps, tail, k, if b.Fail? then Fail else Got(AndA(x, b.value), b.rest, b.next))
  {
    if WellFormedSteps(steps) && IsCountSteps(steps) == 0 {
      MarksOfStep(steps[0]);
      RunOfAnd(steps, x, b.value, k, m);
      if Starts(b.rest, OR) {
        LaterOf(steps, ParseOr(b.rest[1..], b.next).value, k, m);
      } else {
        forall db, row ensures !LaterHolds(steps, db, row) {
          LaterCons(steps, db, row);
        }
      }
    }
  }

  lemma RunBeforeOr(steps: seq<Step>, tail: seq<Token>, k: nat, m: nat, x: Ast, after: seq<Token>)
    requires |steps| > 1 && steps[0].link == LinkOr && WellFormedStep(steps[0]) && m == k + StepMarks(steps[0])
    requires IsCountStep(steps[0]) == 0 ==> MeansStep(x, steps[0], k)
    requires ChainParsed(steps[1..], tail, m, ParseOr(after, m))
    ensures RunParsed(steps, tail, k, Got(x, [OR] + after, m))
  {
    assert ([OR] + after)[1..] == after;
    if WellFormedSteps(steps) && IsCountSteps(steps) == 0 {
      MarksOfStep(steps[0]);
      RunOfOne(steps, x, k);
      LaterOf(steps, ParseOr(after, m).value, k, m);
    }
  }

  lemma RunOfLast(steps: seq<Step>, tail: seq<Token>, k: nat, x: Ast)
    requires |steps| == 1 && WellFormedStep(steps[0]) && Closed(tail)
    requires IsCountStep(steps[0]) == 0 ==> MeansStep(x, steps[0], k)
    ensures RunParsed(steps, tail, k, Got(x, tail, k + StepMarks(steps[0])))
  {
    assert ChainMarks(steps[1..]) == 0 && IsCountSteps(steps[1..]) == 0;
    if IsCountSteps(steps) == 0 {
      RunOfOne(steps, x, k);
    }
  }

  lemma StepStart(t: Step)
    ensures |StepTokens(t)| > 0 && (StepTokens(t)[0].Word? || StepTokens(t)[0] == EXISTS)
  {
  }

  /** A chain of two or more conditions, given the parse of its tail. */
  lemma ParsesCons(steps: seq<Step>, tail: seq<Token>, k: nat, m: nat, ts: seq<Token>, x: Ast, after: seq<Token>)
    requires |steps| > 1 && WellFormedStep(steps[0]) && Closed(tail) && m == k + StepMarks(steps[0])
    requires after == ChainTokens(steps[1..]) + tail
    requires ParseAtom(ts, k) == Got(x, LinkTokens(steps[0].link) + after, m)
    requires IsCountStep(steps[0]) == 0 ==> MeansStep(x, steps[0], k)
    requires RunParsed(steps[1..], tail, m, ParseAnd(after, m))
    ensures RunParsed(steps, tail, k, ParseAnd(ts, k))
  {
    var next := LinkTokens(steps[0].link) + after;
    AndStep(ts, k, x, next, m);
    match steps[0].link
    case NoLink =>
      StepStart(steps[1]);
      assert next[0] == after[0] == ChainTokens(steps[1..])[0] == StepTokens(steps[1])[0];
    case LinkAnd =>
      assert next[1..] == after;
      RunWithAnd(steps, tail, k, m, x, ParseAnd(after, m));
    case LinkOr =>
      ChainFromRun(steps[1..], tail, m);
      RunBeforeOr(steps, tail, k, m, x, after);
  }

  /** The tokens behind the first condition. */
  function AfterFirst(steps: seq<Step>, tail: seq<Token>): seq<Token>
    requires |steps| > 0
  {
    (if |steps| > 1 then LinkTokens(steps[0].link) else []) + (ChainTokens(steps[1..]) + tail)
  }

  lemma ChainTokensCons(steps: seq<Step>, tail: seq<Token>)
    requires |steps| > 0
    ensures ChainTokens(steps) + tail == StepTokens(steps[0]) + AfterFirst(steps, tail)
    ensures |steps| == 1 ==> AfterFirst(steps, tail) == tail
  {
    var first, rest := StepTokens(steps[0]), ChainTokens(steps[1..]);
    var link := if |steps| > 1 then LinkTokens(steps[0].link) else [];
    Regroup(first, link, rest);
    Regroup(first, link + rest, tail);
    Regroup(link, rest, tail);
  }

  lemma EmptyChain(tail: seq<Token>, k: nat)
    requires Closed(tail)
    ensures ParseAnd(ChainTokens([]) + tail, k) == Fail
  {
    assert ChainTokens([]) + tail == tail;
  }

  lemma {:induction false} ParsesChain(steps: seq<Step>, tail: seq<Token>, k: nat)
    requires NamedSteps(steps) && Closed(tail)
    ensures RunParsed(steps, tail, k, ParseAnd(ChainTokens(steps) + tail, k))
    decreases steps
  {
    if |steps| == 0 {
      EmptyChain(tail, k);
    } else {
      var t := steps[0];
      var ts := StepTokens(t) + AfterFirst(steps, tail);
      assert NamedStep(t);
      ChainTokensCons(steps, tail);
      ParsesStep(t, AfterFirst(steps, tail), k);
      if WellFormedStep(t) {
        var p := ParseAtom(ts, k);
        if |steps| == 1 {
          AndStep(ts, k, p.value, tail, p.next);
          RunOfLast(steps, tail, k, p.value);
        } else {
          ParsesChain(steps[1..], tail, p.next);
          ParsesCons(steps, tail, k, p.next, ts, p.value, ChainTokens(steps[1..]) + tail);
        }
      }
    }
  }
}
