/** The placeholder law: marks in the text against arguments collected, for any
    chain of calls, counted character by character. */
module SqlPlaceholders {
  import opened Text
  import opened SqlGrammar
  import opened SqlBuilder
  import opened SqlLexing
  import opened SqlMeaning
  import opened SqlTheorems

  function Marks(s: string): nat {
    Count(s, '?')
  }

  /** No stray mark: names and operators have none, and an IS text has none. */
  predicate Plain(c: Condition) {
    c.Printable() &&
    match c.operator
    case OpExists => true
    case OpIs => '?' !in c.column && '?' !in c.args[0].s
    case OpOther(op) => '?' !in c.column && '?' !in op
    case _ => '?' !in c.column
  }

  ghost predicate AllPlain(cs: seq<Condition>) {
    forall i :: 0 <= i < |cs| ==> Plain(cs[i])
  }

  /** The arguments a condition brings beyond its marks: one for IS, and for a subquery
      what its own text lacks. */
  function Silent(c: Condition): int {
    match c.operator
    case OpIs => 1
    case OpExists => |c.args| - Marks(c.column)
    case _ => 0
  }

  function Silents(cs: seq<Condition>): int {
    if |cs| == 0 then 0 else Silent(cs[0]) + Silents(cs[1..])
  }

  /** Marks add up over joined parts; the separators used carry none. */
  function PartMarks(parts: seq<string>): nat {
    if |parts| == 0 then 0 else Marks(parts[0]) + PartMarks(parts[1..])
  }

  lemma {:induction false} JoinMarks(parts: seq<string>, sep: string)
    requires '?' !in sep
    ensures Marks(Join(parts, sep)) == PartMarks(parts)
  {
    if |parts| == 1 {
      assert parts[1..] == [];
    } else if |parts| > 1 {
      JoinMarks(parts[1..], sep);
      CountAppend(parts[0] + sep, Join(parts[1..], sep), '?');
      CountAppend(parts[0], sep, '?');
      CountAbsent(sep, '?');
    }
  }

  lemma Marks3(a: string, b: string, c: string)
    ensures Marks(a + b + c) == Marks(a) + Marks(b) + Marks(c)
  {
    CountAppend(a + b, c, '?');
    CountAppend(a, b, '?');
  }

  lemma {:induction false} RepeatMarks(s: string, n: nat)
    ensures PartMarks(Repeat(s, n)) == Marks(s) * n
  {
    if n > 0 {
      assert Repeat(s, n)[1..] == Repeat(s, n - 1);
      RepeatMarks(s, n - 1);
      assert Marks(s) + Marks(s) * (n - 1) == Marks(s) * n;
    }
  }

  /** A placeholder text has count × repeat marks, repeat being at least one. */
  lemma PlaceholderMarks(count: nat, repeat: int)
    ensures Marks(Placeholder(count, repeat)) == count * Clamp(repeat, 1)
  {
    OneMark("?");
    RepeatMarks("?", count);
    JoinMarks(Repeat("?", count), ",");
    NoMarks("(");
    NoMarks(")");
    Marks3("(", Join(Repeat("?", count), ","), ")");
    RepeatMarks(Tuple(count), Clamp(repeat, 1));
    JoinMarks(Repeat(Tuple(count), Clamp(repeat, 1)), ",");
  }

  lemma OneMark(s: string)
    requires s == "?"
    ensures Marks(s) == 1
  {
    assert s[0] == '?' && |s[1..]| == 0;
    assert Count(s[1..], '?') == 0;
  }

  lemma NoMarks(s: string)
    requires '?' !in s
    ensures Marks(s) == 0
  {
    CountAbsent(s, '?');
  }

  lemma OperatorMarks(column: string, op: string, rest: string)
    requires '?' !in column && '?' !in op
    ensures Marks(column + Spaced(op) + rest) == Marks(rest)
  {
    NoMarks(column);
    NoMarks(Spaced(op));
    Marks3(column, Spaced(op), rest);
  }

  lemma ExistsMarks(text: string)
    ensures Marks("EXISTS" + " " + ("(" + text + ")")) == Marks(text)
  {
    NoMarks("EXISTS" + " ");
    NoMarks("(");
    NoMarks(")");
    Marks3("(", text, ")");
    CountAppend("EXISTS" + " ", "(" + text + ")", '?');
  }

  lemma TupleMarks(n: nat)
    ensures Marks(Placeholder(n, 1)) == n
  {
    PlaceholderMarks(n, 1);
    TimesOne(n, Clamp(1, 1));
  }

  lemma TimesOne(n: nat, k: nat)
    requires k == 1
    ensures n * k == n
  {
  }

  lemma NodeMarks(c: Condition)
    requires Plain(c)
    ensures Marks(NodeText(c)) + Silent(c) == |c.args|
  {
    var n := |c.args|;
    TupleMarks(n);
    match c.operator
    case OpIn => OperatorMarks(c.column, "IN", Placeholder(n, 1));
    case OpEqual => OperatorMarks(c.column, "=", Placeholder(n, 1));
    case OpOther(op) => OperatorMarks(c.column, op, Placeholder(n, 1));
    case OpIs =>
      NoMarks(c.args[0].s);
      OperatorMarks(c.column, "IS", c.args[0].s);
    case OpExists => ExistsMarks(c.column);
  }

  lemma {:induction false} PieceMarks(cs: seq<Condition>)
    requires AllPlain(cs)
    ensures AllPrintable(cs)
    ensures PartMarks(Pieces(cs)) + Silents(cs) == |ArgsOf(cs)|
  {
    if |cs| > 0 {
      NodeMarks(cs[0]);
      PieceMarks(cs[1..]);
      var link := PrintedLink(cs, 0);
      assert PartMarks(link + Pieces(cs[1..])) == PartMarks(Pieces(cs[1..])) by {
        if |link| > 0 {
          NoMarks("AND");
          NoMarks("OR");
          assert (link + Pieces(cs[1..]))[1..] == Pieces(cs[1..]);
        } else {
          assert link + Pieces(cs[1..]) == Pieces(cs[1..]);
        }
      }
      Regroup([NodeText(cs[0])], link, Pieces(cs[1..]));
      assert Pieces(cs)[1..] == link + Pieces(cs[1..]);
    }
  }

  /** A clause prints one mark per argument but for the silent ones. */
  lemma PlaceholderLaw(cs: seq<Condition>)
    requires AllPlain(cs)
    ensures AllPrintable(cs)
    ensures Marks(WhereText(cs)) == |ArgsOf(cs)| - Silents(cs)
  {
    PieceMarks(cs);
    JoinMarks(Pieces(cs), " ");
    NoMarks("WHERE" + " ");
    CountAppend("WHERE" + " ", Join(Pieces(cs), " "), '?');
  }

  lemma NameHasNoMark(name: string)
    requires IsName(name)
    ensures '?' !in name
  {
    assert !IsWordChar('?');
  }

  lemma {:induction false} ColumnsHaveNoMark(columns: seq<string>)
    requires AllNames(columns)
    ensures PartMarks(columns) == 0
  {
    if |columns| > 0 {
      NameHasNoMark(columns[0]);
      NoMarks(columns[0]);
      ColumnsHaveNoMark(columns[1..]);
    }
  }

  lemma SelectMainMarks(table: string, columns: seq<string>)
    requires IsName(table) && (columns == ["*"] || AllNames(columns))
    ensures Marks(SelectMain(table, columns)) == 0
  {
    if columns == ["*"] {
      NoMarks("*");
      assert PartMarks(columns) == Marks(columns[0]) + PartMarks(columns[1..]);
    } else {
      ColumnsHaveNoMark(columns);
    }
    JoinMarks(columns, ",");
    NoMarks("SELECT" + " ");
    NoMarks(Spaced("FROM"));
    NameHasNoMark(table);
    NoMarks(table);
    Marks3("SELECT" + " ", Join(columns, ","), Spaced("FROM"));
    CountAppend("SELECT" + " " + Join(columns, ",") + Spaced("FROM"), table, '?');
  }

  lemma NullTextHasNoMark(negated: bool)
    ensures '?' !in if negated then "NOT" + " " + "NULL" else "NULL"
  {
  }

  /** The silent arguments of a step are the IS conditions in it, at any depth. */
  lemma {:induction false} StepSilent(t: Step)
    requires NamedStep(t)
    ensures Plain(LowerStep(t)) && Silent(LowerStep(t)) == IsCountStep(t)
    decreases t
  {
    match t
    case EqualTo(c, _, _) => NameHasNoMark(c);
    case OneOf(c, _, _) => NameHasNoMark(c);
    case IsNull(c, negated, _) =>
      NameHasNoMark(c);
      NullTextHasNoMark(negated);
    case ExistsRow(q, _) => QueryPlaceholderLaw(q);
  }

  lemma {:induction false} StepsSilent(steps: seq<Step>)
    requires NamedSteps(steps)
    ensures AllPlain(Lower(steps)) && Silents(Lower(steps)) == IsCountSteps(steps)
    decreases steps
  {
    if |steps| > 0 {
      StepSilent(steps[0]);
      StepsSilent(steps[1..]);
      assert Lower(steps)[1..] == Lower(steps[1..]);
    }
  }

  /** The marks in the text of a query are its arguments less its IS conditions, subqueries
      of any depth included; so the two agree exactly when IS occurs nowhere. */
  lemma {:induction false} QueryPlaceholderLaw(q: Query)
    requires NamedQuery(q)
    ensures Marks(QueryText(q)) == |QueryArgs(q)| - IsCount(q)
    decreases q
  {
    var main := SelectMain(q.table, if |q.columns| == 0 then ["*"] else q.columns);
    SelectMainMarks(q.table, if |q.columns| == 0 then ["*"] else q.columns);
    match q.where
    case NoWhere =>
    case Clause(steps) =>
      StepsSilent(steps);
      PlaceholderLaw(Lower(steps));
      NoMarks(" ");
      Marks3(main, " ", WhereText(Lower(steps)));
  }

  lemma {:induction false} SetMarks(columns: seq<string>)
    requires forall i :: 0 <= i < |columns| ==> '?' !in columns[i]
    ensures PartMarks(MapSeq(columns, (c: string) => c + " = ?")) == |columns|
  {
    if |columns| > 0 {
      var f := (c: string) => c + " = ?";
      SetMarks(columns[1..]);
      assert MapSeq(columns, f)[1..] == MapSeq(columns[1..], f);
      NoMarks(columns[0]);
      OneSetMark(" = ?");
      CountAppend(columns[0], " = ?", '?');
    }
  }

  lemma OneSetMark(s: string)
    requires s == " = ?"
    ensures Marks(s) == 1
  {
    assert s[1..] == "= ?" && s[1..][1..] == " ?" && s[1..][1..][1..] == "?";
    OneMark(s[1..][1..][1..]);
    assert Marks(s[1..][1..]) == 1;
    assert Marks(s[1..]) == 1;
  }

  /** An UPDATE prints one mark per SET column, before those of its clause. */
  lemma UpdatePlaceholderLaw(table: string, columns: seq<string>, cs: seq<Condition>)
    requires '?' !in table && AllPlain(cs)
    requires forall i :: 0 <= i < |columns| ==> '?' !in columns[i]
    ensures AllPrintable(cs)
    ensures Marks(UpdateMain(table, columns)) == |columns|
    ensures Marks(UpdateMain(table, columns) + " " + WhereText(cs)) == |columns| + |ArgsOf(cs)| - Silents(cs)
  {
    PlaceholderLaw(cs);
    SetMarks(columns);
    JoinMarks(MapSeq(columns, (c: string) => c + " = ?"), ",");
    NoMarks("UPDATE" + " " + table);
    NoMarks(Spaced("SET"));
    NoMarks(" ");
    Marks3("UPDATE" + " " + table, Spaced("SET"), SetText(columns));
    Marks3(UpdateMain(table, columns), " ", WhereText(cs));
  }

  /** The same law for a whole UPDATE, subqueries of any depth included. */
  lemma ChangePlaceholderLaw(c: Change)
    requires NamedQuery(WhereOf(c)) && AllNames(c.columns) && |c.values| == |c.columns|
    ensures Marks(ChangeText(c)) == |ChangeArgs(c)| - IsCount(WhereOf(c))
  {
    NameHasNoMark(c.table);
    forall i | 0 <= i < |c.columns| ensures '?' !in c.columns[i] {
      NameHasNoMark(c.columns[i]);
    }
    match c.where
    case NoWhere => UpdatePlaceholderLaw(c.table, c.columns, []);
    case Clause(steps) =>
      StepsSilent(steps);
      UpdatePlaceholderLaw(c.table, c.columns, Lower(steps));
  }
}
