/** Callers of the builder: chaining an intended query on the mutable objects gives
    the text and the arguments that mean it. */
module SqlDriver {
  import opened Text
  import opened SqlGrammar
  import opened SqlBuilder
  import opened SqlMeaning
  import opened SqlParsing
  import opened SqlTheorems

  lemma {:induction false} LowerSnoc(steps: seq<Step>, t: Step)
    ensures Lower(steps + [t]) == Lower(steps) + [LowerStep(t)]
  {
    if |steps| == 0 {
      assert steps + [t] == [t] && [t][1..] == [];
    } else {
      assert (steps + [t])[1..] == steps[1..] + [t];
      LowerSnoc(steps[1..], t);
    }
  }

  lemma {:induction false} ArgsSnoc(cs: seq<Condition>, c: Condition)
    ensures ArgsOf(cs + [c]) == ArgsOf(cs) + c.args
  {
    if |cs| == 0 {
      assert cs + [c] == [c] && [c][1..] == [];
    } else {
      assert (cs + [c])[1..] == cs[1..] + [c];
      ArgsSnoc(cs[1..], c);
    }
  }

  /** One call of Equal, In, Is or Exists. */
  method AddTest(c: ConditionClause, t: Step)
    requires c.Valid()
    modifies c, c.nodes, c.builder.Object()
    ensures c.Appended(LowerStep(t).(link := NoLink))
    decreases t, 0
  {
    match t {
      case EqualTo(column, arg, _) => var _ := c.Equal(column, arg);
      case OneOf(column, choices, _) => var _ := c.In(column, choices);
      case IsNull(column, negated, _) => var _ := c.Is(column, if negated then "NOT" + " " + "NULL" else "NULL");
      case ExistsRow(q, _) =>
        var text, args := SelectOf(q);
        var _ := c.Exists(text, args);
    }
  }

  /** A call of And or Or, if the step has a link. */
  method AddLink(c: ConditionClause, link: Logic, ghost before: seq<Condition>, ghost last: Condition)
    requires c.Valid() && c.conditions == before + [last] && last.link == NoLink
    modifies c`conditions, c.nodes
    ensures c.Valid() && c.conditions == before + [last.(link := link)] && c.nodes == old(c.nodes)
  {
    match link {
      case NoLink =>
      case LinkAnd => var _ := c.And();
      case LinkOr => var _ := c.Or();
    }
  }

  method Extend(c: ConditionClause, t: Step)
    requires c.Valid()
    modifies c, c.nodes, c.builder.Object()
    ensures c.Valid() && c.conditions == old(c.conditions) + [LowerStep(t)]
    ensures c.builder.Args() == old(c.builder.Args()) + LowerStep(t).args && c.builder.Where() == old(c.builder.Where())
    ensures fresh(set n | n in c.nodes && n !in old(c.nodes))
    decreases t, 1
  {
    AddTest(c, t);
    assert c.nodes == old(c.nodes) + [c.nodes[|c.nodes| - 1]];
    AddLink(c, t.link, old(c.conditions), LowerStep(t).(link := NoLink));
  }

  lemma LowerPrefix(steps: seq<Step>, i: nat)
    requires i < |steps|
    ensures Lower(steps[..i + 1]) == Lower(steps[..i]) + [LowerStep(steps[i])]
    ensures ArgsOf(Lower(steps[..i + 1])) == ArgsOf(Lower(steps[..i])) + LowerStep(steps[i]).args
  {
    assert steps[..i + 1] == steps[..i] + [steps[i]];
    LowerSnoc(steps[..i], steps[i]);
    ArgsSnoc(Lower(steps[..i]), LowerStep(steps[i]));
  }

  /** The first i steps have been chained on a clause that started with `base`. */
  ghost predicate Chained(c: ConditionClause, steps: seq<Step>, i: nat, base: seq<Value>)
    requires i <= |steps|
    reads c, c.nodes, c.builder.Object()
  {
    c.Valid() && c.conditions == Lower(steps[..i]) && c.builder.Args() == base + ArgsOf(Lower(steps[..i]))
  }

  method ExtendNext(c: ConditionClause, steps: seq<Step>, i: nat, ghost base: seq<Value>)
    requires i < |steps| && Chained(c, steps, i, base)
    modifies c, c.nodes, c.builder.Object()
    ensures Chained(c, steps, i + 1, base) && c.builder.Where() == old(c.builder.Where())
    ensures fresh(set n | n in c.nodes && n !in old(c.nodes))
    decreases steps, 0
  {
    LowerPrefix(steps, i);
    Regroup(base, ArgsOf(Lower(steps[..i])), LowerStep(steps[i]).args);
    Extend(c, steps[i]);
  }

  /** Chaining a whole list of steps on a fresh clause. */
  method ExtendAll(c: ConditionClause, steps: seq<Step>)
    requires c.Valid() && c.nodes == []
    modifies c, c.builder.Object()
    ensures c.Valid() && c.conditions == Lower(steps)
    ensures c.builder.Args() == old(c.builder.Args()) + ArgsOf(Lower(steps)) && c.builder.Where() == old(c.builder.Where())
    decreases steps, 1
  {
    ghost var base := c.builder.Args();
    for i := 0 to |steps|
      invariant Chained(c, steps, i, base) && fresh(c.nodes)
      invariant c.builder.Where() == old(c.builder.Where())
    {
      ExtendNext(c, steps, i, base);
    }
    assert steps[..|steps|] == steps;
  }

  /** Select(…).Where()….Build(), with subqueries built the same way. */
  method SelectOf(q: Query) returns (text: string, args: seq<Value>)
    ensures text == QueryText(q) && args == QueryArgs(q)
    decreases q, 3
  {
    var s := new SqlSelect(q.table, q.columns);
    match q.where {
      case NoWhere => text, args := s.Build();
      case Clause(steps) =>
        var c := s.Where();
        ExtendAll(c, steps);
        text, args := c.Build();
    }
  }

  /** Select and run: the caller gets the rows it asked for, or a rejection. */
  method RunSelectOf(q: Query, db: Database) returns (rows: Option<seq<Row>>)
    requires NamedQuery(q)
    ensures rows == if Runnable(q) then Some(Intended(q, db)) else None
  {
    var text, args := SelectOf(q);
    rows := RunSelect(text, args, db);
    SelectMeaning(q, db);
  }

  /** Chains the clause of a started UPDATE and builds it. */
  method FinishUpdate(u: SqlUpdate, steps: seq<Step>) returns (text: string, args: seq<Value>)
    modifies u, u.queryBuilder
    ensures text == UpdateMain(u.tableName, u.columns) + " " + WhereText(Lower(steps))
    ensures args == old(u.args) + ArgsOf(Lower(steps))
  {
    var w := u.Where();
    ExtendAll(w, steps);
    text, args := w.Build();
  }

  /** Update(…).Args(…).Where()….Build(): SET arguments, then WHERE arguments. */
  method UpdateOf(c: Change) returns (text: string, args: seq<Value>)
    ensures text == ChangeText(c) && args == ChangeArgs(c)
  {
    var u := new SqlUpdate(c.table, c.columns);
    var _ := u.Args(c.values);
    assert u.args == c.values && c.values + [] == c.values;
    match c.where {
      case NoWhere => text, args := u.Build();
      case Clause(steps) => text, args := FinishUpdate(u, steps);
    }
  }

  method RunUpdateOf(c: Change, db: Database) returns (rows: Option<seq<Row>>)
    requires NamedQuery(WhereOf(c)) && (forall i :: 0 <= i < |c.columns| ==> IsName(c.columns[i]))
    requires |c.values| == |c.columns|
    ensures rows == if |c.columns| > 0 && Runnable(WhereOf(c)) then Some(Changed(c, db)) else None
  {
    var text, args := UpdateOf(c);
    rows := RunUpdate(text, args, db);
    UpdateMeaning(c, db);
  }

  /** Building a clause again changes nothing and gives the same statement. */
  method BuildAgain(c: ConditionClause) returns (first: (string, seq<Value>), second: (string, seq<Value>))
    requires c.Valid() && c.builder.Where() == c && c.builder.Valid()
    modifies c`query, c.builder.Parts()
    ensures first == second == (c.builder.Main() + " " + WhereText(c.conditions), old(c.builder.Args()))
    ensures c.conditions == old(c.conditions)
  {
    var t, a := c.Build();
    first := (t, a);
    t, a := c.Build();
    second := (t, a);
  }
}
