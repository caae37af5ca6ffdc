/** The query builder: SELECT, UPDATE and INSERT statements written step by step
    into mutable builder objects, with the WHERE conditions kept in a singly linked
    list. Every method is tied to a function of the conditions in call order. */
module SqlBuilder {
  import opened Text
  import opened SqlGrammar

  datatype ComparisonOperator = OpEqual | OpIn | OpExists | OpIs | OpOther(symbol: string)

  /** LogicalOperator; NoLink is the empty string. */
  datatype Logic = NoLink | LinkAnd | LinkOr

  /** What one list node holds. */
  datatype Condition = Condition(column: string, operator: ComparisonOperator, args: seq<Value>, link: Logic)
  {
    /** An IS condition carries the text to print as its only argument. */
    predicate Printable() {
      operator == OpIs ==> |args| == 1 && args[0].Str?
    }
  }

  datatype Result<+T> = Ok(value: T) | Err(error: InsertError)
  datatype InsertError = InsertInvalidArgCount | InsertZeroColumns

  // ------------------------------------------------------------- the text

  function Tuple(count: nat): string {
    "(" + Join(Repeat("?", count), ",") + ")"
  }

  function Clamp(x: int, low: nat): nat {
    if x < low then low else x
  }

  function Placeholder(count: int, repeat: int): string {
    Join(Repeat(Tuple(Clamp(count, 0)), Clamp(repeat, 1)), ",")
  }

  function SetText(columns: seq<string>): string {
    Join(MapSeq(columns, (c: string) => c + " = ?"), ",")
  }

  function NodeText(c: Condition): string
    requires c.Printable()
  {
    match c.operator
    case OpIn => c.column + Spaced("IN") + Placeholder(|c.args|, 1)
    case OpEqual => c.column + Spaced("=") + Placeholder(|c.args|, 1)
    case OpExists => "EXISTS" + " " + ("(" + c.column + ")")
    case OpIs => c.column + Spaced("IS") + c.args[0].s
    case OpOther(op) => c.column + Spaced(op) + Placeholder(|c.args|, 1)
  }

  function LinkText(l: Logic): seq<string> {
    match l case NoLink => [] case LinkAnd => ["AND"] case LinkOr => ["OR"]
  }

  predicate AllPrintable(cs: seq<Condition>) {
    forall i :: 0 <= i < |cs| ==> cs[i].Printable()
  }

  /** Node texts with the link of every node but the last. */
  function Pieces(cs: seq<Condition>): seq<string>
    requires AllPrintable(cs)
  {
    if |cs| == 0 then []
    else [NodeText(cs[0])] + PrintedLink(cs, 0) + Pieces(cs[1..])
  }

  /** The link of condition i is printed when another condition follows. */
  function PrintedLink(cs: seq<Condition>, i: nat): seq<string>
    requires i < |cs|
  {
    if i + 1 < |cs| then LinkText(cs[i].link) else []
  }

  /** The pieces of the first n conditions, the last of them with its link. */
  ghost function Printed(cs: seq<Condition>, n: nat): seq<string>
    requires AllPrintable(cs) && n <= |cs|
  {
    if n == 0 then [] else Printed(cs, n - 1) + [NodeText(cs[n - 1])] + PrintedLink(cs, n - 1)
  }

  lemma {:induction false} PrintedIsPieces(cs: seq<Condition>, n: nat)
    requires AllPrintable(cs) && n <= |cs|
    ensures Printed(cs, n) + Pieces(cs[n..]) == Pieces(cs)
  {
    if n == 0 {
      assert cs[0..] == cs;
    } else {
      PrintedIsPieces(cs, n - 1);
      PiecesFrom(cs, n - 1);
      FourParts(Printed(cs, n - 1), [NodeText(cs[n - 1])], PrintedLink(cs, n - 1), Pieces(cs[n..]));
    }
  }

  lemma PiecesFrom(cs: seq<Condition>, i: nat)
    requires AllPrintable(cs) && i < |cs|
    ensures Pieces(cs[i..]) == [NodeText(cs[i])] + PrintedLink(cs, i) + Pieces(cs[i + 1..])
  {
    assert cs[i..][1..] == cs[i + 1..];
    assert PrintedLink(cs[i..], 0) == PrintedLink(cs, i);
  }

  lemma FourParts<T>(a: seq<T>, b: seq<T>, c: seq<T>, d: seq<T>)
    ensures (a + b + c) + d == a + (b + c + d)
  {
  }

  function WhereText(cs: seq<Condition>): string
    requires AllPrintable(cs)
  {
    "WHERE" + " " + Join(Pieces(cs), " ")
  }

  /** The arguments of the conditions, in call order. */
  function ArgsOf(cs: seq<Condition>): seq<Value> {
    if |cs| == 0 then [] else cs[0].args + ArgsOf(cs[1..])
  }

  function SelectMain(table: string, columns: seq<string>): string {
    "SELECT" + " " + Join(columns, ",") + Spaced("FROM") + table
  }

  function UpdateMain(table: string, columns: seq<string>): string {
    "UPDATE" + " " + table + Spaced("SET") + SetText(columns)
  }

  function InsertText(table: string, columns: seq<string>, rows: int): string {
    "INSERT" + Spaced("INTO") + table + " " + ("(" + Join(columns, ",") + ")") + Spaced("VALUES") + Placeholder(|columns|, rows)
  }

  /** And/Or set the link of the last condition, if there is one. */
  function SetLink(cs: seq<Condition>, link: Logic): seq<Condition> {
    if |cs| == 0 then cs else cs[|cs| - 1 := cs[|cs| - 1].(link := link)]
  }

  lemma {:induction false} TrailingPieces(cs: seq<Condition>, link: Logic)
    requires AllPrintable(cs)
    ensures AllPrintable(SetLink(cs, link))
    ensures Pieces(SetLink(cs, link)) == Pieces(cs)
  {
    var ds := SetLink(cs, link);
    if |cs| == 1 {
      assert cs[1..] == ds[1..] == [];
    } else if |cs| > 1 {
      TrailingPieces(cs[1..], link);
      assert ds[1..] == SetLink(cs[1..], link);
    }
  }

  /** A link after the last condition is not printed. */
  lemma TrailingLinkIsNotPrinted(cs: seq<Condition>, link: Logic)
    requires AllPrintable(cs)
    ensures AllPrintable(SetLink(cs, link))
    ensures WhereText(SetLink(cs, link)) == WhereText(cs)
  {
    TrailingPieces(cs, link);
  }

  lemma JoinTwo(a: string, b: string, sep: string)
    ensures Join([a, b], sep) == a + sep + b
  {
    assert [a, b][1..] == [b];
  }

  lemma JoinThree(a: string, b: string, c: string, sep: string)
    ensures Join([a, b, c], sep) == a + sep + b + sep + c
  {
    assert [a, b, c][1..] == [b, c];
    JoinTwo(b, c, sep);
    assert a + sep + (b + sep + c) == a + sep + b + sep + c;
  }

  lemma LastClause(a: string, w: string, b: string)
    ensures a + " " + (w + " " + b) == a + Spaced(w) + b
  {
  }

  // ------------------------------------------------------------- utils.go

  /** "(?,?,…),(…)…": `placeholderCount` marks, repeated at least once. */
  method BuildPlaceholder(placeholderCount: int, repeat: int) returns (s: string)
    ensures s == Placeholder(placeholderCount, repeat)
  {
    var questions: seq<string>, out: seq<string> := [], [];
    var times := if repeat < 1 then 1 else repeat;
    for i := 0 to if placeholderCount < 0 then 0 else placeholderCount
      invariant questions == Repeat("?", i)
    {
      questions := questions + ["?"];
    }
    var param := "(" + Join(questions, ",") + ")";
    for i := 0 to times
      invariant out == Repeat(param, i)
    {
      out := out + [param];
    }
    s := Join(out, ",");
  }

  /** "c = ?,d = ?,…" */
  method BuildSetPlaceholder(columns: seq<string>) returns (s: string)
    ensures s == SetText(columns)
  {
    var placeholders: seq<string> := [];
    for i := 0 to |columns|
      invariant |placeholders| == i
      invariant forall j :: 0 <= j < i ==> placeholders[j] == columns[j] + " = ?"
    {
      placeholders := placeholders + [columns[i] + " = ?"];
    }
    assert placeholders == MapSeq(columns, (c: string) => c + " = ?");
    s := Join(placeholders, ",");
  }

  // ------------------------------------------------------------- the list

  class ConditionNode {
    var column: string
    var args: seq<Value>
    var operator: ComparisonOperator
    var next: ConditionNode?
    var nextLogicalOperator: Logic

    constructor (column: string, operator: ComparisonOperator, args: seq<Value>)
      ensures Value() == Condition(column, operator, args, NoLink) && next == null
    {
      this.column, this.operator, this.args := column, operator, args;
      next, nextLogicalOperator := null, NoLink;
    }

    function Value(): Condition
      reads this
    {
      Condition(column, operator, args, nextLogicalOperator)
    }

    method BuildQuery() returns (query: string)
      requires Value().Printable()
      ensures query == NodeText(Value())
    {
      var params := BuildPlaceholder(|args|, 1);
      match operator
      case OpIn => query := column + Spaced("IN") + params;
      case OpEqual => query := column + Spaced("=") + params;
      case OpExists => query := "EXISTS" + " " + ("(" + column + ")");
      case OpIs => query := column + Spaced("IS") + args[0].s;
      case OpOther(symbol) => query := column + Spaced(symbol) + params;
    }
  }

  /** The objects a clause can write arguments to (the Builder interface). */
  datatype Builder = OfSelect(select: SqlSelect) | OfUpdate(update: SqlUpdate)
  {
    function Object(): object {
      match this case OfSelect(s) => s case OfUpdate(u) => u
    }

    function Args(): seq<Value>
      reads Object()
    {
      match this case OfSelect(s) => s.args case OfUpdate(u) => u.args
    }

    function Where(): ConditionClause?
      reads Object()
    {
      match this case OfSelect(s) => s.where case OfUpdate(u) => u.where
    }

    function Main(): string {
      match this
      case OfSelect(s) => SelectMain(s.tableName, s.columns)
      case OfUpdate(u) => UpdateMain(u.tableName, u.columns)
    }

    ghost predicate Valid()
      reads Object(), Parts()
    {
      match this case OfSelect(s) => s.Valid() case OfUpdate(u) => true
    }

    function Parts(): QueryBuilder {
      match this case OfSelect(s) => s.queryBuilder case OfUpdate(u) => u.queryBuilder
    }

    method Build() returns (text: string, args: seq<Value>)
      requires Valid()
      modifies Parts()
      ensures Valid() && args == Args()
      ensures text == if Where() == null then Main() else Main() + " " + Where().query
    {
      match this
      case OfSelect(s) => text, args := s.Build();
      case OfUpdate(u) => text, args := u.Build();
    }

    method Write(more: seq<Value>)
      modifies Object()
      ensures Args() == old(Args()) + more && Where() == old(Where())
    {
      match this
      case OfSelect(s) => s.Write(more);
      case OfUpdate(u) => u.Write(more);
    }
  }

  class ConditionClause {
    const builder: Builder
    var node: ConditionNode?
    var head: ConditionNode?
    var query: string
    /** The nodes reachable from head, in order. */
    ghost var nodes: seq<ConditionNode>
    /** The conditions in call order. */
    ghost var conditions: seq<Condition>

    ghost function At(i: nat): ConditionNode?
      reads this
    {
      if i < |nodes| then nodes[i] else null
    }

    /** head and node are the ends of an acyclic list that visits exactly `nodes`. */
    ghost predicate Valid()
      reads this, nodes
    {
      && (|nodes| == 0 ==> head == null && node == null)
      && (|nodes| > 0 ==> head == nodes[0] && node == nodes[|nodes| - 1])
      && (forall i {:trigger nodes[i].next} :: 0 <= i < |nodes| ==> nodes[i].next == At(i + 1))
      && (forall i, j :: 0 <= i < j < |nodes| ==> nodes[i] != nodes[j])
      && |conditions| == |nodes| && AllPrintable(conditions)
      && (forall i :: 0 <= i < |nodes| ==> nodes[i].Value() == conditions[i])
    }

    constructor (b: Builder)
      ensures Valid() && builder == b && conditions == [] && query == "" && fresh(this)
    {
      builder := b;
      node, head, query := null, null, "";
      nodes, conditions := [], [];
    }

    /** The old conditions followed by one more, whose arguments were written too. */
    twostate predicate Appended(c: Condition)
      reads this, nodes, builder.Object()
    {
      && Valid()
      && |nodes| == |old(nodes)| + 1 && nodes[..|old(nodes)|] == old(nodes) && fresh(nodes[|nodes| - 1])
      && conditions == old(conditions) + [c]
      && builder.Args() == old(builder.Args()) + c.args
      && query == old(query) && builder.Where() == old(builder.Where())
    }

    /** Links a fresh node behind the last one. */
    method Attach(added: ConditionNode)
      requires Valid() && added !in nodes && added.next == null && added.Value().Printable()
      modifies this, nodes
      ensures Valid() && nodes == old(nodes) + [added]
      ensures conditions == old(conditions) + [old(added.Value())]
      ensures query == old(query) && builder.Where() == old(builder.Where())
    {
      if node == null {
        node := added;
        head := node;
      } else {
        node.next := added;
        node := node.next;
      }
      nodes, conditions := nodes + [added], conditions + [added.Value()];
    }

    method AddNewNode(column: string, operator: ComparisonOperator, args: seq<Value>)
      requires Valid() && Condition(column, operator, args, NoLink).Printable()
      modifies this, nodes, builder.Object()
      ensures Appended(Condition(column, operator, args, NoLink))
    {
      var added := new ConditionNode(column, operator, args);
      Attach(added);
      builder.Write(args);
    }

    method Equal(column: string, arg: Value) returns (c: ConditionClause)
      requires Valid()
      modifies this, nodes, builder.Object()
      ensures c == this && Appended(Condition(column, OpEqual, [arg], NoLink))
    {
      AddNewNode(column, OpEqual, [arg]);
      c := this;
    }

    method Is(column: string, text: string) returns (c: ConditionClause)
      requires Valid()
      modifies this, nodes, builder.Object()
      ensures c == this && Appended(Condition(column, OpIs, [Str(text)], NoLink))
    {
      AddNewNode(column, OpIs, [Str(text)]);
      c := this;
    }

    method In(column: string, args: seq<Value>) returns (c: ConditionClause)
      requires Valid()
      modifies this, nodes, builder.Object()
      ensures c == this && Appended(Condition(column, OpIn, args, NoLink))
    {
      AddNewNode(column, OpIn, args);
      c := this;
    }

    method Exists(subquery: string, args: seq<Value>) returns (c: ConditionClause)
      requires Valid()
      modifies this, nodes, builder.Object()
      ensures c == this && Appended(Condition(subquery, OpExists, args, NoLink))
    {
      AddNewNode(subquery, OpExists, args);
      c := this;
    }

    method Link(link: Logic)
      requires Valid()
      modifies this`conditions, nodes
      ensures Valid() && nodes == old(nodes)
      ensures conditions == SetLink(old(conditions), link)
    {
      if node == null {
        return;
      }
      node.nextLogicalOperator := link;
      conditions := SetLink(conditions, link);
    }

    method And() returns (c: ConditionClause)
      requires Valid()
      modifies this`conditions, nodes
      ensures c == this && Valid() && nodes == old(nodes)
      ensures conditions == SetLink(old(conditions), LinkAnd)
    {
      Link(LinkAnd);
      c := this;
    }

    method Or() returns (c: ConditionClause)
      requires Valid()
      modifies this`conditions, nodes
      ensures c == this && Valid() && nodes == old(nodes)
      ensures conditions == SetLink(old(conditions), LinkOr)
    {
      Link(LinkOr);
      c := this;
    }

    /** Walks the list once from head to its last node. */
    method BuildConditionString() returns (s: string)
      requires Valid()
      ensures AllPrintable(conditions) && s == Join(Pieces(conditions), " ")
    {
      var temp := head;
      var out: seq<string> := [];
      ghost var i := 0;
      while temp != null
        invariant 0 <= i <= |nodes| && temp == At(i)
        invariant out == Printed(conditions, i)
        decreases |nodes| - i
      {
        var t := temp.BuildQuery();
        out := out + [t];
        if temp.next != null && temp.nextLogicalOperator != NoLink {
          out := out + LinkText(temp.nextLogicalOperator);
        }
        temp, i := temp.next, i + 1;
      }
      PrintedIsPieces(conditions, i);
      assert conditions[i..] == [] && out + [] == out;
      s := Join(out, " ");
    }

    /** Records the text of the clause. */
    method Record()
      requires Valid()
      modifies this`query
      ensures Valid() && query == WhereText(conditions)
    {
      var condition := BuildConditionString();
      query := "WHERE" + " " + condition;
    }

    /** Records the clause text, then builds the statement that owns the clause. */
    method Build() returns (text: string, args: seq<Value>)
      requires Valid() && builder.Where() != null && builder.Valid()
      modifies this`query, builder.Parts()
      ensures Valid() && nodes == old(nodes) && conditions == old(conditions)
      ensures AllPrintable(conditions) && query == WhereText(conditions)
      ensures args == builder.Args() == old(builder.Args())
      ensures builder.Where() == old(builder.Where()) && builder.Valid()
      ensures text == builder.Main() + " " + builder.Where().query
    {
      Record();
      assert builder.Valid();
      text, args := builder.Build();
      assert Valid();
    }
  }

  // ------------------------------------------------------------- statements

  class QueryBuilder {
    var filterBuilder: ConditionClause?

    constructor ()
      ensures filterBuilder == null
    {
      filterBuilder := null;
    }

    method Build(mainQuery: string) returns (text: string)
      ensures text == if filterBuilder == null then mainQuery else mainQuery + " " + filterBuilder.query
    {
      var holder := [mainQuery];
      if filterBuilder != null {
        holder := holder + [filterBuilder.query];
        JoinTwo(mainQuery, filterBuilder.query, " ");
      }
      text := Join(holder, " ");
    }
  }

  class SqlSelect {
    const tableName: string
    const columns: seq<string>
    const queryBuilder: QueryBuilder
    var args: seq<Value>
    var where: ConditionClause?

    ghost predicate Valid()
      reads this, queryBuilder
    {
      where == null ==> queryBuilder.filterBuilder == null
    }

    constructor (tableName: string, columns: seq<string>)
      ensures Valid() && fresh(queryBuilder) && args == [] && where == null && this.tableName == tableName
      ensures this.columns == if |columns| == 0 then ["*"] else columns
    {
      this.tableName := tableName;
      this.columns := if |columns| == 0 then ["*"] else columns;
      queryBuilder := new QueryBuilder();
      args, where := [], null;
    }

    method Where() returns (c: ConditionClause)
      modifies this`where
      ensures fresh(c) && c.Valid() && c.builder == OfSelect(this) && c.conditions == []
      ensures where == c && Valid()
    {
      where := new ConditionClause(OfSelect(this));
      c := where;
    }

    method Write(more: seq<Value>)
      modifies this`args
      ensures args == old(args) + more
    {
      args := args + more;
    }

    method Build() returns (text: string, all: seq<Value>)
      requires Valid()
      modifies queryBuilder
      ensures Valid() && all == args
      ensures text == if where == null then SelectMain(tableName, columns)
                      else SelectMain(tableName, columns) + " " + where.query
    {
      if where != null {
        queryBuilder.filterBuilder := where;
      }
      text := queryBuilder.Build("SELECT" + " " + Join(columns, ",") + Spaced("FROM") + tableName);
      all := args;
    }
  }

  class SqlUpdate {
    const tableName: string
    const columns: seq<string>
    const queryBuilder: QueryBuilder
    var args: seq<Value>
    var where: ConditionClause?

    constructor (tableName: string, columns: seq<string>)
      ensures fresh(queryBuilder) && args == [] && where == null
      ensures this.tableName == tableName && this.columns == columns
    {
      this.tableName, this.columns := tableName, columns;
      queryBuilder := new QueryBuilder();
      args, where := [], null;
    }

    /** SqlArgs.Args: the SET values, written before any condition exists. */
    method Args(values: seq<Value>) returns (u: SqlUpdate)
      modifies this`args
      ensures u == this && args == old(args) + values
    {
      Write(values);
      u := this;
    }

    method Where() returns (c: ConditionClause)
      modifies this`where
      ensures fresh(c) && c.Valid() && c.builder == OfUpdate(this) && c.conditions == []
      ensures where == c
    {
      where := new ConditionClause(OfUpdate(this));
      c := where;
    }

    method Write(more: seq<Value>)
      modifies this`args
      ensures args == old(args) + more
    {
      args := args + more;
    }

    method Build() returns (text: string, all: seq<Value>)
      modifies queryBuilder
      ensures all == args
      ensures text == if where == null then UpdateMain(tableName, columns)
                      else UpdateMain(tableName, columns) + " " + where.query
    {
      var setQ := BuildSetPlaceholder(columns);
      queryBuilder.filterBuilder := where;
      text := queryBuilder.Build("UPDATE" + " " + tableName + Spaced("SET") + setQ);
      all := args;
    }
  }

  class SqlInsert {
    const tableName: string
    const columns: seq<string>
    var args: seq<Value>

    constructor (tableName: string, columns: seq<string>)
      ensures args == [] && this.tableName == tableName && this.columns == columns
    {
      this.tableName, this.columns, args := tableName, columns, [];
    }

    method Args(values: seq<Value>) returns (i: SqlInsert)
      modifies this`args
      ensures i == this && args == old(args) + values
    {
      args := args + values;
      i := this;
    }

    /** Rejects no columns, and arguments that do not fill whole rows. */
    method Build() returns (r: Result<(string, seq<Value>)>)
      ensures r == if |columns| == 0 then Err(InsertZeroColumns)
                   else if |args| % |columns| != 0 then Err(InsertInvalidArgCount)
                   else Ok((InsertText(tableName, columns, |args| / |columns|), args))
    {
      if |columns| == 0 {
        return Err(InsertZeroColumns);
      }
      if |args| % |columns| != 0 {
        return Err(InsertInvalidArgCount);
      }
      var params := BuildPlaceholder(|columns|, |args| / |columns|);
      var holder: seq<string> := [];
      for i := 0 to |columns|
        invariant holder == columns[..i]
      {
        holder := holder + [columns[i]];
      }
      assert holder == columns;
      var parts := ["INSERT" + Spaced("INTO") + tableName, "(" + Join(holder, ",") + ")", "VALUES" + " " + params];
      var text := Join(parts, " ");
      JoinThree(parts[0], parts[1], parts[2], " ");
      LastClause(parts[0] + " " + parts[1], "VALUES", params);
      r := Ok((text, args));
    }
  }
}
