/** File records through the query builder: batch inserts that read back as the
    same files, and the statements of the gateway applied to the rows they select. */
module FileSql {
  import opened Text
  import opened FileModel
  import opened SqlGrammar
  import opened SqlLexing
  import opened SqlBuilder
  import opened SqlMeaning
  import SqlParsing
  import SqlInsertText
  import SqlTheorems
  import SqlDriver

  const FILE_COLUMNS: nat := 12

  /** The columns of the File table, in schema order. */
  function Column(i: nat): string {
    match i
    case 0 => "AccountID" case 1 => "FileName" case 2 => "FileType" case 3 => "FileID"
    case 4 => "Extension" case 5 => "ParentID" case 6 => "FilePath" case 7 => "FileSize"
    case 8 => "ModifiedOn" case 9 => "DeletedOn" case 10 => "UploadStatus" case _ => "UniqueHash"
  }

  function Columns(): (cs: seq<string>)
    ensures |cs| == FILE_COLUMNS
    ensures forall i :: 0 <= i < FILE_COLUMNS ==> cs[i] == Column(i)
  {
    seq(FILE_COLUMNS, i requires 0 <= i < FILE_COLUMNS => Column(i))
  }

  function TypeText(t: FileType): string {
    match t case Dir => "dir" case Regular => "file"
  }

  function StatusText(s: UploadStatus): string {
    match s case Completed => "completed" case Failed => "failed" case Pending => "pending"
  }

  function TimeOrNull(t: Option<int>): Value {
    match t case None => Null case Some(x) => Time(x)
  }

  /** The twelve fields of a file, in column order. */
  function Fields(f: File): (vs: seq<Value>)
    ensures |vs| == FILE_COLUMNS
  {
    [Str(f.ownerId), Str(f.name), Str(TypeText(f.fileType)), Str(f.fileId), Str(f.extension), Str(f.parentId),
     Str(f.path), Num(f.size), Time(f.modifiedOn), TimeOrNull(f.deletedOn), Str(StatusText(f.uploadStatus)),
     Str(f.uniqueHash)]
  }

  function FieldRows(files: seq<File>): (r: seq<seq<Value>>)
    ensures |r| == |files|
    ensures forall i :: 0 <= i < |files| ==> r[i] == Fields(files[i])
  {
    seq(|files|, i requires 0 <= i < |files| => Fields(files[i]))
  }

  /** All fields of all files, run together. */
  method FlattenFile(files: seq<File>) returns (out: seq<Value>)
    ensures out == Concat(FieldRows(files))
  {
    out := [];
    for i := 0 to |files|
      invariant out == Concat(FieldRows(files)[..i])
    {
      ConcatSnoc(FieldRows(files)[..i], Fields(files[i]));
      assert FieldRows(files)[..i + 1] == FieldRows(files)[..i] + [Fields(files[i])];
      out := out + Fields(files[i]);
    }
    assert FieldRows(files)[..|files|] == FieldRows(files);
  }

  // --------------------------------------------------------- rows and records

  function RowOf(f: File): Row {
    Assign(map[], Columns(), Fields(f))
  }

  /** rows.Scan: one value per field; None when a value has the wrong type. */
  function Scan(vs: seq<Value>): Option<File>
    requires |vs| == FILE_COLUMNS
  {
    if vs[0].Str? && vs[1].Str? && vs[2].Str? && vs[3].Str? && vs[4].Str? && vs[5].Str? && vs[6].Str?
       && vs[7].Num? && vs[8].Time? && (vs[9].Null? || vs[9].Time?) && vs[10].Str? && vs[11].Str?
       && ParseType(vs[2].s).Some? && ParseStatus(vs[10].s).Some?
    then
      Some(File(vs[0].s, vs[1].s, ParseType(vs[2].s).value, vs[3].s, vs[4].s, vs[5].s, vs[6].s, vs[7].n, vs[8].t,
                if vs[9].Null? then None else Some(vs[9].t), ParseStatus(vs[10].s).value, vs[11].s))
    else None
  }

  function ParseType(s: string): Option<FileType> {
    if s == TypeText(Dir) then Some(Dir) else if s == TypeText(Regular) then Some(Regular) else None
  }

  function ParseStatus(s: string): Option<UploadStatus> {
    if s == StatusText(Completed) then Some(Completed) else if s == StatusText(Failed) then Some(Failed)
    else if s == StatusText(Pending) then Some(Pending) else None
  }

  /** SELECT * yields the columns in schema order. */
  function InSchemaOrder(row: Row): (vs: seq<Value>)
    ensures |vs| == FILE_COLUMNS
    ensures forall i :: 0 <= i < FILE_COLUMNS ==> vs[i] == Field(row, Column(i))
  {
    seq(FILE_COLUMNS, i requires 0 <= i < FILE_COLUMNS => Field(row, Column(i)))
  }

  lemma TextsParse(f: File)
    ensures ParseType(TypeText(f.fileType)) == Some(f.fileType)
    ensures ParseStatus(StatusText(f.uploadStatus)) == Some(f.uploadStatus)
  {
    assert |"dir"| == 3 && |"file"| == 4 && |"completed"| == 9 && |"failed"| == 6 && |"pending"| == 7;
  }

  lemma ScanFields(f: File)
    ensures Scan(Fields(f)) == Some(f)
  {
    TextsParse(f);
  }

  /** Column names differ: in length, or at one of two positions. */
  lemma ColumnsDiffer(i: nat, j: nat)
    requires i < j < FILE_COLUMNS
    ensures Column(i) != Column(j)
  {
    var a, b := Column(i), Column(j);
    assert |a| >= 6 && |b| >= 6;
    assert |a| != |b| || a[0] != b[0] || a[4] != b[4];
  }

  lemma {:induction false} AssignElsewhere(row: Row, columns: seq<string>, values: seq<Value>, c: string)
    requires c !in columns
    ensures Field(Assign(row, columns, values), c) == Field(row, c)
    decreases |columns|
  {
    if |columns| > 0 && |values| > 0 {
      AssignElsewhere(row[columns[0] := values[0]], columns[1..], values[1..], c);
    }
  }

  /** Assigning distinct columns gives each its value. */
  lemma {:induction false} AssignAt(row: Row, columns: seq<string>, values: seq<Value>, k: nat)
    requires |columns| == |values| && k < |columns|
    requires forall i, j :: 0 <= i < j < |columns| ==> columns[i] != columns[j]
    ensures Field(Assign(row, columns, values), columns[k]) == values[k]
    decreases |columns|
  {
    var next := row[columns[0] := values[0]];
    if k == 0 {
      AssignElsewhere(next, columns[1..], values[1..], columns[0]);
    } else {
      AssignAt(next, columns[1..], values[1..], k - 1);
    }
  }

  lemma RowFields(f: File)
    ensures InSchemaOrder(RowOf(f)) == Fields(f)
  {
    forall i, j | 0 <= i < j < FILE_COLUMNS ensures Columns()[i] != Columns()[j] {
      ColumnsDiffer(i, j);
    }
    forall i | 0 <= i < FILE_COLUMNS ensures InSchemaOrder(RowOf(f))[i] == Fields(f)[i] {
      AssignAt(map[], Columns(), Fields(f), i);
    }
  }

  lemma LongWordIsName(s: string)
    requires AllWordChars(s) && |s| > 6
    ensures IsName(s)
  {
  }

  lemma ColumnIsLong(i: nat)
    requires i < FILE_COLUMNS && i != 3
    ensures |Column(i)| > 6
  {
  }

  lemma ColumnIsWord(i: nat)
    requires i < FILE_COLUMNS
    ensures AllWordChars(Column(i))
  {
  }

  lemma ColumnIsName(i: nat)
    requires i < FILE_COLUMNS
    ensures IsName(Column(i))
  {
    if i == 3 {
      FileIdIsName(Column(3));
    } else {
      ColumnIsLong(i);
      ColumnIsWord(i);
      LongWordIsName(Column(i));
    }
  }

  lemma FileIdIsName(s: string)
    requires s == "FileID"
    ensures IsName(s)
  {
    assert Upper(s)[0] == 'F' && Upper(s)[1] == 'I';
    assert "SELECT"[0] == 'S' && "EXISTS"[0] == 'E' && "UPDATE"[0] == 'U' && "INSERT"[0] == 'I' && "VALUES"[0] == 'V';
  }

  lemma FileIsName(s: string)
    requires s == "File"
    ensures IsName(s)
  {
    assert Upper(s)[0] == 'F' && Upper(s)[1] == 'I';
    assert "FROM"[1] == 'R' && "NULL"[0] == 'N' && "INTO"[0] == 'I';
  }

  lemma ColumnsAreNames()
    ensures AllNames(Columns())
  {
    forall i | 0 <= i < FILE_COLUMNS ensures IsName(Columns()[i]) {
      ColumnIsName(i);
    }
  }

  // ------------------------------------------------------------ batch insert

  /** AddFile's statement: the marks, the arguments and the rows of any batch. */
  method BuildAddFile(files: seq<File>) returns (text: string, args: seq<Value>)
    requires |files| > 0
    ensures text == InsertText("File", Columns(), |files|) && args == Concat(FieldRows(files))
    ensures |args| == FILE_COLUMNS * |files|
  {
    var s := new SqlInsert("File", Columns());
    var flat := FlattenFile(files);
    var i := s.Args(flat);
    assert s.args == flat by { assert [] + flat == flat; }
    SqlInsertText.RowsOfArgs(FieldRows(files), FILE_COLUMNS);
    var r := s.Build();
    text, args := r.value.0, r.value.1;
  }

  /** Executing that statement and scanning the new rows gives the files back. */
  lemma BatchInsertIsFaithful(files: seq<File>)
    requires |files| > 0
    ensures var rows := RunInsert(InsertText("File", Columns(), |files|), Concat(FieldRows(files)));
            rows.Some? && |rows.value| == |files|
            && forall i :: 0 <= i < |files| ==>
                 rows.value[i] == RowOf(files[i]) && Scan(InSchemaOrder(rows.value[i])) == Some(files[i])
  {
    FileIsName("File");
    ColumnsAreNames();
    SqlInsertText.InsertMeaning("File", Columns(), FILE_COLUMNS, FieldRows(files), Concat(FieldRows(files)));
    forall i | 0 <= i < |files| ensures Scan(InSchemaOrder(RowOf(files[i]))) == Some(files[i]) {
      RowFields(files[i]);
      ScanFields(files[i]);
    }
  }

  // ------------------------------------------------- statements with a clause

  /** Where().Equal(AccountID, owner).And().In(FileID, ids…) */
  function OwnedIn(owner: string, ids: seq<string>): Where {
    Clause([EqualTo(Column(0), Str(owner), LinkAnd), OneOf(Column(3), IdValues(ids), NoLink)])
  }

  function IdValues(ids: seq<string>): (vs: seq<Value>)
    ensures |vs| == |ids|
    ensures forall i :: 0 <= i < |ids| ==> vs[i] == Str(ids[i])
  {
    seq(|ids|, i requires 0 <= i < |ids| => Str(ids[i]))
  }

  /** Where().Equal(AccountID, owner).And().Equal(FileID, id) */
  function OwnedOne(owner: string, id: string): Where {
    Clause([EqualTo(Column(0), Str(owner), LinkAnd), EqualTo(Column(3), Str(id), NoLink)])
  }

  lemma TwoSteps(a: SqlMeaning.Step, b: SqlMeaning.Step, db: Database, row: Row)
    requires a.link == LinkAnd
    ensures ChainHolds([a, b], db, row) <==> StepHolds(a, db, row) && StepHolds(b, db, row)
  {
    var steps := [a, b];
    if ChainHolds(steps, db, row) {
      var i: nat :| Begins(steps, i) && RunHolds(steps, i, db, row);
      assert Joined(steps, 0, 0) && Joined(steps, 0, 1);
    }
    if StepHolds(a, db, row) && StepHolds(b, db, row) {
      assert Begins(steps, 0) && RunHolds(steps, 0, db, row);
    }
  }

  lemma RowColumn(f: File, i: nat)
    requires i < FILE_COLUMNS
    ensures Field(RowOf(f), Column(i)) == Fields(f)[i]
  {
    RowFields(f);
    assert InSchemaOrder(RowOf(f))[i] == Field(RowOf(f), Column(i));
  }

  /** Where each field of a file is found in its row. */
  lemma NamedColumns(f: File)
    ensures Field(RowOf(f), "AccountID") == Str(f.ownerId) && Field(RowOf(f), "FileName") == Str(f.name)
    ensures Field(RowOf(f), "FileType") == Str(if f.fileType == Dir then "dir" else "file")
    ensures Field(RowOf(f), "FileID") == Str(f.fileId) && Field(RowOf(f), "Extension") == Str(f.extension)
    ensures Field(RowOf(f), "ParentID") == Str(f.parentId) && Field(RowOf(f), "FilePath") == Str(f.path)
    ensures Field(RowOf(f), "FileSize") == Num(f.size) && Field(RowOf(f), "ModifiedOn") == Time(f.modifiedOn)
    ensures Field(RowOf(f), "DeletedOn") == (if f.deletedOn.Some? then Time(f.deletedOn.value) else Null)
    ensures Field(RowOf(f), "UploadStatus")
         == Str(if f.uploadStatus == Completed then "completed" else if f.uploadStatus == Failed then "failed" else "pending")
    ensures Field(RowOf(f), "UniqueHash") == Str(f.uniqueHash)
  {
    forall i: nat | i < FILE_COLUMNS ensures Field(RowOf(f), Column(i)) == Fields(f)[i] {
      RowColumn(f, i);
    }
    assert Column(0) == "AccountID" && Column(1) == "FileName" && Column(2) == "FileType" && Column(3) == "FileID";
    assert Column(4) == "Extension" && Column(5) == "ParentID" && Column(6) == "FilePath" && Column(7) == "FileSize";
    assert Column(8) == "ModifiedOn" && Column(9) == "DeletedOn" && Column(10) == "UploadStatus" && Column(11) == "UniqueHash";
  }

  lemma SelectsIn(row: Row, c: string, d: string, o: string, x: string, owner: string, ids: seq<string>, db: Database)
    requires Field(row, c) == Str(o) && Field(row, d) == Str(x)
    ensures ChainHolds([EqualTo(c, Str(owner), LinkAnd), OneOf(d, IdValues(ids), NoLink)], db, row)
       <==> o == owner && x in ids
  {
    TwoSteps(EqualTo(c, Str(owner), LinkAnd), OneOf(d, IdValues(ids), NoLink), db, row);
    if x in ids {
      var i :| 0 <= i < |ids| && ids[i] == x;
      assert Eq3(Field(row, d), IdValues(ids)[i]) == True;
    }
  }

  lemma SelectsOne(row: Row, c: string, d: string, o: string, x: string, owner: string, id: string, db: Database)
    requires Field(row, c) == Str(o) && Field(row, d) == Str(x)
    ensures ChainHolds([EqualTo(c, Str(owner), LinkAnd), EqualTo(d, Str(id), NoLink)], db, row)
       <==> o == owner && x == id
  {
    TwoSteps(EqualTo(c, Str(owner), LinkAnd), EqualTo(d, Str(id), NoLink), db, row);
  }

  lemma OwnedInSelects(owner: string, ids: seq<string>, db: Database, f: File)
    ensures WhereHolds(OwnedIn(owner, ids), db, RowOf(f)) <==> f.ownerId == owner && f.fileId in ids
  {
    RowColumn(f, 0);
    RowColumn(f, 3);
    SelectsIn(RowOf(f), Column(0), Column(3), f.ownerId, f.fileId, owner, ids, db);
  }

  lemma OwnedOneSelects(owner: string, id: string, db: Database, f: File)
    ensures WhereHolds(OwnedOne(owner, id), db, RowOf(f)) <==> f.ownerId == owner && f.fileId == id
  {
    RowColumn(f, 0);
    RowColumn(f, 3);
    SelectsOne(RowOf(f), Column(0), Column(3), f.ownerId, f.fileId, owner, id, db);
  }

  /** DeleteFiles' statement. */
  function DeleteChange(owner: string, ids: seq<string>, at: int): SqlTheorems.Change {
    SqlTheorems.Change("File", ColumnsAt(DeleteColumns()), DeleteValues(at), OwnedIn(owner, ids))
  }

  function DeleteColumns(): (ks: seq<nat>)
    ensures forall i :: 0 <= i < |ks| ==> ks[i] < FILE_COLUMNS
  {
    [9]
  }

  function DeleteValues(at: int): (vs: seq<Value>)
    ensures |vs| == |DeleteColumns()|
  {
    [Time(at)]
  }

  /** UpdateUploadStatus' statement; with a time, the one UpdateFile builds for a status. */
  function StatusChange(owner: string, id: string, status: UploadStatus, touched: Option<int>): SqlTheorems.Change {
    SqlTheorems.Change("File", ColumnsAt(StatusColumns(touched)), StatusValues(status, touched), OwnedOne(owner, id))
  }

  function StatusColumns(touched: Option<int>): (ks: seq<nat>)
    ensures forall i :: 0 <= i < |ks| ==> ks[i] < FILE_COLUMNS
  {
    if touched.Some? then [8, 10] else [10]
  }

  function StatusValues(status: UploadStatus, touched: Option<int>): (vs: seq<Value>)
    ensures |vs| == |StatusColumns(touched)|
  {
    if touched.Some? then [Time(touched.value), Str(StatusText(status))] else [Str(StatusText(status))]
  }

  function ColumnsAt(ks: seq<nat>): (cs: seq<string>)
    ensures |cs| == |ks|
    ensures forall i :: 0 <= i < |ks| ==> cs[i] == Column(ks[i])
  {
    seq(|ks|, i requires 0 <= i < |ks| => Column(ks[i]))
  }

  /** The fields after each of these columns was given its value. */
  function SetAll(fields: seq<Value>, ks: seq<nat>, vs: seq<Value>): (r: seq<Value>)
    requires |fields| == FILE_COLUMNS && |ks| == |vs| && forall i :: 0 <= i < |ks| ==> ks[i] < FILE_COLUMNS
    ensures |r| == FILE_COLUMNS
    decreases |ks|
  {
    if |ks| == 0 then fields else SetAll(fields[ks[0] := vs[0]], ks[1..], vs[1..])
  }

  lemma {:induction false} AssignSetsAll(row: Row, fields: seq<Value>, ks: seq<nat>, vs: seq<Value>)
    requires |ks| == |vs| && forall i :: 0 <= i < |ks| ==> ks[i] < FILE_COLUMNS
    requires InSchemaOrder(row) == fields
    ensures InSchemaOrder(Assign(row, ColumnsAt(ks), vs)) == SetAll(fields, ks, vs)
    decreases |ks|
  {
    if |ks| > 0 {
      SetOne(row, fields, ks[0], vs[0]);
      assert ColumnsAt(ks)[1..] == ColumnsAt(ks[1..]);
      AssignSetsAll(row[Column(ks[0]) := vs[0]], fields[ks[0] := vs[0]], ks[1..], vs[1..]);
    }
  }

  /** Scanning a row after columns were set. */
  lemma ScanAfterSet(f: File, g: File, ks: seq<nat>, vs: seq<Value>)
    requires |ks| == |vs| && forall i :: 0 <= i < |ks| ==> ks[i] < FILE_COLUMNS
    requires Touched(f, g, ks, vs)
    ensures Scan(InSchemaOrder(Assign(RowOf(f), ColumnsAt(ks), vs))) == Some(g)
  {
    RowFields(f);
    AssignSetsAll(RowOf(f), Fields(f), ks, vs);
    ScanFields(g);
  }

  lemma SetOne(row: Row, vs: seq<Value>, k: nat, v: Value)
    requires k < FILE_COLUMNS && InSchemaOrder(row) == vs
    ensures InSchemaOrder(row[Column(k) := v]) == vs[k := v]
  {
    var after := InSchemaOrder(row[Column(k) := v]);
    forall i | 0 <= i < FILE_COLUMNS ensures after[i] == vs[k := v][i] {
      assert vs[i] == Field(row, Column(i));
      if i < k {
        ColumnsDiffer(i, k);
      } else if k < i {
        ColumnsDiffer(k, i);
      }
    }
  }

  function TableOf(files: seq<File>): (rows: seq<Row>)
    ensures |rows| == |files|
    ensures forall i :: 0 <= i < |files| ==> rows[i] == RowOf(files[i])
  {
    seq(|files|, i requires 0 <= i < |files| => RowOf(files[i]))
  }

  lemma TwoStepsRunnable(a: SqlMeaning.Step, b: SqlMeaning.Step, table: string)
    requires IsName(table) && NamedStep(a) && NamedStep(b) && a.link == LinkAnd
    requires WellFormedStep(a) && WellFormedStep(b) && IsCountStep(a) == 0 && IsCountStep(b) == 0
    ensures NamedQuery(Query(table, [], Clause([a, b]))) && SqlTheorems.Runnable(Query(table, [], Clause([a, b])))
  {
    assert [a, b][1..] == [b] && [b][1..] == [];
    assert WellFormedSteps([b]) && IsCountSteps([b]) == 0;
  }

  lemma OwnedInRunnable(owner: string, ids: seq<string>)
    requires |ids| > 0
    ensures NamedQuery(Query("File", [], OwnedIn(owner, ids))) && SqlTheorems.Runnable(Query("File", [], OwnedIn(owner, ids)))
  {
    FileIsName("File");
    ColumnIsName(0);
    ColumnIsName(3);
    TwoStepsRunnable(EqualTo(Column(0), Str(owner), LinkAnd), OneOf(Column(3), IdValues(ids), NoLink), "File");
  }

  lemma OwnedOneRunnable(owner: string, id: string)
    ensures NamedQuery(Query("File", [], OwnedOne(owner, id))) && SqlTheorems.Runnable(Query("File", [], OwnedOne(owner, id)))
  {
    FileIsName("File");
    ColumnIsName(0);
    ColumnIsName(3);
    TwoStepsRunnable(EqualTo(Column(0), Str(owner), LinkAnd), EqualTo(Column(3), Str(id), NoLink), "File");
  }

  lemma ScanRow(f: File)
    ensures Scan(InSchemaOrder(RowOf(f))) == Some(f)
  {
    RowFields(f);
    ScanFields(f);
  }

  lemma ChangedAt(c: SqlTheorems.Change, db: Database, files: seq<File>, i: nat)
    requires c.table == "File" && db == map["File" := TableOf(files)] && i < |files|
    ensures |SqlTheorems.Changed(c, db)| == |files|
    ensures SqlTheorems.Changed(c, db)[i] ==
            if WhereHolds(c.where, db, RowOf(files[i])) then Assign(RowOf(files[i]), c.columns, c.values) else RowOf(files[i])
  {
  }

  /** A file after an update of these columns. */
  predicate Touched(f: File, g: File, ks: seq<nat>, vs: seq<Value>)
    requires |ks| == |vs| && forall i :: 0 <= i < |ks| ==> ks[i] < FILE_COLUMNS
  {
    Fields(g) == SetAll(Fields(f), ks, vs)
  }

  lemma ScannedRow(c: SqlTheorems.Change, ks: seq<nat>, db: Database, files: seq<File>, j: nat, g: File)
    requires c.table == "File" && c.columns == ColumnsAt(ks) && |ks| == |c.values| && forall i :: 0 <= i < |ks| ==> ks[i] < FILE_COLUMNS
    requires db == map["File" := TableOf(files)] && j < |files|
    requires if WhereHolds(c.where, db, RowOf(files[j])) then Touched(files[j], g, ks, c.values) else g == files[j]
    ensures |SqlTheorems.Changed(c, db)| == |files| && Scan(InSchemaOrder(SqlTheorems.Changed(c, db)[j])) == Some(g)
  {
    ChangedAt(c, db, files, j);
    ScanRow(files[j]);
    if WhereHolds(c.where, db, RowOf(files[j])) {
      ScanAfterSet(files[j], g, ks, c.values);
    }
  }

  /** What the update c of these columns makes of the files. */
  ghost predicate Updates(c: SqlTheorems.Change, ks: seq<nat>, files: seq<File>, after: seq<File>)
    requires |ks| == |c.values| && forall i :: 0 <= i < |ks| ==> ks[i] < FILE_COLUMNS
  {
    && |after| == |files|
    && forall i :: 0 <= i < |files| ==>
         if WhereHolds(c.where, map["File" := TableOf(files)], RowOf(files[i]))
         then Touched(files[i], after[i], ks, c.values) else after[i] == files[i]
  }

  /** Builds and runs an UPDATE of some columns on a table of files and scans the rows. */
  method UpdateColumns(c: SqlTheorems.Change, ghost ks: seq<nat>, files: seq<File>, ghost after: seq<File>)
    returns (scanned: seq<File>)
    requires c.table == "File" && c.columns == ColumnsAt(ks) && 0 < |ks| == |c.values| && forall i :: 0 <= i < |ks| ==> ks[i] < FILE_COLUMNS
    requires NamedQuery(SqlTheorems.WhereOf(c)) && SqlTheorems.Runnable(SqlTheorems.WhereOf(c))
    requires Updates(c, ks, files, after)
    ensures scanned == after
  {
    forall i | 0 <= i < |ks| ensures IsName(c.columns[i]) {
      ColumnIsName(ks[i]);
    }
    var db := map["File" := TableOf(files)];
    var rows := SqlDriver.RunUpdateOf(c, db);
    forall j | 0 <= j < |files|
      ensures |rows.value| == |files| && Scan(InSchemaOrder(rows.value[j])) == Some(after[j])
    {
      ScannedRow(c, ks, db, files, j, after[j]);
    }
    assert |rows.value| == |files|;
    scanned := ScanAll(rows.value, after);
  }

  /** getFiles: scanning every row. */
  method ScanAll(rows: seq<Row>, ghost files: seq<File>) returns (scanned: seq<File>)
    requires |rows| == |files| && forall j :: 0 <= j < |rows| ==> Scan(InSchemaOrder(rows[j])) == Some(files[j])
    ensures scanned == files
  {
    scanned := [];
    for j := 0 to |rows|
      invariant scanned == files[..j]
    {
      scanned := scanned + [Scan(InSchemaOrder(rows[j])).value];
    }
  }

  function DeletedIn(files: seq<File>, owner: string, ids: seq<string>, at: int): (r: seq<File>)
    ensures |r| == |files|
    ensures forall i :: 0 <= i < |files| ==>
              r[i] == if files[i].ownerId == owner && files[i].fileId in ids then files[i].(deletedOn := Some(at)) else files[i]
  {
    seq(|files|, i requires 0 <= i < |files| =>
      if files[i].ownerId == owner && files[i].fileId in ids then files[i].(deletedOn := Some(at)) else files[i])
  }

  /** The statement DeleteFiles builds is accepted, marks exactly the owner's rows
      with the given ids, and leaves every other row as it was. */
  method ExecuteDelete(owner: string, ids: seq<string>, at: int, files: seq<File>) returns (after: seq<File>)
    requires |ids| > 0
    ensures after == DeletedIn(files, owner, ids, at)
  {
    OwnedInRunnable(owner, ids);
    DeleteUpdates(owner, ids, at, files);
    after := UpdateColumns(DeleteChange(owner, ids, at), DeleteColumns(), files, DeletedIn(files, owner, ids, at));
  }

  lemma DeleteUpdates(owner: string, ids: seq<string>, at: int, files: seq<File>)
    ensures Updates(DeleteChange(owner, ids, at), DeleteColumns(), files, DeletedIn(files, owner, ids, at))
  {
    forall i | 0 <= i < |files|
      ensures var g := DeletedIn(files, owner, ids, at)[i];
              if WhereHolds(OwnedIn(owner, ids), map["File" := TableOf(files)], RowOf(files[i]))
              then Touched(files[i], g, DeleteColumns(), DeleteValues(at)) else g == files[i]
    {
      DeleteTouches(owner, ids, at, files, i, map["File" := TableOf(files)]);
    }
  }

  lemma DeleteTouches(owner: string, ids: seq<string>, at: int, files: seq<File>, i: nat, db: Database)
    requires i < |files|
    ensures var g := DeletedIn(files, owner, ids, at)[i];
            if WhereHolds(OwnedIn(owner, ids), db, RowOf(files[i])) then Touched(files[i], g, DeleteColumns(), DeleteValues(at)) else g == files[i]
  {
    var f := files[i];
    DeletedField(f, at);
    OwnedInSelects(owner, ids, db, f);
    assert DeletedIn(files, owner, ids, at)[i] == if f.ownerId == owner && f.fileId in ids then f.(deletedOn := Some(at)) else f;
  }

  lemma DeletedField(f: File, at: int)
    ensures Touched(f, f.(deletedOn := Some(at)), DeleteColumns(), DeleteValues(at))
  {
    SetAllOne(Fields(f), 9, Time(at));
  }

  lemma SetAllOne(fields: seq<Value>, k: nat, v: Value)
    requires |fields| == FILE_COLUMNS && k < FILE_COLUMNS
    ensures SetAll(fields, [k], [v]) == fields[k := v]
  {
    assert [k][1..] == [] && [v][1..] == [];
  }

  lemma SetAllTwo(fields: seq<Value>, j: nat, k: nat, v: Value, w: Value)
    requires |fields| == FILE_COLUMNS && j < FILE_COLUMNS && k < FILE_COLUMNS
    ensures SetAll(fields, [j, k], [v, w]) == fields[j := v][k := w]
  {
    assert [j, k][1..] == [k] && [v, w][1..] == [w];
    SetAllOne(fields[j := v], k, w);
  }

  function WithStatus(f: File, status: UploadStatus, touched: Option<int>): File {
    var g := f.(uploadStatus := status);
    if touched.Some? then g.(modifiedOn := touched.value) else g
  }

  function StatusIn(files: seq<File>, owner: string, id: string, status: UploadStatus, touched: Option<int>): (r: seq<File>)
    ensures |r| == |files|
    ensures forall i :: 0 <= i < |files| ==>
              r[i] == if files[i].ownerId == owner && files[i].fileId == id then WithStatus(files[i], status, touched) else files[i]
  {
    seq(|files|, i requires 0 <= i < |files| =>
      if files[i].ownerId == owner && files[i].fileId == id then WithStatus(files[i], status, touched) else files[i])
  }

  /** The statements of UpdateUploadStatus and, with a time, of UpdateFile set the status
      of that row only, the second also its time. */
  method ExecuteStatus(owner: string, id: string, status: UploadStatus, touched: Option<int>, files: seq<File>) returns (after: seq<File>)
    ensures after == StatusIn(files, owner, id, status, touched)
  {
    OwnedOneRunnable(owner, id);
    StatusUpdates(owner, id, status, touched, files);
    after := UpdateColumns(StatusChange(owner, id, status, touched), StatusColumns(touched), files,
                           StatusIn(files, owner, id, status, touched));
  }

  lemma StatusUpdates(owner: string, id: string, status: UploadStatus, touched: Option<int>, files: seq<File>)
    ensures Updates(StatusChange(owner, id, status, touched), StatusColumns(touched), files, StatusIn(files, owner, id, status, touched))
  {
    forall i | 0 <= i < |files|
      ensures var g := StatusIn(files, owner, id, status, touched)[i];
              if WhereHolds(OwnedOne(owner, id), map["File" := TableOf(files)], RowOf(files[i]))
              then Touched(files[i], g, StatusColumns(touched), StatusValues(status, touched)) else g == files[i]
    {
      StatusTouches(owner, id, status, touched, files, i, map["File" := TableOf(files)]);
    }
  }

  lemma StatusTouches(owner: string, id: string, status: UploadStatus, touched: Option<int>, files: seq<File>, i: nat, db: Database)
    requires i < |files|
    ensures var g := StatusIn(files, owner, id, status, touched)[i];
            if WhereHolds(OwnedOne(owner, id), db, RowOf(files[i]))
            then Touched(files[i], g, StatusColumns(touched), StatusValues(status, touched)) else g == files[i]
  {
    var f := files[i];
    StatusFields(f, status, touched);
    OwnedOneSelects(owner, id, db, f);
    assert StatusIn(files, owner, id, status, touched)[i]
        == if f.ownerId == owner && f.fileId == id then WithStatus(f, status, touched) else f;
  }

  lemma StatusFields(f: File, status: UploadStatus, touched: Option<int>)
    ensures Touched(f, WithStatus(f, status, touched), StatusColumns(touched), StatusValues(status, touched))
  {
    if touched.Some? {
      SetAllTwo(Fields(f), 8, 10, Time(touched.value), Str(StatusText(status)));
    } else {
      SetAllOne(Fields(f), 10, Str(StatusText(status)));
    }
  }
}
