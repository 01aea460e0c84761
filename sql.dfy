/** The SQL text the scraper sends to SQLite: the table schemas built by
    `make_table_schema` and its line builders, the bulk INSERTs of the
    lookup tables, the per-variant INSERT of `insert_weapon_variant`, the
    loop of `insert_weapons`, and the `user_version` gate of
    `ensure_schema`. Query results (the ids the lookup tables assigned) are
    parameters: one map per lookup table from the stored text to its id. */
module Sql {
  import opened Wrappers
  import opened Strings
  import opened ODict
  import opened Tokenizer
  import opened Extractors
  import opened Page
  import opened Load

  // ---------------------------------------------------------------------
  // Lines of text
  // ---------------------------------------------------------------------

  /** The strings concatenated in order. */
  function Concat(ls: seq<string>): string
    decreases |ls|
  {
    if ls == [] then [] else ls[0] + Concat(ls[1..])
  }

  lemma {:induction false} ConcatAppend(ls: seq<string>, x: string)
    ensures Concat(ls + [x]) == Concat(ls) + x
    decreases |ls|
  {
    if ls == [] {
      assert Concat([x]) == x + Concat([]);
    } else {
      assert (ls + [x])[1..] == ls[1..] + [x];
      ConcatAppend(ls[1..], x);
    }
  }

  lemma {:induction false} ConcatSplits(a: seq<string>, b: seq<string>)
    ensures Concat(a + b) == Concat(a) + Concat(b)
    decreases |a|
  {
    if a != [] {
      assert (a + b)[1..] == a[1..] + b;
      ConcatSplits(a[1..], b);
    } else {
      assert a + b == b;
    }
  }

  /** Concatenation is joining with the empty separator. */
  lemma {:induction false} ConcatIsJoin(ls: seq<string>)
    ensures Concat(ls) == Join(ls, "")
    decreases |ls|
  {
    if |ls| == 1 {
      assert Concat(ls) == ls[0] + Concat(ls[1..]);
    } else if |ls| > 1 {
      ConcatIsJoin(ls[1..]);
      assert ls[0] + "" == ls[0];
    }
  }

  /** Each text followed by a newline. */
  function Lines(texts: seq<string>): (ls: seq<string>)
    ensures |ls| == |texts|
  {
    seq(|texts|, i requires 0 <= i < |texts| => texts[i] + "\n")
  }

  lemma LinesStep(texts: seq<string>, tail: string)
    requires texts != [] && '\n' !in texts[0]
    requires Split(Concat(Lines(texts[1..])) + tail, '\n') == texts[1..] + Split(tail, '\n')
    ensures Split(Concat(Lines(texts)) + tail, '\n') == texts + Split(tail, '\n')
  {
    var ls := Lines(texts);
    assert ls[1..] == Lines(texts[1..]);
    assert Concat(ls) == ls[0] + Concat(ls[1..]);
    var rest := Concat(Lines(texts[1..])) + tail;
    assert Concat(ls) + tail == texts[0] + ['\n'] + rest;
    SplitAfterFirstPart(texts[0], rest, '\n');
    ConsTail(texts, Split(tail, '\n'));
  }

  lemma ConsTail<T>(xs: seq<T>, s: seq<T>)
    requires xs != []
    ensures [xs[0]] + (xs[1..] + s) == xs + s
  {
    assert xs == [xs[0]] + xs[1..];
  }

  /** Splitting lines on the newline gives back each line's text. */
  lemma {:induction false} ConcatLines(texts: seq<string>, tail: string)
    requires forall i | 0 <= i < |texts| :: '\n' !in texts[i]
    ensures Split(Concat(Lines(texts)) + tail, '\n') == texts + Split(tail, '\n')
    decreases |texts|
  {
    if texts == [] {
      assert Concat(Lines(texts)) + tail == tail;
    } else {
      ConcatLines(texts[1..], tail);
      LinesStep(texts, tail);
    }
  }

  predicate NoNewline(s: string) { '\n' !in s }

  predicate StartsWith(s: string, pre: string) { |pre| <= |s| && s[..|pre|] == pre }

  predicate EndsWith(s: string, suf: string) { |suf| <= |s| && s[|s| - |suf|..] == suf }

  /** The index of the first `c` in `s`, or `|s|` when there is none. */
  function IndexOfChar(s: string, c: char): (i: nat)
    ensures i <= |s|
    ensures i < |s| ==> s[i] == c
    ensures forall j | 0 <= j < i :: s[j] != c
    decreases |s|
  {
    if s == [] then 0 else if s[0] == c then 0 else 1 + IndexOfChar(s[1..], c)
  }

  lemma {:induction false} IndexOfCharAfter(a: string, c: char, b: string)
    requires c !in a
    ensures IndexOfChar(a + [c] + b, c) == |a|
    decreases |a|
  {
    if a != [] {
      assert (a + [c] + b)[1..] == a[1..] + [c] + b;
      IndexOfCharAfter(a[1..], c, b);
    }
  }

  // ---------------------------------------------------------------------
  // Schemas
  // ---------------------------------------------------------------------

  /** `make_id()`, as its text and newline. */
  const IdText: string := "\"id\" INTEGER NOT NULL UNIQUE,"
  const IdLine: string := IdText + "\n"

  const PrimaryKeyText: string := "PRIMARY KEY(\"id\" AUTOINCREMENT)"
  const Footer: string := PrimaryKeyText + "\n);"

  function HeaderText(name: string): string
  {
    "CREATE TABLE IF NOT EXISTS \"" + name + "\" ("
  }

  function Header(name: string): string
  {
    HeaderText(name) + "\n"
  }

  /** The text of a column line: the quoted name, the type, " UNIQUE" for
      the unique column, then a comma. */
  function ColumnText(name: string, type_: string, unique: bool): string
  {
    "\"" + name + "\" " + type_ + (if unique then " UNIQUE" else "") + ","
  }

  /** `make_column(name, type_, unique)` */
  function MakeColumn(name: string, type_: string, unique: bool): string
  {
    ColumnText(name, type_, unique) + "\n"
  }

  const FkOpen: string := "FOREIGN KEY(\""
  const FkMiddle: string := "\") REFERENCES \""
  const FkClose: string := "\"(\"id\"),"

  function ForeignKeyText(name: string, table: string): string
  {
    FkOpen + name + FkMiddle + table + FkClose
  }

  /** `make_foreign_key(name, table)` */
  function MakeForeignKey(name: string, table: string): string
  {
    ForeignKeyText(name, table) + "\n"
  }

  /** A column line read back. */
  datatype Column = Column(name: string, type_: string, unique: bool)

  function ParseColumn(t: string): Option<Column>
  {
    if |t| < 1 || t[0] != '"' then None
    else
      var rest := t[1..];
      var q := IndexOfChar(rest, '"');
      if q >= |rest| then None
      else
        var after := rest[q + 1..];
        if |after| < 2 || after[0] != ' ' || after[|after| - 1] != ',' then None
        else
          var body := after[1..|after| - 1];
          if EndsWith(body, " UNIQUE") then Some(Column(rest[..q], body[..|body| - 7], true))
          else Some(Column(rest[..q], body, false))
  }

  /** A column line gives back its name, its type and whether it is
      unique, for a name without quotes and a type not ending in " UNIQUE". */
  lemma ColumnRoundTrip(name: string, type_: string, unique: bool)
    requires '"' !in name && !EndsWith(type_, " UNIQUE")
    ensures ParseColumn(ColumnText(name, type_, unique)) == Some(Column(name, type_, unique))
  {
    var body := type_ + (if unique then " UNIQUE" else "");
    assert ColumnText(name, type_, unique) == "\"" + name + "\" " + body + ",";
    ParseColumnBody(name, body);
    if unique {
      assert body[|body| - 7..] == " UNIQUE";
      assert body[..|body| - 7] == type_;
    } else {
      assert body == type_;
    }
  }

  /** A quoted name without quotes, a space, a body and a comma read back
      as that name and body, the body's " UNIQUE" suffix taken as the flag. */
  lemma ParseColumnBody(name: string, body: string)
    requires '"' !in name
    ensures ParseColumn("\"" + name + "\" " + body + ",") ==
      if EndsWith(body, " UNIQUE") then Some(Column(name, body[..|body| - 7], true))
      else Some(Column(name, body, false))
  {
    var t := "\"" + name + "\" " + body + ",";
    var rest := t[1..];
    assert rest == name + ['"'] + (" " + body + ",");
    IndexOfCharAfter(name, '"', " " + body + ",");
    var after := rest[|name| + 1..];
    assert after == " " + body + ",";
    assert after[1..|after| - 1] == body;
    assert rest[..|name|] == name;
  }

  /** A foreign key line read back as its column and table. */
  function ParseForeignKey(t: string): Option<(string, string)>
  {
    if !StartsWith(t, FkOpen) then None
    else
      var rest := t[|FkOpen|..];
      var q := IndexOfChar(rest, '"');
      if q >= |rest| || !StartsWith(rest[q..], FkMiddle) then None
      else
        var rest2 := rest[q + |FkMiddle|..];
        var q2 := IndexOfChar(rest2, '"');
        if q2 >= |rest2| || rest2[q2..] != FkClose then None
        else Some((rest[..q], rest2[..q2]))
  }

  /** A foreign key line gives back its column and table, for names without
      quotes. */
  lemma ForeignKeyRoundTrip(name: string, table: string)
    requires '"' !in name && '"' !in table
    ensures ParseForeignKey(ForeignKeyText(name, table)) == Some((name, table))
  {
    var t := ForeignKeyText(name, table);
    var n := |FkOpen|;
    var rest := name + FkMiddle + table + FkClose;
    assert t == FkOpen + rest;
    assert t[..n] == FkOpen && t[n..] == rest;
    ForeignKeyRest(name, table);
    ForeignKeyTail(table);
  }

  lemma ForeignKeyRest(name: string, table: string)
    requires '"' !in name
    ensures var rest := name + FkMiddle + table + FkClose;
      && IndexOfChar(rest, '"') == |name| && rest[..|name|] == name
      && StartsWith(rest[|name|..], FkMiddle) && rest[|name| + |FkMiddle|..] == table + FkClose
  {
    var rest := name + FkMiddle + table + FkClose;
    var mid := FkMiddle[1..] + table + FkClose;
    assert FkMiddle == ['"'] + FkMiddle[1..];
    assert rest == name + ['"'] + mid;
    IndexOfCharAfter(name, '"', mid);
    assert rest[|name|..] == FkMiddle + (table + FkClose);
  }

  lemma ForeignKeyTail(table: string)
    requires '"' !in table
    ensures var rest2 := table + FkClose;
      && IndexOfChar(rest2, '"') == |table| && rest2[|table|..] == FkClose && rest2[..|table|] == table
  {
    assert FkClose == ['"'] + FkClose[1..];
    assert table + FkClose == table + ['"'] + FkClose[1..];
    IndexOfCharAfter(table, '"', FkClose[1..]);
  }

  /** One column line per key, unique when the key is `uniqueColname`. */
  function ColumnLines(keys: seq<(string, string)>, uniqueColname: Option<string>): (ls: seq<string>)
    ensures |ls| == |keys|
  {
    seq(|keys|, i requires 0 <= i < |keys| => MakeColumn(keys[i].0, keys[i].1, uniqueColname == Some(keys[i].0)))
  }

  function ForeignKeyLines(foreignKeys: seq<(string, string)>): (ls: seq<string>)
    ensures |ls| == |foreignKeys|
  {
    seq(|foreignKeys|, i requires 0 <= i < |foreignKeys| => MakeForeignKey(foreignKeys[i].0, foreignKeys[i].1))
  }

  /** The schema of one table: the header, the id column, the columns, the
      foreign keys and the primary key clause. */
  function TableSchema(name: string, keys: seq<(string, string)>, foreignKeys: seq<(string, string)>,
                       uniqueColname: Option<string>): string
  {
    Header(name) + IdLine + Concat(ColumnLines(keys, uniqueColname)) + Concat(ForeignKeyLines(foreignKeys)) + Footer
  }

  /** `make_table_schema(name, keys, foreign_keys, unique_colname)`; an
      absent list of keys or foreign keys is the empty sequence. */
  method MakeTableSchema(name: string, keys: seq<(string, string)>, foreignKeys: seq<(string, string)>,
                         uniqueColname: Option<string>) returns (sql: string)
    ensures sql == TableSchema(name, keys, foreignKeys, uniqueColname)
  {
    sql := Header(name);
    sql := sql + IdLine;
    sql := AppendColumns(sql, keys, uniqueColname);
    sql := AppendForeignKeys(sql, foreignKeys);
    sql := sql + Footer;
  }

  lemma ColumnLinesAppend(keys: seq<(string, string)>, uniqueColname: Option<string>, i: nat)
    requires i < |keys|
    ensures ColumnLines(keys[..i + 1], uniqueColname) ==
      ColumnLines(keys[..i], uniqueColname) + [MakeColumn(keys[i].0, keys[i].1, uniqueColname == Some(keys[i].0))]
  {
  }

  lemma ForeignKeyLinesAppend(foreignKeys: seq<(string, string)>, j: nat)
    requires j < |foreignKeys|
    ensures ForeignKeyLines(foreignKeys[..j + 1]) ==
      ForeignKeyLines(foreignKeys[..j]) + [MakeForeignKey(foreignKeys[j].0, foreignKeys[j].1)]
  {
  }

  /** The loop over `keys`. */
  method AppendColumns(prefix: string, keys: seq<(string, string)>, uniqueColname: Option<string>)
    returns (sql: string)
    ensures sql == prefix + Concat(ColumnLines(keys, uniqueColname))
  {
    sql := prefix;
    var i := 0;
    while i < |keys|
      invariant 0 <= i <= |keys|
      invariant sql == prefix + Concat(ColumnLines(keys[..i], uniqueColname))
    {
      var keyIsUnique := uniqueColname == Some(keys[i].0);
      ColumnLinesAppend(keys, uniqueColname, i);
      ConcatAppend(ColumnLines(keys[..i], uniqueColname), MakeColumn(keys[i].0, keys[i].1, keyIsUnique));
      sql := sql + MakeColumn(keys[i].0, keys[i].1, keyIsUnique);
      i := i + 1;
    }
    assert keys[..i] == keys;
  }

  /** The loop over `foreign_keys`. */
  method AppendForeignKeys(prefix: string, foreignKeys: seq<(string, string)>) returns (sql: string)
    ensures sql == prefix + Concat(ForeignKeyLines(foreignKeys))
  {
    sql := prefix;
    var j := 0;
    while j < |foreignKeys|
      invariant 0 <= j <= |foreignKeys|
      invariant sql == prefix + Concat(ForeignKeyLines(foreignKeys[..j]))
    {
      ForeignKeyLinesAppend(foreignKeys, j);
      ConcatAppend(ForeignKeyLines(foreignKeys[..j]), MakeForeignKey(foreignKeys[j].0, foreignKeys[j].1));
      sql := sql + MakeForeignKey(foreignKeys[j].0, foreignKeys[j].1);
      j := j + 1;
    }
    assert foreignKeys[..j] == foreignKeys;
  }

  /** No newline in any name or type of a table's description. */
  predicate PlainNames(name: string, keys: seq<(string, string)>, foreignKeys: seq<(string, string)>)
  {
    && NoNewline(name)
    && (forall i | 0 <= i < |keys| :: NoNewline(keys[i].0) && NoNewline(keys[i].1))
    && (forall i | 0 <= i < |foreignKeys| :: NoNewline(foreignKeys[i].0) && NoNewline(foreignKeys[i].1))
  }

  function ColumnTexts(keys: seq<(string, string)>, uniqueColname: Option<string>): (ts: seq<string>)
    ensures |ts| == |keys|
  {
    seq(|keys|, i requires 0 <= i < |keys| => ColumnText(keys[i].0, keys[i].1, uniqueColname == Some(keys[i].0)))
  }

  function ForeignKeyTexts(foreignKeys: seq<(string, string)>): (ts: seq<string>)
    ensures |ts| == |foreignKeys|
  {
    seq(|foreignKeys|, i requires 0 <= i < |foreignKeys| => ForeignKeyText(foreignKeys[i].0, foreignKeys[i].1))
  }

  /** The lines of a schema, in order: the header, the id column, one line
      per column, one per foreign key, then the primary key clause and the
      closing parenthesis. */
  lemma SchemaLines(name: string, keys: seq<(string, string)>, foreignKeys: seq<(string, string)>,
                    uniqueColname: Option<string>)
    requires PlainNames(name, keys, foreignKeys)
    ensures Split(TableSchema(name, keys, foreignKeys, uniqueColname), '\n') ==
      [HeaderText(name), IdText] + ColumnTexts(keys, uniqueColname) + ForeignKeyTexts(foreignKeys)
      + [PrimaryKeyText, ");"]
  {
    var texts := [HeaderText(name), IdText] + ColumnTexts(keys, uniqueColname) + ForeignKeyTexts(foreignKeys);
    SchemaTextsPlain(name, keys, foreignKeys, uniqueColname);
    SchemaIsLines(name, keys, foreignKeys, uniqueColname);
    ConcatLines(texts, Footer);
    FooterLines();
  }

  lemma SchemaTextsPlain(name: string, keys: seq<(string, string)>, foreignKeys: seq<(string, string)>,
                         uniqueColname: Option<string>)
    requires PlainNames(name, keys, foreignKeys)
    ensures var texts := [HeaderText(name), IdText] + ColumnTexts(keys, uniqueColname) + ForeignKeyTexts(foreignKeys);
      forall i | 0 <= i < |texts| :: '\n' !in texts[i]
  {
    var texts := [HeaderText(name), IdText] + ColumnTexts(keys, uniqueColname) + ForeignKeyTexts(foreignKeys);
    forall i | 0 <= i < |texts| ensures '\n' !in texts[i] {
      if i >= 2 + |keys| {
        var k := i - 2 - |keys|;
        assert texts[i] == FkOpen + foreignKeys[k].0 + FkMiddle + foreignKeys[k].1 + FkClose;
      } else if i >= 2 {
        var k := i - 2;
        var u := if uniqueColname == Some(keys[k].0) then " UNIQUE" else "";
        assert texts[i] == "\"" + keys[k].0 + "\" " + keys[k].1 + u + ",";
      }
    }
  }

  lemma SchemaIsLines(name: string, keys: seq<(string, string)>, foreignKeys: seq<(string, string)>,
                      uniqueColname: Option<string>)
    ensures TableSchema(name, keys, foreignKeys, uniqueColname) ==
      Concat(Lines([HeaderText(name), IdText] + ColumnTexts(keys, uniqueColname) + ForeignKeyTexts(foreignKeys))) + Footer
  {
    var texts := [HeaderText(name), IdText] + ColumnTexts(keys, uniqueColname) + ForeignKeyTexts(foreignKeys);
    var ls := Lines(texts);
    assert ls == [Header(name), IdLine] + ColumnLines(keys, uniqueColname) + ForeignKeyLines(foreignKeys);
    ConcatSplits([Header(name), IdLine] + ColumnLines(keys, uniqueColname), ForeignKeyLines(foreignKeys));
    ConcatSplits([Header(name), IdLine], ColumnLines(keys, uniqueColname));
    assert Concat([Header(name), IdLine]) == Header(name) + IdLine by {
      assert Concat([IdLine]) == IdLine + Concat([]);
    }
  }

  lemma FooterLines()
    ensures Split(Footer, '\n') == [PrimaryKeyText, ");"]
  {
    assert Footer == PrimaryKeyText + ['\n'] + ");";
    SplitAfterFirstPart(PrimaryKeyText, ");", '\n');
    SplitWithoutSeparator(");", '\n');
  }

  // ---------------------------------------------------------------------
  // Bulk inserts of the lookup tables
  // ---------------------------------------------------------------------

  function InsertHeaderText(table: string, columns: string): string
  {
    "INSERT INTO \"" + table + "\" (" + columns + ") VALUES"
  }

  /** The INSERT header, then the rows separated by ",\n". */
  function InsertValues(table: string, columns: string, rows: seq<string>): string
  {
    InsertHeaderText(table, columns) + "\n" + Join(rows, ",\n")
  }

  /** `f'("{x}")'` */
  function Quoted(x: string): string
  {
    "(\"" + x + "\")"
  }

  /** `insert_weapon_names`, `insert_weapon_classes` and
      `insert_weapon_qualities`: one row per member of the set, in the order
      the set is iterated. */
  function InsertNamed(table: string, items: seq<string>): string
  {
    InsertValues(table, "name", seq(|items|, i requires 0 <= i < |items| => Quoted(items[i])))
  }

  /** Each row with the comma that follows it, the last without. */
  function WithCommas(rows: seq<string>): (ls: seq<string>)
    ensures |ls| == |rows|
  {
    seq(|rows|, i requires 0 <= i < |rows| => rows[i] + (if i + 1 < |rows| then "," else ""))
  }

  lemma {:induction false} JoinCommaNewline(rows: seq<string>)
    requires rows != []
    ensures Join(rows, ",\n") == Join(WithCommas(rows), "\n")
    decreases |rows|
  {
    if |rows| > 1 {
      JoinCommaNewline(rows[1..]);
      var w := WithCommas(rows);
      assert w[1..] == WithCommas(rows[1..]);
      assert w[0] == rows[0] + ",";
    }
  }

  /** The lines of a bulk insert: the header, then one line per row in
      order, each but the last ending in a comma. */
  lemma InsertLines(table: string, columns: string, rows: seq<string>)
    requires rows != [] && NoNewline(table) && NoNewline(columns)
    requires forall i | 0 <= i < |rows| :: NoNewline(rows[i])
    ensures Split(InsertValues(table, columns, rows), '\n') == [InsertHeaderText(table, columns)] + WithCommas(rows)
  {
    JoinCommaNewline(rows);
    var parts := [InsertHeaderText(table, columns)] + WithCommas(rows);
    assert parts[1..] == WithCommas(rows);
    assert Join(parts, "\n") == InsertValues(table, columns, rows);
    forall i | 0 <= i < |parts| ensures '\n' !in parts[i] {
      if i > 0 {
        assert parts[i] == rows[i - 1] + (if i < |rows| then "," else "");
      }
    }
    SplitJoin(parts, '\n');
  }

  /** A set member whose text has no newline comes back as its own line. */
  lemma NamedLines(table: string, items: seq<string>)
    requires items != [] && NoNewline(table)
    requires forall i | 0 <= i < |items| :: NoNewline(items[i])
    ensures var ls := Split(InsertNamed(table, items), '\n');
      && |ls| == |items| + 1
      && ls[0] == InsertHeaderText(table, "name")
      && forall i | 0 <= i < |items| :: ls[i + 1] == Quoted(items[i]) + (if i + 1 < |items| then "," else "")
  {
    var rows := seq(|items|, i requires 0 <= i < |items| => Quoted(items[i]));
    forall i | 0 <= i < |rows| ensures NoNewline(rows[i]) {
      assert rows[i] == "(\"" + items[i] + "\")";
    }
    InsertLines(table, "name", rows);
  }

  /** The errors of the insert step. */
  datatype SqlError =
    | MissingKey(key: string)   // KeyError on the variant dictionary
    | NoRow(table: string)      // fetchone() found no row
    | NotAPath                  // relpath of something that is not a string

  /** The text `relpath` receives from a `local_image` value; `None`, and
      anything that is not a string, raises. */
  function PathText(f: Field): (r: Option<string>)
    ensures r.Some? <==> f.Text? || (f.Path? && f.p.Some?)
  {
    match f
    case Path(Some(p)) => Some(p)
    case Text(s) => Some(s)
    case _ => None
  }

  function ImageRow(p: string): string
  {
    "(\"" + p + "\", \"" + p + "\")"
  }

  /** `insert_weapon_images(paths)` with `rel` for `os.path.relpath`: both
      columns hold the relative path; a member that is no path raises. */
  function InsertImages(paths: seq<Field>, rel: string -> string): (r: Result<string, SqlError>)
    ensures r.Err? <==> exists i | 0 <= i < |paths| :: PathText(paths[i]).None?
  {
    if exists i | 0 <= i < |paths| :: PathText(paths[i]).None? then Err(NotAPath)
    else Ok(InsertValues("WeaponImage", "path, data",
      seq(|paths|, i requires 0 <= i < |paths| && PathText(paths[i]).Some? => ImageRow(rel(PathText(paths[i]).value)))))
  }

  /** Each image path comes back as its own line holding the relative path
      in both columns, in the order the set is iterated. */
  lemma ImagesLines(paths: seq<Field>, rel: string -> string)
    requires paths != []
    requires forall i | 0 <= i < |paths| :: PathText(paths[i]).Some? && NoNewline(rel(PathText(paths[i]).value))
    ensures InsertImages(paths, rel).Ok?
    ensures var ls := Split(InsertImages(paths, rel).value, '\n');
      && |ls| == |paths| + 1
      && ls[0] == InsertHeaderText("WeaponImage", "path, data")
      && forall i | 0 <= i < |paths| ::
           ls[i + 1] == ImageRow(rel(PathText(paths[i]).value)) + (if i + 1 < |paths| then "," else "")
  {
    var rows := seq(|paths|, i requires 0 <= i < |paths| && PathText(paths[i]).Some? => ImageRow(rel(PathText(paths[i]).value)));
    assert InsertImages(paths, rel).value == InsertValues("WeaponImage", "path, data", rows);
    forall i | 0 <= i < |rows| ensures NoNewline(rows[i]) {
      var p := rel(PathText(paths[i]).value);
      assert rows[i] == "(\"" + p + "\", \"" + p + "\")";
    }
    InsertLines("WeaponImage", "path, data", rows);
  }

  // ---------------------------------------------------------------------
  // One weapon variant
  // ---------------------------------------------------------------------

  /** A bound parameter: an id or flag, or a stat value passed through. */
  datatype SqlValue = Num(n: int) | Copy(f: Field)

  /** The ids the lookup tables assigned, by the text stored in them. */
  datatype Ids = Ids(names: map<string, int>, classes: map<string, int>,
                     qualities: map<string, int>, images: map<string, int>)

  /** `SELECT id FROM "<table>" WHERE <column> = ?`, `fetchone()[0]`. */
  function Lookup(ids: map<string, int>, f: Field, table: string): (r: Result<int, SqlError>)
    ensures r.Ok? <==> f.Text? && f.s in ids
    ensures r.Err? ==> r.error == NoRow(table)
  {
    if f.Text? && f.s in ids then Ok(ids[f.s]) else Err(NoRow(table))
  }

  function FieldOf(variant: Record, key: string): (r: Result<Field, SqlError>)
    ensures r.Ok? <==> key in Keys(variant)
  {
    match Get(variant, key)
    case None => Err(MissingKey(key))
    case Some(f) => Ok(f)
  }

  /** The three ids looked up before the values are built: class, quality,
      then image by relative path. */
  function VariantIds(variant: Record, ids: Ids, rel: string -> string): Result<(int, int, int), SqlError>
  {
    match FieldOf(variant, "class")
    case Err(e) => Err(e)
    case Ok(c) =>
      match Lookup(ids.classes, c, "WeaponClass")
      case Err(e) => Err(e)
      case Ok(classId) =>
        match FieldOf(variant, "quality")
        case Err(e) => Err(e)
        case Ok(q) =>
          match Lookup(ids.qualities, q, "WeaponQuality")
          case Err(e) => Err(e)
          case Ok(qualityId) =>
            match FieldOf(variant, "local_image")
            case Err(e) => Err(e)
            case Ok(im) =>
              match PathText(im)
              case None => Err(NotAPath)
              case Some(p) =>
                if rel(p) in ids.images then Ok((classId, qualityId, ids.images[rel(p)]))
                else Err(NoRow("WeaponImage"))
  }

  /** Python truthiness of a variant value. */
  predicate Truthy(f: Field)
  {
    match f
    case Text(s) => s != []
    case Path(p) => p.Some? && p.value != []
    case Flag(b) => b
    case Stat(IntValue(n)) => n != 0
    case Stat(DecimalValue(t)) => exists i | 0 <= i < |t| :: '1' <= t[i] <= '9'
    case Stat(PercentValue(t)) => exists i | 0 <= i < |t| :: '1' <= t[i] <= '9'
  }

  /** The value stored for a key other than `local_image`. */
  function ConvertValue(key: string, f: Field, classId: int, qualityId: int): SqlValue
  {
    if key == "class" then Num(classId)
    else if key == "quality" then Num(qualityId)
    else if key == "homemade" then Num(if Truthy(f) then 1 else 0)
    else Copy(f)
  }

  /** The assignment the loop makes for one item of the variant. */
  function Convert(item: (string, Field), classId: int, qualityId: int, imageId: int): (string, SqlValue)
  {
    if item.0 == "local_image" then ("image", Num(imageId))
    else (item.0, ConvertValue(item.0, item.1, classId, qualityId))
  }

  function Converted(variant: Record, classId: int, qualityId: int, imageId: int): (cs: seq<(string, SqlValue)>)
    ensures |cs| == |variant|
  {
    seq(|variant|, i requires 0 <= i < |variant| => Convert(variant[i], classId, qualityId, imageId))
  }

  /** The `values` dictionary: the name id, then each item of the variant
      assigned in order. */
  function ValuesDict(nameId: int, variant: Record, classId: int, qualityId: int, imageId: int): Dict<SqlValue>
  {
    PutAll([("name", Num(nameId))], Converted(variant, classId, qualityId, imageId))
  }

  /** `', '.join('?' * n)`: the characters of n question marks joined. */
  function Placeholders(n: nat): string
  {
    Join(seq(n, _ => "?"), ", ")
  }

  function Statement(columns: seq<string>): string
  {
    "INSERT INTO \"Weapon\" (" + Join(columns, ", ") + ") VALUES (" + Placeholders(|columns|) + ")"
  }

  /** What `insert_weapon_variant` sends: the statement and its parameters. */
  datatype Insert = Insert(statement: string, params: seq<SqlValue>)

  function VariantInsert(nameId: int, variant: Record, ids: Ids, rel: string -> string): (r: Result<Insert, SqlError>)
    ensures r.Ok? <==> VariantIds(variant, ids, rel).Ok?
  {
    match VariantIds(variant, ids, rel)
    case Err(e) => Err(e)
    case Ok((classId, qualityId, imageId)) =>
      var values := ValuesDict(nameId, variant, classId, qualityId, imageId);
      Ok(Insert(Statement(Keys(values)), Values(values)))
  }

  /** One more item of the variant is one more assignment to the values. */
  lemma ConvertedStep(nameId: int, variant: Record, classId: int, qualityId: int, imageId: int, i: nat)
    requires i < |variant|
    ensures var c := Convert(variant[i], classId, qualityId, imageId);
      PutAll([("name", Num(nameId))], Converted(variant[..i + 1], classId, qualityId, imageId)) ==
      Put(PutAll([("name", Num(nameId))], Converted(variant[..i], classId, qualityId, imageId)), c.0, c.1)
  {
    assert Converted(variant[..i + 1], classId, qualityId, imageId)[..i] == Converted(variant[..i], classId, qualityId, imageId);
  }

  /** `insert_weapon_variant(db, weapon_name_id, variant)`, returning the
      statement and the parameters it executes. */
  method InsertWeaponVariant(nameId: int, variant: Record, ids: Ids, rel: string -> string)
    returns (r: Result<Insert, SqlError>)
    ensures r == VariantInsert(nameId, variant, ids, rel)
  {
    var found := VariantIds(variant, ids, rel);
    if found.Err? {
      return Err(found.error);
    }
    var (classId, qualityId, imageId) := found.value;
    var values: Dict<SqlValue> := [("name", Num(nameId))];
    var i := 0;
    while i < |variant|
      invariant 0 <= i <= |variant|
      invariant values == PutAll([("name", Num(nameId))], Converted(variant[..i], classId, qualityId, imageId))
    {
      var (key, value) := variant[i];
      ConvertedStep(nameId, variant, classId, qualityId, imageId, i);
      if key == "class" {
        values := Put(values, key, Num(classId));
      } else if key == "quality" {
        values := Put(values, key, Num(qualityId));
      } else if key == "local_image" {
        values := Put(values, "image", Num(imageId));
      } else if key == "homemade" {
        values := Put(values, key, Num(if Truthy(value) then 1 else 0));
      } else {
        values := Put(values, key, Copy(value));
      }
      i := i + 1;
    }
    assert variant[..i] == variant;
    var columnsCount := |Keys(values)|;
    var statement := "INSERT INTO \"Weapon\" (" + Join(Keys(values), ", ") + ") VALUES (" + Placeholders(columnsCount) + ")";
    r := Ok(Insert(statement, Values(values)));
  }

  /** What the values dictionary holds for a key, read off the variant:
      column "image" holds the image id when the variant has a local image,
      "local_image" itself never appears, and every other key of the variant
      holds its converted value. */
  function Expected(variant: Record, classId: int, qualityId: int, imageId: int, k: string): Option<SqlValue>
  {
    if k == "image" then (if "local_image" in Keys(variant) then Some(Num(imageId)) else None)
    else if k == "local_image" then None
    else match Get(variant, k)
      case None => None
      case Some(f) => Some(ConvertValue(k, f, classId, qualityId))
  }

  lemma {:induction false} ConvertedLastFor(variant: Record, classId: int, qualityId: int, imageId: int, k: string)
    requires DistinctKeys(variant) && "image" !in Keys(variant)
    ensures LastFor(Converted(variant, classId, qualityId, imageId), k) == Expected(variant, classId, qualityId, imageId, k)
    decreases |variant|
  {
    if variant != [] {
      var n := |variant| - 1;
      var pre, x := variant[..n], variant[n];
      assert variant == pre + [x];
      DistinctSnoc(pre, x);
      ConvertedLastFor(pre, classId, qualityId, imageId, k);
      var cs := Converted(variant, classId, qualityId, imageId);
      assert cs[..n] == Converted(pre, classId, qualityId, imageId) && cs[n] == Convert(x, classId, qualityId, imageId);
      ExpectedSnoc(pre, x, classId, qualityId, imageId, k);
    }
  }

  /** A dictionary with distinct keys and one more pair: its prefix has
      distinct keys, which do not include the new key. */
  lemma DistinctSnoc<V>(pre: Dict<V>, x: (string, V))
    requires DistinctKeys(pre + [x])
    ensures DistinctKeys(pre) && x.0 !in Keys(pre) && Keys(pre + [x]) == Keys(pre) + [x.0]
  {
    var d := pre + [x];
    forall i, j | 0 <= i < j < |pre| ensures pre[i].0 != pre[j].0 {
      assert pre[i] == d[i] && pre[j] == d[j];
    }
    forall i | 0 <= i < |pre| ensures Keys(pre)[i] != x.0 {
      assert pre[i] == d[i] && d[|pre|] == x;
    }
  }

  /** What one more item of the variant adds to the expected values. */
  lemma ExpectedSnoc(pre: Record, x: (string, Field), classId: int, qualityId: int, imageId: int, k: string)
    requires x.0 !in Keys(pre) && x.0 != "image" && Keys(pre + [x]) == Keys(pre) + [x.0]
    ensures Expected(pre + [x], classId, qualityId, imageId, k) ==
      var c := Convert(x, classId, qualityId, imageId);
      if c.0 == k then Some(c.1) else Expected(pre, classId, qualityId, imageId, k)
  {
    GetSnoc(pre, x, k);
  }

  /** The values dictionary of a variant without "name" or "image" keys:
      "name" holds the name id, "image" the image id, "class" and "quality"
      their ids, "homemade" 1 or 0 by truthiness, every other key its value
      unchanged, and "local_image" is gone. */
  lemma ValuesFields(nameId: int, variant: Record, classId: int, qualityId: int, imageId: int, k: string)
    requires DistinctKeys(variant) && "name" !in Keys(variant) && "image" !in Keys(variant)
    ensures Get(ValuesDict(nameId, variant, classId, qualityId, imageId), k) ==
      if k == "name" then Some(Num(nameId)) else Expected(variant, classId, qualityId, imageId, k)
  {
    GetPutAll([("name", Num(nameId))], Converted(variant, classId, qualityId, imageId), k);
    ConvertedLastFor(variant, classId, qualityId, imageId, k);
  }

  /** The number of times `c` occurs in `s`. */
  function Occurrences(s: string, c: char): nat
    decreases |s|
  {
    if s == [] then 0 else (if s[0] == c then 1 else 0) + Occurrences(s[1..], c)
  }

  lemma {:induction false} OccurrencesConcat(a: string, b: string, c: char)
    ensures Occurrences(a + b, c) == Occurrences(a, c) + Occurrences(b, c)
    decreases |a|
  {
    if a != [] {
      assert (a + b)[1..] == a[1..] + b;
      OccurrencesConcat(a[1..], b, c);
    } else {
      assert a + b == b;
    }
  }

  lemma {:induction false} OccurrencesAbsent(s: string, c: char)
    requires c !in s
    ensures Occurrences(s, c) == 0
    decreases |s|
  {
    if s != [] {
      OccurrencesAbsent(s[1..], c);
    }
  }

  lemma {:induction false} JoinWithout(parts: seq<string>, sep: string, c: char)
    requires c !in sep && forall i | 0 <= i < |parts| :: c !in parts[i]
    ensures c !in Join(parts, sep)
    decreases |parts|
  {
    if |parts| > 1 {
      JoinWithout(parts[1..], sep, c);
    }
  }

  /** `n` placeholders hold `n` question marks. */
  lemma {:induction false} PlaceholdersCount(n: nat)
    ensures Occurrences(Placeholders(n), '?') == n
    decreases n
  {
    if n == 1 {
      assert Placeholders(1) == "?";
    } else if n > 1 {
      var qs := seq(n, _ => "?");
      assert qs[1..] == seq(n - 1, _ => "?");
      assert Placeholders(n) == "?" + ", " + Placeholders(n - 1);
      PlaceholdersCount(n - 1);
      OccurrencesConcat("?" + ", ", Placeholders(n - 1), '?');
    }
  }

  /** A statement over columns without '?' holds one placeholder per column. */
  lemma StatementCount(cols: seq<string>)
    requires forall i | 0 <= i < |cols| :: '?' !in cols[i]
    ensures Occurrences(Statement(cols), '?') == |cols|
  {
    var j := Join(cols, ", ");
    JoinWithout(cols, ", ", '?');
    var head := "INSERT INTO \"Weapon\" (" + j + ") VALUES (";
    assert '?' !in head;
    OccurrencesAbsent(head, '?');
    var p := Placeholders(|cols|);
    PlaceholdersCount(|cols|);
    OccurrencesConcat(head, p, '?');
    OccurrencesConcat(head + p, ")", '?');
    assert Occurrences(")", '?') == 0;
    assert Statement(cols) == head + p + ")";
  }

  /** The columns are "name" and the variant's keys, with "image" for
      "local_image". */
  lemma ValuesColumns(nameId: int, variant: Record, classId: int, qualityId: int, imageId: int)
    requires forall i | 0 <= i < |variant| :: '?' !in variant[i].0
    ensures forall i | 0 <= i < |ValuesDict(nameId, variant, classId, qualityId, imageId)| ::
      '?' !in Keys(ValuesDict(nameId, variant, classId, qualityId, imageId))[i]
  {
    var conv := Converted(variant, classId, qualityId, imageId);
    KeysPutAll([("name", Num(nameId))], conv);
    var cols := Keys(ValuesDict(nameId, variant, classId, qualityId, imageId));
    forall i | 0 <= i < |cols| ensures '?' !in cols[i] {
      if cols[i] in Keys(conv) {
        var j :| 0 <= j < |conv| && Keys(conv)[j] == cols[i];
        assert conv[j] == Convert(variant[j], classId, qualityId, imageId);
      }
    }
  }

  /** When no key of the variant holds a '?', the statement has exactly one
      placeholder per parameter. */
  lemma InsertShape(nameId: int, variant: Record, ids: Ids, rel: string -> string)
    requires VariantInsert(nameId, variant, ids, rel).Ok?
    requires forall i | 0 <= i < |variant| :: '?' !in variant[i].0
    ensures var ins := VariantInsert(nameId, variant, ids, rel).value;
      Occurrences(ins.statement, '?') == |ins.params|
  {
    var found := VariantIds(variant, ids, rel).value;
    ValuesColumns(nameId, variant, found.0, found.1, found.2);
    StatementCount(Keys(ValuesDict(nameId, variant, found.0, found.1, found.2)));
  }

  /** Line `2 + i` of a schema reads back as the `i`-th column, unique
      exactly when it is `uniqueColname`. */
  lemma SchemaColumn(name: string, keys: seq<(string, string)>, foreignKeys: seq<(string, string)>,
                     uniqueColname: Option<string>, i: nat)
    requires PlainNames(name, keys, foreignKeys) && i < |keys|
    requires '"' !in keys[i].0 && !EndsWith(keys[i].1, " UNIQUE")
    ensures 2 + i < |Split(TableSchema(name, keys, foreignKeys, uniqueColname), '\n')|
    ensures ParseColumn(Split(TableSchema(name, keys, foreignKeys, uniqueColname), '\n')[2 + i]) ==
      Some(Column(keys[i].0, keys[i].1, uniqueColname == Some(keys[i].0)))
  {
    ColumnLine(name, keys, foreignKeys, uniqueColname, i);
    ColumnRoundTrip(keys[i].0, keys[i].1, uniqueColname == Some(keys[i].0));
  }

  lemma ColumnLine(name: string, keys: seq<(string, string)>, foreignKeys: seq<(string, string)>,
                   uniqueColname: Option<string>, i: nat)
    requires PlainNames(name, keys, foreignKeys) && i < |keys|
    ensures var ls := Split(TableSchema(name, keys, foreignKeys, uniqueColname), '\n');
      2 + i < |ls| && ls[2 + i] == ColumnText(keys[i].0, keys[i].1, uniqueColname == Some(keys[i].0))
  {
    SchemaLines(name, keys, foreignKeys, uniqueColname);
    var cols := ColumnTexts(keys, uniqueColname);
    var rest := ForeignKeyTexts(foreignKeys) + [PrimaryKeyText, ");"];
    assert [HeaderText(name), IdText] + cols + ForeignKeyTexts(foreignKeys) + [PrimaryKeyText, ");"]
      == [HeaderText(name), IdText] + cols + rest;
    IndexInMiddle([HeaderText(name), IdText], cols, rest, i);
  }

  lemma IndexInMiddle<T>(a: seq<T>, b: seq<T>, c: seq<T>, i: nat)
    requires i < |b|
    ensures (a + b + c)[|a| + i] == b[i]
  {
  }

  /** Line `2 + |keys| + i` of a schema reads back as the `i`-th foreign key. */
  lemma SchemaForeignKey(name: string, keys: seq<(string, string)>, foreignKeys: seq<(string, string)>,
                         uniqueColname: Option<string>, i: nat)
    requires PlainNames(name, keys, foreignKeys) && i < |foreignKeys|
    requires '"' !in foreignKeys[i].0 && '"' !in foreignKeys[i].1
    ensures 2 + |keys| + i < |Split(TableSchema(name, keys, foreignKeys, uniqueColname), '\n')|
    ensures ParseForeignKey(Split(TableSchema(name, keys, foreignKeys, uniqueColname), '\n')[2 + |keys| + i]) ==
      Some(foreignKeys[i])
  {
    SchemaLines(name, keys, foreignKeys, uniqueColname);
    var front := [HeaderText(name), IdText] + ColumnTexts(keys, uniqueColname);
    var fks := ForeignKeyTexts(foreignKeys);
    IndexInMiddle(front, fks, [PrimaryKeyText, ");"], i);
    ForeignKeyRoundTrip(foreignKeys[i].0, foreignKeys[i].1);
  }

  // ---------------------------------------------------------------------
  // All weapons
  // ---------------------------------------------------------------------

  /** What a loop of inserts that a failing lookup may end leaves behind:
      the inserts it executed, in order, and that lookup's error, if one
      failed. Each statement is executed as it is issued, with no
      transaction around the loop, so the inserts before the failure stay
      stored. */
  type InsertRun = Partial<Insert, SqlError>

  function VariantResults(nameId: int, variants: seq<Record>, ids: Ids, rel: string -> string)
    : (os: seq<Result<Insert, SqlError>>)
    ensures |os| == |variants|
  {
    seq(|variants|, j requires 0 <= j < |variants| => VariantInsert(nameId, variants[j], ids, rel))
  }

  /** The loop over one weapon's variants: one insert per variant, in
      order, until a lookup fails. */
  function VariantsRun(nameId: int, variants: seq<Record>, ids: Ids, rel: string -> string): InsertRun
  {
    Steps(VariantResults(nameId, variants, ids, rel))
  }

  /** The executed inserts are those of the variants before the first
      failing one, in order; the run fails exactly when some variant does,
      and then with that variant's error. */
  lemma VariantsRunMeaning(nameId: int, variants: seq<Record>, ids: Ids, rel: string -> string)
    ensures var r := VariantsRun(nameId, variants, ids, rel);
      && |r.done| <= |variants|
      && (forall j | 0 <= j < |r.done| :: VariantInsert(nameId, variants[j], ids, rel) == Ok(r.done[j]))
      && (r.failure.None? <==> |r.done| == |variants|)
      && (r.failure.Some? ==> VariantInsert(nameId, variants[|r.done|], ids, rel) == Err(r.failure.value))
  {
    var os := VariantResults(nameId, variants, ids, rel);
    StepsMeaning(os);
    assert forall j | 0 <= j < |variants| :: os[j] == VariantInsert(nameId, variants[j], ids, rel);
  }

  /** One weapon: its decoded name must be in the name table before any of
      its variants is inserted. */
  function WeaponRun(name: string, variants: seq<Record>, ids: Ids, rel: string -> string): InsertRun
  {
    var n := DecodeApostrophes(name);
    if n !in ids.names then Partial([], Some(NoRow("WeaponName")))
    else VariantsRun(ids.names[n], variants, ids, rel)
  }

  function WeaponRuns(d: Weapons, ids: Ids, rel: string -> string): (ps: seq<InsertRun>)
    ensures |ps| == |d|
  {
    seq(|d|, i requires 0 <= i < |d| => WeaponRun(d[i].0, d[i].1, ids, rel))
  }

  /** The loop over the weapons: each weapon's inserts after the previous
      weapons', until one weapon's run fails. */
  function AllRun(d: Weapons, ids: Ids, rel: string -> string): InsertRun
  {
    Chain(WeaponRuns(d, ids, rel))
  }

  /** The loop over the weapons stores every complete weapon before the
      first failing one, then that weapon's own executed inserts, and fails
      with its error; with no failing weapon it stores every weapon's
      inserts. */
  lemma AllRunMeaning(d: Weapons, ids: Ids, rel: string -> string)
    ensures var ps := WeaponRuns(d, ids, rel); var k := FirstFailing(ps); var r := AllRun(d, ids, rel);
      && (r.failure.None? <==> k == |d|)
      && (k == |d| ==> r.done == AllDone(ps))
      && (k < |d| ==> r.done == AllDone(ps[..k]) + ps[k].done && r.failure == ps[k].failure)
  {
    ChainMeaning(WeaponRuns(d, ids, rel));
  }

  /** The loop over one weapon's variants, returning the inserts it
      executed and the failing lookup that ended it, if any. */
  method InsertVariants(nameId: int, variants: seq<Record>, ids: Ids, rel: string -> string)
    returns (r: InsertRun)
    ensures r == VariantsRun(nameId, variants, ids, rel)
  {
    ghost var os := VariantResults(nameId, variants, ids, rel);
    var done: seq<Insert> := [];
    var j := 0;
    while j < |variants|
      invariant 0 <= j <= |variants|
      invariant Steps(os[..j]) == Partial(done, None)
    {
      var one := InsertWeaponVariant(nameId, variants[j], ids, rel);
      StepsStep(os, j, done);
      if one.Err? {
        StepsSticky(os, j + 1);
        return Partial(done, Some(one.error));
      }
      done := done + [one.value];
      j := j + 1;
    }
    assert os[..j] == os;
    r := Partial(done, None);
  }

  /** `insert_weapons(db, all_weapons)`, returning the inserts it executed
      and the failing lookup that ended it, if any. */
  method InsertWeapons(d: Weapons, ids: Ids, rel: string -> string) returns (r: InsertRun)
    ensures r == AllRun(d, ids, rel)
  {
    ghost var ps := WeaponRuns(d, ids, rel);
    var done: seq<Insert> := [];
    var i := 0;
    while i < |d|
      invariant 0 <= i <= |d|
      invariant Chain(ps[..i]) == Partial(done, None)
    {
      var (name, variants) := d[i];
      name := DecodeApostrophes(name);
      var one: InsertRun;
      if name !in ids.names {
        one := Partial([], Some(NoRow("WeaponName")));
      } else {
        one := InsertVariants(ids.names[name], variants, ids, rel);
      }
      assert one == WeaponRun(d[i].0, d[i].1, ids, rel);
      WeaponStep(d, ids, rel, i, done, one);
      if one.failure.Some? {
        return Partial(done + one.done, one.failure);
      }
      done := done + one.done;
      i := i + 1;
    }
    assert ps[..i] == ps;
    r := Partial(done, None);
  }

  /** One more weapon after weapons that all completed; a failing weapon
      ends the loop. */
  lemma WeaponStep(d: Weapons, ids: Ids, rel: string -> string, i: nat, done: seq<Insert>, one: InsertRun)
    requires i < |d| && Chain(WeaponRuns(d, ids, rel)[..i]) == Partial(done, None)
    requires one == WeaponRun(d[i].0, d[i].1, ids, rel)
    ensures Chain(WeaponRuns(d, ids, rel)[..i + 1]) == Partial(done + one.done, one.failure)
    ensures one.failure.Some? ==> Chain(WeaponRuns(d, ids, rel)) == Partial(done + one.done, one.failure)
  {
    var ps := WeaponRuns(d, ids, rel);
    assert ps[i] == one;
    ChainStep(ps, i, done);
    if one.failure.Some? {
      ChainSticky(ps, i + 1);
    }
  }

  /** A weapon's run succeeds exactly when its name is in the name table
      and every variant's lookups succeed; it then holds one insert per
      variant, in order. */
  lemma WeaponRunMeaning(name: string, variants: seq<Record>, ids: Ids, rel: string -> string)
    ensures WeaponRun(name, variants, ids, rel).failure.None? <==>
      DecodeApostrophes(name) in ids.names && forall j | 0 <= j < |variants| :: VariantIds(variants[j], ids, rel).Ok?
    ensures WeaponRun(name, variants, ids, rel).failure.None? ==>
      && |WeaponRun(name, variants, ids, rel).done| == |variants|
      && forall j | 0 <= j < |variants| :: WeaponRun(name, variants, ids, rel).done[j] ==
           VariantInsert(ids.names[DecodeApostrophes(name)], variants[j], ids, rel).value
  {
    var n := DecodeApostrophes(name);
    if n in ids.names {
      VariantsRunMeaning(ids.names[n], variants, ids, rel);
      var r := VariantsRun(ids.names[n], variants, ids, rel);
      if r.failure.Some? {
        assert VariantIds(variants[|r.done|], ids, rel).Err?;
      }
    }
  }

  /** The whole loop succeeds exactly when every weapon's run does. */
  lemma AllRunOk(d: Weapons, ids: Ids, rel: string -> string)
    ensures AllRun(d, ids, rel).failure.None? <==> forall i | 0 <= i < |d| :: WeaponRun(d[i].0, d[i].1, ids, rel).failure.None?
  {
    var ps := WeaponRuns(d, ids, rel);
    AllRunMeaning(d, ids, rel);
    forall i | 0 <= i < |d| ensures ps[i].failure == WeaponRun(d[i].0, d[i].1, ids, rel).failure {
    }
  }

  /** The class override happens after the class set was collected, so the
      overridden class is found in the class table exactly when some
      weapon's first variant already carried it; otherwise every overridden
      variant fails at the class lookup. */
  lemma OverriddenClassLookup(d: Weapons, classes: set<Field>, ids: Ids, rel: string -> string,
                              vs: seq<Record>, cls: string, j: nat)
    requires forall f :: f in classes <==> exists i | 0 <= i < |d| :: FirstClass(d[i].1) == Ok(f)
    requires forall s :: s in ids.classes <==> Text(s) in classes - {Text("")}
    requires cls != "" && j < |vs|
    ensures VariantIds(WithClass(vs, cls)[j], ids, rel) == Err(NoRow("WeaponClass")) <==>
      !exists i | 0 <= i < |d| :: FirstClass(d[i].1) == Ok(Text(cls))
  {
    WithClassFields(vs, cls, j, "class");
    ClassLookupFails(WithClass(vs, cls)[j], ids, rel, cls);
    assert Text(cls) != Text("");
  }

  /** A variant whose class is `cls` fails with the class-lookup error
      exactly when the class table has no row for `cls`. */
  lemma ClassLookupFails(variant: Record, ids: Ids, rel: string -> string, cls: string)
    requires FieldOf(variant, "class") == Ok(Text(cls))
    ensures VariantIds(variant, ids, rel) == Err(NoRow("WeaponClass")) <==> cls !in ids.classes
  {
    assert "WeaponQuality" != "WeaponClass" && "WeaponImage" != "WeaponClass";
  }

  /** The row of a nonempty name, with or without its comma, is never the
      row of the empty name. */
  lemma NotEmptyRow(x: string, comma: string)
    requires x != "" && (comma == "" || comma == ",")
    ensures Quoted(x) + comma != Quoted("") && Quoted(x) + comma != Quoted("") + ","
  {
    var row := Quoted(x) + comma;
    assert |row| >= 5;
    if |row| == 5 {
      assert row[3] == '"' != (Quoted("") + ",")[3];
    }
  }

  /** The class insert is built from the collected classes after the empty
      class is discarded: no row of it names the empty class, and every
      other class some weapon's first variant carries has its own row. */
  lemma ClassInsertSkipsEmpty(d: Weapons, classes: set<Field>, order: seq<string>)
    requires forall f :: f in classes <==> exists i | 0 <= i < |d| :: FirstClass(d[i].1) == Ok(f)
    requires forall s :: s in order <==> Text(s) in classes - {Text("")}
    requires order != [] && forall i | 0 <= i < |order| :: NoNewline(order[i])
    ensures var ls := Split(InsertNamed("WeaponClass", order), '\n');
      && |ls| == |order| + 1
      && (forall k | 1 <= k < |ls| :: ls[k] != Quoted("") && ls[k] != Quoted("") + ",")
      && (forall s :: s != "" && (exists i | 0 <= i < |d| :: FirstClass(d[i].1) == Ok(Text(s))) ==>
            exists k | 1 <= k < |ls| :: ls[k] == Quoted(s) || ls[k] == Quoted(s) + ",")
  {
    NamedLines("WeaponClass", order);
    var ls := Split(InsertNamed("WeaponClass", order), '\n');
    forall k | 1 <= k < |ls| ensures ls[k] != Quoted("") && ls[k] != Quoted("") + "," {
      assert order[k - 1] in order;
      NotEmptyRow(order[k - 1], if k < |order| then "," else "");
    }
    forall s | s != "" && (exists i | 0 <= i < |d| :: FirstClass(d[i].1) == Ok(Text(s)))
      ensures exists k | 1 <= k < |ls| :: ls[k] == Quoted(s) || ls[k] == Quoted(s) + ","
    {
      assert Text(s) in classes - {Text("")};
      var j :| 0 <= j < |order| && order[j] == s;
      assert ls[j + 1] == Quoted(s) + (if j + 1 < |order| then "," else "");
    }
  }

  // ---------------------------------------------------------------------
  // The schema and its version gate
  // ---------------------------------------------------------------------

  const WeaponColumns: seq<(string, string)> := [
    ("name", "INTEGER"), ("image", "INTEGER"), ("class", "INTEGER"), ("quality", "INTEGER"),
    ("armour_penetration", "REAL"), ("attack_bonus", "INTEGER"), ("blood_loss", "REAL"),
    ("blunt_damage", "REAL"), ("cutting_damage", "REAL"), ("damage_vs_animals", "REAL"),
    ("damage_vs_beak_thing", "REAL"), ("damage_vs_bonedog", "REAL"), ("damage_vs_gorillo", "REAL"),
    ("damage_vs_humans", "REAL"), ("damage_vs_leviathan", "REAL"), ("damage_vs_robots", "REAL"),
    ("damage_vs_skimmer", "REAL"), ("damage_vs_small_spider", "REAL"), ("damage_vs_spider", "REAL"),
    ("defence_bonus", "INTEGER"), ("homemade", "INTEGER"), ("image_url", "TEXT"),
    ("indoors_bonus", "INTEGER"), ("required_strength_level", "INTEGER"), ("sell_value", "INTEGER"),
    ("value", "INTEGER"), ("weight", "INTEGER")]

  const WeaponForeignKeys: seq<(string, string)> := [
    ("name", "WeaponName"), ("image", "WeaponImage"), ("class", "WeaponClass"), ("quality", "WeaponQuality")]

  const NameKeys: seq<(string, string)> := [("name", "TEXT")]

  const ImageKeys: seq<(string, string)> := [("path", "TEXT"), ("data", "BLOB")]

  /** Every foreign key of the weapon table names one of its columns. */
  lemma ForeignKeysAreColumns()
    ensures forall i | 0 <= i < |WeaponForeignKeys| ::
      exists j | 0 <= j < |WeaponColumns| :: WeaponColumns[j].0 == WeaponForeignKeys[i].0
  {
    assert WeaponColumns[0].0 == WeaponForeignKeys[0].0;
    assert WeaponColumns[1].0 == WeaponForeignKeys[1].0;
    assert WeaponColumns[2].0 == WeaponForeignKeys[2].0;
    assert WeaponColumns[3].0 == WeaponForeignKeys[3].0;
  }

  const VersionPragma: string := "PRAGMA user_version=1;"

  /** The five table definitions of the schema, in creation order. */
  function TableSchemas(): seq<string>
  {
    [TableSchema("WeaponName", NameKeys, [], Some("name")),
     TableSchema("WeaponClass", NameKeys, [], Some("name")),
     TableSchema("WeaponQuality", NameKeys, [], Some("name")),
     TableSchema("WeaponImage", ImageKeys, [], Some("path")),
     TableSchema("Weapon", WeaponColumns, WeaponForeignKeys, None)]
  }

  /** The script `ensure_schema` runs on a fresh database: the table
      definitions, then the foreign-key and version pragmas, one per line. */
  function Script(tables: seq<string>): string
  {
    Join(tables + ["PRAGMA foreign_keys = ON;", VersionPragma], "\n")
  }

  /** Whatever the table definitions, the script's last line sets the
      schema version to 1. */
  lemma ScriptSetsVersion(tables: seq<string>)
    ensures var ls := Split(Script(tables), '\n'); |ls| >= 2 && ls[|ls| - 1] == VersionPragma
  {
    forall i | 0 <= i < |VersionPragma| ensures VersionPragma[i] != '\n' {
    }
    SplitJoinedLast(tables + ["PRAGMA foreign_keys = ON;", VersionPragma], '\n');
  }

  /** `ensure_schema` on a database whose version is `version` and which has
      run `executed`: version 0 runs the full script, which leaves the
      version at 1; any other version changes nothing. */
  function SchemaStep(version: int, executed: seq<string>): (int, seq<string>)
  {
    if version == 0 then (1, executed + [Script(TableSchemas())]) else (version, executed)
  }

  /** A second `ensure_schema` changes nothing. */
  lemma SchemaStepIdempotent(version: int, executed: seq<string>)
    ensures var (v, e) := SchemaStep(version, executed); SchemaStep(v, e) == (v, e)
    ensures SchemaStep(version, executed).0 != 0
  {
  }

  /** The database as `ensure_schema` sees it: its `user_version` and the
      scripts run so far. */
  class Database {
    var userVersion: int
    var executed: seq<string>

    constructor (version: int)
      ensures userVersion == version && executed == []
    {
      userVersion := version;
      executed := [];
    }

    /** `ensure_schema(db)` */
    method EnsureSchema()
      modifies this
      ensures (userVersion, executed) == SchemaStep(old(userVersion), old(executed))
    {
      if userVersion == 0 {
        var namesSchema := MakeTableSchema("WeaponName", NameKeys, [], Some("name"));
        var classSchema := MakeTableSchema("WeaponClass", NameKeys, [], Some("name"));
        var qualitySchema := MakeTableSchema("WeaponQuality", NameKeys, [], Some("name"));
        var imageSchema := MakeTableSchema("WeaponImage", ImageKeys, [], Some("path"));
        var weaponSchema := MakeTableSchema("Weapon", WeaponColumns, WeaponForeignKeys, None);
        var tables := [namesSchema, classSchema, qualitySchema, imageSchema, weaponSchema];
        assert tables == TableSchemas();
        var fullSchema := Join(tables + ["PRAGMA foreign_keys = ON;", VersionPragma], "\n");
        executed := executed + [fullSchema];
        userVersion := 1;
      }
    }
  }
}
