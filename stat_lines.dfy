/** `process_stat_lines` (main.py:235-271): the carry-forward scanner over a
    variant's table. The rows after the first three are read cell by cell;
    each cell is cleaned and tokenized; a NAME match sets the pending label,
    and a value match yields a (key, value) pair under the label that was
    refreshed at the start of the cell.

    The model is a specification, `StatLines`, as left folds over matches,
    cells and rows, and the method `ProcessStatLines`, which runs the
    source's three nested loops and is proved to compute it. `name` is
    `None` or the text of the last match's NAME group; `oldname` is `None`
    until the first refresh (an unbound local in the source). An exception
    ends the whole scrape, so a failing scan yields only the error. */
module StatLines {
  import opened Wrappers
  import opened Tokenizer
  import opened Strings
  import opened Extractors

  type Pair = (string, Value)

  /** Why a scan stops: a value met before any label was refreshed (the
      UnboundLocalError on `oldname`), an INTEGER lexeme that `int()`
      rejects once its commas are gone, or a FLOAT, MULTIPLIER or
      PERCENTAGE lexeme whose number `float()` rejects. */
  datatype ScanError = UnboundLabel | BadInteger(lexeme: string) | BadFloat(lexeme: string)

  /** The scanner's variables between two steps. */
  datatype Scanner = Scanner(name: Option<string>, oldname: Option<string>, pairs: seq<Pair>)

  const Init: Scanner := Scanner(None, None, [])

  /** Every match lies in the text and matches its alternative there. */
  predicate ValidMatches(s: string, ms: seq<Match>)
  {
    forall i | 0 <= i < |ms| :: ms[i].start < ms[i].end <= |s| && Pattern(ms[i].kind, s, ms[i].start, ms[i].end)
  }

  lemma FindIterValid(s: string)
    ensures ValidMatches(s, FindIter(s))
  {
    var ms := FindIter(s);
    ScanChoices(s, 0);
    ScanOrdered(s, 0);
    forall i | 0 <= i < |ms|
      ensures ms[i].start < ms[i].end <= |s| && Pattern(ms[i].kind, s, ms[i].start, ms[i].end)
    {
      AlternationOrder(s, ms[i].start);
    }
  }

  /** A value is yielded under the refreshed label; with no label yet the
      reference to `oldname` fails. */
  function Yield(a: Scanner, v: Value): (r: Result<Scanner, ScanError>)
    ensures r.Ok? <==> a.oldname.Some?
  {
    match a.oldname
    case None => Err(UnboundLabel)
    case Some(k) => Ok(a.(pairs := a.pairs + [(k, v)]))
  }

  /** One match: the walrus assigns `name` the NAME group whatever the
      match is; a value match also yields. For INTEGER, MULTIPLIER and
      PERCENTAGE the number is converted before the label is read; for
      FLOAT the tuple `(oldname, float(float_num))` reads the label first. */
  function OnMatch(a: Scanner, s: string, m: Match): Result<Scanner, ScanError>
    requires m.start < m.end <= |s| && Pattern(m.kind, s, m.start, m.end)
  {
    if m.kind == Name then Ok(a.(name := Some(Group(s, m))))
    else
      var b := a.(name := None);
      var lexeme := s[m.start..m.end];
      if m.kind == Integer then
        match IntegerPayload(lexeme)
        case None => Err(BadInteger(lexeme))
        case Some(n) => Yield(b, IntValue(n))
      else if m.kind == Float && b.oldname.None? then Err(UnboundLabel)
      else
        match Payload(s, m)
        case None => Err(BadFloat(lexeme))
        case Some(v) => Yield(b, v)
  }

  function OnMatches(a: Scanner, s: string, ms: seq<Match>): Result<Scanner, ScanError>
    requires ValidMatches(s, ms)
    decreases |ms|
  {
    if ms == [] then Ok(a)
    else
      match OnMatches(a, s, ms[..|ms| - 1])
      case Err(e) => Err(e)
      case Ok(b) => OnMatch(b, s, ms[|ms| - 1])
  }

  /** `if name: oldname = name.lower().replace(" ", "_")`, at the start of
      every cell. */
  function CellStart(a: Scanner): Scanner
  {
    if a.name.Some? && a.name.value != [] then a.(oldname := Some(NormalizeLabel(a.name.value))) else a
  }

  /** One `td`: refresh the label, then scan the cleaned text. */
  function OnCell(a: Scanner, cell: string): Result<Scanner, ScanError>
  {
    var s := Clean(cell);
    FindIterValid(s);
    OnMatches(CellStart(a), s, FindIter(s))
  }

  function OnCells(a: Scanner, cells: seq<string>): Result<Scanner, ScanError>
    decreases |cells|
  {
    if cells == [] then Ok(a)
    else
      match OnCells(a, cells[..|cells| - 1])
      case Err(e) => Err(e)
      case Ok(b) => OnCell(b, cells[|cells| - 1])
  }

  function OnRows(a: Scanner, rows: seq<seq<string>>): Result<Scanner, ScanError>
    decreases |rows|
  {
    if rows == [] then Ok(a)
    else
      match OnRows(a, rows[..|rows| - 1])
      case Err(e) => Err(e)
      case Ok(b) => OnCells(b, rows[|rows| - 1])
  }

  /** `item_stat[3:]`: the image, name and class rows are skipped. */
  function Body(rows: seq<seq<string>>): seq<seq<string>>
  {
    if |rows| <= 3 then [] else rows[3..]
  }

  /** The pairs `process_stat_lines` yields for a variant whose `tr` rows
      have the given `td` texts, or the error that ends the run. */
  function StatLines(rows: seq<seq<string>>): Result<seq<Pair>, ScanError>
  {
    match OnRows(Init, Body(rows))
    case Ok(a) => Ok(a.pairs)
    case Err(e) => Err(e)
  }

  // ---------------------------------------------------------------------
  // The nested loops of the source
  // ---------------------------------------------------------------------

  /** The body of the innermost loop for one match, on the scanner's
      variables `a`. */
  method MatchStep(a: Scanner, s: string, m: Match) returns (r: Result<Scanner, ScanError>)
    requires m.start < m.end <= |s| && Pattern(m.kind, s, m.start, m.end)
    ensures r == OnMatch(a, s, m)
  {
    var name, oldname, pairs := a.name, a.oldname, a.pairs;
    var lexeme := s[m.start..m.end];
    if m.kind == Name {
      name := Some(s[m.start + 1..m.end]);
    } else {
      name := None;
      var v: Value;
      if m.kind == Integer {
        var n := IntegerPayload(lexeme);
        if n.None? {
          return Err(BadInteger(lexeme));
        }
        v := IntValue(n.value);
      } else if m.kind == Float {
        if oldname.None? {
          return Err(UnboundLabel);
        }
        if !FloatAccepts(lexeme) {
          return Err(BadFloat(lexeme));
        }
        v := DecimalValue(lexeme);
      } else if m.kind == Multiplier {
        var number := RStrip(lexeme, {'x'});
        if !FloatAccepts(number) {
          return Err(BadFloat(lexeme));
        }
        v := DecimalValue(number);
      } else if m.kind == Percentage {
        var number := RStrip(lexeme, {'%'});
        if !FloatAccepts(number) {
          return Err(BadFloat(lexeme));
        }
        v := PercentValue(number);
      } else {
        v := Payload(s, m).value;
      }
      if oldname.None? {
        return Err(UnboundLabel);
      }
      pairs := pairs + [(oldname.value, v)];
    }
    return Ok(Scanner(name, oldname, pairs));
  }

  /** The innermost loop, `for match in re.finditer(data_parser, stripped)`,
      from the scanner's variables `a`. */
  method ScanMatches(a: Scanner, s: string, ms: seq<Match>) returns (r: Result<Scanner, ScanError>)
    requires ValidMatches(s, ms)
    ensures r == OnMatches(a, s, ms)
  {
    var cur := a;
    var k := 0;
    while k < |ms|
      invariant 0 <= k <= |ms|
      invariant OnMatches(a, s, ms[..k]) == Ok(cur)
    {
      assert ms[..k + 1][..k] == ms[..k];
      var step := MatchStep(cur, s, ms[k]);
      if step.Err? {
        MatchesSticky(a, s, ms, k + 1);
        return step;
      }
      cur := step.value;
      k := k + 1;
    }
    assert ms[..k] == ms;
    return Ok(cur);
  }

  /** The middle loop, `for c in stat_result.findAll("td")`: clean the cell,
      refresh the label when `name` holds one, scan. */
  method ScanCells(a: Scanner, cells: seq<string>) returns (r: Result<Scanner, ScanError>)
    ensures r == OnCells(a, cells)
  {
    var cur := a;
    var j := 0;
    while j < |cells|
      invariant 0 <= j <= |cells|
      invariant OnCells(a, cells[..j]) == Ok(cur)
    {
      assert cells[..j + 1][..j] == cells[..j];
      var stripped := Clean(cells[j]);
      var start := cur;
      if cur.name.Some? && cur.name.value != [] {
        start := cur.(oldname := Some(NormalizeLabel(cur.name.value)));
      }
      FindIterValid(stripped);
      var res := ScanMatches(start, stripped, FindIter(stripped));
      if res.Err? {
        CellsSticky(a, cells, j + 1);
        return res;
      }
      cur := res.value;
      j := j + 1;
    }
    assert cells[..j] == cells;
    return Ok(cur);
  }

  /** The outer loop, `for i, stat_result in enumerate(item_stat[3:])`. */
  method ProcessStatLines(rows: seq<seq<string>>) returns (r: Result<seq<Pair>, ScanError>)
    ensures r == StatLines(rows)
  {
    var body := if |rows| <= 3 then [] else rows[3..];
    var cur := Scanner(None, None, []);
    var i := 0;
    while i < |body|
      invariant 0 <= i <= |body| && body == Body(rows)
      invariant OnRows(Init, body[..i]) == Ok(cur)
    {
      assert body[..i + 1][..i] == body[..i];
      var res := ScanCells(cur, body[i]);
      if res.Err? {
        RowsSticky(Init, body, i + 1);
        return Err(res.error);
      }
      cur := res.value;
      i := i + 1;
    }
    assert body[..i] == body;
    return Ok(cur.pairs);
  }

  lemma {:induction false} MatchesSticky(a: Scanner, s: string, ms: seq<Match>, n: nat)
    requires ValidMatches(s, ms) && n <= |ms| && OnMatches(a, s, ms[..n]).Err?
    ensures OnMatches(a, s, ms) == OnMatches(a, s, ms[..n])
    decreases |ms|
  {
    if n < |ms| {
      var front := ms[..|ms| - 1];
      assert front[..n] == ms[..n];
      MatchesSticky(a, s, front, n);
    } else {
      assert ms[..n] == ms;
    }
  }

  lemma {:induction false} CellsSticky(a: Scanner, cells: seq<string>, n: nat)
    requires n <= |cells| && OnCells(a, cells[..n]).Err?
    ensures OnCells(a, cells) == OnCells(a, cells[..n])
    decreases |cells|
  {
    if n < |cells| {
      var front := cells[..|cells| - 1];
      assert front[..n] == cells[..n];
      CellsSticky(a, front, n);
    } else {
      assert cells[..n] == cells;
    }
  }

  lemma {:induction false} RowsSticky(a: Scanner, rows: seq<seq<string>>, n: nat)
    requires n <= |rows| && OnRows(a, rows[..n]).Err?
    ensures OnRows(a, rows) == OnRows(a, rows[..n])
    decreases |rows|
  {
    if n < |rows| {
      var front := rows[..|rows| - 1];
      assert front[..n] == rows[..n];
      RowsSticky(a, front, n);
    } else {
      assert rows[..n] == rows;
    }
  }

  // ---------------------------------------------------------------------
  // Properties of the scan
  // ---------------------------------------------------------------------

  /** Within a cell the label never changes: every pair a cell's matches
      yield carries the label as it stood when the cell began, earlier pairs
      are kept, and `name` ends set exactly when the last match was a NAME. */
  lemma {:induction false} MatchesKeepLabel(a: Scanner, s: string, ms: seq<Match>)
    requires ValidMatches(s, ms) && OnMatches(a, s, ms).Ok?
    ensures var b := OnMatches(a, s, ms).value;
      && b.oldname == a.oldname
      && a.pairs <= b.pairs
      && (forall i | |a.pairs| <= i < |b.pairs| :: Some(b.pairs[i].0) == a.oldname)
      && (ms != [] ==> (b.name.Some? <==> ms[|ms| - 1].kind == Name))
    decreases |ms|
  {
    if ms != [] {
      MatchesKeepLabel(a, s, ms[..|ms| - 1]);
    }
  }

  /** The pairs of one cell all carry the label refreshed at its start:
      the normalised NAME of the last match before the cell, when that match
      was a NAME, and the older label otherwise. */
  lemma CellLabel(a: Scanner, cell: string)
    requires OnCell(a, cell).Ok?
    ensures var b := OnCell(a, cell).value;
      && a.pairs <= b.pairs
      && b.oldname == CellStart(a).oldname
      && (forall i | |a.pairs| <= i < |b.pairs| ::
            Some(b.pairs[i].0) ==
              if a.name.Some? && a.name.value != [] then Some(NormalizeLabel(a.name.value)) else a.oldname)
  {
    var s := Clean(cell);
    FindIterValid(s);
    MatchesKeepLabel(CellStart(a), s, FindIter(s));
  }

  /** The scanner's variables as the source keeps them: `name` is a NAME
      group (letters and spaces), the label and every yielded key are
      lower-case letters and underscores. */
  ghost predicate Sound(a: Scanner)
  {
    && (a.name.Some? ==> |a.name.value| > 0 && forall i | 0 <= i < |a.name.value| :: IsNameChar(a.name.value[i]))
    && (a.oldname.Some? ==> IsKey(a.oldname.value))
    && (forall i | 0 <= i < |a.pairs| :: IsKey(a.pairs[i].0))
  }

  lemma {:induction false} MatchesSound(a: Scanner, s: string, ms: seq<Match>)
    requires ValidMatches(s, ms) && Sound(a) && OnMatches(a, s, ms).Ok?
    ensures Sound(OnMatches(a, s, ms).value)
    decreases |ms|
  {
    if ms != [] {
      MatchesSound(a, s, ms[..|ms| - 1]);
      MatchSound(OnMatches(a, s, ms[..|ms| - 1]).value, s, ms[|ms| - 1]);
    }
  }

  lemma MatchSound(a: Scanner, s: string, m: Match)
    requires m.start < m.end <= |s| && Pattern(m.kind, s, m.start, m.end)
    requires Sound(a) && OnMatch(a, s, m).Ok?
    ensures Sound(OnMatch(a, s, m).value)
  {
    if m.kind == Name {
      var g := Group(s, m);
      assert forall i | 0 <= i < |g| :: g[i] == s[m.start + 1 + i];
    }
  }

  lemma CellSound(a: Scanner, cell: string)
    requires Sound(a) && OnCell(a, cell).Ok?
    ensures Sound(OnCell(a, cell).value)
  {
    var s := Clean(cell);
    FindIterValid(s);
    if a.name.Some? && a.name.value != [] {
      NormalizeNameText(a.name.value);
    }
    MatchesSound(CellStart(a), s, FindIter(s));
  }

  lemma {:induction false} CellsSound(a: Scanner, cells: seq<string>)
    requires Sound(a) && OnCells(a, cells).Ok?
    ensures Sound(OnCells(a, cells).value)
    decreases |cells|
  {
    if cells != [] {
      CellsSound(a, cells[..|cells| - 1]);
      CellSound(OnCells(a, cells[..|cells| - 1]).value, cells[|cells| - 1]);
    }
  }

  lemma {:induction false} RowsSound(a: Scanner, rows: seq<seq<string>>)
    requires Sound(a) && OnRows(a, rows).Ok?
    ensures Sound(OnRows(a, rows).value)
    decreases |rows|
  {
    if rows != [] {
      RowsSound(a, rows[..|rows| - 1]);
      CellsSound(OnRows(a, rows[..|rows| - 1]).value, rows[|rows| - 1]);
    }
  }

  /** Every key `process_stat_lines` yields is a normalised label: lower-case
      letters and underscores, never empty. */
  lemma KeysAreLabels(rows: seq<seq<string>>)
    requires StatLines(rows).Ok?
    ensures forall i | 0 <= i < |StatLines(rows).value| :: IsKey(StatLines(rows).value[i].0)
  {
    RowsSound(Init, Body(rows));
  }

  /** The first three rows never contribute: a table of at most three rows
      yields nothing, and the result depends on the later rows only. */
  lemma HeaderRowsIgnored(rows: seq<seq<string>>, other: seq<seq<string>>)
    requires |rows| >= 3 && |other| >= 3 && rows[3..] == other[3..]
    ensures StatLines(rows) == StatLines(other)
    ensures |rows| == 3 ==> StatLines(rows) == Ok([])
  {
  }

  /** A value met before any label is an error, not a pair: from the
      scanner's first state, a cell whose first match is a value fails. */
  lemma ValueBeforeLabel(a: Scanner, cell: string)
    requires a.name.None? && a.oldname.None?
    requires var ms := FindIter(Clean(cell)); |ms| > 0 && ms[0].kind != Name
    ensures OnCell(a, cell).Err?
  {
    var s := Clean(cell);
    var ms := FindIter(s);
    FindIterValid(s);
    assert ms[..1][..0] == [];
    MatchesSticky(CellStart(a), s, ms, 1);
  }

  // ---------------------------------------------------------------------
  // Scenarios
  // ---------------------------------------------------------------------

  /** A cell that is a dash and a label sets `name` to the label. */
  lemma NameCell(a: Scanner, t: string)
    requires |t| > 0 && (forall i | 0 <= i < |t| :: IsNameChar(t[i]) && t[i] != 'c') && t[|t| - 1] != ' '
    ensures OnCell(a, "-" + t) == Ok(CellStart(a).(name := Some(t)))
  {
    var s := "-" + t;
    assert forall i | 1 <= i < |s| :: s[i] == t[i - 1];
    CleanKeeps(s);
    WholeName(s);
    FindIterValid(s);
    var ms := FindIter(s);
    var m := Match(Name, 0, |s|);
    assert ms == [m] && ms[..0] == [];
    assert OnMatches(CellStart(a), s, ms) == OnMatch(CellStart(a), s, m);
    assert Group(s, m) == s[1..] == t;
  }

  /** A cell whose whole text is one value match yields that value under
      the refreshed label. */
  lemma ValueCell(a: Scanner, s: string, m: Match, v: Value)
    requires (forall i | 0 <= i < |s| :: s[i] != 'c' && s[i] != '\n' && s[i] != '\t')
    requires s == [] || (s[0] != ' ' && s[|s| - 1] != ' ')
    requires FindIter(s) == [m] && m.kind != Name
    requires m.start < m.end <= |s| && Pattern(m.kind, s, m.start, m.end)
    requires m.kind == Integer ==> v.IntValue? && IntegerPayload(s[m.start..m.end]) == Some(v.n)
    requires m.kind != Integer ==> Payload(s, m) == Some(v)
    requires CellStart(a).oldname.Some?
    ensures OnCell(a, s) == Ok(CellStart(a).(name := None, pairs := a.pairs + [(CellStart(a).oldname.value, v)]))
  {
    CleanKeeps(s);
    FindIterValid(s);
    assert [m][..0] == [];
    assert OnMatches(CellStart(a), s, [m]) == OnMatch(CellStart(a), s, m);
  }

  /** A cell of digits yields their value under the refreshed label. */
  lemma DigitsCell(a: Scanner, d: string)
    requires |d| > 0 && (forall i | 0 <= i < |d| :: IsDigit(d[i]))
    requires CellStart(a).oldname.Some?
    ensures OnCell(a, d) ==
      Ok(CellStart(a).(name := None, pairs := a.pairs + [(CellStart(a).oldname.value, IntValue(DigitsValue(d)))]))
  {
    WholeInteger(d);
    DigitsPayload(d, 0, |d|);
    assert d[0..|d|] == d;
    ValueCell(a, d, Match(Integer, 0, |d|), IntValue(DigitsValue(d)));
  }

  /** An INTEGER lexeme of plain digits is worth their value. */
  lemma DigitsPayload(s: string, p: nat, e: nat)
    requires p < e <= |s| && forall i | p <= i < e :: IsDigit(s[i])
    ensures forall i | 0 <= i < |s[p..e]| :: IsDigit(s[p..e][i])
    ensures IntegerPayload(s[p..e]) == Some(DigitsValue(s[p..e]))
  {
    var d := s[p..e];
    assert forall i | 0 <= i < |d| :: d[i] == s[p + i];
    ReplaceDeletes(d, ',');
    WithoutAbsent(d, ',');
  }

  /** A value sharing a cell with a new NAME still gets the previous label:
      with the label x in one cell, a next cell "-y d" (a NAME, then
      digits) yields (x normalised, d), and leaves `name` unset. */
  lemma LabelRefreshedOnlyAtCellStart(header: seq<seq<string>>, x: string, y: string, d: string)
    requires |header| == 3
    requires |x| > 0 && (forall i | 0 <= i < |x| :: IsNameChar(x[i]) && x[i] != 'c') && x[|x| - 1] != ' '
    requires |y| > 0 && (forall i | 0 <= i < |y| :: IsNameChar(y[i]) && y[i] != 'c')
    requires |d| > 0 && (forall i | 0 <= i < |d| :: IsDigit(d[i]))
    ensures StatLines(header + [["-" + x, "-" + y + " " + d]])
      == Ok([(NormalizeLabel(x), IntValue(DigitsValue(d)))])
  {
    var c1, c2 := "-" + x, "-" + y + " " + d;
    StatLinesOne(header, [c1, c2]);
    CellsTwo(Init, c1, c2);
    NameCell(Init, x);
    assert CellStart(Init) == Init;
    var a1 := Init.(name := Some(x));
    assert OnCell(Init, c1) == Ok(a1);
    var k := NormalizeLabel(x);
    assert CellStart(a1) == a1.(oldname := Some(k));
    NameThenDigitsCell(a1, y, d);
    var p: seq<Pair> := [(k, IntValue(DigitsValue(d)))];
    assert a1.pairs + p == p;
    assert OnCells(Init, [c1, c2]) == OnCell(a1, c2);
    assert OnCell(a1, c2) == Ok(a1.(oldname := Some(k), name := None, pairs := p));
  }

  /** A cell "-y d" yields `d` under the label refreshed at its start, so
      the NAME it holds labels nothing here. */
  lemma NameThenDigitsCell(a: Scanner, y: string, d: string)
    requires |y| > 0 && (forall i | 0 <= i < |y| :: IsNameChar(y[i]) && y[i] != 'c')
    requires |d| > 0 && (forall i | 0 <= i < |d| :: IsDigit(d[i]))
    requires CellStart(a).oldname.Some?
    ensures OnCell(a, "-" + y + " " + d) ==
      Ok(CellStart(a).(name := None, pairs := a.pairs + [(CellStart(a).oldname.value, IntValue(DigitsValue(d)))]))
  {
    var s := "-" + y + " " + d;
    var n := |y| + 2;
    var m1, m2 := Match(Name, 0, n), Match(Integer, n, |s|);
    NameThenDigits(y, d);
    FindIterValid(s);
    assert FindIter(s)[0] == m1 && FindIter(s)[1] == m2;
    var c := CellStart(a);
    var b := c.(name := Some(y + " "));
    CellOfTwo(a, s, m1, m2);
    assert OnMatch(c, s, m1) == Ok(b);
    DigitsMatch(b, s, n, d);
    assert b.pairs == a.pairs && b.oldname == c.oldname;
  }

  /** A cleaned cell with two matches runs them in turn from the refreshed
      scanner. */
  lemma CellOfTwo(a: Scanner, s: string, m1: Match, m2: Match)
    requires Clean(s) == s && FindIter(s) == [m1, m2]
    requires m1.start < m1.end <= |s| && Pattern(m1.kind, s, m1.start, m1.end)
    requires m2.start < m2.end <= |s| && Pattern(m2.kind, s, m2.start, m2.end)
    ensures OnCell(a, s) ==
      if OnMatch(CellStart(a), s, m1).Err? then OnMatch(CellStart(a), s, m1)
      else OnMatch(OnMatch(CellStart(a), s, m1).value, s, m2)
  {
    TwoMatches(CellStart(a), s, m1, m2);
    assert OnCell(a, s) == OnMatches(CellStart(a), s, [m1, m2]);
  }

  /** An INTEGER match of plain digits at the end of the text yields their
      value under the refreshed label and unsets `name`. */
  lemma DigitsMatch(b: Scanner, s: string, n: nat, d: string)
    requires n < |s| && s[n..] == d && Pattern(Integer, s, n, |s|)
    requires forall i | 0 <= i < |d| :: IsDigit(d[i])
    requires b.oldname.Some?
    ensures OnMatch(b, s, Match(Integer, n, |s|)) ==
      Ok(b.(name := None, pairs := b.pairs + [(b.oldname.value, IntValue(DigitsValue(d)))]))
  {
    assert s[n..|s|] == d;
    DigitsPayload(s, n, |s|);
  }

  lemma TwoMatches(a: Scanner, s: string, m1: Match, m2: Match)
    requires m1.start < m1.end <= |s| && Pattern(m1.kind, s, m1.start, m1.end)
    requires m2.start < m2.end <= |s| && Pattern(m2.kind, s, m2.start, m2.end)
    ensures ValidMatches(s, [m1, m2])
    ensures OnMatches(a, s, [m1, m2]) ==
      if OnMatch(a, s, m1).Err? then OnMatch(a, s, m1) else OnMatch(OnMatch(a, s, m1).value, s, m2)
  {
    assert [m1, m2][..1] == [m1] && [m1][..0] == [];
    assert OnMatches(a, s, [m1]) == OnMatch(a, s, m1);
  }

  lemma CellsTwo(a: Scanner, c1: string, c2: string)
    ensures OnCells(a, [c1, c2]) ==
      if OnCell(a, c1).Err? then OnCell(a, c1) else OnCell(OnCell(a, c1).value, c2)
  {
    assert [c1, c2][..1] == [c1] && [c1][..0] == [];
    assert OnCells(a, [c1]) == OnCell(a, c1);
  }

  lemma RowsOne(a: Scanner, row: seq<string>)
    ensures OnRows(a, [row]) == OnCells(a, row)
  {
    assert [row][..0] == [];
  }

  lemma RowsTwo(a: Scanner, r1: seq<string>, r2: seq<string>)
    ensures OnRows(a, [r1, r2]) ==
      if OnCells(a, r1).Err? then OnCells(a, r1) else OnCells(OnCells(a, r1).value, r2)
  {
    assert [r1, r2][..1] == [r1];
    RowsOne(a, r1);
  }

  /** The label is not reset between rows: a later row's bare value keeps
      the label x. */
  lemma LabelCarriedAcrossRows(header: seq<seq<string>>, x: string, d1: string, d2: string)
    requires |header| == 3
    requires |x| > 0 && (forall i | 0 <= i < |x| :: IsNameChar(x[i]) && x[i] != 'c') && x[|x| - 1] != ' '
    requires |d1| > 0 && (forall i | 0 <= i < |d1| :: IsDigit(d1[i]))
    requires |d2| > 0 && (forall i | 0 <= i < |d2| :: IsDigit(d2[i]))
    ensures StatLines(header + [["-" + x, d1], [d2]])
      == Ok([(NormalizeLabel(x), IntValue(DigitsValue(d1))), (NormalizeLabel(x), IntValue(DigitsValue(d2)))])
  {
    var c1 := "-" + x;
    var r1, r2 := [c1, d1], [d2];
    StatLinesTwo(header, r1, r2);
    CellsTwo(Init, c1, d1);
    NameCell(Init, x);
    assert CellStart(Init) == Init;
    var a1 := Init.(name := Some(x));
    assert OnCell(Init, c1) == Ok(a1);
    var k := NormalizeLabel(x);
    assert CellStart(a1) == a1.(oldname := Some(k));
    DigitsCell(a1, d1);
    var p1: seq<Pair> := [(k, IntValue(DigitsValue(d1)))];
    assert a1.pairs + p1 == p1;
    var a2 := a1.(oldname := Some(k), name := None, pairs := p1);
    assert OnCells(Init, r1) == OnCell(a1, d1);
    assert OnCell(a1, d1) == Ok(a2);
    CellsOne(a2, d2);
    assert CellStart(a2) == a2;
    DigitsCell(a2, d2);
    var p2: seq<Pair> := p1 + [(k, IntValue(DigitsValue(d2)))];
    assert OnCell(a2, d2) == Ok(a2.(pairs := p2));
    assert OnCells(Init, r1) == Ok(a2) && OnCells(a2, r2) == Ok(a2.(pairs := p2));
    assert p2 == [(k, IntValue(DigitsValue(d1))), (k, IntValue(DigitsValue(d2)))];
  }

  /** A FLOAT cell after a label cell yields the float's text under the
      label when `float()` reads it, and otherwise ends the run with its
      ValueError: "-Blunt Damage" then "12.5" gives ("blunt_damage", 12.5). */
  lemma FloatStat(header: seq<seq<string>>, x: string, f: string)
    requires |header| == 3
    requires |x| > 0 && (forall i | 0 <= i < |x| :: IsNameChar(x[i]) && x[i] != 'c') && x[|x| - 1] != ' '
    requires Pattern(Float, f, 0, |f|) && !All(f, 0, |f|, IsIntChar)
    requires forall i | 0 <= i < |f| :: f[i] != 'c' && f[i] != '\t'
    ensures StatLines(header + [["-" + x, f]]) ==
      if FloatAccepts(f) then Ok([(NormalizeLabel(x), DecimalValue(f))]) else Err(BadFloat(f))
  {
    var c1 := "-" + x;
    StatLinesOne(header, [c1, f]);
    CellsTwo(Init, c1, f);
    NameCell(Init, x);
    assert CellStart(Init) == Init;
    var a1 := Init.(name := Some(x));
    assert OnCell(Init, c1) == Ok(a1);
    var a2 := a1.(oldname := Some(NormalizeLabel(x)));
    assert CellStart(a1) == a2;
    FloatCell(a1, f);
    assert OnCells(Init, [c1, f]) == OnCell(a1, f);
    var k := NormalizeLabel(x);
    var p: seq<Pair> := [(k, DecimalValue(f))];
    assert a1.pairs + p == p;
    if FloatAccepts(f) {
      assert OnCell(a1, f) == Ok(a2.(name := None, pairs := p));
    }
  }

  /** A cell that is one FLOAT yields its text under the refreshed label,
      or fails with `float()`'s ValueError. */
  lemma FloatCell(a: Scanner, f: string)
    requires Pattern(Float, f, 0, |f|) && !All(f, 0, |f|, IsIntChar)
    requires forall i | 0 <= i < |f| :: f[i] != 'c' && f[i] != '\t'
    requires CellStart(a).oldname.Some?
    ensures OnCell(a, f) ==
      if FloatAccepts(f) then Ok(CellStart(a).(name := None, pairs := a.pairs + [(CellStart(a).oldname.value, DecimalValue(f))]))
      else Err(BadFloat(f))
  {
    WholeFloat(f);
    assert IsDigit(f[0]) && IsDigit(f[|f| - 1]);
    assert f[0..|f|] == f;
    var m := Match(Float, 0, |f|);
    if FloatAccepts(f) {
      ValueCell(a, f, m, DecimalValue(f));
    } else {
      CleanKeeps(f);
      FindIterValid(f);
      assert [m][..0] == [];
      assert OnMatches(CellStart(a), f, [m]) == OnMatch(CellStart(a), f, m);
    }
  }

  /** A damage range such as "10-15" is a FLOAT match, the dash standing
      for the dot, and `float()` raises on it. */
  lemma FloatRangeFails()
    ensures StatLines([[], [], [], ["-Damage", "10-15"]]) == Err(BadFloat("10-15"))
  {
    var f := "10-15";
    assert All(f, 0, 2, IsDigit) && f[2] != '\n' && All(f, 3, 5, IsDigit);
    assert Pattern(Float, f, 0, |f|);
    assert !IsIntChar(f[2]);
    FloatLexemeAccepts(f, 2);
    var x := "Damage";
    FloatStat([[], [], []], x, f);
    assert "-" + x == "-Damage";
    assert [[], [], []] + [["-" + x, f]] == [[], [], [], ["-Damage", "10-15"]];
  }

  lemma CellsOne(a: Scanner, c: string)
    ensures OnCells(a, [c]) == OnCell(a, c)
  {
    assert [c][..0] == [];
  }

  /** The pairs of a variant whose body is one row. */
  lemma StatLinesOne(header: seq<seq<string>>, row: seq<string>)
    requires |header| == 3
    ensures StatLines(header + [row]) ==
      if OnCells(Init, row).Ok? then Ok(OnCells(Init, row).value.pairs) else Err(OnCells(Init, row).error)
  {
    assert Body(header + [row]) == [row];
    RowsOne(Init, row);
  }

  /** The pairs of a variant whose body is two rows. */
  lemma StatLinesTwo(header: seq<seq<string>>, r1: seq<string>, r2: seq<string>)
    requires |header| == 3
    ensures var b := OnCells(Init, r1);
      StatLines(header + [r1, r2]) ==
        if b.Err? then Err(b.error)
        else if OnCells(b.value, r2).Ok? then Ok(OnCells(b.value, r2).value.pairs)
        else Err(OnCells(b.value, r2).error)
  {
    assert Body(header + [r1, r2]) == [r1, r2];
    RowsTwo(Init, r1, r2);
  }

  /** A value before any label ends the scan: a first body row whose first
      cell is digits fails with the unbound-label error. */
  lemma ValueFirstFails(header: seq<seq<string>>, d: string, rest: seq<string>, later: seq<seq<string>>)
    requires |header| == 3
    requires |d| > 0 && (forall i | 0 <= i < |d| :: IsDigit(d[i]))
    ensures StatLines(header + [[d] + rest] + later) == Err(UnboundLabel)
  {
    var row := [d] + rest;
    var rows := header + [row] + later;
    var body := Body(rows);
    assert body[..1] == [row];
    WholeInteger(d);
    CleanKeeps(d);
    FindIterValid(d);
    DigitsPayload(d, 0, |d|);
    assert d[0..|d|] == d;
    var m := Match(Integer, 0, |d|);
    assert [m][..0] == [];
    assert OnMatches(Init, d, [m]) == OnMatch(Init, d, m) == Err(UnboundLabel);
    assert OnCell(Init, d) == Err(UnboundLabel);
    assert row[..1] == [d] && [d][..0] == [];
    CellsSticky(Init, row, 1);
    RowsOne(Init, row);
    RowsSticky(Init, body, 1);
  }
}
