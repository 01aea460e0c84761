/** The cell tokenizer of main.py: the cleaner `to_strip`, applied with
    `re.sub`, and the six-way alternation `data_parser`, applied with
    `re.finditer`. Each alternative is a hand-written matcher proved against a
    declarative description of the language its regular expression denotes;
    the alternation is proved to pick the first alternative, in source order,
    that matches at the leftmost position, and the scan to be leftmost and
    non-overlapping. */
module Tokenizer {
  import opened Wrappers
  import opened Strings

  /** Where `$` matches without MULTILINE: at the end of the text, or just
      before a newline that ends it. */
  predicate AtEnd(s: string, e: int)
  {
    e == |s| || (0 <= e == |s| - 1 && s[e] == '\n')
  }

  predicate IsSpace(c: char) { c == ' ' }
  predicate IsNameChar(c: char) { IsAsciiLetter(c) || c == ' ' }
  predicate IsSign(c: char) { c == '+' || c == '-' }
  predicate IsIntChar(c: char) { IsDigit(c) || c == ',' }
  predicate IsDecChar(c: char) { IsDigit(c) || c == '.' }

  /** Every character of `s[lo..hi]` is in the class. */
  predicate All(s: string, lo: int, hi: int, cls: char -> bool)
  {
    0 <= lo <= hi <= |s| && forall i | lo <= i < hi :: cls(s[i])
  }

  /** The end of the longest run of class characters that starts at `p`. */
  function RunEnd(s: string, p: nat, cls: char -> bool): (e: nat)
    requires p <= |s|
    ensures p <= e <= |s|
    ensures All(s, p, e, cls)
    ensures e == |s| || !cls(s[e])
    decreases |s| - p
  {
    if p < |s| && cls(s[p]) then RunEnd(s, p + 1, cls) else p
  }

  // ---------------------------------------------------------------------
  // The cleaner: re.sub(r'c\.|[\n\t]|^ +| +$', "", text)
  // ---------------------------------------------------------------------

  /** `re.sub` of the cleaning pattern, from position `p` on. At each position
      the four alternatives are tried in order; `^` holds only at position 0,
      and ` +$` only for a run of spaces that reaches the end (or a final
      newline). */
  function CleanFrom(s: string, p: nat): string
    requires p <= |s|
    decreases |s| - p
  {
    if p == |s| then []
    else if s[p] == 'c' && p + 1 < |s| && s[p + 1] == '.' then CleanFrom(s, p + 2)
    else if s[p] == '\n' || s[p] == '\t' then CleanFrom(s, p + 1)
    else if s[p] == ' ' && (p == 0 || AtEnd(s, RunEnd(s, p, IsSpace))) then
      CleanFrom(s, RunEnd(s, p, IsSpace))
    else [s[p]] + CleanFrom(s, p + 1)
  }

  function Clean(s: string): string
  {
    CleanFrom(s, 0)
  }

  lemma {:induction false} CleanFromNoControl(s: string, p: nat)
    requires p <= |s|
    ensures '\n' !in CleanFrom(s, p) && '\t' !in CleanFrom(s, p)
    ensures |CleanFrom(s, p)| <= |s| - p
    decreases |s| - p
  {
    if p < |s| {
      if s[p] == 'c' && p + 1 < |s| && s[p + 1] == '.' {
        CleanFromNoControl(s, p + 2);
      } else if s[p] == '\n' || s[p] == '\t' {
        CleanFromNoControl(s, p + 1);
      } else if s[p] == ' ' && (p == 0 || AtEnd(s, RunEnd(s, p, IsSpace))) {
        CleanFromNoControl(s, RunEnd(s, p, IsSpace));
      } else {
        CleanFromNoControl(s, p + 1);
      }
    }
  }

  /** Cleaned text holds no newline and no tab, and is never longer. */
  lemma CleanNoControl(s: string)
    ensures '\n' !in Clean(s) && '\t' !in Clean(s)
    ensures |Clean(s)| <= |s|
  {
    CleanFromNoControl(s, 0);
  }

  lemma {:induction false} CleanFromKeeps(s: string, p: nat)
    requires p <= |s|
    requires forall i | 0 <= i < |s| :: s[i] != 'c' && s[i] != '\n' && s[i] != '\t'
    requires s == [] || (s[0] != ' ' && s[|s| - 1] != ' ')
    ensures CleanFrom(s, p) == s[p..]
    decreases |s| - p
  {
    if p < |s| {
      if s[p] == ' ' {
        var e := RunEnd(s, p, IsSpace);
        assert p != 0;
        assert !IsSpace(s[|s| - 1]);
        assert e < |s|;
      }
      CleanFromKeeps(s, p + 1);
      assert s[p..] == [s[p]] + s[p + 1..];
    }
  }

  /** Text with no `c`, newline or tab, and no space at either end, is left
      as it is. */
  lemma CleanKeeps(s: string)
    requires forall i | 0 <= i < |s| :: s[i] != 'c' && s[i] != '\n' && s[i] != '\t'
    requires s == [] || (s[0] != ' ' && s[|s| - 1] != ' ')
    ensures Clean(s) == s
  {
    CleanFromKeeps(s, 0);
  }

  // ---------------------------------------------------------------------
  // The six alternatives of data_parser
  // ---------------------------------------------------------------------

  datatype Kind = Name | Integer | Float | Multiplier | Percentage | Weight

  /** The position of an alternative in the source's alternation. */
  function Rank(k: Kind): nat
  {
    match k
    case Name => 0
    case Integer => 1
    case Float => 2
    case Multiplier => 3
    case Percentage => 4
    case Weight => 5
  }

  /** `[+-]?X+` matches exactly `s[p..e]`, for the class X. */
  predicate SignedRun(s: string, p: int, e: int, cls: char -> bool)
  {
    (p < e && All(s, p, e, cls))
    || (0 <= p < |s| && IsSign(s[p]) && p + 1 < e && All(s, p + 1, e, cls))
  }

  /** The regular language of each alternative: `Pattern(k, s, p, e)` holds
      when the alternative `k` matches `s[p..e]` at position `p` (the
      lookahead of WEIGHT looks past `e`).
        NAME        -(?P<NAME>[A-Za-z ]+)
        INTEGER     (?P<INTEGER>[+-]?[\d,]+)$
        FLOAT       (?P<FLOAT>\d+.\d+)$        (the dot is any character)
        MULTIPLIER  (?P<MULTIPLIER>[+-]?[\d.]+x)
        PERCENTAGE  (?P<PERCENTAGE>[+-]?[\d.]+%)
        WEIGHT      (?P<WEIGHT>\d+)(?= kg) */
  predicate Pattern(k: Kind, s: string, p: int, e: int)
  {
    0 <= p <= e <= |s| &&
    match k
    case Name => p < |s| && s[p] == '-' && p + 1 < e && All(s, p + 1, e, IsNameChar)
    case Integer => SignedRun(s, p, e, IsIntChar) && AtEnd(s, e)
    case Float =>
      AtEnd(s, e) &&
      exists j | p < j < e - 1 :: All(s, p, j, IsDigit) && s[j] != '\n' && All(s, j + 1, e, IsDigit)
    case Multiplier => p < e && s[e - 1] == 'x' && SignedRun(s, p, e - 1, IsDecChar)
    case Percentage => p < e && s[e - 1] == '%' && SignedRun(s, p, e - 1, IsDecChar)
    case Weight => p < e && All(s, p, e, IsDigit) && e + 3 <= |s| && s[e..e + 3] == " kg"
  }

  /** NAME: a dash, then the greedy run of letters and spaces. The regex
      engine keeps the longest run. */
  function NameEnd(s: string, p: nat): (r: Option<nat>)
    requires p <= |s|
    ensures r.Some? ==> Pattern(Name, s, p, r.value)
    ensures forall e :: Pattern(Name, s, p, e) ==> r.Some? && e <= r.value
  {
    if p < |s| && s[p] == '-' then
      var e := RunEnd(s, p + 1, IsNameChar);
      if p + 1 < e then Some(e) else None
    else None
  }

  /** The optional sign of `[+-]?X+`: greedy, so taken when present; when it
      is taken and the rest fails, the engine's retry without it cannot
      succeed, because a sign is in none of the classes X. */
  function SignedStart(s: string, p: nat): (b: nat)
    requires p <= |s|
    ensures b == if p < |s| && IsSign(s[p]) then p + 1 else p
  {
    if p < |s| && IsSign(s[p]) then p + 1 else p
  }

  /** INTEGER: the signed run of digits and commas must reach `$`, so it has
      at most one end. */
  function IntegerEnd(s: string, p: nat): (r: Option<nat>)
    requires p <= |s|
    ensures r.Some? ==> Pattern(Integer, s, p, r.value)
    ensures forall e :: Pattern(Integer, s, p, e) ==> r == Some(e)
  {
    var b := SignedStart(s, p);
    var e := RunEnd(s, b, IsIntChar);
    if b < e && AtEnd(s, e) then Some(e) else None
  }

  /** FLOAT: digits, one character other than a newline, digits, `$`. The
      engine first tries the longest leading digit run with the character
      after it as the dot; backtracking then lets the dot be a digit of that
      run. */
  function FloatEnd(s: string, p: nat): (r: Option<nat>)
    requires p <= |s|
    ensures r.Some? ==> Pattern(Float, s, p, r.value)
    ensures forall e :: Pattern(Float, s, p, e) ==> r == Some(e)
  {
    var q := RunEnd(s, p, IsDigit);
    var r :=
      if q == p then None
      else if q + 1 < |s| && s[q] != '\n' && q + 1 < RunEnd(s, q + 1, IsDigit)
              && AtEnd(s, RunEnd(s, q + 1, IsDigit)) then Some(RunEnd(s, q + 1, IsDigit))
      else if p + 3 <= q && AtEnd(s, q) then Some(q)
      else None;
    assert r.Some? ==> Pattern(Float, s, p, r.value) by {
      if r.Some? && r.value != q {
        assert All(s, p, q, IsDigit) && s[q] != '\n' && All(s, q + 1, r.value, IsDigit);
      } else if r.Some? {
        assert All(s, p, q - 2, IsDigit) && s[q - 2] != '\n' && All(s, q - 1, q, IsDigit);
      }
    }
    assert forall e | Pattern(Float, s, p, e) :: r == Some(e) by {
      forall e | Pattern(Float, s, p, e)
        ensures r == Some(e)
      {
        FloatCases(s, p, e);
      }
    }
    r
  }

  /** The two shapes of a FLOAT match, seen from the leading digit run `q`:
      the dot is the character right after the run, or a digit inside it. */
  lemma FloatCases(s: string, p: nat, e: int)
    requires p <= |s| && Pattern(Float, s, p, e)
    ensures var q := RunEnd(s, p, IsDigit);
      p < q &&
      ((q + 1 < e && s[q] != '\n' && e == RunEnd(s, q + 1, IsDigit))
       || (e == q && p + 3 <= q))
  {
    var q := RunEnd(s, p, IsDigit);
    var j :| p < j < e - 1 && All(s, p, j, IsDigit) && s[j] != '\n' && All(s, j + 1, e, IsDigit);
    assert q == |s| || !IsDigit(s[q]);
    assert e < |s| ==> !IsDigit(s[e]);
    assert j <= q;
    if j < q {
      assert IsDigit(s[j]);
      assert All(s, p, e, IsDigit);
      assert e == q;
    } else {
      var f := RunEnd(s, q + 1, IsDigit);
      assert f == |s| || !IsDigit(s[f]);
      assert e == f;
    }
  }

  /** The shared tail of MULTIPLIER and PERCENTAGE: a signed run of digits and
      dots, then the suffix character. */
  function SuffixedEnd(s: string, p: nat, suffix: char): (r: Option<nat>)
    requires p <= |s|
    requires !IsDecChar(suffix) && !IsSign(suffix)
    ensures r.Some? ==> p < r.value <= |s| && s[r.value - 1] == suffix && SignedRun(s, p, r.value - 1, IsDecChar)
    ensures forall e :: p <= e <= |s| && p < e && s[e - 1] == suffix && SignedRun(s, p, e - 1, IsDecChar)
              ==> r == Some(e)
  {
    var b := SignedStart(s, p);
    var e := RunEnd(s, b, IsDecChar);
    if b < e && e < |s| && s[e] == suffix then Some(e + 1) else None
  }

  /** MULTIPLIER: a signed run of digits and dots followed by `x`. */
  function MultiplierEnd(s: string, p: nat): (r: Option<nat>)
    requires p <= |s|
    ensures r.Some? ==> Pattern(Multiplier, s, p, r.value)
    ensures forall e :: Pattern(Multiplier, s, p, e) ==> r == Some(e)
  {
    SuffixedEnd(s, p, 'x')
  }

  /** PERCENTAGE: a signed run of digits and dots followed by `%`. */
  function PercentageEnd(s: string, p: nat): (r: Option<nat>)
    requires p <= |s|
    ensures r.Some? ==> Pattern(Percentage, s, p, r.value)
    ensures forall e :: Pattern(Percentage, s, p, e) ==> r == Some(e)
  {
    SuffixedEnd(s, p, '%')
  }

  /** WEIGHT: a digit run directly followed by ` kg`, which is looked at but
      not consumed. */
  function WeightEnd(s: string, p: nat): (r: Option<nat>)
    requires p <= |s|
    ensures r.Some? ==> Pattern(Weight, s, p, r.value)
    ensures forall e :: Pattern(Weight, s, p, e) ==> r == Some(e)
  {
    var e := RunEnd(s, p, IsDigit);
    assert forall e' | Pattern(Weight, s, p, e') :: e' == e by {
      forall e' | Pattern(Weight, s, p, e')
        ensures e' == e
      {
        assert s[e'] == s[e'..e' + 3][0] == ' ';
        assert e == |s| || !IsDigit(s[e]);
        assert !IsDigit(s[e']);
      }
    }
    if p < e && e + 3 <= |s| && s[e..e + 3] == " kg" then Some(e) else None
  }

  /** One match of the alternation: which named group is set, and the span
      the whole match covers. */
  datatype Match = Match(kind: Kind, start: nat, end: nat)

  /** The text of the named group of a match; NAME's group leaves out the
      dash. */
  function Group(s: string, m: Match): string
    requires m.start <= m.end <= |s|
    requires m.kind == Name ==> m.start < m.end
  {
    if m.kind == Name then s[m.start + 1..m.end] else s[m.start..m.end]
  }

  /** The matcher of one alternative: the end of its match at `p`, which is
      the longest when the language allows several. */
  function MatchEnd(k: Kind, s: string, p: nat): (r: Option<nat>)
    requires p <= |s|
    ensures r.Some? ==> p < r.value && Pattern(k, s, p, r.value)
    ensures forall e :: Pattern(k, s, p, e) ==> r.Some? && e <= r.value
  {
    match k
    case Name => NameEnd(s, p)
    case Integer => IntegerEnd(s, p)
    case Float => FloatEnd(s, p)
    case Multiplier => MultiplierEnd(s, p)
    case Percentage => PercentageEnd(s, p)
    case Weight => WeightEnd(s, p)
  }

  /** The alternatives of `data_parser`, in source order. */
  const Alternatives: seq<Kind> := [Name, Integer, Float, Multiplier, Percentage, Weight]

  lemma RankIsPosition()
    ensures forall i | 0 <= i < |Alternatives| :: Rank(Alternatives[i]) == i
    ensures forall k :: Alternatives[Rank(k)] == k
  {
  }

  /** Trying the alternatives from the `i`-th on, in order. */
  function FirstFrom(s: string, p: nat, i: nat): (r: Option<Match>)
    requires p <= |s| && i <= |Alternatives|
    ensures r.Some? ==> r.value.start == p && p < r.value.end <= |s|
    decreases |Alternatives| - i
  {
    if i == |Alternatives| then None
    else
      match MatchEnd(Alternatives[i], s, p)
      case Some(e) => Some(Match(Alternatives[i], p, e))
      case None => FirstFrom(s, p, i + 1)
  }

  /** The alternation at one position: the alternatives are tried in source
      order and the first that matches wins. */
  function FirstMatchAt(s: string, p: nat): (r: Option<Match>)
    requires p <= |s|
    ensures r.Some? ==> r.value.start == p && p < r.value.end <= |s|
  {
    FirstFrom(s, p, 0)
  }

  lemma {:induction false} FirstFromOrder(s: string, p: nat, i: nat)
    requires p <= |s| && i <= |Alternatives|
    ensures var r := FirstFrom(s, p, i);
      && (r.Some? ==> i <= Rank(r.value.kind) && MatchEnd(r.value.kind, s, p) == Some(r.value.end))
      && (r.Some? ==> forall k | i <= Rank(k) < Rank(r.value.kind) :: MatchEnd(k, s, p).None?)
      && (r.None? ==> forall k | i <= Rank(k) :: MatchEnd(k, s, p).None?)
    decreases |Alternatives| - i
  {
    RankIsPosition();
    if i < |Alternatives| {
      FirstFromOrder(s, p, i + 1);
      if MatchEnd(Alternatives[i], s, p).None? {
        forall k | Rank(k) == i ensures MatchEnd(k, s, p).None? {
          assert k == Alternatives[i];
        }
      }
    }
  }

  /** The alternation's choice, stated on the regular languages: when it
      yields a match, that alternative matches with its longest span and no
      earlier alternative matches at all; when it yields none, no
      alternative matches at `p`. */
  lemma AlternationOrder(s: string, p: nat)
    requires p <= |s|
    ensures var r := FirstMatchAt(s, p);
      && (r.Some? ==> Pattern(r.value.kind, s, p, r.value.end))
      && (r.Some? ==> forall e :: Pattern(r.value.kind, s, p, e) ==> e <= r.value.end)
      && (r.Some? ==> forall k, e :: Rank(k) < Rank(r.value.kind) ==> !Pattern(k, s, p, e))
      && (r.None? ==> forall k, e :: !Pattern(k, s, p, e))
  {
    FirstFromOrder(s, p, 0);
    var r := FirstFrom(s, p, 0);
    if r.Some? {
      var k0 := r.value.kind;
      assert MatchEnd(k0, s, p) == Some(r.value.end);
      forall k, e | Rank(k) < Rank(k0) ensures !Pattern(k, s, p, e) {
        assert MatchEnd(k, s, p).None?;
      }
    } else {
      forall k, e ensures !Pattern(k, s, p, e) {
        assert MatchEnd(k, s, p).None?;
      }
    }
  }

  /** No match of position `q` lies inside one of the spans. */
  predicate Uncovered(ms: seq<Match>, q: int)
  {
    forall i | 0 <= i < |ms| :: !(ms[i].start <= q < ms[i].end)
  }

  /** `re.finditer` from position `p`: try the alternation at each position
      in turn, and resume after each match. */
  function Scan(s: string, p: nat): (ms: seq<Match>)
    requires p <= |s|
    decreases |s| - p
  {
    if p == |s| then []
    else
      match FirstMatchAt(s, p)
      case Some(m) => [m] + Scan(s, m.end)
      case None => Scan(s, p + 1)
  }

  // The scan's structural facts hold for any choice of match per position;
  // they are proved once on `ScanBy` and carried over to `Scan`.

  /** A choice of match per position: a chosen match starts there and ends
      later, inside a text of length `n`. */
  ghost predicate Chooses(n: nat, choose: nat -> Option<Match>)
  {
    forall q: nat :: choose(q).Some? ==> choose(q).value.start == q && q < choose(q).value.end <= n
  }

  /** The scan over a choice; a chosen match that ends outside `(p, n]`
      stops it, which never happens when `Chooses(n, choose)` holds. */
  function ScanBy(n: nat, choose: nat -> Option<Match>, p: nat): seq<Match>
    requires p <= n
    decreases n - p
  {
    if p == n then []
    else
      match choose(p)
      case Some(m) => if p < m.end <= n then [m] + ScanBy(n, choose, m.end) else []
      case None => ScanBy(n, choose, p + 1)
  }

  /** The alternation as a choice over every position of `s`. */
  function Chooser(s: string): nat -> Option<Match>
  {
    (q: nat) => if q <= |s| then FirstMatchAt(s, q) else None
  }

  lemma ChooserChooses(s: string)
    ensures Chooses(|s|, Chooser(s))
  {
    forall q: nat | Chooser(s)(q).Some?
      ensures Chooser(s)(q).value.start == q && q < Chooser(s)(q).value.end <= |s|
    {
      assert q <= |s| && Chooser(s)(q) == FirstMatchAt(s, q);
    }
  }

  lemma {:induction false} ScanIsScanBy(s: string, p: nat)
    requires p <= |s|
    ensures Scan(s, p) == ScanBy(|s|, Chooser(s), p)
    decreases |s| - p
  {
    if p < |s| {
      assert Chooser(s)(p) == FirstMatchAt(s, p);
      match FirstMatchAt(s, p)
      case Some(m) => ScanIsScanBy(s, m.end);
      case None => ScanIsScanBy(s, p + 1);
    }
  }

  lemma {:induction false} ScanByChoices(n: nat, choose: nat -> Option<Match>, p: nat)
    requires p <= n && Chooses(n, choose)
    ensures forall i | 0 <= i < |ScanBy(n, choose, p)| :: choose(ScanBy(n, choose, p)[i].start) == Some(ScanBy(n, choose, p)[i])
    decreases n - p
  {
    if p < n {
      match choose(p)
      case Some(m) =>
        ScanByChoices(n, choose, m.end);
        var rest := ScanBy(n, choose, m.end);
        assert forall i | 1 <= i < |rest| + 1 :: ([m] + rest)[i] == rest[i - 1];
      case None =>
        ScanByChoices(n, choose, p + 1);
    }
  }

  lemma {:induction false} ScanByOrdered(n: nat, choose: nat -> Option<Match>, p: nat)
    requires p <= n && Chooses(n, choose)
    ensures forall i | 0 <= i < |ScanBy(n, choose, p)| ::
      p <= ScanBy(n, choose, p)[i].start < ScanBy(n, choose, p)[i].end <= n
    ensures forall i | 0 <= i < |ScanBy(n, choose, p)| - 1 ::
      ScanBy(n, choose, p)[i].end <= ScanBy(n, choose, p)[i + 1].start
    decreases n - p
  {
    if p < n {
      match choose(p)
      case Some(m) =>
        ScanByOrdered(n, choose, m.end);
        var rest := ScanBy(n, choose, m.end);
        var ms := [m] + rest;
        assert ms == ScanBy(n, choose, p);
        assert ms[0] == m && m.start == p && p < m.end <= n;
        forall i | 0 <= i < |ms| ensures p <= ms[i].start < ms[i].end <= n {
          if i > 0 { assert ms[i] == rest[i - 1]; }
        }
        forall i | 0 <= i < |ms| - 1 ensures ms[i].end <= ms[i + 1].start {
          assert ms[i + 1] == rest[i];
          if i > 0 { assert ms[i] == rest[i - 1]; }
        }
      case None =>
        assert ScanBy(n, choose, p) == ScanBy(n, choose, p + 1);
        ScanByOrdered(n, choose, p + 1);
    }
  }

  lemma {:induction false} ScanByGaps(n: nat, choose: nat -> Option<Match>, p: nat)
    requires p <= n && Chooses(n, choose)
    ensures forall q | p <= q < n && Uncovered(ScanBy(n, choose, p), q) :: choose(q).None?
    decreases n - p
  {
    if p < n {
      match choose(p)
      case Some(m) =>
        ScanByGaps(n, choose, m.end);
        var rest := ScanBy(n, choose, m.end);
        var ms := [m] + rest;
        forall q | p <= q < n && Uncovered(ms, q) ensures choose(q).None? {
          assert ms[0] == m;
          forall i | 0 <= i < |rest| ensures !(rest[i].start <= q < rest[i].end) {
            assert ms[i + 1] == rest[i];
          }
        }
      case None =>
        ScanByGaps(n, choose, p + 1);
    }
  }

  lemma {:induction false} ScanBySuffix(n: nat, choose: nat -> Option<Match>, p: nat, i: nat)
    requires p <= n && Chooses(n, choose) && i < |ScanBy(n, choose, p)|
    ensures ScanBy(n, choose, p)[i].end <= n
    ensures ScanBy(n, choose, p)[i + 1..] == ScanBy(n, choose, ScanBy(n, choose, p)[i].end)
    decreases n - p
  {
    match choose(p)
    case Some(m) =>
      if i > 0 {
        ScanBySuffix(n, choose, m.end, i - 1);
        var rest := ScanBy(n, choose, m.end);
        assert ([m] + rest)[i] == rest[i - 1];
        assert ([m] + rest)[i + 1..] == rest[i..];
      }
    case None =>
      ScanBySuffix(n, choose, p + 1, i);
  }

  /** Every match of the scan is the alternation's choice at its start. */
  lemma ScanChoices(s: string, p: nat)
    requires p <= |s|
    ensures forall i | 0 <= i < |Scan(s, p)| ::
      Scan(s, p)[i].start <= |s| && FirstMatchAt(s, Scan(s, p)[i].start) == Some(Scan(s, p)[i])
  {
    ScanIsScanBy(s, p);
    ChooserChooses(s);
    ScanByChoices(|s|, Chooser(s), p);
    ScanByOrdered(|s|, Chooser(s), p);
    var ms := Scan(s, p);
    forall i | 0 <= i < |ms| ensures ms[i].start <= |s| && FirstMatchAt(s, ms[i].start) == Some(ms[i]) {
      assert Chooser(s)(ms[i].start) == Some(ms[i]);
    }
  }

  /** The matches of the scan are in order, do not overlap and stay inside
      the text. */
  lemma ScanOrdered(s: string, p: nat)
    requires p <= |s|
    ensures forall i | 0 <= i < |Scan(s, p)| :: p <= Scan(s, p)[i].start < Scan(s, p)[i].end <= |s|
    ensures forall i | 0 <= i < |Scan(s, p)| - 1 :: Scan(s, p)[i].end <= Scan(s, p)[i + 1].start
  {
    ScanIsScanBy(s, p);
    ChooserChooses(s);
    ScanByOrdered(|s|, Chooser(s), p);
  }

  /** No position that the scan's matches leave uncovered starts a match:
      the scan misses nothing. */
  lemma ScanGaps(s: string, p: nat)
    requires p <= |s|
    ensures forall q | p <= q < |s| && Uncovered(Scan(s, p), q) :: FirstMatchAt(s, q).None?
  {
    ScanIsScanBy(s, p);
    ChooserChooses(s);
    ScanByGaps(|s|, Chooser(s), p);
    forall q | p <= q < |s| && Uncovered(Scan(s, p), q) ensures FirstMatchAt(s, q).None? {
      assert Chooser(s)(q).None?;
    }
  }

  /** The matches `re.finditer(data_parser, s)` yields. */
  function FindIter(s: string): seq<Match>
  {
    Scan(s, 0)
  }

  /** Every match's named group is non-empty, so the walrus tests of
      `process_stat_lines` are true exactly for the group the match sets. */
  lemma GroupNonEmpty(s: string, m: Match)
    requires m.start < m.end <= |s| && Pattern(m.kind, s, m.start, m.end)
    ensures |Group(s, m)| > 0
  {
    if m.kind == Name {
      assert m.start + 1 < m.end;
    }
  }

  /** Any match starts with a dash, a sign, a digit, a comma or a dot. */
  lemma LeadChar(s: string, q: nat)
    requires q <= |s| && FirstMatchAt(s, q).Some?
    ensures q < |s| && (s[q] == '-' || IsSign(s[q]) || IsIntChar(s[q]) || IsDecChar(s[q]))
  {
    AlternationOrder(s, q);
    var m := FirstMatchAt(s, q).value;
    assert Pattern(m.kind, s, q, m.end);
    if m.kind == Float {
      var j :| q < j < m.end - 1 && All(s, q, j, IsDigit) && s[j] != '\n' && All(s, j + 1, m.end, IsDigit);
      assert IsDigit(s[q]);
    } else if m.kind == Weight {
      assert IsDigit(s[q]);
    }
  }

  // ---------------------------------------------------------------------
  // Payloads
  // ---------------------------------------------------------------------

  function DigitValue(c: char): nat
    requires IsDigit(c)
  {
    c as int - '0' as int
  }

  function DigitChar(n: nat): (c: char)
    requires n < 10
    ensures IsDigit(c) && DigitValue(c) == n
  {
    ('0' as int + n) as char
  }

  /** The number a non-empty run of decimal digits denotes. */
  function DigitsValue(d: string): nat
    requires forall i | 0 <= i < |d| :: IsDigit(d[i])
    decreases |d|
  {
    if d == [] then 0 else DigitsValue(d[..|d| - 1]) * 10 + DigitValue(d[|d| - 1])
  }

  /** The decimal digits of `n`, with no leading zero. */
  function ShowNat(n: nat): (d: string)
    ensures |d| > 0 && forall i | 0 <= i < |d| :: IsDigit(d[i])
    decreases n
  {
    if n < 10 then [DigitChar(n)] else ShowNat(n / 10) + [DigitChar(n % 10)]
  }

  lemma {:induction false} DigitsShowNat(n: nat)
    ensures DigitsValue(ShowNat(n)) == n
    decreases n
  {
    if n >= 10 {
      DigitsShowNat(n / 10);
      var d := ShowNat(n);
      assert d[..|d| - 1] == ShowNat(n / 10);
    }
  }

  /** Python's `int(t)` on text made of signs and digits: an optional sign,
      then at least one digit; anything else is the ValueError case. */
  function IntOf(t: string): (r: Option<int>)
    ensures r.Some? <==>
      (|t| > 0 && (forall i | 0 <= i < |t| :: IsDigit(t[i])))
      || (|t| > 1 && IsSign(t[0]) && forall i | 1 <= i < |t| :: IsDigit(t[i]))
  {
    if |t| > 1 && IsSign(t[0]) && forall i | 1 <= i < |t| :: IsDigit(t[i]) then
      var v: int := DigitsValue(t[1..]);
      Some(if t[0] == '-' then -v else v)
    else if |t| > 0 && forall i | 0 <= i < |t| :: IsDigit(t[i]) then
      Some(DigitsValue(t))
    else None
  }

  function ShowInt(n: int): string
  {
    if n < 0 then "-" + ShowNat(-n) else ShowNat(n)
  }

  /** `int()` reads back what decimal printing writes. */
  lemma IntOfShowInt(n: int)
    ensures IntOf(ShowInt(n)) == Some(n)
  {
    var t := ShowInt(n);
    if n < 0 {
      DigitsShowNat(-n);
      assert t[1..] == ShowNat(-n);
    } else {
      DigitsShowNat(n);
    }
  }

  /** After a digit, the end of the digits that follow, each of them
      optionally preceded by one underscore: the rest of a `digitpart` of
      Python's float grammar. */
  function DigitPartFrom(t: string, i: nat): (e: nat)
    requires i <= |t|
    ensures i <= e <= |t|
    decreases |t| - i
  {
    if i < |t| && IsDigit(t[i]) then DigitPartFrom(t, i + 1)
    else if i + 1 < |t| && t[i] == '_' && IsDigit(t[i + 1]) then DigitPartFrom(t, i + 2)
    else i
  }

  /** The end of the `digitpart` at `i`, or `i` when no digit starts there. */
  function DigitPart(t: string, i: nat): (e: nat)
    requires i <= |t|
    ensures i <= e <= |t|
    ensures e > i <==> i < |t| && IsDigit(t[i])
  {
    if i < |t| && IsDigit(t[i]) then DigitPartFrom(t, i + 1) else i
  }

  /** The end of the mantissa `digitpart ["." [digitpart]] | "." digitpart`
      at `i`, or `None` when there is none. */
  function MantissaEnd(t: string, i: nat): (r: Option<nat>)
    requires i <= |t|
    ensures r.Some? ==> i < r.value <= |t|
  {
    var a := DigitPart(t, i);
    if a < |t| && t[a] == '.' then
      var b := DigitPart(t, a + 1);
      if a == i && b == a + 1 then None else Some(b)
    else if a == i then None
    else Some(a)
  }

  /** The end of the optional exponent `(e|E) [sign] digitpart` at `i`, or
      `i` when none is there. */
  function ExponentEnd(t: string, i: nat): (e: nat)
    requires i <= |t|
    ensures i <= e <= |t|
  {
    if i < |t| && (t[i] == 'e' || t[i] == 'E') then
      var j := if i + 1 < |t| && IsSign(t[i + 1]) then i + 2 else i + 1;
      var k := DigitPart(t, j);
      if k == j then i else k
    else i
  }

  /** Python's `float(t)` returns rather than raising ValueError: an
      optional sign, a mantissa and an optional exponent make up the whole
      text. Each part of the grammar is deterministic, so reading each
      greedily decides it. The surrounding whitespace and the spellings of
      infinity and NaN that `float()` also accepts cannot occur in the
      lexemes of the value alternatives, which start with a sign, a digit
      or a dot and end with a digit or a dot. */
  predicate FloatAccepts(t: string)
  {
    var i := if |t| > 0 && IsSign(t[0]) then 1 else 0;
    match MantissaEnd(t, i)
    case None => false
    case Some(m) => ExponentEnd(t, m) == |t|
  }

  /** The characters that may stand in the middle of a FLOAT lexeme that
      `float()` accepts. */
  predicate IsFloatChar(c: char) { IsDigit(c) || c == '.' || c == '_' || c == 'e' || c == 'E' }

  lemma {:induction false} DigitPartFromDigits(t: string, i: nat, e: nat)
    requires i <= e <= |t| && forall k | i <= k < e :: IsDigit(t[k])
    ensures DigitPartFrom(t, i) == DigitPartFrom(t, e)
    decreases e - i
  {
    if i < e {
      DigitPartFromDigits(t, i + 1, e);
    }
  }

  /** Without underscores, a `digitpart` is the run of digits. */
  lemma {:induction false} DigitPartFromStops(t: string, i: nat)
    requires i <= |t| && forall k | i <= k < |t| :: t[k] != '_'
    ensures var e := DigitPartFrom(t, i);
      (forall k | i <= k < e :: IsDigit(t[k])) && (e == |t| || !IsDigit(t[e]))
    decreases |t| - i
  {
    if i < |t| && IsDigit(t[i]) {
      DigitPartFromStops(t, i + 1);
    }
  }

  /** A FLOAT lexeme is digits, one character and digits: `float()` takes it
      exactly when that character is a digit, the decimal point, an
      underscore between digits or the exponent letter. So "10-15" and
      "1 5" raise ValueError. */
  lemma FloatLexemeAccepts(t: string, j: nat)
    requires 0 < j < |t| - 1 && forall k | 0 <= k < |t| && k != j :: IsDigit(t[k])
    ensures FloatAccepts(t) <==> IsFloatChar(t[j])
  {
    DigitPartFromDigits(t, 1, j);
    DigitPartFromDigits(t, j + 1, |t|);
    assert !IsSign(t[0]);
    if IsDigit(t[j]) {
      assert DigitPartFrom(t, j) == DigitPartFrom(t, j + 1);
    } else if t[j] == '_' {
      DigitPartFromDigits(t, j + 2, |t|);
      assert DigitPartFrom(t, j) == DigitPartFrom(t, j + 2);
    } else {
      assert DigitPart(t, 0) == j;
      if t[j] == 'e' || t[j] == 'E' {
        assert !IsSign(t[j + 1]);
        assert ExponentEnd(t, j) == |t|;
      }
    }
  }

  /** The text holds a digit and at most one dot. */
  predicate OneDecimal(t: string)
  {
    (exists k | 0 <= k < |t| :: IsDigit(t[k])) && forall k, l | 0 <= k < l < |t| :: !(t[k] == '.' && t[l] == '.')
  }

  /** The number of a MULTIPLIER or PERCENTAGE lexeme is a sign, then digits
      and dots: `float()` takes it exactly when it holds a digit and at most
      one dot. So "1.2.3" and ".." raise ValueError. */
  lemma DecimalRunAccepts(t: string)
    requires |t| > 0
    requires var b := if IsSign(t[0]) then 1 else 0;
      b < |t| && forall k | b <= k < |t| :: IsDecChar(t[k])
    ensures FloatAccepts(t) <==> OneDecimal(t)
  {
    var b := if IsSign(t[0]) then 1 else 0;
    DigitPartFromStops(t, b);
    var a := DigitPart(t, b);
    assert a > b ==> IsDigit(t[b]);
    if a < |t| {
      assert t[a] == '.';
      DigitPartFromStops(t, a + 1);
      var b2 := DigitPart(t, a + 1);
      assert b2 > a + 1 ==> IsDigit(t[a + 1]);
      if a == b && b2 == a + 1 {
        if b2 < |t| {
          assert t[a] == '.' && t[b2] == '.';
        } else {
          assert forall k | 0 <= k < |t| :: !IsDigit(t[k]);
        }
      } else {
        assert ExponentEnd(t, b2) == b2;
        if b2 == |t| {
          assert forall k | 0 <= k < |t| && k != a :: t[k] != '.';
        } else {
          assert t[b2] == '.';
        }
      }
    } else {
      assert forall k | 0 <= k < |t| :: t[k] != '.';
    }
  }

  /** The value a token stands for. FLOAT, MULTIPLIER and PERCENTAGE keep
      the text that `float()` reads (the suffix removed); a percentage
      stands for that number times 0.01. */
  datatype Value = IntValue(n: int) | DecimalValue(text: string) | PercentValue(text: string)

  /** `int(integer.replace(',', ''))`: `None` is the ValueError raised when
      nothing but a sign is left. */
  function IntegerPayload(lexeme: string): Option<int>
  {
    IntOf(Replace(lexeme, [','], []))
  }

  /** Removing the commas of a run of digits and commas leaves digits, and
      leaves something exactly when the run holds a digit. */
  lemma {:induction false} WithoutCommas(t: string)
    requires forall i | 0 <= i < |t| :: IsIntChar(t[i])
    ensures forall i | 0 <= i < |Without(t, ',')| :: IsDigit(Without(t, ',')[i])
    ensures |Without(t, ',')| > 0 <==> exists i | 0 <= i < |t| :: IsDigit(t[i])
    decreases |t|
  {
    if t != [] {
      WithoutCommas(t[1..]);
      assert forall i | 1 <= i < |t| :: t[i] == t[1..][i - 1];
      if exists i | 0 <= i < |t| :: IsDigit(t[i]) {
        var i :| 0 <= i < |t| && IsDigit(t[i]);
        if i > 0 {
          assert IsDigit(t[1..][i - 1]);
        }
      }
    }
  }

  /** The INTEGER payload is `int()` of the lexeme with its commas deleted;
      it fails exactly when the lexeme holds no digit ("," or "+,"). */
  lemma IntegerPayloadDigits(s: string, p: nat, e: nat)
    requires Pattern(Integer, s, p, e)
    ensures IntegerPayload(s[p..e]) == IntOf(Without(s[p..e], ','))
    ensures IntegerPayload(s[p..e]).Some? <==> exists i | p <= i < e :: IsDigit(s[i])
  {
    var lexeme := s[p..e];
    ReplaceDeletes(lexeme, ',');
    if IsSign(s[p]) {
      var t := s[p + 1..e];
      assert lexeme == [s[p]] + t;
      assert forall i | 0 <= i < |t| :: t[i] == s[p + 1 + i];
      WithoutCommas(t);
      assert Without(lexeme, ',') == [s[p]] + Without(t, ',');
      if exists i | p <= i < e :: IsDigit(s[i]) {
        var i :| p <= i < e && IsDigit(s[i]);
        assert i > p;
        assert IsDigit(t[i - p - 1]);
      }
    } else {
      assert forall i | 0 <= i < |lexeme| :: lexeme[i] == s[p + i];
      WithoutCommas(lexeme);
      if exists i | p <= i < e :: IsDigit(s[i]) {
        var i :| p <= i < e && IsDigit(s[i]);
        assert IsDigit(lexeme[i - p]);
      }
    }
  }

  /** The payload of a value match, as `process_stat_lines` computes it;
      `None` when `int()` or `float()` raises ValueError. WEIGHT never
      fails; FLOAT, MULTIPLIER and PERCENTAGE keep the text `float()` reads
      once it accepts it. */
  function Payload(s: string, m: Match): (r: Option<Value>)
    requires m.start < m.end <= |s| && m.kind != Name && Pattern(m.kind, s, m.start, m.end)
    ensures m.kind == Weight ==> r.Some? && r.value.IntValue?
    ensures m.kind == Float ==> (r.Some? <==> FloatAccepts(s[m.start..m.end]))
    ensures m.kind == Float && r.Some? ==> r.value == DecimalValue(s[m.start..m.end])
    ensures m.kind == Multiplier ==> (r.Some? <==> FloatAccepts(s[m.start..m.end - 1]))
    ensures m.kind == Multiplier && r.Some? ==> r.value == DecimalValue(s[m.start..m.end - 1])
    ensures m.kind == Percentage ==> (r.Some? <==> FloatAccepts(s[m.start..m.end - 1]))
    ensures m.kind == Percentage && r.Some? ==> r.value == PercentValue(s[m.start..m.end - 1])
  {
    var lexeme := s[m.start..m.end];
    match m.kind
    case Integer =>
      (match IntegerPayload(lexeme)
       case Some(n) => Some(IntValue(n))
       case None => None)
    case Float => if FloatAccepts(lexeme) then Some(DecimalValue(lexeme)) else None
    case Multiplier =>
      assert lexeme[|lexeme| - 1] == 'x' && IsDecChar(lexeme[|lexeme| - 2]);
      RStripOne(lexeme, 'x');
      assert lexeme[..|lexeme| - 1] == s[m.start..m.end - 1];
      var t := RStrip(lexeme, {'x'});
      if FloatAccepts(t) then Some(DecimalValue(t)) else None
    case Percentage =>
      assert lexeme[|lexeme| - 1] == '%' && IsDecChar(lexeme[|lexeme| - 2]);
      RStripOne(lexeme, '%');
      assert lexeme[..|lexeme| - 1] == s[m.start..m.end - 1];
      var t := RStrip(lexeme, {'%'});
      if FloatAccepts(t) then Some(PercentValue(t)) else None
    case Weight =>
      assert forall i | 0 <= i < |lexeme| :: lexeme[i] == s[m.start + i];
      Some(IntValue(DigitsValue(lexeme)))
  }

  /** `float()` reads a FLOAT lexeme, and `Payload` has a value, exactly
      when every character of the lexeme is one `float()` can read there. */
  lemma FloatNumberAccepts(s: string, p: nat, e: nat)
    requires Pattern(Float, s, p, e)
    ensures FloatAccepts(s[p..e]) <==> forall k | p <= k < e :: IsFloatChar(s[k])
  {
    var t := s[p..e];
    var j :| p < j < e - 1 && All(s, p, j, IsDigit) && s[j] != '\n' && All(s, j + 1, e, IsDigit);
    assert forall k | 0 <= k < |t| && k != j - p :: IsDigit(t[k]);
    FloatLexemeAccepts(t, j - p);
    assert forall k | p <= k < e :: s[k] == t[k - p];
  }

  /** The number of a MULTIPLIER or PERCENTAGE match, its lexeme without
      the suffix, is read by `float()` exactly when it holds a digit and at
      most one dot; `Payload` has a value exactly then. */
  lemma SuffixedNumberAccepts(s: string, p: nat, e: nat)
    requires SignedRun(s, p, e, IsDecChar)
    ensures FloatAccepts(s[p..e]) <==> OneDecimal(s[p..e])
  {
    SuffixedNumber(s, p, e);
    DecimalRunAccepts(s[p..e]);
  }

  /** The text of a signed run of digits and dots: a sign perhaps, then at
      least one digit or dot. */
  lemma SuffixedNumber(s: string, p: nat, e: nat)
    requires SignedRun(s, p, e, IsDecChar)
    ensures |s[p..e]| > 0
    ensures var t := s[p..e]; var b := if IsSign(t[0]) then 1 else 0;
      b < |t| && forall k | b <= k < |t| :: IsDecChar(t[k])
  {
    var t := s[p..e];
    assert forall k | 0 <= k < |t| :: t[k] == s[p + k];
  }

  // ---------------------------------------------------------------------
  // What the scan makes of whole cells
  // ---------------------------------------------------------------------

  lemma {:induction false} RunEndIs(s: string, p: nat, e: nat, cls: char -> bool)
    requires All(s, p, e, cls) && (e == |s| || !cls(s[e]))
    ensures RunEnd(s, p, cls) == e
    decreases e - p
  {
    if p < e {
      RunEndIs(s, p + 1, e, cls);
    }
  }

  /** The alternation yields `k` when `k` matches and no earlier alternative
      does. */
  lemma {:induction false} FirstFromIs(s: string, p: nat, i: nat, k: Kind, e: nat)
    requires p <= |s| && i <= Rank(k) && MatchEnd(k, s, p) == Some(e)
    requires forall k' | i <= Rank(k') < Rank(k) :: MatchEnd(k', s, p).None?
    ensures FirstFrom(s, p, i) == Some(Match(k, p, e))
    decreases |Alternatives| - i
  {
    RankIsPosition();
    if i < Rank(k) {
      assert MatchEnd(Alternatives[i], s, p).None?;
      FirstFromIs(s, p, i + 1, k, e);
    } else {
      assert Alternatives[i] == k;
    }
  }

  lemma FirstMatchIs(s: string, p: nat, k: Kind, e: nat)
    requires p <= |s| && MatchEnd(k, s, p) == Some(e)
    requires forall k' | Rank(k') < Rank(k) :: MatchEnd(k', s, p).None?
    ensures FirstMatchAt(s, p) == Some(Match(k, p, e))
  {
    FirstFromIs(s, p, 0, k, e);
  }

  /** A cell whose whole text is one match yields exactly that match. */
  lemma WholeCell(s: string, k: Kind)
    requires |s| > 0 && MatchEnd(k, s, 0) == Some(|s|)
    requires forall k' | Rank(k') < Rank(k) :: MatchEnd(k', s, 0).None?
    ensures FindIter(s) == [Match(k, 0, |s|)]
  {
    FirstMatchIs(s, 0, k, |s|);
    assert Scan(s, |s|) == [];
  }

  /** "-Blunt Damage": a dash and letters and spaces is a NAME. */
  lemma WholeName(s: string)
    requires |s| >= 2 && s[0] == '-' && All(s, 1, |s|, IsNameChar)
    ensures FindIter(s) == [Match(Name, 0, |s|)]
  {
    RunEndIs(s, 1, |s|, IsNameChar);
    WholeCell(s, Name);
  }

  /** The end of the signed run of class characters at `p`, when a
      character outside the class stops it at `e`. */
  lemma SignedRunEnd(s: string, p: nat, e: nat, cls: char -> bool)
    requires SignedRun(s, p, e, cls) && e < |s| && !cls(s[e])
    requires forall c :: cls(c) ==> !IsSign(c)
    ensures RunEnd(s, SignedStart(s, p), cls) == e && SignedStart(s, p) < e
  {
    RunEndIs(s, SignedStart(s, p), e, cls);
  }

  /** "+10%", "-5%": a whole-cell PERCENTAGE is never an INTEGER or FLOAT,
      since neither can reach `$` past the `%`. */
  lemma WholePercentage(s: string)
    requires Pattern(Percentage, s, 0, |s|)
    ensures FindIter(s) == [Match(Percentage, 0, |s|)]
  {
    SuffixedPrefixFails(s);
    WholeCell(s, Percentage);
  }

  /** "1.5x": a whole-cell MULTIPLIER is never an INTEGER or FLOAT. */
  lemma WholeMultiplier(s: string)
    requires Pattern(Multiplier, s, 0, |s|)
    ensures FindIter(s) == [Match(Multiplier, 0, |s|)]
  {
    SuffixedPrefixFails(s);
    WholeCell(s, Multiplier);
  }

  /** A signed run of digits and dots followed by an `x` or a `%` is no
      NAME, INTEGER or FLOAT at its start. */
  lemma SuffixedPrefixFails(s: string)
    requires |s| > 0 && SignedRun(s, 0, |s| - 1, IsDecChar) && (s[|s| - 1] == 'x' || s[|s| - 1] == '%')
    ensures MatchEnd(Name, s, 0).None? && MatchEnd(Integer, s, 0).None? && MatchEnd(Float, s, 0).None?
  {
    var n := |s| - 1;
    SignedRunEnd(s, 0, n, IsDecChar);
    assert s[0] != '-' || !IsNameChar(s[1]);
    assert !IsIntChar(s[n]) && !IsDigit(s[n]) && s[n] != '\n';
    assert RunEnd(s, SignedStart(s, 0), IsIntChar) <= n;
    assert RunEnd(s, 0, IsDigit) <= n;
  }

  /** "1,200", "-3": a whole-cell signed run of digits and commas is one
      INTEGER. */
  lemma WholeInteger(s: string)
    requires Pattern(Integer, s, 0, |s|)
    ensures FindIter(s) == [Match(Integer, 0, |s|)]
  {
    assert s[0] != '-' || !IsNameChar(s[1]);
    WholeCell(s, Integer);
  }

  /** "12.5": a whole-cell FLOAT yields one FLOAT when the text is not also
      an INTEGER (a "1,5" or "125" is an INTEGER, the earlier
      alternative). */
  lemma WholeFloat(s: string)
    requires Pattern(Float, s, 0, |s|) && !All(s, 0, |s|, IsIntChar)
    ensures FindIter(s) == [Match(Float, 0, |s|)]
  {
    assert IsDigit(s[0]);
    assert SignedStart(s, 0) == 0;
    var e := RunEnd(s, 0, IsIntChar);
    assert e < |s|;
    WholeCell(s, Float);
  }

  /** "3 kg": the digits before " kg" are a WEIGHT, and the unit yields
      nothing. */
  lemma DigitsThenKg(d: string)
    requires |d| > 0 && forall i | 0 <= i < |d| :: IsDigit(d[i])
    ensures FindIter(d + " kg") == [Match(Weight, 0, |d|)]
  {
    var s := d + " kg";
    var n := |d|;
    assert s[n..n + 3] == " kg";
    RunEndIs(s, 0, n, IsDigit);
    RunEndIs(s, 0, n, IsIntChar);
    RunEndIs(s, 0, n, IsDecChar);
    assert s[0] != '-';
    assert !IsDigit(s[n + 1]);
    FirstMatchIs(s, 0, Weight, n);
    forall q | n <= q < |s| ensures FirstMatchAt(s, q).None? {
      assert s[q] == ' ' || s[q] == 'k' || s[q] == 'g';
      if FirstMatchAt(s, q).Some? {
        LeadChar(s, q);
      }
    }
    assert Scan(s, n + 2) == Scan(s, n + 3);
    assert Scan(s, n + 1) == Scan(s, n + 2);
    assert Scan(s, n) == Scan(s, n + 1);
  }

  /** INTEGER and FLOAT are anchored: such a match reaches `$` and is the
      last match of its text. */
  lemma AnchoredLast(s: string, i: nat)
    requires i < |FindIter(s)| && FindIter(s)[i].kind in {Integer, Float}
    ensures AtEnd(s, FindIter(s)[i].end)
    ensures i == |FindIter(s)| - 1
  {
    var ms := FindIter(s);
    ScanChoices(s, 0);
    ScanOrdered(s, 0);
    var m := ms[i];
    assert FirstMatchAt(s, m.start) == Some(m);
    AlternationOrder(s, m.start);
    assert Pattern(m.kind, s, m.start, m.end);
    ScanSuffix(s, 0, i);
    NothingAfterEnd(s, m.end);
  }

  /** The matches after the `i`-th are those of a scan resumed at its end. */
  lemma ScanSuffix(s: string, p: nat, i: nat)
    requires p <= |s| && i < |Scan(s, p)|
    ensures Scan(s, p)[i].end <= |s| && Scan(s, p)[i + 1..] == Scan(s, Scan(s, p)[i].end)
  {
    ScanIsScanBy(s, p);
    ChooserChooses(s);
    ScanBySuffix(|s|, Chooser(s), p, i);
    ScanIsScanBy(s, Scan(s, p)[i].end);
  }

  /** Nothing matches from a position where `$` holds. */
  lemma NothingAfterEnd(s: string, q: nat)
    requires q <= |s| && AtEnd(s, q)
    ensures Scan(s, q) == []
  {
    if q < |s| {
      if FirstMatchAt(s, q).Some? {
        LeadChar(s, q);
      }
      assert Scan(s, q + 1) == [];
    }
  }

  /** "+10%" is a PERCENTAGE, never an INTEGER. */
  lemma PercentExample()
    ensures FindIter("+10%") == [Match(Percentage, 0, 4)]
  {
    WholePercentage("+10%");
  }

  lemma NegativePercentExample()
    ensures FindIter("-5%") == [Match(Percentage, 0, 3)]
  {
    WholePercentage("-5%");
  }

  lemma MultiplierExample()
    ensures FindIter("1.5x") == [Match(Multiplier, 0, 4)]
  {
    WholeMultiplier("1.5x");
  }

  lemma WeightExample()
    ensures FindIter("3 kg") == [Match(Weight, 0, 1)]
  {
    DigitsThenKg("3");
    assert "3" + " kg" == "3 kg";
  }

  lemma FloatExample()
    ensures FindIter("12.5") == [Match(Float, 0, 4)]
  {
    assert !IsIntChar("12.5"[2]);
    WholeFloat("12.5");
  }

  /** "1,200" is one INTEGER worth 1200. */
  lemma IntegerExample()
    ensures FindIter("1,200") == [Match(Integer, 0, 5)] && IntegerPayload("1,200") == Some(1200)
  {
    WholeInteger("1,200");
    CommaRemoved();
    Value1200();
  }

  lemma CommaRemoved()
    ensures Replace("1,200", [','], []) == "1200"
  {
    ReplaceDeletes("1,200", ',');
    assert Without("1,200", ',') == "1200";
  }

  lemma Value1200()
    ensures IntOf("1200") == Some(1200)
  {
    assert "1200"[..3] == "120" && "120"[..2] == "12" && "12"[..1] == "1";
    assert DigitsValue("1200") == 1200;
    assert !IsSign('1');
  }

  lemma NameExample()
    ensures FindIter("-Blunt Damage") == [Match(Name, 0, 13)]
  {
    WholeName("-Blunt Damage");
  }

  /** "-B 5": a dash, a label and a space, then digits, is a NAME whose
      group runs up to the digits, then an INTEGER. The text is left as it
      is by the cleaner. */
  lemma NameThenDigits(y: string, d: string)
    requires |y| > 0 && (forall i | 0 <= i < |y| :: IsNameChar(y[i]) && y[i] != 'c')
    requires |d| > 0 && (forall i | 0 <= i < |d| :: IsDigit(d[i]))
    ensures var s := "-" + y + " " + d;
      && Clean(s) == s
      && FindIter(s) == [Match(Name, 0, |y| + 2), Match(Integer, |y| + 2, |s|)]
      && Group(s, Match(Name, 0, |y| + 2)) == y + " "
      && s[|y| + 2..] == d
  {
    var s := "-" + y + " " + d;
    var n := |y| + 2;
    assert forall i | 1 <= i < n :: s[i] == (y + " ")[i - 1];
    assert forall i | n <= i < |s| :: s[i] == d[i - n];
    assert s[n..] == d;
    assert s[1..n] == y + " ";
    CleanKeeps(s);
    RunEndIs(s, 1, n, IsNameChar);
    assert MatchEnd(Name, s, 0) == Some(n);
    FirstMatchIs(s, 0, Name, n);
    RunEndIs(s, n, |s|, IsIntChar);
    assert SignedStart(s, n) == n;
    assert MatchEnd(Integer, s, n) == Some(|s|);
    FirstMatchIs(s, n, Integer, |s|);
    assert Scan(s, |s|) == [];
    assert Scan(s, n) == [Match(Integer, n, |s|)];
    assert Scan(s, 0) == [Match(Name, 0, n)] + Scan(s, n);
  }
}
