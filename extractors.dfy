/** The one-line text extractors of main.py: the stat label normalisation,
    the quality, the weapon class, the image file name and the page name.
    Where the Python expression indexes past the end of a `split` (an
    IndexError that ends the run), the result is `None`. */
module Extractors {
  import opened Wrappers
  import opened Strings

  // ---------------------------------------------------------------------
  // Stat labels: name.lower().replace(" ", "_")
  // ---------------------------------------------------------------------

  /** The dictionary key of a stat label: lower case, with every space
      turned into an underscore. */
  function NormalizeLabel(n: string): (r: string)
    ensures |r| == |n|
    ensures forall i | 0 <= i < |n| :: r[i] == if n[i] == ' ' then '_' else LowerChar(n[i])
    ensures ' ' !in r
    ensures forall i | 0 <= i < |r| :: !IsAsciiUpper(r[i])
  {
    ReplaceCharAt(Lower(n), ' ', '_');
    Replace(Lower(n), " ", "_")
  }

  /** A key made of lower-case letters and underscores. */
  predicate IsKey(k: string)
  {
    |k| > 0 && forall i | 0 <= i < |k| :: 'a' <= k[i] <= 'z' || k[i] == '_'
  }

  /** The label of a NAME match (letters and spaces) becomes a key. */
  lemma NormalizeNameText(n: string)
    requires |n| > 0 && forall i | 0 <= i < |n| :: IsAsciiLetter(n[i]) || n[i] == ' '
    ensures IsKey(NormalizeLabel(n))
  {
  }

  /** Normalising a key again changes nothing. */
  lemma NormalizeIdempotent(n: string)
    ensures NormalizeLabel(NormalizeLabel(n)) == NormalizeLabel(n)
  {
    var k := NormalizeLabel(n);
    var k2 := NormalizeLabel(k);
    forall i | 0 <= i < |k| ensures k2[i] == k[i] {
      assert k[i] != ' ' && !IsAsciiUpper(k[i]);
    }
  }

  // ---------------------------------------------------------------------
  // Quality: span.text.split('#')[1].strip(']').lstrip()
  // ---------------------------------------------------------------------

  /** The quality grade of a variant from the text of its first `span`;
      `None` when the text has no '#'. */
  function Quality(t: string): (r: Option<string>)
    ensures r.None? <==> '#' !in t
  {
    var parts := Split(t, '#');
    if |parts| < 2 then
      SplitWithoutSeparatorIff(t, '#');
      None
    else
      SplitWithoutSeparatorIff(t, '#');
      Some(LStrip(Strip(parts[1], {']'}), Whitespace))
  }

  lemma SplitWithoutSeparatorIff(t: string, c: char)
    ensures |Split(t, c)| < 2 <==> c !in t
  {
    if c !in t {
      SplitWithoutSeparator(t, c);
    } else {
      JoinSingle(Split(t, c), [c]);
    }
  }

  lemma JoinSingle(parts: seq<string>, sep: string)
    ensures |parts| == 1 ==> Join(parts, sep) == parts[0]
  {
  }

  /** The grade reads back: "<prefix>#<grade>]" gives the grade when the
      prefix has no '#' and the grade has no '#', does not start with white
      space or ']' and does not end with ']'. */
  lemma QualityRoundTrip(prefix: string, grade: string)
    requires '#' !in prefix && '#' !in grade && |grade| > 0
    requires grade[0] !in Whitespace && grade[0] != ']' && grade[|grade| - 1] != ']'
    ensures Quality(prefix + "#" + grade + "]") == Some(grade)
  {
    var t := prefix + "#" + grade + "]";
    assert t == prefix + ['#'] + (grade + "]");
    SplitAfterFirstPart(prefix, grade + "]", '#');
    SplitWithoutSeparator(grade + "]", '#');
    var g := grade + "]";
    assert Split(t, '#') == [prefix, g];
    assert g[..|grade|] == grade;
    assert RStrip(g, {']'}) == grade by {
      RStripKeeps(grade, {']'});
      assert RStrip(g, {']'}) == RStrip(g[..|g| - 1], {']'});
    }
    LStripKeeps(g, {']'});
    RStripKeeps(grade, {']'});
    LStripKeeps(grade, Whitespace);
  }

  // ---------------------------------------------------------------------
  // Class: td.getText().strip().strip('[').rstrip(']')
  // ---------------------------------------------------------------------

  /** The weapon class from the text of the third `td` after the first
      variant. */
  function ClassText(t: string): (r: string)
    ensures r == [] || (r[0] != '[' && r[|r| - 1] != ']')
    ensures |r| <= |t|
  {
    RStrip(Strip(Strip(t, Whitespace), {'['}), {']'})
  }

  /** A bracketed class reads back: "[Sabre class]" gives "Sabre class". */
  lemma ClassRoundTrip(c: string)
    requires |c| > 0 && c[0] != '[' && c[|c| - 1] != ']'
    requires c[0] !in Whitespace
    ensures ClassText("[" + c + "]") == c
  {
    var t := "[" + c + "]";
    assert t[1..] == c + "]";
    LStripKeeps(t, Whitespace);
    RStripKeeps(t, Whitespace);
    assert LStrip(t, {'['}) == LStrip(c + "]", {'['});
    LStripKeeps(c + "]", {'['});
    RStripKeeps(c + "]", {'['});
    assert (c + "]")[..|c|] == c;
    RStripKeeps(c, {']'});
    assert RStrip(c + "]", {']'}) == RStrip(c, {']'});
  }

  /** A page with no class cell text gives the empty class. */
  lemma ClassOfBlank(t: string)
    requires forall i | 0 <= i < |t| :: t[i] in Whitespace
    ensures ClassText(t) == []
  {
    assert LStrip(t, Whitespace) == [];
  }

  // ---------------------------------------------------------------------
  // Image file name: href.split('/')[-3]
  // ---------------------------------------------------------------------

  /** The third-from-last '/'-separated segment of the image link; `None`
      when the link has fewer than two '/'. */
  function ImageFilename(href: string): (r: Option<string>)
    ensures r.Some? ==> '/' !in r.value
  {
    var parts := Split(href, '/');
    if |parts| < 3 then None else Some(parts[|parts| - 3])
  }

  /** Joined segments give back the third from last. */
  lemma ImageFilenameOfJoin(parts: seq<string>)
    requires |parts| >= 3 && forall i | 0 <= i < |parts| :: '/' !in parts[i]
    ensures ImageFilename(Join(parts, "/")) == Some(parts[|parts| - 3])
  {
    assert "/" == ['/'];
    SplitJoin(parts, '/');
    assert Split(Join(parts, "/"), '/') == parts;
  }

  /** A link of fewer than three segments has no file name. */
  lemma ImageFilenameShort(parts: seq<string>)
    requires 1 <= |parts| < 3 && forall i | 0 <= i < |parts| :: '/' !in parts[i]
    ensures ImageFilename(Join(parts, "/")).None?
  {
    assert "/" == ['/'];
    SplitJoin(parts, '/');
    assert Split(Join(parts, "/"), '/') == parts;
  }

  // ---------------------------------------------------------------------
  // Page names: URL.split('/')[-1], and name.replace('%27', "'")
  // ---------------------------------------------------------------------

  /** The last '/'-separated segment of a URL. */
  function PageName(url: string): (r: string)
    ensures '/' !in r
  {
    var parts := Split(url, '/');
    parts[|parts| - 1]
  }

  lemma PageNameOfJoin(parts: seq<string>)
    requires |parts| >= 1 && forall i | 0 <= i < |parts| :: '/' !in parts[i]
    ensures PageName(Join(parts, "/")) == parts[|parts| - 1]
  {
    var url := Join(parts, [ '/' ]);
    assert "/" == ['/'];
    SplitJoin(parts, '/');
    PageNameOfSplit(url, parts);
  }

  lemma PageNameOfSplit(url: string, parts: seq<string>)
    requires Split(url, '/') == parts
    ensures PageName(url) == parts[|parts| - 1]
  {
  }

  /** The URL escape of an apostrophe decoded, as both the name collection
      and the weapon insertion do it. */
  function DecodeApostrophes(n: string): string
  {
    Replace(n, "%27", "'")
  }

  /** A name without the escape is its own decoding. */
  lemma DecodeWithoutEscape(n: string)
    requires !Contains(n, "%27")
    ensures DecodeApostrophes(n) == n
  {
    ReplaceAbsent(n, "%27", "'");
  }

  /** Decoding leaves no escape behind. */
  lemma {:induction false} DecodeLeavesNoEscape(n: string)
    ensures !Contains(DecodeApostrophes(n), "%27")
    decreases |n|
  {
    var r := DecodeApostrophes(n);
    if |n| >= 3 {
      if n[..3] == "%27" {
        DecodeLeavesNoEscape(n[3..]);
        var rest := DecodeApostrophes(n[3..]);
        assert r == "'" + rest;
        NoEscapeCons('\'', rest);
      } else {
        DecodeLeavesNoEscape(n[1..]);
        var rest := DecodeApostrophes(n[1..]);
        assert r == [n[0]] + rest;
        TwentySevenPrefix(n[1..]);
        assert n[..3] == [n[0]] + n[1..][..2];
        NoEscapeCons(n[0], rest);
      }
    }
  }

  /** The first character of a decoding, when it is not an apostrophe, is
      the first character of the text, and no escape starts there. */
  lemma DecodeHead(n: string)
    ensures var r := DecodeApostrophes(n);
      |r| > 0 && r[0] != '\'' ==>
        |n| > 0 && r[0] == n[0] && !(|n| >= 3 && n[..3] == "%27")
        && (|n| >= 3 ==> r == [n[0]] + DecodeApostrophes(n[1..]))
  {
  }

  /** A decoding starts with "27" only where the text does. */
  lemma TwentySevenPrefix(n: string)
    ensures var r := DecodeApostrophes(n);
      |r| >= 2 && r[..2] == "27" ==> |n| >= 2 && n[..2] == "27"
  {
    var r := DecodeApostrophes(n);
    if |n| < 3 {
      assert r == n;
    } else if n[..3] == "%27" {
      assert r == "'" + DecodeApostrophes(n[3..]);
      assert r[0] == '\'';
    } else {
      var rest := DecodeApostrophes(n[1..]);
      assert r == [n[0]] + rest;
      DecodeHead(n[1..]);
      assert |r| >= 2 ==> r[..2] == [n[0], rest[0]];
    }
  }

  /** Putting a character in front of escape-free text makes an escape only
      when it completes one. */
  lemma NoEscapeCons(c: char, rest: string)
    requires !Contains(rest, "%27")
    requires !(c == '%' && |rest| >= 2 && rest[..2] == "27")
    ensures !Contains([c] + rest, "%27")
  {
    var t := [c] + rest;
    forall i | 0 <= i <= |t| ensures !OccursAt(t, "%27", i) {
      if i == 0 {
        if |t| >= 3 {
          assert t[0..3][0] == c && t[0..3][1..] == rest[..2];
          assert "%27"[0] == '%' && "%27"[1..] == "27";
        }
      } else if i + 3 <= |t| {
        assert t[i..i + 3] == rest[i - 1..i + 2];
        assert 0 <= i - 1 <= |rest|;
        assert !OccursAt(rest, "%27", i - 1);
      }
    }
  }
}
