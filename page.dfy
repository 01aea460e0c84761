/** Page assembly: `process_weapon_variants`, which turns each variant
    table into a dictionary (image link, local image, quality, then the stat
    pairs), and `process_page`, which tags every record with the weapon
    class and the homemade flag. The DOM queries are replaced by what they
    find: for each variant its image link, the text of its first `span`,
    the `td` texts of its `tr` rows and the response to fetching the image;
    for the page, the variant tables around the "Homemade" marker (or the
    plain tables when there is none) and the third `td` after the first
    variant. */
module Page {
  import opened Wrappers
  import opened ODict
  import opened Tokenizer
  import opened StatLines
  import opened Extractors
  import opened Images

  /** The values a variant dictionary holds. */
  datatype Field =
    | Text(s: string)         // image_url, quality, class
    | Path(p: Option<string>) // local_image
    | Stat(v: Value)          // a stat value
    | Flag(b: bool)           // homemade

  type Record = Dict<Field>

  /** `href` is the `href` of the variant's first image link and `span` the
      text of its first `span`; `None` when the DOM query finds nothing
      (or the link has no `href`). */
  datatype Variant = Variant(href: Option<string>, span: Option<string>, rows: seq<seq<string>>, response: Response)

  /** `Homemade(before, after)`: the variants `findAllPrevious` and
      `findAllNext` return around the marker; `Tables(ts)`: the tables the
      fallback selector returns. */
  datatype Layout = Homemade(before: seq<Variant>, after: seq<Variant>) | Tables(tables: seq<Variant>)

  /** `classCell` is the text of `found_variants[0].find_all_next('td')[2]`,
      `None` when there is no such cell. */
  datatype PageInput = PageInput(layout: Layout, classCell: Option<string>)

  /** The exceptions that end the run. */
  datatype PageError =
    | NoImageLink                // image['href'] on no link, or a link without href
    | NoFilename(href: string)   // split('/')[-3] out of range
    | NoSpan                     // find("span").text on no span
    | NoQuality(span: string)    // split('#')[1] out of range
    | BadStats(e: ScanError)     // from process_stat_lines
    | NoVariants                 // found_variants[0] out of range
    | NoClassCell                // find_all_next('td')[2] out of range

  // ---------------------------------------------------------------------
  // One variant
  // ---------------------------------------------------------------------

  predicate VariantOk(v: Variant)
  {
    && v.href.Some? && ImageFilename(v.href.value).Some?
    && v.span.Some? && Quality(v.span.value).Some?
    && StatLines.StatLines(v.rows).Ok?
  }

  /** The first failing step of a variant, in the order the source runs
      them. */
  function VariantError(v: Variant): PageError
    requires !VariantOk(v)
  {
    if v.href.None? then NoImageLink
    else if ImageFilename(v.href.value).None? then NoFilename(v.href.value)
    else if v.span.None? then NoSpan
    else if Quality(v.span.value).None? then NoQuality(v.span.value)
    else BadStats(StatLines.StatLines(v.rows).error)
  }

  function StatFields(pairs: seq<Pair>): (fs: seq<(string, Field)>)
    ensures |fs| == |pairs|
    ensures forall i | 0 <= i < |pairs| :: fs[i] == (pairs[i].0, Stat(pairs[i].1))
  {
    seq(|pairs|, i requires 0 <= i < |pairs| => (pairs[i].0, Stat(pairs[i].1)))
  }

  /** The three keys every variant dictionary starts with. */
  function BaseRecord(href: string, local: Option<string>, quality: string): Record
  {
    [("image_url", Text(href)), ("local_image", Path(local)), ("quality", Text(quality))]
  }

  /** A variant's dictionary: the base keys, then every stat pair assigned
      in order. */
  function VariantRecord(href: string, local: Option<string>, quality: string, pairs: seq<Pair>): Record
  {
    PutAll(BaseRecord(href, local, quality), StatFields(pairs))
  }

  function RecordOf(v: Variant, local: Option<string>): Record
    requires VariantOk(v)
  {
    VariantRecord(v.href.value, local, Quality(v.span.value).value, StatLines.StatLines(v.rows).value)
  }

  /** What a variant dictionary holds: the base keys come first and no key
      repeats; a stat key holds the value of its last pair, and every other
      key its base value (so a stat labelled "quality" replaces the quality). */
  lemma VariantFields(href: string, local: Option<string>, quality: string, pairs: seq<Pair>, k: string)
    ensures var r := VariantRecord(href, local, quality, pairs);
      && ["image_url", "local_image", "quality"] <= Keys(r)
      && DistinctKeys(r)
      && Get(r, k) == if LastFor(StatFields(pairs), k).Some? then LastFor(StatFields(pairs), k)
                      else Get(BaseRecord(href, local, quality), k)
  {
    var b := BaseRecord(href, local, quality);
    KeysPutAll(b, StatFields(pairs));
    GetPutAll(b, StatFields(pairs), k);
    assert Keys(b) == ["image_url", "local_image", "quality"];
  }

  /** The local image of a variant is its destination path or nothing. */
  predicate LocalOk(root: string, v: Variant, local: Option<string>)
  {
    local.None? ||
      (v.href.Some? && ImageFilename(v.href.value).Some? && local == Some(Destination(root, ImageFilename(v.href.value).value)))
  }

  /** The local image of every variant is its destination path or
      nothing. */
  predicate LocalsOk(root: string, vs: seq<Variant>, locals: seq<Option<string>>)
  {
    |locals| == |vs| && forall j | 0 <= j < |vs| :: LocalOk(root, vs[j], locals[j])
  }

  /** Variants never reached have no local image, which is always allowed. */
  lemma NoLocalsOk(root: string, vs: seq<Variant>)
    ensures LocalsOk(root, vs, Padding(|vs|, None))
  {
  }

  /** One more variant with an allowed local image; the variants after it
      not reached. */
  lemma LocalsStep(root: string, vs: seq<Variant>, locals: seq<Option<string>>, local: Option<string>, i: nat)
    requires i < |vs| && LocalsOk(root, vs[..i], locals) && LocalOk(root, vs[i], local)
    ensures LocalsOk(root, vs[..i + 1], locals + [local])
    ensures LocalsOk(root, vs, locals + [local] + Padding(|vs| - i - 1, None))
  {
    var ls := locals + [local] + Padding(|vs| - i - 1, None);
    forall j | 0 <= j < |vs| ensures LocalOk(root, vs[j], ls[j]) {
      if j < i {
        assert vs[..i][j] == vs[j] && ls[j] == locals[j];
      }
    }
  }

  lemma LocalsAppend(root: string, before: seq<Variant>, after: seq<Variant>, l1: seq<Option<string>>, l2: seq<Option<string>>)
    requires LocalsOk(root, before, l1) && LocalsOk(root, after, l2)
    ensures LocalsOk(root, before + after, l1 + l2)
  {
    var vs, ls := before + after, l1 + l2;
    forall j | 0 <= j < |vs| ensures LocalOk(root, vs[j], ls[j]) {
      if j < |before| {
        assert vs[j] == before[j] && ls[j] == l1[j];
      } else {
        assert vs[j] == after[j - |before|] && ls[j] == l2[j - |before|];
      }
    }
  }

  /** One variant's dictionary, or the error that ends the run. */
  function Built(v: Variant, local: Option<string>): (r: Result<Record, PageError>)
    ensures r.Ok? <==> VariantOk(v)
  {
    if VariantOk(v) then Ok(RecordOf(v, local)) else Err(VariantError(v))
  }

  // ---------------------------------------------------------------------
  // What the variants do to the file system
  // ---------------------------------------------------------------------

  /** What one variant does to the file system: `save_image` when it has a
      link and a file name, nothing when it fails before that. */
  function VariantEffect(d: Disk, root: string, v: Variant): (e: Disk)
    ensures d.files.Keys <= e.files.Keys && d.dirs <= e.dirs
    ensures |d.fetched| <= |e.fetched| <= |d.fetched| + 1 && e.fetched[..|d.fetched|] == d.fetched
    ensures |e.fetched| > |d.fetched| ==> v.href == Some(e.fetched[|d.fetched|])
  {
    if v.href.Some? && ImageFilename(v.href.value).Some? then
      SaveEffect(d, root, ImageFilename(v.href.value).value, v.href.value, v.response)
    else d
  }

  /** `VariantEffect` as a step of a run. */
  function VariantStep(root: string): (Disk, Variant) -> Disk
  {
    (d: Disk, v: Variant) => VariantEffect(d, root, v)
  }

  /** The file system after `process_weapon_variants`: the effects of the
      variants it reaches, every one up to and including the first that
      fails. */
  function RunEffect(d: Disk, root: string, vs: seq<Variant>): Disk
  {
    RunFold(d, vs, VariantStep(root), VariantOk)
  }

  /** The variants' effects one after another remove nothing, fetch at
      most one link per variant, and keep the earlier fetches in order. */
  lemma {:induction false} EffectGrows(d: Disk, root: string, vs: seq<Variant>)
    ensures var e := Fold(d, vs, VariantStep(root));
      && d.files.Keys <= e.files.Keys && d.dirs <= e.dirs
      && |d.fetched| <= |e.fetched| <= |d.fetched| + |vs| && e.fetched[..|d.fetched|] == d.fetched
    decreases |vs|
  {
    if vs != [] {
      var n := |vs| - 1;
      EffectGrows(d, root, vs[..n]);
      var pre := Fold(d, vs[..n], VariantStep(root));
      var e := VariantEffect(pre, root, vs[n]);
      assert Fold(d, vs, VariantStep(root)) == e;
      assert e.fetched[..|d.fetched|] == pre.fetched[..|pre.fetched|][..|d.fetched|];
    }
  }

  /** A run removes nothing and fetches at most one link per variant it
      reaches, after the earlier fetches. */
  lemma RunEffectGrows(d: Disk, root: string, vs: seq<Variant>)
    ensures var e := RunEffect(d, root, vs);
      && d.files.Keys <= e.files.Keys && d.dirs <= e.dirs
      && |d.fetched| <= |e.fetched| <= |d.fetched| + |vs| && e.fetched[..|d.fetched|] == d.fetched
  {
    EffectGrows(d, root, vs[..Reach(vs, VariantOk)]);
  }

  /** The file system after `process_page`: unchanged when there is no
      first variant or no class cell, otherwise the run over every variant
      of the page, before and after the marker alike. */
  function PageEffect(d: Disk, root: string, p: PageInput): Disk
  {
    if |ClassSource(p.layout)| == 0 || p.classCell.None? then d
    else RunEffect(d, root, AllVariants(p.layout))
  }

  /** The local image `process_weapon_variants` records for a variant on
      the file system `d`: what `save_image` reports, read by
      `handle_image_result`; nothing when the variant fails before the
      download. */
  function LocalFor(d: Disk, root: string, v: Variant): (l: Option<string>)
    ensures LocalOk(root, v, l)
    ensures v.href.Some? && ImageFilename(v.href.value).Some? ==>
      var dest := Destination(root, ImageFilename(v.href.value).value);
      l == if OnDisk(d, dest) || Downloaded(v.response) then Some(dest) else None
  {
    if v.href.Some? && ImageFilename(v.href.value).Some? then
      var dest := Destination(root, ImageFilename(v.href.value).value);
      LocalImage(OnDisk(d, dest), v.href.value, dest, v.response);
      HandleImageResult(SaveOutcome(OnDisk(d, dest), v.href.value, dest, v.response))
    else None
  }

  /** `LocalFor` as the report of a step of a run. */
  function LocalStep(root: string): (Disk, Variant) -> Option<string>
  {
    (d: Disk, v: Variant) => LocalFor(d, root, v)
  }

  /** The local images of a run from `d`: each variant reached gets its
      own on the file system the variants before it left; the variants not
      reached get none. */
  function RunLocals(d: Disk, root: string, vs: seq<Variant>): seq<Option<string>>
  {
    RunTrace(d, vs, VariantStep(root), LocalStep(root), VariantOk, None)
  }

  /** The local image of variant `j` of a run. */
  lemma RunLocalsAt(d: Disk, root: string, vs: seq<Variant>, j: nat)
    requires j < |vs|
    ensures |RunLocals(d, root, vs)| == |vs|
    ensures j < Reach(vs, VariantOk) ==>
      RunLocals(d, root, vs)[j] == LocalFor(Fold(d, vs[..j], VariantStep(root)), root, vs[j])
    ensures j >= Reach(vs, VariantOk) ==> RunLocals(d, root, vs)[j] == None
  {
    var k := Reach(vs, VariantOk);
    var tr := Trace(d, vs[..k], VariantStep(root), LocalStep(root));
    assert RunLocals(d, root, vs) == tr + Padding(|vs| - k, None);
    if j < k {
      TraceAt(d, vs[..k], VariantStep(root), LocalStep(root), j);
      assert vs[..k][..j] == vs[..j] && vs[..k][j] == vs[j];
    }
  }

  /** The local images of a page's variants: none when there is no first
      variant or no class cell, otherwise those of one run over every
      variant, before and after the marker alike. */
  function PageLocals(d: Disk, root: string, p: PageInput): (ls: seq<Option<string>>)
    ensures |ls| == |AllVariants(p.layout)|
  {
    if |ClassSource(p.layout)| == 0 || p.classCell.None? then Padding(|AllVariants(p.layout)|, None)
    else RunLocals(d, root, AllVariants(p.layout))
  }

  /** Every link a run fetches is the image link of one of its variants. */
  lemma {:induction false} FetchedLinks(d: Disk, root: string, vs: seq<Variant>)
    ensures var e := Fold(d, vs, VariantStep(root));
      forall j | |d.fetched| <= j < |e.fetched| :: exists i | 0 <= i < |vs| :: vs[i].href == Some(e.fetched[j])
    decreases |vs|
  {
    if vs != [] {
      var n := |vs| - 1;
      FetchedLinks(d, root, vs[..n]);
      EffectGrows(d, root, vs[..n]);
      var pre := Fold(d, vs[..n], VariantStep(root));
      var e := VariantEffect(pre, root, vs[n]);
      assert Fold(d, vs, VariantStep(root)) == e;
      forall j | |d.fetched| <= j < |e.fetched| ensures exists i | 0 <= i < |vs| :: vs[i].href == Some(e.fetched[j]) {
        if j < |pre.fetched| {
          assert e.fetched[j] == e.fetched[..|pre.fetched|][j] == pre.fetched[j];
          var i :| 0 <= i < n && vs[..n][i].href == Some(pre.fetched[j]);
          assert vs[i] == vs[..n][i];
        } else {
          assert vs[n].href == Some(e.fetched[j]);
        }
      }
    }
  }

  /** On a page that succeeds, every variant's image is saved. */
  lemma PageEffectOk(d: Disk, root: string, p: PageInput)
    requires PageOk(p)
    ensures PageEffect(d, root, p) == Fold(d, AllVariants(p.layout), VariantStep(root))
  {
    var vs := AllVariants(p.layout);
    RunFoldAt(d, vs, VariantStep(root), VariantOk, |vs|);
  }

  /** The body of `process_weapon_variants` for one variant: the image
      link, the file name, the download, the quality, then the stat pairs
      assigned one by one. */
  method BuildVariant(fs: FileSystem, root: string, v: Variant)
    returns (r: Result<Record, PageError>, local: Option<string>)
    modifies fs
    ensures r == Built(v, local)
    ensures LocalOk(root, v, local)
    ensures v.href.None? || ImageFilename(v.href.value).None? ==> unchanged(fs)
    ensures v.href.Some? && ImageFilename(v.href.value).Some? ==>
      local == HandleImageResult(SaveOutcome(old(fs.Exists(Destination(root, ImageFilename(v.href.value).value))),
                                             v.href.value, Destination(root, ImageFilename(v.href.value).value), v.response))
    ensures fs.State() == VariantEffect(old(fs.State()), root, v)
    ensures local == LocalFor(old(fs.State()), root, v)
    ensures old(fs.files).Keys <= fs.files.Keys && old(fs.dirs) <= fs.dirs
  {
    if v.href.None? {
      return Err(NoImageLink), None;
    }
    var href := v.href.value;
    var filename := ImageFilename(href);
    if filename.None? {
      return Err(NoFilename(href)), None;
    }
    ghost var existed := fs.Exists(Destination(root, filename.value));
    var saved := fs.SaveImage(root, filename.value, href, v.response);
    local := HandleImageResult(saved);
    LocalImage(existed, href, Destination(root, filename.value), v.response);
    r := Assemble(v, local);
  }

  /** The rest of one variant once its image is settled: the quality, the
      stat pairs, and the dictionary. */
  method Assemble(v: Variant, local: Option<string>) returns (r: Result<Record, PageError>)
    requires v.href.Some? && ImageFilename(v.href.value).Some?
    ensures r == Built(v, local)
  {
    if v.span.None? {
      assert !VariantOk(v) && VariantError(v) == NoSpan;
      return Err(NoSpan);
    }
    var quality := Quality(v.span.value);
    if quality.None? {
      assert !VariantOk(v) && VariantError(v) == NoQuality(v.span.value);
      return Err(NoQuality(v.span.value));
    }
    var stats := ProcessStatLines(v.rows);
    if stats.Err? {
      assert !VariantOk(v) && VariantError(v) == BadStats(stats.error);
      return Err(BadStats(stats.error));
    }
    assert VariantOk(v);
    var data := AssignStats(BaseRecord(v.href.value, local, quality.value), stats.value);
    assert data == RecordOf(v, local);
    r := Ok(data);
  }

  /** `variant[key] = value` for each stat pair in turn. */
  method AssignStats(base: Record, pairs: seq<Pair>) returns (data: Record)
    ensures data == PutAll(base, StatFields(pairs))
  {
    data := base;
    var i := 0;
    while i < |pairs|
      invariant 0 <= i <= |pairs|
      invariant data == PutAll(base, StatFields(pairs[..i]))
    {
      assert StatFields(pairs[..i + 1])[..i] == StatFields(pairs[..i]);
      data := Put(data, pairs[i].0, Stat(pairs[i].1));
      i := i + 1;
    }
    assert pairs[..i] == pairs;
  }

  /** The outcome of each variant, in order. */
  function BuiltAll(vs: seq<Variant>, locals: seq<Option<string>>): (os: seq<Result<Record, PageError>>)
    requires |locals| == |vs|
  {
    Map2(vs, locals, Built)
  }

  /** What `process_weapon_variants` gives for the variants whose local
      images are `locals`. */
  function Outcomes(vs: seq<Variant>, locals: seq<Option<string>>): Result<seq<Record>, PageError>
    requires |locals| == |vs|
  {
    Collect(BuiltAll(vs, locals))
  }

  /** The variants all succeed exactly when each one does, and then there
      is one record per variant. */
  lemma OutcomesOk(vs: seq<Variant>, locals: seq<Option<string>>)
    requires |locals| == |vs|
    ensures Outcomes(vs, locals).Ok? <==> forall i | 0 <= i < |vs| :: VariantOk(vs[i])
    ensures Outcomes(vs, locals).Ok? ==> |Outcomes(vs, locals).value| == |vs|
  {
    var os := BuiltAll(vs, locals);
    CollectMeaning(os);
    forall i | 0 <= i < |vs| ensures os[i] == Built(vs[i], locals[i]) {
      Map2At(vs, locals, Built, i);
    }
  }

  /** The records of a successful run are the variants', in order. */
  lemma OutcomesAt(vs: seq<Variant>, locals: seq<Option<string>>, i: nat)
    requires |locals| == |vs| && i < |vs|
    requires Outcomes(vs, locals).Ok?
    ensures VariantOk(vs[i]) && |Outcomes(vs, locals).value| == |vs|
    ensures Outcomes(vs, locals).value[i] == RecordOf(vs[i], locals[i])
  {
    var os := BuiltAll(vs, locals);
    CollectMeaning(os);
    Map2At(vs, locals, Built, i);
  }

  /** A failed run reports the error of its first failing variant. */
  lemma OutcomesError(vs: seq<Variant>, locals: seq<Option<string>>)
    requires |locals| == |vs|
    requires Outcomes(vs, locals).Err?
    ensures exists i | 0 <= i < |vs| ::
      (forall j | 0 <= j < i :: VariantOk(vs[j])) && !VariantOk(vs[i]) && Outcomes(vs, locals).error == VariantError(vs[i])
  {
    var os := BuiltAll(vs, locals);
    CollectMeaning(os);
    var i :| 0 <= i < |os| && (forall j | 0 <= j < i :: os[j].Ok?) && os[i].Err? && Collect(os).error == os[i].error;
    forall j | 0 <= j <= i ensures os[j] == Built(vs[j], locals[j]) {
      Map2At(vs, locals, Built, j);
    }
  }

  /** The variants before a run that has not failed all succeed. */
  lemma PrefixOk(vs: seq<Variant>, locals: seq<Option<string>>, i: nat, records: seq<Record>)
    requires i <= |vs| && |locals| == i
    requires Collect(BuiltAll(vs[..i], locals)) == Ok(records)
    ensures forall j | 0 <= j < i :: VariantOk(vs[j])
  {
    OutcomesOk(vs[..i], locals);
    forall j | 0 <= j < i ensures VariantOk(vs[j]) {
      assert vs[..i][j] == vs[j];
    }
  }

  /** The effect of a run that has not failed before variant `i`, once
      variant `i` fails or the variants run out. */
  lemma RunEffectEnd(d: Disk, root: string, vs: seq<Variant>, locals: seq<Option<string>>, i: nat, records: seq<Record>)
    requires i <= |vs| && |locals| == i
    requires Collect(BuiltAll(vs[..i], locals)) == Ok(records)
    requires i < |vs| ==> !VariantOk(vs[i])
    ensures i < |vs| ==> RunEffect(d, root, vs) == Fold(d, vs[..i + 1], VariantStep(root))
    ensures i == |vs| ==> RunEffect(d, root, vs) == Fold(d, vs[..i], VariantStep(root))
  {
    PrefixOk(vs, locals, i, records);
    RunFoldAt(d, vs, VariantStep(root), VariantOk, i);
    assert vs[..|vs|] == vs;
  }

  /** The local images of a run that has not failed before variant `i`,
      once variant `i` fails or the variants run out. */
  lemma RunLocalsEnd(d: Disk, root: string, vs: seq<Variant>, locals: seq<Option<string>>, i: nat, records: seq<Record>)
    requires i <= |vs| && |locals| == i
    requires Collect(BuiltAll(vs[..i], locals)) == Ok(records)
    requires i < |vs| ==> !VariantOk(vs[i])
    ensures i < |vs| ==>
      RunLocals(d, root, vs) == Trace(d, vs[..i + 1], VariantStep(root), LocalStep(root)) + Padding(|vs| - i - 1, None)
    ensures i == |vs| ==> RunLocals(d, root, vs) == Trace(d, vs[..i], VariantStep(root), LocalStep(root))
  {
    PrefixOk(vs, locals, i, records);
    RunTraceAt(d, vs, VariantStep(root), LocalStep(root), VariantOk, None, i);
    assert vs[..|vs|] == vs;
  }

  /** `process_weapon_variants`: each variant in turn, until one fails. The
      ghost `locals` are the local images computed (`None` for variants not
      reached), each the destination of its variant's file or nothing. */
  method ProcessWeaponVariants(fs: FileSystem, root: string, vs: seq<Variant>)
    returns (r: Result<seq<Record>, PageError>, ghost locals: seq<Option<string>>)
    modifies fs
    ensures |locals| == |vs| && r == Outcomes(vs, locals)
    ensures LocalsOk(root, vs, locals)
    ensures fs.State() == RunEffect(old(fs.State()), root, vs)
    ensures locals == RunLocals(old(fs.State()), root, vs)
    ensures old(fs.files).Keys <= fs.files.Keys && old(fs.dirs) <= fs.dirs
  {
    var records: seq<Record> := [];
    locals := [];
    var i := 0;
    while i < |vs|
      invariant 0 <= i <= |vs| && |locals| == i
      invariant Collect(BuiltAll(vs[..i], locals)) == Ok(records)
      invariant LocalsOk(root, vs[..i], locals)
      invariant fs.State() == Fold(old(fs.State()), vs[..i], VariantStep(root))
      invariant locals == Trace(old(fs.State()), vs[..i], VariantStep(root), LocalStep(root))
    {
      ghost var before := fs.State();
      var one, local := BuildVariant(fs, root, vs[i]);
      FoldStep(old(fs.State()), vs, VariantStep(root), i);
      TraceStep(old(fs.State()), vs, VariantStep(root), LocalStep(root), i);
      assert local == LocalFor(before, root, vs[i]);
      ghost var rest := Padding(|vs| - i - 1, None);
      Map2CollectStep(vs, locals, local, Built, records, rest);
      LocalsStep(root, vs, locals, local, i);
      if one.Err? {
        RunEffectEnd(old(fs.State()), root, vs, locals, i, records);
        RunEffectGrows(old(fs.State()), root, vs);
        RunLocalsEnd(old(fs.State()), root, vs, locals, i, records);
        return Err(one.error), locals + [local] + rest;
      }
      records := records + [one.value];
      locals := locals + [local];
      i := i + 1;
    }
    RunEffectEnd(old(fs.State()), root, vs, locals, i, records);
    RunEffectGrows(old(fs.State()), root, vs);
    RunLocalsEnd(old(fs.State()), root, vs, locals, i, records);
    assert vs[..i] == vs;
    r := Ok(records);
  }

  // ---------------------------------------------------------------------
  // The page
  // ---------------------------------------------------------------------

  /** `variant['class'] = weapon_class; variant['homemade'] = flag` */
  function Tag(rec: Record, cls: string, homemade: bool): Record
  {
    Put(Put(rec, "class", Text(cls)), "homemade", Flag(homemade))
  }

  /** A tagged record holds the class and the flag, and every other key
      as before. */
  lemma TagFields(rec: Record, cls: string, homemade: bool, k: string)
    ensures Get(Tag(rec, cls, homemade), "class") == Some(Text(cls))
    ensures Get(Tag(rec, cls, homemade), "homemade") == Some(Flag(homemade))
    ensures k != "class" && k != "homemade" ==> Get(Tag(rec, cls, homemade), k) == Get(rec, k)
    ensures Keys(rec) <= Keys(Tag(rec, cls, homemade))
    ensures DistinctKeys(rec) ==> DistinctKeys(Tag(rec, cls, homemade))
  {
    PutSpec(rec, "class", Text(cls));
    PutSpec(Put(rec, "class", Text(cls)), "homemade", Flag(homemade));
  }

  /** The variants whose first member gives the class: those before the
      marker, or the fallback tables. */
  function ClassSource(l: Layout): seq<Variant>
  {
    match l
    case Homemade(before, _) => before
    case Tables(ts) => ts
  }

  /** Every variant of the page, in the order the records come out. */
  function AllVariants(l: Layout): seq<Variant>
  {
    match l
    case Homemade(before, after) => before + after
    case Tables(ts) => ts
  }

  /** The number of leading records that are not homemade. */
  function NotHomemade(l: Layout): nat
  {
    |ClassSource(l)|
  }

  predicate PageOk(p: PageInput)
  {
    |ClassSource(p.layout)| > 0 && p.classCell.Some?
      && forall i | 0 <= i < |AllVariants(p.layout)| :: VariantOk(AllVariants(p.layout)[i])
  }

  /** Appends the tagged records to `data`, as the loops of `process_page`
      do. */
  method AppendTagged(data: seq<Record>, recs: seq<Record>, cls: string, homemade: bool)
    returns (out: seq<Record>)
    ensures out == data + TagAll(recs, cls, homemade)
  {
    out := data;
    var i := 0;
    while i < |recs|
      invariant 0 <= i <= |recs|
      invariant out == data + TagAll(recs[..i], cls, homemade)
    {
      assert TagAll(recs[..i + 1], cls, homemade) == TagAll(recs[..i], cls, homemade) + [Tag(recs[i], cls, homemade)];
      out := out + [Tag(recs[i], cls, homemade)];
      i := i + 1;
    }
    assert recs[..i] == recs;
  }

  /** Every record tagged alike. */
  function TagAll(recs: seq<Record>, cls: string, homemade: bool): (r: seq<Record>)
    ensures |r| == |recs|
  {
    seq(|recs|, i requires 0 <= i < |recs| => Tag(recs[i], cls, homemade))
  }

  /** A run of records tagged alike, or the error that ended it. */
  function TaggedOutcome(o: Result<seq<Record>, PageError>, cls: string, homemade: bool): Result<seq<Record>, PageError>
  {
    if o.Err? then Err(o.error) else Ok(TagAll(o.value, cls, homemade))
  }

  /** The records before the marker, tagged False, then those after it,
      tagged True; the first error ends the run. */
  function HomemadeOutcome(before: seq<Variant>, after: seq<Variant>, l1: seq<Option<string>>,
                           l2: seq<Option<string>>, cls: string): Result<seq<Record>, PageError>
    requires |l1| == |before| && |l2| == |after|
  {
    var o1 := Outcomes(before, l1);
    if o1.Err? then Err(o1.error)
    else
      var o2 := Outcomes(after, l2);
      if o2.Err? then Err(o2.error)
      else Ok(TagAll(o1.value, cls, false) + TagAll(o2.value, cls, true))
  }

  /** What `process_page` gives for a page whose variants have the local
      images `locals`: the class is read before any variant is processed. */
  function PageOutcome(p: PageInput, locals: seq<Option<string>>): Result<seq<Record>, PageError>
    requires |locals| == |AllVariants(p.layout)|
  {
    if |ClassSource(p.layout)| == 0 then Err(NoVariants)
    else if p.classCell.None? then Err(NoClassCell)
    else
      var cls := ClassText(p.classCell.value);
      match p.layout
      case Tables(ts) => TaggedOutcome(Outcomes(ts, locals), cls, false)
      case Homemade(before, after) =>
        HomemadeOutcome(before, after, locals[..|before|], locals[|before|..], cls)
  }

  /** The fallback branch: every table variant, tagged False. */
  method TablesBranch(fs: FileSystem, root: string, ts: seq<Variant>, cls: string)
    returns (r: Result<seq<Record>, PageError>, ghost locals: seq<Option<string>>)
    modifies fs
    ensures |locals| == |ts| && r == TaggedOutcome(Outcomes(ts, locals), cls, false)
    ensures LocalsOk(root, ts, locals)
    ensures fs.State() == RunEffect(old(fs.State()), root, ts)
    ensures locals == RunLocals(old(fs.State()), root, ts)
  {
    var data: seq<Record> := [];
    var found;
    found, locals := ProcessWeaponVariants(fs, root, ts);
    if found.Err? {
      return Err(found.error), locals;
    }
    ghost var t := TagAll(found.value, cls, false);
    data := AppendTagged(data, found.value, cls, false);
    assert data == t by { assert [] + t == t; }
    r := Ok(data);
  }

  /** The two runs around the marker act on the file system, and give
      local images, as one run over all the variants: the second starts
      only when the first succeeds. */
  lemma MarkerEffect(d: Disk, root: string, before: seq<Variant>, after: seq<Variant>, l1: seq<Option<string>>)
    requires |l1| == |before|
    ensures Outcomes(before, l1).Err? ==> RunEffect(d, root, before + after) == RunEffect(d, root, before)
    ensures Outcomes(before, l1).Ok? ==>
      RunEffect(d, root, before + after) == RunEffect(RunEffect(d, root, before), root, after)
    ensures Outcomes(before, l1).Err? ==>
      RunLocals(d, root, before + after) == RunLocals(d, root, before) + Padding(|after|, None)
    ensures Outcomes(before, l1).Ok? ==>
      RunLocals(d, root, before + after) == RunLocals(d, root, before) + RunLocals(RunEffect(d, root, before), root, after)
  {
    OutcomesOk(before, l1);
    RunFoldAppend(d, before, after, VariantStep(root), VariantOk);
    RunTraceAppend(d, before, after, VariantStep(root), LocalStep(root), VariantOk, None);
  }

  /** The marker branch: the variants before the marker, tagged False, then
      those after it, tagged True. */
  method HomemadeBranch(fs: FileSystem, root: string, before: seq<Variant>, after: seq<Variant>, cls: string)
    returns (r: Result<seq<Record>, PageError>, ghost l1: seq<Option<string>>, ghost l2: seq<Option<string>>)
    modifies fs
    ensures |l1| == |before| && |l2| == |after| && r == HomemadeOutcome(before, after, l1, l2, cls)
    ensures LocalsOk(root, before, l1) && LocalsOk(root, after, l2)
    ensures fs.State() == RunEffect(old(fs.State()), root, before + after)
    ensures l1 + l2 == RunLocals(old(fs.State()), root, before + after)
  {
    var data: seq<Record> := [];
    var first;
    first, l1 := ProcessWeaponVariants(fs, root, before);
    if first.Err? {
      MarkerEffect(old(fs.State()), root, before, after, l1);
      NoLocalsOk(root, after);
      return Err(first.error), l1, Padding(|after|, None);
    }
    ghost var t1 := TagAll(first.value, cls, false);
    data := AppendTagged(data, first.value, cls, false);
    assert data == t1 by { assert [] + t1 == t1; }
    var second;
    second, l2 := ProcessWeaponVariants(fs, root, after);
    MarkerEffect(old(fs.State()), root, before, after, l1);
    if second.Err? {
      return Err(second.error), l1, l2;
    }
    data := AppendTagged(data, second.value, cls, true);
    r := Ok(data);
  }

  /** `process_page` on the variants the DOM queries found. */
  method ProcessPage(fs: FileSystem, root: string, p: PageInput)
    returns (r: Result<seq<Record>, PageError>, ghost locals: seq<Option<string>>)
    modifies fs
    ensures |locals| == |AllVariants(p.layout)| && r == PageOutcome(p, locals)
    ensures LocalsOk(root, AllVariants(p.layout), locals)
    ensures |ClassSource(p.layout)| == 0 || p.classCell.None? ==> unchanged(fs)
    ensures fs.State() == PageEffect(old(fs.State()), root, p)
    ensures locals == PageLocals(old(fs.State()), root, p)
  {
    ghost var none := Padding(|AllVariants(p.layout)|, None);
    NoLocalsOk(root, AllVariants(p.layout));
    var found := ClassSource(p.layout);
    if |found| == 0 {
      return Err(NoVariants), none;
    }
    if p.classCell.None? {
      return Err(NoClassCell), none;
    }
    var weaponClass := ClassText(p.classCell.value);
    match p.layout
    case Tables(ts) =>
      r, locals := TablesBranch(fs, root, ts, weaponClass);
    case Homemade(before, after) =>
      ghost var l1, l2;
      r, l1, l2 := HomemadeBranch(fs, root, before, after, weaponClass);
      locals := l1 + l2;
      assert locals[..|before|] == l1 && locals[|before|..] == l2;
      LocalsAppend(root, before, after, l1, l2);
  }

  /** Every variant before and after the marker succeeds exactly when every
      variant of the page does. */
  lemma AllOkSplit(before: seq<Variant>, after: seq<Variant>)
    ensures (forall i | 0 <= i < |before + after| :: VariantOk((before + after)[i])) <==>
      (forall i | 0 <= i < |before| :: VariantOk(before[i])) && (forall i | 0 <= i < |after| :: VariantOk(after[i]))
  {
    var vs := before + after;
    if forall i | 0 <= i < |vs| :: VariantOk(vs[i]) {
      forall i | 0 <= i < |before| ensures VariantOk(before[i]) {
        assert vs[i] == before[i];
      }
      forall i | 0 <= i < |after| ensures VariantOk(after[i]) {
        assert vs[|before| + i] == after[i];
      }
    }
    if (forall i | 0 <= i < |before| :: VariantOk(before[i])) && (forall i | 0 <= i < |after| :: VariantOk(after[i])) {
      forall i | 0 <= i < |vs| ensures VariantOk(vs[i]) {
        if i < |before| {
          assert vs[i] == before[i];
        } else {
          assert vs[i] == after[i - |before|];
        }
      }
    }
  }

  /** A page succeeds exactly when it has a first variant, a class cell and
      no failing variant. */
  lemma PageOkIff(p: PageInput, locals: seq<Option<string>>)
    requires |locals| == |AllVariants(p.layout)|
    ensures PageOutcome(p, locals).Ok? <==> PageOk(p)
  {
    if |ClassSource(p.layout)| > 0 && p.classCell.Some? {
      match p.layout
      case Tables(ts) =>
        OutcomesOk(ts, locals);
      case Homemade(before, after) =>
        var n := |before|;
        OutcomesOk(before, locals[..n]);
        OutcomesOk(after, locals[n..]);
        AllOkSplit(before, after);
    }
  }

  /** A successful marker page is the two runs of records, tagged. */
  lemma HomemadeParts(before: seq<Variant>, after: seq<Variant>, l1: seq<Option<string>>,
                      l2: seq<Option<string>>, cls: string)
    requires |l1| == |before| && |l2| == |after|
    requires HomemadeOutcome(before, after, l1, l2, cls).Ok?
    ensures Outcomes(before, l1).Ok? && Outcomes(after, l2).Ok?
    ensures |Outcomes(before, l1).value| == |before| && |Outcomes(after, l2).value| == |after|
    ensures HomemadeOutcome(before, after, l1, l2, cls).value ==
      TagAll(Outcomes(before, l1).value, cls, false) + TagAll(Outcomes(after, l2).value, cls, true)
  {
    OutcomesOk(before, l1);
    OutcomesOk(after, l2);
  }

  /** The records of a marker page: those before the marker tagged False,
      then those after it tagged True. */
  lemma HomemadeRecord(before: seq<Variant>, after: seq<Variant>, l1: seq<Option<string>>,
                       l2: seq<Option<string>>, cls: string, i: nat)
    requires |l1| == |before| && |l2| == |after|
    requires HomemadeOutcome(before, after, l1, l2, cls).Ok? && i < |before| + |after|
    ensures |HomemadeOutcome(before, after, l1, l2, cls).value| == |before| + |after|
    ensures i < |before| ==>
      && VariantOk(before[i])
      && HomemadeOutcome(before, after, l1, l2, cls).value[i] == Tag(RecordOf(before[i], l1[i]), cls, false)
    ensures i >= |before| ==>
      && VariantOk(after[i - |before|])
      && HomemadeOutcome(before, after, l1, l2, cls).value[i] ==
         Tag(RecordOf(after[i - |before|], l2[i - |before|]), cls, true)
  {
    var n := |before|;
    HomemadeParts(before, after, l1, l2, cls);
    var t1, t2 := TagAll(Outcomes(before, l1).value, cls, false), TagAll(Outcomes(after, l2).value, cls, true);
    if i < n {
      OutcomesAt(before, l1, i);
      assert (t1 + t2)[i] == t1[i];
    } else {
      OutcomesAt(after, l2, i - n);
      assert (t1 + t2)[i] == t2[i - n];
    }
  }

  /** The records of a fallback page: every table variant tagged False. */
  lemma TablesRecord(ts: seq<Variant>, locals: seq<Option<string>>, cls: string, i: nat)
    requires |locals| == |ts| && i < |ts|
    requires TaggedOutcome(Outcomes(ts, locals), cls, false).Ok?
    ensures VariantOk(ts[i]) && |TaggedOutcome(Outcomes(ts, locals), cls, false).value| == |ts|
    ensures TaggedOutcome(Outcomes(ts, locals), cls, false).value[i] == Tag(RecordOf(ts[i], locals[i]), cls, false)
  {
    OutcomesAt(ts, locals, i);
  }

  /** The records of a marker page, indexed over the whole page. */
  lemma MarkerRecord(before: seq<Variant>, after: seq<Variant>, locals: seq<Option<string>>, cls: string, i: nat)
    requires |locals| == |before| + |after| && i < |before| + |after|
    requires HomemadeOutcome(before, after, locals[..|before|], locals[|before|..], cls).Ok?
    ensures VariantOk((before + after)[i])
    ensures |HomemadeOutcome(before, after, locals[..|before|], locals[|before|..], cls).value| == |before| + |after|
    ensures HomemadeOutcome(before, after, locals[..|before|], locals[|before|..], cls).value[i] ==
      Tag(RecordOf((before + after)[i], locals[i]), cls, i >= |before|)
  {
    var n := |before|;
    HomemadeRecord(before, after, locals[..n], locals[n..], cls, i);
    if i < n {
      assert (before + after)[i] == before[i] && locals[..n][i] == locals[i];
    } else {
      assert (before + after)[i] == after[i - n] && locals[n..][i - n] == locals[i];
    }
  }

  /** A successful page's record `i`, as `PageRecord` states it. */
  ghost predicate RecordAt(p: PageInput, locals: seq<Option<string>>, i: nat)
    requires |locals| == |AllVariants(p.layout)|
    requires PageOutcome(p, locals).Ok? && i < |AllVariants(p.layout)|
  {
    && p.classCell.Some? && VariantOk(AllVariants(p.layout)[i])
    && |PageOutcome(p, locals).value| == |AllVariants(p.layout)|
    && PageOutcome(p, locals).value[i] ==
       Tag(RecordOf(AllVariants(p.layout)[i], locals[i]), ClassText(p.classCell.value), i >= NotHomemade(p.layout))
  }

  lemma TablesPageRecord(p: PageInput, locals: seq<Option<string>>, i: nat)
    requires p.layout.Tables? && |locals| == |AllVariants(p.layout)|
    requires PageOutcome(p, locals).Ok? && i < |AllVariants(p.layout)|
    ensures RecordAt(p, locals, i)
  {
    var ts := p.layout.tables;
    assert |ts| > 0 && p.classCell.Some?;
    var cls := ClassText(p.classCell.value);
    var o := Outcomes(ts, locals);
    assert PageOutcome(p, locals) == TaggedOutcome(o, cls, false);
    TablesRecord(ts, locals, cls, i);
  }

  lemma MarkerPageRecord(p: PageInput, locals: seq<Option<string>>, i: nat)
    requires p.layout.Homemade? && |locals| == |AllVariants(p.layout)|
    requires PageOutcome(p, locals).Ok? && i < |AllVariants(p.layout)|
    ensures RecordAt(p, locals, i)
  {
    var cls := ClassText(p.classCell.value);
    var n := |p.layout.before|;
    assert PageOutcome(p, locals) == HomemadeOutcome(p.layout.before, p.layout.after, locals[..n], locals[n..], cls);
    MarkerRecord(p.layout.before, p.layout.after, locals, cls, i);
  }

  /** A page that succeeds has one record per variant, in order: the
      variant's dictionary with the one class read from the first variant,
      and homemade True exactly past the marker. */
  lemma PageRecord(p: PageInput, locals: seq<Option<string>>, i: nat)
    requires |locals| == |AllVariants(p.layout)|
    requires PageOutcome(p, locals).Ok? && i < |AllVariants(p.layout)|
    ensures p.classCell.Some? && VariantOk(AllVariants(p.layout)[i])
    ensures |PageOutcome(p, locals).value| == |AllVariants(p.layout)|
    ensures PageOutcome(p, locals).value[i] ==
      Tag(RecordOf(AllVariants(p.layout)[i], locals[i]), ClassText(p.classCell.value), i >= NotHomemade(p.layout))
  {
    if p.layout.Tables? {
      TablesPageRecord(p, locals, i);
    } else {
      MarkerPageRecord(p, locals, i);
    }
  }

  /** The class and homemade fields of each record of a page. */
  lemma PageFields(p: PageInput, locals: seq<Option<string>>, i: nat)
    requires |locals| == |AllVariants(p.layout)|
    requires PageOutcome(p, locals).Ok? && i < |AllVariants(p.layout)|
    ensures p.classCell.Some? && |PageOutcome(p, locals).value| == |AllVariants(p.layout)|
    ensures Get(PageOutcome(p, locals).value[i], "class") == Some(Text(ClassText(p.classCell.value)))
    ensures Get(PageOutcome(p, locals).value[i], "homemade") == Some(Flag(i >= NotHomemade(p.layout)))
  {
    PageRecord(p, locals, i);
    var vs := AllVariants(p.layout);
    TagFields(RecordOf(vs[i], locals[i]), ClassText(p.classCell.value), i >= NotHomemade(p.layout), "class");
  }
}
