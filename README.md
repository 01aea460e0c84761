# KenshiWikiScraper core in Dafny

KenshiWikiScraper (`main.py`) reads weapon pages of the Kenshi wiki and
builds a SQLite database from them. This project models its core and proves
properties about it. Web pages, HTTP and SQLite are not part of it: the
model takes what they return as inputs.

The core has these parts:

- **Cell tokenizer** (`tokenizer.dfy`, module `Tokenizer`). This covers the
  cleaning pass `re.sub(to_strip, "", text)` and one hand-written matcher per
  alternative of `data_parser`: NAME, INTEGER, FLOAT, MULTIPLIER, PERCENTAGE
  and WEIGHT.
  - `$` is kept with Python's meaning: it matches at the end of the text or
    just before a final newline.
  - FLOAT's unescaped `.` matches any character except a newline.
  - WEIGHT's lookahead `(?= kg)` is checked but not consumed.
  - A scan tries the alternatives in source order at each position, as
    `re.finditer` does.
  - Payloads: INTEGER is the lexeme with commas removed, read as an
    integer. WEIGHT is the digit run. FLOAT, MULTIPLIER and PERCENTAGE
    are checked against the grammar `float()` accepts. When it accepts,
    the value is the text without the suffix, so the model has no
    floating point. When it refuses, the scan fails with `BadFloat`, the
    `ValueError` of the source.
- **Stat scanner** (`stat_lines.dfy`, module `StatLines`). This is
  `process_stat_lines` as a state machine over rows, cells and matches. The
  state is `name`, `oldname` and the pairs yielded so far.
  - It is specified by functions.
  - It is implemented by methods with the source's nested loops.
  - A value met before any label ends the scan with `UnboundLabel`. This
    is the `UnboundLocalError` of the source. A FLOAT match checks the
    label before its number, while MULTIPLIER and PERCENTAGE read their
    number first, as the source's statements do.
- **Text extractors** (`extractors.dfy`, module `Extractors`):
  - label normalisation;
  - the quality text after `#`;
  - the class text between brackets;
  - the third-from-last `/` segment of an image link;
  - the last URL segment as the page name;
  - `%27` decoded to an apostrophe.
- **Images** (`images.dfy`, module `Images`). `save_image` is a method on
  a `FileSystem` class: files, directories and fetched links are its
  fields. Its effect is also a function, `SaveEffect`, on a `Disk` value
  holding the same three things. `handle_image_result` is a function. The
  HTTP response is a parameter.
- **Page assembly** (`page.dfy`, module `Page`). `process_weapon_variants`
  and `process_page` take what the DOM queries would find: each variant's
  image link and first `span` text (either may be missing), row texts and
  image response, and the class cell. A missing link or span is the
  `TypeError` or `AttributeError` of the source, `NoImageLink` or
  `NoSpan` in the model. They return the variant dictionaries in order, tagged with
  the page's class and the homemade flag. Their effect on the file system,
  and the local image each variant records, are stated as one run over the
  variants that starts from the file system as it was and stops after the
  first failing variant.
- **Load side** (`load.dfy`, module `Load`):
  - the main loop that gathers every page's records under its page name;
  - the four `collect_*` loops;
  - the manual class override for `Holed_Sabre`.
- **SQL text** (`sql.dfy`, module `Sql`):
  - the schema builders `make_table_schema`, `make_id`, `make_column` and
    `make_foreign_key`;
  - the bulk `insert_weapon_*` builders;
  - the `values` dictionary and INSERT statement of
    `insert_weapon_variant`;
  - the loops of `insert_weapons`;
  - the `ensure_schema` version gate on a `Database` class.
- **Support modules**:
  - `wrappers.dfy`: `Option`, `Result`, and `Collect`, the first-error
    sequencing of a list of results. It also holds generic runs that stop
    at their first failure: what they keep (`Steps`, `Chain`), how far they
    get (`Reach`), the state they leave (`Fold`, `RunFold`) and what each
    step reports (`Trace`, `RunTrace`).
  - `strings.dfy`: `str.split`, `str.join`, `strip`, `replace` and lower-casing.
  - `odict.dfy`: an insertion-ordered Python `dict`, written as a sequence
    of pairs.

Modelling choices:

- A Python exception that ends the run is an `Err` value. Its type names
  the exception. The insert loops also return the inserts they executed
  before a lookup failed, because each statement is stored as soon as it
  runs.
- The lookup tables that `insert_weapons` and `insert_weapon_variant`
  query are maps from stored text to row id, in a value of type `Ids`.
  A text that is not in the table is the `None` that makes `fetchone()[0]`
  (or `len(None)`) raise. The model gives it as `NoRow(table)`.
- `os.path.relpath` is a function parameter `rel`.
- A Python `set` passed to a bulk insert is a sequence in the set's
  iteration order.

Quirks of the source that the model keeps and proves:

- `case Failure(ImageExistsError)` in `handle_image_result` is a capture
  pattern, so it matches every `Failure`. An HTTP failure therefore gives
  `None` rather than `"none"`, and the `"none"` case is never reached.
- `save_image` falls through and returns `None` for a 200 response with an
  empty body, and also for a status outside 400..599 that is not 200.
- A value that shares a cell with a new NAME is still labelled with the
  previous label, because `oldname` is refreshed only at the start of a cell.

## Model

| member | source | states |
|---|---|---|
| Tokenizer.CleanNoControl | main.py:22 | cleaning removes every newline and tab and never lengthens the text |
| Tokenizer.CleanKeeps | main.py:247 | a text with no `c`, newline, tab or edge space comes out of the cleaning pass unchanged |
| Tokenizer.NameEnd | main.py:24 | the NAME matcher returns the end of the longest `-[A-Za-z ]+` run at the position, and nothing when no NAME match exists |
| Tokenizer.IntegerEnd | main.py:25 | the INTEGER matcher returns the one end a signed `[\d,]+` run anchored by `$` can have, and nothing when there is none |
| Tokenizer.FloatEnd | main.py:26 | the FLOAT matcher returns the one end `\d+.\d+$` can have (any character for the dot), and nothing when there is none |
| Tokenizer.FloatCases | main.py:26 | a FLOAT match is a digit run, one non-newline character and a digit run up to the end, or a digit run of at least three that backtracks |
| Tokenizer.MultiplierEnd | main.py:27 | the MULTIPLIER matcher returns the one end of a signed `[\d.]+` run followed by `x`, and nothing when there is none |
| Tokenizer.PercentageEnd | main.py:28 | the PERCENTAGE matcher returns the one end of a signed `[\d.]+` run followed by `%`, and nothing when there is none |
| Tokenizer.WeightEnd | main.py:29 | the WEIGHT matcher returns the end of the digit run when ` kg` follows it, and nothing otherwise |
| Tokenizer.MatchEnd | main.py:24-29 | each alternative's matcher returns a nonempty match and the greatest end its pattern admits |
| Tokenizer.AlternationOrder | main.py:24-29 | the match chosen at a position is an alternative that matches there, every alternative earlier in source order fails there, and no match at all means no alternative matches |
| Tokenizer.ScanChoices | main.py:250 | every match `finditer` yields is the alternation's choice at its own start position |
| Tokenizer.ScanOrdered | main.py:250 | the yielded matches lie inside the text, are nonempty, are in order and do not overlap |
| Tokenizer.ScanGaps | main.py:250 | at every position no yielded match covers, no alternative matches |
| Tokenizer.AnchoredLast | main.py:25-26 | an INTEGER or FLOAT match ends at the end of the text and is the last match of the scan |
| Tokenizer.GroupNonEmpty | main.py:251 | every match's group text is nonempty, so the walrus test of a NAME group is true exactly for NAME matches |
| Tokenizer.IntOf | main.py:257 | on the comma-stripped INTEGER lexemes it receives (no whitespace, no underscores), `int()` succeeds exactly for an optionally signed nonempty digit string |
| Tokenizer.IntOfShowInt | main.py:257 | `int()` reads back the decimal text of every integer |
| Tokenizer.IntegerPayloadDigits | main.py:256-257 | an INTEGER value is `int` of the lexeme with commas removed, and exists exactly when the lexeme holds a digit |
| Tokenizer.Payload | main.py:253-271 | WEIGHT always has an integer value; FLOAT, MULTIPLIER and PERCENTAGE have a value exactly when `float()` accepts their number (the lexeme, or the lexeme without its `x` or `%`), and that value is the number |
| Tokenizer.FloatLexemeAccepts | main.py:255 | a digit run, one middle character and a digit run is accepted by `float()` exactly when the middle character is a digit, `.`, `_`, `e` or `E` |
| Tokenizer.FloatNumberAccepts | main.py:255 | `float()` accepts a FLOAT lexeme exactly when all its characters are digits, `.`, `_`, `e` or `E` |
| Tokenizer.DecimalRunAccepts | main.py:261-265 | `float()` accepts a signed run of digits and dots exactly when it holds a digit and at most one dot |
| Tokenizer.SuffixedNumberAccepts | main.py:261-265 | the number of a MULTIPLIER or PERCENTAGE match is accepted by `float()` exactly when it holds a digit and at most one dot |
| Tokenizer.WholeInteger | main.py:25 | a cleaned cell that is one INTEGER lexeme scans as exactly that INTEGER match |
| Tokenizer.WholeFloat | main.py:26 | a cleaned cell that is one FLOAT lexeme, and not all integer characters, scans as exactly that FLOAT match |
| Tokenizer.WholeMultiplier | main.py:27 | a cleaned cell that is one MULTIPLIER lexeme scans as exactly that match, never as INTEGER |
| Tokenizer.WholePercentage | main.py:28 | a cleaned cell that is one PERCENTAGE lexeme scans as exactly that match, never as INTEGER |
| Tokenizer.DigitsThenKg | main.py:29 | `d kg` for a digit run `d` scans as one WEIGHT match over the digits alone |
| Tokenizer.PercentExample | main.py:28 | `+10%` scans as a single PERCENTAGE match |
| Tokenizer.NegativePercentExample | main.py:28 | `-5%` scans as a single PERCENTAGE match, not as a NAME |
| Tokenizer.MultiplierExample | main.py:27 | `1.5x` scans as a single MULTIPLIER match |
| Tokenizer.WeightExample | main.py:29 | `3 kg` scans as one WEIGHT match over `3` |
| Tokenizer.FloatExample | main.py:26 | `12.5` scans as a single FLOAT match |
| Tokenizer.IntegerExample | main.py:25 | `1,200` scans as one INTEGER match with value 1200 |
| Tokenizer.NameExample | main.py:24 | `-Blunt Damage` scans as one NAME match |
| Tokenizer.NameThenDigits | main.py:24-25 | `-<label> <digits>` is left alone by cleaning and scans as a NAME holding the label and its trailing space, then an INTEGER over the digits |
| StatLines.Yield | main.py:254-255 | a yield succeeds exactly when a label has been bound |
| StatLines.ScanMatches | main.py:250-271 | the loop over a cell's matches gives the scanner state the match-by-match specification gives |
| StatLines.ScanCells | main.py:246-271 | the loop over cells, with the cleaning and the label refresh, gives the specified state |
| StatLines.ProcessStatLines | main.py:235-271 | the nested loops over rows `[3:]`, cells and matches yield exactly the pairs of the specification, or its error |
| StatLines.RowsSticky | main.py:242-271 | once a row raises, the rest of the rows change nothing |
| StatLines.MatchesKeepLabel | main.py:250-271 | within a cell every pair carries the label bound at the cell's start, and afterwards `name` is set exactly when the last match was a NAME |
| StatLines.CellLabel | main.py:248-259 | every pair a cell yields is labelled with the normalised `name` when `name` was truthy at the cell's start, else with the previous `oldname` |
| StatLines.KeysAreLabels | main.py:249 | every yielded key is a normalised label: nonempty lower-case ASCII letters and underscores |
| StatLines.HeaderRowsIgnored | main.py:242 | the first three rows never affect the result, and a table of three rows yields nothing |
| StatLines.ValueBeforeLabel | main.py:248-255 | a value met before any label has been seen is an error, not a pair |
| StatLines.ValueFirstFails | main.py:242-255 | a first scanned row that opens with a digit cell fails with the unbound label, whatever follows |
| StatLines.LabelRefreshedOnlyAtCellStart | main.py:248-251 | in cells `-X` then `-Y d`, the value `d` is labelled X, not Y |
| StatLines.LabelCarriedAcrossRows | main.py:239-249 | a label stays in force across rows: values in later rows keep the last label |
| StatLines.FloatStat | main.py:253-255 | a labelled FLOAT cell yields one pair of the label and the FLOAT lexeme when `float()` accepts it, and otherwise fails with `BadFloat` |
| StatLines.FloatRangeFails | main.py:253-255 | a labelled cell `10-15` is a FLOAT match that `float()` refuses, so the scan fails with `BadFloat("10-15")` |
| Extractors.NormalizeLabel | main.py:249 | the label keeps its length, spaces become underscores, ASCII capitals become lower case, and no space or capital remains |
| Extractors.NormalizeIdempotent | main.py:249 | normalising twice is normalising once |
| Extractors.NormalizeNameText | main.py:24 | a NAME text normalises to a valid key |
| Extractors.Quality | main.py:217 | reading the quality fails exactly when the span has no `#` |
| Extractors.QualityRoundTrip | main.py:217 | `prefix#grade]` gives back `grade` |
| Extractors.ClassText | main.py:170 | the class text is empty or neither starts with `[` nor ends with `]`, and is never longer than the cell |
| Extractors.ClassRoundTrip | main.py:186 | `[c]` gives back `c` |
| Extractors.ClassOfBlank | main.py:170 | a blank class cell gives the empty class, the one `possible_classes.discard('')` removes |
| Extractors.ImageFilename | main.py:212 | the file name has no `/` |
| Extractors.ImageFilenameOfJoin | main.py:212 | for a link of at least three `/` segments the file name is the third from last |
| Extractors.ImageFilenameShort | main.py:212 | a link of fewer than three segments fails with the index error |
| Extractors.PageName | main.py:643 | the page name has no `/` |
| Extractors.PageNameOfJoin | main.py:643 | the page name is the last `/` segment of the URL |
| Extractors.DecodeWithoutEscape | main.py:644 | a name without `%27` is unchanged by decoding |
| Extractors.DecodeLeavesNoEscape | main.py:487 | a decoded name holds no `%27` |
| ODict.PutSpec | main.py:221 | assigning a key stores the value under it, keeps every other key, keeps the key order and appends a new key last |
| ODict.GetPutAll | main.py:220-221 | after assigning pairs in order, a key holds the value of its last pair, or its earlier value when no pair names it |
| Images.Filename | main.py:76-85 | only `ImageExistsError` carries a file name |
| Images.HandleImageResult | main.py:274-281 | the local image is a success's path or an existing file's path, and is `None` exactly for no result or an HTTP failure |
| Images.NoneCaseUnreachable | main.py:278-281 | every `Failure` is handled by the capture case, so `"none"` could only come from a file named `none` |
| Images.PathJoin | main.py:289-290 | an absolute second part replaces the first; otherwise the result starts with the first part and ends with the second |
| Images.DestinationInImagesDir | main.py:289-290 | a relative file name lands at `<root>/images/<name>` |
| Images.DestinationInjective | main.py:290 | two relative file names never share a destination |
| Images.SaveOutcome | main.py:296-321 | success exactly for a new file with a completed download, a failure carrying the path for an existing file, and `None` exactly when nothing raised and nothing was saved |
| Images.LocalImage | main.py:213-214 | a variant's local image is the destination when the file existed or was downloaded, and `None` otherwise |
| Images.SaveEffect | main.py:296-315 | saving removes no file or directory, fetches at most one link, and that link is the image's, after every earlier fetch |
| Images.SavedNotRefetched | main.py:296-321 | once an image is saved, saving the same file name again changes nothing and fetches nothing |
| Images.FileSystem.SaveImage | main.py:284-321 | an existing destination changes nothing and fetches nothing; otherwise a missing directory is created, the link is fetched once, and only a completed download writes the file; the new state is `SaveEffect` of the old |
| Page.VariantFields | main.py:211-221 | a variant dictionary has `image_url`, `local_image` and `quality` first and no repeated key; a stat key holds its last pair's value, and any other key its base value |
| Page.Built | main.py:205-226 | a variant gives a dictionary exactly when it has an image link with a file name, a span with a quality, and stat lines that succeed; otherwise it gives the first of these errors in source order |
| Page.VariantEffect | main.py:208-213 | a variant removes no file or directory and fetches at most one link, its own image link |
| Page.LocalFor | main.py:212-214 | a variant's local image is its destination when the file was there or the download completed, and `None` otherwise or when it fails before the download |
| Page.BuildVariant | main.py:205-221 | one variant's outcome matches the specification; its local image is `LocalFor` the file system before it; the file system afterwards is `VariantEffect` of the one before, so without a link or file name nothing changes |
| Page.LocalsStep | main.py:197-214 | one more variant whose local image is its destination or `None` keeps every local image so far allowed |
| Page.LocalsAppend | main.py:163-182 | the local images of the two halves of a homemade page together are allowed for the whole page |
| Page.AssignStats | main.py:220-221 | assigning the stat pairs in order gives the dictionary the ordered-dict specification gives |
| Wrappers.Reach | main.py:197-232 | a run reaches at most every element, at least one when there is one, and stops short only after a failing element |
| Wrappers.ReachAt | main.py:197-232 | a run whose first failure is element `i` reaches exactly `i + 1` elements |
| Wrappers.ReachPassed | main.py:197-232 | every element before the last one reached succeeds |
| Wrappers.ReachAppend | main.py:171-182 | a run over two groups reaches into the second exactly when the whole first group succeeds |
| Wrappers.FoldAppend | main.py:171-182 | applying the steps of two groups is applying the first's, then the second's from where the first left off |
| Wrappers.RunFoldAt | main.py:197-232 | a run that first fails at element `i` leaves the state of the steps up to and including `i`; one that never fails, the state of all |
| Wrappers.RunFoldAppend | main.py:171-182 | two runs one after another leave the state of one run over both groups, and the second run happens only when the first has no failure |
| Wrappers.TraceAt | main.py:213-214 | each step's report is made on the state the earlier steps left |
| Wrappers.TraceAppend | main.py:171-182 | the reports over two groups are the first's, then the second's from the state the first left |
| Wrappers.RunTraceAt | main.py:197-232 | a run that first fails at element `i` reports for the elements up to and including `i`, then nothing for the rest |
| Wrappers.RunTraceAppend | main.py:171-182 | two runs one after another report as one run over both groups, the second reporting nothing when the first fails |
| Page.EffectGrows | main.py:197-213 | a sequence of variants removes no file or directory and fetches at most one link per variant, after the earlier fetches |
| Page.FetchedLinks | main.py:208-213 | every link the variants fetch is the image link of one of them |
| Page.RunLocalsAt | main.py:197-214 | in a run, each variant reached gets the local image `LocalFor` gives on the file system the variants before it left, and the variants not reached get none |
| Page.ProcessWeaponVariants | main.py:195-232 | the generator's records are the specification's records in order, or its first error; the local images are `RunLocals` of the file system at the start; the file system afterwards carries the effects of the variants reached, up to and including the first failing one |
| Page.OutcomesOk | main.py:197-232 | the run succeeds exactly when every variant succeeds, with one record per variant |
| Page.OutcomesAt | main.py:197-232 | record `i` is variant `i`'s dictionary |
| Page.OutcomesError | main.py:197-232 | a failed run reports the error of the first failing variant |
| Page.TagFields | main.py:172-173 | tagging sets `class` and `homemade`, keeps every other key and its value, and keeps keys distinct |
| Page.AppendTagged | main.py:171-174 | the loop appends every record, tagged, to `data` in order |
| Page.TablesBranch | main.py:184-190 | without a marker, every table variant comes out tagged with the class and homemade False; the local images and the file system afterwards are those of one run over the tables |
| Page.MarkerEffect | main.py:171-182 | the two loops around the marker act on the file system and give local images as one run over all the variants, the second loop starting only when the first succeeds |
| Page.HomemadeBranch | main.py:163-182 | with a marker, the variants before it come out tagged False, then those after it tagged True; the local images and the file system afterwards are those of one run over both groups |
| Page.ProcessPage | main.py:153-192 | the page's records are the specification's; the local images are `PageLocals` and the file system afterwards `PageEffect` of the file system at the start, so a page without variants or a class cell touches no file |
| Page.PageEffectOk | main.py:153-192 | on a page that succeeds, every variant's image is saved in turn |
| Page.PageOkIff | main.py:153-192 | a page succeeds exactly when it has a first variant and a class cell and every variant succeeds |
| Page.HomemadeRecord | main.py:163-182 | in the marker branch, record `i` is the `i`-th variant before the marker tagged False, or the matching variant after it tagged True |
| Page.PageRecord | main.py:153-192 | record `i` of a page is variant `i`'s dictionary tagged with the page's class, and is homemade exactly from the marker on |
| Page.PageFields | main.py:170-190 | every record of a page holds the single class read from the class cell, and `homemade` is True exactly from the marker on |
| Load.Gather | main.py:640-645 | the name set holds exactly the decoded page names, and the data dict is every page's records assigned in order under its raw name |
| Load.CompleteData | main.py:645 | the data dict has one entry per distinct page name, holding the records of the last URL with that name |
| Load.CollectDataKeys | main.py:350-354 | the key set is the union of every weapon's first-variant keys, and an empty weapon raises the index error |
| Load.FirstClass | main.py:360 | `weapon[0]['class']` succeeds exactly for a nonempty weapon whose first variant has a class |
| Load.CollectClasses | main.py:357-361 | the class set holds exactly every weapon's first-variant class, or the first weapon's failure |
| Load.CollectEvery | main.py:364-377 | the quality and image sets hold exactly the key's value in every variant of every weapon, and a variant without the key raises `KeyError` |
| Load.WithClassFields | main.py:678-679 | an overridden variant has the new class and every other key's value unchanged |
| Load.OverrideClass | main.py:677-679 | a missing page raises `KeyError`; otherwise the page's variants get the class, the keys stay the same and every other page is unchanged |
| Sql.ConcatIsJoin | main.py:384-395 | concatenating the schema's lines is joining them with the empty separator |
| Sql.ColumnRoundTrip | main.py:406-407 | a column line reads back as its name, type and unique flag |
| Sql.ForeignKeyRoundTrip | main.py:398-399 | a foreign key line reads back as its column and table |
| Sql.AppendColumns | main.py:387-390 | the column loop appends one column line per key, in order |
| Sql.AppendForeignKeys | main.py:391-393 | the foreign key loop appends one line per pair, in order |
| Sql.MakeTableSchema | main.py:384-395 | the schema the loops build is the specified header, id line, column lines, foreign key lines and footer |
| Sql.SchemaLines | main.py:384-407 | the schema's lines are the header, the id column, one line per column in order, one per foreign key in order, the primary key clause and `);` |
| Sql.SchemaColumn | main.py:387-390 | line `2+i` reads back as column `i`, unique exactly when it is the unique column |
| Sql.SchemaForeignKey | main.py:391-393 | line `2+\|keys\|+i` reads back as foreign key `i` |
| Sql.ForeignKeysAreColumns | main.py:410-445 | every weapon foreign key names a weapon column |
| Sql.InsertLines | main.py:459-482 | a bulk insert's lines are its header, then one line per row in order, each but the last ending in a comma |
| Sql.NamedLines | main.py:467-482 | a name, class or quality insert has one line per set member, in order, holding the quoted member |
| Sql.InsertImages | main.py:459-464 | building the image insert fails exactly when some member is not a path |
| Sql.ImagesLines | main.py:459-464 | the image insert has one line per path, in order, holding its relative path in both columns |
| Sql.Lookup | main.py:515-523 | a lookup succeeds exactly for stored text, and otherwise fails naming its table |
| Sql.FieldOf | main.py:515-523 | reading a variant key succeeds exactly when the key is present |
| Sql.VariantInsert | main.py:511-552 | a variant gives an insert exactly when its class, quality and image lookups all succeed |
| Sql.InsertWeaponVariant | main.py:511-552 | the `values` loop and the statement give the specified insert, or the first failing lookup |
| Sql.ValuesFields | main.py:525-536 | the values dict holds the name id under `name`, the image id under `image` when there is a local image, ids for class and quality, 1/0 for homemade, no `local_image`, and every other key copied |
| Sql.StatementCount | main.py:544-545 | the statement has exactly one `?` per column |
| Sql.InsertShape | main.py:544-552 | an insert has exactly as many `?` placeholders as parameters |
| Wrappers.CollectIsSteps | main.py:197-232 | collecting results succeeds exactly when running the steps meets no failure, with the values kept, and otherwise fails with the error the run stopped on |
| Wrappers.StepsMeaning | main.py:500-501 | a loop that an exception may end has done exactly the steps before the first failing one, in order, and fails exactly when some step does, with that step's error |
| Wrappers.ChainMeaning | main.py:486-501 | runs one after another keep every complete run before the first failing run, then that run's own values, and its error; with no failing run, every run's values |
| Sql.VariantsRunMeaning | main.py:500-501 | the variant loop has executed exactly the inserts of the variants before the first failing lookup, in order, and fails exactly when some variant's lookup fails, with that variant's error |
| Sql.InsertVariants | main.py:500-501 | the loop over one weapon's variants returns the inserts it executed and the failing lookup that ended it, as the specification gives |
| Sql.WeaponStep | main.py:486-501 | a weapon after complete weapons adds its executed inserts, and a failing weapon ends the loop |
| Sql.InsertWeapons | main.py:485-501 | the loop over weapons returns the inserts it executed and the failure that ended it, as the specification gives |
| Sql.AllRunMeaning | main.py:485-501 | the weapon loop has stored every weapon before the first failing one completely, then that weapon's own executed inserts, and fails with its error; with no failure it stores every weapon's inserts |
| Sql.WeaponRunMeaning | main.py:487-501 | a weapon's run succeeds exactly when its decoded name is in the name table and every variant's lookups succeed, with one insert per variant in order |
| Sql.AllRunOk | main.py:485-501 | the weapon loop ends without a failure exactly when every weapon's run does |
| Sql.ClassLookupFails | main.py:515 | a variant fails at the class lookup exactly when its class has no row in the class table |
| Sql.ClassInsertSkipsEmpty | main.py:663-665 | after the empty class is discarded, no row of the class insert names the empty class, and every other class some weapon's first variant carries has its own row |
| Sql.OverriddenClassLookup | main.py:663-679 | the overridden class is found in the class table exactly when some weapon's first variant already had it, and otherwise each overridden variant fails at the class lookup |
| Sql.ScriptSetsVersion | main.py:568-570 | whatever the table definitions, the schema script's last line sets `user_version` to 1 |
| Sql.SchemaStepIdempotent | main.py:561-575 | after the gate the version is never 0, and a second run changes nothing |
| Sql.Database.EnsureSchema | main.py:561-575 | version 0 runs the full schema script once and sets the version to 1, and any other version leaves the database unchanged |

## Left out

- HTTP fetching of pages, images and the weapon list (`requests.get`, `get_weapon_pages`). What a fetch returns is a parameter, a `Response` for images.
- The BeautifulSoup queries. The model takes the texts and sequences they return.
- SQLite execution: `cursor.execute`, `clean_db`, `create_views` and the `user_version` read. The lookup tables are the `Ids` maps, and `EnsureSchema` records the script it would run.
- Whether the bulk inserts' SQL runs, including an empty set, which gives `VALUES` with no rows.
- Whether SQLite accepts an insert statement. A rejected statement is swallowed by the `try`/`except` and the loop goes on, so the model lists every statement the loop issues as executed.
- The binary floating-point value `float()` produces and the `* 0.01` scaling of percentages. Whether `float()` accepts a number is modelled; an accepted number is kept as its text.
- Python's `\d` also accepts non-ASCII digits. The model accepts only ASCII digits.
- Python's regex engine in general: only the six patterns and the cleaner are written out.
- `os.path.relpath`, `dirname(__file__)` and other path calls into the operating system. They are the parameters `rel` and `root`.
- A write or `mkdir` that fails. The model assumes file system calls succeed.
- CLI and logging: `handle_args`, the debug/verbose mapping, `setup_logging`, log messages and `print` output.
- `print_exc_plus`, `esc_color` and `esc_reset`, which only produce debug output.
- `convertToBinaryData`, which is file input and is never called.
- `process_page` exceptions are not caught, so one failure ends the whole run. `Gather` takes each page's records as given, already successful.
- Sql.Truthy: the truthiness of a FLOAT, MULTIPLIER or PERCENTAGE lexeme is approximated by "contains a nonzero digit". `homemade` is always set to a flag before insertion, so other values never reach it.
- Sql.Lookup: a value that is not text never matches a stored row. It would be a TEXT comparison in SQLite.
- Sql.ValuesFields: requires that the variant has no keys `name` or `image`. The function itself follows the dict assignments in every case.
