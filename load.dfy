/** The load side before any SQL: the main loop that gathers every page's
    records under its URL name, the `collect_*` loops that build the lookup
    sets, and the manual class override for "Holed_Sabre". `process_page`'s
    results arrive as parameters, one per URL. */
module Load {
  import opened Wrappers
  import opened ODict
  import opened Extractors
  import opened Page

  /** `complete_data`: page name to the records of its variants. */
  type Weapons = Dict<seq<Record>>

  /** The exceptions the collection steps can raise. */
  datatype LoadError =
    | IndexError          // weapon[0] of an empty variant list
    | KeyError(key: string)

  /** The assignments the main loop makes, in order. */
  function Entries(urls: seq<string>, pages: seq<seq<Record>>): (es: seq<(string, seq<Record>)>)
    requires |pages| == |urls|
    ensures |es| == |urls|
  {
    seq(|urls|, i requires 0 <= i < |urls| => (PageName(urls[i]), pages[i]))
  }

  /** The main loop over the weapon pages: the decoded page name joins
      `weapon_names`, and the records are stored under the raw page name. */
  method Gather(urls: seq<string>, pages: seq<seq<Record>>) returns (names: set<string>, complete: Weapons)
    requires |pages| == |urls|
    ensures forall n :: n in names <==> exists i | 0 <= i < |urls| :: n == DecodeApostrophes(PageName(urls[i]))
    ensures complete == PutAll([], Entries(urls, pages))
  {
    names := {};
    complete := [];
    var i := 0;
    while i < |urls|
      invariant 0 <= i <= |urls|
      invariant forall n :: n in names <==> exists j | 0 <= j < i :: n == DecodeApostrophes(PageName(urls[j]))
      invariant complete == PutAll([], Entries(urls, pages)[..i])
    {
      var name := PageName(urls[i]);
      names := names + {DecodeApostrophes(name)};
      assert Entries(urls, pages)[..i + 1][..i] == Entries(urls, pages)[..i];
      complete := Put(complete, name, pages[i]);
      i := i + 1;
    }
    assert Entries(urls, pages)[..i] == Entries(urls, pages);
  }

  /** Every page name has one entry, holding the records of the last URL
      with that name. */
  lemma CompleteData(urls: seq<string>, pages: seq<seq<Record>>, k: string)
    requires |pages| == |urls|
    ensures var d := PutAll([], Entries(urls, pages));
      && DistinctKeys(d)
      && (k in Keys(d) <==> exists i | 0 <= i < |urls| :: PageName(urls[i]) == k)
      && Get(d, k) == LastFor(Entries(urls, pages), k)
  {
    var es := Entries(urls, pages);
    KeysPutAll([], es);
    GetPutAll([], es, k);
    assert Keys(es) == seq(|urls|, i requires 0 <= i < |urls| => PageName(urls[i]));
    if k in Keys(PutAll([], es)) {
      var i :| 0 <= i < |es| && Keys(es)[i] == k;
      assert PageName(urls[i]) == k;
    } else {
      forall i | 0 <= i < |urls| ensures PageName(urls[i]) != k {
        assert Keys(es)[i] == PageName(urls[i]);
      }
    }
  }

  /** `collect_possible_data_keys`: the keys of every weapon's first
      variant; an empty weapon raises `IndexError`. */
  method CollectDataKeys(d: Weapons) returns (r: Result<set<string>, LoadError>)
    ensures r.Ok? <==> forall i | 0 <= i < |d| :: d[i].1 != []
    ensures r.Err? ==> r.error == IndexError
    ensures r.Ok? ==> forall k :: k in r.value <==> exists i | 0 <= i < |d| :: d[i].1 != [] && k in Keys(d[i].1[0])
  {
    var keys: set<string> := {};
    var i := 0;
    while i < |d|
      invariant 0 <= i <= |d|
      invariant forall j | 0 <= j < i :: d[j].1 != []
      invariant forall k :: k in keys <==> exists j | 0 <= j < i :: d[j].1 != [] && k in Keys(d[j].1[0])
    {
      var weapon := d[i].1;
      if weapon == [] {
        return Err(IndexError);
      }
      keys := keys + set k | k in Keys(weapon[0]);
      i := i + 1;
    }
    r := Ok(keys);
  }

  /** `weapon[0]['class']` */
  function FirstClass(w: seq<Record>): (r: Result<Field, LoadError>)
    ensures r.Ok? <==> w != [] && "class" in Keys(w[0])
  {
    if w == [] then Err(IndexError)
    else match Get(w[0], "class")
      case None => Err(KeyError("class"))
      case Some(f) => Ok(f)
  }

  /** `collect_possible_weapon_classes`: the class of every weapon's first
      variant; the first weapon without one raises. */
  method CollectClasses(d: Weapons) returns (r: Result<set<Field>, LoadError>)
    ensures r.Ok? <==> forall i | 0 <= i < |d| :: FirstClass(d[i].1).Ok?
    ensures r.Ok? ==> forall f :: f in r.value <==> exists i | 0 <= i < |d| :: FirstClass(d[i].1) == Ok(f)
    ensures r.Err? ==> exists i | 0 <= i < |d| ::
      && (forall j | 0 <= j < i :: FirstClass(d[j].1).Ok?)
      && FirstClass(d[i].1) == Err(r.error)
  {
    var classes: set<Field> := {};
    var i := 0;
    while i < |d|
      invariant 0 <= i <= |d|
      invariant forall j | 0 <= j < i :: FirstClass(d[j].1).Ok?
      invariant forall f :: f in classes <==> exists j | 0 <= j < i :: FirstClass(d[j].1) == Ok(f)
    {
      var c := FirstClass(d[i].1);
      if c.Err? {
        return Err(c.error);
      }
      classes := classes + {c.value};
      i := i + 1;
    }
    r := Ok(classes);
  }

  /** `collect_possible_weapon_quality_keys` (key "quality") and
      `collect_possible_weapon_image_keys` (key "local_image"): the value of
      `key` in every variant of every weapon; a variant without it raises
      `KeyError`. */
  method CollectEvery(d: Weapons, key: string) returns (r: Result<set<Field>, LoadError>)
    ensures r.Ok? <==> forall i, j | 0 <= i < |d| && 0 <= j < |d[i].1| :: key in Keys(d[i].1[j])
    ensures r.Err? ==> r.error == KeyError(key)
    ensures r.Ok? ==> forall f :: f in r.value <==>
      exists i, j | 0 <= i < |d| && 0 <= j < |d[i].1| :: Get(d[i].1[j], key) == Some(f)
  {
    var found: set<Field> := {};
    var i := 0;
    while i < |d|
      invariant 0 <= i <= |d|
      invariant forall i', j | 0 <= i' < i && 0 <= j < |d[i'].1| :: key in Keys(d[i'].1[j])
      invariant forall f :: f in found <==> SeenBefore(d, key, i, f)
    {
      var weapon := d[i].1;
      var j := 0;
      while j < |weapon|
        invariant 0 <= j <= |weapon|
        invariant forall j' | 0 <= j' < j :: key in Keys(weapon[j'])
        invariant forall f :: f in found <==> SeenBefore(d, key, i, f) || SeenIn(weapon, key, j, f)
      {
        var v := Get(weapon[j], key);
        if v.None? {
          return Err(KeyError(key));
        }
        SeenInStep(weapon, key, j);
        found := found + {v.value};
        j := j + 1;
      }
      SeenBeforeStep(d, key, i);
      i := i + 1;
    }
    r := Ok(found);
  }

  /** `f` is the value of `key` in one of the variants of the first `i`
      weapons. */
  ghost predicate SeenBefore(d: Weapons, key: string, i: nat, f: Field)
    requires i <= |d|
  {
    exists i', j | 0 <= i' < i && 0 <= j < |d[i'].1| :: Get(d[i'].1[j], key) == Some(f)
  }

  /** `f` is the value of `key` in one of the first `j` variants. */
  ghost predicate SeenIn(w: seq<Record>, key: string, j: nat, f: Field)
    requires j <= |w|
  {
    exists j' | 0 <= j' < j :: Get(w[j'], key) == Some(f)
  }

  lemma SeenInStep(w: seq<Record>, key: string, j: nat)
    requires j < |w| && Get(w[j], key).Some?
    ensures forall f :: SeenIn(w, key, j + 1, f) <==> SeenIn(w, key, j, f) || f == Get(w[j], key).value
  {
  }

  lemma SeenBeforeStep(d: Weapons, key: string, i: nat)
    requires i < |d|
    ensures forall f :: SeenBefore(d, key, i + 1, f) <==> SeenBefore(d, key, i, f) || SeenIn(d[i].1, key, |d[i].1|, f)
  {
    forall f ensures SeenBefore(d, key, i + 1, f) <==> SeenBefore(d, key, i, f) || SeenIn(d[i].1, key, |d[i].1|, f) {
      if SeenBefore(d, key, i + 1, f) {
        var i', j :| 0 <= i' < i + 1 && 0 <= j < |d[i'].1| && Get(d[i'].1[j], key) == Some(f);
        if i' == i {
          assert SeenIn(d[i].1, key, |d[i].1|, f);
        } else {
          assert SeenBefore(d, key, i, f);
        }
      }
    }
  }

  /** Every variant with its class set to `cls`. */
  function WithClass(vs: seq<Record>, cls: string): (ws: seq<Record>)
    ensures |ws| == |vs|
  {
    seq(|vs|, i requires 0 <= i < |vs| => Put(vs[i], "class", Text(cls)))
  }

  /** Each variant holds the new class and keeps every other key. */
  lemma WithClassFields(vs: seq<Record>, cls: string, i: nat, k: string)
    requires i < |vs|
    ensures Get(WithClass(vs, cls)[i], "class") == Some(Text(cls))
    ensures k != "class" ==> Get(WithClass(vs, cls)[i], k) == Get(vs[i], k)
  {
    PutSpec(vs[i], "class", Text(cls));
  }

  /** `for variant in complete_data[name]: variant['class'] = cls`: a
      missing page raises `KeyError`; otherwise every variant of that page
      gets the class and every other page is left as it was. */
  method OverrideClass(d: Weapons, name: string, cls: string) returns (r: Result<Weapons, LoadError>)
    ensures r.Err? <==> name !in Keys(d)
    ensures r.Err? ==> r.error == KeyError(name)
    ensures r.Ok? ==> && Keys(r.value) == Keys(d)
                      && Get(r.value, name) == Some(WithClass(Get(d, name).value, cls))
                      && forall k :: k != name ==> Get(r.value, k) == Get(d, k)
  {
    var found := Get(d, name);
    if found.None? {
      return Err(KeyError(name));
    }
    var variants := found.value;
    var updated: seq<Record> := [];
    var i := 0;
    while i < |variants|
      invariant 0 <= i <= |variants|
      invariant updated == WithClass(variants[..i], cls)
    {
      updated := updated + [Put(variants[i], "class", Text(cls))];
      i := i + 1;
    }
    assert variants[..i] == variants;
    PutSpec(d, name, updated);
    r := Ok(Put(d, name, updated));
  }
}
