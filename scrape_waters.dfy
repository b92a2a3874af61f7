/**
 * The post-processing of scraped water bodies in app/scrapers/scrape_waters.py:
 * keep the lakes and rivers, clean their county names, look the counties up in
 * the county -> regions index inverted from the New Brunswick region table, and
 * fan every kept water body out to one result per distinct region.
 *
 * The index is the module-level `county_to_regions`; here it is a parameter,
 * and the lemmas that speak about the real regions assume it is what
 * `Regions.InvertRegionTable(Regions.NewBrunswickRegions)` builds.
 */
module ScrapeWaters {
  import opened Wrappers
  import opened Text
  import opened Regions

  /** A value in a scraped record, as far as the processing inspects it:
      a string, or anything else (a number, None, a list...). */
  datatype PyValue = Str(s: string) | NonStr

  /** One item of the scraped list: a dictionary, or anything else. */
  datatype Entry = Dict(fields: map<string, PyValue>) | NotADict

  /** What the scraper handed over: None, something that is not a list, or a list. */
  datatype WatersInput = NoData | NotAList | Entries(entries: seq<Entry>)

  /** `d.get(key, default)`. */
  function Get(fields: map<string, PyValue>, key: string, default: string): PyValue {
    if key in fields then fields[key] else Str(default)
  }

  const LakeDescription: string := "lakes, ponds and reservoirs"
  const RiverDescription: string := "rivers, brooks and streams"
  const CountySuffix: string := " County"

  /** The county name with one trailing " County" cut off, if it has one. */
  function WithoutCountySuffix(county: string): (r: string)
    ensures EndsWith(county, CountySuffix) ==> r + CountySuffix == county
    ensures !EndsWith(county, CountySuffix) ==> r == county
  {
    if EndsWith(county, CountySuffix) then county[..|county| - |CountySuffix|] else county
  }

  /** The `type_1` of a record, lowercased and stripped, when it is a string. */
  function Kind(fields: map<string, PyValue>): Option<string> {
    var raw := Get(fields, "type_1", "");
    if raw.Str? then Some(Strip(Lower(raw.s))) else None
  }

  /** What the processing keeps of a record it does not skip: the name, the type
      description and the two cleaned county names. */
  datatype Kept = Kept(name: string, waterType: string, startCounty: string, endCounty: string)

  /** The filters of the loop body, up to the region lookup: None for a record
      the loop skips before looking up its counties. This is the specification
      the lemmas use; `KeepEntry` below is the source's `continue` chain, step by
      step, proved to compute it. */
  function Classify(e: Entry): Option<Kept>
  {
    if e.NotADict? then None
    else
      var kind := Kind(e.fields);
      if kind != Some("lake") && kind != Some("river") then None
      else
        var nameRaw := Get(e.fields, "name", "Unknown Name");
        var name := if nameRaw.Str? then nameRaw.s else "Unknown Name (processed)";
        var waterType := if kind == Some("lake") then LakeDescription else RiverDescription;
        var startRaw := Get(e.fields, "start_county", "");
        var endRaw := Get(e.fields, "end_county", "");
        if startRaw.NonStr? || endRaw.NonStr? then None
        else Some(Kept(name, waterType, WithoutCountySuffix(startRaw.s), WithoutCountySuffix(endRaw.s)))
  }

  /** A record is kept iff it is a dictionary whose string `type_1`, lowercased
      and stripped, is "lake" or "river", and whose two counties are strings;
      the description follows the type, a missing name is "Unknown Name", a
      non-string one "Unknown Name (processed)", and each county loses one
      " County" suffix. */
  lemma ClassifySpec(e: Entry)
    ensures Classify(e).Some? <==>
      && e.Dict?
      && (Kind(e.fields) == Some("lake") || Kind(e.fields) == Some("river"))
      && Get(e.fields, "start_county", "").Str?
      && Get(e.fields, "end_county", "").Str?
    ensures Classify(e).Some? ==>
      var k := Classify(e).value;
      && (k.waterType == LakeDescription <==> Kind(e.fields) == Some("lake"))
      && (k.waterType == RiverDescription <==> Kind(e.fields) == Some("river"))
      && k.name == (match Get(e.fields, "name", "Unknown Name")
                    case Str(n) => n
                    case NonStr => "Unknown Name (processed)")
      && k.startCounty == WithoutCountySuffix(Get(e.fields, "start_county", "").s)
      && k.endCounty == WithoutCountySuffix(Get(e.fields, "end_county", "").s)
  {
  }

  /** The regions a cleaned county contributes: its list in the index when the
      name is non-empty and indexed, nothing otherwise. */
  function CountyRegions(index: map<string, seq<string>>, county: string): seq<string> {
    if county != "" && county in index then index[county] else []
  }

  /** The distinct regions of a kept water body, in first-occurrence order. */
  function EntryRegions(index: map<string, seq<string>>, k: Kept): seq<string> {
    Dedup(CountyRegions(index, k.startCounty) + CountyRegions(index, k.endCounty))
  }

  /** One result per region, all with the same name and type description. */
  function RowsFor(name: string, waterType: string, regions: seq<string>): (rows: seq<RegionRow>)
    ensures |rows| == |regions|
    ensures forall i :: 0 <= i < |rows| ==> rows[i] == RegionRow(name, waterType, regions[i])
  {
    if regions == [] then []
    else RowsFor(name, waterType, regions[..|regions| - 1]) + [RegionRow(name, waterType, regions[|regions| - 1])]
  }

  /** The results one entry contributes. */
  function EntryRows(index: map<string, seq<string>>, e: Entry): seq<RegionRow> {
    match Classify(e)
    case None => []
    case Some(k) => RowsFor(k.name, k.waterType, EntryRegions(index, k))
  }

  /** A skipped entry gives no result; a kept one gives results that carry its
      name and description, no two with the same region. */
  lemma EntryRowsShape(index: map<string, seq<string>>, e: Entry)
    ensures Classify(e).None? ==> EntryRows(index, e) == []
    ensures Classify(e).Some? ==> forall row :: row in EntryRows(index, e) ==>
      row.name == Classify(e).value.name && row.waterType == Classify(e).value.waterType
    ensures var rows := EntryRows(index, e);
      forall i, j :: 0 <= i < j < |rows| ==> rows[i].region != rows[j].region
  {
    if Classify(e).Some? {
      var k := Classify(e).value;
      var regions := EntryRegions(index, k);
      DedupSpec(CountyRegions(index, k.startCounty) + CountyRegions(index, k.endCounty));
      assert forall i, j :: 0 <= i < j < |regions| ==> regions[i] != regions[j];
    }
  }

  /** The results of every entry of a list, entry by entry. */
  function PerEntry(entries: seq<Entry>, index: map<string, seq<string>>): seq<seq<RegionRow>> {
    seq(|entries|, i requires 0 <= i < |entries| => EntryRows(index, entries[i]))
  }

  /** Lists of results one after the other. */
  function Flatten(rowss: seq<seq<RegionRow>>): seq<RegionRow> {
    if rowss == [] then [] else Flatten(rowss[..|rowss| - 1]) + rowss[|rowss| - 1]
  }

  /** The results of a list of entries: each entry's results, in list order. */
  function ProcessedEntries(entries: seq<Entry>, index: map<string, seq<string>>): seq<RegionRow> {
    Flatten(PerEntry(entries, index))
  }

  /** `_process_waters_data`: None and non-list input give no results. */
  function Processed(input: WatersInput, index: map<string, seq<string>>): seq<RegionRow> {
    match input
    case Entries(entries) => ProcessedEntries(entries, index)
    case _ => []
  }

  /** A sequence without repeats is its own de-duplication. */
  lemma {:induction false} DedupDistinct(s: seq<string>)
    requires forall i, j :: 0 <= i < j < |s| ==> s[i] != s[j]
    ensures Dedup(s) == s
  {
    if s != [] {
      var init := s[..|s| - 1];
      DedupDistinct(init);
      assert s == init + [s[|s| - 1]];
    }
  }

  /** De-duplicating in two steps, as `set.update` does, is de-duplicating once. */
  lemma {:induction false} DedupAppend(a: seq<string>, b: seq<string>)
    ensures Dedup(Dedup(a) + b) == Dedup(a + b)
  {
    if b == [] {
      assert Dedup(a) + b == Dedup(a);
      assert a + b == a;
      DedupSpec(a);
      DedupDistinct(Dedup(a));
    } else {
      var init := b[..|b| - 1];
      var x := b[|b| - 1];
      DedupAppend(a, init);
      assert Dedup(a) + b == (Dedup(a) + init) + [x];
      assert a + b == (a + init) + [x];
      DedupSnoc(Dedup(a) + init, x);
      DedupSnoc(a + init, x);
    }
  }

  /** De-duplicating one more element. */
  lemma DedupSnoc(init: seq<string>, x: string)
    ensures Dedup(init + [x]) == (if x in Dedup(init) then Dedup(init) else Dedup(init) + [x])
  {
    assert (init + [x])[..|init + [x]| - 1] == init;
  }

  lemma RowsForSnoc(name: string, waterType: string, regions: seq<string>, j: nat)
    requires j < |regions|
    ensures RowsFor(name, waterType, regions[..j + 1])
      == RowsFor(name, waterType, regions[..j]) + [RegionRow(name, waterType, regions[j])]
  {
    assert regions[..j + 1][..j] == regions[..j];
  }

  /** The per-entry region set: empty, then updated with the regions of the
      start county and then with those of the end county, each when that
      county is non-empty and indexed. */
  method AssociatedRegions(index: map<string, seq<string>>, startCounty: string, endCounty: string)
    returns (associated: seq<string>)
    ensures associated == Dedup(CountyRegions(index, startCounty) + CountyRegions(index, endCounty))
  {
    associated := [];
    if startCounty != "" && startCounty in index {
      assert associated + index[startCounty] == index[startCounty];
      associated := Dedup(associated + index[startCounty]);
    } else {
      assert Dedup([]) == [];
    }
    if endCounty != "" && endCounty in index {
      associated := Dedup(associated + index[endCounty]);
    } else {
      DedupSpec(CountyRegions(index, startCounty));
      DedupDistinct(associated);
      assert associated + [] == associated;
    }
    DedupAppend(CountyRegions(index, startCounty), CountyRegions(index, endCounty));
  }

  /** The loop over a water body's regions: one result appended per region, in order. */
  method AppendRows(results: seq<RegionRow>, name: string, waterType: string, regions: seq<string>)
    returns (extended: seq<RegionRow>)
    ensures extended == results + RowsFor(name, waterType, regions)
  {
    extended := results;
    var j := 0;
    while j < |regions|
      invariant 0 <= j <= |regions|
      invariant extended == results + RowsFor(name, waterType, regions[..j])
    {
      RowsForSnoc(name, waterType, regions, j);
      extended := extended + [RegionRow(name, waterType, regions[j])];
      j := j + 1;
    }
    assert regions[..|regions|] == regions;
  }

  /** The checks at the top of the loop body, each of which skips the entry
      (`continue`) when it fails: a dictionary, a string `type_1` that is
      "lake" or "river" once lowercased and stripped, and string counties.
      The imperative form of `Classify`. */
  method KeepEntry(entry: Entry) returns (kept: Option<Kept>)
    ensures kept == Classify(entry)
  {
    if !entry.Dict? {
      return None;
    }
    var typeRaw := Get(entry.fields, "type_1", "");
    if !typeRaw.Str? {
      return None;
    }
    var kind := Strip(Lower(typeRaw.s));
    if kind != "lake" && kind != "river" {
      return None;
    }
    var name := Get(entry.fields, "name", "Unknown Name");
    if !name.Str? {
      name := Str("Unknown Name (processed)");
    }
    var description := if kind == "lake" then LakeDescription else RiverDescription;
    var startRaw := Get(entry.fields, "start_county", "");
    var endRaw := Get(entry.fields, "end_county", "");
    if !startRaw.Str? || !endRaw.Str? {
      return None;
    }
    kept := Some(Kept(name.s, description, WithoutCountySuffix(startRaw.s), WithoutCountySuffix(endRaw.s)));
  }

  /** The loop body on one entry: the checks, the region set built from the
      start and end counties, and one result appended per region. */
  method ProcessEntry(results: seq<RegionRow>, entry: Entry, countyToRegions: map<string, seq<string>>)
    returns (extended: seq<RegionRow>)
    ensures extended == results + EntryRows(countyToRegions, entry)
  {
    var kept := KeepEntry(entry);
    if kept.None? {
      assert results + [] == results;
      return results;
    }
    var water := kept.value;
    EntryRowsKept(countyToRegions, entry, water);
    var associated := AssociatedRegions(countyToRegions, water.startCounty, water.endCounty);
    if associated == [] {
      assert results + [] == results;
      return results;
    }
    extended := AppendRows(results, water.name, water.waterType, associated);
  }

  /** The processing loop: None and non-list input give no results; otherwise
      every entry of the list is processed in order. */
  method ProcessWatersData(input: WatersInput, countyToRegions: map<string, seq<string>>)
    returns (results: seq<RegionRow>)
    ensures results == Processed(input, countyToRegions)
  {
    results := [];
    if !input.Entries? {
      return;
    }
    var entries := input.entries;
    var i := 0;
    while i < |entries|
      invariant 0 <= i <= |entries|
      invariant results == ProcessedEntries(entries[..i], countyToRegions)
    {
      results := ProcessEntry(results, entries[i], countyToRegions);
      ProcessedSnoc(entries, i, countyToRegions);
      i := i + 1;
    }
    assert entries[..|entries|] == entries;
  }

  lemma EntryRowsKept(index: map<string, seq<string>>, e: Entry, k: Kept)
    requires Classify(e) == Some(k)
    ensures EntryRows(index, e) == RowsFor(k.name, k.waterType, EntryRegions(index, k))
  {
  }

  /** The results after one more entry of the list. */
  lemma ProcessedSnoc(entries: seq<Entry>, i: nat, index: map<string, seq<string>>)
    requires i < |entries|
    ensures ProcessedEntries(entries[..i + 1], index) == ProcessedEntries(entries[..i], index) + EntryRows(index, entries[i])
  {
    assert PerEntry(entries[..i + 1], index) == PerEntry(entries[..i], index) + [EntryRows(index, entries[i])];
  }

  lemma RowsAssoc(x: seq<RegionRow>, y: seq<RegionRow>, z: seq<RegionRow>)
    ensures (x + y) + z == x + (y + z)
  {
  }

  lemma {:induction false} FlattenConcat(x: seq<seq<RegionRow>>, y: seq<seq<RegionRow>>)
    ensures Flatten(x + y) == Flatten(x) + Flatten(y)
  {
    if y == [] {
      assert x + y == x;
    } else {
      var init := y[..|y| - 1];
      var last := y[|y| - 1];
      FlattenConcat(x, init);
      assert (x + y)[..|x + y| - 1] == x + init;
      RowsAssoc(Flatten(x), Flatten(init), last);
    }
  }

  /** A result is in the flattened lists iff it is in one of them. */
  lemma {:induction false} FlattenMembership(rowss: seq<seq<RegionRow>>, row: RegionRow)
    ensures row in Flatten(rowss) <==> exists i :: 0 <= i < |rowss| && row in rowss[i]
  {
    if rowss != [] {
      var init := rowss[..|rowss| - 1];
      FlattenMembership(init, row);
      if row in Flatten(init) {
        var i :| 0 <= i < |init| && row in init[i];
        assert rowss[i] == init[i];
      }
    }
  }

  /** The results of two lists back to back are the results of the first list
      followed by those of the second: earlier entries' results come first. */
  lemma ProcessedConcat(a: seq<Entry>, b: seq<Entry>, index: map<string, seq<string>>)
    ensures ProcessedEntries(a + b, index) == ProcessedEntries(a, index) + ProcessedEntries(b, index)
  {
    assert PerEntry(a + b, index) == PerEntry(a, index) + PerEntry(b, index);
    FlattenConcat(PerEntry(a, index), PerEntry(b, index));
  }

  /** A result comes out of the list iff it comes out of one of its entries. */
  lemma ProcessedMembership(entries: seq<Entry>, index: map<string, seq<string>>, row: RegionRow)
    ensures row in ProcessedEntries(entries, index) <==>
      exists i :: 0 <= i < |entries| && row in EntryRows(index, entries[i])
  {
    var rowss := PerEntry(entries, index);
    FlattenMembership(rowss, row);
    if row in Flatten(rowss) {
      var i :| 0 <= i < |rowss| && row in rowss[i];
      assert rowss[i] == EntryRows(index, entries[i]);
    } else {
      forall i | 0 <= i < |entries| ensures row !in EntryRows(index, entries[i]) {
        assert rowss[i] == EntryRows(index, entries[i]);
      }
    }
  }

  /** The results of one entry: exactly one per region of its start or end
      county, carrying its name and type description, and none for a skipped entry. */
  lemma EntryRowsMembership(index: map<string, seq<string>>, e: Entry, row: RegionRow)
    ensures row in EntryRows(index, e) <==>
      && Classify(e).Some?
      && row.name == Classify(e).value.name
      && row.waterType == Classify(e).value.waterType
      && (row.region in CountyRegions(index, Classify(e).value.startCounty)
          || row.region in CountyRegions(index, Classify(e).value.endCounty))
  {
    if Classify(e).Some? {
      var k := Classify(e).value;
      var both := CountyRegions(index, k.startCounty) + CountyRegions(index, k.endCounty);
      var regions := EntryRegions(index, k);
      var rows := EntryRows(index, e);
      EntryRowsKept(index, e, k);
      DedupSpec(both);
      assert row.region in both <==>
        (row.region in CountyRegions(index, k.startCounty) || row.region in CountyRegions(index, k.endCounty));
      if row in rows {
        var i :| 0 <= i < |rows| && rows[i] == row;
        assert row.region == regions[i];
      }
      if row.name == k.name && row.waterType == k.waterType && row.region in both {
        assert row.region in regions;
        var i :| 0 <= i < |regions| && regions[i] == row.region;
        assert rows[i] == row;
      }
    }
  }

  /** With the index inverted from a region table, a cleaned county contributes
      region r iff the county is non-empty and r lists it. */
  lemma CountyRegionsFromTable(index: map<string, seq<string>>, table: RegionTable, county: string, region: string)
    requires forall c :: Lookup(index, c) == RegionsOf(table, c)
    ensures region in CountyRegions(index, county) <==>
      county != "" && exists i :: 0 <= i < |table| && table[i].0 == region && county in table[i].1
  {
    assert county != "" ==> CountyRegions(index, county) == RegionsOf(table, county);
    RegionsOfMembership(table, county, region);
  }

  /** Only one " County" is cut: "York County County" is looked up as "York County". */
  lemma OneSuffixOnly()
    ensures WithoutCountySuffix("York County") == "York"
    ensures WithoutCountySuffix("York County County") == "York County"
    ensures WithoutCountySuffix("York") == "York"
  {
    assert EndsWith("York County", CountySuffix);
    assert EndsWith("York County County", CountySuffix);
  }

  /** Filtering on the lowercased, stripped type: "Lake" and "RIVER" are kept
      with the matching description, "Pond" and a non-string type are skipped. */
  lemma KeepsLake()
    ensures var k := Classify(Dict(map["type_1" := Str("Lake")]));
      k.Some? && k.value.waterType == LakeDescription
  {
    assert Lower("Lake") == "lake";
    StripUnspaced("lake");
  }

  lemma KeepsRiver()
    ensures var k := Classify(Dict(map["type_1" := Str("RIVER")]));
      k.Some? && k.value.waterType == RiverDescription
  {
    assert Lower("RIVER") == "river";
    StripUnspaced("river");
  }

  lemma SkipsPond()
    ensures Classify(Dict(map["type_1" := Str("Pond")])).None?
  {
    assert Lower("Pond") == "pond";
    StripUnspaced("pond");
  }

  /** A non-string name becomes "Unknown Name (processed)", a missing one "Unknown Name". */
  lemma NameDefaults()
    ensures var k := Classify(Dict(map["type_1" := Str("river"), "name" := NonStr]));
      k.Some? && k.value.name == "Unknown Name (processed)"
    ensures var k := Classify(Dict(map["type_1" := Str("river")]));
      k.Some? && k.value.name == "Unknown Name"
  {
    assert Lower("river") == "river";
    StripUnspaced("river");
  }

  /** A record without counties is looked up under the empty name, which
      contributes no region, so it gives no result. */
  lemma MissingCounties(index: map<string, seq<string>>)
    ensures EntryRows(index, Dict(map["name" := Str("Incomplete Lake"), "type_1" := Str("lake")])) == []
  {
    assert Lower("lake") == "lake";
    StripUnspaced("lake");
    var k := Classify(Dict(map["name" := Str("Incomplete Lake"), "type_1" := Str("lake")])).value;
    assert k.startCounty == "" && k.endCounty == "";
    assert EntryRegions(index, k) == Dedup([]);
  }

  /** The record of the test lake in Restigouche county is kept as a lake, with
      both county names cleaned to "Restigouche". */
  lemma RestigoucheLakeKept()
    ensures Classify(Dict(map["name" := Str("Restigouche Lake"), "type_1" := Str("Lake"),
                              "start_county" := Str("Restigouche"), "end_county" := Str("Restigouche County")]))
      == Some(Kept("Restigouche Lake", LakeDescription, "Restigouche", "Restigouche"))
  {
    var fields := map["name" := Str("Restigouche Lake"), "type_1" := Str("Lake"),
                      "start_county" := Str("Restigouche"), "end_county" := Str("Restigouche County")];
    LakeKind(fields);
    RestigoucheCleaned();
    assert Get(fields, "name", "Unknown Name") == Str("Restigouche Lake");
    assert Get(fields, "start_county", "") == Str("Restigouche");
    assert Get(fields, "end_county", "") == Str("Restigouche County");
  }

  lemma LakeKind(fields: map<string, PyValue>)
    requires "type_1" in fields && fields["type_1"] == Str("Lake")
    ensures Kind(fields) == Some("lake")
  {
    assert Lower("Lake") == "lake";
    StripUnspaced("lake");
  }

  lemma RestigoucheCleaned()
    ensures WithoutCountySuffix("Restigouche County") == "Restigouche"
    ensures WithoutCountySuffix("Restigouche") == "Restigouche"
  {
    assert "Restigouche County"[11..] == CountySuffix;
    assert "Restigouche County"[..11] == "Restigouche";
    assert "Restigouche"[4..] != CountySuffix by {
      assert "Restigouche"[4..][0] != CountySuffix[0];
    }
  }

  /** The union of a county's regions with themselves. */
  lemma RestigoucheUnion()
    ensures Dedup(["Restigouche", "Chaleur"] + ["Restigouche", "Chaleur"]) == ["Restigouche", "Chaleur"]
  {
    var both: seq<string> := ["Restigouche", "Chaleur", "Restigouche", "Chaleur"];
    assert ["Restigouche", "Chaleur"] + ["Restigouche", "Chaleur"] == both;
    assert both[..1][..0] == [];
    assert Dedup(both[..1]) == ["Restigouche"];
    assert both[..2][..1] == both[..1];
    assert Dedup(both[..2]) == ["Restigouche", "Chaleur"];
    assert both[..3][..2] == both[..2];
    assert Dedup(both[..3]) == ["Restigouche", "Chaleur"];
    assert both[..3] == both[..|both| - 1];
  }

  /** A lake in Restigouche county gives one result in Restigouche and one in
      Chaleur, and nothing else, in the model's first-occurrence order of the
      region set. */
  lemma RestigoucheLake(index: map<string, seq<string>>)
    requires forall c :: Lookup(index, c) == RegionsOf(NewBrunswickRegions, c)
    ensures var e := Dict(map["name" := Str("Restigouche Lake"), "type_1" := Str("Lake"),
                              "start_county" := Str("Restigouche"), "end_county" := Str("Restigouche County")]);
      EntryRows(index, e) == [
        RegionRow("Restigouche Lake", LakeDescription, "Restigouche"),
        RegionRow("Restigouche Lake", LakeDescription, "Chaleur")]
  {
    var e := Dict(map["name" := Str("Restigouche Lake"), "type_1" := Str("Lake"),
                      "start_county" := Str("Restigouche"), "end_county" := Str("Restigouche County")]);
    var k := Kept("Restigouche Lake", LakeDescription, "Restigouche", "Restigouche");
    RestigoucheLakeKept();
    EntryRowsKept(index, e, k);
    RestigoucheRegions();
    assert Lookup(index, "Restigouche") == ["Restigouche", "Chaleur"];
    assert CountyRegions(index, "Restigouche") == ["Restigouche", "Chaleur"];
    RestigoucheUnion();
    assert EntryRegions(index, k) == ["Restigouche", "Chaleur"];
  }

  /** The same results as a multiset, which is what holds whatever order the
      region set is iterated in: sorting both sides, the test compares exactly
      this. */
  lemma RestigoucheLakeAnyOrder(index: map<string, seq<string>>)
    requires forall c :: Lookup(index, c) == RegionsOf(NewBrunswickRegions, c)
    ensures var e := Dict(map["name" := Str("Restigouche Lake"), "type_1" := Str("Lake"),
                              "start_county" := Str("Restigouche"), "end_county" := Str("Restigouche County")]);
      multiset(EntryRows(index, e)) == multiset{
        RegionRow("Restigouche Lake", LakeDescription, "Chaleur"),
        RegionRow("Restigouche Lake", LakeDescription, "Restigouche")}
  {
    RestigoucheLake(index);
  }
}
