/**
 * The proposed revision of the waters post-processing,
 * app_proposed_changes/scrapers/scrape_waters.py: `transform_and_filter_water_data`
 * over string-valued records, with the county -> regions defaultdict passed in
 * and updated by its own lookups.
 *
 * Unlike the current revision it subscripts the records directly (a missing key
 * raises KeyError out of the whole call), compares the raw `type_1` with 'lake'
 * for the description, removes every " County" from the county names, and
 * looks both counties up in the defaultdict, which inserts an empty list for a
 * county it did not know.
 */
module ProposedWaters {
  import opened Wrappers
  import opened Text
  import opened Regions
  import ScrapeWaters

  /** A scraped record: string keys to string values. */
  type Record = map<string, string>

  const LakeDescription: string := "lakes, ponds and reservoirs"
  const RiverDescription: string := "rivers, brooks and streams"
  const CountySuffix: string := " County"

  /** The defaultdict after `d[key]` has been read: a missing key now holds []. */
  function Touch(index: map<string, seq<string>>, key: string): (after: map<string, seq<string>>)
    ensures forall c :: c in after <==> c in index || c == key
    ensures forall c :: Lookup(after, c) == Lookup(index, c)
  {
    if key in index then index else index[key := []]
  }

  /** What the loop body makes of one record: skipped by the type filter, a
      KeyError, or a kept water body with its name, description, the distinct
      regions of its two counties and the defaultdict after the two lookups. */
  datatype Read =
    | Skip
    | MissingKey
    | Water(name: string, waterType: string, regions: seq<string>, index: map<string, seq<string>>)

  /** The cleaned counties of a record with both county keys. */
  function CleanCounty(county: string): string {
    ReplaceAll(county, CountySuffix, "")
  }

  /** The loop body on one record, as a value: the specification the lemmas
      and `TransformEntries` use. `ReadWaterStep` is the same body with its
      in-place defaultdict updates, proved to compute it. */
  function ReadWater(w: Record, index: map<string, seq<string>>): Read {
    if "type_1" !in w then MissingKey
    else
      var kind := Strip(Lower(w["type_1"]));
      if kind != "lake" && kind != "river" then Skip
      else if "name" !in w || "start_county" !in w || "end_county" !in w then MissingKey
      else
        var waterType := if w["type_1"] == "lake" then LakeDescription else RiverDescription;
        var startCounty := CleanCounty(w["start_county"]);
        var endCounty := CleanCounty(w["end_county"]);
        var afterStart := Touch(index, startCounty);
        var afterEnd := Touch(afterStart, endCounty);
        Water(w["name"], waterType,
              Dedup(Lookup(index, startCounty) + Lookup(afterStart, endCounty)), afterEnd)
  }

  /** The loop body up to the inner loop: the type filter, the base data, the
      two cleaned counties and the two defaultdict lookups. */
  method ReadWaterStep(w: Record, index: map<string, seq<string>>) returns (r: Read)
    ensures r == ReadWater(w, index)
  {
    if "type_1" !in w {
      return MissingKey;
    }
    var kind := Strip(Lower(w["type_1"]));
    if kind != "lake" && kind != "river" {
      return Skip;
    }
    if "name" !in w || "start_county" !in w || "end_county" !in w {
      return MissingKey;
    }
    var waterType := if w["type_1"] == "lake" then LakeDescription else RiverDescription;
    var startCounty := CleanCounty(w["start_county"]);
    var endCounty := CleanCounty(w["end_county"]);
    var current := index;
    var fromStart := Lookup(current, startCounty);
    current := Touch(current, startCounty);
    var fromEnd := Lookup(current, endCounty);
    current := Touch(current, endCounty);
    r := Water(w["name"], waterType, Dedup(fromStart + fromEnd), current);
  }

  /** The outcome of the call: the results, or None when a KeyError escaped it,
      and the passed defaultdict as the call left it. */
  datatype Transformed = Transformed(results: Option<seq<RegionRow>>, index: map<string, seq<string>>)

  /** `transform_and_filter_water_data` on a list of records: the records in
      order, each kept one adding one result per region; the first KeyError
      ends the call, leaving the defaultdict as it was at that point. */
  function TransformEntries(ws: seq<Record>, index: map<string, seq<string>>): Transformed {
    if ws == [] then Transformed(Some([]), index)
    else
      var prev := TransformEntries(ws[..|ws| - 1], index);
      if prev.results.None? then prev
      else match ReadWater(ws[|ws| - 1], prev.index)
        case Skip => prev
        case MissingKey => Transformed(None, prev.index)
        case Water(name, waterType, regions, after) =>
          Transformed(Some(prev.results.value + ScrapeWaters.RowsFor(name, waterType, regions)), after)
  }

  /** The outcome after one more record, when no KeyError has escaped before it. */
  lemma TransformStep(ws: seq<Record>, i: nat, index: map<string, seq<string>>,
                      rows: seq<RegionRow>, current: map<string, seq<string>>)
    requires i < |ws|
    requires TransformEntries(ws[..i], index) == Transformed(Some(rows), current)
    ensures TransformEntries(ws[..i + 1], index) ==
      match ReadWater(ws[i], current)
      case Skip => Transformed(Some(rows), current)
      case MissingKey => Transformed(None, current)
      case Water(name, waterType, regions, after) =>
        Transformed(Some(rows + ScrapeWaters.RowsFor(name, waterType, regions)), after)
  {
    assert ws[..i + 1][..i] == ws[..i];
  }

  /** A KeyError ends the call: the records after it change nothing. */
  lemma {:induction false} FailureEnds(ws: seq<Record>, j: nat, index: map<string, seq<string>>)
    requires j <= |ws|
    requires TransformEntries(ws[..j], index).results.None?
    ensures TransformEntries(ws, index) == TransformEntries(ws[..j], index)
    decreases |ws| - j
  {
    if j < |ws| {
      assert ws[..j + 1][..j] == ws[..j];
      FailureEnds(ws, j + 1, index);
    } else {
      assert ws[..j] == ws;
    }
  }

  /** The loop: for every record, the body above, then one result per region
      (`water_data | {'region': region}`) appended to the results. */
  method TransformAndFilter(waters: seq<Record>, countyToRegions: map<string, seq<string>>)
    returns (results: Option<seq<RegionRow>>, indexAfter: map<string, seq<string>>)
    ensures Transformed(results, indexAfter) == TransformEntries(waters, countyToRegions)
  {
    var rows: seq<RegionRow> := [];
    indexAfter := countyToRegions;
    var i := 0;
    while i < |waters|
      invariant 0 <= i <= |waters|
      invariant TransformEntries(waters[..i], countyToRegions) == Transformed(Some(rows), indexAfter)
    {
      TransformStep(waters, i, countyToRegions, rows, indexAfter);
      var read := ReadWaterStep(waters[i], indexAfter);
      if read.MissingKey? {
        results := None;
        FailureEnds(waters, i + 1, countyToRegions);
        return;
      }
      if read.Water? {
        rows := ScrapeWaters.AppendRows(rows, read.name, read.waterType, read.regions);
        indexAfter := read.index;
      }
      i := i + 1;
    }
    assert waters[..|waters|] == waters;
    results := Some(rows);
  }

  /** A kept record's regions are those of its two cleaned counties, each once,
      and its lookups leave every list as it was, only adding empty lists for
      counties the defaultdict did not know. */
  lemma ReadWaterSpec(w: Record, index: map<string, seq<string>>)
    requires ReadWater(w, index).Water?
    ensures var r := ReadWater(w, index);
      var startCounty := CleanCounty(w["start_county"]);
      var endCounty := CleanCounty(w["end_county"]);
      && r.name == w["name"]
      && (forall x :: x in r.regions <==> x in Lookup(index, startCounty) || x in Lookup(index, endCounty))
      && (forall i, j :: 0 <= i < j < |r.regions| ==> r.regions[i] != r.regions[j])
      && (forall c :: c in r.index <==> c in index || c == startCounty || c == endCounty)
      && (forall c :: Lookup(r.index, c) == Lookup(index, c))
  {
    var afterStart := Touch(index, CleanCounty(w["start_county"]));
    DedupSpec(Lookup(index, CleanCounty(w["start_county"])) + Lookup(afterStart, CleanCounty(w["end_county"])));
  }

  /** The call never changes a county's list: it only adds empty lists, so
      later lookups see the same regions. */
  lemma {:induction false} TransformKeepsLists(ws: seq<Record>, index: map<string, seq<string>>)
    ensures var t := TransformEntries(ws, index);
      && (forall c :: c in index ==> c in t.index)
      && (forall c :: Lookup(t.index, c) == Lookup(index, c))
  {
    if ws != [] {
      var init := ws[..|ws| - 1];
      TransformKeepsLists(init, index);
      var prev := TransformEntries(init, index);
      if prev.results.Some? && ReadWater(ws[|ws| - 1], prev.index).Water? {
        ReadWaterSpec(ws[|ws| - 1], prev.index);
      }
    }
  }

  /** Records that carry all four keys never raise KeyError. */
  lemma {:induction false} CompleteRecordsSucceed(ws: seq<Record>, index: map<string, seq<string>>)
    requires forall i :: 0 <= i < |ws| ==>
      "type_1" in ws[i] && "name" in ws[i] && "start_county" in ws[i] && "end_county" in ws[i]
    ensures TransformEntries(ws, index).results.Some?
  {
    if ws != [] {
      var init := ws[..|ws| - 1];
      assert forall i :: 0 <= i < |init| ==> init[i] == ws[i];
      CompleteRecordsSucceed(init, index);
    }
  }

  /** The lake description needs `type_1` to be exactly 'lake': a record of type
      "Lake" passes the lowercased filter but is described as a river. */
  lemma CapitalisedLakeIsRiver(index: map<string, seq<string>>)
    ensures var r := ReadWater(map["type_1" := "Lake", "name" := "Lake Alpha",
                                   "start_county" := "Kent", "end_county" := "Kent"], index);
      r.Water? && r.waterType == RiverDescription
  {
    assert Lower("Lake") == "lake";
    StripUnspaced("lake");
    assert "Lake" != "lake" by {
      assert "Lake"[0] != "lake"[0];
    }
  }

  /** " County" starts with a space, so it cannot start inside a name without
      spaces. */
  lemma NoSuffixInName(name: string, rest: string)
    requires ' ' !in name
    ensures forall j :: 0 <= j < |name| ==> !OccursAt(name + CountySuffix + rest, CountySuffix, j)
  {
    var s := name + CountySuffix + rest;
    forall j | 0 <= j < |name| ensures !OccursAt(s, CountySuffix, j) {
      assert s[j] == name[j];
    }
  }

  /** `replace` drops every " County", not only a trailing one: after a name
      without spaces, the first " County" goes and the rest is cleaned in turn. */
  lemma CleanCountyDropsFirst(name: string, rest: string)
    requires ' ' !in name
    ensures CleanCounty(name + CountySuffix + rest) == name + CleanCounty(rest)
  {
    var s := name + CountySuffix + rest;
    assert s[|name|..|name| + |CountySuffix|] == CountySuffix;
    NoSuffixInName(name, rest);
    ReplaceAllFirst(s, CountySuffix, "", |name|);
    assert s[..|name|] == name && s[|name| + |CountySuffix|..] == rest;
  }

  /** A doubled suffix goes entirely: "York County County" is cleaned to "York". */
  lemma DoubledSuffixRemoved(name: string)
    requires ' ' !in name
    ensures CleanCounty(name + " County County") == name
  {
    assert name + " County County" == name + CountySuffix + CountySuffix;
    CleanCountyDropsFirst(name, CountySuffix);
    assert [] + CountySuffix + [] == CountySuffix;
    CleanCountyDropsFirst([], []);
  }

  /** A suffix in the middle goes too: "York County North" is cleaned to
      "York North". */
  lemma InnerSuffixRemoved(name: string, rest: string)
    requires ' ' !in name
    requires forall j :: !OccursAt(rest, CountySuffix, j)
    ensures CleanCounty(name + " County" + rest) == name + rest
  {
    CleanCountyDropsFirst(name, rest);
    ReplaceAllAbsent(rest, CountySuffix, "");
  }
}
