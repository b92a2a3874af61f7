/**
 * The fixed table of New Brunswick tourism regions and the counties in each,
 * and its inversion into a county -> regions lookup, as both revisions of the
 * waters post-processing build it (app/scrapers/scrape_waters.py and
 * app_proposed_changes/scrapers/scrape_waters.py). Also the row type both
 * revisions produce and its projection to output rows.
 */
module Regions {

  /** Regions in declaration order, each with its counties in declaration order. */
  type RegionTable = seq<(string, seq<string>)>

  const NewBrunswickRegions: RegionTable := [
    ("Restigouche", ["Restigouche"]),
    ("Chaleur", ["Gloucester", "Restigouche"]),
    ("Miramichi", ["Northumberland"]),
    ("Southeast", ["Kent", "Westmorland", "Albert"]),
    ("Inner Bay of Fundy", ["Saint John", "Kings", "Albert"]),
    ("Lower Saint John", ["Carleton", "York", "Sunbury", "Saint John"]),
    ("Southwest", ["Charlotte"]),
    ("Upper Saint John", ["Madawaska", "Victoria", "Carleton"])
  ]

  /** Every county named anywhere in the table. */
  function Counties(table: RegionTable): set<string> {
    if table == [] then {}
    else
      var last := table[|table| - 1].1;
      Counties(table[..|table| - 1]) + set c | c in last
  }

  /** A county is named by the table iff some region lists it. */
  lemma {:induction false} CountiesMembership(table: RegionTable, county: string)
    ensures county in Counties(table) <==> exists i :: 0 <= i < |table| && county in table[i].1
  {
    if table != [] {
      var prefix := table[..|table| - 1];
      var lastCounties := table[|table| - 1].1;
      CountiesMembership(prefix, county);
      assert Counties(table) == Counties(prefix) + set c | c in lastCounties;
      if county in Counties(prefix) {
        var i :| 0 <= i < |prefix| && county in prefix[i].1;
        assert table[i] == prefix[i];
      } else if county !in lastCounties {
        forall i | 0 <= i < |table| ensures county !in table[i].1 {
          if i < |prefix| {
            assert table[i] == prefix[i];
          }
        }
      }
    }
  }

  /** `region` once for every occurrence of `county` in `counties`. */
  function Occurrences(region: string, counties: seq<string>, county: string): (rs: seq<string>)
  {
    if counties == [] then []
    else Occurrences(region, counties[..|counties| - 1], county)
         + (if counties[|counties| - 1] == county then [region] else [])
  }

  /** The occurrences name only `region`, and name it iff `county` is in the list. */
  lemma {:induction false} OccurrencesMembership(region: string, counties: seq<string>, county: string, r: string)
    ensures r in Occurrences(region, counties, county) <==> r == region && county in counties
  {
    if counties != [] {
      var init := counties[..|counties| - 1];
      OccurrencesMembership(region, init, county, r);
      assert counties == init + [counties[|counties| - 1]];
    }
  }

  lemma {:induction false} OccurrencesAbsent(region: string, counties: seq<string>, county: string)
    requires county !in counties
    ensures Occurrences(region, counties, county) == []
  {
    if counties != [] {
      OccurrencesAbsent(region, counties[..|counties| - 1], county);
    }
  }

  /** The regions the inverted lookup lists for `county`: in table order, each
      region once per occurrence of the county in its list. */
  function RegionsOf(table: RegionTable, county: string): seq<string> {
    if table == [] then []
    else RegionsOf(table[..|table| - 1], county) + Occurrences(table[|table| - 1].0, table[|table| - 1].1, county)
  }

  /** The inversion is exact: region r is listed for county c iff c is one of
      the counties of r. */
  lemma {:induction false} RegionsOfMembership(table: RegionTable, county: string, region: string)
    ensures region in RegionsOf(table, county) <==>
      exists i :: 0 <= i < |table| && table[i].0 == region && county in table[i].1
  {
    if table != [] {
      var prefix := table[..|table| - 1];
      var last := table[|table| - 1];
      RegionsOfMembership(prefix, county, region);
      OccurrencesMembership(last.0, last.1, county, region);
      assert RegionsOf(table, county) == RegionsOf(prefix, county) + Occurrences(last.0, last.1, county);
      if region in RegionsOf(table, county) {
        if region !in RegionsOf(prefix, county) {
          assert table[|table| - 1].0 == region && county in table[|table| - 1].1;
        } else {
          var i :| 0 <= i < |prefix| && prefix[i].0 == region && county in prefix[i].1;
          assert table[i] == prefix[i];
        }
      } else {
        forall i | 0 <= i < |table| && table[i].0 == region
          ensures county !in table[i].1
        {
          if i < |prefix| {
            assert table[i] == prefix[i];
          }
        }
      }
    }
  }

  /** A county that no region names is listed with no region. */
  lemma {:induction false} RegionsOfUnknown(table: RegionTable, county: string)
    requires county !in Counties(table)
    ensures RegionsOf(table, county) == []
  {
    if table != [] {
      var prefix := table[..|table| - 1];
      var lastCounties := table[|table| - 1].1;
      assert Counties(table) == Counties(prefix) + set c | c in lastCounties;
      RegionsOfUnknown(prefix, county);
      OccurrencesAbsent(table[|table| - 1].0, table[|table| - 1].1, county);
    }
  }

  /** The county lookup as a defaultdict reads it: a missing county has the empty list. */
  function Lookup(index: map<string, seq<string>>, county: string): seq<string> {
    if county in index then index[county] else []
  }

  /** The lookup after one more region of the table has been inverted. */
  lemma RegionsOfSnoc(table: RegionTable, i: nat, county: string)
    requires i < |table|
    ensures RegionsOf(table[..i + 1], county) == RegionsOf(table[..i], county) + Occurrences(table[i].0, table[i].1, county)
  {
    assert table[..i + 1][..i] == table[..i];
  }

  /** The counties named after one more region of the table. */
  lemma CountiesSnoc(table: RegionTable, i: nat)
    requires i < |table|
    ensures Counties(table[..i + 1]) == Counties(table[..i]) + set c | c in table[i].1
  {
    assert table[..i + 1][..i] == table[..i];
  }

  /** The occurrences after one more county of a region's list has been seen. */
  lemma OccurrencesSnoc(region: string, counties: seq<string>, j: nat, county: string)
    requires j < |counties|
    ensures Occurrences(region, counties[..j + 1], county)
      == Occurrences(region, counties[..j], county) + (if counties[j] == county then [region] else [])
  {
    assert counties[..j + 1][..j] == counties[..j];
  }

  /** Appending to one county's list (a missing one counts as empty) changes no other list. */
  lemma LookupAppend(index: map<string, seq<string>>, county: string, region: string, c: string)
    ensures Lookup(index[county := Lookup(index, county) + [region]], c)
      == Lookup(index, c) + (if county == c then [region] else [])
  {
  }

  lemma AppendAssoc(a: seq<string>, b: seq<string>, c: seq<string>)
    ensures (a + b) + c == a + (b + c)
  {
  }

  /** The module-level inversion loop: for every region in table order and every
      county in its list, the region is appended to that county's list. */
  method InvertRegionTable(table: RegionTable) returns (index: map<string, seq<string>>)
    ensures forall c :: c in index <==> c in Counties(table)
    ensures forall c :: Lookup(index, c) == RegionsOf(table, c)
  {
    index := map[];
    var i := 0;
    while i < |table|
      invariant 0 <= i <= |table|
      invariant forall c :: c in index <==> c in Counties(table[..i])
      invariant forall c :: Lookup(index, c) == RegionsOf(table[..i], c)
    {
      var (region, counties) := table[i];
      ghost var before := index;
      var j := 0;
      while j < |counties|
        invariant 0 <= j <= |counties|
        invariant forall c :: c in index <==> c in before || c in counties[..j]
        invariant forall c :: Lookup(index, c) == Lookup(before, c) + Occurrences(region, counties[..j], c)
      {
        var county := counties[j];
        ghost var prev := index;
        index := index[county := Lookup(index, county) + [region]];
        forall c ensures Lookup(index, c) == Lookup(before, c) + Occurrences(region, counties[..j + 1], c) {
          OccurrencesSnoc(region, counties, j, c);
          var added: seq<string> := if county == c then [region] else [];
          LookupAppend(prev, county, region, c);
          AppendAssoc(Lookup(before, c), Occurrences(region, counties[..j], c), added);
        }
        forall c ensures c in counties[..j + 1] <==> c in counties[..j] || c == county {
          if c in counties[..j + 1] {
            var k :| 0 <= k <= j && counties[..j + 1][k] == c;
            if k < j {
              assert counties[..j][k] == c;
            }
          }
          if c in counties[..j] {
            var k :| 0 <= k < j && counties[..j][k] == c;
            assert counties[..j + 1][k] == c;
          }
          if c == county {
            assert counties[..j + 1][j] == c;
          }
        }
        j := j + 1;
      }
      assert counties[..|counties|] == counties;
      CountiesSnoc(table, i);
      assert forall c :: c in index <==> c in Counties(table[..i + 1]);
      forall c ensures Lookup(index, c) == RegionsOf(table[..i + 1], c) {
        RegionsOfSnoc(table, i, c);
      }
      i := i + 1;
    }
    assert table[..|table|] == table;
  }

  /** The first two regions of the table both name Restigouche county. */
  lemma RestigoucheFirstRegions()
    ensures RegionsOf(NewBrunswickRegions[..2], "Restigouche") == ["Restigouche", "Chaleur"]
  {
    var t := NewBrunswickRegions;
    RegionsOfSnoc(t, 0, "Restigouche");
    RegionsOfSnoc(t, 1, "Restigouche");
  }

  /** No region after the second names Restigouche county. */
  lemma RestigoucheNotLater(k: nat)
    requires 2 <= k < |NewBrunswickRegions|
    ensures "Restigouche" !in NewBrunswickRegions[k].1
  {
  }

  /** Restigouche county lies in two regions, Restigouche and Chaleur. */
  lemma RestigoucheRegions()
    ensures RegionsOf(NewBrunswickRegions, "Restigouche") == ["Restigouche", "Chaleur"]
  {
    var t := NewBrunswickRegions;
    RestigoucheFirstRegions();
    var k := 2;
    while k < |t|
      invariant 2 <= k <= |t|
      invariant RegionsOf(t[..k], "Restigouche") == ["Restigouche", "Chaleur"]
    {
      RegionsOfSnoc(t, k, "Restigouche");
      RestigoucheNotLater(k);
      OccurrencesAbsent(t[k].0, t[k].1, "Restigouche");
      k := k + 1;
    }
    assert t[..|t|] == t;
  }

  /** Every region that comes out of one water body: its name, its type
      description and one region. */
  datatype RegionRow = RegionRow(name: string, waterType: string, region: string)

  /** The output table: `[name, water_type, region]` for every row, in order. */
  function OutputRows(results: seq<RegionRow>): (rows: seq<seq<string>>)
    ensures |rows| == |results|
    ensures forall i :: 0 <= i < |rows| ==>
      rows[i] == [results[i].name, results[i].waterType, results[i].region]
  {
    seq(|results|, i requires 0 <= i < |results| => [results[i].name, results[i].waterType, results[i].region])
  }

  /** `s` without repeats, each element kept at its first occurrence: the order in
      which this model lets a Python set built from `s` be iterated. */
  function Dedup(s: seq<string>): seq<string> {
    if s == [] then []
    else
      var r0 := Dedup(s[..|s| - 1]);
      if s[|s| - 1] in r0 then r0 else r0 + [s[|s| - 1]]
  }

  /** The de-duplicated sequence holds exactly the elements of `s`, each once. */
  lemma {:induction false} DedupSpec(s: seq<string>)
    ensures forall x :: x in Dedup(s) <==> x in s
    ensures forall i, j :: 0 <= i < j < |Dedup(s)| ==> Dedup(s)[i] != Dedup(s)[j]
  {
    if s != [] {
      var init := s[..|s| - 1];
      var x := s[|s| - 1];
      DedupSpec(init);
      assert s == init + [x];
      var r0 := Dedup(init);
      if x !in r0 {
        var r := r0 + [x];
        forall i, j | 0 <= i < j < |r| ensures r[i] != r[j] {
          assert r[i] == r0[i];
          if j < |r0| {
            assert r[j] == r0[j];
          }
        }
      }
    }
  }
}
