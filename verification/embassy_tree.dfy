/**
 * `USEmbassy.get_region_country_embassy_tree`: the embassy table grouped into
 * region -> country -> embassy codes. The source fills a nested, insertion-ordered
 * dictionary in one pass over the table; here the dictionaries are association
 * sequences whose keys are kept distinct.
 */
module EmbassyTree {

  import opened Seqs
  import opened Catalog

  /** One `{'country', 'embassy_code_lst'}` entry. */
  datatype CountryNode = CountryNode(country: string, embassyCodeLst: seq<string>)

  /** One `{'region', 'country_embassy_map'}` entry. */
  datatype RegionNode = RegionNode(region: string, countryEmbassyMap: seq<CountryNode>)

  function CountryNames(cs: seq<CountryNode>): (r: seq<string>)
    ensures |r| == |cs| && forall k :: 0 <= k < |cs| ==> r[k] == cs[k].country
  {
    seq(|cs|, k requires 0 <= k < |cs| => cs[k].country)
  }

  function RegionNames(t: seq<RegionNode>): (r: seq<string>)
    ensures |r| == |t| && forall k :: 0 <= k < |t| ==> r[k] == t[k].region
  {
    seq(|t|, k requires 0 <= k < |t| => t[k].region)
  }

  /** The codes filed under `country`; none when the country has no entry. */
  function CountryCodes(cs: seq<CountryNode>, country: string): seq<string>
  {
    if cs == [] then []
    else if cs[0].country == country then cs[0].embassyCodeLst
    else CountryCodes(cs[1..], country)
  }

  /** The country entries filed under `region`; none when the region has no entry. */
  function RegionCountries(t: seq<RegionNode>, region: string): seq<CountryNode>
  {
    if t == [] then []
    else if t[0].region == region then t[0].countryEmbassyMap
    else RegionCountries(t[1..], region)
  }

  /** `tree[region][country]` of the source's nested dictionary (empty when absent). */
  function TreeCodes(t: seq<RegionNode>, region: string, country: string): seq<string>
  {
    CountryCodes(RegionCountries(t, region), country)
  }

  /** A country map as a dictionary leaves it: keys distinct, every list non-empty, at least one key. */
  predicate CountriesOk(cs: seq<CountryNode>) {
    cs != [] && NoDup(CountryNames(cs)) && forall k :: 0 <= k < |cs| ==> cs[k].embassyCodeLst != []
  }

  /** A tree as the source's dictionaries leave it: regions distinct and every country map well formed. */
  predicate WellFormed(t: seq<RegionNode>) {
    NoDup(RegionNames(t)) && MapsOk(t)
  }

  predicate MapsOk(t: seq<RegionNode>) {
    forall k :: 0 <= k < |t| ==> CountriesOk(t[k].countryEmbassyMap)
  }

  /** `ce_map[country].append(code)`, where `ce_map` is a `defaultdict(list)`. */
  function AddCode(cs: seq<CountryNode>, country: string, code: string): seq<CountryNode>
    decreases |cs|
  {
    if cs == [] then [CountryNode(country, [code])]
    else if cs[0].country == country then [CountryNode(country, cs[0].embassyCodeLst + [code])] + cs[1..]
    else [cs[0]] + AddCode(cs[1..], country, code)
  }

  /** `rce_tree[region][country].append(code)` on the nested `defaultdict`. */
  function AddToTree(t: seq<RegionNode>, region: string, country: string, code: string): seq<RegionNode>
    decreases |t|
  {
    if t == [] then [RegionNode(region, [CountryNode(country, [code])])]
    else if t[0].region == region then [RegionNode(region, AddCode(t[0].countryEmbassyMap, country, code))] + t[1..]
    else [t[0]] + AddToTree(t[1..], region, country, code)
  }

  /** The appended code lands at the end of `country`'s list; every other country's list is unchanged. */
  lemma {:induction false} AddCodeLookup(cs: seq<CountryNode>, country: string, code: string, c: string)
    ensures CountryCodes(AddCode(cs, country, code), c)
      == CountryCodes(cs, c) + (if c == country then [code] else [])
    decreases |cs|
  {
    var r := AddCode(cs, country, code);
    if cs != [] {
      if cs[0].country == country {
        assert r[1..] == cs[1..];
      } else {
        AddCodeLookup(cs[1..], country, code, c);
        assert r[1..] == AddCode(cs[1..], country, code);
      }
    }
  }

  /** A new country key goes to the end; an existing one keeps its place. */
  lemma {:induction false} AddCodeNames(cs: seq<CountryNode>, country: string, code: string)
    ensures CountryNames(AddCode(cs, country, code))
      == if country in CountryNames(cs) then CountryNames(cs) else CountryNames(cs) + [country]
    decreases |cs|
  {
    var r := AddCode(cs, country, code);
    if cs == [] {
      assert CountryNames(r) == [country];
    } else if cs[0].country == country {
      assert r[1..] == cs[1..];
      assert CountryNames(r) == CountryNames(cs);
      assert country in CountryNames(cs) by { assert CountryNames(cs)[0] == country; }
    } else {
      var rest := AddCode(cs[1..], country, code);
      AddCodeNames(cs[1..], country, code);
      assert r == [cs[0]] + rest;
      assert cs == [cs[0]] + cs[1..];
      CountryNamesCons(cs[0], cs[1..]);
      CountryNamesCons(cs[0], rest);
      ConsNames(cs[0].country, CountryNames(cs[1..]), CountryNames(rest), country);
    }
  }

  /** Putting a different name in front keeps the "append unless present" shape. */
  lemma ConsNames(head: string, tail: seq<string>, added: seq<string>, name: string)
    requires head != name
    requires added == if name in tail then tail else tail + [name]
    ensures [head] + added == if name in [head] + tail then [head] + tail else [head] + tail + [name]
  {
    assert name in [head] + tail <==> name in tail;
    if name !in tail {
      assert [head] + (tail + [name]) == [head] + tail + [name];
    }
  }

  lemma {:induction false} AddCodeNonEmpty(cs: seq<CountryNode>, country: string, code: string)
    requires forall k :: 0 <= k < |cs| ==> cs[k].embassyCodeLst != []
    ensures forall k :: 0 <= k < |AddCode(cs, country, code)| ==> AddCode(cs, country, code)[k].embassyCodeLst != []
    decreases |cs|
  {
    if cs != [] && cs[0].country != country {
      AddCodeNonEmpty(cs[1..], country, code);
      var r := AddCode(cs, country, code);
      assert forall k :: 1 <= k < |r| ==> r[k] == AddCode(cs[1..], country, code)[k - 1];
    }
  }

  /** The appended code lands at the end of its region and country's list; every other list is unchanged. */
  lemma {:induction false} AddToTreeLookup(t: seq<RegionNode>, region: string, country: string, code: string,
                                           g: string, c: string)
    ensures TreeCodes(AddToTree(t, region, country, code), g, c)
      == TreeCodes(t, g, c) + (if g == region && c == country then [code] else [])
    decreases |t|
  {
    var r := AddToTree(t, region, country, code);
    if t == [] {
      assert RegionCountries(r, g) == if g == region then [CountryNode(country, [code])] else [];
    } else if t[0].region == region {
      assert r[1..] == t[1..];
      if g == region {
        AddCodeLookup(t[0].countryEmbassyMap, country, code, c);
      }
    } else {
      AddToTreeLookup(t[1..], region, country, code, g, c);
      assert r[1..] == AddToTree(t[1..], region, country, code);
    }
  }

  /** A new region key goes to the end; an existing one keeps its place. */
  lemma {:induction false} AddToTreeNames(t: seq<RegionNode>, region: string, country: string, code: string)
    ensures RegionNames(AddToTree(t, region, country, code))
      == if region in RegionNames(t) then RegionNames(t) else RegionNames(t) + [region]
    decreases |t|
  {
    if t == [] {
      assert RegionNames(AddToTree(t, region, country, code)) == [region];
    } else if t[0].region == region {
      AddToTreeNamesHere(t, region, country, code);
    } else {
      AddToTreeNames(t[1..], region, country, code);
      AddToTreeNamesPast(t, region, country, code);
    }
  }

  /** The region at the head of the tree is the one the code goes to: the names stay. */
  lemma AddToTreeNamesHere(t: seq<RegionNode>, region: string, country: string, code: string)
    requires t != [] && t[0].region == region
    ensures RegionNames(AddToTree(t, region, country, code)) == RegionNames(t)
    ensures region in RegionNames(t)
  {
    var r := AddToTree(t, region, country, code);
    assert r[1..] == t[1..];
    assert RegionNames(t)[0] == region;
  }

  /** The region at the head differs: its name stays in front of the names of the rest. */
  lemma AddToTreeNamesPast(t: seq<RegionNode>, region: string, country: string, code: string)
    requires t != [] && t[0].region != region
    requires RegionNames(AddToTree(t[1..], region, country, code))
      == if region in RegionNames(t[1..]) then RegionNames(t[1..]) else RegionNames(t[1..]) + [region]
    ensures RegionNames(AddToTree(t, region, country, code))
      == if region in RegionNames(t) then RegionNames(t) else RegionNames(t) + [region]
  {
    var rest := AddToTree(t[1..], region, country, code);
    assert AddToTree(t, region, country, code) == [t[0]] + rest;
    assert t == [t[0]] + t[1..];
    RegionNamesCons(t[0], t[1..]);
    RegionNamesCons(t[0], rest);
    ConsNames(t[0].region, RegionNames(t[1..]), RegionNames(rest), region);
  }

  lemma RegionNamesCons(x: RegionNode, t: seq<RegionNode>)
    ensures RegionNames([x] + t) == [x.region] + RegionNames(t)
  {
  }

  lemma CountryNamesCons(x: CountryNode, cs: seq<CountryNode>)
    ensures CountryNames([x] + cs) == [x.country] + CountryNames(cs)
  {
  }

  /** Adding a code keeps a country map well formed. */
  lemma AddCodeOk(cs: seq<CountryNode>, country: string, code: string)
    requires cs == [] || CountriesOk(cs)
    ensures CountriesOk(AddCode(cs, country, code))
  {
    var r := AddCode(cs, country, code);
    AddCodeNames(cs, country, code);
    AddCodeNonEmpty(cs, country, code);
    assert |r| == |CountryNames(r)| >= 1;
    if country !in CountryNames(cs) {
      NoDupSnoc(CountryNames(cs), country);
    }
  }

  /** Adding a code keeps the region keys distinct. */
  lemma AddToTreeNoDup(t: seq<RegionNode>, region: string, country: string, code: string)
    requires NoDup(RegionNames(t))
    ensures NoDup(RegionNames(AddToTree(t, region, country, code)))
  {
    AddToTreeNames(t, region, country, code);
    if region !in RegionNames(t) {
      NoDupSnoc(RegionNames(t), region);
    }
  }

  /** Adding a code keeps every country map well formed. */
  lemma {:induction false} AddToTreeMapsOk(t: seq<RegionNode>, region: string, country: string, code: string)
    requires MapsOk(t)
    ensures MapsOk(AddToTree(t, region, country, code))
    decreases |t|
  {
    var r := AddToTree(t, region, country, code);
    if t == [] {
      AddCodeOk([], country, code);
      assert r[0].countryEmbassyMap == AddCode([], country, code);
    } else if t[0].region == region {
      AddCodeOk(t[0].countryEmbassyMap, country, code);
      forall k | 0 <= k < |r| ensures CountriesOk(r[k].countryEmbassyMap) {
        if k > 0 {
          assert r[k] == t[k];
        }
      }
    } else {
      var rest := AddToTree(t[1..], region, country, code);
      assert MapsOk(t[1..]) by {
        forall k | 0 <= k < |t[1..]| ensures CountriesOk(t[1..][k].countryEmbassyMap) {
          assert t[1..][k] == t[k + 1];
        }
      }
      AddToTreeMapsOk(t[1..], region, country, code);
      assert r == [t[0]] + rest;
      forall k | 0 <= k < |r| ensures CountriesOk(r[k].countryEmbassyMap) {
        if k > 0 {
          assert r[k] == rest[k - 1];
        } else {
          assert r[0] == t[0];
        }
      }
    }
  }

  /** Adding a code keeps the tree well formed. */
  lemma AddToTreeWellFormed(t: seq<RegionNode>, region: string, country: string, code: string)
    requires WellFormed(t)
    ensures WellFormed(AddToTree(t, region, country, code))
  {
    AddToTreeNoDup(t, region, country, code);
    AddToTreeMapsOk(t, region, country, code);
  }

  /** The tree is well formed after every prefix of the table. */
  lemma {:induction false} TreeOfWellFormed(lst: seq<Embassy>)
    ensures WellFormed(TreeOf(lst))
    decreases |lst|
  {
    if lst != [] {
      var e := lst[|lst| - 1];
      TreeOfWellFormed(lst[..|lst| - 1]);
      AddToTreeWellFormed(TreeOf(lst[..|lst| - 1]), e.region, e.country, e.code);
    }
  }

  /** The tree the source's loop builds from the first embassies of `lst`, one `append` per embassy. */
  function TreeOf(lst: seq<Embassy>): seq<RegionNode>
    decreases |lst|
  {
    if lst == [] then []
    else
      var e := lst[|lst| - 1];
      AddToTree(TreeOf(lst[..|lst| - 1]), e.region, e.country, e.code)
  }

  /** The codes of the embassies of `lst` in `region` and `country`, in table order. */
  function CodesAt(lst: seq<Embassy>, region: string, country: string): seq<string>
  {
    Codes(Filter(lst, (e: Embassy) => e.region == region && e.country == country))
  }

  lemma CodesAppend(a: seq<Embassy>, b: seq<Embassy>)
    ensures Codes(a + b) == Codes(a) + Codes(b)
  {
    assert forall k :: 0 <= k < |a| ==> (a + b)[k] == a[k];
    assert forall k :: |a| <= k < |a + b| ==> (a + b)[k] == b[k - |a|];
  }

  lemma CodesAtSnoc(lst: seq<Embassy>, e: Embassy, region: string, country: string)
    ensures CodesAt(lst + [e], region, country)
      == CodesAt(lst, region, country) + (if e.region == region && e.country == country then [e.code] else [])
  {
    var p := (x: Embassy) => x.region == region && x.country == country;
    FilterAppend(lst, [e], p);
    assert [e][1..] == [];
    CodesAppend(Filter(lst, p), Filter([e], p));
  }

  /** Under every region and country the tree holds exactly that pair's codes, in table order. */
  lemma {:induction false} TreeOfLookup(lst: seq<Embassy>, region: string, country: string)
    ensures TreeCodes(TreeOf(lst), region, country) == CodesAt(lst, region, country)
    decreases |lst|
  {
    if lst != [] {
      var init, e := lst[..|lst| - 1], lst[|lst| - 1];
      TreeOfLookup(init, region, country);
      AddToTreeLookup(TreeOf(init), e.region, e.country, e.code, region, country);
      assert lst == init + [e];
      CodesAtSnoc(init, e, region, country);
    }
  }

  /** The regions of the tree are those of the table, once each, in order of first appearance. */
  lemma {:induction false} TreeOfRegions(lst: seq<Embassy>)
    ensures RegionNames(TreeOf(lst)) == Regions(lst)
    decreases |lst|
  {
    if lst != [] {
      var init := lst[..|lst| - 1];
      TreeOfRegions(init);
      var e := lst[|lst| - 1];
      AddToTreeNames(TreeOf(init), e.region, e.country, e.code);
      var col := RegionColumn(lst);
      assert col[..|col| - 1] == RegionColumn(init);
    }
  }

  /**
   * In a table keyed by code, each embassy's code is filed under its own region and
   * country and under no other pair.
   */
  lemma TreeCodeHome(lst: seq<Embassy>, i: nat, region: string, country: string)
    requires CodesUnique(lst) && i < |lst|
    ensures lst[i].code in TreeCodes(TreeOf(lst), region, country)
      <==> lst[i].region == region && lst[i].country == country
  {
    TreeOfLookup(lst, region, country);
    var p := (e: Embassy) => e.region == region && e.country == country;
    var f := Filter(lst, p);
    var codes := Codes(f);
    assert codes == CodesAt(lst, region, country);
    if lst[i].region == region && lst[i].country == country {
      assert p(lst[i]);
      var k :| 0 <= k < |f| && f[k] == lst[i];
      assert codes[k] == lst[i].code;
    }
    if lst[i].code in codes {
      var k :| 0 <= k < |codes| && codes[k] == lst[i].code;
      assert f[k] in lst && f[k].region == region && f[k].country == country;
      var j :| 0 <= j < |lst| && lst[j] == f[k];
    }
  }

  lemma {:induction false} CountryCodesAt(cs: seq<CountryNode>, k: nat)
    requires NoDup(CountryNames(cs)) && k < |cs|
    ensures CountryCodes(cs, cs[k].country) == cs[k].embassyCodeLst
    decreases k
  {
    if k > 0 {
      assert cs[0].country != cs[k].country by {
        assert CountryNames(cs)[0] == cs[0].country && CountryNames(cs)[k] == cs[k].country;
      }
      assert NoDup(CountryNames(cs[1..])) by {
        forall i, j | 0 <= i < j < |cs[1..]| ensures CountryNames(cs[1..])[i] != CountryNames(cs[1..])[j] {
          assert CountryNames(cs[1..])[i] == CountryNames(cs)[i + 1];
          assert CountryNames(cs[1..])[j] == CountryNames(cs)[j + 1];
        }
      }
      CountryCodesAt(cs[1..], k - 1);
    }
  }

  lemma {:induction false} RegionCountriesAt(t: seq<RegionNode>, k: nat)
    requires NoDup(RegionNames(t)) && k < |t|
    ensures RegionCountries(t, t[k].region) == t[k].countryEmbassyMap
    decreases k
  {
    if k > 0 {
      assert t[0].region != t[k].region by {
        assert RegionNames(t)[0] == t[0].region && RegionNames(t)[k] == t[k].region;
      }
      assert NoDup(RegionNames(t[1..])) by {
        forall i, j | 0 <= i < j < |t[1..]| ensures RegionNames(t[1..])[i] != RegionNames(t[1..])[j] {
          assert RegionNames(t[1..])[i] == RegionNames(t)[i + 1];
          assert RegionNames(t[1..])[j] == RegionNames(t)[j + 1];
        }
      }
      RegionCountriesAt(t[1..], k - 1);
    }
  }

  /**
   * Every country entry of the tree lists exactly the codes of the table's embassies in
   * that region and country, in table order, and that list is never empty.
   */
  lemma TreeNodeCodes(lst: seq<Embassy>, a: nat, b: nat)
    requires a < |TreeOf(lst)| && b < |TreeOf(lst)[a].countryEmbassyMap|
    ensures TreeOf(lst)[a].countryEmbassyMap[b].embassyCodeLst
      == CodesAt(lst, TreeOf(lst)[a].region, TreeOf(lst)[a].countryEmbassyMap[b].country)
    ensures TreeOf(lst)[a].countryEmbassyMap[b].embassyCodeLst != []
  {
    var t := TreeOf(lst);
    var cs := t[a].countryEmbassyMap;
    TreeOfWellFormed(lst);
    RegionCountriesAt(t, a);
    assert CountriesOk(cs);
    CountryCodesAt(cs, b);
    TreeOfLookup(lst, t[a].region, cs[b].country);
  }

  /** The source's loop: one pass over the table, appending each code under its region and country. */
  method BuildTree(lst: seq<Embassy>) returns (tree: seq<RegionNode>)
    ensures tree == TreeOf(lst)
    ensures WellFormed(tree)
    ensures RegionNames(tree) == Regions(lst)
    ensures forall region, country :: TreeCodes(tree, region, country) == CodesAt(lst, region, country)
  {
    tree := [];
    for i := 0 to |lst|
      invariant tree == TreeOf(lst[..i])
    {
      assert lst[..i + 1][..i] == lst[..i];
      tree := AddToTree(tree, lst[i].region, lst[i].country, lst[i].code);
    }
    assert lst[..|lst|] == lst;
    TreeOfWellFormed(lst);
    TreeOfRegions(lst);
    forall region, country ensures TreeCodes(tree, region, country) == CodesAt(lst, region, country) {
      TreeOfLookup(lst, region, country);
    }
  }

  /** `get_region_country_embassy_tree()` over the embassy table. */
  method GetRegionCountryEmbassyTree() returns (tree: seq<RegionNode>)
    ensures WellFormed(tree)
    ensures RegionNames(tree) == Regions(GetEmbassyLst())
    ensures forall region, country ::
      TreeCodes(tree, region, country) == CodesAt(GetEmbassyLst(), region, country)
  {
    tree := BuildTree(GetEmbassyLst());
  }
}
