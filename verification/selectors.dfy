/**
 * The result functions of the frontend's Redux selectors (`selectors.js`): embassy codes
 * by crawler system, the pruned region -> country -> embassy option tree, and the
 * overview rows padded to the user's filter. Memoisation is not modelled.
 */
module Selectors {

  import opened Wrappers
  import opened Seqs
  import opened Catalog
  import opened EmbassyTree

  /** `makeEmbassyBySysSelector(sys)`: every code for "all", else the codes of that system, in list order. */
  function EmbassyBySys(lst: seq<Embassy>, sys: string): (r: seq<string>)
    ensures sys == "all" ==> r == Codes(lst)
    ensures Subseq(r, Codes(lst))
    ensures sys != "all" ==> forall code ::
      code in r <==> exists i :: 0 <= i < |lst| && lst[i].sys == sys && lst[i].code == code
  {
    if sys == "all" then
      SubseqRefl(Codes(lst));
      Codes(lst)
    else
      var p := (e: Embassy) => e.sys == sys;
      var f := Filter(lst, p);
      FilterSubseq(lst, p);
      CodesSubseq(f, lst);
      assert forall code :: code in Codes(f) ==> exists i :: 0 <= i < |lst| && lst[i].sys == sys && lst[i].code == code by {
        forall code | code in Codes(f) ensures exists i :: 0 <= i < |lst| && lst[i].sys == sys && lst[i].code == code {
          var k :| 0 <= k < |f| && Codes(f)[k] == code;
          assert f[k] in lst && p(f[k]);
          var i :| 0 <= i < |lst| && lst[i] == f[k];
        }
      }
      assert forall i :: 0 <= i < |lst| && lst[i].sys == sys ==> lst[i].code in Codes(f) by {
        forall i | 0 <= i < |lst| && lst[i].sys == sys ensures lst[i].code in Codes(f) {
          assert p(lst[i]);
          var k :| 0 <= k < |f| && f[k] == lst[i];
          assert Codes(f)[k] == lst[i].code;
        }
      }
      Codes(f)
  }

  /** An antd tree-select node: a translated title, the raw value as value and key, and children. */
  datatype TreeNode = TreeNode(title: string, value: string, key: string, children: seq<TreeNode>)

  function Keys(nodes: seq<TreeNode>): (r: seq<string>)
    ensures |r| == |nodes| && forall k :: 0 <= k < |nodes| ==> r[k] == nodes[k].key
  {
    seq(|nodes|, k requires 0 <= k < |nodes| => nodes[k].key)
  }

  /** The embassy leaves of one country: the options whose code is in the country's list and in the system's list. */
  function Leaves(lst: seq<Embassy>, codeLst: seq<string>, bySys: seq<string>, t: string -> string): (r: seq<TreeNode>)
    ensures Keys(r) == Codes(Filter(lst, (e: Embassy) => e.code in codeLst && e.code in bySys))
    ensures forall k :: 0 <= k < |r| ==> r[k].children == [] && r[k].title == t(r[k].key) && r[k].value == r[k].key
  {
    var f := Filter(lst, (e: Embassy) => e.code in codeLst && e.code in bySys);
    seq(|f|, i requires 0 <= i < |f| => TreeNode(t(f[i].code), f[i].code, f[i].code, []))
  }

  /** A code is a leaf exactly when some option has it and it is in both lists. */
  lemma LeavesExact(lst: seq<Embassy>, codeLst: seq<string>, bySys: seq<string>, t: string -> string, code: string)
    ensures code in Keys(Leaves(lst, codeLst, bySys, t))
      <==> code in codeLst && code in bySys && exists i :: 0 <= i < |lst| && lst[i].code == code
  {
    var p := (e: Embassy) => e.code in codeLst && e.code in bySys;
    var f := Filter(lst, p);
    assert Keys(Leaves(lst, codeLst, bySys, t)) == Codes(f);
    if code in Codes(f) {
      var k :| 0 <= k < |f| && Codes(f)[k] == code;
      assert f[k] in lst && p(f[k]);
      var i :| 0 <= i < |lst| && lst[i] == f[k];
    }
    if code in codeLst && code in bySys && exists i :: 0 <= i < |lst| && lst[i].code == code {
      var i :| 0 <= i < |lst| && lst[i].code == code;
      assert p(lst[i]);
      var k :| 0 <= k < |f| && f[k] == lst[i];
      assert Codes(f)[k] == code;
    }
  }

  /** The leaves follow the order of the embassy list, whatever the order of the country's list. */
  lemma LeavesInListOrder(lst: seq<Embassy>, codeLst: seq<string>, bySys: seq<string>, t: string -> string)
    ensures Subseq(Keys(Leaves(lst, codeLst, bySys, t)), Codes(lst))
  {
    var p := (e: Embassy) => e.code in codeLst && e.code in bySys;
    FilterSubseq(lst, p);
    CodesSubseq(Filter(lst, p), lst);
  }

  /** A list of nodes keeps the order of any list it is a subsequence of. */
  lemma {:induction false} KeysSubseq(a: seq<TreeNode>, b: seq<TreeNode>)
    requires Subseq(a, b)
    ensures Subseq(Keys(a), Keys(b))
    decreases |b|
  {
    if a == [] {
      SubseqEmpty(Keys(b));
    } else if b != [] {
      assert Keys(b) == [b[0].key] + Keys(b[1..]);
      if a[0] == b[0] {
        KeysSubseq(a[1..], b[1..]);
        assert Keys(a) == [a[0].key] + Keys(a[1..]);
        SubseqCons(Keys(a[1..]), Keys(b[1..]), b[0].key);
      } else {
        KeysSubseq(a, b[1..]);
        SubseqDrop(Keys(a), Keys(b[1..]), b[0].key);
      }
    }
  }

  /** The node of one country before pruning. */
  function CountryTreeNode(c: CountryNode, lst: seq<Embassy>, bySys: seq<string>, t: string -> string): TreeNode
  {
    TreeNode(t(c.country), c.country, c.country, Leaves(lst, c.embassyCodeLst, bySys, t))
  }

  /** The country nodes of one region, dropping those without leaves. */
  function CountryNodes(cs: seq<CountryNode>, lst: seq<Embassy>, bySys: seq<string>, t: string -> string)
    : seq<TreeNode>
  {
    Filter(seq(|cs|, j requires 0 <= j < |cs| => CountryTreeNode(cs[j], lst, bySys, t)),
      (n: TreeNode) => n.children != [])
  }

  /**
   * A country node is kept exactly when it has leaves: every node of the output is the
   * node of some input country and is not empty, every input country with leaves is
   * in the output, and the output follows the order of the input countries.
   */
  lemma CountryNodesExact(cs: seq<CountryNode>, lst: seq<Embassy>, bySys: seq<string>, t: string -> string)
    ensures var r := CountryNodes(cs, lst, bySys, t);
      forall k :: 0 <= k < |r| ==>
        && r[k].children != []
        && exists j :: 0 <= j < |cs| && r[k] == CountryTreeNode(cs[j], lst, bySys, t)
    ensures forall j :: 0 <= j < |cs| && Leaves(lst, cs[j].embassyCodeLst, bySys, t) != [] ==>
      CountryTreeNode(cs[j], lst, bySys, t) in CountryNodes(cs, lst, bySys, t)
    ensures Subseq(Keys(CountryNodes(cs, lst, bySys, t)), CountryNames(cs))
  {
    var all := seq(|cs|, j requires 0 <= j < |cs| => CountryTreeNode(cs[j], lst, bySys, t));
    var p := (n: TreeNode) => n.children != [];
    var r := Filter(all, p);
    forall k | 0 <= k < |r|
      ensures r[k].children != [] && exists j :: 0 <= j < |cs| && r[k] == CountryTreeNode(cs[j], lst, bySys, t)
    {
      assert r[k] in all && p(r[k]);
      var j :| 0 <= j < |all| && all[j] == r[k];
    }
    forall j | 0 <= j < |cs| && Leaves(lst, cs[j].embassyCodeLst, bySys, t) != []
      ensures CountryTreeNode(cs[j], lst, bySys, t) in r
    {
      assert p(all[j]);
    }
    FilterSubseq(all, p);
    KeysSubseq(r, all);
    assert Keys(all) == CountryNames(cs);
  }

  /** The node of one region before pruning. */
  function RegionTreeNode(g: RegionNode, lst: seq<Embassy>, bySys: seq<string>, t: string -> string): TreeNode
  {
    TreeNode(t(g.region), g.region, g.region, CountryNodes(g.countryEmbassyMap, lst, bySys, t))
  }

  /** The region nodes, dropping those without country nodes. */
  function RegionNodes(rce: seq<RegionNode>, lst: seq<Embassy>, bySys: seq<string>, t: string -> string)
    : seq<TreeNode>
  {
    Filter(seq(|rce|, j requires 0 <= j < |rce| => RegionTreeNode(rce[j], lst, bySys, t)),
      (n: TreeNode) => n.children != [])
  }

  /** A region node is kept exactly when it has a country node, in the order of the input regions. */
  lemma RegionNodesExact(rce: seq<RegionNode>, lst: seq<Embassy>, bySys: seq<string>, t: string -> string)
    ensures var r := RegionNodes(rce, lst, bySys, t);
      forall k :: 0 <= k < |r| ==>
        && r[k].children != []
        && exists j :: 0 <= j < |rce| && r[k] == RegionTreeNode(rce[j], lst, bySys, t)
    ensures forall j :: 0 <= j < |rce| && CountryNodes(rce[j].countryEmbassyMap, lst, bySys, t) != [] ==>
      RegionTreeNode(rce[j], lst, bySys, t) in RegionNodes(rce, lst, bySys, t)
    ensures Subseq(Keys(RegionNodes(rce, lst, bySys, t)), RegionNames(rce))
  {
    var all := seq(|rce|, j requires 0 <= j < |rce| => RegionTreeNode(rce[j], lst, bySys, t));
    var p := (n: TreeNode) => n.children != [];
    var r := Filter(all, p);
    forall k | 0 <= k < |r|
      ensures r[k].children != [] && exists j :: 0 <= j < |rce| && r[k] == RegionTreeNode(rce[j], lst, bySys, t)
    {
      assert r[k] in all && p(r[k]);
      var j :| 0 <= j < |all| && all[j] == r[k];
    }
    forall j | 0 <= j < |rce| && CountryNodes(rce[j].countryEmbassyMap, lst, bySys, t) != []
      ensures RegionTreeNode(rce[j], lst, bySys, t) in r
    {
      assert p(all[j]);
    }
    FilterSubseq(all, p);
    KeysSubseq(r, all);
    assert Keys(all) == RegionNames(rce);
  }

  /** `makeEmbassyTreeSelector(sys, t)`: the region tree pruned to the embassies of the system. */
  function EmbassyTreeSelector(lst: seq<Embassy>, rce: seq<RegionNode>, sys: string, t: string -> string)
    : seq<TreeNode>
  {
    RegionNodes(rce, lst, EmbassyBySys(lst, sys), t)
  }

  /**
   * Every leaf of the pruned tree is an embassy of the list, of the system asked for
   * (any system for "all"), and listed under its country and region in the input tree;
   * no region and no country of the output is empty.
   */
  lemma TreeLeafSound(lst: seq<Embassy>, rce: seq<RegionNode>, sys: string, t: string -> string, a: nat, b: nat, code: string)
    requires a < |EmbassyTreeSelector(lst, rce, sys, t)|
    requires b < |EmbassyTreeSelector(lst, rce, sys, t)[a].children|
    requires code in Keys(EmbassyTreeSelector(lst, rce, sys, t)[a].children[b].children)
    ensures exists i :: 0 <= i < |lst| && lst[i].code == code && (sys == "all" || lst[i].sys == sys)
    ensures exists j, k ::
      && 0 <= j < |rce| && 0 <= k < |rce[j].countryEmbassyMap|
      && rce[j].region == EmbassyTreeSelector(lst, rce, sys, t)[a].key
      && rce[j].countryEmbassyMap[k].country == EmbassyTreeSelector(lst, rce, sys, t)[a].children[b].key
      && code in rce[j].countryEmbassyMap[k].embassyCodeLst
    ensures EmbassyTreeSelector(lst, rce, sys, t)[a].children != []
    ensures EmbassyTreeSelector(lst, rce, sys, t)[a].children[b].children != []
  {
    var bySys := EmbassyBySys(lst, sys);
    var r := RegionNodes(rce, lst, bySys, t);
    RegionNodesExact(rce, lst, bySys, t);
    var j :| 0 <= j < |rce| && r[a] == RegionTreeNode(rce[j], lst, bySys, t);
    var cs := rce[j].countryEmbassyMap;
    var countries := CountryNodes(cs, lst, bySys, t);
    assert r[a].children == countries;
    CountryNodesExact(cs, lst, bySys, t);
    var k :| 0 <= k < |cs| && countries[b] == CountryTreeNode(cs[k], lst, bySys, t);
    LeavesExact(lst, cs[k].embassyCodeLst, bySys, t, code);
    if sys == "all" {
      var i :| 0 <= i < |lst| && lst[i].code == code;
    } else {
      var i :| 0 <= i < |lst| && lst[i].sys == sys && lst[i].code == code;
    }
  }

  /**
   * Conversely, every embassy of the system asked for that the input tree lists under a
   * country appears as a leaf of that country's node, under that region's node.
   */
  lemma TreeLeafComplete(lst: seq<Embassy>, rce: seq<RegionNode>, sys: string, t: string -> string, i: nat, j: nat, k: nat)
    requires i < |lst| && (sys == "all" || lst[i].sys == sys)
    requires j < |rce| && k < |rce[j].countryEmbassyMap|
    requires lst[i].code in rce[j].countryEmbassyMap[k].embassyCodeLst
    ensures var bySys := EmbassyBySys(lst, sys);
      var country := CountryTreeNode(rce[j].countryEmbassyMap[k], lst, bySys, t);
      lst[i].code in Keys(country.children)
      && country in RegionTreeNode(rce[j], lst, bySys, t).children
      && RegionTreeNode(rce[j], lst, bySys, t) in EmbassyTreeSelector(lst, rce, sys, t)
  {
    var bySys := EmbassyBySys(lst, sys);
    var cs := rce[j].countryEmbassyMap;
    assert lst[i].code in bySys by {
      if sys == "all" {
        assert Codes(lst)[i] == lst[i].code;
      }
    }
    LeavesExact(lst, cs[k].embassyCodeLst, bySys, t, lst[i].code);
    CountryNodesExact(cs, lst, bySys, t);
    RegionNodesExact(rce, lst, bySys, t);
  }

  /** An overview row. */
  datatype Overview = Overview(visaType: string, embassyCode: string, earliestDate: seq<string>, latestDate: seq<string>)

  /** The row shown for a filtered code without data. */
  function Placeholder(visaType: string, code: string): Overview
  {
    Overview(visaType, code, ["/"], ["/"])
  }

  /** `makeOverviewDetailSelector(visaType)`: one row per filter code, the first matching row or the placeholder. */
  function OverviewDetail(overview: seq<Overview>, filter: seq<string>, visaType: string): (r: seq<Overview>)
    ensures |r| == |filter|
    ensures forall i :: 0 <= i < |filter| ==> r[i].embassyCode == filter[i]
  {
    seq(|filter|, i requires 0 <= i < |filter| =>
      match First(overview, (ov: Overview) => ov.embassyCode == filter[i])
      case Some(ov) => ov
      case None => Placeholder(visaType, filter[i]))
  }

  /** `k` is the position of the first row for `code`. */
  predicate IsFirstRow(overview: seq<Overview>, code: string, k: nat) {
    k < |overview| && overview[k].embassyCode == code
    && forall j :: 0 <= j < k ==> overview[j].embassyCode != code
  }

  /** A code with data shows its first row; a code without data shows "/" for both dates. */
  lemma OverviewDetailRow(overview: seq<Overview>, filter: seq<string>, visaType: string, i: nat)
    requires i < |filter|
    ensures (forall k :: 0 <= k < |overview| ==> overview[k].embassyCode != filter[i]) ==>
      OverviewDetail(overview, filter, visaType)[i] == Placeholder(visaType, filter[i])
    ensures forall k: nat :: IsFirstRow(overview, filter[i], k) ==>
      OverviewDetail(overview, filter, visaType)[i] == overview[k]
  {
    var p := (ov: Overview) => ov.embassyCode == filter[i];
    forall k: nat | IsFirstRow(overview, filter[i], k)
      ensures OverviewDetail(overview, filter, visaType)[i] == overview[k]
    {
      FirstOfEarliest(overview, p, k);
    }
  }
}
