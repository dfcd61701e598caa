/**
  The asset inventory: a fixed list of assets, filtered by type, criticality
  and a free-text search, and the statistics shown above the list.
 */
module Assets {
  import opened ListView
  import opened Text

  datatype AssetType = Server | Network | Application | Endpoint
  {
    function Name(): string
    {
      match this
      case Server => "server"
      case Network => "network"
      case Application => "application"
      case Endpoint => "endpoint"
    }
  }

  datatype Criticality = Critical | High | Medium | Low
  {
    function Name(): string
    {
      match this
      case Critical => "critical"
      case High => "high"
      case Medium => "medium"
      case Low => "low"
    }
  }

  datatype AssetStatus = Online | Offline | Maintenance

  /** An asset; the source's `type` field is `kind` here. */
  datatype Asset = Asset(
    id: string,
    name: string,
    kind: AssetType,
    criticality: Criticality,
    status: AssetStatus,
    ip: string,
    lastScan: string,
    vulnerabilities: int,
    owner: string)

  const AllValues: string := "all"

  predicate MatchesType(a: Asset, filterType: string)
  {
    filterType == AllValues || a.kind.Name() == filterType
  }

  predicate MatchesCriticality(a: Asset, filterCriticality: string)
  {
    filterCriticality == AllValues || a.criticality.Name() == filterCriticality
  }

  /** The search ignores case in the name and the owner, but not in the address. */
  predicate MatchesSearch(a: Asset, term: string)
  {
    Includes(ToLower(a.name), ToLower(term))
    || Includes(a.ip, term)
    || Includes(ToLower(a.owner), ToLower(term))
  }

  predicate Matches(a: Asset, filterType: string, filterCriticality: string, term: string)
  {
    MatchesType(a, filterType) && MatchesCriticality(a, filterCriticality) && MatchesSearch(a, term)
  }

  /** The assets meeting all three conditions, in list order. */
  function FilteredAssets(assets: seq<Asset>, filterType: string, filterCriticality: string, term: string): (r: seq<Asset>)
    ensures IsSubsequence(r, assets)
    ensures forall a :: a in r ==> Matches(a, filterType, filterCriticality, term)
    ensures forall i :: 0 <= i < |assets| && Matches(assets[i], filterType, filterCriticality, term) ==> assets[i] in r
  {
    Filter(assets, (a: Asset) => Matches(a, filterType, filterCriticality, term))
  }

  /** The filter keeps every copy of a shown asset. */
  lemma FilteredAssetsOccurrences(assets: seq<Asset>, filterType: string, filterCriticality: string, term: string)
    ensures forall a :: multiset(FilteredAssets(assets, filterType, filterCriticality, term))[a]
                     == if Matches(a, filterType, filterCriticality, term) then multiset(assets)[a] else 0
  {
    FilterOccurrences(assets, (a: Asset) => Matches(a, filterType, filterCriticality, term));
  }

  /** An empty search matches every asset, so "all", "all" and "" show the whole list. */
  lemma FilteredAssetsUnfiltered(assets: seq<Asset>)
    ensures FilteredAssets(assets, AllValues, AllValues, "") == assets
  {
    forall a | a in assets ensures Matches(a, AllValues, AllValues, "") {
      IncludesEmpty(ToLower(a.name));
    }
    FilterKeepsAll(assets, (a: Asset) => Matches(a, AllValues, AllValues, ""));
  }

  /**
    The name and owner parts of the search ignore case on both sides: the
    term's upper-case form finds the same assets, and upper-casing an asset's
    name and owner does not change whether it matches.
   */
  lemma NameOwnerSearchIgnoresCase(a: Asset, term: string)
    ensures Includes(ToLower(a.name), ToLower(ToUpper(term))) <==> Includes(ToLower(a.name), ToLower(term))
    ensures Includes(ToLower(a.owner), ToLower(ToUpper(term))) <==> Includes(ToLower(a.owner), ToLower(term))
    ensures MatchesSearch(a.(name := ToUpper(a.name), owner := ToUpper(a.owner)), term) <==> MatchesSearch(a, term)
  {
    ToLowerForgetsCase(term);
    ToLowerForgetsCase(a.name);
    ToLowerForgetsCase(a.owner);
  }

  /** The term "WEB" finds an asset named "Web" through its name. */
  lemma UpperCaseTermFindsName()
    ensures MatchesSearch(Asset("1", "Web", Server, Critical, Online, "", "", 3, ""), "WEB")
  {
    var t := ToLower("WEB");
    assert t[0] == LowerChar('W') == 'w' && t[1] == LowerChar('E') == 'e' && t[2] == LowerChar('B') == 'b';
    assert t == "web";
    assert ToLower("Web") == "web" by {
      var n := ToLower("Web");
      assert n[0] == 'w' && n[1] == 'e' && n[2] == 'b';
    }
  }

  /**
    The address part is case-sensitive: an asset whose only match is its
    address "N/A" is found by "N/A" but not by "n/a".
   */
  lemma IpSearchIsCaseSensitive()
    ensures var a := Asset("3", "", Application, High, Online, "N/A", "", 5, "");
      MatchesSearch(a, "N/A") && !MatchesSearch(a, "n/a")
  {
    var a := Asset("3", "", Application, High, Online, "N/A", "", 5, "");
    assert "N/A" <= a.ip;
    assert !Includes(a.ip, "n/a") by {
      IncludesAt(a.ip, "n/a");
      assert forall i :: !OccursAt(a.ip, "n/a", i);
    }
    assert ToLower("") == "";
  }

  // ---------------------------------------------------------------------------
  // Statistics.

  /** The "En Ligne" figure: at most the number of assets, zero exactly when none is online. */
  function OnlineCount(assets: seq<Asset>): (r: nat)
    ensures r <= |assets|
    ensures r == 0 <==> forall a :: a in assets ==> a.status != Online
  {
    Count(assets, (a: Asset) => a.status == Online)
  }

  /** The "Critiques" figure: at most the number of assets, zero exactly when none is critical. */
  function CriticalCount(assets: seq<Asset>): (r: nat)
    ensures r <= |assets|
    ensures r == 0 <==> forall a :: a in assets ==> a.criticality != Critical
  {
    Count(assets, (a: Asset) => a.criticality == Critical)
  }

  function Vulnerabilities(a: Asset): int
  {
    a.vulnerabilities
  }

  /** `assets.reduce((sum, a) => sum + a.vulnerabilities, 0)` */
  function TotalVulnerabilities(assets: seq<Asset>): int
  {
    FoldSum(0, assets, Vulnerabilities)
  }

  /** The total is the sum of every asset's vulnerabilities, and adds up over concatenation. */
  lemma TotalVulnerabilitiesConcat(a: seq<Asset>, b: seq<Asset>)
    ensures TotalVulnerabilities(a) == Sum(a, Vulnerabilities)
    ensures TotalVulnerabilities(a + b) == TotalVulnerabilities(a) + TotalVulnerabilities(b)
  {
    FoldSumIsSum(0, a, Vulnerabilities);
    FoldSumIsSum(0, b, Vulnerabilities);
    FoldSumIsSum(0, a + b, Vulnerabilities);
    SumConcat(a, b, Vulnerabilities);
  }

  /** The total over all assets is the total over the shown ones plus the total over the hidden ones. */
  lemma TotalVulnerabilitiesSplit(assets: seq<Asset>, filterType: string, filterCriticality: string, term: string)
    ensures TotalVulnerabilities(assets)
         == TotalVulnerabilities(FilteredAssets(assets, filterType, filterCriticality, term))
          + TotalVulnerabilities(Filter(assets, (a: Asset) => !Matches(a, filterType, filterCriticality, term)))
  {
    var shown := (a: Asset) => Matches(a, filterType, filterCriticality, term);
    var hidden := (a: Asset) => !Matches(a, filterType, filterCriticality, term);
    SumSplit(assets, shown, hidden, Vulnerabilities);
    FoldSumIsSum(0, assets, Vulnerabilities);
    FoldSumIsSum(0, Filter(assets, shown), Vulnerabilities);
    FoldSumIsSum(0, Filter(assets, hidden), Vulnerabilities);
  }
}
