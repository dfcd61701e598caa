/**
  The configuration-analysis panel: a fixed list of configuration checks, the
  compliance rate, the category buttons (one per distinct category, in order
  of first appearance, each with its count) and the category filter.
 */
module Configurations {
  import opened ListView

  datatype CheckStatus = Compliant | NonCompliant | Warning | Pending
  datatype Severity = Critical | High | Medium | Low

  datatype ConfigurationCheck = ConfigurationCheck(
    id: string,
    system: string,
    category: string,
    rule: string,
    status: CheckStatus,
    severity: Severity,
    description: string,
    recommendation: string,
    lastCheck: string)

  const AllCategories: string := "all"

  function CategoryOf(c: ConfigurationCheck): string
  {
    c.category
  }

  /** The number of checks with a status: at most the total, zero exactly when no check has it. */
  function StatusCount(checks: seq<ConfigurationCheck>, s: CheckStatus): (r: nat)
    ensures r <= |checks|
    ensures r == 0 <==> forall c :: c in checks ==> c.status != s
  {
    Count(checks, (c: ConfigurationCheck) => c.status == s)
  }

  /**
    `Math.round(compliant / checks.length * 100)`; on an empty list the source
    divides by zero and shows NaN, which is None here.
   */
  function ComplianceRate(checks: seq<ConfigurationCheck>): (r: Option<int>)
    ensures r.None? <==> checks == []
    ensures r.Some? ==> |checks| * (2 * r.value - 1) <= 200 * StatusCount(checks, Compliant)
                                                       < |checks| * (2 * r.value + 1)
  {
    if checks == [] then None
    else Some(RoundHalfUp(100 * StatusCount(checks, Compliant), |checks|))
  }

  /** The rate is a percentage: 100 when every check passes, 0 when none does. */
  lemma ComplianceRateBounds(checks: seq<ConfigurationCheck>)
    requires checks != []
    ensures 0 <= ComplianceRate(checks).value <= 100
    ensures StatusCount(checks, Compliant) == |checks| ==> ComplianceRate(checks).value == 100
    ensures StatusCount(checks, Compliant) == 0 ==> ComplianceRate(checks).value == 0
  {
    var n, c := |checks|, StatusCount(checks, Compliant);
    RoundHalfUpExact(0, n);
    RoundHalfUpExact(100, n);
    assert n * 0 == 0 && n * 100 == 100 * n;
    RoundHalfUpMonotone(0, 100 * c, n);
    RoundHalfUpMonotone(100 * c, 100 * n, n);
  }

  /** `[...new Set(checks.map(c => c.category))]` */
  function Categories(checks: seq<ConfigurationCheck>): (r: seq<string>)
    ensures NoDuplicates(r)
    ensures forall c :: c in checks ==> c.category in r
    ensures forall k :: k in r ==> exists c :: c in checks && c.category == k
  {
    var all := seq(|checks|, i requires 0 <= i < |checks| => checks[i].category);
    assert forall c :: c in checks ==> c.category in all by {
      forall c | c in checks ensures c.category in all {
        var i :| 0 <= i < |checks| && checks[i] == c;
        assert all[i] == c.category;
      }
    }
    assert forall k :: k in all ==> exists c :: c in checks && c.category == k by {
      forall k | k in all ensures exists c :: c in checks && c.category == k {
        var i :| 0 <= i < |all| && all[i] == k;
        assert checks[i] in checks;
      }
    }
    Distinct(all)
  }

  /** The category buttons appear in the order in which their categories first occur. */
  lemma CategoriesFirstSeenOrder(checks: seq<ConfigurationCheck>)
    ensures var all := seq(|checks|, i requires 0 <= i < |checks| => checks[i].category);
      Categories(checks) == Distinct(all) &&
      forall i, j :: 0 <= i < j < |Categories(checks)| ==>
        IndexOf(all, Categories(checks)[i]) < IndexOf(all, Categories(checks)[j])
  {
    DistinctFirstSeenOrder(seq(|checks|, i requires 0 <= i < |checks| => checks[i].category));
  }

  /** `selected === "all" ? checks : checks.filter(c => c.category === selected)` */
  function FilteredConfigurations(checks: seq<ConfigurationCheck>, selected: string): (r: seq<ConfigurationCheck>)
    ensures selected == AllCategories ==> r == checks
    ensures IsSubsequence(r, checks)
    ensures selected != AllCategories ==> forall c :: c in r ==> c.category == selected
    ensures forall i :: 0 <= i < |checks| && checks[i].category == selected ==> checks[i] in r
  {
    if selected == AllCategories then
      IsSubsequenceReflexive(checks);
      checks
    else KeyFilter(checks, CategoryOf, selected)
  }

  /** The category filter keeps every copy of a shown check. */
  lemma FilteredConfigurationsOccurrences(checks: seq<ConfigurationCheck>, selected: string)
    ensures forall c :: multiset(FilteredConfigurations(checks, selected))[c]
                     == if selected == AllCategories || c.category == selected then multiset(checks)[c] else 0
  {
    if selected != AllCategories {
      KeyFilterOccurrences(checks, CategoryOf, selected);
    }
  }

  /** The count on a category's button. */
  function CategoryCount(checks: seq<ConfigurationCheck>, category: string): (r: nat)
    ensures r <= |checks|
    ensures r >= 1 <==> exists c :: c in checks && c.category == category
  {
    KeyFilterEmpty(checks, CategoryOf, category);
    |KeyFilter(checks, CategoryOf, category)|
  }

  /** Every category button shows a count of at least one. */
  lemma CategoryButtonsNonEmpty(checks: seq<ConfigurationCheck>)
    ensures forall k :: k in Categories(checks) ==> CategoryCount(checks, k) >= 1
  {
  }

  /** A category's button count is the number of checks its filter shows. */
  lemma CategoryCountIsFiltered(checks: seq<ConfigurationCheck>, category: string)
    requires category != AllCategories
    ensures CategoryCount(checks, category) == |FilteredConfigurations(checks, category)|
  {
  }

  /** The category buttons together count every check exactly once. */
  lemma CategoryCountsSum(checks: seq<ConfigurationCheck>)
    ensures KeyCounts(Categories(checks), checks, CategoryOf) == |checks|
  {
    KeyCountsBound(Categories(checks), checks, CategoryOf);
  }

  /** The four status counts partition the checks, so the three shown never exceed the total. */
  lemma {:induction false} StatusCountsSum(checks: seq<ConfigurationCheck>)
    ensures StatusCount(checks, Compliant) + StatusCount(checks, NonCompliant)
          + StatusCount(checks, Warning) + StatusCount(checks, Pending) == |checks|
    ensures StatusCount(checks, Compliant) + StatusCount(checks, NonCompliant)
          + StatusCount(checks, Warning) <= |checks|
  {
    if checks != [] {
      StatusCountsSum(checks[1..]);
    }
  }
}
