/**
  The penetration-test panel: a fixed list of tests, filtered by type and by
  status, the findings totalled over every test, and the status rules that
  decide which panels and buttons a test card shows.
 */
module PenTests {
  import opened ListView

  datatype TestType = Network | Web | Wireless | Social
  {
    function Name(): string
    {
      match this
      case Network => "network"
      case Web => "web"
      case Wireless => "wireless"
      case Social => "social"
    }
  }

  datatype TestStatus = Pending | Running | Completed | Failed
  {
    function Name(): string
    {
      match this
      case Pending => "pending"
      case Running => "running"
      case Completed => "completed"
      case Failed => "failed"
    }
  }

  /** Vulnerability counts by severity. */
  datatype Findings = Findings(critical: int, high: int, medium: int, low: int)
  {
    function Plus(other: Findings): Findings
    {
      Findings(critical + other.critical, high + other.high, medium + other.medium, low + other.low)
    }
  }

  const NoFindings := Findings(0, 0, 0, 0)

  /** A test; the source's `type` field is `kind` here, and the optional `endTime` an Option. */
  datatype PenetrationTest = PenetrationTest(
    id: string,
    name: string,
    target: string,
    kind: TestType,
    status: TestStatus,
    progress: int,
    startTime: string,
    endTime: Option<string>,
    findings: Findings,
    tools: seq<string>)

  const AllValues: string := "all"

  /** `filterType === "all" || test.type === filterType` */
  predicate MatchesType(t: PenetrationTest, filterType: string)
  {
    filterType == AllValues || t.kind.Name() == filterType
  }

  /** `filterStatus === "all" || test.status === filterStatus` */
  predicate MatchesStatus(t: PenetrationTest, filterStatus: string)
  {
    filterStatus == AllValues || t.status.Name() == filterStatus
  }

  /** The tests that match both selections, in list order. */
  function FilteredTests(tests: seq<PenetrationTest>, filterType: string, filterStatus: string): (r: seq<PenetrationTest>)
    ensures IsSubsequence(r, tests)
    ensures forall t :: t in r ==> MatchesType(t, filterType) && MatchesStatus(t, filterStatus)
    ensures forall i ::
      0 <= i < |tests| && MatchesType(tests[i], filterType) && MatchesStatus(tests[i], filterStatus) ==> tests[i] in r
  {
    Filter(tests, (t: PenetrationTest) => MatchesType(t, filterType) && MatchesStatus(t, filterStatus))
  }

  /** The filter keeps every copy of a shown test. */
  lemma FilteredTestsOccurrences(tests: seq<PenetrationTest>, filterType: string, filterStatus: string)
    ensures forall t :: multiset(FilteredTests(tests, filterType, filterStatus))[t]
                     == if MatchesType(t, filterType) && MatchesStatus(t, filterStatus) then multiset(tests)[t] else 0
  {
    FilterOccurrences(tests, (t: PenetrationTest) => MatchesType(t, filterType) && MatchesStatus(t, filterStatus));
  }

  /** With both selections on "all", every test is shown. */
  lemma FilteredTestsAll(tests: seq<PenetrationTest>)
    ensures FilteredTests(tests, AllValues, AllValues) == tests
  {
    FilterKeepsAll(tests, (t: PenetrationTest) => MatchesType(t, AllValues) && MatchesStatus(t, AllValues));
  }

  /** The two selections are independent: filtering by both is filtering by one, then the other. */
  lemma FilteredTestsCompose(tests: seq<PenetrationTest>, filterType: string, filterStatus: string)
    ensures FilteredTests(tests, filterType, filterStatus)
         == FilteredTests(FilteredTests(tests, filterType, AllValues), AllValues, filterStatus)
  {
    var both := (t: PenetrationTest) => MatchesType(t, filterType) && MatchesStatus(t, filterStatus);
    var byType := (t: PenetrationTest) => MatchesType(t, filterType) && MatchesStatus(t, AllValues);
    var byStatus := (t: PenetrationTest) => MatchesType(t, AllValues) && MatchesStatus(t, filterStatus);
    FilterFilter(tests, byType, byStatus, both);
  }

  /** `tests.reduce((acc, t) => acc + t.findings, {0, 0, 0, 0})`, severity by severity. */
  function FoldFindings(acc: Findings, tests: seq<PenetrationTest>): Findings
    decreases |tests|
  {
    if tests == [] then acc else FoldFindings(acc.Plus(tests[0].findings), tests[1..])
  }

  function TotalFindings(tests: seq<PenetrationTest>): Findings
  {
    FoldFindings(NoFindings, tests)
  }

  lemma {:induction false} FoldFindingsShift(acc: Findings, tests: seq<PenetrationTest>)
    ensures FoldFindings(acc, tests) == acc.Plus(TotalFindings(tests))
    decreases |tests|
  {
    if tests != [] {
      FoldFindingsShift(acc.Plus(tests[0].findings), tests[1..]);
      FoldFindingsShift(NoFindings.Plus(tests[0].findings), tests[1..]);
    }
  }

  /** Each severity's total is the sum of that severity over every test. */
  lemma {:induction false} TotalFindingsComponentwise(tests: seq<PenetrationTest>)
    ensures TotalFindings(tests) == Findings(
      Sum(tests, (t: PenetrationTest) => t.findings.critical),
      Sum(tests, (t: PenetrationTest) => t.findings.high),
      Sum(tests, (t: PenetrationTest) => t.findings.medium),
      Sum(tests, (t: PenetrationTest) => t.findings.low))
  {
    if tests != [] {
      FoldFindingsShift(NoFindings.Plus(tests[0].findings), tests[1..]);
      TotalFindingsComponentwise(tests[1..]);
    }
  }

  /** The empty list totals to zero, and totals add up over concatenation. */
  lemma TotalFindingsConcat(a: seq<PenetrationTest>, b: seq<PenetrationTest>)
    ensures TotalFindings([]) == NoFindings
    ensures TotalFindings(a + b) == TotalFindings(a).Plus(TotalFindings(b))
  {
    TotalFindingsComponentwise(a);
    TotalFindingsComponentwise(b);
    TotalFindingsComponentwise(a + b);
    SumConcat(a, b, (t: PenetrationTest) => t.findings.critical);
    SumConcat(a, b, (t: PenetrationTest) => t.findings.high);
    SumConcat(a, b, (t: PenetrationTest) => t.findings.medium);
    SumConcat(a, b, (t: PenetrationTest) => t.findings.low);
  }

  // ---------------------------------------------------------------------------
  // What a test card shows.

  /** The progress bar. */
  predicate ShowsProgress(status: TestStatus)
  {
    status == Running
  }

  /** The "Vulnérabilités détectées" panel. */
  predicate ShowsFindings(status: TestStatus)
  {
    status == Completed || status == Running
  }

  datatype TestAction = Start | Suspend | Report | Settings

  /** The buttons of a card, left to right. */
  function Actions(status: TestStatus): (r: seq<TestAction>)
    ensures 1 <= |r| <= 2 && r[|r| - 1] == Settings
    ensures |r| == 1 <==> status == Failed
    ensures Start in r <==> status == Pending
    ensures Suspend in r <==> status == Running
    ensures Report in r <==> status == Completed
  {
    match status
    case Pending => [Start, Settings]
    case Running => [Suspend, Settings]
    case Completed => [Report, Settings]
    case Failed => [Settings]
  }

  /** A card with a progress bar also lists its findings and offers Suspend. */
  lemma ProgressShownWhileRunning(status: TestStatus)
    ensures ShowsProgress(status) ==> ShowsFindings(status)
    ensures ShowsProgress(status) <==> Suspend in Actions(status)
    ensures ShowsFindings(status) <==> Suspend in Actions(status) || Report in Actions(status)
  {
  }

  // ---------------------------------------------------------------------------
  // The component's state: the list never changes, only the two selections do.

  datatype PenTestView = PenTestView(tests: seq<PenetrationTest>, filterType: string, filterStatus: string)
  {
    /** `filteredTests` over the view's state: the shown tests, in list order. */
    function Visible(): (r: seq<PenetrationTest>)
      ensures IsSubsequence(r, tests)
      ensures forall t :: multiset(r)[t]
                       == if MatchesType(t, filterType) && MatchesStatus(t, filterStatus) then multiset(tests)[t] else 0
      ensures filterType == AllValues && filterStatus == AllValues ==> r == tests
    {
      FilteredTestsOccurrences(tests, filterType, filterStatus);
      FilteredTestsAll(tests);
      FilteredTests(tests, filterType, filterStatus)
    }

    function SetFilterType(t: string): (r: PenTestView)
      ensures r.tests == tests && r.filterStatus == filterStatus && r.filterType == t
    {
      this.(filterType := t)
    }

    function SetFilterStatus(s: string): (r: PenTestView)
      ensures r.tests == tests && r.filterType == filterType && r.filterStatus == s
    {
      this.(filterStatus := s)
    }
  }

  /** The three initial `useState` values: the list, and both selections on "all". */
  function InitialView(tests: seq<PenetrationTest>): (r: PenTestView)
    ensures r.tests == tests && r.filterType == AllValues && r.filterStatus == AllValues
  {
    PenTestView(tests, AllValues, AllValues)
  }

  /**
    The panel first shows every test. A type choice followed by a status
    choice keeps the list; returning both selections to "all" shows it whole.
   */
  lemma SelectionsKeepTests(v: PenTestView, t: string, s: string)
    ensures InitialView(v.tests).Visible() == v.tests
    ensures v.SetFilterType(t).SetFilterStatus(s).tests == v.tests
    ensures v.SetFilterType(AllValues).SetFilterStatus(AllValues).Visible() == v.tests
  {
    FilteredTestsAll(v.tests);
  }
}
