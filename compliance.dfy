/**
  The compliance panel: fixed lists of frameworks and of controls, the overall
  compliance (the rounded mean of the frameworks' percentages), the framework
  status counts, and the controls filtered by the selected framework's name.
 */
module Compliance {
  import opened ListView

  datatype FrameworkStatus = Compliant | Partial | NonCompliant
  datatype ControlStatus = Implemented | PartiallyImplemented | NotImplemented | NotApplicable

  datatype ComplianceFramework = ComplianceFramework(
    id: string,
    name: string,
    description: string,
    totalControls: int,
    implementedControls: int,
    compliance: int,
    lastAssessment: string,
    nextReview: string,
    status: FrameworkStatus)

  /** A control names its framework by the framework's `name`, not its `id`. */
  datatype ComplianceControl = ComplianceControl(
    id: string,
    framework: string,
    controlId: string,
    title: string,
    description: string,
    status: ControlStatus,
    evidence: seq<string>,
    lastReview: string,
    responsible: string)

  const AllFrameworks: string := "all"

  function FrameworkOf(c: ComplianceControl): string
  {
    c.framework
  }

  function ComplianceOf(f: ComplianceFramework): int
  {
    f.compliance
  }

  function Names(frameworks: seq<ComplianceFramework>): (r: seq<string>)
    ensures |r| == |frameworks|
    ensures forall i :: 0 <= i < |r| ==> r[i] == frameworks[i].name
  {
    seq(|frameworks|, i requires 0 <= i < |frameworks| => frameworks[i].name)
  }

  /** `selected === "all" ? controls : controls.filter(c => c.framework === selected)` */
  function FilteredControls(controls: seq<ComplianceControl>, selected: string): (r: seq<ComplianceControl>)
    ensures selected == AllFrameworks ==> r == controls
    ensures IsSubsequence(r, controls)
    ensures selected != AllFrameworks ==> forall c :: c in r ==> c.framework == selected
    ensures forall i :: 0 <= i < |controls| && controls[i].framework == selected ==> controls[i] in r
  {
    if selected == AllFrameworks then
      IsSubsequenceReflexive(controls);
      controls
    else KeyFilter(controls, FrameworkOf, selected)
  }

  /** The framework filter keeps every copy of a shown control. */
  lemma FilteredControlsOccurrences(controls: seq<ComplianceControl>, selected: string)
    ensures forall c :: multiset(FilteredControls(controls, selected))[c]
                     == if selected == AllFrameworks || c.framework == selected then multiset(controls)[c] else 0
  {
    if selected != AllFrameworks {
      KeyFilterOccurrences(controls, FrameworkOf, selected);
    }
  }

  /**
    `Math.round(frameworks.reduce((sum, f) => sum + f.compliance, 0) / frameworks.length)`;
    on an empty list the source shows NaN, which is None here.
   */
  function OverallCompliance(frameworks: seq<ComplianceFramework>): (r: Option<int>)
    ensures r.None? <==> frameworks == []
    ensures r.Some? ==> |frameworks| * (2 * r.value - 1) <= 2 * Sum(frameworks, ComplianceOf)
                                                          < |frameworks| * (2 * r.value + 1)
  {
    if frameworks == [] then None
    else
      FoldSumIsSum(0, frameworks, ComplianceOf);
      Some(RoundHalfUp(FoldSum(0, frameworks, ComplianceOf), |frameworks|))
  }

  /** The overall compliance lies between the lowest and the highest framework compliance. */
  lemma OverallComplianceBetween(frameworks: seq<ComplianceFramework>, lo: int, hi: int)
    requires frameworks != []
    requires forall f :: f in frameworks ==> lo <= f.compliance <= hi
    ensures lo <= OverallCompliance(frameworks).value <= hi
  {
    var n, total := |frameworks|, Sum(frameworks, ComplianceOf);
    SumAtLeast(frameworks, ComplianceOf, lo);
    SumAtMost(frameworks, ComplianceOf, hi);
    FoldSumIsSum(0, frameworks, ComplianceOf);
    RoundHalfUpExact(lo, n);
    RoundHalfUpExact(hi, n);
    assert n * lo == |frameworks| * lo && n * hi == |frameworks| * hi;
    RoundHalfUpMonotone(n * lo, total, n);
    RoundHalfUpMonotone(total, n * hi, n);
  }

  /** With all frameworks at the same compliance, the overall compliance is that value. */
  lemma OverallComplianceUniform(frameworks: seq<ComplianceFramework>, v: int)
    requires frameworks != []
    requires forall f :: f in frameworks ==> f.compliance == v
    ensures OverallCompliance(frameworks) == Some(v)
  {
    OverallComplianceBetween(frameworks, v, v);
  }

  /** The number of frameworks with a status: at most the total, zero exactly when none has it. */
  function StatusCount(frameworks: seq<ComplianceFramework>, s: FrameworkStatus): (r: nat)
    ensures r <= |frameworks|
    ensures r == 0 <==> forall f :: f in frameworks ==> f.status != s
  {
    Count(frameworks, (f: ComplianceFramework) => f.status == s)
  }

  /** Compliant, partial and non-compliant together count every framework (the status union is closed). */
  lemma {:induction false} StatusCountsSum(frameworks: seq<ComplianceFramework>)
    ensures StatusCount(frameworks, Compliant) + StatusCount(frameworks, Partial)
          + StatusCount(frameworks, NonCompliant) == |frameworks|
  {
    if frameworks != [] {
      StatusCountsSum(frameworks[1..]);
    }
  }

  /** The count on a framework's button. */
  function ControlCount(controls: seq<ComplianceControl>, name: string): (r: nat)
    ensures r <= |controls|
    ensures r == 0 <==> forall c :: c in controls ==> c.framework != name
  {
    KeyFilterEmpty(controls, FrameworkOf, name);
    |KeyFilter(controls, FrameworkOf, name)|
  }

  /** A framework's button count is the number of controls its filter shows. */
  lemma ControlCountIsFiltered(controls: seq<ComplianceControl>, f: ComplianceFramework)
    requires f.name != AllFrameworks
    ensures ControlCount(controls, f.name) == |FilteredControls(controls, f.name)|
  {
  }

  /** The sum of the counts on the framework buttons. */
  function FrameworkButtonTotal(frameworks: seq<ComplianceFramework>, controls: seq<ComplianceControl>): nat
  {
    KeyCounts(Names(frameworks), controls, FrameworkOf)
  }

  /**
    With distinct framework names, the framework buttons never count a control
    twice, and count every control exactly when each control's framework is
    the name of some framework.
   */
  lemma FrameworkButtonTotalBound(frameworks: seq<ComplianceFramework>, controls: seq<ComplianceControl>)
    requires NoDuplicates(Names(frameworks))
    ensures FrameworkButtonTotal(frameworks, controls) <= |controls|
    ensures FrameworkButtonTotal(frameworks, controls) == |controls| <==>
      forall c :: c in controls ==> exists f :: f in frameworks && f.name == c.framework
  {
    var names := Names(frameworks);
    KeyCountsBound(names, controls, FrameworkOf);
    forall c | c in controls
      ensures (c.framework in names) <==> exists f :: f in frameworks && f.name == c.framework
    {
      if c.framework in names {
        var i :| 0 <= i < |names| && names[i] == c.framework;
        assert frameworks[i] in frameworks;
      }
    }
  }

  /**
    Without distinct names the bound fails: two frameworks both named "X" count
    the single control of "X" twice.
   */
  lemma DuplicateNamesCountTwice()
    ensures var f := ComplianceFramework("a", "X", "", 1, 1, 100, "", "", Compliant);
      var c := ComplianceControl("1", "X", "", "", "", Implemented, [], "", "");
      FrameworkButtonTotal([f, f.(id := "b")], [c]) == 2
  {
    var f := ComplianceFramework("a", "X", "", 1, 1, 100, "", "", Compliant);
    var c := ComplianceControl("1", "X", "", "", "", Implemented, [], "", "");
    var names := Names([f, f.(id := "b")]);
    assert names == ["X", "X"];
    assert [c][1..] == [];
    assert |KeyFilter([c], FrameworkOf, "X")| == 1;
    assert names[1..] == ["X"] && names[1..][1..] == [];
    assert KeyCounts(names[1..], [c], FrameworkOf) == 1 + KeyCounts(names[1..][1..], [c], FrameworkOf);
    assert KeyCounts(names, [c], FrameworkOf) == 1 + KeyCounts(names[1..], [c], FrameworkOf);
  }

  // ---------------------------------------------------------------------------
  // The lists the component shows.

  function Frameworks(): seq<ComplianceFramework>
  {
    [ ComplianceFramework("iso27001", "ISO 27001",
        "Système de management de la sécurité de l'information", 114, 105, 92, "2024-03-15", "2024-09-15", Compliant),
      ComplianceFramework("gdpr", "RGPD",
        "Règlement Général sur la Protection des Données", 99, 77, 78, "2024-04-20", "2024-10-20", Partial),
      ComplianceFramework("pcidss", "PCI DSS",
        "Payment Card Industry Data Security Standard", 12, 8, 67, "2024-02-10", "2024-08-10", NonCompliant),
      ComplianceFramework("soc2", "SOC 2",
        "Service Organization Control 2", 64, 61, 95, "2024-05-01", "2024-11-01", Compliant) ]
  }

  /** On these lists the overall compliance is round(332 / 4) = 83. */
  lemma FrameworksOverallCompliance()
    ensures OverallCompliance(Frameworks()) == Some(83)
  {
    var fs := Frameworks();
    FoldSumIsSum(0, fs, ComplianceOf);
    assert fs[1..][1..][1..][1..] == [];
    assert Sum(fs, ComplianceOf) == 332;
    RoundHalfUpUnique(332, 4, 83);
  }

  /** The fixed frameworks have distinct names. */
  lemma FrameworkNamesDistinct()
    ensures NoDuplicates(Names(Frameworks()))
  {
  }

  /**
    On the panel as rendered, the framework buttons never count a control
    twice, and count them all exactly when every control names one of the
    four frameworks.
   */
  lemma FrameworkButtonsOnPanel(controls: seq<ComplianceControl>)
    ensures FrameworkButtonTotal(Frameworks(), controls) <= |controls|
    ensures FrameworkButtonTotal(Frameworks(), controls) == |controls| <==>
      forall c :: c in controls ==> exists f :: f in Frameworks() && f.name == c.framework
  {
    FrameworkNamesDistinct();
    FrameworkButtonTotalBound(Frameworks(), controls);
  }
}
