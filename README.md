# Security dashboard panels, modelled in Dafny

This project models the logic behind five panels of the security dashboard
*aura-security-guardian-ai*: the alert system, penetration testing, asset
management, configuration analysis and compliance management. Each panel
keeps a list of records, in React state or as a module constant. It filters that list by selections
that are either the sentinel `"all"` or a value to match exactly. It shows
counts, sums and rounded percentages over the list. The alert panel also
changes its list through three handlers keyed by alert id.

Modules:

- `ListView` holds the array operations the panels share:
  - `Array.prototype.filter`, as `Filter`;
  - `reduce` to a number, as the left fold `FoldSum` with the reference sum `Sum`;
  - `[...new Set(xs)]`, as `Distinct`;
  - `Math.round(num / den)`, as `RoundHalfUp`;
  - the per-key button counts, as `KeyFilter` and `KeyCounts`.
- `Text` holds `toLowerCase` and `includes` on strings.
- `Alerts` holds the alert panel. The component's two pieces of state,
  `alerts` and `filter`, are the fields of the class `AlertSystem`. Its
  methods replace `alerts` by pure functions of the old list
  (`MarkedRead`, `Acknowledged`, `Dismissed`).
- `PenTests`, `Assets`, `Configurations` and `Compliance` hold the other
  four panels. There the record list never changes, so each panel is a set
  of pure functions of the list and of the current selections.

Conventions:

- Selections are `string`, as in the source's `useState<string>`.
- Closed string unions become datatypes. The unions a filter compares with a
  selection string (alert type, test type and status, asset type and
  criticality) have a `Name()` giving the source's literal. The others are
  only ever compared with each other, so they have no `Name()`.
- The records' `type` field is named `kind`, because `type` is a Dafny keyword.
- A percentage over an empty list would be NaN in the source; here it is `None`.
- Every filter keeps repeated records: the `...Occurrences` lemmas state
  that a shown record occurs as often as in the full list.
- Alert ids are not checked for uniqueness. Every handler therefore affects
  every alert that carries the id, and the lemmas say so.

## Model

| member | source | states |
|---|---|---|
| ListView.Filter | src/components/AlertSystem.tsx:124-126 | the result is an order-preserving subsequence of the input, holds only elements satisfying the predicate, keeps every one that does, and is no longer than the input; `FilterOccurrences` adds that every copy is kept |
| ListView.FilterOccurrences | src/components/AlertSystem.tsx:128-130 | a record satisfying the predicate occurs in the result exactly as often as in the input, any other record not at all, so a repeated record keeps every copy |
| ListView.FilterEmpty | src/components/AlertSystem.tsx:143 | the filter is empty exactly when no element satisfies the predicate |
| ListView.Count | src/components/AlertSystem.tsx:132-134 | `filter(p).length` is at most the length, and zero exactly when no element satisfies p |
| ListView.KeyFilter | src/components/ConfigurationAnalysis.tsx:189 | `filter(x => key(x) === k)`; its properties are those of `Filter`, with `KeyFilterOccurrences` and `KeyFilterEmpty` |
| ListView.KeyFilterOccurrences | src/components/ConfigurationAnalysis.tsx:119-121 | a key filter keeps every copy of each record with the key and nothing else |
| ListView.KeyFilterEmpty | src/components/ConfigurationAnalysis.tsx:189 | a key filter is empty exactly when no record has the key |
| ListView.KeyCounts | src/components/ComplianceManagement.tsx:305-315 | the sum of one button count per key; its bound is stated by `KeyCountsBound` |
| ListView.FoldSum | src/components/AssetManagement.tsx:153 | `reduce((sum, x) => sum + f(x), acc)` as a left fold; `FoldSumIsSum` equates it with the reference sum |
| ListView.FoldSumIsSum | src/components/AssetManagement.tsx:153 | the left fold from an initial value equals that value plus the sum of the elements |
| ListView.Distinct | src/components/ConfigurationAnalysis.tsx:117 | the deduplicated list has no duplicates and holds exactly the values of the input |
| ListView.DistinctFirstSeenOrder | src/components/ConfigurationAnalysis.tsx:117 | the deduplicated values appear in the order of their first occurrence in the input, as a JavaScript Set keeps insertion order |
| ListView.KeyCountsBound | src/components/ComplianceManagement.tsx:305-315 | with distinct keys, the per-key counts add up to at most the list length, and to exactly the length if and only if every element's key is one of the keys |
| ListView.RoundHalfUp | src/components/ConfigurationAnalysis.tsx:113-115 | the result r is the integer nearest to num/den, halves rounding up (den·(2r−1) ≤ 2·num < den·(2r+1)), as Math.round does |
| ListView.RoundHalfUpMonotone | src/components/ComplianceManagement.tsx:155-157 | rounding preserves order |
| ListView.RoundHalfUpExact | src/components/ComplianceManagement.tsx:155-157 | a quotient that is already an integer is returned unchanged |
| Text.LowerChar | src/components/AssetManagement.tsx:107 | an upper-case letter becomes the letter 32 code points above it ('A' to 'a', 'É' to 'é'); the result is never upper case; any other character is unchanged |
| Text.ToLower | src/components/AssetManagement.tsx:107 | lower-casing keeps the length and lower-cases character by character |
| Text.ToLowerIdempotent | src/components/AssetManagement.tsx:107-109 | lower-casing twice is lower-casing once |
| Text.IncludesAt | src/components/AssetManagement.tsx:107-109 | `includes` holds if and only if the needle occurs at some position of the haystack |
| Text.IncludesEmpty | src/components/AssetManagement.tsx:107-110 | every string includes the empty string |
| Text.Includes | src/components/AssetManagement.tsx:107-109 | `hay.includes(needle)` as a recursive search; `IncludesAt` equates it with an occurrence at some position |
| Text.ToLowerForgetsCase | src/components/AssetManagement.tsx:107 | a string and its upper-case form lower-case to the same string |
| Alerts.NameInjective | src/components/AlertSystem.tsx:12 | the four type literals are distinct, and none of them is "all" |
| Alerts.MarkedRead | src/components/AlertSystem.tsx:112-116 | the length is unchanged; an alert is read afterwards if and only if it was read before or carries the id; no other field of any alert changes |
| Alerts.MarkedReadIdempotent | src/components/AlertSystem.tsx:112-116 | marking the same id read twice is marking it once |
| Alerts.Acknowledged | src/components/AlertSystem.tsx:118-122 | the length is unchanged; exactly the alerts carrying the id become acknowledged and read; no other field changes |
| Alerts.AcknowledgedIdempotent | src/components/AlertSystem.tsx:118-122 | acknowledging the same id twice is acknowledging it once |
| Alerts.AcknowledgedIsRead | src/components/AlertSystem.tsx:112-122 | marking read after acknowledging the same id changes nothing |
| Alerts.Dismissed | src/components/AlertSystem.tsx:124-126 | no alert with the id remains; the survivors are a subsequence of the old list in their old order, and every alert with another id survives |
| Alerts.DismissUnknown | src/components/AlertSystem.tsx:124-126 | dismissing an id no alert carries leaves the list unchanged |
| Alerts.DismissedOccurrences | src/components/AlertSystem.tsx:124-126 | every alert with another id survives with all its copies, and no alert with the id survives |
| Alerts.DismissedLength | src/components/AlertSystem.tsx:124-126 | dismissing removes exactly as many alerts as carry the id |
| Alerts.UniqueIdSelectsOne | src/components/AlertSystem.tsx:124-126 | in a list with unique ids, an id that occurs is carried by exactly one alert |
| Alerts.DismissUniqueShortensByOne | src/components/AlertSystem.tsx:124-126 | with unique ids, dismissing an id that occurs removes exactly one alert |
| Alerts.FilterByType | src/components/AlertSystem.tsx:128-130 | "all" shows the whole list; any other filter shows the order-preserving subsequence of alerts whose type literal equals the filter, and every such alert |
| Alerts.FilterByTypeOccurrences | src/components/AlertSystem.tsx:128-130 | an alert shown under the filter occurs as often as in the full list, any other alert not at all |
| Alerts.OfType | src/components/AlertSystem.tsx:201-225 | the alerts of one type, as an order-preserving subsequence holding every alert of that type and nothing else |
| Alerts.TypeCount | src/components/AlertSystem.tsx:201-225 | a type button's count is at most the total, and zero exactly when no alert has the type |
| Alerts.FilterByTypeName | src/components/AlertSystem.tsx:195-226 | the button for a type shows exactly the alerts of that type |
| Alerts.FilterByUnknownType | src/components/AlertSystem.tsx:128-130 | a filter that is neither "all" nor a type literal shows nothing |
| Alerts.CriticalCountIsTypeCount | src/components/AlertSystem.tsx:133 | the critical counter is the count on the critical button |
| Alerts.UnreadCount | src/components/AlertSystem.tsx:132 | the unread counter is at most the total, and zero exactly when every alert is read |
| Alerts.CriticalCount | src/components/AlertSystem.tsx:133 | the critical counter is at most the total, and zero exactly when no alert is critical |
| Alerts.ActionRequiredCount | src/components/AlertSystem.tsx:134 | the action counter is at most the total, and zero exactly when every alert needing action is acknowledged |
| Alerts.ShowsMarkRead | src/components/AlertSystem.tsx:268 | the "Marquer lu" condition; `UnreadCountCountsMarkRead` ties it to the unread counter |
| Alerts.ShowsTreat | src/components/AlertSystem.tsx:278 | the "Traiter" condition; `ActionRequiredCountCountsTreat` ties it to the action counter |
| Alerts.TypeCountsSum | src/components/AlertSystem.tsx:193-225 | the critical, warning, info and success button counts add up to the total on the "all" button |
| Alerts.UnreadCountCountsMarkRead | src/components/AlertSystem.tsx:268-277 | the unread counter counts exactly the alerts offering "Marquer lu" |
| Alerts.ActionRequiredCountCountsTreat | src/components/AlertSystem.tsx:278-286 | the action counter counts exactly the alerts offering "Traiter" |
| Alerts.UnreadAfterMarkRead | src/components/AlertSystem.tsx:112-132 | after marking an id read, the unread alerts are exactly the previously unread ones with another id |
| Alerts.UnreadAfterAcknowledge | src/components/AlertSystem.tsx:118-132 | after acknowledging an id, the unread alerts are exactly the previously unread ones with another id |
| Alerts.ActionRequiredAfterAcknowledge | src/components/AlertSystem.tsx:118-134 | after acknowledging an id, the action counter counts exactly the previously counted alerts with another id, and no alert with the id offers either button |
| Alerts.UpdatesNeverRaiseCounters | src/components/AlertSystem.tsx:112-134 | marking read or acknowledging never raises the unread or action counters; marking read leaves the action counter as it was |
| Alerts.DismissNeverRaisesCounters | src/components/AlertSystem.tsx:124-134 | dismissing never raises the unread or action counters |
| Alerts.HandlersKeepAcknowledgedRead | src/components/AlertSystem.tsx:112-126 | if every acknowledged alert is read, that stays true after each of the three handlers |
| Alerts.AlertSystem.constructor | src/components/AlertSystem.tsx:79-80 | the panel starts with the given list and the filter "all" |
| Alerts.AlertSystem.FilteredAlerts | src/components/AlertSystem.tsx:128-130 | the list under the current filter: the whole list for "all", otherwise the alerts of the selected type in list order, each with all its copies, and nothing else |
| Alerts.AlertSystem.MarkAsRead | src/components/AlertSystem.tsx:112-116 | the new list is `MarkedRead` of the old one, the filter is unchanged, every alert with the id is read, the unread counter does not rise, and "acknowledged implies read" is kept |
| Alerts.AlertSystem.Acknowledge | src/components/AlertSystem.tsx:118-122 | the new list is `Acknowledged` of the old one, the filter is unchanged, every alert with the id is read and acknowledged, neither counter rises, and "acknowledged implies read" is kept |
| Alerts.AlertSystem.DismissAlert | src/components/AlertSystem.tsx:124-126 | the new list is `Dismissed` of the old one, the filter is unchanged, no alert with the id remains, exactly the alerts with the id are gone, and "acknowledged implies read" is kept |
| Alerts.AlertSystem.SetFilter | src/components/AlertSystem.tsx:186-226 | a filter button replaces the filter and leaves the list alone |
| Alerts.FiveAlertCounters | src/components/AlertSystem.tsx:20-76 | a five-alert list with the initial list's flags and types has one critical alert, two unread alerts and four needing action |
| Alerts.MockAlertCounters | src/components/AlertSystem.tsx:20-76 | on the initial list the critical filter shows one alert, two alerts are unread and four need action |
| Alerts.MockAlertsAcknowledgedRead | src/components/AlertSystem.tsx:20-76 | on the initial list every acknowledged alert is read, the base case of the invariant the handlers keep |
| PenTests.FilteredTests | src/components/PenetrationTesting.tsx:112-116 | the shown tests are the order-preserving subsequence matching both the type selection and the status selection ("all" or equal), and every such test |
| PenTests.MatchesType | src/components/PenetrationTesting.tsx:113 | the type condition: "all" or the test's type literal |
| PenTests.MatchesStatus | src/components/PenetrationTesting.tsx:114 | the status condition: "all" or the test's status literal |
| PenTests.FilteredTestsOccurrences | src/components/PenetrationTesting.tsx:112-116 | a shown test occurs as often as in the full list, any other test not at all |
| PenTests.FilteredTestsAll | src/components/PenetrationTesting.tsx:112-116 | with both selections on "all" every test is shown |
| PenTests.FilteredTestsCompose | src/components/PenetrationTesting.tsx:112-116 | filtering by both selections is filtering by type and then by status |
| PenTests.FoldFindingsShift | src/components/PenetrationTesting.tsx:118-123 | the fold from any accumulator is that accumulator plus the fold from zero |
| PenTests.FoldFindings | src/components/PenetrationTesting.tsx:118-123 | the reduce with its accumulator; `FoldFindingsShift` and `TotalFindingsComponentwise` state what it computes |
| PenTests.TotalFindings | src/components/PenetrationTesting.tsx:118-123 | the reduce from zero; `TotalFindingsComponentwise` gives each severity as a sum |
| PenTests.TotalFindingsComponentwise | src/components/PenetrationTesting.tsx:118-123 | each severity of the total is the sum of that severity over all tests |
| PenTests.TotalFindingsConcat | src/components/PenetrationTesting.tsx:118-123 | the empty list totals to zero, and the total over two lists joined is the sum of their totals |
| PenTests.Actions | src/components/PenetrationTesting.tsx:270-291 | a card always ends with "Paramètres"; it has Start if and only if pending, Suspend if and only if running, Report if and only if completed, and nothing else if and only if failed |
| PenTests.ShowsProgress | src/components/PenetrationTesting.tsx:227 | the progress bar's condition; `ProgressShownWhileRunning` ties it to the buttons |
| PenTests.ShowsFindings | src/components/PenetrationTesting.tsx:238 | the findings panel's condition; `ProgressShownWhileRunning` ties it to the buttons |
| PenTests.ProgressShownWhileRunning | src/components/PenetrationTesting.tsx:226-291 | the progress bar shows exactly when Suspend is offered, and the findings panel exactly when Suspend or Report is offered |
| PenTests.PenTestView.Visible | src/components/PenetrationTesting.tsx:112-116 | the tests shown for the view's selections: in list order, each matching test with all its copies and nothing else, and the whole list when both selections are "all" |
| PenTests.InitialView | src/components/PenetrationTesting.tsx:78-80 | the panel starts with the given list and both selections on "all" |
| PenTests.PenTestView.SetFilterType | src/components/PenetrationTesting.tsx:174 | choosing a type replaces only the type selection |
| PenTests.PenTestView.SetFilterStatus | src/components/PenetrationTesting.tsx:186 | choosing a status replaces only the status selection |
| PenTests.SelectionsKeepTests | src/components/PenetrationTesting.tsx:78-80 | the initial view shows every test; a type choice followed by a status choice never changes the test list, and returning both to "all" shows it whole |
| Assets.FilteredAssets | src/components/AssetManagement.tsx:104-111 | the shown assets are the order-preserving subsequence matching the type selection, the criticality selection and the search, and every such asset |
| Assets.MatchesType | src/components/AssetManagement.tsx:105 | the type condition: "all" or the asset's type literal |
| Assets.MatchesCriticality | src/components/AssetManagement.tsx:106 | the criticality condition: "all" or the asset's criticality literal |
| Assets.MatchesSearch | src/components/AssetManagement.tsx:107-109 | the search condition; `NameOwnerSearchIgnoresCase` and `IpSearchIsCaseSensitive` state its case behaviour |
| Assets.Matches | src/components/AssetManagement.tsx:110 | the conjunction of the three conditions |
| Assets.FilteredAssetsOccurrences | src/components/AssetManagement.tsx:104-111 | a shown asset occurs as often as in the full list, any other asset not at all |
| Assets.FilteredAssetsUnfiltered | src/components/AssetManagement.tsx:104-111 | with both selections on "all" and an empty search every asset is shown |
| Assets.NameOwnerSearchIgnoresCase | src/components/AssetManagement.tsx:107-109 | the name and owner parts of the search give the same answer for a term and its upper-case form, and upper-casing an asset's name and owner does not change whether it matches |
| Assets.IpSearchIsCaseSensitive | src/components/AssetManagement.tsx:108 | the address part does not lower-case: an asset found by "N/A" through its address is not found by "n/a" |
| Assets.UpperCaseTermFindsName | src/components/AssetManagement.tsx:107 | the term "WEB" finds an asset named "Web" through its name |
| Assets.OnlineCount | src/components/AssetManagement.tsx:137 | the online count is at most the number of assets, and zero exactly when none is online |
| Assets.CriticalCount | src/components/AssetManagement.tsx:145 | the critical count is at most the number of assets, and zero exactly when none is critical |
| Assets.TotalVulnerabilities | src/components/AssetManagement.tsx:153 | the reduce over the vulnerabilities; `TotalVulnerabilitiesConcat` equates it with the sum |
| Assets.TotalVulnerabilitiesConcat | src/components/AssetManagement.tsx:153 | the vulnerability total is the sum over the assets and adds up over concatenation |
| Assets.TotalVulnerabilitiesSplit | src/components/AssetManagement.tsx:153 | the total over all assets is the total over the shown assets plus the total over the hidden ones |
| Configurations.ComplianceRate | src/components/ConfigurationAnalysis.tsx:113-115 | none for an empty list; otherwise 100 · compliant / total rounded half up |
| Configurations.StatusCount | src/components/ConfigurationAnalysis.tsx:148-164 | a status count is at most the total, and zero exactly when no check has the status |
| Configurations.ComplianceRateBounds | src/components/ConfigurationAnalysis.tsx:113-115 | the rate of a non-empty list lies in 0..100; it is 100 when every check is compliant and 0 when none is |
| Configurations.Categories | src/components/ConfigurationAnalysis.tsx:117 | the category list has no duplicates, holds every check's category, and holds nothing else |
| Configurations.CategoriesFirstSeenOrder | src/components/ConfigurationAnalysis.tsx:117 | the categories appear in the order of their first occurrence |
| Configurations.FilteredConfigurations | src/components/ConfigurationAnalysis.tsx:119-121 | "all" shows the whole list; any other category shows the order-preserving subsequence of checks in that category, and every such check |
| Configurations.FilteredConfigurationsOccurrences | src/components/ConfigurationAnalysis.tsx:119-121 | a shown check occurs as often as in the full list, any other check not at all |
| Configurations.CategoryCount | src/components/ConfigurationAnalysis.tsx:189 | a category's count is at most the total, and at least one exactly when some check has that category |
| Configurations.CategoryButtonsNonEmpty | src/components/ConfigurationAnalysis.tsx:181-191 | every category button shows a count of at least one |
| Configurations.CategoryCountIsFiltered | src/components/ConfigurationAnalysis.tsx:181-189 | a category button's count is the number of checks its filter shows |
| Configurations.CategoryCountsSum | src/components/ConfigurationAnalysis.tsx:179-189 | the category button counts add up to the count on the "Toutes" button |
| Configurations.StatusCountsSum | src/components/ConfigurationAnalysis.tsx:145-168 | the four status counts add up to the total, so the three counts shown add up to at most the total |
| Compliance.FilteredControls | src/components/ComplianceManagement.tsx:151-153 | "all" shows every control; a framework name shows the order-preserving subsequence of controls naming that framework, and every such control |
| Compliance.FilteredControlsOccurrences | src/components/ComplianceManagement.tsx:151-153 | a shown control occurs as often as in the full list, any other control not at all |
| Compliance.Names | src/components/ComplianceManagement.tsx:305-310 | the frameworks' names, one per framework, in list order |
| Compliance.OverallCompliance | src/components/ComplianceManagement.tsx:155-157 | none for an empty list; otherwise the mean of the frameworks' compliance, rounded half up |
| Compliance.OverallComplianceBetween | src/components/ComplianceManagement.tsx:155-157 | the overall compliance lies between any lower and upper bound of the frameworks' compliance |
| Compliance.OverallComplianceUniform | src/components/ComplianceManagement.tsx:155-157 | if every framework has the same compliance, the overall compliance is that value |
| Compliance.StatusCount | src/components/ComplianceManagement.tsx:198-214 | a status count is at most the number of frameworks, and zero exactly when none has the status |
| Compliance.StatusCountsSum | src/components/ComplianceManagement.tsx:195-218 | the compliant, partial and non-compliant counts add up to the number of frameworks |
| Compliance.ControlCountIsFiltered | src/components/ComplianceManagement.tsx:305-313 | a framework button's count is the number of controls its filter shows |
| Compliance.ControlCount | src/components/ComplianceManagement.tsx:313 | a framework button's count is at most the number of controls, and zero exactly when no control names the framework |
| Compliance.FrameworkButtonTotal | src/components/ComplianceManagement.tsx:305-315 | the sum of the framework button counts; `FrameworkButtonTotalBound` bounds it |
| Compliance.FrameworkButtonTotalBound | src/components/ComplianceManagement.tsx:305-315 | with distinct framework names, the framework button counts add up to at most the number of controls, and to exactly that number if and only if every control names a framework |
| Compliance.DuplicateNamesCountTwice | src/components/ComplianceManagement.tsx:305-315 | two frameworks with the same name count the same control twice, so the bound needs distinct names |
| Compliance.FrameworksOverallCompliance | src/components/ComplianceManagement.tsx:34-79 | on the fixed list of frameworks the overall compliance is 83 |
| Compliance.FrameworkNamesDistinct | src/components/ComplianceManagement.tsx:34-79 | the four fixed frameworks have distinct names |
| Compliance.FrameworkButtonsOnPanel | src/components/ComplianceManagement.tsx:305-315 | on the panel as rendered the framework button counts add up to at most the number of controls, and to exactly that number if and only if every control names one of the four frameworks |

## Left out

- Rendering: JSX layout, styling classes, icons, badges and colour lookups
  (`getAlertIcon`, `getStatusColor`, `getSeverityColor` and the like).
  They carry no behaviour.
- React scheduling. Each handler builds its new list from the `alerts` it
  closed over. Batched or stale updates are not modelled: each handler is one
  atomic transition on the current state.
- Numbers. The source's `number` fields (`compliance`, `vulnerabilities`,
  `progress`, the `findings` counts, `totalControls`, `implementedControls`)
  are `int` here. A fractional value such as a compliance of 92.5 cannot be
  written in the model. All the source's values are whole numbers.
- Floating point. `Math.round(c / n * 100)` and the mean are modelled with
  exact rational arithmetic and rounding half up. Binary rounding error near
  a half is not modelled.
- Configurations.ComplianceRate: an empty list yields `None` where the
  source shows NaN.
- Compliance.OverallCompliance: an empty list yields `None` where the
  source shows NaN.
- Text.LowerChar: lower-cases only ASCII and Latin-1 upper-case letters, not
  the full Unicode case mapping of `toLowerCase`.
- The state of the four panels other than the alert panel. Their lists are
  never replaced. Only `PenTests.PenTestView` models the selection updates;
  the other selections are parameters of the filter functions.
- A selection equal to `"all"` always means "everything". A category or a
  framework literally named `"all"` could therefore not be shown alone.
  `Configurations.CategoryCountIsFiltered` and
  `Compliance.ControlCountIsFiltered` require a name other than `"all"`.
- Buttons without a handler: "Marquer tout comme lu", "Configurer Alertes",
  "Nouveau Test", "Démarrer", "Suspendre", "Ajouter un Actif", "Nouvelle
  Analyse", "Nouvel Audit" and the like. They change nothing in the source.
- The search box and selects of the asset panel (`setSearchTerm`,
  `setFilterType`, `setFilterCriticality`) only set a string. They appear as
  parameters of `Assets.FilteredAssets`.
- The fixed lists of penetration tests, assets, configuration checks and
  compliance controls. Only the alert list and the framework list are
  written out, as concrete examples.
- The charts and static content of `SecurityMetrics.tsx`,
  `ThreatAnalysis.tsx`, `AuditReports.tsx`, `SecurityHeader.tsx` and the tab
  navigation in `pages/Index.tsx`. They are not part of this model.
