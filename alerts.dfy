/**
  The alert panel: a list of alerts held in component state, three handlers
  that replace it by id (mark as read, acknowledge, dismiss), a type filter
  and the counters shown above the list.
 */
module Alerts {
  import opened ListView

  datatype AlertType = Critical | Warning | Info | Success
  {
    /** The string literal the source uses for this type. */
    function Name(): string
    {
      match this
      case Critical => "critical"
      case Warning => "warning"
      case Info => "info"
      case Success => "success"
    }
  }

  /** An alert; the source's `type` field is `kind` here (`type` is a Dafny keyword). */
  datatype Alert = Alert(
    id: string,
    title: string,
    description: string,
    kind: AlertType,
    source: string,
    timestamp: string,
    read: bool,
    acknowledged: bool,
    actionRequired: bool)

  /** The filter value that selects every alert. */
  const AllTypes: string := "all"

  /** Distinct types have distinct names, and no type is named "all". */
  lemma NameInjective(s: AlertType, t: AlertType)
    ensures s.Name() == t.Name() <==> s == t
    ensures s.Name() != AllTypes
  {
  }

  // ---------------------------------------------------------------------------
  // Handlers: every alert carrying the id is updated (ids are not checked
  // for uniqueness), every other alert is kept as it is.

  /** `alerts.map(a => a.id === id ? { ...a, read: true } : a)` */
  function MarkedRead(alerts: seq<Alert>, id: string): (r: seq<Alert>)
    ensures |r| == |alerts|
    ensures forall i :: 0 <= i < |r| ==> r[i].read == (alerts[i].read || alerts[i].id == id)
    ensures forall i :: 0 <= i < |r| ==> r[i].(read := alerts[i].read) == alerts[i]
  {
    if alerts == [] then []
    else
      var a := alerts[0];
      [if a.id == id then a.(read := true) else a] + MarkedRead(alerts[1..], id)
  }

  /** `alerts.map(a => a.id === id ? { ...a, acknowledged: true, read: true } : a)` */
  function Acknowledged(alerts: seq<Alert>, id: string): (r: seq<Alert>)
    ensures |r| == |alerts|
    ensures forall i :: 0 <= i < |r| ==>
      r[i].acknowledged == (alerts[i].acknowledged || alerts[i].id == id)
    ensures forall i :: 0 <= i < |r| ==> r[i].read == (alerts[i].read || alerts[i].id == id)
    ensures forall i :: 0 <= i < |r| ==>
      r[i].(read := alerts[i].read, acknowledged := alerts[i].acknowledged) == alerts[i]
  {
    if alerts == [] then []
    else
      var a := alerts[0];
      [if a.id == id then a.(acknowledged := true, read := true) else a] + Acknowledged(alerts[1..], id)
  }

  /** `alerts.filter(a => a.id !== id)` */
  function Dismissed(alerts: seq<Alert>, id: string): (r: seq<Alert>)
    ensures forall a :: a in r ==> a.id != id
    ensures IsSubsequence(r, alerts)
    ensures forall i :: 0 <= i < |alerts| && alerts[i].id != id ==> alerts[i] in r
  {
    Filter(alerts, (a: Alert) => a.id != id)
  }

  /** Every alert with another id survives with all its copies. */
  lemma DismissedOccurrences(alerts: seq<Alert>, id: string)
    ensures forall a :: multiset(Dismissed(alerts, id))[a] == if a.id != id then multiset(alerts)[a] else 0
  {
    FilterOccurrences(alerts, (a: Alert) => a.id != id);
  }

  /** The alerts carrying a given id. */
  function WithId(alerts: seq<Alert>, id: string): seq<Alert>
  {
    Filter(alerts, (a: Alert) => a.id == id)
  }

  /** Marking as read twice is marking as read once. */
  lemma MarkedReadIdempotent(alerts: seq<Alert>, id: string)
    ensures MarkedRead(MarkedRead(alerts, id), id) == MarkedRead(alerts, id)
  {
    var r := MarkedRead(alerts, id);
    assert forall i :: 0 <= i < |r| ==> MarkedRead(r, id)[i] == r[i];
  }

  /** Acknowledging twice is acknowledging once. */
  lemma AcknowledgedIdempotent(alerts: seq<Alert>, id: string)
    ensures Acknowledged(Acknowledged(alerts, id), id) == Acknowledged(alerts, id)
  {
    var r := Acknowledged(alerts, id);
    assert forall i :: 0 <= i < |r| ==> Acknowledged(r, id)[i] == r[i];
  }

  /** Acknowledging already marks as read: marking afterwards changes nothing. */
  lemma AcknowledgedIsRead(alerts: seq<Alert>, id: string)
    ensures MarkedRead(Acknowledged(alerts, id), id) == Acknowledged(alerts, id)
  {
    var r := Acknowledged(alerts, id);
    assert forall i :: 0 <= i < |r| ==> MarkedRead(r, id)[i] == r[i];
  }

  /** Dismissing an id that no alert carries leaves the list as it is. */
  lemma DismissUnknown(alerts: seq<Alert>, id: string)
    requires forall a :: a in alerts ==> a.id != id
    ensures Dismissed(alerts, id) == alerts
  {
    FilterKeepsAll(alerts, (a: Alert) => a.id != id);
  }

  /** Dismissing removes exactly the alerts that carry the id. */
  lemma DismissedLength(alerts: seq<Alert>, id: string)
    ensures |Dismissed(alerts, id)| == |alerts| - |WithId(alerts, id)|
  {
    FilterSplit(alerts, (a: Alert) => a.id != id, (a: Alert) => a.id == id);
  }

  predicate UniqueIds(alerts: seq<Alert>)
  {
    forall i, j :: 0 <= i < j < |alerts| ==> alerts[i].id != alerts[j].id
  }

  /** With unique ids, an id occurring in the list selects exactly one alert. */
  lemma {:induction false} UniqueIdSelectsOne(alerts: seq<Alert>, id: string, k: nat)
    requires UniqueIds(alerts)
    requires k < |alerts| && alerts[k].id == id
    ensures |WithId(alerts, id)| == 1
  {
    var rest := alerts[1..];
    assert UniqueIds(rest) by {
      forall i, j | 0 <= i < j < |rest| ensures rest[i].id != rest[j].id {
        assert rest[i] == alerts[i + 1] && rest[j] == alerts[j + 1];
      }
    }
    if k == 0 {
      assert forall a :: a in rest ==> a.id != id by {
        forall j | 0 <= j < |rest| ensures rest[j].id != id {
          assert rest[j] == alerts[j + 1];
        }
      }
      FilterKeepsNone(rest, (a: Alert) => a.id == id);
    } else {
      assert alerts[0].id != id;
      UniqueIdSelectsOne(rest, id, k - 1);
    }
  }

  /** With unique ids, dismissing a present id shortens the list by exactly one. */
  lemma DismissUniqueShortensByOne(alerts: seq<Alert>, id: string, k: nat)
    requires UniqueIds(alerts)
    requires k < |alerts| && alerts[k].id == id
    ensures |Dismissed(alerts, id)| == |alerts| - 1
  {
    DismissedLength(alerts, id);
    UniqueIdSelectsOne(alerts, id, k);
  }

  // ---------------------------------------------------------------------------
  // Filter and counters.

  /** `filter === "all" ? alerts : alerts.filter(a => a.type === filter)` */
  function FilterByType(alerts: seq<Alert>, filter: string): (r: seq<Alert>)
    ensures filter == AllTypes ==> r == alerts
    ensures filter != AllTypes ==> IsSubsequence(r, alerts)
    ensures filter != AllTypes ==> forall a :: a in r ==> a.kind.Name() == filter
    ensures forall i :: 0 <= i < |alerts| && alerts[i].kind.Name() == filter ==> alerts[i] in r
  {
    if filter == AllTypes then alerts else Filter(alerts, (a: Alert) => a.kind.Name() == filter)
  }

  /** The alerts of one type: `alerts.filter(a => a.type === t)` */
  function OfType(alerts: seq<Alert>, t: AlertType): (r: seq<Alert>)
    ensures IsSubsequence(r, alerts)
    ensures forall a :: a in r ==> a.kind == t
    ensures forall i :: 0 <= i < |alerts| && alerts[i].kind == t ==> alerts[i] in r
  {
    Filter(alerts, (a: Alert) => a.kind == t)
  }

  /** The type filter keeps every copy of a shown alert: the visible list is exact, not just a set. */
  lemma FilterByTypeOccurrences(alerts: seq<Alert>, filter: string)
    ensures forall a :: multiset(FilterByType(alerts, filter))[a]
                     == if filter == AllTypes || a.kind.Name() == filter then multiset(alerts)[a] else 0
  {
    if filter != AllTypes {
      FilterOccurrences(alerts, (a: Alert) => a.kind.Name() == filter);
    }
  }

  /** Selecting a type's button shows exactly the alerts of that type. */
  lemma FilterByTypeName(alerts: seq<Alert>, t: AlertType)
    ensures FilterByType(alerts, t.Name()) == OfType(alerts, t)
  {
    forall a: Alert ensures (a.kind.Name() == t.Name()) == (a.kind == t) {
      NameInjective(a.kind, t);
    }
    FilterAgree(alerts, (a: Alert) => a.kind.Name() == t.Name(), (a: Alert) => a.kind == t);
  }

  /** A filter value that is neither "all" nor a type name shows nothing. */
  lemma FilterByUnknownType(alerts: seq<Alert>, filter: string)
    requires filter != AllTypes
    requires forall t: AlertType :: t.Name() != filter
    ensures FilterByType(alerts, filter) == []
  {
  }

  /** "Nouveau" badge and "Marquer lu" button. */
  predicate ShowsMarkRead(a: Alert)
  {
    !a.read
  }

  /** "Action requise" badge and "Traiter" button. */
  predicate ShowsTreat(a: Alert)
  {
    a.actionRequired && !a.acknowledged
  }

  /** The "Non Lues" counter and the badge next to the title: zero exactly when every alert is read. */
  function UnreadCount(alerts: seq<Alert>): (r: nat)
    ensures r <= |alerts|
    ensures r == 0 <==> forall a :: a in alerts ==> a.read
  {
    Count(alerts, (a: Alert) => !a.read)
  }

  /** The "Critiques" counter: zero exactly when no alert is critical. */
  function CriticalCount(alerts: seq<Alert>): (r: nat)
    ensures r <= |alerts|
    ensures r == 0 <==> forall a :: a in alerts ==> a.kind != Critical
  {
    Count(alerts, (a: Alert) => a.kind == Critical)
  }

  /** The "Action Requise" counter: zero exactly when no alert still needs action. */
  function ActionRequiredCount(alerts: seq<Alert>): (r: nat)
    ensures r <= |alerts|
    ensures r == 0 <==> forall a :: a in alerts ==> !a.actionRequired || a.acknowledged
  {
    Count(alerts, (a: Alert) => a.actionRequired && !a.acknowledged)
  }

  /** Per-type button count: zero exactly when no alert has the type. */
  function TypeCount(alerts: seq<Alert>, t: AlertType): (r: nat)
    ensures r <= |alerts|
    ensures r == 0 <==> forall a :: a in alerts ==> a.kind != t
  {
    FilterEmpty(alerts, (a: Alert) => a.kind == t);
    |OfType(alerts, t)|
  }

  /** The "Critiques" counter is the critical button's count. */
  lemma CriticalCountIsTypeCount(alerts: seq<Alert>)
    ensures CriticalCount(alerts) == TypeCount(alerts, Critical)
  {
  }

  /** The four type buttons together count every alert once (the type union is closed). */
  lemma {:induction false} TypeCountsSum(alerts: seq<Alert>)
    ensures TypeCount(alerts, Critical) + TypeCount(alerts, Warning)
          + TypeCount(alerts, Info) + TypeCount(alerts, Success) == |alerts|
  {
    if alerts != [] {
      TypeCountsSum(alerts[1..]);
    }
  }

  /** The unread counter counts the alerts that offer "Marquer lu". */
  lemma UnreadCountCountsMarkRead(alerts: seq<Alert>)
    ensures UnreadCount(alerts) == |Filter(alerts, ShowsMarkRead)|
  {
    FilterAgree(alerts, (a: Alert) => !a.read, ShowsMarkRead);
  }

  /** The action-required counter counts the alerts that offer "Traiter". */
  lemma ActionRequiredCountCountsTreat(alerts: seq<Alert>)
    ensures ActionRequiredCount(alerts) == |Filter(alerts, ShowsTreat)|
  {
    FilterAgree(alerts, (a: Alert) => a.actionRequired && !a.acknowledged, ShowsTreat);
  }

  /** After marking an id as read, the unread alerts are exactly the unread ones with other ids. */
  lemma {:induction false} UnreadAfterMarkRead(alerts: seq<Alert>, id: string)
    ensures UnreadCount(MarkedRead(alerts, id)) == |Filter(alerts, (a: Alert) => !a.read && a.id != id)|
  {
    if alerts != [] {
      UnreadAfterMarkRead(alerts[1..], id);
      var r := MarkedRead(alerts, id);
      assert r[1..] == MarkedRead(alerts[1..], id);
    }
  }

  /** After acknowledging an id, the unread alerts are exactly the unread ones with other ids. */
  lemma {:induction false} UnreadAfterAcknowledge(alerts: seq<Alert>, id: string)
    ensures UnreadCount(Acknowledged(alerts, id)) == |Filter(alerts, (a: Alert) => !a.read && a.id != id)|
  {
    if alerts != [] {
      UnreadAfterAcknowledge(alerts[1..], id);
      var r := Acknowledged(alerts, id);
      assert r[1..] == Acknowledged(alerts[1..], id);
    }
  }

  /**
    After acknowledging an id, the alerts needing action are exactly those that
    needed it and carry another id; no alert with that id offers "Traiter" or
    "Marquer lu" any more.
   */
  lemma {:induction false} ActionRequiredAfterAcknowledge(alerts: seq<Alert>, id: string)
    ensures ActionRequiredCount(Acknowledged(alerts, id))
         == |Filter(alerts, (a: Alert) => a.actionRequired && !a.acknowledged && a.id != id)|
    ensures forall a :: a in Acknowledged(alerts, id) && a.id == id ==> !ShowsTreat(a) && !ShowsMarkRead(a)
  {
    if alerts != [] {
      ActionRequiredAfterAcknowledge(alerts[1..], id);
      var r := Acknowledged(alerts, id);
      assert r[1..] == Acknowledged(alerts[1..], id);
    }
  }

  /** Neither update handler raises the unread counter; marking as read leaves the action counter. */
  lemma UpdatesNeverRaiseCounters(alerts: seq<Alert>, id: string)
    ensures UnreadCount(MarkedRead(alerts, id)) <= UnreadCount(alerts)
    ensures UnreadCount(Acknowledged(alerts, id)) <= UnreadCount(alerts)
    ensures ActionRequiredCount(Acknowledged(alerts, id)) <= ActionRequiredCount(alerts)
    ensures ActionRequiredCount(MarkedRead(alerts, id)) == ActionRequiredCount(alerts)
  {
    var unread := (a: Alert) => !a.read;
    var need := (a: Alert) => a.actionRequired && !a.acknowledged;
    var m, k := MarkedRead(alerts, id), Acknowledged(alerts, id);
    FilterCountMonotone(alerts, m, unread, unread);
    FilterCountMonotone(alerts, k, unread, unread);
    FilterCountMonotone(alerts, k, need, need);
    FilterCountMonotone(alerts, m, need, need);
    FilterCountMonotone(m, alerts, need, need);
  }

  /** Dismissing never raises the unread counter or the action-required counter. */
  lemma DismissNeverRaisesCounters(alerts: seq<Alert>, id: string)
    ensures UnreadCount(Dismissed(alerts, id)) <= UnreadCount(alerts)
    ensures ActionRequiredCount(Dismissed(alerts, id)) <= ActionRequiredCount(alerts)
  {
    var d := Dismissed(alerts, id);
    FilterCountSubsequence(d, alerts, (a: Alert) => !a.read);
    FilterCountSubsequence(d, alerts, (a: Alert) => a.actionRequired && !a.acknowledged);
  }

  /** "Acknowledged implies read" holds of every alert. */
  predicate AcknowledgedImpliesRead(alerts: seq<Alert>)
  {
    forall a :: a in alerts ==> a.acknowledged ==> a.read
  }

  /** Every handler keeps "acknowledged implies read". */
  lemma HandlersKeepAcknowledgedRead(alerts: seq<Alert>, id: string)
    requires AcknowledgedImpliesRead(alerts)
    ensures AcknowledgedImpliesRead(MarkedRead(alerts, id))
    ensures AcknowledgedImpliesRead(Acknowledged(alerts, id))
    ensures AcknowledgedImpliesRead(Dismissed(alerts, id))
  {
    var m, k := MarkedRead(alerts, id), Acknowledged(alerts, id);
    assert forall i :: 0 <= i < |m| ==> alerts[i] in alerts;
    assert forall i :: 0 <= i < |k| ==> alerts[i] in alerts;
  }

  // ---------------------------------------------------------------------------
  // The component's state.

  /** The component: `alerts` and `filter` are its two pieces of state. */
  class AlertSystem {
    var alerts: seq<Alert>
    var filter: string

    /** `useState(mockAlerts)` and `useState("all")`. */
    constructor (initial: seq<Alert>)
      ensures alerts == initial && filter == AllTypes
    {
      alerts := initial;
      filter := AllTypes;
    }

    /** The list shown under the filter buttons. */
    function FilteredAlerts(): (r: seq<Alert>)
      reads this
      ensures filter == AllTypes ==> r == alerts
      ensures IsSubsequence(r, alerts)
      ensures forall a :: multiset(r)[a]
                       == if filter == AllTypes || a.kind.Name() == filter then multiset(alerts)[a] else 0
    {
      FilterByTypeOccurrences(alerts, filter);
      IsSubsequenceReflexive(alerts);
      FilterByType(alerts, filter)
    }

    method MarkAsRead(alertId: string)
      modifies this
      ensures alerts == MarkedRead(old(alerts), alertId) && filter == old(filter)
      ensures forall a :: a in alerts && a.id == alertId ==> a.read
      ensures UnreadCount(alerts) <= UnreadCount(old(alerts))
      ensures AcknowledgedImpliesRead(old(alerts)) ==> AcknowledgedImpliesRead(alerts)
    {
      UpdatesNeverRaiseCounters(alerts, alertId);
      if AcknowledgedImpliesRead(alerts) {
        HandlersKeepAcknowledgedRead(alerts, alertId);
      }
      alerts := MarkedRead(alerts, alertId);
    }

    method Acknowledge(alertId: string)
      modifies this
      ensures alerts == Acknowledged(old(alerts), alertId) && filter == old(filter)
      ensures forall a :: a in alerts && a.id == alertId ==> a.read && a.acknowledged
      ensures UnreadCount(alerts) <= UnreadCount(old(alerts))
      ensures ActionRequiredCount(alerts) <= ActionRequiredCount(old(alerts))
      ensures AcknowledgedImpliesRead(old(alerts)) ==> AcknowledgedImpliesRead(alerts)
    {
      UpdatesNeverRaiseCounters(alerts, alertId);
      if AcknowledgedImpliesRead(alerts) {
        HandlersKeepAcknowledgedRead(alerts, alertId);
      }
      alerts := Acknowledged(alerts, alertId);
    }

    method DismissAlert(alertId: string)
      modifies this
      ensures alerts == Dismissed(old(alerts), alertId) && filter == old(filter)
      ensures forall a :: a in alerts ==> a.id != alertId
      ensures |alerts| == |old(alerts)| - |WithId(old(alerts), alertId)|
      ensures AcknowledgedImpliesRead(old(alerts)) ==> AcknowledgedImpliesRead(alerts)
    {
      if AcknowledgedImpliesRead(alerts) {
        HandlersKeepAcknowledgedRead(alerts, alertId);
      }
      DismissedLength(alerts, alertId);
      alerts := Dismissed(alerts, alertId);
    }

    /** One of the five filter buttons. */
    method SetFilter(f: string)
      modifies this
      ensures filter == f && alerts == old(alerts)
    {
      filter := f;
    }
  }

  // ---------------------------------------------------------------------------
  // The list the component starts from.

  function MockAlerts(): seq<Alert>
  {
    [ Alert("1", "Vulnérabilité critique détectée",
            "CVE-2024-1234: Exploitation à distance possible sur le serveur web principal", Critical, "Scanner de vulnérabilités",
            "2024-06-10 15:30", false, false, true),
      Alert("2", "Tentative d'intrusion bloquée",
            "IP 185.220.101.42 a tenté d'accéder à SSH avec 127 tentatives de connexion", Warning, "IDS/IPS",
            "2024-06-10 14:45", true, false, true),
      Alert("3", "Scan de vulnérabilités terminé",
            "Analyse complète du réseau 192.168.1.0/24 terminée avec succès", Success, "Scanner automatique",
            "2024-06-10 13:20", true, true, false),
      Alert("4", "Certificat SSL expirant",
            "Le certificat SSL de app.company.com expire dans 15 jours", Warning, "Monitoring SSL",
            "2024-06-10 12:00", false, false, true),
      Alert("5", "Mise à jour de sécurité disponible",
            "Nouvelles mises à jour critiques disponibles pour Windows Server 2019", Info, "Gestionnaire de patches",
            "2024-06-10 10:15", true, false, true) ]
  }

  /** The three counters of a five-alert list, from its flags and types alone. */
  lemma FiveAlertCounters(s: seq<Alert>)
    requires |s| == 5
    requires s[0].kind == Critical && forall i :: 1 <= i < 5 ==> s[i].kind != Critical
    requires !s[0].read && s[1].read && s[2].read && !s[3].read && s[4].read
    requires s[0].actionRequired && s[1].actionRequired && !s[2].actionRequired
          && s[3].actionRequired && s[4].actionRequired
    requires !s[0].acknowledged && !s[1].acknowledged && !s[3].acknowledged && !s[4].acknowledged
    ensures |OfType(s, Critical)| == 1
    ensures UnreadCount(s) == 2
    ensures ActionRequiredCount(s) == 4
  {
    var t1, t2, t3, t4 := s[1..], s[2..], s[3..], s[4..];
    assert t1[1..] == t2 && t2[1..] == t3 && t3[1..] == t4 && t4[1..] == [];
    assert UnreadCount(t4) == 0 && ActionRequiredCount(t4) == 1 && |OfType(t4, Critical)| == 0;
    assert UnreadCount(t3) == 1 && ActionRequiredCount(t3) == 2 && |OfType(t3, Critical)| == 0;
    assert UnreadCount(t2) == 1 && ActionRequiredCount(t2) == 2 && |OfType(t2, Critical)| == 0;
    assert UnreadCount(t1) == 1 && ActionRequiredCount(t1) == 3 && |OfType(t1, Critical)| == 0;
  }

  /** On the initial list: one critical alert, two unread, four needing action. */
  lemma MockAlertCounters()
    ensures |FilterByType(MockAlerts(), "critical")| == 1
    ensures UnreadCount(MockAlerts()) == 2
    ensures ActionRequiredCount(MockAlerts()) == 4
  {
    FilterByTypeName(MockAlerts(), Critical);
    FiveAlertCounters(MockAlerts());
  }

  /** The initial list already has every acknowledged alert read, so the handlers keep it so from the start. */
  lemma MockAlertsAcknowledgedRead()
    ensures AcknowledgedImpliesRead(MockAlerts())
  {
  }
}
