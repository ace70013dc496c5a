/**
  The system alerts that `monitorComponent.SystemInit` keeps in step with its
  templates (pkg/controller/onecloud_control.go): for every template it updates
  the first listed alert that matches or creates a new one, and at the end it
  deletes the alerts nothing matched. Go ranges over the templates in any order.
 */
module SystemAlerts {
  import opened Wrappers

  type Metric = string

  /** `meta` is None when the alert has no metadata object, else the `meta_name` in it. */
  datatype Alert = Alert(id: string, name: string, meta: Option<string>)

  predicate Matches(metric: Metric, a: Alert) {
    metric == a.name || a.meta == Some(metric)
  }

  datatype Scan = NoMetadata | Scanned(hit: Option<Alert>, rest: seq<Alert>)

  /** `matchFromRtnAlerts`: the first matching alert and all the others, in order. */
  function ScanFor(metric: Metric, alerts: seq<Alert>): Scan {
    if alerts == [] then Scanned(None, [])
    else if alerts[0].meta.None? then NoMetadata
    else if Matches(metric, alerts[0]) then Scanned(Some(alerts[0]), alerts[1..])
    else Prepend(alerts[..1], ScanFor(metric, alerts[1..]))
  }

  function Prepend(skipped: seq<Alert>, s: Scan): Scan {
    if s.NoMetadata? then s else s.(rest := skipped + s.rest)
  }

  method MatchFromAlerts(metric: Metric, alerts: seq<Alert>) returns (s: Scan)
    ensures s == ScanFor(metric, alerts)
  {
    var skipped: seq<Alert> := [];
    for i := 0 to |alerts|
      invariant skipped == alerts[..i]
      invariant ScanFor(metric, alerts) == Prepend(skipped, ScanFor(metric, alerts[i..]))
    {
      var alert := alerts[i];
      if alert.meta.None? {
        return NoMetadata;
      }
      if Matches(metric, alert) {
        return Scanned(Some(alert), skipped + alerts[i + 1..]);
      }
      assert alerts[i..][1..] == alerts[i + 1..] && alerts[i..][..1] == [alert];
      forall s: Scan
        ensures Prepend(skipped, Prepend([alert], s)) == Prepend(skipped + [alert], s)
      {
        if s.Scanned? {
          assert skipped + ([alert] + s.rest) == (skipped + [alert]) + s.rest;
        }
      }
      skipped := skipped + [alert];
    }
    return Scanned(None, skipped);
  }

  /** What one run did: `failed` means that it stopped before the deletions. */
  datatype Effect = Effect(updated: seq<(Metric, Alert)>, created: seq<Metric>, deleted: seq<Alert>, failed: bool)

  /** `SystemInit`, for the templates in the order in which Go visits them. */
  function Init(order: seq<Metric>, alerts: seq<Alert>): Effect {
    if order == [] then Effect([], [], alerts, false)
    else
      match ScanFor(order[0], alerts)
      case NoMetadata => Effect([], [], [], true)
      case Scanned(hit, rest) => Record(order[0], hit, Init(order[1..], rest))
  }

  function Record(metric: Metric, hit: Option<Alert>, e: Effect): Effect {
    if hit.Some? then e.(updated := [(metric, hit.value)] + e.updated)
    else e.(created := [metric] + e.created)
  }

  function Join(a: Effect, b: Effect): Effect {
    b.(updated := a.updated + b.updated, created := a.created + b.created)
  }

  method SystemInit(order: seq<Metric>, alerts: seq<Alert>) returns (e: Effect)
    ensures e == Init(order, alerts)
  {
    var left := alerts;
    e := Effect([], [], [], false);
    for i := 0 to |order|
      invariant Init(order, alerts) == Join(e, Init(order[i..], left))
      invariant e.deleted == [] && !e.failed
    {
      var s := MatchFromAlerts(order[i], left);
      assert order[i..][1..] == order[i + 1..];
      match s {
        case NoMetadata =>
          e := e.(failed := true);
          return;
        case Scanned(hit, rest) =>
          ghost var later := Init(order[i + 1..], rest);
          if hit.Some? {
            assert e.updated + ([(order[i], hit.value)] + later.updated)
                == (e.updated + [(order[i], hit.value)]) + later.updated;
            e := e.(updated := e.updated + [(order[i], hit.value)]);
          } else {
            assert e.created + ([order[i]] + later.created) == (e.created + [order[i]]) + later.created;
            e := e.(created := e.created + [order[i]]);
          }
          left := rest;
      }
    }
    e := e.(deleted := left);
  }

  /* ---------- conservation ---------- */

  ghost predicate HaveMetadata(alerts: seq<Alert>) {
    forall i | 0 <= i < |alerts| :: alerts[i].meta.Some?
  }

  function AlertsOf(pairs: seq<(Metric, Alert)>): seq<Alert> {
    seq(|pairs|, i requires 0 <= i < |pairs| => pairs[i].1)
  }

  function MetricsOf(pairs: seq<(Metric, Alert)>): seq<Metric> {
    seq(|pairs|, i requires 0 <= i < |pairs| => pairs[i].0)
  }

  /** The first alert that matches. */
  function FirstMatch(metric: Metric, alerts: seq<Alert>): (hit: Option<Alert>)
    ensures hit.Some? ==> hit.value in alerts && Matches(metric, hit.value)
    ensures hit.None? ==> forall a | a in alerts :: !Matches(metric, a)
  {
    if alerts == [] then None
    else if Matches(metric, alerts[0]) then Some(alerts[0])
    else FirstMatch(metric, alerts[1..])
  }

  lemma {:induction false} ScanTakesOne(metric: Metric, alerts: seq<Alert>)
    requires HaveMetadata(alerts)
    ensures var s := ScanFor(metric, alerts);
      && s.Scanned? && s.hit == FirstMatch(metric, alerts) && HaveMetadata(s.rest)
      && (s.hit.None? ==> s.rest == alerts)
      && (s.hit.Some? ==> multiset(alerts) == multiset{s.hit.value} + multiset(s.rest))
  {
    if alerts != [] {
      assert alerts == alerts[..1] + alerts[1..];
      HeadCounts(alerts);
      if !Matches(metric, alerts[0]) {
        ScanTakesOne(metric, alerts[1..]);
        var rest := ScanFor(metric, alerts[1..]).rest;
        HeadCounts(alerts[..1] + rest);
        assert (alerts[..1] + rest)[1..] == rest;
      }
    }
  }

  lemma HeadCounts(alerts: seq<Alert>)
    requires alerts != []
    ensures multiset(alerts) == multiset{alerts[0]} + multiset(alerts[1..])
  {
    assert alerts == [alerts[0]] + alerts[1..];
  }

  /** One more update adds its alert and its template to the record; a creation adds its template. */
  lemma RecordCounts(metric: Metric, hit: Option<Alert>, e: Effect)
    ensures var r := Record(metric, hit, e);
      && multiset(AlertsOf(r.updated))
         == (if hit.Some? then multiset{hit.value} else multiset{}) + multiset(AlertsOf(e.updated))
      && multiset(MetricsOf(r.updated)) + multiset(r.created)
         == multiset{metric} + (multiset(MetricsOf(e.updated)) + multiset(e.created))
      && r.deleted == e.deleted && r.failed == e.failed
      && (forall p | p in r.updated :: p in e.updated || (hit.Some? && p == (metric, hit.value)))
  {
    if hit.Some? {
      var p := (metric, hit.value);
      assert AlertsOf([p] + e.updated) == [p.1] + AlertsOf(e.updated);
      assert MetricsOf([p] + e.updated) == [p.0] + MetricsOf(e.updated);
    }
  }

  lemma {:induction false} UpdatedMatch(order: seq<Metric>, alerts: seq<Alert>)
    requires HaveMetadata(alerts)
    ensures forall p | p in Init(order, alerts).updated :: Matches(p.0, p.1)
  {
    hide ScanFor, FirstMatch, HaveMetadata, Record;
    if order != [] {
      var s := ScanFor(order[0], alerts);
      ScanTakesOne(order[0], alerts);
      UpdatedMatch(order[1..], s.rest);
      RecordCounts(order[0], s.hit, Init(order[1..], s.rest));
    }
  }

  /**
    For listed alerts with metadata the run does not fail, the updated and the
    deleted alerts partition the list, every template is updated or created
    exactly once, and an alert is only updated from a template it matches.
   */
  lemma {:induction false} Conservation(order: seq<Metric>, alerts: seq<Alert>)
    requires HaveMetadata(alerts)
    ensures var e := Init(order, alerts);
      && !e.failed
      && multiset(AlertsOf(e.updated)) + multiset(e.deleted) == multiset(alerts)
      && multiset(MetricsOf(e.updated)) + multiset(e.created) == multiset(order)
      && (forall p | p in e.updated :: Matches(p.0, p.1))
  {
    hide AlertsOf, MetricsOf, ScanFor, FirstMatch, HaveMetadata, Record, Matches;
    UpdatedMatch(order, alerts);
    if order == [] {
      NothingDone();
    } else {
      var s := ScanFor(order[0], alerts);
      ScanTakesOne(order[0], alerts);
      Conservation(order[1..], s.rest);
      RecordCounts(order[0], s.hit, Init(order[1..], s.rest));
      assert multiset(order) == multiset{order[0]} + multiset(order[1..]) by {
        assert order == [order[0]] + order[1..];
      }
    }
  }

  lemma NothingDone()
    ensures AlertsOf([]) == [] && MetricsOf([]) == []
  {
  }

  /**
    Idempotence: once the list has exactly one alert per template, known by its name or
    by the name in its metadata and by no other template's, a run creates and deletes none
    and updates each from its own template.
   */
  lemma SecondRunIsQuiet(order: seq<Metric>, alerts: seq<Alert>)
    requires |alerts| == |order| && forall i | 0 <= i < |order| :: alerts[i].meta.Some?
    requires forall i | 0 <= i < |order| :: alerts[i].name == order[i] || alerts[i].meta == Some(order[i])
    requires forall i, j | 0 <= i < |order| && 0 <= j < |order| && i != j ::
      alerts[i].name != order[j] && alerts[i].meta != Some(order[j])
    ensures var e := Init(order, alerts);
      && !e.failed && e.created == [] && e.deleted == []
      && e.updated == seq(|order|, i requires 0 <= i < |order| => (order[i], alerts[i]))
  {
    if order != [] {
      assert ScanFor(order[0], alerts) == Scanned(Some(alerts[0]), alerts[1..]);
      SecondRunIsQuiet(order[1..], alerts[1..]);
      var rest := seq(|order| - 1, i requires 0 <= i < |order| - 1 => (order[1..][i], alerts[1..][i]));
      assert seq(|order|, i requires 0 <= i < |order| => (order[i], alerts[i])) == [(order[0], alerts[0])] + rest;
    }
  }

  /** Some alert has no metadata, and none before it matches. */
  ghost predicate MeetsNoMetadata(metric: Metric, alerts: seq<Alert>) {
    exists i :: MeetsNoMetadataAt(metric, alerts, i)
  }

  predicate MeetsNoMetadataAt(metric: Metric, alerts: seq<Alert>, i: int) {
    0 <= i < |alerts| && alerts[i].meta.None? && forall j | 0 <= j < i :: !Matches(metric, alerts[j])
  }

  lemma MeetsInRest(metric: Metric, alerts: seq<Alert>)
    requires alerts != [] && alerts[0].meta.Some? && !Matches(metric, alerts[0])
    ensures MeetsNoMetadata(metric, alerts) <==> MeetsNoMetadata(metric, alerts[1..])
  {
    if i :| MeetsNoMetadataAt(metric, alerts, i) {
      assert MeetsNoMetadataAt(metric, alerts[1..], i - 1);
    }
    if i :| MeetsNoMetadataAt(metric, alerts[1..], i) {
      assert forall j | 0 < j < |alerts| :: alerts[j] == alerts[1..][j - 1];
      assert MeetsNoMetadataAt(metric, alerts, i + 1);
    }
  }

  /** A scan fails exactly if it meets an alert without metadata before it has found a match. */
  lemma {:induction false} ScanFailsIff(metric: Metric, alerts: seq<Alert>)
    ensures ScanFor(metric, alerts).NoMetadata? <==> MeetsNoMetadata(metric, alerts)
  {
    if alerts != [] && alerts[0].meta.None? {
      assert MeetsNoMetadataAt(metric, alerts, 0);
    } else if alerts != [] && !Matches(metric, alerts[0]) {
      MeetsInRest(metric, alerts);
      ScanFailsIff(metric, alerts[1..]);
    }
  }

  /** A run that fails has deleted nothing. */
  lemma {:induction false} FailedDeletesNothing(order: seq<Metric>, alerts: seq<Alert>)
    requires Init(order, alerts).failed
    ensures Init(order, alerts).deleted == []
  {
    if order != [] && ScanFor(order[0], alerts).Scanned? {
      FailedDeletesNothing(order[1..], ScanFor(order[0], alerts).rest);
    }
  }

  /* ---------- the order of the templates ---------- */

  ghost function Elements<T>(s: seq<T>): set<T> {
    set x | x in s
  }

  ghost predicate Distinct<T>(s: seq<T>) {
    forall i, j | 0 <= i < j < |s| :: s[i] != s[j]
  }

  /** No two templates have the same first match. */
  ghost predicate NoContention(metrics: set<Metric>, alerts: seq<Alert>) {
    forall m, n | m in metrics && n in metrics && m != n && FirstMatch(m, alerts).Some? ::
      FirstMatch(m, alerts) != FirstMatch(n, alerts)
  }

  function Without(alerts: seq<Alert>, gone: set<Alert>): seq<Alert> {
    if alerts == [] then []
    else (if alerts[0] in gone then [] else [alerts[0]]) + Without(alerts[1..], gone)
  }

  /** The alerts that some template finds first. */
  ghost function Claimed(metrics: set<Metric>, alerts: seq<Alert>): set<Alert> {
    set m | m in metrics && FirstMatch(m, alerts).Some? :: FirstMatch(m, alerts).value
  }

  ghost function Pairing(metrics: set<Metric>, alerts: seq<Alert>): set<(Metric, Alert)> {
    set m | m in metrics && FirstMatch(m, alerts).Some? :: (m, FirstMatch(m, alerts).value)
  }

  lemma {:induction false} ScanRest(metric: Metric, alerts: seq<Alert>)
    requires HaveMetadata(alerts) && Distinct(alerts)
    ensures var s := ScanFor(metric, alerts);
      && s.Scanned? && s.hit == FirstMatch(metric, alerts)
      && s.rest == Without(alerts, if s.hit.Some? then {s.hit.value} else {})
  {
    if alerts != [] {
      if Matches(metric, alerts[0]) {
        WithoutAbsent(alerts[1..], {alerts[0]});
        assert [] + alerts[1..] == alerts[1..];
      } else {
        ScanRest(metric, alerts[1..]);
        assert FirstMatch(metric, alerts) != Some(alerts[0]);
      }
    }
  }

  lemma {:induction false} WithoutAbsent(alerts: seq<Alert>, gone: set<Alert>)
    requires forall a | a in alerts :: a !in gone
    ensures Without(alerts, gone) == alerts
  {
    if alerts != [] {
      WithoutAbsent(alerts[1..], gone);
    }
  }

  /** Taking away alerts that `metric` does not find first leaves its first match in place. */
  lemma {:induction false} FirstMatchWithout(metric: Metric, alerts: seq<Alert>, a: Alert)
    requires FirstMatch(metric, alerts) != Some(a)
    ensures FirstMatch(metric, Without(alerts, {a})) == FirstMatch(metric, alerts)
  {
    if alerts != [] {
      var rest := Without(alerts[1..], {a});
      if alerts[0] == a {
        FirstMatchWithout(metric, alerts[1..], a);
        assert [] + rest == rest;
      } else {
        assert ([alerts[0]] + rest)[1..] == rest;
        if !Matches(metric, alerts[0]) {
          FirstMatchWithout(metric, alerts[1..], a);
        }
      }
    }
  }

  lemma {:induction false} WithoutTwice(alerts: seq<Alert>, a: set<Alert>, b: set<Alert>)
    ensures Without(Without(alerts, a), b) == Without(alerts, a + b)
  {
    if alerts != [] {
      WithoutTwice(alerts[1..], a, b);
      var rest := Without(alerts[1..], a);
      if alerts[0] in a {
        assert [] + rest == rest;
      } else {
        assert ([alerts[0]] + rest)[1..] == rest;
      }
    }
  }

  lemma {:induction false} WithoutKeeps(alerts: seq<Alert>, gone: set<Alert>)
    ensures forall a :: a in Without(alerts, gone) <==> a in alerts && a !in gone
    ensures HaveMetadata(alerts) ==> HaveMetadata(Without(alerts, gone))
    ensures Distinct(alerts) ==> Distinct(Without(alerts, gone))
  {
    if alerts != [] {
      WithoutKeeps(alerts[1..], gone);
      assert alerts == [alerts[0]] + alerts[1..];
    }
  }

  lemma StepKeepsOthers(m: Metric, others: set<Metric>, alerts: seq<Alert>)
    requires m !in others && NoContention({m} + others, alerts) && FirstMatch(m, alerts).Some?
    ensures var rest := Without(alerts, {FirstMatch(m, alerts).value});
      && (forall n | n in others :: FirstMatch(n, rest) == FirstMatch(n, alerts))
      && NoContention(others, rest)
  {
    var a := FirstMatch(m, alerts).value;
    forall n | n in others
      ensures FirstMatch(n, Without(alerts, {a})) == FirstMatch(n, alerts)
    {
      assert n in {m} + others;
      FirstMatchWithout(n, alerts, a);
    }
  }

  /**
    Without contention a run has a closed form that does not mention the order:
    every template gets its first match in the whole list, and the alerts that
    no template finds first are deleted, in list order.
   */
  lemma {:induction false} ClosedForm(order: seq<Metric>, alerts: seq<Alert>)
    requires HaveMetadata(alerts) && Distinct(alerts) && Distinct(order)
    requires NoContention(Elements(order), alerts)
    ensures var e := Init(order, alerts);
      var metrics := Elements(order);
      && Elements(e.updated) == Pairing(metrics, alerts)
      && e.deleted == Without(alerts, Claimed(metrics, alerts))
  {
    if order == [] {
      WithoutAbsent(alerts, {});
      assert Elements(order) == {} && Claimed({}, alerts) == {} && Pairing({}, alerts) == {};
    } else {
      var m := order[0];
      var others := Elements(order[1..]);
      assert order == [m] + order[1..];
      assert Elements(order) == {m} + others;
      assert m !in others;
      ScanRest(m, alerts);
      var s := ScanFor(m, alerts);
      WithoutKeeps(alerts, if s.hit.Some? then {s.hit.value} else {});
      if s.hit.Some? {
        StepKeepsOthers(m, others, alerts);
        ClosedForm(order[1..], s.rest);
        WithoutTwice(alerts, {s.hit.value}, Claimed(others, alerts));
        assert Claimed({m} + others, alerts) == {s.hit.value} + Claimed(others, alerts);
        assert Claimed(others, s.rest) == Claimed(others, alerts);
        assert Pairing({m} + others, alerts) == {(m, s.hit.value)} + Pairing(others, s.rest);
      } else {
        WithoutAbsent(alerts, {});
        ClosedForm(order[1..], alerts);
        assert Claimed({m} + others, alerts) == Claimed(others, alerts);
        assert Pairing({m} + others, alerts) == Pairing(others, alerts);
      }
    }
  }

  /** So two runs over the same templates in different orders pair alerts alike and delete the same list. */
  lemma OrderDoesNotMatter(first: seq<Metric>, second: seq<Metric>, alerts: seq<Alert>)
    requires HaveMetadata(alerts) && Distinct(alerts) && Distinct(first) && Distinct(second)
    requires Elements(first) == Elements(second) && NoContention(Elements(first), alerts)
    ensures var e, f := Init(first, alerts), Init(second, alerts);
      Elements(e.updated) == Elements(f.updated) && e.deleted == f.deleted
  {
    ClosedForm(first, alerts);
    ClosedForm(second, alerts);
  }

  /**
    With contention the order does matter: whichever of two templates with the
    same first match comes first gets the alert. Together with
    OrderDoesNotMatter: the pairing is independent of the order exactly when
    there is no contention.
   */
  lemma ContentionMatters(m: Metric, n: Metric, rest: seq<Metric>, alerts: seq<Alert>)
    requires HaveMetadata(alerts) && Distinct(alerts)
    requires m != n && m !in rest && n !in rest
    requires FirstMatch(m, alerts).Some? && FirstMatch(m, alerts) == FirstMatch(n, alerts)
    ensures var p := (m, FirstMatch(m, alerts).value);
      p in Init([m, n] + rest, alerts).updated && p !in Init([n, m] + rest, alerts).updated
  {
    hide Init, FirstMatch;
    FirstGetsIt(m, [n] + rest, alerts);
    FirstGetsIt(n, [m] + rest, alerts);
    assert [m] + ([n] + rest) == [m, n] + rest;
    assert [n] + ([m] + rest) == [n, m] + rest;
  }

  /** The first template of the order gets its first match, and no other template gets that alert. */
  lemma FirstGetsIt(m: Metric, rest: seq<Metric>, alerts: seq<Alert>)
    requires HaveMetadata(alerts) && Distinct(alerts) && FirstMatch(m, alerts).Some?
    ensures var a := FirstMatch(m, alerts).value;
      var u := Init([m] + rest, alerts).updated;
      (m, a) in u && forall n | n != m :: (n, a) !in u
  {
    var a := FirstMatch(m, alerts).value;
    var s := ScanFor(m, alerts);
    ScanRest(m, alerts);
    WithoutKeeps(alerts, {a});
    assert ([m] + rest)[1..] == rest;
    var later := Init(rest, s.rest);
    Conservation(rest, s.rest);
    forall p | p in later.updated
      ensures p.1 in s.rest
    {
      var i :| 0 <= i < |later.updated| && later.updated[i] == p;
      assert AlertsOf(later.updated)[i] == p.1;
      assert p.1 in multiset(s.rest);
    }
  }
}
