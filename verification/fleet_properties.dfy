/**
 * What the dashboard shows for a generated fleet: facts that tie the
 * generator (`src/shared/utils/dummyData.ts`) to the map and the alert panel
 * that display its output.
 */
module FleetProperties {
  import opened Monitoring
  import opened Strings
  import opened Seqs
  import opened DummyData
  import opened RouteColor
  import opened FleetMap
  import AlertPanel

  // ---------------------------------------------------------------- route colours of the pool

  lemma {:induction false} RouteColorOf13g()
    ensures GetRouteColor("13g") == "#06b6d4"
  {
    assert "13g"[..2] == "13" && "13"[..1] == "1" && "1"[..0] == "";
    assert Polynomial("1") == 49;
    assert Polynomial("13") == 1570;
    assert Polynomial("13g") == 48773;
    HashIsPolynomial("13g");
    assert PaletteIndex("13g") == 5;
  }

  lemma {:induction false} RouteColorOf5a()
    ensures GetRouteColor("5a") == "#3b82f6"
  {
    assert "5a"[..1] == "5" && "5"[..0] == "";
    assert Polynomial("5") == 53;
    assert Polynomial("5a") == 1740;
    HashIsPolynomial("5a");
    assert PaletteIndex("5a") == 0;
  }

  lemma {:induction false} RouteColorOf12c()
    ensures GetRouteColor("12c") == "#f97316"
  {
    assert "12c"[..2] == "12" && "12"[..1] == "1" && "1"[..0] == "";
    assert Polynomial("1") == 49;
    assert Polynomial("12") == 1569;
    assert Polynomial("12c") == 48738;
    HashIsPolynomial("12c");
    assert PaletteIndex("12c") == 6;
  }

  lemma {:induction false} RouteColorOf9d()
    ensures GetRouteColor("9d") == "#10b981"
  {
    assert "9d"[..1] == "9" && "9"[..0] == "";
    assert Polynomial("9") == 57;
    assert Polynomial("9d") == 1867;
    HashIsPolynomial("9d");
    assert PaletteIndex("9d") == 7;
  }

  /** The colours the five pool routes get, in the order of `routeIds`. */
  const PoolColors: seq<string> := ["#06b6d4", "#3b82f6", "#ef4444", "#f97316", "#10b981"]

  /** The five route identifiers of the generator get these five colours. */
  lemma PoolRouteColors(k: nat)
    requires k < |RouteIds|
    ensures GetRouteColor(RouteIds[k]) == PoolColors[k]
  {
    if k == 0 {
      RouteColorOf13g();
    } else if k == 1 {
      RouteColorOf5a();
    } else if k == 2 {
      RouteColorOf7b();
    } else if k == 3 {
      RouteColorOf12c();
    } else {
      RouteColorOf9d();
    }
  }

  /** The pool colours already differ in their first hex digit. */
  lemma PoolColorsDiffer(a: nat, b: nat)
    requires a < |PoolColors| && b < |PoolColors|
    requires PoolColors[a][1] == PoolColors[b][1]
    ensures a == b
  {
  }

  /** Within the pool, equal colours mean equal route identifiers. */
  lemma PoolRouteColorsDistinct(a: nat, b: nat)
    requires a < |RouteIds| && b < |RouteIds|
    ensures GetRouteColor(RouteIds[a]) == GetRouteColor(RouteIds[b]) <==> a == b
  {
    PoolRouteColors(a);
    PoolRouteColors(b);
    if PoolColors[a] == PoolColors[b] {
      PoolColorsDiffer(a, b);
    }
  }

  /** Two buses of a generated fleet share a route colour exactly when they share a route. */
  lemma FleetRouteColors(draws: FleetDraws, now: Millis, i: nat, j: nat)
    requires i < BusCount(draws.buses) && j < BusCount(draws.buses)
    ensures var f := GenerateDummyData(draws, now);
      GetRouteColor(f.routes[i].routeId) == GetRouteColor(f.routes[j].routeId) <==> i % |RouteIds| == j % |RouteIds|
  {
    var f := GenerateDummyData(draws, now);
    assert f.routes[i].routeId == RouteIds[i % |RouteIds|] && f.routes[j].routeId == RouteIds[j % |RouteIds|];
    PoolRouteColorsDistinct(i % |RouteIds|, j % |RouteIds|);
  }

  // ---------------------------------------------------------------- polylines and markers

  /** A generated route always has more than one point in each of its three paths, so all are drawn. */
  lemma GeneratedRouteDrawsAllPaths(routeId: string, unitId: string, draws: RouteDraws, geometry: Geometry, now: Millis)
    ensures var lines := RoutePolylines(GenerateRoute(routeId, unitId, draws, geometry, now));
      HasKind(lines, FullPath) && HasKind(lines, CompletedPath) && HasKind(lines, RemainingPath)
  {
  }

  /** Each bus of a generated fleet is drawn with all three polylines. */
  lemma GeneratedRouteHasThreeLines(draws: FleetDraws, now: Millis, i: nat)
    requires i < BusCount(draws.buses)
    ensures |RoutePolylines(GenerateDummyData(draws, now).routes[i])| == 3
  {
    var r := GenerateDummyData(draws, now).routes[i];
    assert r == BusRouteAt(draws, i, now);
  }

  /** Every alert of a generated fleet belongs to the bus whose unit it names. */
  lemma AlertOfGeneratedUnit(draws: FleetDraws, now: Millis, a: Alert, i: nat)
    requires var f := GenerateDummyData(draws, now); a in f.alerts && i < |f.routes|
    requires a.unitId == GenerateDummyData(draws, now).routes[i].unitId
    ensures SharesRide(a, GenerateDummyData(draws, now).routes[i])
  {
    var f := GenerateDummyData(draws, now);
    var k :| 0 <= k < |f.routes| && SharesRide(a, f.routes[k]);
    assert f.routes[k].unitId == UnitName(k) && f.routes[i].unitId == UnitName(i);
    UnitNameInjective(k, i);
  }

  /**
   * In a generated fleet no unit id contains a dash, so the joined alert key
   * decides the marker colour exactly as the pair comparison does.
   */
  lemma GeneratedMarkersAgree(draws: FleetDraws, now: Millis, i: nat)
    requires i < BusCount(draws.buses)
    ensures var f := GenerateDummyData(draws, now);
      MarkerColorAsWritten(f.alerts, f.routes[i]) == MarkerColor(f.alerts, f.routes[i])
  {
    var f := GenerateDummyData(draws, now);
    assert f.routes[i].unitId == UnitName(i);
    UnitNameHasNoDash(i);
    forall a | a in f.alerts
      ensures '-' !in a.unitId
    {
      var k :| 0 <= k < |f.routes| && SharesRide(a, f.routes[k]);
      assert a.unitId == UnitName(k);
      UnitNameHasNoDash(k);
    }
    DashFreeKeysAgree(f.alerts, f.routes[i]);
  }

  /**
   * Each generated bus has alerts of its own, so every marker of a generated
   * fleet is red, both as the map computes it and as intended.
   */
  lemma GeneratedMarkersAllAlert(draws: FleetDraws, now: Millis, i: nat)
    requires i < BusCount(draws.buses)
    ensures var f := GenerateDummyData(draws, now);
      MarkerColorAsWritten(f.alerts, f.routes[i]) == AlertMarkerColor
      && MarkerColor(f.alerts, f.routes[i]) == AlertMarkerColor
  {
    var f := GenerateDummyData(draws, now);
    FleetAlertsPerBus(draws, now, i);
    var p := OfUnit(f.routes[i].unitId);
    assert Filter(f.alerts, p) != [];
    var m :| 0 <= m < |f.alerts| && p(f.alerts[m]);
    AlertOfGeneratedUnit(draws, now, f.alerts[m], i);
    assert HasAlertForRide(f.alerts, f.routes[i]);
    GeneratedMarkersAgree(draws, now, i);
  }

  /** The map of a generated fleet is never the placeholder and draws one full layer per bus. */
  lemma GeneratedFleetMap(draws: FleetDraws, now: Millis)
    ensures var f := GenerateDummyData(draws, now);
      var v := RenderFleetMap(f.routes, f.alerts);
      v.LeafletMap? && 5 <= |v.layers| <= 8
      && forall i :: 0 <= i < |v.layers| ==>
        |v.layers[i].lines| == 3 && v.layers[i].markerColor == AlertMarkerColor
  {
    var f := GenerateDummyData(draws, now);
    var v := RenderFleetMap(f.routes, f.alerts);
    forall i | 0 <= i < |v.layers|
      ensures |v.layers[i].lines| == 3 && v.layers[i].markerColor == AlertMarkerColor
    {
      GeneratedMarkersAllAlert(draws, now, i);
      GeneratedRouteHasThreeLines(draws, now, i);
    }
  }

  // ---------------------------------------------------------------- alert panel

  /** Sorting the generated alerts newest first does not change how many are unread. */
  lemma GeneratedUnreadCount(draws: FleetDraws, now: Millis)
    ensures var f := GenerateDummyData(draws, now);
      AlertPanel.UnreadCount(f.alerts) == AlertPanel.UnreadCount(PushedAlerts(draws, |f.routes|, now))
  {
    var f := GenerateDummyData(draws, now);
    FilterPermutation(f.alerts, PushedAlerts(draws, |f.routes|, now), AlertPanel.IsUnread);
  }
}
