# Fleet monitoring dashboard — a Dafny model

This project models the logic core of a fleet-monitoring dashboard written in
TypeScript and React:

- the demo-data generator `generateDummyData` (`src/shared/utils/dummyData.ts`):
  5–8 buses cycling over the routes 13g, 5a, 7b, 12c and 9d, each with a route
  of 15–24 points split into a completed and a remaining part, a ride window
  and a delay, plus 2–4 alerts per bus, sorted newest first;
- the map (`src/shared/components/Map/FleetMap.tsx`): the hashed route colour,
  the lighter colour for the remaining path, the three polylines per route and
  their length guards, the red/green bus marker keyed by `unitId-routeId`, the
  "no routes" placeholder, the initial centre and zoom, and the map
  controller's two effects (fit all points once, then fly to a selected route)
  and its remounting after the placeholder was shown;
- the alert panel (`src/shared/components/AlertPanel/AlertPanel.tsx`): the
  one-line detail summary `getAlertDetails`, the header with its plural and
  unread badge, the empty message, the unread dot and the footer;
- the sidebar (`src/shared/components/Sidebar/Sidebar.tsx`): which item is
  active for a location, the collapse toggle and what it switches;
- `cn` (`src/shared/utils/cn.ts`), the class-name joiner;
- the record types of `src/shared/types/monitoring.ts` (module `Monitoring`).

Randomness, the clock and the map's point geometry are parameters: every
`Math.random()` call of the generator is one value of a draw record
(`UnitDraw`, a real in [0, 1)), the clock is read once as `now` (milliseconds),
and the cosine/sine point layout is a function `geometry(i, n)` from index and
count to a point. JavaScript's 32-bit `<<` and `Math.round` are modelled
exactly in `JsNumbers`. Rendering is modelled as plain view records
(`MapView`, `PanelView`, `SidebarView`) holding the decisions the components
make.

Where code comments and code disagree, the model follows the code:

- the route delay and the alert delay are `Math.floor((r - 0.5) * 10)`, which
  lies in [-5, 4], not "-5 to +5" as the comment says;
- the speeding speed is `60 + Math.floor(r * 40)`, in [60, 99], not "60-100";
- an alert's timestamp is `now - r * 30 min` with `r` in [0, 1), so it lies in
  the window (now - 30 min, now]; the model states the closed window.

Modules: `Wrappers` (Option), `Seqs` and `Strings` (generic helpers: filter,
join, split, decimal text), `JsNumbers`, `Monitoring`, `NewestFirst` (the
newest-first stable sort), `DummyData`, `RouteColor`, `FleetMap`,
`AlertPanel`, `ClassNames` (`cn`), `Sidebar`, and `FleetProperties` (facts
that connect the generator to the map and the panel).

## Model

| member | source | states |
|---|---|---|
| DummyData.SegmentCount | src/shared/utils/dummyData.ts:20 | a route has between 15 and 24 points |
| DummyData.CompletedCount | src/shared/utils/dummyData.ts:21-22 | the completed count is 4..19 and always leaves at least 4 points remaining |
| DummyData.CompletedBounds | src/shared/utils/dummyData.ts:21-22 | a completion ratio in [0.3, 0.8) of 15..24 points, floored, gives 4..19 completed points and at least 4 remaining |
| DummyData.DelayMinutes | src/shared/utils/dummyData.ts:60 | the delay drawn is between -5 and 4 minutes |
| DummyData.DelayMinutesReaches | src/shared/utils/dummyData.ts:60 | every delay from -5 to 4 is produced by some draw |
| DummyData.CurrentIndex | src/shared/utils/dummyData.ts:38 | the current index is a valid point index: the completed count when that is below the point count, the last index otherwise |
| DummyData.GenerateRoute | src/shared/utils/dummyData.ts:19-62 | the route has `SegmentCount` of its draw points, following the geometry; `CompletedCount` of them are completed (4..19, at least 4 remain); the delay is `DelayMinutes` of its draw; the bus stands on the first remaining point, id is `route-<routeId>-<unitId>`, name `Ruta <routeId>`, the ride runs from 20 minutes before now to 15 minutes after it, the delay is in [-5, 4] |
| DummyData.PickType | src/shared/utils/dummyData.ts:73-82 | each of the four alert types is chosen exactly on its quarter of the draw range |
| DummyData.PickPriority | src/shared/utils/dummyData.ts:80-83 | each of the three priorities is chosen exactly on its third of the draw range |
| DummyData.Speed | src/shared/utils/dummyData.ts:94 | a speeding alert's speed is between 60 and 99 km/h |
| DummyData.StopsSkipped | src/shared/utils/dummyData.ts:108 | the skipped-stop count is 1, 2 or 3 |
| DummyData.AlertTimestamp | src/shared/utils/dummyData.ts:115 | an alert's timestamp is `now - r * 30 min` cut toward zero to whole milliseconds, so it lies within the 30 minutes before now |
| DummyData.TruncateTowardZero | src/shared/utils/dummyData.ts:115 | the integer part of a number: at most the number and within 1 of it for non-negative numbers, at least it and within 1 for negative ones |
| DummyData.GenerateAlert | src/shared/utils/dummyData.ts:67-123 | the alert carries the bus's unit, route and ride window; its type and priority are the ones its two draws pick; it has a speed exactly when it is a speeding alert, and that speed is `Speed` of its draw; a delay, `DelayMinutes` of its draw, exactly when its gate draw exceeds 0.5; a stop count, `StopsSkipped` of its draw, exactly when its gate exceeds 0.6; its timestamp is `AlertTimestamp` of its draw; it is read exactly when its draw exceeds 0.7; all values in range |
| DummyData.BusCount | src/shared/utils/dummyData.ts:133 | a fleet has 5 to 8 buses |
| DummyData.AlertCount | src/shared/utils/dummyData.ts:144 | a bus gets 2 to 4 alerts |
| DummyData.BusAlerts | src/shared/utils/dummyData.ts:143-153 | one bus's batch has 2..4 alerts, all of that bus's ride |
| DummyData.FleetRoutes | src/shared/utils/dummyData.ts:136-141 | after k iterations the route list holds bus 0 .. bus k-1 in order |
| DummyData.PushedAlerts | src/shared/utils/dummyData.ts:136-154 | after k iterations there are between 2k and 4k alerts |
| DummyData.PushedAlertsShareRides | src/shared/utils/dummyData.ts:136-154 | every alert pushed in the first k iterations belongs to the ride of one of the first k buses |
| DummyData.GenerateDummyData | src/shared/utils/dummyData.ts:128-160 | the routes are the generated routes of buses 0 .. n-1 for 5..8 buses n, bus i on route `routeIds[i % 5]` as unit `Bus i+1`; 2..4 alerts per bus in total; the alerts are sorted newest first, are a permutation of the alerts as generated, and each belongs to a bus of the fleet |
| DummyData.GenerateFleet | src/shared/utils/dummyData.ts:128-160 | the loop-based generator computes the same fleet as the functional definition |
| DummyData.AddBus | src/shared/utils/dummyData.ts:137-153 | one loop iteration appends exactly the next bus and its batch of alerts |
| DummyData.PushBusAlerts | src/shared/utils/dummyData.ts:145-153 | the inner loop appends exactly the bus's batch, in order |
| DummyData.FleetRoutesStep | src/shared/utils/dummyData.ts:140-141 | each iteration appends one route at the end |
| DummyData.UnitCountStep | src/shared/utils/dummyData.ts:145-153 | one iteration adds to unit i's alert count exactly its alert count when it is bus i, nothing otherwise |
| DummyData.PushedAlertsStep | src/shared/utils/dummyData.ts:145-153 | each iteration appends its bus's batch at the end, the batch is as long as the bus's alert count |
| DummyData.UnitNameInjective | src/shared/utils/dummyData.ts:138 | different buses get different unit names |
| DummyData.UnitNameHasNoDash | src/shared/utils/dummyData.ts:138 | a generated unit name never contains a dash |
| DummyData.RouteIdShape | src/shared/utils/dummyData.ts:51 | a bus's route record id is `route-<routeId>-Bus <i+1>` with a dash-free route id |
| DummyData.RouteIdTextInjective | src/shared/utils/dummyData.ts:51 | two record ids built from dash-free route ids are equal only for the same bus |
| DummyData.RouteIdInjective | src/shared/utils/dummyData.ts:51 | two buses never get the same route record id |
| DummyData.FleetRouteIdsDistinct | src/shared/utils/dummyData.ts:136-141 | all route record ids of a generated fleet are distinct, so React keys do not clash |
| DummyData.BusAlertsOfUnit | src/shared/utils/dummyData.ts:145-153 | every alert of a bus's batch is of that bus's unit, none is of another unit |
| DummyData.LastBatchOfUnit | src/shared/utils/dummyData.ts:145-153 | the latest batch holds alerts of unit i exactly when it is bus i's batch |
| DummyData.PushedAlertsOfUnit | src/shared/utils/dummyData.ts:136-154 | after k iterations, unit i has exactly its alert count of alerts if i < k, and none otherwise |
| DummyData.FleetAlertsPerBus | src/shared/utils/dummyData.ts:128-160 | in the sorted output every bus still has 2 to 4 alerts |
| NewestFirst.Insert | src/shared/utils/dummyData.ts:157 | inserting into a newest-first list keeps it newest first and adds exactly the new alert |
| NewestFirst.SortNewestFirst | src/shared/utils/dummyData.ts:157 | the result is ordered by descending timestamp and is a permutation of the input |
| NewestFirst.SortedMembers | src/shared/utils/dummyData.ts:157 | sorting keeps exactly the same alerts |
| JsNumbers.ToInt32 | src/shared/components/Map/FleetMap.tsx:51 | the 32-bit result is congruent to the input modulo 2^32 |
| JsNumbers.ToInt32OfInt32 | src/shared/components/Map/FleetMap.tsx:51 | a value already in 32-bit range is unchanged |
| JsNumbers.ShiftLeft | src/shared/components/Map/FleetMap.tsx:51 | `x << n` is the 32-bit value congruent to x * 2^n |
| JsNumbers.ShiftLeftCongruent | src/shared/components/Map/FleetMap.tsx:51 | congruent inputs give congruent shifted results, so wrapping early does not change the hash modulo 2^32 |
| JsNumbers.Round | src/shared/components/Map/FleetMap.tsx:68-70 | `Math.round` gives the integer within half a unit, halves rounding up |
| RouteColor.PaletteIndex | src/shared/components/Map/FleetMap.tsx:53 | the index `abs(hash) % 12` is within the palette |
| RouteColor.GetRouteColor | src/shared/components/Map/FleetMap.tsx:47-55 | a route colour is always one of the twelve palette colours, the one the hash index selects |
| RouteColor.ComputeRouteColor | src/shared/components/Map/FleetMap.tsx:47-55 | the character loop computes the same colour as the recursive definition |
| RouteColor.HashStep | src/shared/components/Map/FleetMap.tsx:51 | one loop step is congruent to `c + 31 * hash` modulo 2^32 |
| RouteColor.HashCongruentPolynomial | src/shared/components/Map/FleetMap.tsx:49-52 | for every route id, however long, the wrapped hash is congruent to the base-31 polynomial of its character codes modulo 2^32 |
| RouteColor.HashIsPolynomial | src/shared/components/Map/FleetMap.tsx:49-52 | while no overflow occurs, the hash is the base-31 polynomial of the character codes |
| RouteColor.EmptyRouteColor | src/shared/components/Map/FleetMap.tsx:47-55 | the empty route id hashes to 0 and gets the first palette colour |
| RouteColor.RouteColorOfA | src/shared/components/Map/FleetMap.tsx:47-55 | route "a" hashes to 97 and gets the second palette colour |
| RouteColor.RouteColorOf7b | src/shared/components/Map/FleetMap.tsx:47-55 | route "7b" hashes to 1803 and is drawn red |
| RouteColor.ParseHex | src/shared/components/Map/FleetMap.tsx:63-65 | `parseInt(_, 16)` yields a number exactly when the text starts with a hex digit, and at most 255 for two characters |
| RouteColor.HashIndex | src/shared/components/Map/FleetMap.tsx:62 | the position found holds a `#` and no `#` comes before it |
| RouteColor.RemoveFirstHash | src/shared/components/Map/FleetMap.tsx:62 | `replace("#", "")` removes exactly the first `#` when there is one and changes nothing otherwise |
| RouteColor.Substring | src/shared/components/Map/FleetMap.tsx:63-65 | the slice from start to end, with end clamped to the length, and empty when start is past the end of the text |
| RouteColor.ParseChannels | src/shared/components/Map/FleetMap.tsx:62-65 | every parsed channel is at most 255 |
| RouteColor.HexColorParses | src/shared/components/Map/FleetMap.tsx:62-65 | for `#rrggbb` the three channels are the values of the three hex pairs |
| RouteColor.Lighten | src/shared/components/Map/FleetMap.tsx:68-70 | the blend with 30% white never darkens a channel, stays within 255 and is at least 77 |
| RouteColor.LightenChannel | src/shared/components/Map/FleetMap.tsx:68-70 | a NaN channel stays NaN, a number is lightened within [c, 255] |
| RouteColor.GetLighterColor | src/shared/components/Map/FleetMap.tsx:60-73 | for any colour text the result is an `rgb(...)` text |
| RouteColor.LighterColorOfHex | src/shared/components/Map/FleetMap.tsx:60-73 | for `#rrggbb` the lighter colour is `rgb(...)` of the three lightened hex pairs |
| RouteColor.PaletteChannelsParse | src/shared/components/Map/FleetMap.tsx:29-42 | every palette colour parses into three defined channels |
| FleetMap.BusesWithAlerts | src/shared/components/Map/FleetMap.tsx:170-172 | the key set holds exactly the `unitId-routeId` keys of the alerts |
| FleetMap.HasAlertsForBus | src/shared/components/Map/FleetMap.tsx:175-177 | a bus is marked exactly when some alert's joined `unitId-routeId` key equals its own, and always when an alert has its unit and route |
| FleetMap.MatchingAlertMarksBus | src/shared/components/Map/FleetMap.tsx:170-177 | an alert with the route's own unit and route always marks the bus |
| FleetMap.KeyCollision | src/shared/components/Map/FleetMap.tsx:170-177 | the alert ("a", "b-c") marks the bus ("a-b", "c") although they share no unit |
| FleetMap.DashFreeKeysAgree | src/shared/components/Map/FleetMap.tsx:170-177 | when no unit id contains a dash, the key lookup agrees with comparing unit and route |
| FleetMap.MarkerColorAsWritten | src/shared/components/Map/FleetMap.tsx:76-78 | the marker is red exactly when the route's joined key is in the alert key set, green otherwise; when no unit id contains a dash, red exactly when some alert has the route's unit and route |
| FleetMap.MarkerColor | src/shared/components/Map/FleetMap.tsx:76-78 | the marker is red exactly when some alert has the route's unit and route, green otherwise, green with no alerts |
| FleetMap.BoundsOf | src/shared/components/Map/FleetMap.tsx:125-131 | the bounds contain every point and each edge is touched by a point |
| FleetMap.FleetPoints | src/shared/components/Map/FleetMap.tsx:126-130 | the flattened points are exactly the completed, remaining and current points of all routes |
| FleetMap.FindRoute | src/shared/components/Map/FleetMap.tsx:140 | finds a route exactly when one has the id, and returns the first such route |
| FleetMap.FitEffect | src/shared/components/Map/FleetMap.tsx:123-135 | the view is fitted, around all route points, exactly when there are routes, none selected and not yet initialised; afterwards it is initialised |
| FleetMap.FocusEffect | src/shared/components/Map/FleetMap.tsx:138-158 | with a selected route that exists, the map flies to its bus at zoom 15; otherwise nothing changes |
| FleetMap.Render | src/shared/components/Map/FleetMap.tsx:120-202 | a render without routes shows the placeholder and leaves a fresh, uninitialised controller; with routes the mounted controller ends initialised exactly when it was or nothing is selected, fits all points on its first unselected render, and otherwise keeps its view or flies |
| FleetMap.Update | src/shared/components/Map/FleetMap.tsx:123-158 | one render runs both effects: initialised afterwards exactly when it was or the fit applied; flies to a found selection; fits around all points when unselected, with routes, not initialised; otherwise unchanged |
| FleetMap.Run | src/shared/components/Map/FleetMap.tsx:120-202 | after a run of renders the controller is initialised exactly when it started so and every render had routes, or some render had routes and no selection and every later one had routes; a last render without routes leaves a fresh controller |
| FleetMap.NeverFitsAgain | src/shared/components/Map/FleetMap.tsx:120-158 | once initialised, no sequence of renders that all have routes fits the bounds again; the view only stays or flies to a route |
| FleetMap.RemountFitsAgain | src/shared/components/Map/FleetMap.tsx:120-202 | after a render without routes, the next render with routes and no selection fits those routes again, whatever the controller was before |
| FleetMap.PathLine | src/shared/components/Map/FleetMap.tsx:217-245 | a path is drawn, once, exactly when it has more than one point |
| FleetMap.DrawPaths | src/shared/components/Map/FleetMap.tsx:217-245 | one polyline per path longer than one point, each with its own points and colour |
| FleetMap.DrawPathsKinds | src/shared/components/Map/FleetMap.tsx:217-245 | each kind of path is drawn exactly when it has more than one point, in the order full, completed, remaining |
| FleetMap.RoutePolylines | src/shared/components/Map/FleetMap.tsx:205-245 | the full path in grey, the completed path in the route colour and the remaining path in the lighter colour, each only when longer than one point, in that order |
| FleetMap.InitialCenter | src/shared/components/Map/FleetMap.tsx:190-193 | the first bus's position is the centre, with a zero coordinate falling back to Santiago's |
| FleetMap.RenderFleetMap | src/shared/components/Map/FleetMap.tsx:179-253 | the placeholder appears exactly when there are no routes; otherwise the first bus's centre, zoom 13 and one layer per route with its polylines and a marker at the bus, red exactly when the route's joined key matches an alert's and green otherwise, which on dash-free unit ids is exactly when an alert has its unit and route |
| AlertPanel.DelayText | src/shared/components/AlertPanel/AlertPanel.tsx:79-82 | the delay text starts with "+" exactly for positive and "-" exactly for negative delays, then the decimal digits of the delay's magnitude, then " min" |
| AlertPanel.DelayTextInjective | src/shared/components/AlertPanel/AlertPanel.tsx:79-82 | different delays give different texts |
| AlertPanel.DetailParts | src/shared/components/AlertPanel/AlertPanel.tsx:77-90 | one part for a defined delay (even 0), one for a truthy stop count, one for a truthy speed, in that order |
| AlertPanel.AlertDetails | src/shared/components/AlertPanel/AlertPanel.tsx:76-92 | the summary is empty exactly when there is no delay and no truthy stop count or speed, and it opens with the first part present |
| AlertPanel.FewerDetailsInOrder | src/shared/components/AlertPanel/AlertPanel.tsx:76-92 | with two parts present the summary is those two in the order delay, stop, speed, separated by ", "; with only a delay or only a stop count it is that part |
| AlertPanel.AllDetailsInOrder | src/shared/components/AlertPanel/AlertPanel.tsx:76-92 | with all three parts present the summary is delay, stop, speed separated by ", " |
| AlertPanel.UnreadCount | src/shared/components/AlertPanel/AlertPanel.tsx:103-105 | the unread count is at most the total, 0 exactly when all are read, the total exactly when none is read |
| AlertPanel.UnreadCountAppend | src/shared/components/AlertPanel/AlertPanel.tsx:103-105 | unread counts add up over concatenated lists |
| AlertPanel.UnreadCountSorted | src/shared/components/AlertPanel/AlertPanel.tsx:103-105 | sorting newest first does not change the unread count |
| AlertPanel.PluralSuffix | src/shared/components/AlertPanel/AlertPanel.tsx:102 | "s" for every count but 1 (also 0), "" for 1 |
| AlertPanel.RenderRow | src/shared/components/AlertPanel/AlertPanel.tsx:181-214 | the detail line is shown exactly when the summary is non-empty; the unread dot exactly for unread alerts |
| AlertPanel.RenderAlertPanel | src/shared/components/AlertPanel/AlertPanel.tsx:101-269 | header text with plural, badge exactly when some alert is unread, empty message exactly with no alerts, footer exactly with some, one row per alert |
| ClassNames.Kept | src/shared/utils/cn.ts:6 | every truthy argument is kept and only non-empty string arguments are; none is kept exactly when all are falsy |
| ClassNames.KeptInOrder | src/shared/utils/cn.ts:6 | two truthy arguments are kept in their argument order |
| ClassNames.KeptAppend | src/shared/utils/cn.ts:6 | filtering distributes over concatenated argument lists |
| ClassNames.Cn | src/shared/utils/cn.ts:5-7 | the result is empty exactly when every argument is falsy; a single truthy argument is returned as is |
| ClassNames.CnSplitsBack | src/shared/utils/cn.ts:5-7 | splitting the result at spaces gives back the truthy arguments when none contains a space |
| ClassNames.CnAppend | src/shared/utils/cn.ts:5-7 | two argument lists combine with one space between their non-empty results |
| ClassNames.CnIdempotent | src/shared/utils/cn.ts:5-7 | passing the result back in as the only argument returns it unchanged |
| Sidebar.IsActive | src/shared/components/Sidebar/Sidebar.tsx:45-50 | Home is active exactly on "/", any other item exactly when the location starts with its path |
| Sidebar.RootActiveOnlyAtRoot | src/shared/components/Sidebar/Sidebar.tsx:45-48 | the Home item is active exactly on "/" |
| Sidebar.PrefixMatchIsTextual | src/shared/components/Sidebar/Sidebar.tsx:45-50 | other items are active exactly when the location starts with their path, so "/analyticsX" activates Analytics |
| Sidebar.ActiveItemIsDetermined | src/shared/components/Sidebar/Sidebar.tsx:18-50 | an active item is always the one the location's second character selects |
| Sidebar.AtMostOneActive | src/shared/components/Sidebar/Sidebar.tsx:18-50 | at most one of the three items is active for any location |
| Sidebar.Toggle | src/shared/components/Sidebar/Sidebar.tsx:41-43 | toggling always changes the state |
| Sidebar.ToggleTwice | src/shared/components/Sidebar/Sidebar.tsx:41-43 | toggling twice restores the state |
| Sidebar.AsideClass | src/shared/components/Sidebar/Sidebar.tsx:53-57 | the aside's classes are the base classes and `w-20` when collapsed, `w-64` otherwise |
| Sidebar.ToggleButtonClass | src/shared/components/Sidebar/Sidebar.tsx:68-71 | the toggle button gets `mx-auto` exactly when collapsed |
| Sidebar.RenderSidebar | src/shared/components/Sidebar/Sidebar.tsx:52-125 | title, item labels and footer show exactly when expanded, item titles exactly when collapsed, the aria-label names the action, each item's highlight is its `isActive` |
| Sidebar.RenderedMenuHighlightsAtMostOne | src/shared/components/Sidebar/Sidebar.tsx:84-114 | the rendered menu highlights at most one item |
| FleetProperties.PoolRouteColors | src/shared/components/Map/FleetMap.tsx:47-55 | the routes 13g, 5a, 7b, 12c and 9d are drawn cyan, blue, red, dark orange and emerald |
| FleetProperties.PoolRouteColorsDistinct | src/shared/utils/dummyData.ts:134 | the five generated route ids all get different colours |
| FleetProperties.FleetRouteColors | src/shared/utils/dummyData.ts:137 | two generated buses share a route colour exactly when they share a route |
| FleetProperties.GeneratedRouteDrawsAllPaths | src/shared/components/Map/FleetMap.tsx:217-245 | a generated route always shows its full, completed and remaining polylines |
| FleetProperties.GeneratedRouteHasThreeLines | src/shared/components/Map/FleetMap.tsx:204-245 | each bus of a generated fleet is drawn with exactly three polylines |
| FleetProperties.AlertOfGeneratedUnit | src/shared/utils/dummyData.ts:136-154 | a generated alert naming a bus's unit belongs to that bus's ride |
| FleetProperties.GeneratedMarkersAgree | src/shared/components/Map/FleetMap.tsx:170-177 | on generated data the key lookup and the unit/route comparison give the same marker colour |
| FleetProperties.GeneratedMarkersAllAlert | src/shared/components/Map/FleetMap.tsx:76-78 | every marker of a generated fleet is red, both as written and by the intended colour, since every bus has alerts |
| FleetProperties.GeneratedFleetMap | src/shared/components/Map/FleetMap.tsx:179-253 | a generated fleet is never shown as the placeholder; it has 5..8 layers, each with three lines and a red marker as the map renders it |
| FleetProperties.GeneratedUnreadCount | src/shared/utils/dummyData.ts:157 | sorting the generated alerts does not change how many are unread |

## Left out

- Point geometry: the cosine/sine layout and the random jitter of points and alert locations are opaque parameters, because they are floating-point trigonometry; only which point is where is modelled.
- Floating point: draws, ratios and the colour blend are exact reals; IEEE-754 rounding in `0.3 + r * 0.5`, `c * 0.7 + 76.5` and `(r - 0.5) * 10` is not modelled.
- The clock: `new Date()` and `Date.now()` are one `now` value; the generator reads the clock several times, so real timestamps can differ by a few milliseconds.
- DummyData.GenerateAlert: the alert id (`alert-<time>-<base-36 random>`) is an opaque draw, because `toString(36)` of a float is out of scope; ids are not proved unique.
- RouteColor.ParseHex: `parseInt` is modelled only for text without leading blanks, sign or `0x` prefix, which is all the palette produces.
- RouteColor.HashIsPolynomial: equality with the polynomial is stated only below 2^26, where no 32-bit wrap occurs; for longer ids `HashCongruentPolynomial` states it modulo 2^32.
- Strings are sequences of characters; JavaScript's UTF-16 code units, `charCodeAt` of surrogate pairs, and `startsWith` on them are taken as character-wise.
- Number-to-text: `IntToString` prints plain decimal digits; exponent notation for very large numbers is not modelled.
- Numbers in records: `delay`, `stopSkipped`, `speed` and a route's `delay` are typed `number` but modelled as integers, because the generator only produces whole numbers; a fractional delay such as 2.5, printed "+2.5 min", is outside the model.
- Truthiness of numbers: `NaN` is not modelled; a detail number is falsy exactly when it is absent or 0.
- NewestFirst.SortNewestFirst: the contract states order and permutation but not the stable order of equal timestamps.
- Leaflet and React: tiles, popups, icon HTML, `fitBounds` padding, `flyTo` duration and easing, `whenReady`, and the fact that effects run only when their dependencies change (the model runs both effects on every event) are left out.
- AlertPanel: hover and selection state, priority and type badges, icons, and time formatting with date-fns are presentation only.
- Sidebar: `navigate(item.path)` and icon classes are left out; navigation is the router's concern.

## Findings

| source | as written | input that shows it | evidently intended | confidence | as-written member | corrected member |
|---|---|---|---|---|---|---|
| src/shared/components/Map/FleetMap.tsx:170-177 | a bus is marked red when the text `${unitId}-${routeId}` of one of its alerts equals its own joined key | alert with unit "a" and route "b-c" against a bus with unit "a-b" and route "c": both keys are "a-b-c", so the bus is marked red without an alert of its own | red exactly when some alert has the same unit and the same route | high for ids containing a dash; the generated ids ("Bus 3", "13g") never contain one, so the demo data is unaffected; not executed | FleetMap.MarkerColorAsWritten, FleetMap.KeyCollision (the map renders the as-written colour) | FleetMap.MarkerColor, FleetMap.DashFreeKeysAgree |
