/**
 * The text decisions of the alert panel (`src/shared/components/AlertPanel/AlertPanel.tsx`):
 * the one-line summary of an alert's details, the header with its plural
 * and unread count, the empty-list message and the footer actions.
 */
module AlertPanel {
  import opened Wrappers
  import opened Monitoring
  import opened Strings
  import opened Seqs
  import NewestFirst

  const DetailSeparator: string := ", "
  const DelayLabel: string := "Retraso: "
  const StopLabel: string := "Parada omitida: "
  const SpeedLabel: string := "Velocidad: "

  // ---------------------------------------------------------------- details line

  /** `+3 min`, `0 min`, `-2 min`: only a positive delay gets a plus sign. */
  function DelayText(minutes: int): (t: string)
    ensures |t| > 4 && t[|t| - 4..] == " min"
    ensures t[0] == '+' <==> minutes > 0
    ensures t[0] == '-' <==> minutes < 0
    ensures var k := if minutes != 0 then 1 else 0;
      k < |t| - 4 && AllDigits(t[k..|t| - 4]) && DigitsValue(t[k..|t| - 4]) == Abs(minutes)
  {
    var s := IntToString(minutes);
    var t := (if minutes > 0 then "+" else "") + s + " min";
    assert minutes > 0 ==> t[0] == '+' && t[1..|t| - 4] == s;
    assert minutes <= 0 ==> t[0] == s[0] && t[..|t| - 4] == s;
    assert minutes < 0 ==> t[1..|t| - 4] == s[1..];
    assert minutes == 0 ==> IsDigit(s[0]);
    t
  }

  function Abs(n: int): nat {
    if n < 0 then -n else n
  }

  /** Different delays are never rendered alike, so the text can be read back. */
  lemma DelayTextInjective(a: int, b: int)
    requires DelayText(a) == DelayText(b)
    ensures a == b
  {
    var sign := if a > 0 then "+" else "";
    assert (a > 0) == (b > 0) by {
      assert DelayText(a)[0] == DelayText(b)[0];
    }
    assert sign + IntToString(a) + " min" == sign + IntToString(b) + " min";
    SuffixCancel(sign + IntToString(a), sign + IntToString(b), " min");
    PrefixCancel(sign, IntToString(a), IntToString(b));
    IntToStringInjective(a, b);
  }

  function DelayPart(minutes: int): (p: string)
    ensures |p| > |DelayLabel|
  {
    DelayLabel + DelayText(minutes)
  }

  function StopPart(stops: int): (p: string)
    ensures |p| > |StopLabel|
  {
    StopLabel + IntToString(stops)
  }

  function SpeedPart(kmh: int): (p: string)
    ensures |p| > |SpeedLabel|
  {
    SpeedLabel + IntToString(kmh) + " km/h"
  }

  function Count(b: bool): nat {
    if b then 1 else 0
  }

  /**
   * The `details` array of `getAlertDetails`: a delay part whenever a delay is
   * defined (even 0), a stop part and a speed part only for truthy values,
   * always in the order delay, stop, speed.
   */
  function DetailParts(d: Details): (parts: seq<string>)
    ensures |parts| == Count(d.delay.Some?) + Count(NumberIsTruthy(d.stopSkipped)) + Count(NumberIsTruthy(d.speed))
    ensures |parts| > 0 ==> parts[0] != ""
    ensures d.delay.Some? ==> parts[0] == DelayPart(d.delay.value)
    ensures NumberIsTruthy(d.stopSkipped) ==> parts[Count(d.delay.Some?)] == StopPart(d.stopSkipped.value)
    ensures NumberIsTruthy(d.speed) ==> parts[|parts| - 1] == SpeedPart(d.speed.value)
  {
    var a := if d.delay.Some? then [DelayPart(d.delay.value)] else [];
    var b := if NumberIsTruthy(d.stopSkipped) then [StopPart(d.stopSkipped.value)] else [];
    var c := if NumberIsTruthy(d.speed) then [SpeedPart(d.speed.value)] else [];
    var parts := a + b + c;
    assert |a| == 1 ==> parts[0] == a[0];
    assert |b| == 1 ==> parts[|a|] == b[0];
    assert |c| == 1 ==> parts[|parts| - 1] == c[0];
    parts
  }

  /** Nothing about an alert's details is worth a line: no delay, and no truthy stop count or speed. */
  predicate NoDetails(d: Details) {
    d.delay.None? && !NumberIsTruthy(d.stopSkipped) && !NumberIsTruthy(d.speed)
  }

  /**
   * `getAlertDetails(alert)`: the parts joined by ", ". It is empty exactly
   * when there is nothing to say, and it opens with the first part present.
   */
  function AlertDetails(d: Details): (text: string)
    ensures text == "" <==> NoDetails(d)
    ensures d.delay.Some? ==> DelayPart(d.delay.value) <= text
    ensures d.delay.None? && NumberIsTruthy(d.stopSkipped) ==> StopPart(d.stopSkipped.value) <= text
    ensures d.delay.None? && !NumberIsTruthy(d.stopSkipped) && NumberIsTruthy(d.speed) ==>
      text == SpeedPart(d.speed.value)
  {
    Join(DetailParts(d), DetailSeparator)
  }

  /** With every part present the line is the three parts in order. */
  lemma AllDetailsInOrder(d: Details)
    requires d.delay.Some? && NumberIsTruthy(d.stopSkipped) && NumberIsTruthy(d.speed)
    ensures AlertDetails(d) ==
      DelayPart(d.delay.value) + ", " + StopPart(d.stopSkipped.value) + ", " + SpeedPart(d.speed.value)
  {
    var a, b, c := DelayPart(d.delay.value), StopPart(d.stopSkipped.value), SpeedPart(d.speed.value);
    var parts := DetailParts(d);
    assert |parts| == 3 && parts[0] == a && parts[1] == b && parts[2] == c;
    assert parts == [a, b, c];
    JoinThree(a, b, c, ", ");
  }

  /** With two parts, or one, the line is the parts present, in the order delay, stop, speed. */
  lemma FewerDetailsInOrder(d: Details)
    ensures d.delay.Some? && NumberIsTruthy(d.stopSkipped) && !NumberIsTruthy(d.speed) ==>
      AlertDetails(d) == DelayPart(d.delay.value) + ", " + StopPart(d.stopSkipped.value)
    ensures d.delay.Some? && !NumberIsTruthy(d.stopSkipped) && NumberIsTruthy(d.speed) ==>
      AlertDetails(d) == DelayPart(d.delay.value) + ", " + SpeedPart(d.speed.value)
    ensures d.delay.None? && NumberIsTruthy(d.stopSkipped) && NumberIsTruthy(d.speed) ==>
      AlertDetails(d) == StopPart(d.stopSkipped.value) + ", " + SpeedPart(d.speed.value)
    ensures d.delay.Some? && !NumberIsTruthy(d.stopSkipped) && !NumberIsTruthy(d.speed) ==>
      AlertDetails(d) == DelayPart(d.delay.value)
    ensures d.delay.None? && NumberIsTruthy(d.stopSkipped) && !NumberIsTruthy(d.speed) ==>
      AlertDetails(d) == StopPart(d.stopSkipped.value)
  {
    var parts := DetailParts(d);
    if |parts| == 2 {
      JoinTwo(parts[0], parts[1], ", ");
      assert parts == [parts[0], parts[1]];
    }
  }

  // ---------------------------------------------------------------- header and footer

  function IsUnread(a: Alert): bool {
    !a.isRead
  }

  /** `alerts.filter((a) => !a.isRead).length`. */
  function UnreadCount(alerts: seq<Alert>): (n: nat)
    ensures n <= |alerts|
    ensures n == 0 <==> forall i :: 0 <= i < |alerts| ==> alerts[i].isRead
    ensures n == |alerts| <==> forall i :: 0 <= i < |alerts| ==> !alerts[i].isRead
  {
    |Filter(alerts, IsUnread)|
  }

  /** Unread counts add up over a split list. */
  lemma UnreadCountAppend(a: seq<Alert>, b: seq<Alert>)
    ensures UnreadCount(a + b) == UnreadCount(a) + UnreadCount(b)
  {
    FilterAppend(a, b, IsUnread);
  }

  /** Reordering alerts, for instance newest first, leaves the unread count as it was. */
  lemma UnreadCountSorted(alerts: seq<Alert>)
    ensures UnreadCount(NewestFirst.SortNewestFirst(alerts)) == UnreadCount(alerts)
  {
    FilterPermutation(NewestFirst.SortNewestFirst(alerts), alerts, IsUnread);
  }

  /** `alerts.length !== 1 ? "s" : ""`. */
  function PluralSuffix(n: nat): (s: string)
    ensures s == "s" <==> n != 1
    ensures s == "" <==> n == 1
  {
    if n != 1 then "s" else ""
  }

  /** What the panel shows around the list. */
  datatype PanelView = PanelView(
    summary: string,           // "<n> alerta(s) total"
    unreadBadge: Option<string>,
    emptyMessage: bool,        // "No hay alertas disponibles"
    rows: seq<AlertRow>,
    footer: bool)              // "mark all as read" and "delete all"

  /** One alert line: its detail summary (when shown) and the unread dot. */
  datatype AlertRow = AlertRow(details: Option<string>, unreadDot: bool)

  function RenderRow(a: Alert): (row: AlertRow)
    ensures row.details.Some? <==> !NoDetails(a.details)
    ensures row.details.Some? ==> row.details.value == AlertDetails(a.details)
    ensures row.unreadDot <==> !a.isRead
  {
    var text := AlertDetails(a.details);
    AlertRow(if text != "" then Some(text) else None, !a.isRead)
  }

  function RenderAlertPanel(alerts: seq<Alert>): (v: PanelView)
    ensures v.summary == NatToString(|alerts|) + " alerta" + PluralSuffix(|alerts|) + " total"
    ensures v.unreadBadge.Some? <==> exists i :: 0 <= i < |alerts| && !alerts[i].isRead
    ensures v.unreadBadge.Some? ==> v.unreadBadge.value == "(" + NatToString(UnreadCount(alerts)) + " sin leer)"
    ensures v.emptyMessage <==> |alerts| == 0
    ensures v.footer <==> |alerts| > 0
    ensures |v.rows| == |alerts|
    ensures forall i :: 0 <= i < |alerts| ==> v.rows[i] == RenderRow(alerts[i])
  {
    var unread := UnreadCount(alerts);
    PanelView(
      NatToString(|alerts|) + " alerta" + PluralSuffix(|alerts|) + " total",
      if unread > 0 then Some("(" + NatToString(unread) + " sin leer)") else None,
      |alerts| == 0,
      seq(|alerts|, i requires 0 <= i < |alerts| => RenderRow(alerts[i])),
      |alerts| > 0)
  }
}
