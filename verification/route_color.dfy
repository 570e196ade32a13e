/**
 * Route colouring on the fleet map (`src/shared/components/Map/FleetMap.tsx`):
 * a rolling hash of the route identifier picks one of twelve palette colours,
 * and the remaining part of a route is drawn in a lighter shade of it.
 *
 * Characters are taken as their code points, which is what `charCodeAt`
 * returns for every character of the Basic Multilingual Plane.
 */
module RouteColor {
  import opened Wrappers
  import opened JsNumbers
  import opened Strings

  /** `ROUTE_COLORS`. */
  const Palette: seq<string> := [
    "#3b82f6", "#22c55e", "#f59e0b", "#ef4444", "#a855f7", "#06b6d4",
    "#f97316", "#10b981", "#8b5cf6", "#ec4899", "#14b8a6", "#fbbf24"]

  // ---------------------------------------------------------------- hash

  /**
   * One iteration of `hash = routeId.charCodeAt(i) + ((hash << 5) - hash)`.
   * `hash` is a JavaScript number, so only the shift goes through int32.
   */
  function HashStep(hash: int, c: char): (next: int)
    ensures (next - (c as int + 31 * hash)) % TwoTo32 == 0
  {
    var shifted := ShiftLeft(hash, 5);
    assert Pow2(5) == 32;
    var q := (hash * 32 - shifted) / TwoTo32;
    assert hash * 32 - shifted == q * TwoTo32;
    assert c as int + (shifted - hash) - (c as int + 31 * hash) == (-q) * TwoTo32;
    c as int + (shifted - hash)
  }

  /** The hash after processing every character of `s`, left to right, from 0. */
  function Hash(s: string): int {
    if |s| == 0 then 0 else HashStep(Hash(s[..|s| - 1]), s[|s| - 1])
  }

  /**
   * Whatever the 32-bit wrapping of the shifts, the hash stays congruent
   * modulo 2^32 to the base-31 polynomial of the character codes.
   */
  lemma {:induction false} HashCongruentPolynomial(s: string)
    ensures (Hash(s) - Polynomial(s)) % TwoTo32 == 0
  {
    if |s| > 0 {
      var prefix, c := s[..|s| - 1], s[|s| - 1];
      var h, prev, poly := Hash(s), Hash(prefix), Polynomial(prefix);
      assert (prev - poly) % TwoTo32 == 0 by {
        HashCongruentPolynomial(prefix);
      }
      assert (h - (c as int + 31 * prev)) % TwoTo32 == 0 by {
        assert h == HashStep(prev, c);
      }
      assert Polynomial(s) == 31 * poly + c as int;
      StepCongruent(h, prev, poly, c as int);
    }
  }

  /** Congruent previous values give congruent steps. */
  lemma StepCongruent(h: int, prev: int, poly: int, c: int)
    requires (h - (c + 31 * prev)) % TwoTo32 == 0
    requires (prev - poly) % TwoTo32 == 0
    ensures (h - (c + 31 * poly)) % TwoTo32 == 0
  {
    var q1 := (h - (c + 31 * prev)) / TwoTo32;
    var q2 := (prev - poly) / TwoTo32;
    assert h - (c + 31 * prev) == q1 * TwoTo32;
    assert prev - poly == q2 * TwoTo32;
    assert h - (c + 31 * poly) == (q1 + 31 * q2) * TwoTo32;
  }

  /** `Math.abs(hash) % ROUTE_COLORS.length`. */
  function PaletteIndex(routeId: string): (i: nat)
    ensures i < |Palette|
  {
    var h := Hash(routeId);
    (if h < 0 then -h else h) % |Palette|
  }

  /** `getRouteColor(routeId)`: always a palette colour, and a function of the id alone. */
  function GetRouteColor(routeId: string): (color: string)
    ensures color in Palette
    ensures color == Palette[PaletteIndex(routeId)]
  {
    Palette[PaletteIndex(routeId)]
  }

  /** The source's loop computes the same colour as `GetRouteColor`. */
  method ComputeRouteColor(routeId: string) returns (color: string)
    ensures color == GetRouteColor(routeId)
    ensures color in Palette
  {
    var hash := 0;
    var i := 0;
    while i < |routeId|
      invariant 0 <= i <= |routeId|
      invariant hash == Hash(routeId[..i])
    {
      assert routeId[..i + 1][..i] == routeId[..i];
      hash := routeId[i] as int + (ShiftLeft(hash, 5) - hash);
      i := i + 1;
    }
    assert routeId[..|routeId|] == routeId;
    var index := (if hash < 0 then -hash else hash) % |Palette|;
    color := Palette[index];
  }

  /**
   * The hash without any 32-bit effect: the polynomial `sum c_k * 31^(n-1-k)`,
   * since `(h << 5) - h == 31 * h` while `h << 5` does not overflow.
   */
  function Polynomial(s: string): nat {
    if |s| == 0 then 0 else 31 * Polynomial(s[..|s| - 1]) + s[|s| - 1] as int
  }

  /** While the value stays below 2^26, `hash << 5` never wraps and the hash is the polynomial. */
  lemma {:induction false} HashIsPolynomial(s: string)
    requires Polynomial(s) < 0x400_0000
    ensures Hash(s) == Polynomial(s)
  {
    if |s| > 0 {
      var prefix := s[..|s| - 1];
      assert Polynomial(prefix) <= Polynomial(s);
      HashIsPolynomial(prefix);
      var h := Hash(prefix);
      assert 0 <= h < 0x400_0000;
      ToInt32OfInt32(h);
      assert Pow2(5) == 32;
      ToInt32OfInt32(h * 32);
      assert ShiftLeft(h, 5) == 32 * h;
    }
  }

  /** The empty identifier hashes to 0 and gets the first colour. */
  lemma EmptyRouteColor()
    ensures Hash("") == 0 && GetRouteColor("") == "#3b82f6"
  {
  }

  /** "a" hashes to 97 and gets the second colour. */
  lemma RouteColorOfA()
    ensures Hash("a") == 97 && GetRouteColor("a") == "#22c55e"
  {
    assert "a"[..0] == "";
    HashIsPolynomial("a");
  }

  /** "7b" hashes to 55 * 31 + 98 = 1803, and 1803 % 12 == 3 picks the red entry. */
  lemma RouteColorOf7b()
    ensures Hash("7b") == 1803 && GetRouteColor("7b") == "#ef4444"
  {
    assert "7b"[..1] == "7";
    assert "7"[..0] == "";
    HashIsPolynomial("7b");
  }

  // ---------------------------------------------------------------- lighter shade

  predicate IsHexDigit(c: char) {
    ('0' <= c <= '9') || ('a' <= c <= 'f') || ('A' <= c <= 'F')
  }

  function HexDigitValue(c: char): (d: nat)
    requires IsHexDigit(c)
    ensures d < 16
  {
    if '0' <= c <= '9' then c as int - '0' as int
    else if 'a' <= c <= 'f' then c as int - 'a' as int + 10
    else c as int - 'A' as int + 10
  }

  /** The longest prefix of `s` made of hex digits. */
  function LeadingHexDigits(s: string): (p: string)
    ensures p <= s
    ensures forall i :: 0 <= i < |p| ==> IsHexDigit(p[i])
    ensures |p| < |s| ==> !IsHexDigit(s[|p|])
  {
    if |s| == 0 || !IsHexDigit(s[0]) then "" else [s[0]] + LeadingHexDigits(s[1..])
  }

  function HexValue(s: string): (v: nat)
    requires forall i :: 0 <= i < |s| ==> IsHexDigit(s[i])
    ensures |s| <= 1 ==> v <= 15
    ensures |s| <= 2 ==> v <= 255
  {
    if |s| == 0 then 0 else HexValue(s[..|s| - 1]) * 16 + HexDigitValue(s[|s| - 1])
  }

  /**
   * `parseInt(s, 16)` for text that carries no sign, blank or `0x` prefix:
   * the value of the leading hex digits, or NaN (`None`) when there are none.
   */
  function ParseHex(s: string): (r: Option<nat>)
    ensures r.Some? <==> |s| > 0 && IsHexDigit(s[0])
    ensures |s| <= 2 && r.Some? ==> r.value <= 255
  {
    var digits := LeadingHexDigits(s);
    if |digits| == 0 then None else Some(HexValue(digits))
  }

  /** `s.substring(start, end)` for `0 <= start <= end`: indices are clamped to the length. */
  function Substring(s: string, start: nat, end: nat): (r: string)
    requires start <= end
    ensures |r| <= end - start
    ensures end <= |s| ==> r == s[start..end]
    ensures start <= |s| < end ==> r == s[start..]
    ensures |s| <= start ==> r == ""
  {
    var b := if end < |s| then end else |s|;
    var a := if start < b then start else b;
    s[a..b]
  }

  /** `s.indexOf("#")` when there is one: the position of the first `#`. */
  function HashIndex(s: string): (k: nat)
    requires '#' in s
    ensures k < |s| && s[k] == '#' && '#' !in s[..k]
  {
    if s[0] == '#' then 0
    else
      var k := 1 + HashIndex(s[1..]);
      assert s[..k] == [s[0]] + s[1..][..k - 1];
      k
  }

  /** `s.replace("#", "")`: the first `#`, and only that one, is removed. */
  function RemoveFirstHash(s: string): (r: string)
    ensures '#' in s ==> |r| == |s| - 1
    ensures '#' in s ==>
      exists k :: 0 <= k < |s| && s[k] == '#' && '#' !in s[..k] && r == s[..k] + s[k + 1..]
    ensures '#' !in s ==> r == s
  {
    if '#' in s then s[..HashIndex(s)] + s[HashIndex(s) + 1..] else s
  }

  /** The three parsed channels of a colour, each an integer or NaN (`None`). */
  datatype Channels = Channels(r: Option<nat>, g: Option<nat>, b: Option<nat>)

  function ParseChannels(color: string): (c: Channels)
    ensures c.r.Some? ==> c.r.value <= 255
    ensures c.g.Some? ==> c.g.value <= 255
    ensures c.b.Some? ==> c.b.value <= 255
  {
    var hex := RemoveFirstHash(color);
    Channels(ParseHex(Substring(hex, 0, 2)), ParseHex(Substring(hex, 2, 4)), ParseHex(Substring(hex, 4, 6)))
  }

  /** `Math.round(c * 0.7 + 255 * 0.3)`: 70% of the channel and 30% white. */
  function Lighten(c: nat): (l: int)
    requires c <= 255
    ensures c <= l <= 255
    ensures 77 <= l
  {
    Round(c as real * 0.7 + 255.0 * 0.3)
  }

  function LightenChannel(c: Option<nat>): (l: Option<int>)
    requires c.Some? ==> c.value <= 255
    ensures l.Some? <==> c.Some?
    ensures l.Some? ==> c.value <= l.value <= 255
  {
    if c.Some? then Some(Lighten(c.value)) else None
  }

  /** `${x}` for a channel value; NaN prints as "NaN". */
  function ChannelText(c: Option<int>): string {
    if c.Some? then IntToString(c.value) else "NaN"
  }

  /** `getLighterColor(color)`: the `rgb(r, g, b)` text of the lightened channels. */
  function GetLighterColor(color: string): (lighter: string)
    ensures |lighter| > 5 && lighter[..4] == "rgb(" && lighter[|lighter| - 1] == ')'
  {
    LighterText(ParseChannels(color))
  }

  /** The value of the hex pair starting at position `k` of a `#rrggbb` colour. */
  function PairValue(color: string, k: nat): (v: nat)
    requires IsHexColor(color) && k in {1, 3, 5}
    ensures v <= 255
  {
    HexValue(color[k..k + 2])
  }

  function LighterText(c: Channels): (t: string)
    requires c.r.Some? ==> c.r.value <= 255
    requires c.g.Some? ==> c.g.value <= 255
    requires c.b.Some? ==> c.b.value <= 255
    ensures |t| > 5 && t[..4] == "rgb(" && t[|t| - 1] == ')'
  {
    "rgb(" + ChannelText(LightenChannel(c.r)) + ", " + ChannelText(LightenChannel(c.g))
      + ", " + ChannelText(LightenChannel(c.b)) + ")"
  }

  /** A colour written `#` and six hex digits has all three channels defined. */
  predicate IsHexColor(color: string) {
    |color| == 7 && color[0] == '#' && forall i :: 1 <= i < 7 ==> IsHexDigit(color[i])
  }

  lemma HexColorParses(color: string)
    requires IsHexColor(color)
    ensures ParseChannels(color) == Channels(Some(PairValue(color, 1)), Some(PairValue(color, 3)), Some(PairValue(color, 5)))
  {
    var hex := RemoveFirstHash(color);
    assert hex == color[1..];
    PairParses(color, Substring(hex, 0, 2), 1);
    PairParses(color, Substring(hex, 2, 4), 3);
    PairParses(color, Substring(hex, 4, 6), 5);
  }

  /** Two hex digits of a colour parse as exactly their value. */
  lemma PairParses(color: string, pair: string, k: nat)
    requires IsHexColor(color) && k in {1, 3, 5}
    requires pair == color[k..k + 2]
    ensures ParseHex(pair) == Some(PairValue(color, k))
  {
    assert IsHexDigit(pair[0]) && IsHexDigit(pair[1]);
    assert LeadingHexDigits(pair) == pair;
  }

  /**
   * For a `#rrggbb` colour the lighter colour is `rgb(...)` of the three
   * lightened hex pairs, so it never contains NaN.
   */
  lemma LighterColorOfHex(color: string)
    requires IsHexColor(color)
    ensures GetLighterColor(color) ==
      "rgb(" + IntToString(Lighten(PairValue(color, 1))) + ", " + IntToString(Lighten(PairValue(color, 3)))
      + ", " + IntToString(Lighten(PairValue(color, 5))) + ")"
  {
    HexColorParses(color);
  }

  /** Every palette colour is `#` followed by six hex digits, so all three channels parse. */
  lemma PaletteChannelsParse(i: nat)
    requires i < |Palette|
    ensures var c := ParseChannels(Palette[i]); c.r.Some? && c.g.Some? && c.b.Some?
  {
    assert IsHexColor(Palette[i]);
    HexColorParses(Palette[i]);
  }
}
