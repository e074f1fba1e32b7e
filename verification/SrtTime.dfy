/** SRT time stamps: rendering with field-by-field carries, parsing, and the shift of one cue.
    Floats are idealised as reals; Python's round is rounding half to even. */
module SrtTime {
  import opened Text

  function RoundHalfEven(x: real): (r: int)
    ensures r as real - 0.5 <= x <= r as real + 0.5
  {
    var f := x.Floor;
    var d := x - f as real;
    if d < 0.5 || (d == 0.5 && f % 2 == 0) then f else f + 1
  }

  lemma RoundIsMonotone(x: real, y: real)
    requires x <= y
    ensures RoundHalfEven(x) <= RoundHalfEven(y)
  {
    if x.Floor < y.Floor {
      assert RoundHalfEven(x) <= x.Floor + 1 <= y.Floor <= RoundHalfEven(y);
    }
  }

  // Rounding commutes with adding an even integer.
  lemma RoundPlusEven(x: real, n: int)
    requires n % 2 == 0
    ensures RoundHalfEven(x + n as real) == RoundHalfEven(x) + n
  {
    FloorPlusInt(x, n);
  }

  lemma FloorPlusInt(x: real, n: int)
    ensures (x + n as real).Floor == x.Floor + n
  {}

  lemma RoundOfInt(n: int)
    ensures RoundHalfEven(n as real) == n
  {}

  function ClampZero(v: real): real { if v < 0.0 then 0.0 else v }

  // The one rounding that a rendered stamp stands for.
  function Millis(v: real): (n: nat) { RoundHalfEven(ClampZero(v) * 1000.0) }

  function Pad2(n: nat): (s: string)
    ensures AllDigits(s) && |s| >= 2 && (n < 100 ==> |s| == 2)
  {
    if n < 10 then "0" + Dec(n) else (DecLength(n); Dec(n))
  }

  function Pad3(n: nat): (s: string)
    ensures AllDigits(s) && |s| >= 3 && (n < 1000 ==> |s| == 3)
  {
    if n < 10 then "00" + Dec(n) else if n < 100 then (DecLength(n); "0" + Dec(n)) else (DecLength(n); Dec(n))
  }

  lemma DecLength(n: nat)
    ensures n < 10 ==> |Dec(n)| == 1
    ensures 10 <= n < 100 ==> |Dec(n)| == 2
    ensures 100 <= n < 1000 ==> |Dec(n)| == 3
    ensures n >= 10 ==> |Dec(n)| >= 2
    ensures n >= 100 ==> |Dec(n)| >= 3
  {
    if n >= 10 { assert Dec(n) == Dec(n / 10) + [DigitChar(n % 10)]; }
    if n >= 100 { assert Dec(n / 10) == Dec(n / 100) + [DigitChar(n / 10 % 10)]; }
  }

  // Hours, minutes, seconds and milliseconds of a stamp.
  function StampOf(h: nat, m: nat, s: nat, ms: nat): string {
    Pad2(h) + ":" + Pad2(m) + ":" + Pad2(s) + "," + Pad3(ms)
  }

  function Stamp(n: nat): string {
    StampOf(n / 3_600_000, n / 60_000 % 60, n / 1000 % 60, n % 1000)
  }

  lemma FieldsOfTotal(h: nat, m: nat, s: nat, ms: nat)
    requires m < 60 && s < 60 && ms < 1000
    ensures Stamp(h * 3_600_000 + m * 60_000 + s * 1000 + ms) == StampOf(h, m, s, ms)
  {
    hide StampOf;
    var n := h * 3_600_000 + m * 60_000 + s * 1000 + ms;
    DivideBack(n, 1000, h * 3600 + m * 60 + s, ms);
    DivideBack(n, 60_000, h * 60 + m, s * 1000 + ms);
    DivideBack(n, 3_600_000, h, m * 60_000 + s * 1000 + ms);
    DivideBack(h * 3600 + m * 60 + s, 60, h * 60 + m, s);
    DivideBack(h * 60 + m, 60, h, m);
  }

  lemma DivideBack(n: nat, unit: nat, q: nat, rest: nat)
    requires rest < unit && n == q * unit + rest
    ensures n / unit == q && n % unit == rest
  {
    var k := n / unit - q;
    assert k * unit == rest - n % unit;
    MultipleOf(k, unit);
  }

  lemma MultipleOf(k: int, unit: int)
    requires unit > 0
    ensures k >= 1 ==> k * unit >= unit
    ensures k <= -1 ==> k * unit <= -unit
  {}

  // Splits a non-negative real into a whole number of hours or minutes and a smaller rest.
  lemma SplitUnit(value: real, unit: real)
    requires value >= 0.0 && (unit == 3600.0 || unit == 60.0)
    ensures
      var q := (value / unit).Floor;
      q >= 0 && 0.0 <= value - q as real * unit < unit
  {
    var q := (value / unit).Floor;
    assert q as real <= value / unit < q as real + 1.0;
    if unit == 3600.0 {
      assert value / unit == value / 3600.0;
    } else {
      assert value / unit == value / 60.0;
    }
  }

  // Field-by-field rendering with carries is one half-even rounding of the clamped value, for every value.
  method FormatSrtTimestamp(v: real) returns (stamp: string)
    ensures stamp == Stamp(Millis(v))
  {
    hide Stamp, StampOf, Pad2, Pad3;
    var value := if v < 0.0 then 0.0 else v;
    SplitUnit(value, 3600.0);
    var hours := (value / 3600.0).Floor;
    value := value - hours as real * 3600.0;
    SplitUnit(value, 60.0);
    var minutes := (value / 60.0).Floor;
    value := value - minutes as real * 60.0;
    var seconds := value.Floor;
    var millis := RoundHalfEven((value - seconds as real) * 1000.0);
    MillisByFields(v, hours, minutes, seconds, value - seconds as real);

    if millis == 1000 {
      millis := 0;
      seconds := seconds + 1;
    }
    if seconds == 60 {
      seconds := 0;
      minutes := minutes + 1;
    }
    if minutes == 60 {
      minutes := 0;
      hours := hours + 1;
    }
    FieldsOfTotal(hours, minutes, seconds, millis);
    stamp := StampOf(hours, minutes, seconds, millis);
  }

  lemma MillisByFields(v: real, hours: int, minutes: int, seconds: int, rest: real)
    requires 0.0 <= rest < 1.0
    requires ClampZero(v) == (hours * 3600 + minutes * 60 + seconds) as real + rest
    ensures Millis(v) == hours * 3_600_000 + minutes * 60_000 + seconds * 1000 + RoundHalfEven(rest * 1000.0)
    ensures 0 <= RoundHalfEven(rest * 1000.0) <= 1000
  {
    var whole := hours * 3_600_000 + minutes * 60_000 + seconds * 1000;
    assert ClampZero(v) * 1000.0 == rest * 1000.0 + whole as real;
    RoundPlusEven(rest * 1000.0, whole);
    RoundIsMonotone(0.0, rest * 1000.0);
    RoundIsMonotone(rest * 1000.0, 1000.0);
  }

  // ---------------------------------------------------------------------------
  // Parsing.

  function Split(s: string, c: char): (parts: seq<string>)
    ensures parts != []
  {
    if s == "" then [""]
    else if s[0] == c then [""] + Split(s[1..], c)
    else
      var rest := Split(s[1..], c);
      [[s[0]] + rest[0]] + rest[1..]
  }

  lemma {:induction false} SplitAt(a: string, c: char, b: string)
    requires c !in a
    ensures Split(a + [c] + b, c) == [a] + Split(b, c)
  {
    var s := a + [c] + b;
    if a == "" {
      assert s[1..] == b;
    } else {
      SplitAt(a[1..], c, b);
      assert s[1..] == a[1..] + [c] + b;
      assert [a[0]] + a[1..] == a;
    }
  }

  lemma {:induction false} SplitNone(a: string, c: char)
    requires c !in a
    ensures Split(a, c) == [a]
  {
    if a != "" {
      SplitNone(a[1..], c);
      assert [a[0]] + a[1..] == a;
    }
  }

  // int(text) on the digit groups the caller's pattern admits; anything else is a ValueError here.
  function ParseInt(s: string): Option<nat> {
    if s != "" && AllDigits(s) then Some(DecValue(s)) else None
  }

  // None stands for ValueError.
  function ParseSrtTimestamp(value: string): Option<real> {
    var parts := Split(value, ':');
    if |parts| != 3 then None
    else
      var last := Split(parts[2], ',');
      if |last| != 2 then None
      else
        match (ParseInt(parts[0]), ParseInt(parts[1]), ParseInt(last[0]), ParseInt(last[1]))
        case (Some(h), Some(m), Some(s), Some(ms)) =>
          Some((h * 3600 + m * 60 + s) as real + ms as real / 1000.0)
        case _ => None
  }

  lemma {:induction false} LeadingZero(s: string)
    requires AllDigits(s)
    ensures DecValue("0" + s) == DecValue(s)
  {
    var z := "0" + s;
    if s == "" {
      assert z[..0] == "";
    } else {
      LeadingZero(s[..|s| - 1]);
      assert z[..|z| - 1] == "0" + s[..|s| - 1];
    }
  }

  lemma PadsParse(n: nat)
    ensures DecValue(Pad2(n)) == n && DecValue(Pad3(n)) == n
  {
    DecValueOfDec(n);
    LeadingZero(Dec(n));
    LeadingZero("0" + Dec(n));
    assert "0" + ("0" + Dec(n)) == "00" + Dec(n);
  }

  lemma NoSeparator(s: string)
    requires AllDigits(s)
    ensures ':' !in s && ',' !in s && '\n' !in s && ' ' !in s
  {}

  lemma ParseOfStampOf(h: nat, m: nat, s: nat, ms: nat)
    ensures ParseSrtTimestamp(StampOf(h, m, s, ms)) == Some((h * 3600 + m * 60 + s) as real + ms as real / 1000.0)
  {
    hide Pad2, Pad3, Split;
    var tail := Pad2(s) + "," + Pad3(ms);
    NoSeparator(Pad2(h));
    NoSeparator(Pad2(m));
    NoSeparator(Pad2(s));
    NoSeparator(Pad3(ms));
    assert StampOf(h, m, s, ms) == Pad2(h) + [':'] + (Pad2(m) + [':'] + tail);
    SplitAt(Pad2(h), ':', Pad2(m) + [':'] + tail);
    SplitAt(Pad2(m), ':', tail);
    SplitNone(tail, ':');
    assert tail == Pad2(s) + [','] + Pad3(ms);
    SplitAt(Pad2(s), ',', Pad3(ms));
    SplitNone(Pad3(ms), ',');
    PadsParse(h);
    PadsParse(m);
    PadsParse(s);
    PadsParse(ms);
  }

  lemma TotalOfFields(n: nat)
    ensures n == n / 3_600_000 * 3_600_000 + n / 60_000 % 60 * 60_000 + n / 1000 % 60 * 1000 + n % 1000
  {
    assert n / 60_000 == n / 3_600_000 * 60 + n / 60_000 % 60;
    assert n / 1000 == n / 60_000 * 60 + n / 1000 % 60;
  }

  lemma ParseOfStamp(n: nat)
    ensures ParseSrtTimestamp(Stamp(n)) == Some(n as real / 1000.0)
  {
    hide ParseSrtTimestamp, StampOf;
    var h, m, s, ms := n / 3_600_000, n / 60_000 % 60, n / 1000 % 60, n % 1000;
    ParseOfStampOf(h, m, s, ms);
    TotalOfFields(n);
    assert n as real == (h * 3600 + m * 60 + s) as real * 1000.0 + ms as real;
  }

  // Reading a rendered stamp gives the rounded value back, within half a millisecond of what was rendered.
  lemma ParseOfFormat(v: real)
    ensures ParseSrtTimestamp(Stamp(Millis(v))) == Some(Millis(v) as real / 1000.0)
    ensures -0.0005 <= Millis(v) as real / 1000.0 - (if v < 0.0 then 0.0 else v) <= 0.0005
  {
    ParseOfStamp(Millis(v));
    hide Stamp, ParseSrtTimestamp;
  }

  // Rendering what was read gives a canonical stamp back, character for character.
  lemma FormatOfParse(h: nat, m: nat, s: nat, ms: nat)
    requires m < 60 && s < 60 && ms < 1000
    ensures ParseSrtTimestamp(StampOf(h, m, s, ms)).Some?
    ensures Stamp(Millis(ParseSrtTimestamp(StampOf(h, m, s, ms)).value)) == StampOf(h, m, s, ms)
  {
    hide ParseSrtTimestamp, StampOf, Stamp;
    ParseOfStampOf(h, m, s, ms);
    var n := h * 3_600_000 + m * 60_000 + s * 1000 + ms;
    MillisOfWhole(n, (h * 3600 + m * 60 + s) as real + ms as real / 1000.0);
    FieldsOfTotal(h, m, s, ms);
  }

  lemma MillisOfWhole(n: nat, v: real)
    requires v * 1000.0 == n as real
    ensures Millis(v) == n
  {
    RoundOfInt(n);
  }

  lemma FormatIsMonotone(v: real, w: real)
    requires v <= w
    ensures Millis(v) <= Millis(w)
    ensures
      var x, y := ParseSrtTimestamp(Stamp(Millis(v))), ParseSrtTimestamp(Stamp(Millis(w)));
      x.Some? && y.Some? && x.value <= y.value
  {
    hide ParseSrtTimestamp, Stamp;
    ParseOfFormat(v);
    ParseOfFormat(w);
    RoundIsMonotone(ClampZero(v) * 1000.0, ClampZero(w) * 1000.0);
  }

  // ---------------------------------------------------------------------------
  // The shift of one cue; times in seconds.

  function ShiftedStart(start: real, offset: real): real { ClampZero(start + offset) }

  function ShiftedEnd(start: real, end: real, offset: real): real {
    var least := ShiftedStart(start, offset) + 0.01;
    if end + offset < least then least else end + offset
  }

  // A shifted cue starts and ends where the offset puts it, except that it starts no earlier than zero and ends no
  // earlier than ten milliseconds after that; both bounds are met exactly when the offset would break them.
  lemma ShiftClampsIff(start: real, end: real, offset: real)
    ensures
      var from, to := ShiftedStart(start, offset), ShiftedEnd(start, end, offset);
      && (from == start + offset <==> start + offset >= 0.0) && (start + offset < 0.0 ==> from == 0.0)
      && (to == end + offset <==> end + offset >= from + 0.01) && (end + offset < from + 0.01 ==> to == from + 0.01)
  {}

  // Cues stay ordered by start, and each lasts at least ten milliseconds even after rounding.
  lemma ShiftKeepsCueOrder(start: real, end: real, start': real, offset: real)
    ensures Millis(ShiftedStart(start, offset)) + 10 <= Millis(ShiftedEnd(start, end, offset))
    ensures start <= start' ==> Millis(ShiftedStart(start, offset)) <= Millis(ShiftedStart(start', offset))
  {
    var s := ShiftedStart(start, offset);
    RoundPlusEven(s * 1000.0, 10);
    RoundIsMonotone((s + 0.01) * 1000.0, ShiftedEnd(start, end, offset) * 1000.0);
    assert (s + 0.01) * 1000.0 == s * 1000.0 + 10 as real;
    if start <= start' { RoundIsMonotone(s * 1000.0, ShiftedStart(start', offset) * 1000.0); }
  }

  // ---------------------------------------------------------------------------
  // Two shifts in a row. `a` and `b` are offsets in milliseconds, `x` a whole number of milliseconds.

  predicate ComposesAt(x: int, a: real, b: real) {
    RoundHalfEven(RoundHalfEven(x as real + a) as real + b) == RoundHalfEven(x as real + a + b)
  }

  function Frac(x: real): real { x - x.Floor as real }

  // With fractions f and g of the offsets, and j whole milliseconds in the second one, the rounding
  // of the first shift is never visible in the sum.
  predicate Invisible(f: real, g: real, j: int) {
    || f == 0.0
    || (0.0 < f < 0.5 && (f + g < 0.5 || g > 0.5))
    || (f == 0.5 && g == 0.0 && j % 2 == 0)
    || (0.5 < f && (g < 0.5 || f + g > 1.5))
  }

  predicate RoundingIsInvisible(a: real, b: real) { Invisible(Frac(a), Frac(b), b.Floor) }

  // The rounding of n + r for a rest r below 2.
  function Parts(n: int, r: real): int {
    if r < 0.5 then n
    else if r == 0.5 then (if n % 2 == 0 then n else n + 1)
    else if r < 1.5 then n + 1
    else if r == 1.5 then (if n % 2 == 0 then n + 2 else n + 1)
    else n + 2
  }

  lemma RoundByParts(x: real, n: int, r: real)
    requires 0.0 <= r < 2.0 && x == n as real + r
    ensures RoundHalfEven(x) == Parts(n, r)
  {
    FloorPlusInt(r, n);
  }

  // For all stamps at once, two unclamped shifts equal their sum exactly under the condition above;
  // in particular whenever the first offset is a whole number of milliseconds.
  lemma ShiftsComposeIff(a: real, b: real)
    ensures (forall x: int :: ComposesAt(x, a, b)) <==> RoundingIsInvisible(a, b)
    ensures Frac(a) == 0.0 ==> RoundingIsInvisible(a, b)
  {
    var i, j, f, g := a.Floor, b.Floor, Frac(a), Frac(b);
    hide ComposesAt, Parts;
    if RoundingIsInvisible(a, b) {
      forall x: int ensures ComposesAt(x, a, b) {
        ComposesByParts(x, a, b);
        PartsCompose(x + i, j, f, g);
      }
    } else {
      ComposesByParts(-i, a, b);
      ComposesByParts(1 - i, a, b);
      PartsDiffer(j, f, g);
    }
  }

  // Whether they agree depends on the stamp only by its parity.
  lemma ComposesByParity(x: int, k: int, a: real, b: real)
    ensures ComposesAt(x + 2 * k, a, b) <==> ComposesAt(x, a, b)
  {
    hide RoundHalfEven;
    var y, r := x + 2 * k, RoundHalfEven(x as real + a);
    assert y as real + a == (x as real + a) + (2 * k) as real;
    RoundPlusEven(x as real + a, 2 * k);
    assert RoundHalfEven(y as real + a) as real + b == (r as real + b) + (2 * k) as real;
    RoundPlusEven(r as real + b, 2 * k);
    assert y as real + a + b == (x as real + a + b) + (2 * k) as real;
    RoundPlusEven(x as real + a + b, 2 * k);
  }

  // When some stamp tells the shifts from their sum, one of each two neighbours does.
  lemma OneOfTwoTells(x: int, a: real, b: real)
    requires !RoundingIsInvisible(a, b)
    ensures !ComposesAt(x, a, b) || !ComposesAt(x + 1, a, b)
  {
    hide ComposesAt, RoundingIsInvisible;
    ShiftsComposeIff(a, b);
    var z :| !ComposesAt(z, a, b);
    if (z - x) % 2 == 0 {
      ComposesByParity(x, (z - x) / 2, a, b);
    } else {
      ComposesByParity(x + 1, (z - x - 1) / 2, a, b);
    }
  }

  lemma PartsCompose(n: int, j: int, f: real, g: real)
    requires 0.0 <= f < 1.0 && 0.0 <= g < 1.0 && Invisible(f, g, j)
    ensures Parts(Parts(n, f) + j, g) == Parts(n + j, f + g)
  {}

  lemma PartsDiffer(j: int, f: real, g: real)
    requires 0.0 <= f < 1.0 && 0.0 <= g < 1.0 && !Invisible(f, g, j)
    ensures Parts(Parts(0, f) + j, g) != Parts(j, f + g) || Parts(Parts(1, f) + j, g) != Parts(1 + j, f + g)
  {}

  lemma ComposesByParts(x: int, a: real, b: real)
    ensures ComposesAt(x, a, b)
      <==> Parts(Parts(x + a.Floor, Frac(a)) + b.Floor, Frac(b)) == Parts(x + a.Floor + b.Floor, Frac(a) + Frac(b))
  {
    hide RoundHalfEven, Parts;
    RoundByParts(x as real + a, x + a.Floor, Frac(a));
    RoundByParts(Parts(x + a.Floor, Frac(a)) as real + b, Parts(x + a.Floor, Frac(a)) + b.Floor, Frac(b));
    RoundByParts(x as real + a + b, x + a.Floor + b.Floor, Frac(a) + Frac(b));
  }
}
