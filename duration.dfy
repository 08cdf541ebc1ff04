/**
 * The duration codec: `parse_duration`, which reads the time part of an
 * ISO 8601 duration (`PT[nH][nM][nS]`) by string splitting, and
 * `format_time`, which renders a number of seconds in one of three tiers.
 */
module Duration {
  import opened Wrappers
  import opened Decimal

  /** Python's `s[2:]`. */
  function Drop2(s: string): string {
    if |s| <= 2 then "" else s[2..]
  }

  /** Python's `s.split(c)[0]`: the text before the first `c`, or all of `s` when there is none. */
  function Before(s: string, c: char): (r: string)
    ensures |r| <= |s|
    ensures c in s ==> |r| < |s|
  {
    if |s| == 0 || s[0] == c then "" else [s[0]] + Before(s[1..], c)
  }

  /**
   * `Before(s, c)` is the longest prefix of `s` without `c`: it is a prefix,
   * holds no `c`, and is followed by a `c` exactly when `s` has one.
   */
  lemma {:induction false} BeforeIsPrefix(s: string, c: char)
    ensures var r := Before(s, c);
      && r <= s && c !in r
      && (|r| < |s| <==> c in s)
      && (|r| < |s| ==> s[|r|] == c)
  {
    if |s| > 0 && s[0] != c {
      BeforeIsPrefix(s[1..], c);
      assert s == [s[0]] + s[1..];
    }
  }

  /**
   * Python's `s.split(c)[1]` when `c in s`: the text between the first `c`
   * and the next one (or the end of `s`).
   */
  function Second(s: string, c: char): string
    requires c in s
  {
    Before(s[|Before(s, c)| + 1..], c)
  }

  /**
   * One step of `parse_duration`: when `unit` occurs in `d`, the value of the
   * text before it and the text `d.split(unit)[1]` left for the next step;
   * otherwise 0 and `d` unchanged. `None` is `int()` raising.
   */
  function Peel(d: string, unit: char): (Option<nat>, string) {
    if unit in d then (ParseNat(Before(d, unit)), Second(d, unit)) else (Some(0), d)
  }

  /** `parse_duration` after the designator is dropped. */
  function DecodeTime(d0: string): Option<nat> {
    var hours := Peel(d0, 'H');
    var minutes := Peel(hours.1, 'M');
    var seconds := Peel(minutes.1, 'S');
    if hours.0.None? || minutes.0.None? || seconds.0.None? then None
    else Some(hours.0.value * 3600 + minutes.0.value * 60 + seconds.0.value)
  }

  /**
   * `parse_duration` as a value: the number of seconds the token denotes, or
   * `None` where one of the `int()` calls raises.
   */
  function Decode(text: string): Option<nat> {
    DecodeTime(Drop2(text))
  }

  /** `parse_duration`: drops the designator, then peels off hours, minutes and seconds in turn. */
  method ParseDuration(duration: string) returns (r: Option<nat>)
    ensures r == Decode(duration)
  {
    var rest := Drop2(duration);
    ghost var d0 := rest;
    var hours, minutes, seconds := 0, 0, 0;
    if 'H' in rest {
      var h := ParseNat(Before(rest, 'H'));
      if h.None? {
        return None;
      }
      hours := h.value;
      rest := Second(rest, 'H');
    }
    assert Peel(d0, 'H') == (Some(hours), rest);
    ghost var d1 := rest;
    if 'M' in rest {
      var m := ParseNat(Before(rest, 'M'));
      if m.None? {
        return None;
      }
      minutes := m.value;
      rest := Second(rest, 'M');
    }
    assert Peel(d1, 'M') == (Some(minutes), rest);
    if 'S' in rest {
      var s := ParseNat(Before(rest, 'S'));
      if s.None? {
        return None;
      }
      seconds := s.value;
    }
    assert Peel(rest, 'S').0 == Some(seconds);
    r := Some(hours * 3600 + minutes * 60 + seconds);
  }

  // ---------------------------------------------------------------------------
  // The grammar the decoder is meant for: PT[nH][nM][nS]

  /** One optional component of a duration token. */
  datatype Component = Absent | Present(digits: string)

  predicate WellFormed(c: Component) {
    c.Present? ==> IsDigits(c.digits)
  }

  /** The component's text: its digits followed by its unit letter, or nothing. */
  function Part(c: Component, unit: char): string {
    if c.Absent? then "" else c.digits + [unit]
  }

  /** What an absent component contributes: nothing. */
  function Amount(c: Component): nat
    requires WellFormed(c)
  {
    if c.Absent? then 0 else DigitsValue(c.digits)
  }

  /** The duration token `PT[hH][mM][sS]`. */
  function Token(h: Component, m: Component, s: Component): string {
    "PT" + Part(h, 'H') + Part(m, 'M') + Part(s, 'S')
  }

  lemma {:induction false} BeforeAppend(x: string, c: char, y: string)
    requires c !in x
    ensures Before(x + [c] + y, c) == x
  {
    if |x| > 0 {
      BeforeAppend(x[1..], c, y);
      assert (x + [c] + y)[1..] == x[1..] + [c] + y;
    }
  }

  /** Splitting `Part(c, u) + rest` on `u` peels off exactly the component `c`. */
  lemma SplitPart(c: Component, u: char, rest: string)
    requires WellFormed(c) && !IsDigit(u) && u !in rest
    ensures Peel(Part(c, u) + rest, u) == (Some(Amount(c)), rest)
  {
    var d := Part(c, u) + rest;
    BeforeIsPrefix(rest, u);
    assert Before(rest, u) == rest;
    if c.Present? {
      assert d == c.digits + [u] + rest;
      assert d[|c.digits|] == u;
      BeforeAppend(c.digits, u, rest);
      assert d[|c.digits| + 1..] == rest;
    } else {
      assert d == rest;
    }
  }

  /** A component's text holds no unit letter but its own. */
  lemma PartLacks(c: Component, u: char, v: char)
    requires WellFormed(c) && v != u && !IsDigit(v)
    ensures v !in Part(c, u)
  {
  }

  lemma DecodeSteps(d: string, ms: string, ps: string, h: Component, m: Component, s: Component)
    requires WellFormed(h) && WellFormed(m) && WellFormed(s)
    requires Peel(d, 'H') == (Some(Amount(h)), ms)
    requires Peel(ms, 'M') == (Some(Amount(m)), ps)
    requires Peel(ps, 'S').0 == Some(Amount(s))
    ensures DecodeTime(d) == Some(Amount(h) * 3600 + Amount(m) * 60 + Amount(s))
  {
  }

  lemma PeelHours(h: Component, m: Component, s: Component)
    requires WellFormed(h) && WellFormed(m) && WellFormed(s)
    ensures Peel(Part(h, 'H') + (Part(m, 'M') + Part(s, 'S')), 'H') == (Some(Amount(h)), Part(m, 'M') + Part(s, 'S'))
  {
    PartLacks(m, 'M', 'H');
    PartLacks(s, 'S', 'H');
    SplitPart(h, 'H', Part(m, 'M') + Part(s, 'S'));
  }

  lemma PeelMinutes(m: Component, s: Component)
    requires WellFormed(m) && WellFormed(s)
    ensures Peel(Part(m, 'M') + Part(s, 'S'), 'M') == (Some(Amount(m)), Part(s, 'S'))
  {
    PartLacks(s, 'S', 'M');
    SplitPart(m, 'M', Part(s, 'S'));
  }

  lemma PeelSeconds(s: Component)
    requires WellFormed(s)
    ensures Peel(Part(s, 'S'), 'S').0 == Some(Amount(s))
  {
    SplitPart(s, 'S', "");
    assert Part(s, 'S') + "" == Part(s, 'S');
  }

  /** The time components after the designator decode independently of each other. */
  lemma DecodeParts(h: Component, m: Component, s: Component)
    requires WellFormed(h) && WellFormed(m) && WellFormed(s)
    ensures DecodeTime(Part(h, 'H') + (Part(m, 'M') + Part(s, 'S')))
         == Some(Amount(h) * 3600 + Amount(m) * 60 + Amount(s))
  {
    PeelHours(h, m, s);
    PeelMinutes(m, s);
    PeelSeconds(s);
    DecodeSteps(Part(h, 'H') + (Part(m, 'M') + Part(s, 'S')), Part(m, 'M') + Part(s, 'S'), Part(s, 'S'), h, m, s);
  }

  /**
   * A well-formed token decodes to hours * 3600 + minutes * 60 + seconds;
   * absent components contribute 0 and nothing is carried between them.
   */
  lemma DecodeToken(h: Component, m: Component, s: Component)
    requires WellFormed(h) && WellFormed(m) && WellFormed(s)
    ensures Decode(Token(h, m, s)) == Some(Amount(h) * 3600 + Amount(m) * 60 + Amount(s))
  {
    var x := Part(h, 'H') + (Part(m, 'M') + Part(s, 'S'));
    assert Token(h, m, s) == "PT" + x;
    assert Drop2("PT" + x) == x;
    DecodeParts(h, m, s);
  }

  /** The two designator characters are dropped unread. */
  lemma DesignatorIgnored(p: string, q: string, rest: string)
    requires |p| == 2 && |q| == 2
    ensures Decode(p + rest) == Decode(q + rest)
  {
    assert Drop2(p + rest) == rest == Drop2(q + rest);
  }

  /** A token without any of the unit letters H, M, S decodes to 0 (so do `"PT"`, `"P1D"` and `"P3W"`). */
  lemma NoUnitsIsZero(text: string)
    requires 'H' !in Drop2(text) && 'M' !in Drop2(text) && 'S' !in Drop2(text)
    ensures Decode(text) == Some(0)
  {
  }

  /** A non-integer text before the first `H` makes decoding fail, whatever follows. */
  lemma HoursNotInteger(p: string, x: string, rest: string)
    requires |p| == 2 && 'H' !in x && !IsDigits(x)
    ensures Decode(p + x + "H" + rest) == None
  {
    var t := p + x + "H" + rest;
    assert Drop2(t) == x + ['H'] + rest;
    BeforeAppend(x, 'H', rest);
  }

  /** A prefix without `c` passes through `Before` unchanged. */
  lemma {:induction false} BeforeSkip(y: string, c: char, z: string)
    requires c !in y
    ensures Before(y + z, c) == y + Before(z, c)
  {
    if |y| > 0 {
      BeforeSkip(y[1..], c, z);
      assert (y + z)[1..] == y[1..] + z;
      assert [y[0]] + (y[1..] + Before(z, c)) == y + Before(z, c);
    } else {
      assert y + z == z && y + Before(z, c) == Before(z, c);
    }
  }

  /** A text ending in a letter is no digit string, whatever follows it. */
  lemma EndsInLetter(y: string, w: string)
    requires |y| > 0 && !IsDigit(y[|y| - 1])
    ensures ParseNat(y + w) == None
  {
    assert (y + w)[|y| - 1] == y[|y| - 1];
  }

  /**
   * Peeling `u` off `Part(c, u) + y + z`, where `y` ends in a letter and holds
   * no `u`: a present component is read and `y` is carried on, cut at the next
   * `u`; an absent one leaves `y + z` alone, unless a later `u` makes `int()`
   * read `y` and fail.
   */
  lemma PeelPast(c: Component, u: char, y: string, z: string)
    requires WellFormed(c) && !IsDigit(u) && u !in y
    requires |y| > 0 && !IsDigit(y[|y| - 1])
    ensures c.Present? ==> Peel(Part(c, u) + y + z, u) == (Some(Amount(c)), y + Before(z, u))
    ensures c.Absent? && u in z ==> Peel(Part(c, u) + y + z, u).0 == None
    ensures c.Absent? && u !in z ==> Peel(Part(c, u) + y + z, u) == (Some(0), y + z)
  {
    var d := Part(c, u) + y + z;
    if c.Present? {
      assert d == c.digits + [u] + (y + z);
      BeforeAppend(c.digits, u, y + z);
      assert d[|c.digits| + 1..] == y + z;
      BeforeSkip(y, u, z);
    } else {
      assert d == y + z;
      if u in z {
        BeforeSkip(y, u, z);
        EndsInLetter(y, Before(z, u));
      }
    }
  }

  /** A non-integer text before the first `M` after the hours makes decoding fail, whatever follows. */
  lemma MinutesNotInteger(p: string, h: Component, x: string, rest: string)
    requires |p| == 2 && WellFormed(h) && 'H' !in x && 'M' !in x && !IsDigits(x)
    ensures Decode(p + Part(h, 'H') + x + "M" + rest) == None
  {
    var y := x + "M";
    assert p + Part(h, 'H') + x + "M" + rest == p + (Part(h, 'H') + y + rest);
    assert Drop2(p + (Part(h, 'H') + y + rest)) == Part(h, 'H') + y + rest;
    PeelPast(h, 'H', y, rest);
    var hours := Peel(Part(h, 'H') + y + rest, 'H');
    if hours.0.Some? {
      var z := if h.Present? then Before(rest, 'H') else rest;
      BeforeAppend(x, 'M', z);
      assert hours.1 == x + ['M'] + z;
    }
  }

  /** A non-integer text before the first `S` after the hours and minutes makes decoding fail, whatever follows. */
  lemma SecondsNotInteger(p: string, h: Component, m: Component, x: string, rest: string)
    requires |p| == 2 && WellFormed(h) && WellFormed(m)
    requires 'H' !in x && 'M' !in x && 'S' !in x && !IsDigits(x)
    ensures Decode(p + Part(h, 'H') + Part(m, 'M') + x + "S" + rest) == None
  {
    var y := x + "S";
    PartLacks(m, 'M', 'H');
    var ym := Part(m, 'M') + y;
    assert ym[|ym| - 1] == 'S';
    assert p + Part(h, 'H') + Part(m, 'M') + x + "S" + rest == p + (Part(h, 'H') + ym + rest);
    assert Drop2(p + (Part(h, 'H') + ym + rest)) == Part(h, 'H') + ym + rest;
    PeelPast(h, 'H', ym, rest);
    var hours := Peel(Part(h, 'H') + ym + rest, 'H');
    if hours.0.Some? {
      var z := if h.Present? then Before(rest, 'H') else rest;
      assert hours.1 == Part(m, 'M') + y + z;
      PeelPast(m, 'M', y, z);
      var minutes := Peel(hours.1, 'M');
      if minutes.0.Some? {
        var w := if m.Present? then Before(z, 'M') else z;
        BeforeAppend(x, 'S', w);
        assert minutes.1 == x + ['S'] + w;
      }
    }
  }

  lemma DecodeExampleAllParts()
    ensures Decode("PT1H2M3S") == Some(3723)
  {
    assert DigitsValue("1") == 1 && DigitsValue("2") == 2 && DigitsValue("3") == 3;
    assert "PT1H2M3S" == Token(Present("1"), Present("2"), Present("3"));
    DecodeToken(Present("1"), Present("2"), Present("3"));
  }

  lemma DecodeExampleZero()
    ensures Decode("PT0S") == Some(0)
    ensures Decode("PT") == Some(0)
  {
    assert DigitsValue("0") == 0;
    assert "PT0S" == Token(Absent, Absent, Present("0"));
    DecodeToken(Absent, Absent, Present("0"));
    NoUnitsIsZero("PT");
  }

  /** Whole minutes, as short videos report them. */
  lemma DecodeExampleTenMinutes()
    ensures Decode("PT10M") == Some(600)
  {
    assert DigitsValue("10") == 10 by {
      assert "10"[..1] == "1";
    }
    assert "PT10M" == Token(Absent, Present("10"), Absent);
    DecodeToken(Absent, Present("10"), Absent);
  }

  lemma DecodeExampleTwentyMinutes()
    ensures Decode("PT20M") == Some(1200)
  {
    assert DigitsValue("20") == 20 by {
      assert "20"[..1] == "2";
    }
    assert "PT20M" == Token(Absent, Present("20"), Absent);
    DecodeToken(Absent, Present("20"), Absent);
  }

  lemma DecodeExampleThirtyMinutes()
    ensures Decode("PT30M") == Some(1800)
  {
    assert DigitsValue("30") == 30 by {
      assert "30"[..1] == "3";
    }
    assert "PT30M" == Token(Absent, Present("30"), Absent);
    DecodeToken(Absent, Present("30"), Absent);
  }

  lemma DecodeExampleNoCarry()
    ensures Decode("PT90M") == Some(5400)
  {
    assert DigitsValue("90") == 90 by {
      assert "90"[..1] == "9";
    }
    assert "PT90M" == Token(Absent, Present("90"), Absent);
    DecodeToken(Absent, Present("90"), Absent);
  }

  lemma DecodeExampleRejected()
    ensures Decode("PTXM") == None
    ensures Decode("P1DT2H") == None
  {
    assert !IsDigit("X"[0]) && !IsDigit("DT2"[0]);
    assert "PTXM" == "PT" + "X" + "M" + "";
    MinutesNotInteger("PT", Absent, "X", "");
    assert "P1DT2H" == "P1" + "DT2" + "H" + "";
    HoursNotInteger("P1", "DT2", "");
  }

  /** A fractional number of seconds is refused. */
  lemma DecodeExampleFraction(t: string)
    requires t == "PT1M2.5S"
    ensures Decode(t) == None
  {
    var x := "2.5";
    assert !IsDigit(x[1]);
    assert t == "PT" + Part(Absent, 'H') + Part(Present("1"), 'M') + x + "S" + "";
    SecondsNotInteger("PT", Absent, Present("1"), x, "");
  }

  // ---------------------------------------------------------------------------
  // format_time

  /** A number of seconds broken into days, hours, minutes and seconds. */
  datatype Clock = Clock(days: int, hours: nat, minutes: nat, seconds: nat)

  /**
   * `timedelta(seconds=n)` (which keeps `0 <= td.seconds < 86400` and floors the
   * days) followed by `divmod(td.seconds, 3600)` and `divmod(remainder, 60)`.
   */
  function Breakdown(n: int): (c: Clock)
    ensures c.hours < 24 && c.minutes < 60 && c.seconds < 60
    ensures c.days * 86400 + c.hours * 3600 + c.minutes * 60 + c.seconds == n
  {
    var rem := n % 86400;
    Clock(n / 86400, rem / 3600, rem % 3600 / 60, rem % 60)
  }

  /** The breakdown is the only one with hours < 24, minutes < 60 and seconds < 60. */
  lemma BreakdownUnique(n: int, c: Clock)
    requires c.hours < 24 && c.minutes < 60 && c.seconds < 60
    requires c.days * 86400 + c.hours * 3600 + c.minutes * 60 + c.seconds == n
    ensures c == Breakdown(n)
  {
    var b := Breakdown(n);
    var r := c.hours * 3600 + c.minutes * 60 + c.seconds;
    var rb := b.hours * 3600 + b.minutes * 60 + b.seconds;
    assert 0 <= r < 86400 && 0 <= rb < 86400;
    assert (c.days - b.days) * 86400 == rb - r;
    assert c.days == b.days;
    var q := c.minutes * 60 + c.seconds;
    var qb := b.minutes * 60 + b.seconds;
    assert (c.hours - b.hours) * 3600 == qb - q;
    assert c.hours == b.hours;
    assert (c.minutes - b.minutes) * 60 == b.seconds - c.seconds;
    assert c.minutes == b.minutes;
  }

  /** `format_time`: days, hours and minutes; or hours and minutes; or minutes and seconds. */
  function FormatTime(n: int): string {
    var c := Breakdown(n);
    if c.days > 0 then
      NatToString(c.days) + "d " + NatToString(c.hours) + "h " + NatToString(c.minutes) + "m"
    else if c.hours > 0 then
      NatToString(c.hours) + "h " + NatToString(c.minutes) + "m"
    else
      NatToString(c.minutes) + "m " + NatToString(c.seconds) + "s"
  }

  /** Under an hour: minutes and seconds. */
  lemma FormatTimeMinutes(n: int)
    requires 0 <= n < 3600
    ensures FormatTime(n) == NatToString(n / 60) + "m " + NatToString(n % 60) + "s"
  {
    BreakdownUnique(n, Clock(0, 0, n / 60, n % 60));
  }

  /** From one hour to under a day: hours and minutes, seconds dropped. */
  lemma FormatTimeHours(n: int)
    requires 3600 <= n < 86400
    ensures FormatTime(n) == NatToString(n / 3600) + "h " + NatToString(n % 3600 / 60) + "m"
  {
    BreakdownUnique(n, Clock(0, n / 3600, n % 3600 / 60, n % 60));
  }

  /** From one day on: days, hours and minutes, seconds dropped. */
  lemma FormatTimeDays(n: int)
    requires n >= 86400
    ensures FormatTime(n) == NatToString(n / 86400) + "d " + NatToString(n % 86400 / 3600) + "h "
                             + NatToString(n % 3600 / 60) + "m"
  {
    var c := Clock(n / 86400, n % 86400 / 3600, n % 3600 / 60, n % 60);
    assert n % 86400 % 3600 == n % 3600;
    BreakdownUnique(n, c);
  }

  /** The formatter is lossy: from one hour on, the seconds do not show. */
  lemma FormatTimeDropsSeconds(n: int)
    requires n >= 3600
    ensures FormatTime(n) == FormatTime(n - n % 60)
  {
    var k := n - n % 60;
    var b := Breakdown(n);
    BreakdownUnique(k, Clock(b.days, b.hours, b.minutes, 0));
  }

  lemma FormatTimeExamples()
    ensures FormatTime(3723) == "1h 2m"
    ensures FormatTime(90061) == "1d 1h 1m"
    ensures FormatTime(45) == "0m 45s"
  {
    FormatTimeHours(3723);
    FormatTimeDays(90061);
    FormatTimeMinutes(45);
    assert NatToString(45) == "45";
  }
}
