/**
  Maintenance windows as operators write them: which strings are windows, and which minutes of the day each of them admits,
  in terms of the two times written in the string.
 */
module MaintenanceClock {
  import opened Wrappers
  import opened Strings
  import opened MaintenanceWindow

  type Minute = m: int | 0 <= m < 1440

  function Digit(n: int): (c: char)
    requires 0 <= n <= 9
    ensures IsDigit(c) && DigitValue(c) == n
  {
    ('0' as int + n) as char
  }

  /** A minute of the day as HH:MM on a 24-hour clock. */
  function Clock(m: Minute): string {
    [Digit(m / 600), Digit(m / 60 % 10), ':', Digit(m % 60 / 10), Digit(m % 10)]
  }

  /** The stretch of the day that starts at minute s and ends before minute e, across midnight if it has to. */
  predicate Within(minute: int, s: Minute, e: Minute) {
    (minute - s) % 1440 < (e - s) % 1440
  }

  /** The window is the two clocks with a dash between them, and white space around each of them. */
  ghost predicate Writes(window: string, s: Minute, e: Minute) {
    exists a, b, c, d :: Spaces(a) && Spaces(b) && Spaces(c) && Spaces(d) && window == Written(a, s, b, c, e, d)
  }

  function Written(a: string, s: Minute, b: string, c: string, e: Minute, d: string): string {
    a + Clock(s) + b + "-" + (c + Clock(e) + d)
  }

  // ---------------------------------------------------------------- clocks

  lemma ClockReadsBack(m: Minute)
    ensures ValidMaintenanceClock(Clock(m)) && ClockMinute(Clock(m)) == m
    ensures '-' !in Clock(m) && !IsSpace(Clock(m)[0]) && !IsSpace(Clock(m)[4])
  {
    MinuteDigits(m);
    var h, l, n, k := m / 600, m / 60 % 10, m % 60 / 10, m % 10;
    DigitIsPlain(Digit(h));
    DigitIsPlain(Digit(l));
    DigitIsPlain(Digit(n));
    DigitIsPlain(Digit(k));
    assert Clock(m) == [Digit(h), Digit(l), ':', Digit(n), Digit(k)];
  }

  lemma MinuteDigits(m: Minute)
    ensures 0 <= m / 600 <= 2 && 0 <= m / 60 % 10 <= 9 && 0 <= m % 60 / 10 <= 5 && 0 <= m % 10 <= 9
    ensures m / 600 * 10 + m / 60 % 10 == m / 60 && m % 60 / 10 * 10 + m % 10 == m % 60
  {
  }

  lemma DigitsOfMinute(h: int, l: int, n: int, k: int)
    requires 0 <= h && 0 <= l <= 9 && h * 10 + l <= 23 && 0 <= n <= 5 && 0 <= k <= 9
    ensures var m := (h * 10 + l) * 60 + n * 10 + k;
            m / 600 == h && m / 60 % 10 == l && m % 60 / 10 == n && m % 10 == k
  {
  }

  lemma DigitIsPlain(c: char)
    requires IsDigit(c)
    ensures c != '-' && !IsSpace(c) && Digit(DigitValue(c)) == c
  {
  }

  lemma OnlyClocksAreValid(value: string)
    requires ValidMaintenanceClock(value)
    ensures value == Clock(ClockMinute(value))
  {
    var h, l, n, k := DigitValue(value[0]), DigitValue(value[1]), DigitValue(value[3]), DigitValue(value[4]);
    DigitIsPlain(value[0]);
    DigitIsPlain(value[1]);
    DigitIsPlain(value[3]);
    DigitIsPlain(value[4]);
    DigitsOfMinute(h, l, n, k);
    assert value == [Digit(h), Digit(l), ':', Digit(n), Digit(k)];
  }

  lemma SpacesHaveNoDash(s: string)
    requires Spaces(s)
    ensures '-' !in s
  {
    assert !IsSpace('-');
  }

  /** Every written window has exactly these endpoints. */
  lemma WrittenEndpoints(a: string, s: Minute, b: string, c: string, e: Minute, d: string)
    requires Spaces(a) && Spaces(b) && Spaces(c) && Spaces(d)
    ensures TrimSpace(Written(a, s, b, c, e, d)) != ""
    ensures Endpoints(TrimSpace(Written(a, s, b, c, e, d))) == Some((s, e))
  {
    ClockReadsBack(s);
    ClockReadsBack(e);
    SpacesHaveNoDash(b);
    SpacesHaveNoDash(c);
    var left, right := Clock(s) + b, c + Clock(e);
    var core := left + ['-'] + right;
    assert Written(a, s, b, c, e, d) == a + core + d;
    assert core[0] == Clock(s)[0] && core[|core| - 1] == Clock(e)[4];
    TrimPadded(a, core, d);
    SplitCons(left, right, '-');
    SplitPiece(right, '-');
    TrimPadded([], Clock(s), b);
    TrimPadded(c, Clock(e), []);
    assert [] + Clock(s) + b == left && c + Clock(e) + [] == right;
  }

  lemma Reassociated(a: string, a': string, s: string, b: string, c: string, e: string, d': string, d: string)
    ensures a + (a' + s + b + ['-'] + (c + e + d')) + d == (a + a') + s + b + "-" + (c + e + (d' + d))
  {
  }

  /** And every window with endpoints is written so. */
  lemma EndpointsAreWritten(window: string)
    requires Endpoints(TrimSpace(window)).Some?
    ensures var ends := Endpoints(TrimSpace(window)).value; Writes(window, ends.0, ends.1)
  {
    var trimmed := TrimSpace(window);
    var a, d := TrimSplits(window);
    var parts := Split(trimmed, '-');
    JoinSplit(trimmed, '-');
    assert parts[1..] == [parts[1]];
    assert trimmed == parts[0] + ['-'] + parts[1];
    var a', b := TrimSplits(parts[0]);
    var c, d' := TrimSplits(parts[1]);
    OnlyClocksAreValid(TrimSpace(parts[0]));
    OnlyClocksAreValid(TrimSpace(parts[1]));
    var ends := Endpoints(trimmed).value;
    Reassociated(a, a', Clock(ends.0), b, c, Clock(ends.1), d', d);
    assert window == Written(a + a', ends.0, b, c, ends.1, d' + d);
  }

  // ---------------------------------------------------------------- what a window means

  lemma OpenStretch(minute: Minute, s: Minute, e: Minute)
    requires s != e
    ensures Within(minute, s, e) <==> if s < e then s <= minute < e else minute >= s || minute < e
  {
  }

  /** A written window admits exactly the minutes from its first clock to its second, or all of them if they are equal. */
  lemma WrittenWindowAllows(now: Instant, window: string, s: Minute, e: Minute)
    requires Writes(window, s, e)
    ensures MaintenanceWindowAllows(now, window) <==> s == e || Within(now.minute, s, e)
  {
    var a, b, c, d :| Spaces(a) && Spaces(b) && Spaces(c) && Spaces(d) && window == Written(a, s, b, c, e, d);
    WrittenEndpoints(a, s, b, c, e, d);
    if s != e {
      OpenStretch(now.minute, s, e);
    }
  }

  /** The deadline of an open written window is the next time its second clock strikes. */
  lemma WrittenWindowDeadline(now: Instant, window: string, s: Minute, e: Minute)
    requires Writes(window, s, e) && s != e && Within(now.minute, s, e)
    ensures MaintenanceWindowDeadline(now, window)
            == Ok(Reading(if now.minute < e then now.day else now.day + 1, e, 0))
  {
    var a, b, c, d :| Spaces(a) && Spaces(b) && Spaces(c) && Spaces(d) && window == Written(a, s, b, c, e, d);
    WrittenEndpoints(a, s, b, c, e, d);
    WrittenWindowAllows(now, window, s, e);
    OpenStretch(now.minute, s, e);
    FinalGuardIsDead(now, window);
    EndOfOpenWindow(now, window);
  }

  lemma EndOfOpenWindow(now: Instant, window: string)
    requires Restricted(window) && MaintenanceWindowDeadline(now, window).Ok?
    ensures var ends := Endpoints(TrimSpace(window)).value;
            && MaintenanceWindowDeadline(now, window).value.minute == ends.1
            && MaintenanceWindowDeadline(now, window).value.nanos == 0
            && MaintenanceWindowDeadline(now, window).value.day
               == (if ends.0 > ends.1 && now.minute >= ends.0 then now.day + 1 else now.day)
  {
  }

  lemma WrittenIsRestricted(window: string, s: Minute, e: Minute)
    requires Writes(window, s, e)
    ensures Restricted(window) <==> s != e
  {
    var a, b, c, d :| Spaces(a) && Spaces(b) && Spaces(c) && Spaces(d) && window == Written(a, s, b, c, e, d);
    WrittenEndpoints(a, s, b, c, e, d);
  }

  lemma PlainWindowIsWritten(s: Minute, e: Minute)
    ensures Writes(Clock(s) + "-" + Clock(e), s, e)
  {
    assert Clock(s) + "-" + Clock(e) == Written([], s, [], [], e, []);
  }

  /** HH:MM-HH:MM with two different clocks: open from the first to the second, and jobs expire at the second. */
  lemma PlainWindow(now: Instant, s: Minute, e: Minute)
    ensures var window := Clock(s) + "-" + Clock(e);
            && (MaintenanceWindowAllows(now, window) <==> s == e || (now.minute - s) % 1440 < (e - s) % 1440)
            && (s != e && MaintenanceWindowAllows(now, window) ==>
                  MaintenanceWindowDeadline(now, window).Ok?
                  && MaintenanceWindowDeadline(now, window).value.minute == e
                  && MaintenanceWindowDeadline(now, window).value.nanos == 0)
  {
    var window := Clock(s) + "-" + Clock(e);
    PlainWindowIsWritten(s, e);
    WrittenWindowAllows(now, window, s, e);
    if s != e && MaintenanceWindowAllows(now, window) {
      WrittenWindowDeadline(now, window, s, e);
    }
  }

  /** For every string: a blank one admits every instant, a written one the minutes between its clocks, any other none. */
  lemma WindowAllowsExactly(now: Instant, window: string)
    ensures MaintenanceWindowAllows(now, window) <==>
            || Spaces(window)
            || exists s: Minute, e: Minute :: Writes(window, s, e) && (s == e || Within(now.minute, s, e))
  {
    BlankIffTrimsToNothing(window);
    if !Spaces(window) && Endpoints(TrimSpace(window)).Some? {
      var ends := Endpoints(TrimSpace(window)).value;
      EndpointsAreWritten(window);
      WrittenWindowAllows(now, window, ends.0, ends.1);
    }
    if s: Minute, e: Minute :| Writes(window, s, e) && (s == e || Within(now.minute, s, e)) {
      WrittenWindowAllows(now, window, s, e);
    }
  }

  /** For every string: the deadline reports a malformed window exactly if the string is neither blank nor written. */
  lemma MalformedExactly(now: Instant, window: string)
    ensures MaintenanceWindowDeadline(now, window) == Err(ErrInvalidMaintenanceWindow) <==>
            !Spaces(window) && forall s: Minute, e: Minute :: !Writes(window, s, e)
  {
    BlankIffTrimsToNothing(window);
    DeadlineIffAllowed(now, window);
    if !Spaces(window) && Endpoints(TrimSpace(window)).Some? {
      EndpointsAreWritten(window);
    }
    if s: Minute, e: Minute :| Writes(window, s, e) {
      var a, b, c, d :| Spaces(a) && Spaces(b) && Spaces(c) && Spaces(d) && window == Written(a, s, b, c, e, d);
      WrittenEndpoints(a, s, b, c, e, d);
    }
  }
}
