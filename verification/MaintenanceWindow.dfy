/** Maintenance windows "HH:MM-HH:MM": internal/patch/canary_control.go and maintenance_window.go. */
module MaintenanceWindow {
  import opened Wrappers
  import opened Strings

  const MINUTES_PER_DAY := 1440
  const NANOS_PER_MINUTE := 60_000_000_000

  /** A wall-clock reading in one fixed-offset zone: a day number, the minute of that day, the rest. */
  datatype Reading = Reading(day: int, minute: int, nanos: int)

  type Instant = r: Reading | 0 <= r.minute < MINUTES_PER_DAY && 0 <= r.nanos < NANOS_PER_MINUTE
    witness Reading(0, 0, 0)

  function Nanos(at: Instant): int {
    (at.day * MINUTES_PER_DAY + at.minute) * NANOS_PER_MINUTE + at.nanos
  }

  datatype WindowError = ErrInvalidMaintenanceWindow | ErrOutsideMaintenanceWindow

  predicate IsDigit(c: char) {
    '0' <= c <= '9'
  }

  function DigitValue(c: char): (v: int)
    requires IsDigit(c)
    ensures 0 <= v <= 9
  {
    c as int - '0' as int
  }

  predicate ValidMaintenanceClock(value: string) {
    && |value| == 5
    && value[2] == ':'
    && IsDigit(value[0]) && IsDigit(value[1]) && IsDigit(value[3]) && IsDigit(value[4])
    && DigitValue(value[0]) * 10 + DigitValue(value[1]) <= 23
    && DigitValue(value[3]) * 10 + DigitValue(value[4]) <= 59
  }

  /** Hour() * 60 + Minute() of time.Parse("15:04", value), which accepts every valid clock. */
  function ClockMinute(value: string): (minute: int)
    requires ValidMaintenanceClock(value)
    ensures 0 <= minute < MINUTES_PER_DAY
  {
    (DigitValue(value[0]) * 10 + DigitValue(value[1])) * 60 + DigitValue(value[3]) * 10 + DigitValue(value[4])
  }

  /** The configured endpoints of a non-empty, trimmed window, if it is well formed. */
  function Endpoints(trimmed: string): (r: Option<(int, int)>)
    ensures r.Some? ==> 0 <= r.value.0 < MINUTES_PER_DAY && 0 <= r.value.1 < MINUTES_PER_DAY
  {
    var parts := Split(trimmed, '-');
    if |parts| != 2 then None
    else
      var startValue, endValue := TrimSpace(parts[0]), TrimSpace(parts[1]);
      if !ValidMaintenanceClock(startValue) || !ValidMaintenanceClock(endValue) then None
      else Some((ClockMinute(startValue), ClockMinute(endValue)))
  }

  predicate MaintenanceWindowAllows(now: Instant, window: string) {
    var trimmed := TrimSpace(window);
    if trimmed == "" then true
    else
      match Endpoints(trimmed)
      case None => false
      case Some((startMinute, endMinute)) =>
        if startMinute == endMinute then true
        else if startMinute < endMinute then startMinute <= now.minute < endMinute
        else now.minute >= startMinute || now.minute < endMinute
  }

  function MaintenanceWindowDeadline(now: Instant, window: string): Result<Instant, WindowError> {
    var trimmed := TrimSpace(window);
    var inThreeDays: Instant := now.(day := now.day + 3);
    if trimmed == "" then Ok(inThreeDays)
    else
      match Endpoints(trimmed)
      case None => Err(ErrInvalidMaintenanceWindow)
      case Some((startMinute, endMinute)) =>
        if startMinute == endMinute then Ok(inThreeDays)
        else if !MaintenanceWindowAllows(now, trimmed) then Err(ErrOutsideMaintenanceWindow)
        else
          var sameDay: Instant := Reading(now.day, endMinute, 0);
          var end: Instant :=
            if startMinute > endMinute && now.minute >= startMinute then sameDay.(day := now.day + 1) else sameDay;
          if Nanos(end) <= Nanos(now) then Err(ErrOutsideMaintenanceWindow) else Ok(end)
  }

  /** A well-formed window with two different endpoints, the only kind that restricts anything. */
  predicate Restricted(window: string) {
    var trimmed := TrimSpace(window);
    trimmed != "" && Endpoints(trimmed).Some? && Endpoints(trimmed).value.0 != Endpoints(trimmed).value.1
  }

  lemma LaterMinuteIsLater(a: Instant, b: Instant)
    ensures Nanos(a) < Nanos(b) <==>
            || a.day < b.day
            || (a.day == b.day && (a.minute < b.minute || (a.minute == b.minute && a.nanos < b.nanos)))
  {
  }

  /** The end of an open restricted window lies ahead: the last guard of maintenanceWindowDeadline is never taken. */
  lemma FinalGuardIsDead(now: Instant, window: string)
    requires Restricted(window) && MaintenanceWindowAllows(now, window)
    ensures MaintenanceWindowDeadline(now, window).Ok?
  {
    TrimSpaceIdempotent(window);
  }

  /** The queue's deadline exists exactly when the window admits the same instant, for every string and instant;
      otherwise the error tells a malformed window from a closed one. */
  lemma DeadlineIffAllowed(now: Instant, window: string)
    ensures MaintenanceWindowDeadline(now, window).Ok? <==> MaintenanceWindowAllows(now, window)
    ensures MaintenanceWindowDeadline(now, window) == Err(ErrOutsideMaintenanceWindow) <==>
            Restricted(window) && !MaintenanceWindowAllows(now, window)
  {
    TrimSpaceIdempotent(window);
    if Restricted(window) && MaintenanceWindowAllows(now, window) {
      FinalGuardIsDead(now, window);
    }
  }

  /** A deadline is the exact end of the open stretch: every instant from now up to it is allowed, it is not, and it
      is less than 24 hours away even when the window crosses midnight. */
  lemma DeadlineClosesTheWindow(now: Instant, window: string, at: Instant)
    requires Restricted(window) && MaintenanceWindowDeadline(now, window).Ok?
    ensures var end := MaintenanceWindowDeadline(now, window).value;
            && Nanos(now) < Nanos(end) < Nanos(now) + MINUTES_PER_DAY * NANOS_PER_MINUTE
            && !MaintenanceWindowAllows(end, window)
            && (Nanos(now) <= Nanos(at) < Nanos(end) ==> MaintenanceWindowAllows(at, window))
  {
    var end := MaintenanceWindowDeadline(now, window).value;
    DeadlineIffAllowed(now, window);
    LaterMinuteIsLater(now, end);
    LaterMinuteIsLater(at, now);
    LaterMinuteIsLater(at, end);
  }

  /** Unrestricted windows give a 72-hour expiry. */
  lemma UnrestrictedDeadline(now: Instant, window: string)
    requires MaintenanceWindowAllows(now, window) && !Restricted(window)
    ensures MaintenanceWindowDeadline(now, window).Ok?
    ensures Nanos(MaintenanceWindowDeadline(now, window).value) == Nanos(now) + 72 * 60 * NANOS_PER_MINUTE
    ensures forall at: Instant :: MaintenanceWindowAllows(at, window)
  {
  }
}
