/** `RateLimiter.wait_if_needed` of scripts/research-contact-enrichment.py.
    The clock is the explicit parameter `now` (what `time.time()` returned on
    entry); the sleeps become the waits the call reports. */
module RateLimiter {

  const MinuteWindow: real := 60.0
  const HourWindow: real := 3600.0

  /** The limiter's caps and the request times it remembers, oldest first. */
  datatype Limiter = Limiter(
    requestsPerMinute: int,
    requestsPerHour: int,
    minuteRequests: seq<real>,
    hourRequests: seq<real>)

  /** A limiter as constructed: the default caps are 30 and 500. */
  function NewLimiter(perMinute: int, perHour: int): (l: Limiter)
    ensures l.minuteRequests == [] && l.hourRequests == []
  {
    Limiter(perMinute, perHour, [], [])
  }

  /** The result of one call: the updated limiter and the two sleeps, each
      0 when none was taken; or the `ValueError` of `min([])`, raised when a
      cap is 0 or negative and its list is empty. */
  datatype Outcome =
    | Proceeded(limiter: Limiter, minuteWait: real, hourWait: real)
    | MinOfEmptyList

  /** The times that are still inside the window that ends at `now`. */
  function Prune(times: seq<real>, now: real, window: real): (r: seq<real>)
    ensures |r| <= |times|
    ensures forall t :: t in r <==> t in times && now - t < window
  {
    if |times| == 0 then []
    else if now - times[0] < window then [times[0]] + Prune(times[1..], now, window)
    else Prune(times[1..], now, window)
  }

  /** The smallest time of a non-empty list. */
  function Oldest(times: seq<real>): (m: real)
    requires |times| > 0
    ensures m in times
    ensures forall t :: t in times ==> m <= t
  {
    if |times| == 1 then times[0]
    else
      var rest := Oldest(times[1..]);
      assert forall t :: t in times ==> t == times[0] || t in times[1..];
      if times[0] <= rest then times[0] else rest
  }

  /** The sleep a window asks for: none below the cap, otherwise the time until
      the oldest remembered request leaves the window, when that is positive. */
  function WindowWait(times: seq<real>, cap: int, now: real, window: real): (w: real)
    requires |times| > 0 || cap > 0
    ensures w >= 0.0
  {
    if |times| < cap then 0.0
    else
      var wait := window - (now - Oldest(times));
      if wait > 0.0 then wait else 0.0
  }

  /** `wait_if_needed` */
  function WaitIfNeeded(l: Limiter, now: real): (o: Outcome)
    ensures o.Proceeded? ==> o.limiter.requestsPerMinute == l.requestsPerMinute
                             && o.limiter.requestsPerHour == l.requestsPerHour
    ensures o.MinOfEmptyList? <==>
              (l.requestsPerMinute <= 0 && Prune(l.minuteRequests, now, MinuteWindow) == [])
              || (l.requestsPerHour <= 0 && Prune(l.hourRequests, now, HourWindow) == [])
  {
    var minute := Prune(l.minuteRequests, now, MinuteWindow);
    var hour := Prune(l.hourRequests, now, HourWindow);
    if |minute| == 0 && l.requestsPerMinute <= 0 then MinOfEmptyList
    else if |hour| == 0 && l.requestsPerHour <= 0 then MinOfEmptyList
    else
      Proceeded(l.(minuteRequests := minute + [now], hourRequests := hour + [now]),
                WindowWait(minute, l.requestsPerMinute, now, MinuteWindow),
                WindowWait(hour, l.requestsPerHour, now, HourWindow))
  }

  // ---------------------------------------------------------------------------
  // Properties
  // ---------------------------------------------------------------------------

  /** After the call every remembered time is the new `now` or inside its
      window, and the one added time is the `now` read before any sleep. */
  lemma RecordsPreWaitNow(l: Limiter, now: real)
    requires WaitIfNeeded(l, now).Proceeded?
    ensures var n := WaitIfNeeded(l, now).limiter;
      |n.minuteRequests| > 0 && n.minuteRequests[|n.minuteRequests| - 1] == now
      && |n.hourRequests| > 0 && n.hourRequests[|n.hourRequests| - 1] == now
      && (forall t :: t in n.minuteRequests ==> now - t < MinuteWindow)
      && (forall t :: t in n.hourRequests ==> now - t < HourWindow)
  {
  }

  /** Apart from the one time appended, a remembered time is kept exactly when
      it is inside its window: nothing else is dropped or added. */
  lemma OnlyPruningRemoves(l: Limiter, now: real)
    requires WaitIfNeeded(l, now).Proceeded?
    ensures var n := WaitIfNeeded(l, now).limiter;
      n.minuteRequests[..|n.minuteRequests| - 1] == Prune(l.minuteRequests, now, MinuteWindow)
      && n.hourRequests[..|n.hourRequests| - 1] == Prune(l.hourRequests, now, HourWindow)
      && |n.minuteRequests| <= |l.minuteRequests| + 1
      && |n.hourRequests| <= |l.hourRequests| + 1
  {
    var n := WaitIfNeeded(l, now).limiter;
    assert n.minuteRequests[..|n.minuteRequests| - 1] == Prune(l.minuteRequests, now, MinuteWindow);
    assert n.hourRequests[..|n.hourRequests| - 1] == Prune(l.hourRequests, now, HourWindow);
  }

  /** A sleep is requested exactly when a window is at its cap and its oldest
      request has not yet left it; it never exceeds the window as long as no
      remembered time lies in the future. */
  lemma {:induction false} WaitBounds(times: seq<real>, cap: int, now: real, window: real)
    requires |times| > 0 || cap > 0
    requires window > 0.0
    requires forall t :: t in times ==> now - t < window
    ensures WindowWait(times, cap, now, window) > 0.0 <==> |times| >= cap
    ensures (forall t :: t in times ==> t <= now) ==> WindowWait(times, cap, now, window) <= window
  {
    if |times| >= cap {
      var m := Oldest(times);
      assert m in times && now - m < window;
    }
  }

  /** Both reported sleeps lie in (0, window] when the window is at its cap
      and are 0 below it, for a clock that never runs backwards. */
  lemma WaitIfNeededWaits(l: Limiter, now: real)
    requires WaitIfNeeded(l, now).Proceeded?
    requires forall t :: t in l.minuteRequests ==> t <= now
    requires forall t :: t in l.hourRequests ==> t <= now
    ensures var o := WaitIfNeeded(l, now);
      (o.minuteWait > 0.0 <==> |Prune(l.minuteRequests, now, MinuteWindow)| >= l.requestsPerMinute)
      && o.minuteWait <= MinuteWindow
      && (o.hourWait > 0.0 <==> |Prune(l.hourRequests, now, HourWindow)| >= l.requestsPerHour)
      && o.hourWait <= HourWindow
  {
    WaitBounds(Prune(l.minuteRequests, now, MinuteWindow), l.requestsPerMinute, now, MinuteWindow);
    WaitBounds(Prune(l.hourRequests, now, HourWindow), l.requestsPerHour, now, HourWindow);
  }

  /** No remembered time lies after the clock reading. */
  predicate NotAhead(l: Limiter, now: real) {
    (forall t :: t in l.minuteRequests ==> t <= now) && (forall t :: t in l.hourRequests ==> t <= now)
  }

  /** With a clock that never runs backwards, no remembered time ever lies in
      the future, so every later call's sleeps stay within their windows. */
  lemma NotAheadPreserved(l: Limiter, now: real, later: real)
    requires NotAhead(l, now) && now <= later
    requires WaitIfNeeded(l, now).Proceeded?
    ensures NotAhead(WaitIfNeeded(l, now).limiter, later)
  {
  }

  /** With positive caps the call always proceeds. */
  lemma PositiveCapsProceed(l: Limiter, now: real)
    requires l.requestsPerMinute > 0 && l.requestsPerHour > 0
    ensures WaitIfNeeded(l, now).Proceeded?
  {
  }
}
