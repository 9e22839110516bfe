/** The time window of a build log query. */
module LogWindow {
  import opened Wrappers

  type Time = int

  const LOGS_OLDEST_LIMIT: Time := 7 * 24 * 3600 * 1_000_000_000

  /** Every direction other than forward reads backward. */
  datatype Direction = Forward | Backward

  /** The window asked for: a whole limit from the cursor on, up to the cursor, or up to now. */
  function Wanted(cursor: Option<Time>, direction: Direction, now: Time): (Time, Time) {
    match cursor
    case None => (now - LOGS_OLDEST_LIMIT, now)
    case Some(c) => if direction == Forward then (c, c + LOGS_OLDEST_LIMIT) else (c - LOGS_OLDEST_LIMIT, c)
  }

  ghost predicate Within(t: Time, window: (Time, Time)) {
    window.0 <= t <= window.1
  }

  /**
   The window used is the part of the one asked for that is not older than the limit, and just
   the limit itself if there is no such part.
   */
  ghost predicate Clipped(window: (Time, Time), cursor: Option<Time>, direction: Direction, now: Time) {
    var wanted, oldest := Wanted(cursor, direction, now), now - LOGS_OLDEST_LIMIT;
    forall t :: Within(t, window) <==> if wanted.1 < oldest then t == oldest else Within(t, wanted) && t >= oldest
  }

  method LogQueryWindow(cursor: Option<Time>, direction: Direction, now: Time) returns (start: Time, end: Time)
    ensures Clipped((start, end), cursor, direction, now) && start <= end
  {
    var oldestAllowedStart := now - LOGS_OLDEST_LIMIT;
    start, end := oldestAllowedStart, now;
    if cursor.Some? {
      if direction == Forward {
        start := cursor.value;
        end := start + LOGS_OLDEST_LIMIT;
      } else {
        end := cursor.value;
        start := end - LOGS_OLDEST_LIMIT;
      }
    }
    if start < oldestAllowedStart { start := oldestAllowedStart; }
    if end < oldestAllowedStart { end := oldestAllowedStart; }
    // The last guard never fires.
    assert start <= end;
    if start > end { start := end; }
  }

  /** There is one clipped window, here without further names: seven days from the cursor on, up to it, or up to now, each end moved up to the limit if it is older. It begins no earlier than the limit and is no wider than it. */
  lemma ClippedMeaning(w: (Time, Time), cursor: Option<Time>, direction: Direction, now: Time)
    requires Clipped(w, cursor, direction, now) && w.0 <= w.1
    ensures var week := 604_800_000_000_000;
            var oldest := now - week;
            var (from, to) := match cursor
                              case None => (oldest, now)
                              case Some(c) => if direction == Forward then (c, c + week) else (c - week, c);
            && w == (if from < oldest then oldest else from, if to < oldest then oldest else to)
            && oldest <= w.0 <= w.1 <= w.0 + week
  {
    var wanted, oldest := Wanted(cursor, direction, now), now - LOGS_OLDEST_LIMIT;
    assert Within(w.0, w) && Within(w.1, w);
    assert !Within(w.0 - 1, w) && !Within(w.1 + 1, w);
    assert Within(if wanted.0 < oldest then oldest else wanted.0, w);
    assert Within(if wanted.1 < oldest then oldest else wanted.1, w);
  }

  /** Asking again later with the same cursor moves each end forward, by no more than the time between. */
  lemma LaterWindow(
    cursor: Option<Time>, direction: Direction, now1: Time, w1: (Time, Time), now2: Time, w2: (Time, Time))
    requires now1 <= now2
    requires Clipped(w1, cursor, direction, now1) && w1.0 <= w1.1
    requires Clipped(w2, cursor, direction, now2) && w2.0 <= w2.1
    ensures 0 <= w2.0 - w1.0 <= now2 - now1
    ensures 0 <= w2.1 - w1.1 <= now2 - now1
  {
    ClippedMeaning(w1, cursor, direction, now1);
    ClippedMeaning(w2, cursor, direction, now2);
  }
}
