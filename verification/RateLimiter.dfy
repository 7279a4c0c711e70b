/**
  The fixed-window limiter every WebSocket message of a connection passes. Times are integers (nanoseconds); a window
  starts at the first message after the previous window is over, and the first limited message ends the connection.
*/
module RateLimiter {
  import opened Common

  /** No start is the zero time of a new connection, further back than any window is long. */
  datatype Window = Window(count: nat, start: Option<int>)

  const FRESH := Window(0, None)

  /** One message at the given time: the new window and whether the message is over the limit. */
  function Tick(w: Window, now: int, limit: nat, length: nat): (r: (Window, bool)) {
    var current := if w.start.None? || now - w.start.value > length then Window(0, Some(now)) else w;
    (current.(count := current.count + 1), current.count + 1 > limit)
  }

  /** The limiter after the first n messages. */
  function After(times: seq<int>, n: nat, limit: nat, length: nat): Window
    requires n <= |times|
  {
    if n == 0 then FRESH else Tick(After(times, n - 1, limit, length), times[n - 1], limit, length).0
  }

  function LimitedAt(times: seq<int>, i: nat, limit: nat, length: nat): bool
    requires i < |times|
  {
    Tick(After(times, i, limit, length), times[i], limit, length).1
  }

  /** The messages of one connection that got through: none of them was over the limit, and clocks do not go back. */
  ghost predicate Accepted(times: seq<int>, limit: nat, length: nat) {
    && (forall i :: 0 <= i < |times| ==> !LimitedAt(times, i, limit, length))
    && (forall i, j :: 0 <= i <= j < |times| ==> times[i] <= times[j])
  }

  class Limiter {
    const limit: nat
    const length: nat
    var eventCount: nat
    var windowStart: Option<int>

    constructor (limit: nat, length: nat)
      ensures this.limit == limit && this.length == length && State() == FRESH
    {
      this.limit, this.length := limit, length;
      eventCount, windowStart := 0, None;
    }

    ghost function State(): Window
      reads this
    {
      Window(eventCount, windowStart)
    }

    method RateLimited(now: int) returns (limited: bool)
      modifies this
      ensures (State(), limited) == Tick(old(State()), now, limit, length)
    {
      if windowStart.None? || now - windowStart.value > length {
        eventCount := 0;
        windowStart := Some(now);
      }
      eventCount := eventCount + 1;
      limited := eventCount > limit;
    }

    /** The read loop of a new connection: messages are handled until the first one over the limit. */
    method ReadPump(times: seq<int>) returns (handled: nat)
      requires State() == FRESH
      modifies this
      ensures handled <= |times|
      ensures forall i :: 0 <= i < handled ==> !LimitedAt(times, i, limit, length)
      ensures handled < |times| ==> LimitedAt(times, handled, limit, length)
    {
      handled := 0;
      while handled < |times|
        invariant handled <= |times|
        invariant State() == After(times, handled, limit, length)
        invariant forall i :: 0 <= i < handled ==> !LimitedAt(times, i, limit, length)
      {
        var limited := RateLimited(times[handled]);
        if limited {
          return;
        }
        handled := handled + 1;
      }
    }
  }

  // ---- Windows ----

  /** The message that opened the window message i falls in. */
  function Opener(times: seq<int>, i: nat, length: nat): (o: nat)
    requires i < |times|
    ensures o <= i
  {
    if i == 0 then 0
    else
      var o := Opener(times, i - 1, length);
      if times[i] - times[o] > length then i else o
  }

  /** How many windows were over before message i. */
  function WindowsBefore(times: seq<int>, i: nat, length: nat): nat
    requires i < |times|
  {
    if i == 0 then 0
    else WindowsBefore(times, i - 1, length) + if Opener(times, i, length) == i then 1 else 0
  }

  /** The limiter counts from the opener; so a window lets at most limit messages through. */
  lemma {:induction false} CountsFromOpener(times: seq<int>, i: nat, limit: nat, length: nat)
    requires i < |times|
    ensures var o := Opener(times, i, length);
            && After(times, i + 1, limit, length) == Window(i - o + 1, Some(times[o]))
            && (LimitedAt(times, i, limit, length) <==> i - o + 1 > limit)
  {
    if i > 0 {
      CountsFromOpener(times, i - 1, limit, length);
    }
  }

  lemma EarlierTime(times: seq<int>, limit: nat, length: nat, i: nat, j: nat)
    requires Accepted(times, limit, length) && i < |times| && j < |times| && times[i] < times[j]
    ensures i < j
  {
  }

  lemma {:induction false} OpenerOpens(times: seq<int>, i: nat, length: nat)
    requires i < |times|
    ensures var o := Opener(times, i, length);
            o > 0 ==> times[o] - times[Opener(times, o - 1, length)] > length
  {
    if i > 0 && Opener(times, i, length) != i {
      OpenerOpens(times, i - 1, length);
    }
  }

  /**
    Messages accepted within any closed interval one window length long: at most 2 * limit - 1. (They are a stretch
    i..j of consecutive messages, times not going back.)
  */
  lemma BurstBound(times: seq<int>, limit: nat, length: nat, i: nat, j: nat)
    requires Accepted(times, limit, length)
    requires i <= j < |times| && times[j] - times[i] <= length
    ensures j - i + 1 <= 2 * limit - 1
  {
    var o := Opener(times, j, length);
    CountsFromOpener(times, j, limit, length);
    if o > i {
      OpenerOpens(times, j, length);
      var p := Opener(times, o - 1, length);
      assert times[o] <= times[j];
      EarlierTime(times, limit, length, p, i);
      CountsFromOpener(times, o - 1, limit, length);
    }
  }

  /** limit - 1 messages at the end of one window, limit at the start of the next. */
  function Burst(limit: nat, length: nat): seq<int>
    requires limit >= 1
  {
    seq(2 * limit, k => if k == 0 then 0 else if k < limit then length else length + 1)
  }

  lemma {:induction false} BurstOpeners(limit: nat, length: nat, i: nat)
    requires limit >= 1 && i < 2 * limit
    ensures Opener(Burst(limit, length), i, length) == if i < limit then 0 else limit
  {
    if i > 0 {
      BurstOpeners(limit, length, i - 1);
    }
  }

  /** Messages 1 to 2 * limit - 1 meet the bound, for every limit and window length; so "limit per window" is not a bound on every interval. */
  lemma BurstBoundIsTight(limit: nat, length: nat)
    requires limit >= 1 && length >= 1
    ensures var times := Burst(limit, length);
            && Accepted(times, limit, length)
            && times[2 * limit - 1] - times[1] <= length
  {
    var times := Burst(limit, length);
    forall i | 0 <= i < |times| ensures !LimitedAt(times, i, limit, length) {
      BurstOpeners(limit, length, i);
      CountsFromOpener(times, i, limit, length);
    }
  }

  lemma {:induction false} NearOpener(times: seq<int>, i: nat, length: nat)
    requires i < |times|
    ensures times[i] - times[Opener(times, i, length)] <= length
  {
    if i > 0 {
      NearOpener(times, i - 1, length);
    }
  }

  /** Every interval of one window length has at most limit accepted messages. */
  ghost predicate LimitPerInterval(limit: nat, length: nat) {
    forall times, i, j :: Accepted(times, limit, length) && 0 <= i <= j < |times| && times[j] - times[i] <= length ==>
      j - i + 1 <= limit
  }

  /** With a window of no length, messages of one instant are messages of one window. */
  lemma NoLengthHolds(times: seq<int>, limit: nat, i: nat, j: nat)
    requires Accepted(times, limit, 0) && i <= j < |times| && times[j] - times[i] <= 0
    ensures j - i + 1 <= limit
  {
    var o := Opener(times, j, 0);
    CountsFromOpener(times, j, limit, 0);
    assert !LimitedAt(times, j, limit, 0);
    if o > i {
      OpenerOpens(times, j, 0);
      NearOpener(times, o - 1, 0);
    }
  }

  /**
    The limit holds for every interval, and not only for the windows the limiter opens, if and only if it is at most one
    message or the window has no length.
  */
  lemma LimitPerIntervalIff(limit: nat, length: nat)
    ensures LimitPerInterval(limit, length) <==> limit <= 1 || length == 0
  {
    if limit > 1 && length > 0 {
      var times := Burst(limit, length);
      BurstBoundIsTight(limit, length);
      assert times[2 * limit - 1] - times[1] <= length;
    } else {
      forall times, i, j | Accepted(times, limit, length) && 0 <= i <= j < |times| && times[j] - times[i] <= length
        ensures j - i + 1 <= limit
      {
        if length == 0 {
          NoLengthHolds(times, limit, i, j);
        } else {
          BurstBound(times, limit, length, i, j);
          CountsFromOpener(times, j, limit, length);
          assert !LimitedAt(times, j, limit, length);
        }
      }
    }
  }

  // ---- Whole runs ----

  lemma ProductGrows(a: nat, b: nat, c: nat)
    requires a <= b
    ensures a * c <= b * c
  {
  }

  lemma QuotientAtLeast(w: nat, d: nat, t: nat)
    requires d > 0 && w * d <= t
    ensures w <= t / d
  {
    if t / d < w {
      ProductGrows(t / d + 1, w, d);
    }
  }

  /** What is kept from one message to the next, in numbers: w windows of length d behind, each of at most n messages. */
  lemma WindowOver(w: nat, d: nat, n: nat, a: int, b: int, o: nat, i: nat)
    requires w * d <= a && a + d <= b && o <= w * n && i - o <= n
    ensures (w + 1) * d <= b && i <= (w + 1) * n
  {
    assert (w + 1) * d == w * d + d;
    assert (w + 1) * n == w * n + n;
  }

  lemma {:induction false} WindowsTakeTime(times: seq<int>, i: nat, limit: nat, length: nat)
    requires Accepted(times, limit, length) && i < |times|
    ensures var w, o := WindowsBefore(times, i, length), Opener(times, i, length);
            w * (length + 1) <= times[o] - times[0] && o <= w * limit
  {
    if i > 0 {
      WindowsTakeTime(times, i - 1, limit, length);
      var w, o := WindowsBefore(times, i - 1, length), Opener(times, i - 1, length);
      if Opener(times, i, length) == i {
        CountsFromOpener(times, i - 1, limit, length);
        assert !LimitedAt(times, i - 1, limit, length);
        WindowOver(w, length + 1, limit, times[o] - times[0], times[i] - times[0], o, i);
      }
    }
  }

  /** A run of length T lets at most limit * (T / (length + 1) + 1) messages through. */
  lemma RunBound(times: seq<int>, limit: nat, length: nat)
    requires Accepted(times, limit, length) && times != []
    ensures times[0] <= times[|times| - 1]
    ensures var t := times[|times| - 1] - times[0];
            |times| <= (t / (length + 1) + 1) * limit
  {
    var last := |times| - 1;
    var w, o := WindowsBefore(times, last, length), Opener(times, last, length);
    WindowsTakeTime(times, last, limit, length);
    CountsFromOpener(times, last, limit, length);
    assert !LimitedAt(times, last, limit, length);
    assert (w + 1) * limit == w * limit + limit;
    var t := times[last] - times[0];
    QuotientAtLeast(w, length + 1, t);
    ProductGrows(w + 1, t / (length + 1) + 1, limit);
  }
}
