/**
 * The rotating DPoP nonce (RFC 9449 section 8): a window of three values that is shifted as the
 * clock moves instead of being computed anew, and how long a nonce it hands out is accepted.
 */
module DpopNonce {
  // Durations and clock readings are in nanoseconds.
  const SECOND: int := 1_000_000_000
  const DPOP_NONCE_MAX_AGE: int := 180 * SECOND
  const NONCE_MAX_ROTATION_INTERVAL: int := DPOP_NONCE_MAX_AGE / 3

  /** Integer division as the source language has it: the quotient is rounded toward zero. */
  function TruncDiv(a: int, b: int): int
    requires b != 0
  {
    if a >= 0 then a / b else -((-a) / b)
  }

  /** The rotation interval that is used for the one that was asked for. */
  function Interval(asked: int): (r: int)
    ensures r != 0 && r <= NONCE_MAX_ROTATION_INTERVAL
    ensures asked >= 0 ==> r > 0
    ensures asked < 0 ==> r == asked
  {
    var interval := if asked == 0 then NONCE_MAX_ROTATION_INTERVAL / 3 else asked;
    if interval > NONCE_MAX_ROTATION_INTERVAL then NONCE_MAX_ROTATION_INTERVAL else interval
  }

  /** The HMAC of a counter under the secret, as text. */
  type Compute = int -> string

  datatype Window = Window(counter: int, prev: string, curr: string, next: string)

  /** The window computed directly. */
  function WindowAt(compute: Compute, counter: int): Window {
    Window(counter, compute(counter - 1), compute(counter), compute(counter + 1))
  }

  /** The window shifted to a counter, computing only the values that are not in it yet. */
  function Shift(compute: Compute, w: Window, counter: int): Window {
    var diff := counter - w.counter;
    if diff == 0 then w
    else if diff == 1 then Window(counter, w.curr, w.next, compute(counter + 1))
    else if diff == 2 then Window(counter, w.next, compute(counter), compute(counter + 1))
    else Window(counter, compute(counter - 1), compute(counter), compute(counter + 1))
  }

  /** The window after calls at the given clock readings. */
  function Shifted(compute: Compute, interval: int, w: Window, readings: seq<int>): Window
    requires interval != 0
  {
    if readings == [] then w
    else Shift(compute, Shifted(compute, interval, w, readings[..|readings| - 1]),
               TruncDiv(readings[|readings| - 1], interval))
  }

  /** However the clock moved, forward, backward or by leaps, the shifted window is the computed one. */
  lemma {:induction false} WindowAlwaysComputed(compute: Compute, interval: int, start: int, readings: seq<int>)
    requires interval != 0
    ensures Shifted(compute, interval, WindowAt(compute, TruncDiv(start, interval)), readings)
         == WindowAt(compute, TruncDiv(([start] + readings)[|readings|], interval))
  {
    if readings != [] {
      WindowAlwaysComputed(compute, interval, start, readings[..|readings| - 1]);
    }
  }

  /** What Check answers at clock reading `now`. */
  predicate Accepts(compute: Compute, interval: int, nonce: string, now: int)
    requires interval != 0
  {
    var c := TruncDiv(now, interval);
    exists k | c - 1 <= k <= c + 1 :: nonce == compute(k)
  }

  /** What NextNonce answers at clock reading `now`. */
  function Issued(compute: Compute, interval: int, now: int): string
    requires interval != 0
  {
    compute(TruncDiv(now, interval) + 1)
  }

  ghost predicate Injective(compute: Compute) {
    forall a, b {:trigger compute(a), compute(b)} :: compute(a) == compute(b) ==> a == b
  }

  /** A nonce is accepted in the interval it is issued in and in the two that follow, whatever the clock does. */
  lemma AcceptedIff(compute: Compute, interval: int, issued: int, checked: int)
    requires interval != 0 && Injective(compute)
    ensures Accepts(compute, interval, Issued(compute, interval, issued), checked)
        <==> TruncDiv(issued, interval) <= TruncDiv(checked, interval) <= TruncDiv(issued, interval) + 2
  {
    var c, d := TruncDiv(issued, interval), TruncDiv(checked, interval);
    if c <= d <= c + 2 {
      assert d - 1 <= c + 1 <= d + 1;
    }
  }

  lemma Quotient(t: int, interval: int)
    requires t >= 0 && interval > 0
    ensures TruncDiv(t, interval) * interval <= t < (TruncDiv(t, interval) + 1) * interval
  {
  }

  lemma QuotientBelow(t: int, q: int, interval: int)
    requires t >= 0 && interval > 0
    ensures TruncDiv(t, interval) < q <==> t < q * interval
  {
    var c := TruncDiv(t, interval);
    Quotient(t, interval);
    if c < q {
      TimesMonotone(c + 1, q, interval);
    } else {
      TimesMonotone(q, c, interval);
    }
  }

  lemma TimesMonotone(a: int, b: int, factor: int)
    requires a <= b && factor > 0
    ensures a * factor <= b * factor
  {
    assert (b - a) * factor >= 0;
  }

  /** The instant a nonce dies, and the cap that the clamped interval puts on its life. */
  lemma NonceDies(compute: Compute, asked: int, issued: int, checked: int)
    requires asked >= 0 && Injective(compute) && 0 <= issued <= checked
    ensures
      var interval := Interval(asked);
      var accepted := Accepts(compute, interval, Issued(compute, interval, issued), checked);
      && (accepted <==> checked < (issued / interval + 3) * interval)
      && (checked <= issued + 2 * interval ==> accepted)
      && (checked >= issued + 3 * interval ==> !accepted)
      && (checked >= issued + DPOP_NONCE_MAX_AGE ==> !accepted)
  {
    var interval := Interval(asked);
    var c := TruncDiv(issued, interval);
    AcceptedIff(compute, interval, issued, checked);
    QuotientBelow(checked, c + 3, interval);
    Quotient(issued, interval);
    QuotientBelow(checked, c, interval);
    assert (c + 3) * interval == c * interval + 3 * interval == (c + 1) * interval + 2 * interval;
  }

  /**
   * How long a nonce lives, in nanoseconds: it is accepted for twice the interval that was asked for and
   * rejected after three times, where asking for none counts as 20 s and asking for more than 60 s as 60 s.
   */
  lemma NonceLifetime(compute: Compute, asked: int, issued: int, checked: int)
    requires asked >= 0 && Injective(compute) && 0 <= issued <= checked
    ensures
      var interval := Interval(asked);
      var accepted := Accepts(compute, interval, Issued(compute, interval, issued), checked);
      && (accepted <==> checked < (issued / interval + 3) * interval)
      && (0 < asked <= 60_000_000_000 ==>
            (checked <= issued + 2 * asked ==> accepted) && (checked >= issued + 3 * asked ==> !accepted))
      && (asked == 0 ==>
            (checked <= issued + 40_000_000_000 ==> accepted) && (checked >= issued + 60_000_000_000 ==> !accepted))
      && (asked > 60_000_000_000 ==>
            (checked <= issued + 120_000_000_000 ==> accepted) && (checked >= issued + 180_000_000_000 ==> !accepted))
  {
    NonceDies(compute, asked, issued, checked);
  }

  /** A clock that falls back before the interval of issue makes the nonce unknown. */
  lemma BackwardClockRejects(compute: Compute, interval: int, issued: int, checked: int)
    requires interval > 0 && Injective(compute) && 0 <= checked <= issued
    ensures Accepts(compute, interval, Issued(compute, interval, issued), checked)
        <==> checked >= issued / interval * interval
  {
    var c := TruncDiv(issued, interval);
    AcceptedIff(compute, interval, issued, checked);
    QuotientBelow(checked, c, interval);
    Quotient(issued, interval);
    QuotientBelow(checked, c + 1, interval);
  }

  // ---- the object

  class Nonce {
    const rotationInterval: int
    const compute: Compute

    var counter: int
    var prev: string
    var curr: string
    var next: string

    ghost function State(): Window
      reads this
    {
      Window(counter, prev, curr, next)
    }

    /** The values are those of the counter, whichever call set it. */
    ghost predicate Valid()
      reads this
    {
      rotationInterval != 0 && State() == WindowAt(compute, counter)
    }

    constructor (asked: int, compute: Compute, now: int)
      ensures Valid() && this.compute == compute && rotationInterval == Interval(asked)
      ensures counter == TruncDiv(now, rotationInterval)
    {
      var interval := asked;
      if interval == 0 {
        interval := NONCE_MAX_ROTATION_INTERVAL / 3;
      }
      if interval > NONCE_MAX_ROTATION_INTERVAL {
        interval := NONCE_MAX_ROTATION_INTERVAL;
      }
      rotationInterval := interval;
      this.compute := compute;
      counter := TruncDiv(now, interval);
      prev := compute(TruncDiv(now, interval) - 1);
      curr := compute(TruncDiv(now, interval));
      next := compute(TruncDiv(now, interval) + 1);
    }

    method Rotate(now: int)
      requires Valid()
      modifies this
      ensures Valid() && counter == TruncDiv(now, rotationInterval)
      ensures State() == Shift(compute, old(State()), counter)
    {
      var current := TruncDiv(now, rotationInterval);
      var diff := current - counter;
      if diff == 0 {
      } else if diff == 1 {
        prev := curr;
        curr := next;
        next := compute(current + 1);
      } else if diff == 2 {
        prev := next;
        curr := compute(current);
        next := compute(current + 1);
      } else {
        prev := compute(current - 1);
        curr := compute(current);
        next := compute(current + 1);
      }
      counter := current;
    }

    method NextNonce(now: int) returns (nonce: string)
      requires Valid()
      modifies this
      ensures Valid() && nonce == Issued(compute, rotationInterval, now)
    {
      Rotate(now);
      nonce := next;
    }

    method Check(nonce: string, now: int) returns (ok: bool)
      requires Valid()
      modifies this
      ensures Valid() && ok == Accepts(compute, rotationInterval, nonce, now)
    {
      Rotate(now);
      ok := nonce == prev || nonce == curr || nonce == next;
      assert nonce == prev ==> nonce == compute(counter - 1);
      assert nonce == curr ==> nonce == compute(counter);
    }
  }
}
