/**
 * The estimate shown on each gauge at a tick. While less than one window
 * has elapsed since the page opened (bootstrap), a channel's whole buffer
 * is scaled by the elapsed time; afterwards (steady) the buffer is pruned
 * to the last window and its length is scaled by a fixed factor. The shown
 * value is the smaller of the estimate and the gauge's ceiling.
 */
module Estimator {
  import opened Channels
  import opened Window

  /** The numbers a JavaScript division of a count by the elapsed time can
      produce: a finite value, or, when the elapsed time is zero, +Infinity
      for a positive count and NaN for a zero one. */
  datatype Number = Finite(value: real) | Infinity | NaN

  /** Scale of the bootstrap estimate: 1 for per-minute channels, 60 for
      per-second ones. */
  function BootstrapScale(perMinute: bool): real
  {
    if perMinute then 1.0 else 60.0
  }

  /** Scale of the steady estimate: 1 for per-minute channels, 1/60 for
      per-second ones. */
  function SteadyScale(perMinute: bool): real
  {
    if perMinute then 1.0 else 1.0 / 60.0
  }

  /** JavaScript `x / y` for a non-negative numerator. */
  function Quotient(x: real, y: real): (q: Number)
    requires x >= 0.0
    ensures y != 0.0 ==> q.Finite? && q.value * y == x
    ensures y == 0.0 ==> (q == Infinity <==> x > 0.0) && (q == NaN <==> x == 0.0)
  {
    if y != 0.0 then Finite(x / y) else if x > 0.0 then Infinity else NaN
  }

  /** JavaScript `Math.min(n, max)`. */
  function AtMost(n: Number, max: real): (r: Number)
    ensures n.Finite? ==> r.Finite? && r.value <= max && r.value <= n.value
    ensures n.Finite? ==> r.value == n.value || r.value == max
    ensures n == Infinity ==> r == Finite(max)
    ensures n == NaN ==> r == NaN
  {
    match n
    case Finite(v) => Finite(if v <= max then v else max)
    case Infinity => Finite(max)
    case NaN => NaN
  }

  /** The channel after a tick: untouched in bootstrap, pruned to the last
      window in steady phase. */
  function Advance(ch: Channel, now: real, elapsed: real): (r: Channel)
    ensures r.perMinute == ch.perMinute && r.max == ch.max
    ensures |r.buffer| <= |ch.buffer|
    ensures forall i :: 0 <= i < |r.buffer| && elapsed >= Period ==> r.buffer[i] > now - Period
  {
    if elapsed < Period then ch else ch.(buffer := Prune(ch.buffer, now - Period))
  }

  /** The channel's estimate at a tick (before the ceiling is applied). */
  function Estimate(ch: Channel, now: real, elapsed: real): Number
  {
    var count := |Advance(ch, now, elapsed).buffer| as real;
    if elapsed < Period then Quotient(count * BootstrapScale(ch.perMinute), elapsed)
    else Finite(count * SteadyScale(ch.perMinute))
  }

  /** The value the channel's gauge shows at a tick. Once the page has been
      open for a positive time, it is a finite value between zero and the
      ceiling (for a channel with a non-negative ceiling). */
  function Displayed(ch: Channel, now: real, elapsed: real): (d: Number)
    ensures elapsed > 0.0 && ch.max >= 0.0 ==> d.Finite? && 0.0 <= d.value <= ch.max
  {
    AtMost(Estimate(ch, now, elapsed), ch.max)
  }

  /** Every channel after a tick. */
  function AdvanceAll(chs: map<string, Channel>, now: real, elapsed: real): (r: map<string, Channel>)
    ensures r.Keys == chs.Keys
  {
    map id | id in chs :: Advance(chs[id], now, elapsed)
  }

  /** The values every gauge shows at a tick. */
  function DisplayAll(chs: map<string, Channel>, now: real, elapsed: real): (r: map<string, Number>)
    ensures r.Keys == chs.Keys
  {
    map id | id in chs :: Displayed(chs[id], now, elapsed)
  }

  /** What the estimate means: it is a number unless no time has elapsed,
      and not negative once time has elapsed. In bootstrap, the estimate
      times the elapsed time is the buffer's length times 1 (per-minute) or
      60 (per-second); in steady phase, the estimate times 1 (per-minute) or
      60 (per-second) is the number of timestamps later than `now - 60`. */
  lemma EstimateScales(ch: Channel, now: real, elapsed: real)
    ensures var n := Estimate(ch, now, elapsed);
      && (elapsed != 0.0 ==> n.Finite?)
      && (elapsed > 0.0 ==> n.value >= 0.0)
      && (elapsed != 0.0 && elapsed < Period ==>
           n.value * elapsed == |ch.buffer| as real * (if ch.perMinute then 1.0 else 60.0))
      && (elapsed >= Period ==>
           n.value * (if ch.perMinute then 1.0 else 60.0) == |Prune(ch.buffer, now - Period)| as real)
  {
  }

  /** Bootstrap: the buffer is kept whole and the estimate is its length
      times the bootstrap scale, divided by the elapsed time. */
  lemma BootstrapEstimate(ch: Channel, now: real, elapsed: real)
    requires elapsed != 0.0 && elapsed < Period
    ensures Advance(ch, now, elapsed) == ch
    ensures Estimate(ch, now, elapsed) ==
      Finite(|ch.buffer| as real * (if ch.perMinute then 1.0 else 60.0) / elapsed)
  {
  }

  /** Steady phase: the estimate is the number of timestamps later than
      `now - 60`, as is for per-minute channels and divided by 60 for
      per-second ones; it depends on nothing but that count. */
  lemma SteadyEstimate(ch: Channel, now: real, elapsed: real)
    requires elapsed >= Period
    ensures var survivors := Advance(ch, now, elapsed).buffer;
            survivors == Prune(ch.buffer, now - Period) &&
            Estimate(ch, now, elapsed) ==
              Finite(if ch.perMinute then |survivors| as real else |survivors| as real / 60.0)
  {
  }

  /** The shown value is the estimate when it is within the ceiling and the
      ceiling otherwise, for any positive elapsed time. */
  lemma DisplayedIsClampedEstimate(ch: Channel, now: real, elapsed: real)
    requires elapsed > 0.0
    ensures Estimate(ch, now, elapsed).Finite? && Estimate(ch, now, elapsed).value >= 0.0
    ensures var v := Estimate(ch, now, elapsed).value;
            Displayed(ch, now, elapsed) == Finite(if v <= ch.max then v else ch.max)
  {
  }

  /** At the very start of the page (no time elapsed) a gauge with edits in
      its buffer shows its ceiling and one without shows NaN. */
  lemma DisplayedAtStart(ch: Channel, now: real)
    ensures Displayed(ch, now, 0.0) == if ch.buffer == [] then NaN else Finite(ch.max)
  {
  }

  /** Were the clock to put a tick before the page's opening time, a gauge
      with edits in its buffer would show a negative value and one with an
      empty buffer would show zero. */
  lemma DisplayedBeforeStart(ch: Channel, now: real, elapsed: real)
    requires elapsed < 0.0 && ch.max >= 0.0
    ensures Displayed(ch, now, elapsed).Finite?
    ensures ch.buffer != [] ==> Displayed(ch, now, elapsed).value < 0.0
    ensures ch.buffer == [] ==> Displayed(ch, now, elapsed).value == 0.0
  {
    EstimateScales(ch, now, elapsed);
    var e := Estimate(ch, now, elapsed).value;
    if ch.buffer != [] {
      assert e * elapsed > 0.0;
      assert e < 0.0;
    } else {
      assert e * elapsed == 0.0;
      assert e == 0.0;
    }
  }

  /** A bootstrap tick leaves every buffer as it was. */
  lemma BootstrapKeepsBuffers(chs: map<string, Channel>, now: real, elapsed: real)
    requires elapsed < Period
    ensures AdvanceAll(chs, now, elapsed) == chs
  {
  }

  /** After a steady tick every buffer holds exactly its timestamps later
      than `now - 60`, in arrival order, and is no longer than before. */
  lemma SteadyTickWindows(chs: map<string, Channel>, now: real, elapsed: real, id: string)
    requires elapsed >= Period && id in chs
    ensures var b := AdvanceAll(chs, now, elapsed)[id].buffer;
            |b| <= |chs[id].buffer| &&
            (forall i :: 0 <= i < |b| ==> b[i] > now - Period) &&
            (forall x :: multiset(b)[x] == if x > now - Period then multiset(chs[id].buffer)[x] else 0) &&
            IsSubsequence(b, chs[id].buffer)
  {
    PruneKeepsExactlyLater(chs[id].buffer, now - Period);
    PruneIsSubsequence(chs[id].buffer, now - Period);
  }

  /** A second tick at the same instant leaves the buffers as the first
      one left them. */
  lemma TickIdempotent(chs: map<string, Channel>, now: real, elapsed: real)
    ensures AdvanceAll(AdvanceAll(chs, now, elapsed), now, elapsed) == AdvanceAll(chs, now, elapsed)
  {
    forall id | id in chs
      ensures AdvanceAll(AdvanceAll(chs, now, elapsed), now, elapsed)[id] == AdvanceAll(chs, now, elapsed)[id]
    {
      PruneIdempotent(chs[id].buffer, now - Period);
    }
  }

  /** Two steady ticks, the second no earlier than the first, leave the
      buffers as the second tick alone would have. */
  lemma TicksSlide(chs: map<string, Channel>, now1: real, elapsed1: real, now2: real, elapsed2: real)
    requires Period <= elapsed1 && Period <= elapsed2 && now1 <= now2
    ensures AdvanceAll(AdvanceAll(chs, now1, elapsed1), now2, elapsed2) == AdvanceAll(chs, now2, elapsed2)
  {
    forall id | id in chs
      ensures AdvanceAll(AdvanceAll(chs, now1, elapsed1), now2, elapsed2)[id] == AdvanceAll(chs, now2, elapsed2)[id]
    {
      PruneSlides(chs[id].buffer, now1 - Period, now2 - Period);
    }
  }

  /** On a consistent registry, once the page has been open for a positive
      time, every gauge shows a finite value between zero and its ceiling:
      at most 600 edits/min for per-minute channels, 10 edits/sec otherwise. */
  lemma DisplayBounded(chs: map<string, Channel>, now: real, elapsed: real)
    requires Consistent(chs) && elapsed > 0.0
    ensures forall id :: id in chs ==>
      DisplayAll(chs, now, elapsed)[id].Finite? &&
      0.0 <= DisplayAll(chs, now, elapsed)[id].value <= (if id in PerMinuteWikis then 600.0 else 10.0)
  {
  }

  /** A per-second channel whose buffer holds only the last window's
      timestamps shows a steady estimate of its length over 60: thirty
      recent edits show 0.5 edits/sec. */
  lemma SteadyPerSecondScenario(ch: Channel, now: real, elapsed: real)
    requires elapsed >= Period && !ch.perMinute && ch.max == PerSecondCeiling
    requires |ch.buffer| == 30 && forall i :: 0 <= i < |ch.buffer| ==> ch.buffer[i] > now - Period
    ensures Displayed(ch, now, elapsed) == Finite(0.5)
  {
    PruneKeepsRecent(ch.buffer, now - Period);
  }

  /** Three edits at seconds 1, 2 and 3 of a per-second channel, read at
      second 3: the bootstrap scale of 60 gives an estimate of 60, which the
      gauge caps at its ceiling of 10. */
  lemma BootstrapPerSecondScenario()
    ensures Estimate(Fresh("bnwiki").(buffer := [1.0, 2.0, 3.0]), 3.0, 3.0) == Finite(60.0)
    ensures Displayed(Fresh("bnwiki").(buffer := [1.0, 2.0, 3.0]), 3.0, 3.0) == Finite(10.0)
  {
  }
}
