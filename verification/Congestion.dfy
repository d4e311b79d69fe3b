/** The Reno-style congestion controller and its RTT estimator. */
module Congestion {
  import opened Numbers

  const WINDOW_SIZE := 65535
  const INT_MAX := 0x7FFF_FFFF

  function Distance(a: int, b: int): (d: nat) {
    if a < b then b - a else a - b
  }

  /** The fields of a controller. */
  datatype Window = Window(cwnd: int, ssthresh: int, bytesInFlight: int,
                           smoothedRtt: int, rttVar: int, rto: int, rttInitialized: bool)

  datatype Event =
    | Send(bytes: nat)
    | Ack(ackedBytes: nat)
    | Rtt(measured: nat)
    | Timeout
    | TripleDuplicateAck
    | Reset

  function Initial(mss: nat): (w: Window) {
    Window(2 * mss, 65535, 0, 0, 0, 3000, false)
  }

  /** The window advertised to the client. */
  function Advertised(w: Window): (s: int) {
    Min(w.cwnd, WINDOW_SIZE)
  }

  /** What each operation does to the fields; the window divides only after it is known to be positive. */
  function Step(mss: nat, w: Window, e: Event): (w': Window)
    requires w.cwnd > 0
  {
    match e
    case Send(bytes) => w.(bytesInFlight := w.bytesInFlight + bytes)
    case Ack(acked) =>
      w.(bytesInFlight := Max(0, w.bytesInFlight - acked),
         cwnd := w.cwnd + (if w.cwnd < w.ssthresh then Min(acked, mss) else Max(1, Growth(mss, w.cwnd))))
    case Rtt(r) =>
      var srtt := if w.rttInitialized then (7 * w.smoothedRtt + r) / 8 else r;
      var variance := if w.rttInitialized then (3 * w.rttVar + Distance(w.smoothedRtt, r)) / 4 else r / 2;
      w.(smoothedRtt := srtt, rttVar := variance, rttInitialized := true,
         rto := Min(Max(srtt + Max(1, 4 * variance), 200), 60000))
    case Timeout =>
      w.(ssthresh := Max(w.cwnd / 2, 2 * mss), cwnd := mss, bytesInFlight := 0, rto := Min(w.rto * 2, 60000))
    case TripleDuplicateAck =>
      var ssthresh := Max(w.cwnd / 2, 2 * mss);
      w.(ssthresh := ssthresh, cwnd := ssthresh + 3 * mss)
    case Reset => Initial(mss)
  }

  class CongestionController {
    const mss: nat
    var cwnd: int
    var ssthresh: int
    var bytesInFlight: int
    var smoothedRtt: int
    var rttVar: int
    var rto: int
    var rttInitialized: bool

    function View(): (w: Window)
      reads this
    {
      Window(cwnd, ssthresh, bytesInFlight, smoothedRtt, rttVar, rto, rttInitialized)
    }

    constructor (mss: nat)
      ensures this.mss == mss && View() == Initial(mss) == Window(2 * mss, 65535, 0, 0, 0, 3000, false)
    {
      this.mss := mss;
      cwnd, ssthresh, bytesInFlight := 2 * mss, 65535, 0;
      smoothedRtt, rttVar, rto, rttInitialized := 0, 0, 3000, false;
    }

    /** The window to advertise, no more than its header field can hold. */
    function GetWindowSize(): (s: int)
      reads this
      ensures s == Advertised(View()) && s <= cwnd && s <= 65535 && (s == cwnd || s == 65535)
    {
      Min(cwnd, WINDOW_SIZE)
    }

    predicate CanSend(bytes: nat)
      reads this
    {
      bytesInFlight + bytes <= cwnd
    }

    method OnSend(bytes: nat)
      requires cwnd > 0
      modifies this
      ensures View() == Step(mss, old(View()), Send(bytes))
      ensures old(CanSend(bytes)) ==> bytesInFlight <= cwnd
    {
      bytesInFlight := bytesInFlight + bytes;
    }

    method OnAck(ackedBytes: nat)
      requires cwnd > 0
      modifies this
      ensures View() == Step(mss, old(View()), Ack(ackedBytes))
    {
      bytesInFlight := Max(0, bytesInFlight - ackedBytes);
      if cwnd < ssthresh {
        cwnd := cwnd + Min(ackedBytes, mss);
      } else {
        cwnd := cwnd + Max(1, Growth(mss, cwnd));
      }
    }

    method UpdateRtt(measuredRtt: nat)
      requires cwnd > 0
      modifies this
      ensures View() == Step(mss, old(View()), Rtt(measuredRtt))
    {
      if !rttInitialized {
        smoothedRtt := measuredRtt;
        rttVar := measuredRtt / 2;
        rttInitialized := true;
      } else {
        rttVar := (3 * rttVar + Distance(smoothedRtt, measuredRtt)) / 4;
        smoothedRtt := (7 * smoothedRtt + measuredRtt) / 8;
      }
      rto := smoothedRtt + Max(1, 4 * rttVar);
      rto := Min(Max(rto, 200), 60000);
    }

    method OnTimeout()
      requires cwnd > 0
      modifies this
      ensures View() == Step(mss, old(View()), Timeout)
    {
      ssthresh := Max(cwnd / 2, 2 * mss);
      cwnd := mss;
      bytesInFlight := 0;
      rto := Min(rto * 2, 60000);
    }

    method OnTripleDuplicateAck()
      requires cwnd > 0
      modifies this
      ensures View() == Step(mss, old(View()), TripleDuplicateAck)
    {
      ssthresh := Max(cwnd / 2, 2 * mss);
      cwnd := ssthresh + 3 * mss;
    }

    method DoReset()
      requires cwnd > 0
      modifies this
      ensures View() == Step(mss, old(View()), Reset) == Window(2 * mss, 65535, 0, 0, 0, 3000, false)
    {
      cwnd, ssthresh, bytesInFlight := 2 * mss, 65535, 0;
      smoothedRtt, rttVar, rto := 0, 0, 3000;
      rttInitialized := false;
    }
  }

  // ----------------------------------------------------------- whole runs

  /** The bounds of section 3.1 of RFC 5681 and section 2 of RFC 6298 that the controller is to keep. */
  predicate Bounded(mss: nat, w: Window) {
    && mss <= w.cwnd && 2 * mss <= w.ssthresh && 0 <= w.bytesInFlight
    && 200 <= w.rto <= 60000
    && 0 <= w.smoothedRtt && 0 <= w.rttVar
  }

  lemma StepKeepsPositive(mss: nat, w: Window, e: Event)
    requires mss >= 1 && w.cwnd > 0
    ensures Step(mss, w, e).cwnd > 0
  {
  }

  /** The fields after a run of events, the last event last. */
  function Run(mss: nat, w: Window, events: seq<Event>): (w': Window)
    requires mss >= 1 && w.cwnd > 0
    ensures w'.cwnd > 0
  {
    if events == [] then w
    else
      var before := Run(mss, w, events[..|events| - 1]);
      StepKeepsPositive(mss, before, events[|events| - 1]);
      Step(mss, before, events[|events| - 1])
  }

  /** The growth of one ACK in congestion avoidance. */
  function Growth(mss: nat, cwnd: int): (g: int)
    requires cwnd > 0
  {
    mss * mss / cwnd
  }

  lemma MulMonotone(a: nat, b: nat, c: nat)
    requires a <= b
    ensures a * c <= b * c
  {
    assert b * c == a * c + (b - a) * c;
  }

  /** A quotient is at most any factor that reaches the dividend. */
  lemma DivBound(n: nat, d: nat, q: nat)
    requires d > 0 && n <= q * d
    ensures n / d <= q
  {
    var k := n / d;
    if k > q {
      MulMonotone(q + 1, k, d);
    }
  }

  lemma AvoidanceGrowth(mss: nat, cwnd: nat)
    requires 1 <= mss <= cwnd
    ensures 0 <= Growth(mss, cwnd) <= mss
  {
    MulMonotone(mss, cwnd, mss);
    DivBound(mss * mss, cwnd, mss);
  }

  lemma StepKeepsBounds(mss: nat, w: Window, e: Event)
    requires 1 <= mss <= 32767 && Bounded(mss, w)
    ensures Bounded(mss, Step(mss, w, e))
    ensures Step(mss, w, e).cwnd <= w.cwnd + 4 * mss
  {
    if e.Ack? {
      AvoidanceGrowth(mss, w.cwnd);
    }
  }

  lemma MulStep(n: nat, a: nat)
    ensures (n + 1) * a == n * a + a
  {
  }

  lemma {:induction false} RunKeepsBounds(mss: nat, events: seq<Event>)
    requires 1 <= mss <= 32767
    ensures Bounded(mss, Run(mss, Initial(mss), events))
    ensures Run(mss, Initial(mss), events).cwnd <= 2 * mss + |events| * (4 * mss)
  {
    if events != [] {
      var front := events[..|events| - 1];
      RunKeepsBounds(mss, front);
      StepKeepsBounds(mss, Run(mss, Initial(mss), front), events[|events| - 1]);
      MulStep(|front|, 4 * mss);
    }
  }

  /** Every run keeps the bounds exactly for the segment sizes up to 32767 octets. */
  lemma BoundsHoldExactly(mss: nat)
    requires mss >= 1
    ensures (forall events :: Bounded(mss, Run(mss, Initial(mss), events))) <==> mss <= 32767
  {
    if mss <= 32767 {
      forall events
        ensures Bounded(mss, Run(mss, Initial(mss), events))
      {
        RunKeepsBounds(mss, events);
      }
    } else {
      assert !Bounded(mss, Run(mss, Initial(mss), []));
    }
  }

  /** The 32-bit window never overflows in a run of moderate length. */
  lemma WindowFitsInt(mss: nat, events: seq<Event>)
    requires 1 <= mss <= 32767 && 2 * mss + |events| * (4 * mss) <= INT_MAX
    ensures 0 < Run(mss, Initial(mss), events).cwnd <= INT_MAX
  {
    RunKeepsBounds(mss, events);
  }

  /** All octets a run sends. */
  function SentOctets(events: seq<Event>): (n: nat) {
    if events == [] then 0
    else
      var last := events[|events| - 1];
      SentOctets(events[..|events| - 1]) + (if last.Send? then last.bytes else 0)
  }

  lemma {:induction false} FlightWithinSent(mss: nat, events: seq<Event>)
    requires 1 <= mss <= 32767
    ensures Run(mss, Initial(mss), events).bytesInFlight <= SentOctets(events)
  {
    if events != [] {
      FlightWithinSent(mss, events[..|events| - 1]);
    }
  }

  lemma {:induction false} ThresholdWithin(mss: nat, events: seq<Event>)
    requires 1 <= mss <= 32767
    ensures Run(mss, Initial(mss), events).ssthresh <= Max(65535, 2 * mss + |events| * (4 * mss))
  {
    if events != [] {
      var front := events[..|events| - 1];
      ThresholdWithin(mss, front);
      RunKeepsBounds(mss, front);
      MulStep(|front|, 4 * mss);
    }
  }

  /** In a run of moderate length that sends less than 2^31 octets no 32-bit field ever overflows. */
  lemma FieldsFitInt(mss: nat, events: seq<Event>, k: nat)
    requires 1 <= mss <= 32767 && 2 * mss + |events| * (4 * mss) <= INT_MAX && SentOctets(events) <= INT_MAX
    requires k <= |events|
    ensures var w := Run(mss, Initial(mss), events[..k]);
      0 < w.cwnd <= INT_MAX && 0 < w.ssthresh <= INT_MAX && 0 <= w.bytesInFlight <= INT_MAX
  {
    MulMonotone(k, |events|, 4 * mss);
    SentSoFar(events, k);
    RunKeepsBounds(mss, events[..k]);
    FlightWithinSent(mss, events[..k]);
    ThresholdWithin(mss, events[..k]);
  }

  lemma {:induction false} SentSoFar(events: seq<Event>, k: nat)
    requires k <= |events|
    ensures SentOctets(events[..k]) <= SentOctets(events)
  {
    if k < |events| {
      SentSoFar(events[..|events| - 1], k);
      assert events[..|events| - 1][..k] == events[..k];
    } else {
      assert events[..k] == events;
    }
  }

  // ---------------------------------------------------- the RTT estimate

  /** Over every run the advertised window fits its 16-bit field and leaves room for a segment. */
  lemma AdvertisedWindowFits(mss: nat, events: seq<Event>)
    requires 1 <= mss <= 32767
    ensures mss <= Advertised(Run(mss, Initial(mss), events)) <= WINDOW_SIZE
  {
    RunKeepsBounds(mss, events);
  }

  predicate SamplesWithin(events: seq<Event>, lo: nat, hi: nat) {
    forall e | e in events && e.Rtt? :: lo <= e.measured <= hi
  }

  /** The smoothed RTT never leaves the hull of the samples. */
  lemma {:induction false} SmoothedRttInHull(mss: nat, events: seq<Event>, lo: nat, hi: nat)
    requires mss >= 1 && SamplesWithin(events, lo, hi)
    ensures var w := Run(mss, Initial(mss), events);
      w.rttInitialized ==> lo <= w.smoothedRtt <= hi
  {
    if events != [] {
      SmoothedRttInHull(mss, events[..|events| - 1], lo, hi);
      assert events[|events| - 1] in events;
    }
  }

  function Repeat(r: nat, n: nat): (events: seq<Event>) {
    seq(n, _ => Rtt(r))
  }

  /** Where the estimate settles under a constant sample: the integer update loses up to 7 from below. */
  function Settled(s: int, r: int): (l: int) {
    if s >= r then r else if s < r - 7 then r - 7 else s
  }

  lemma {:induction false} EstimateSettles(mss: nat, w: Window, r: nat, n: nat)
    requires mss >= 1 && w.cwnd > 0 && w.rttInitialized && 0 <= w.smoothedRtt
    ensures var s := Run(mss, w, Repeat(r, n));
      && s.rttInitialized && 0 <= s.smoothedRtt
      && Settled(s.smoothedRtt, r) == Settled(w.smoothedRtt, r)
      && (s.smoothedRtt == Settled(w.smoothedRtt, r)
          || Distance(s.smoothedRtt, Settled(w.smoothedRtt, r)) + n
             <= Distance(w.smoothedRtt, Settled(w.smoothedRtt, r)))
  {
    if n > 0 {
      EstimateSettles(mss, w, r, n - 1);
      assert Repeat(r, n)[..n - 1] == Repeat(r, n - 1);
    }
  }

  /**
   Under a constant sample `r` the estimate reaches its limit after at most |s - r| updates and stays there: `r`
   itself from above, `r - 7` from far below, and its starting value in between.
   */
  lemma EstimateReachesLimit(mss: nat, w: Window, r: nat, n: nat)
    requires mss >= 1 && w.cwnd > 0 && w.rttInitialized && 0 <= w.smoothedRtt
    requires n >= Distance(w.smoothedRtt, r)
    ensures Run(mss, w, Repeat(r, n)).smoothedRtt == Settled(w.smoothedRtt, r)
    ensures r - 7 <= Settled(w.smoothedRtt, r) <= r
  {
    EstimateSettles(mss, w, r, n);
  }

  // -------------------------------------------------- congestion avoidance

  predicate AllAcks(events: seq<Event>) {
    forall e | e in events :: e.Ack?
  }

  /** Small enough per-ACK growth: with `n * mss` octets in the window an ACK adds at most `mss / n`. */
  lemma GrowthPerAck(mss: nat, cwnd: nat, n: nat)
    requires n >= 1 && n * mss <= cwnd && 1 <= cwnd
    ensures n * Growth(mss, cwnd) <= mss
  {
    var g := Growth(mss, cwnd);
    assert g * cwnd <= mss * mss;
    MulMonotone(n * mss, cwnd, g);
    assert n * mss * g == n * g * mss;
    if n * g > mss {
      MulMonotone(mss + 1, n * g, mss);
      MulStep(mss, mss);
    }
  }

  lemma QuotientAntitone(n: nat, d: nat, d': nat)
    requires 1 <= d <= d'
    ensures n / d' <= n / d
  {
    var q, r := n / d', n / d;
    MulMonotone(d, d', q);
    ProductOrder(r + 1, q, d);
    assert n < (r + 1) * d;
  }

  lemma ProductOrder(a: nat, b: nat, c: nat)
    ensures a <= b ==> a * c <= b * c
  {
    if a <= b {
      MulMonotone(a, b, c);
    }
  }

  lemma AckInAvoidance(mss: nat, w: Window, acked: nat, g: nat)
    requires mss >= 1 && 1 <= w.cwnd && w.cwnd >= w.ssthresh && Max(1, Growth(mss, w.cwnd)) <= g
    ensures var r := Step(mss, w, Ack(acked));
      w.cwnd + 1 <= r.cwnd <= w.cwnd + g && r.ssthresh == w.ssthresh && Max(1, Growth(mss, r.cwnd)) <= g
  {
    QuotientAntitone(mss * mss, w.cwnd, Step(mss, w, Ack(acked)).cwnd);
  }

  lemma {:induction false} AvoidanceAdds(mss: nat, w: Window, events: seq<Event>, g: nat)
    requires mss >= 1 && AllAcks(events)
    requires w.cwnd >= w.ssthresh && 1 <= w.cwnd && Max(1, Growth(mss, w.cwnd)) <= g
    ensures var r := Run(mss, w, events);
      && w.cwnd + |events| <= r.cwnd <= w.cwnd + |events| * g
      && r.ssthresh == w.ssthresh && Max(1, Growth(mss, r.cwnd)) <= g
  {
    if events != [] {
      var front := events[..|events| - 1];
      AvoidanceAdds(mss, w, front, g);
      assert events[|events| - 1] in events;
      AckInAvoidance(mss, Run(mss, w, front), events[|events| - 1].ackedBytes, g);
      MulStep(|front|, g);
    }
  }

  /** A window of `n` segments grows by at least one octet an ACK and by at most one segment over `n` ACKs. */
  lemma LinearGrowth(mss: nat, w: Window, events: seq<Event>)
    requires mss >= 1 && AllAcks(events) && |events| >= 1
    requires w.cwnd >= w.ssthresh && |events| * mss <= w.cwnd <= mss * mss
    ensures 1 <= w.cwnd && w.cwnd + |events| <= Run(mss, w, events).cwnd <= w.cwnd + mss
  {
    var n := |events|;
    MulMonotone(1, n, mss);
    GrowthPerAck(mss, w.cwnd, n);
    CountWithinSegment(n, mss, w.cwnd);
    AvoidanceAdds(mss, w, events, Max(1, Growth(mss, w.cwnd)));
  }

  lemma CountWithinSegment(n: nat, mss: nat, cwnd: nat)
    requires mss >= 1 && n * mss <= cwnd <= mss * mss
    ensures n <= mss
  {
    if n > mss {
      MulMonotone(mss + 1, n, mss);
      MulStep(mss, mss);
    }
  }

  // ----------------------------------------------------- loss and back-off

  function Timeouts(n: nat): (events: seq<Event>) {
    seq(n, _ => Timeout)
  }

  function PowerOfTwo(n: nat): (p: nat) {
    if n == 0 then 1 else 2 * PowerOfTwo(n - 1)
  }

  lemma Doubling(rto: nat, p: nat, limit: nat)
    ensures Min(Min(rto * p, limit) * 2, limit) == Min(rto * (2 * p), limit)
  {
    assert rto * (2 * p) == 2 * (rto * p);
  }

  /** Each timeout in a row doubles the retransmission timeout, up to a minute; the window is back at one segment. */
  lemma {:induction false} TimeoutsBackOff(mss: nat, w: Window, n: nat)
    requires mss >= 1 && w.cwnd > 0 && 0 <= w.rto <= 60000
    ensures var t := Run(mss, w, Timeouts(n));
      && t.rto == Min(w.rto * PowerOfTwo(n), 60000)
      && (n > 0 ==> t.cwnd == mss && t.bytesInFlight == 0)
  {
    if n > 0 {
      TimeoutsBackOff(mss, w, n - 1);
      assert Timeouts(n)[..n - 1] == Timeouts(n - 1);
      Doubling(w.rto, PowerOfTwo(n - 1), 60000);
    }
  }

  /** Half of the window, but no less than two segments. */
  predicate IsHalved(mss: nat, before: int, after: int) {
    2 * mss <= after && before - 1 <= 2 * after && (after == 2 * mss || 2 * after <= before)
  }

  /** What a loss does: the threshold is half the window, which restarts at a segment or continues inflated by three. */
  lemma LossHalves(mss: nat, w: Window)
    requires mss >= 1 && w.cwnd > 0
    ensures var t := Step(mss, w, Timeout); IsHalved(mss, w.cwnd, t.ssthresh) && t.cwnd == mss < t.ssthresh
    ensures var t := Step(mss, w, TripleDuplicateAck);
      IsHalved(mss, w.cwnd, t.ssthresh) && t.cwnd == t.ssthresh + 3 * mss && t.rto == w.rto
  {
  }

  // ------------------------------------------------------------ slow start

  /** What acknowledgements add in slow start: what each acknowledges, but at most a segment. */
  function SlowStartSum(mss: nat, events: seq<Event>): (n: nat)
    requires AllAcks(events)
  {
    if events == [] then 0
    else
      var last := events[|events| - 1];
      assert last in events;
      SlowStartSum(mss, events[..|events| - 1]) + Min(last.ackedBytes, mss)
  }

  /** As long as the window stays below the threshold it grows by exactly that sum. */
  lemma {:induction false} SlowStartGrowth(mss: nat, w: Window, events: seq<Event>)
    requires mss >= 1 && w.cwnd > 0 && AllAcks(events)
    requires events != [] ==> w.cwnd + SlowStartSum(mss, events[..|events| - 1]) < w.ssthresh
    ensures var t := Run(mss, w, events);
      t.cwnd == w.cwnd + SlowStartSum(mss, events) && t.ssthresh == w.ssthresh
  {
    if events != [] {
      var front := events[..|events| - 1];
      assert events[|events| - 1] in events;
      if front != [] {
        assert front[|front| - 1] in events;
        assert SlowStartSum(mss, front[..|front| - 1]) <= SlowStartSum(mss, front);
      }
      SlowStartGrowth(mss, w, front);
    }
  }

  /** In congestion avoidance an ACK adds the whole part of a segment's share in the window, at least an octet. */
  lemma AvoidanceStep(mss: nat, w: Window, acked: nat)
    requires w.cwnd > 0 && w.cwnd >= w.ssthresh
    ensures var g := Step(mss, w, Ack(acked)).cwnd - w.cwnd;
      && g >= 1 && mss * mss < (g + 1) * w.cwnd && (g > 1 ==> g * w.cwnd <= mss * mss)
  {
    var q := Growth(mss, w.cwnd);
    assert q * w.cwnd <= mss * mss < (q + 1) * w.cwnd;
    if q < 1 {
      assert mss * mss < w.cwnd;
    }
  }

  // ------------------------------------------------------ bytes in flight

  predicate IsTransfer(e: Event) {
    e.Send? || e.Ack?
  }

  /** What is sent less what is acknowledged. */
  function Unacknowledged(events: seq<Event>): (n: int) {
    if events == [] then 0
    else
      var last := events[|events| - 1];
      Unacknowledged(events[..|events| - 1])
      + (if last.Send? then last.bytes else 0) - (if last.Ack? then last.ackedBytes else 0)
  }

  /** While nothing is acknowledged that has not been sent, the bytes in flight are those sent and not acknowledged. */
  lemma {:induction false} FlightIsUnacknowledged(mss: nat, w: Window, events: seq<Event>)
    requires mss >= 1 && w.cwnd > 0 && forall e | e in events :: IsTransfer(e)
    requires forall k | 0 <= k <= |events| :: w.bytesInFlight + Unacknowledged(events[..k]) >= 0
    ensures Run(mss, w, events).bytesInFlight == w.bytesInFlight + Unacknowledged(events)
  {
    if events != [] {
      var front, last := events[..|events| - 1], events[|events| - 1];
      assert last in events && IsTransfer(last);
      assert forall k | 0 <= k <= |front| :: front[..k] == events[..k];
      assert events[..|events|] == events;
      FlightIsUnacknowledged(mss, w, front);
    }
  }

  /** A fresh controller takes the first sample for the estimate and half of it for the variance. */
  lemma FirstSample(mss: nat, r: nat)
    requires mss >= 1
    ensures var w := Step(mss, Initial(mss), Rtt(r));
      && w.smoothedRtt == r && r - 1 <= 2 * w.rttVar <= r && w.rttInitialized
  {
  }

  /** After every sample the timeout is the estimate plus four variances, or plus one, kept within its limits. */
  lemma SampleSetsTimeout(mss: nat, w: Window, r: nat)
    requires w.cwnd > 0
    ensures var t := Step(mss, w, Rtt(r));
      var due := t.smoothedRtt + (if t.rttVar >= 1 then 4 * t.rttVar else 1);
      t.rto == (if due < 200 then 200 else if due > 60000 then 60000 else due)
  {
  }

  // ------------------------------------------------------- the RTT variance

  /** Where the variance settles once the estimate is `d` off the sample: the update loses up to 3 from below. */
  function SettledVariance(v: int, d: int): (l: int) {
    if v >= d then d else if v < d - 3 then d - 3 else v
  }

  /** Under a constant sample the settled estimate leaves, the variance comes to rest and the timeout with it. */
  lemma {:induction false} VarianceSettles(mss: nat, w: Window, r: nat, n: nat)
    requires mss >= 1 && w.cwnd > 0 && w.rttInitialized && 0 <= w.smoothedRtt && 0 <= w.rttVar
    requires Settled(w.smoothedRtt, r) == w.smoothedRtt
    ensures var s, limit := Run(mss, w, Repeat(r, n)), SettledVariance(w.rttVar, Distance(w.smoothedRtt, r));
      && s.rttInitialized && s.smoothedRtt == w.smoothedRtt && 0 <= s.rttVar
      && SettledVariance(s.rttVar, Distance(w.smoothedRtt, r)) == limit
      && (s.rttVar == limit || Distance(s.rttVar, limit) + n <= Distance(w.rttVar, limit))
      && (n > 0 ==> s.rto == Min(Max(s.smoothedRtt + Max(1, 4 * s.rttVar), 200), 60000))
  {
    if n > 0 {
      VarianceSettles(mss, w, r, n - 1);
      assert Repeat(r, n)[..n - 1] == Repeat(r, n - 1);
    }
  }

  /**
   Under a constant sample of a settled estimate the variance reaches its limit after as many updates as it is off, and
   the limit is at most the estimate's error and at most 3 below it.
   */
  lemma VarianceReachesLimit(mss: nat, w: Window, r: nat, n: nat)
    requires mss >= 1 && w.cwnd > 0 && w.rttInitialized && 0 <= w.smoothedRtt && 0 <= w.rttVar
    requires Settled(w.smoothedRtt, r) == w.smoothedRtt && n >= w.rttVar + Distance(w.smoothedRtt, r)
    ensures var d := Distance(w.smoothedRtt, r);
      && Run(mss, w, Repeat(r, n)).rttVar == SettledVariance(w.rttVar, d)
      && d <= 7 && d - 3 <= SettledVariance(w.rttVar, d) <= d
  {
    VarianceSettles(mss, w, r, n);
  }
}
