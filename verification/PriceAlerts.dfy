/** The price-alert state machine (agent/ollama_code/event_triggers.py). */
module PriceAlerts {
  import opened Options

  datatype Lifecycle = Once | Rearm | Repeat

  datatype Comparison = CrossesAbove | CrossesBelow

  datatype Side = Triggered | Safe

  datatype Condition = Condition(symbol: string, assetClass: string, currency: string, comparison: Comparison,
                                 threshold: real, lifecycle: Lifecycle, interval: nat)

  /** An event as the evaluation reads it. `price` and `at` are none where the event holds no positive decimal
      and no positive finite timestamp. */
  datatype Event = Event(isQuote: bool, symbol: string, assetClass: string, currency: string, price: Option<real>,
                         at: Option<real>)

  /** An event, the clock at its arrival and the age a quote may have. */
  datatype Tick = Tick(event: Event, now: real, maxAge: real)

  /** How texts are compared without regard to case. */
  datatype Casing = Casing(fold: string -> string, lower: string -> string, upper: string -> string)

  /** The durable state; a time of zero stands for none. */
  datatype State = State(lastPrice: Option<real>, lastQuoteAt: real, lastSide: Option<Side>, fired: bool, lastFiredAt: real)

  const NEW := State(None, 0.0, None, false, 0.0)

  /** The quote is about the instrument, well-formed, not from the future and not stale. */
  predicate Current(casing: Casing, c: Condition, t: Tick)
  {
    && t.event.isQuote
    && casing.fold(t.event.symbol) == casing.fold(c.symbol)
    && casing.lower(t.event.assetClass) == c.assetClass
    && casing.upper(t.event.currency) == c.currency
    && t.event.price.Some? && t.event.price.value > 0.0
    && t.event.at.Some? && t.event.at.value > 0.0
    && t.event.at.value <= t.now + 300.0
    && t.now - t.event.at.value <= (if t.maxAge < 1.0 then 1.0 else t.maxAge)
  }

  function SideOf(c: Condition, price: real): Side
  {
    if (if c.comparison.CrossesAbove? then price >= c.threshold else price <= c.threshold) then Triggered else Safe
  }

  /** A quote counts when it is of the instrument, whatever its case, its price is positive, and its time is positive,
      at most five minutes ahead of the clock and behind it at most the age allowed, which is a second at least. */
  lemma CurrentIff(casing: Casing, c: Condition, t: Tick)
    ensures Current(casing, c, t) <==>
            match t.event
            case Event(isQuote, symbol, assetClass, currency, Some(price), Some(at)) =>
              && isQuote && casing.fold(symbol) == casing.fold(c.symbol) && casing.lower(assetClass) == c.assetClass
              && casing.upper(currency) == c.currency && 0.0 < price
              && 0.0 < at <= t.now + 300.0 && (t.now - 1.0 <= at || t.now - t.maxAge <= at)
            case _ => false
  {
  }

  /** A price at the threshold triggers either alert; above it only the one that waits for a rise, below it only the
      one that waits for a fall. */
  lemma ThresholdDivides(c: Condition, price: real)
    ensures price == c.threshold ==> SideOf(c, price) == Triggered
    ensures price > c.threshold ==> SideOf(c, price) == if c.comparison == CrossesAbove then Triggered else Safe
    ensures price < c.threshold ==> SideOf(c, price) == if c.comparison == CrossesBelow then Triggered else Safe
  {
  }

  /** The state after an event, and whether it fires. */
  function Evaluate(casing: Casing, c: Condition, s: State, t: Tick): (State, bool)
  {
    if !Current(casing, c, t) || t.event.at.value <= s.lastQuoteAt then (s, false)
    else
      var side := SideOf(c, t.event.price.value);
      var fires :=
        match c.lifecycle
        case Repeat => side.Triggered? && (s.lastFiredAt == 0.0 || t.now - s.lastFiredAt >= c.interval as real)
        case Rearm => s.lastSide == Some(Safe) && side.Triggered?
        case Once => s.lastSide == Some(Safe) && side.Triggered? && !s.fired;
      (State(t.event.price, t.event.at.value, Some(side), s.fired || (fires && c.lifecycle.Once?),
             if fires then t.now else s.lastFiredAt),
       fires)
  }

  // ----- Sequences of events -----

  /** The state after the first `k` events. */
  function After(casing: Casing, c: Condition, ticks: seq<Tick>, k: nat): State
    requires k <= |ticks|
  {
    if k == 0 then NEW else Evaluate(casing, c, After(casing, c, ticks, k - 1), ticks[k - 1]).0
  }

  predicate Fires(casing: Casing, c: Condition, ticks: seq<Tick>, k: nat)
    requires k < |ticks|
  {
    Evaluate(casing, c, After(casing, c, ticks, k), ticks[k]).1
  }

  /** A quote is accepted when it is current and later than every quote accepted before it. This does not look
      at the state. */
  predicate Accepted(casing: Casing, c: Condition, ticks: seq<Tick>, k: nat)
    requires k < |ticks|
    decreases k
  {
    Current(casing, c, ticks[k]) &&
    forall j :: 0 <= j < k && Accepted(casing, c, ticks, j) ==> ticks[j].event.at.value < ticks[k].event.at.value
  }

  predicate TriggeredAt(casing: Casing, c: Condition, ticks: seq<Tick>, k: nat)
    requires k < |ticks|
  {
    Accepted(casing, c, ticks, k) && SideOf(c, ticks[k].event.price.value).Triggered?
  }

  /** The last accepted quote before `k`. */
  ghost predicate LastAccepted(casing: Casing, c: Condition, ticks: seq<Tick>, k: nat, j: nat)
    requires j < k <= |ticks|
  {
    Accepted(casing, c, ticks, j) && forall i :: j < i < k ==> !Accepted(casing, c, ticks, i)
  }

  /** A step of the accepted quotes from the safe side to the triggered side. */
  ghost predicate Crosses(casing: Casing, c: Condition, ticks: seq<Tick>, k: nat)
    requires k < |ticks|
  {
    TriggeredAt(casing, c, ticks, k) &&
    exists j :: 0 <= j < k && LastAccepted(casing, c, ticks, k, j) && !TriggeredAt(casing, c, ticks, j)
  }

  /** The last firing before `k`. */
  ghost predicate LastFire(casing: Casing, c: Condition, ticks: seq<Tick>, k: nat, j: nat)
    requires j < k <= |ticks|
  {
    Fires(casing, c, ticks, j) && forall i :: j < i < k ==> !Fires(casing, c, ticks, i)
  }

  // ----- What the state remembers -----

  /** The state holds the last accepted quote and its side. */
  ghost predicate RemembersQuote(casing: Casing, c: Condition, ticks: seq<Tick>, k: nat, s: State)
    requires k <= |ticks|
  {
    || (s.lastSide.None? && s.lastPrice.None? && s.lastQuoteAt == 0.0
        && forall i :: 0 <= i < k ==> !Accepted(casing, c, ticks, i))
    || (exists j :: 0 <= j < k && LastAccepted(casing, c, ticks, k, j) && HoldsQuote(c, ticks[j], s))
  }

  ghost predicate HoldsQuote(c: Condition, t: Tick, s: State)
  {
    && t.event.price.Some? && t.event.at.Some? && s.lastPrice == t.event.price
    && s.lastQuoteAt == t.event.at.value && s.lastSide == Some(SideOf(c, t.event.price.value))
  }

  lemma LaterThanAll(casing: Casing, c: Condition, ticks: seq<Tick>, k: nat, j: nat)
    requires j < k < |ticks| && Current(casing, c, ticks[k]) && LastAccepted(casing, c, ticks, k, j)
    ensures Accepted(casing, c, ticks, k) <==> ticks[j].event.at.value < ticks[k].event.at.value
  {
    if ticks[j].event.at.value < ticks[k].event.at.value {
      forall i | 0 <= i < k && Accepted(casing, c, ticks, i) ensures ticks[i].event.at.value < ticks[k].event.at.value {
        if i < j { assert Accepted(casing, c, ticks, j); }
      }
    }
  }

  /** An event changes the state exactly when it is accepted in the sense that does not look at the state. */
  lemma {:induction false} QuoteIsRemembered(casing: Casing, c: Condition, ticks: seq<Tick>, k: nat)
    requires k <= |ticks|
    ensures RemembersQuote(casing, c, ticks, k, After(casing, c, ticks, k))
    decreases k
  {
    if k > 0 {
      QuoteIsRemembered(casing, c, ticks, k - 1);
      AcceptanceIsSeen(casing, c, ticks, k - 1);
      var s, next := After(casing, c, ticks, k - 1), After(casing, c, ticks, k);
      if Accepted(casing, c, ticks, k - 1) {
        assert LastAccepted(casing, c, ticks, k, k - 1) && HoldsQuote(c, ticks[k - 1], next);
      } else if j :| 0 <= j < k - 1 && LastAccepted(casing, c, ticks, k - 1, j) && HoldsQuote(c, ticks[j], s) {
        assert LastAccepted(casing, c, ticks, k, j) && HoldsQuote(c, ticks[j], next);
      }
    }
  }

  lemma AcceptanceIsSeen(casing: Casing, c: Condition, ticks: seq<Tick>, k: nat)
    requires k < |ticks| && RemembersQuote(casing, c, ticks, k, After(casing, c, ticks, k))
    ensures Accepted(casing, c, ticks, k) <==>
            Current(casing, c, ticks[k]) && ticks[k].event.at.value > After(casing, c, ticks, k).lastQuoteAt
  {
    var s := After(casing, c, ticks, k);
    if Current(casing, c, ticks[k]) {
      if j :| 0 <= j < k && LastAccepted(casing, c, ticks, k, j) && HoldsQuote(c, ticks[j], s) {
        LaterThanAll(casing, c, ticks, k, j);
      }
    }
  }

  /** What one event does, told by acceptance rather than by the state's quote time. */
  lemma EventIsAcceptedOrIgnored(casing: Casing, c: Condition, ticks: seq<Tick>, k: nat)
    requires k < |ticks|
    ensures !Accepted(casing, c, ticks, k) ==>
              After(casing, c, ticks, k + 1) == After(casing, c, ticks, k) && !Fires(casing, c, ticks, k)
    ensures Accepted(casing, c, ticks, k) ==> HoldsQuote(c, ticks[k], After(casing, c, ticks, k + 1))
  {
    QuoteIsRemembered(casing, c, ticks, k);
    AcceptanceIsSeen(casing, c, ticks, k);
  }

  /** The quotes that change the state have strictly increasing timestamps. */
  lemma AcceptedQuotesGrow(casing: Casing, c: Condition, ticks: seq<Tick>, j: nat, k: nat)
    requires j < k < |ticks|
    requires After(casing, c, ticks, j + 1) != After(casing, c, ticks, j)
    requires After(casing, c, ticks, k + 1) != After(casing, c, ticks, k)
    ensures After(casing, c, ticks, j + 1).lastQuoteAt < After(casing, c, ticks, k + 1).lastQuoteAt
    ensures After(casing, c, ticks, k + 1).lastQuoteAt == ticks[k].event.at.value
  {
    EventIsAcceptedOrIgnored(casing, c, ticks, j);
    EventIsAcceptedOrIgnored(casing, c, ticks, k);
  }

  // ----- Rearming and single alerts -----

  lemma SideBefore(casing: Casing, c: Condition, ticks: seq<Tick>, k: nat)
    requires k < |ticks|
    ensures Crosses(casing, c, ticks, k) <==>
            TriggeredAt(casing, c, ticks, k) && After(casing, c, ticks, k).lastSide == Some(Safe)
  {
    QuoteIsRemembered(casing, c, ticks, k);
    var s := After(casing, c, ticks, k);
    forall i, j | 0 <= i < k && 0 <= j < k && LastAccepted(casing, c, ticks, k, i) && LastAccepted(casing, c, ticks, k, j)
      ensures i == j
    {
    }
    if j :| 0 <= j < k && LastAccepted(casing, c, ticks, k, j) && HoldsQuote(c, ticks[j], s) {
    }
  }

  /** A rearming alert fires exactly at the safe-to-triggered steps of the accepted quotes. */
  lemma RearmFiresAtCrossings(casing: Casing, c: Condition, ticks: seq<Tick>, k: nat)
    requires k < |ticks| && c.lifecycle.Rearm?
    ensures Fires(casing, c, ticks, k) <==> Crosses(casing, c, ticks, k)
  {
    QuoteIsRemembered(casing, c, ticks, k);
    AcceptanceIsSeen(casing, c, ticks, k);
    SideBefore(casing, c, ticks, k);
  }

  lemma FireStep(casing: Casing, c: Condition, ticks: seq<Tick>, k: nat)
    requires k < |ticks|
    ensures var s, next := After(casing, c, ticks, k), After(casing, c, ticks, k + 1);
            && next.lastFiredAt == (if Fires(casing, c, ticks, k) then ticks[k].now else s.lastFiredAt)
            && next.fired == (s.fired || (Fires(casing, c, ticks, k) && c.lifecycle.Once?))
  {
    hide Current;
  }

  lemma {:induction false} FiredIsRemembered(casing: Casing, c: Condition, ticks: seq<Tick>, k: nat)
    requires k <= |ticks| && c.lifecycle.Once?
    ensures After(casing, c, ticks, k).fired <==> exists j :: 0 <= j < k && Fires(casing, c, ticks, j)
    decreases k
  {
    if k > 0 {
      FiredIsRemembered(casing, c, ticks, k - 1);
      FireStep(casing, c, ticks, k - 1);
      hide Fires, After;
      assert (exists j :: 0 <= j < k && Fires(casing, c, ticks, j)) <==>
             (exists j :: 0 <= j < k - 1 && Fires(casing, c, ticks, j)) || Fires(casing, c, ticks, k - 1);
    }
  }

  lemma OnceStep(casing: Casing, c: Condition, ticks: seq<Tick>, k: nat)
    requires k < |ticks| && c.lifecycle.Once?
    ensures Fires(casing, c, ticks, k) <==>
            Crosses(casing, c, ticks, k) && forall j :: 0 <= j < k ==> !Fires(casing, c, ticks, j)
  {
    QuoteIsRemembered(casing, c, ticks, k);
    AcceptanceIsSeen(casing, c, ticks, k);
    SideBefore(casing, c, ticks, k);
    FiredIsRemembered(casing, c, ticks, k);
    hide RemembersQuote, Crosses;
  }

  /** An alert that fires once fires exactly at the first safe-to-triggered step, and never again. */
  lemma {:induction false} OnceFiresAtFirstCrossing(casing: Casing, c: Condition, ticks: seq<Tick>, k: nat)
    requires k < |ticks| && c.lifecycle.Once?
    ensures Fires(casing, c, ticks, k) <==>
            Crosses(casing, c, ticks, k) && forall j :: 0 <= j < k ==> !Crosses(casing, c, ticks, j)
    decreases k
  {
    hide Fires, Crosses;
    OnceStep(casing, c, ticks, k);
    forall j | 0 <= j < k
      ensures Fires(casing, c, ticks, j) <==>
              Crosses(casing, c, ticks, j) && forall i :: 0 <= i < j ==> !Crosses(casing, c, ticks, i)
    {
      OnceFiresAtFirstCrossing(casing, c, ticks, j);
    }
    if j :| 0 <= j < k && Crosses(casing, c, ticks, j) {
      var first := FirstCrossing(casing, c, ticks, j);
      assert Fires(casing, c, ticks, first);
    }
  }

  lemma FirstCrossing(casing: Casing, c: Condition, ticks: seq<Tick>, j: nat) returns (first: nat)
    requires j < |ticks| && Crosses(casing, c, ticks, j)
    ensures first <= j && Crosses(casing, c, ticks, first) && forall i :: 0 <= i < first ==> !Crosses(casing, c, ticks, i)
    decreases j
  {
    if i :| 0 <= i < j && Crosses(casing, c, ticks, i) { first := FirstCrossing(casing, c, ticks, i); } else { first := j; }
  }

  // ----- Repeating alerts -----

  ghost predicate RemembersFire(casing: Casing, c: Condition, ticks: seq<Tick>, k: nat, s: State)
    requires k <= |ticks|
  {
    || (s.lastFiredAt == 0.0 && forall i :: 0 <= i < k ==> !Fires(casing, c, ticks, i))
    || (exists j :: 0 <= j < k && LastFire(casing, c, ticks, k, j) && s.lastFiredAt == ticks[j].now)
  }

  lemma FireMovesOn(casing: Casing, c: Condition, ticks: seq<Tick>, k: nat, s: State, next: State)
    requires k < |ticks| && RemembersFire(casing, c, ticks, k, s)
    requires next.lastFiredAt == if Fires(casing, c, ticks, k) then ticks[k].now else s.lastFiredAt
    ensures RemembersFire(casing, c, ticks, k + 1, next)
  {
    hide Fires;
    if Fires(casing, c, ticks, k) {
      assert LastFire(casing, c, ticks, k + 1, k);
    } else if j :| 0 <= j < k && LastFire(casing, c, ticks, k, j) && s.lastFiredAt == ticks[j].now {
      assert LastFire(casing, c, ticks, k + 1, j);
    }
  }

  lemma {:induction false} FireIsRemembered(casing: Casing, c: Condition, ticks: seq<Tick>, k: nat)
    requires k <= |ticks|
    ensures RemembersFire(casing, c, ticks, k, After(casing, c, ticks, k))
    decreases k
  {
    hide Fires, LastFire;
    if k > 0 {
      FireIsRemembered(casing, c, ticks, k - 1);
      FireStep(casing, c, ticks, k - 1);
      hide After, RemembersFire;
      FireMovesOn(casing, c, ticks, k - 1, After(casing, c, ticks, k - 1), After(casing, c, ticks, k));
    }
  }

  /** A repeating alert fires at every triggered quote that is the first, or comes the interval after the last
      one that fired. (A firing at clock zero would count as none.) */
  lemma RepeatFiresGreedily(casing: Casing, c: Condition, ticks: seq<Tick>, k: nat)
    requires k < |ticks| && c.lifecycle.Repeat?
    ensures Fires(casing, c, ticks, k) <==>
            TriggeredAt(casing, c, ticks, k)
            && forall j :: 0 <= j < k && LastFire(casing, c, ticks, k, j) ==>
                 ticks[j].now == 0.0 || ticks[k].now - ticks[j].now >= c.interval as real
  {
    QuoteIsRemembered(casing, c, ticks, k);
    AcceptanceIsSeen(casing, c, ticks, k);
    FireIsRemembered(casing, c, ticks, k);
    var s := After(casing, c, ticks, k);
    forall i, j | 0 <= i < k && 0 <= j < k && LastFire(casing, c, ticks, k, i) && LastFire(casing, c, ticks, k, j)
      ensures i == j
    {
    }
  }

  lemma {:induction false} FindLastFire(casing: Casing, c: Condition, ticks: seq<Tick>, k: nat, i: nat) returns (j: nat)
    requires i < k <= |ticks| && Fires(casing, c, ticks, i)
    ensures i <= j < k && LastFire(casing, c, ticks, k, j)
    decreases k
  {
    if Fires(casing, c, ticks, k - 1) {
      j := k - 1;
    } else {
      j := FindLastFire(casing, c, ticks, k - 1, i);
    }
  }

  /** With a clock that never runs backwards from a positive start, any two firings of a repeating alert are
      at least the interval apart. */
  lemma {:induction false} FiringsAreSpaced(casing: Casing, c: Condition, ticks: seq<Tick>, i: nat, k: nat)
    requires i < k < |ticks| && c.lifecycle.Repeat? && Fires(casing, c, ticks, i) && Fires(casing, c, ticks, k)
    requires forall j :: 0 <= j < |ticks| ==> ticks[j].now > 0.0
    requires forall a, b :: 0 <= a < b < |ticks| ==> ticks[a].now <= ticks[b].now
    ensures ticks[k].now - ticks[i].now >= c.interval as real
  {
    var j := FindLastFire(casing, c, ticks, k, i);
    RepeatFiresGreedily(casing, c, ticks, k);
    assert i < j ==> ticks[i].now <= ticks[j].now;
  }
}
