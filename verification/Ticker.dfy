/** The timeout ticker (consensus/ticker.go): one timer, replaced only by a tick for a later height, round or step. */
module Ticker {
  import opened RoundStates

  /** Either a timeout to schedule, or the expiry of the running timer. */
  datatype Signal = Tick(timeout: Timeout) | Expired

  predicate Later(t: Timeout, u: Timeout) {
    t.height < u.height || (t.height == u.height && (t.round < u.round || (t.round == u.round && t.step < u.step)))
  }

  /** The latest timeout scheduled so far, or `zero` before the first. */
  function Latest(zero: Timeout, signals: seq<Signal>): Timeout {
    if signals == [] then zero
    else
      var m, last := Latest(zero, signals[..|signals| - 1]), signals[|signals| - 1];
      if last.Tick? && Later(m, last.timeout) then last.timeout else m
  }

  lemma {:induction false} LatestIsMaximum(zero: Timeout, signals: seq<Signal>)
    ensures !Later(Latest(zero, signals), zero)
    ensures forall s <- signals :: s.Tick? ==> !Later(Latest(zero, signals), s.timeout)
    ensures Latest(zero, signals) == zero || Tick(Latest(zero, signals)) in signals
  {
    if signals != [] {
      LatestIsMaximum(zero, signals[..|signals| - 1]);
      assert signals == signals[..|signals| - 1] + [signals[|signals| - 1]];
    }
  }

  /** A timeout fires when the timer expires, once for each new maximum. */
  function Fires(zero: Timeout, signals: seq<Signal>): seq<Timeout> {
    if signals == [] then []
    else
      var before := signals[..|signals| - 1];
      var fired, m := Fires(zero, before), Latest(zero, before);
      if signals[|signals| - 1].Expired? && Later(if fired == [] then zero else fired[|fired| - 1], m)
      then fired + [m] else fired
  }

  /** Fired timeouts were scheduled, and strictly advance. */
  lemma {:induction false} FiresAdvance(zero: Timeout, signals: seq<Signal>)
    ensures forall t <- Fires(zero, signals) :: Tick(t) in signals && Later(zero, t)
    ensures forall i, j :: 0 <= i < j < |Fires(zero, signals)| ==>
              Later(Fires(zero, signals)[i], Fires(zero, signals)[j])
  {
    if signals != [] {
      var before := signals[..|signals| - 1];
      FiresAdvance(zero, before);
      LatestIsMaximum(zero, before);
      assert signals == before + [signals[|signals| - 1]];
      var fired := Fires(zero, before);
      if fired != [] {
        assert fired[|fired| - 1] in fired;
      }
    }
  }

  /**
   * timeoutRoutine: the loop over ticks and expiries, which keeps the running timeout and whether its timer is active.
   */
  method TimeoutRoutine(signals: seq<Signal>) returns (fired: seq<Timeout>)
    requires forall s <- signals :: s.Tick? ==> 0 <= s.timeout.round && NEW_HEIGHT <= s.timeout.step
    ensures fired == Fires(Timeout(0, 0, 0), signals)
  {
    var zero := Timeout(0, 0, 0);
    var ti, timerActive := zero, false;
    fired := [];
    for i := 0 to |signals|
      invariant ti == Latest(zero, signals[..i]) && fired == Fires(zero, signals[..i])
      invariant ti == zero || (0 <= ti.round && NEW_HEIGHT <= ti.step)
      invariant !Later(ti, if fired == [] then zero else fired[|fired| - 1])
      invariant timerActive <==> Later(if fired == [] then zero else fired[|fired| - 1], ti)
    {
      assert signals[..i + 1] == signals[..i] + [signals[i]];
      match signals[i] {
        case Tick(newti) =>
          if newti.height < ti.height {
            continue;
          } else if newti.height == ti.height {
            if newti.round < ti.round {
              continue;
            } else if newti.round == ti.round {
              if ti.step > 0 && newti.step <= ti.step {
                continue;
              }
            }
          }
          ti, timerActive := newti, true;
        case Expired =>
          if timerActive {
            timerActive := false;
            fired := fired + [ti];
          }
      }
    }
    assert signals[..|signals|] == signals;
  }

  /** So a fired timeout is one the node scheduled: what the node's invariant asks of a delivered timeout. */
  lemma FiredAreScheduled(n: Node, signals: seq<Signal>, t: Timeout)
    requires (forall s <- signals :: s.Tick? ==> s.timeout in n.timeouts) && t in Fires(Timeout(0, 0, 0), signals)
    ensures t in n.timeouts
  {
    FiresAdvance(Timeout(0, 0, 0), signals);
  }
}
