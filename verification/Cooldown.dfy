// state/cooldown.py: three timers that run side by side.

module Cooldowns {

  datatype Timers = Timers(priceUntil: real, fillUntil: real, complianceUntil: real)

  const NoTimers := Timers(0.0, 0.0, 0.0)

  /** Neither blocking timer runs; the fill timer is read after the price timer. */
  predicate Unblocked(t: Timers, priceRead: real, fillRead: real) {
    priceRead >= t.priceUntil && fillRead >= t.fillUntil
  }

  /** The compliance timer runs. */
  predicate DepthRequired(t: Timers, now: real) {
    now < t.complianceUntil
  }

  // ── Over all starts ──

  datatype Kind = PriceTimer | FillTimer | ComplianceTimer

  datatype Start = Start(kind: Kind, ms: int, at: real)

  function Deadline(s: Start): real {
    s.at + s.ms as real / 1000.0
  }

  /** The deadline that a kind of timer has after some starts; 0 before the first. */
  function Until(starts: seq<Start>, kind: Kind): real {
    if starts == [] then 0.0
    else if starts[|starts| - 1].kind == kind then Deadline(starts[|starts| - 1])
    else Until(starts[..|starts| - 1], kind)
  }

  /** Start number i is the latest of its kind. */
  ghost predicate IsLatest(starts: seq<Start>, kind: Kind, i: nat) {
    i < |starts| && starts[i].kind == kind && forall j :: i < j < |starts| ==> starts[j].kind != kind
  }

  /** The latest start of the kind, if there is one, has run out. */
  ghost predicate LatestHasRunOut(starts: seq<Start>, kind: Kind, now: real) {
    forall i: nat :: IsLatest(starts, kind, i) ==> starts[i].at + starts[i].ms as real / 1000.0 <= now
  }

  /** Every start of the kind has run out. */
  ghost predicate AllHaveRunOut(starts: seq<Start>, kind: Kind, now: real) {
    forall i :: 0 <= i < |starts| && starts[i].kind == kind ==> starts[i].at + starts[i].ms as real / 1000.0 <= now
  }

  /** A timer is over exactly when its latest start has run out. */
  lemma {:induction false} LatestDecides(starts: seq<Start>, kind: Kind, now: real)
    requires 0.0 <= now
    ensures Until(starts, kind) <= now <==> LatestHasRunOut(starts, kind, now)
  {
    if starts != [] {
      var n := |starts| - 1;
      if starts[n].kind == kind {
        assert IsLatest(starts, kind, n);
      } else {
        LatestDecides(starts[..n], kind, now);
        forall i: nat
          ensures IsLatest(starts, kind, i) <==> IsLatest(starts[..n], kind, i)
        {
          if IsLatest(starts[..n], kind, i) {
            assert forall j :: i < j < n ==> starts[..n][j] == starts[j];
          }
        }
      }
    }
  }

  lemma {:induction false} UntilIsLatest(starts: seq<Start>, kind: Kind, i: nat)
    requires IsLatest(starts, kind, i)
    ensures Until(starts, kind) == Deadline(starts[i])
  {
    var n := |starts| - 1;
    if i < n {
      UntilIsLatest(starts[..n], kind, i);
    }
  }

  /** At every time a timer is over exactly when all of its starts have run out, if and only if the
      latest start ends no earlier than any before it: a start replaces the running one, and may
      cut it short. */
  lemma EveryStartCountsWhen(starts: seq<Start>, kind: Kind, last: nat)
    requires IsLatest(starts, kind, last)
    ensures (forall now: real :: Until(starts, kind) <= now <==> AllHaveRunOut(starts, kind, now))
            <==> forall i :: 0 <= i < |starts| && starts[i].kind == kind ==>
              Deadline(starts[i]) <= Deadline(starts[last])
  {
    UntilIsLatest(starts, kind, last);
    var end := Deadline(starts[last]);
    if forall now: real :: Until(starts, kind) <= now <==> AllHaveRunOut(starts, kind, now) {
      assert AllHaveRunOut(starts, kind, end);
    }
  }

  /** A cooldown of ten seconds is over after three when one of a second is started meanwhile. */
  lemma ShorterStartEndsEarly()
    ensures var starts := [Start(FillTimer, 10000, 100.0), Start(FillTimer, 1000, 101.0)];
      Until(starts, FillTimer) <= 103.0 && !AllHaveRunOut(starts, FillTimer, 103.0)
  {
    var starts := [Start(FillTimer, 10000, 100.0), Start(FillTimer, 1000, 101.0)];
    assert Deadline(starts[0]) == 110.0 && Deadline(starts[1]) == 102.0;
  }

  class CooldownManager {
    var priceUntil: real
    var fillUntil: real
    var complianceUntil: real

    // Every start since construction or the last reset.
    ghost var starts: seq<Start>

    ghost function Value(): Timers
      reads this
    {
      Timers(priceUntil, fillUntil, complianceUntil)
    }

    ghost predicate Valid()
      reads this
    {
      Value() == Timers(Until(starts, PriceTimer), Until(starts, FillTimer), Until(starts, ComplianceTimer))
    }

    constructor ()
      ensures Valid() && starts == [] && Value() == NoTimers
    {
      priceUntil, fillUntil, complianceUntil, starts := 0.0, 0.0, 0.0, [];
    }

    method StartPriceCooldown(ms: int, now: real)
      requires Valid()
      modifies this`priceUntil, this`starts
      ensures Valid() && starts == old(starts) + [Start(PriceTimer, ms, now)]
    {
      UntilNext(starts, Start(PriceTimer, ms, now));
      priceUntil := now + ms as real / 1000.0;
      starts := starts + [Start(PriceTimer, ms, now)];
    }

    method StartFillCooldown(ms: int, now: real)
      requires Valid()
      modifies this`fillUntil, this`starts
      ensures Valid() && starts == old(starts) + [Start(FillTimer, ms, now)]
    {
      UntilNext(starts, Start(FillTimer, ms, now));
      fillUntil := now + ms as real / 1000.0;
      starts := starts + [Start(FillTimer, ms, now)];
    }

    method StartComplianceTimer(ms: int, now: real)
      requires Valid()
      modifies this`complianceUntil, this`starts
      ensures Valid() && starts == old(starts) + [Start(ComplianceTimer, ms, now)]
    {
      UntilNext(starts, Start(ComplianceTimer, ms, now));
      complianceUntil := now + ms as real / 1000.0;
      starts := starts + [Start(ComplianceTimer, ms, now)];
    }

    /** Placing is open exactly when the latest price and fill cooldowns have run out, each at its own
        reading. */
    method MayPlace(priceRead: real, fillRead: real) returns (may: bool)
      ensures may <==> Unblocked(Value(), priceRead, fillRead)
      ensures Valid() && 0.0 <= priceRead && 0.0 <= fillRead ==>
        (may <==> LatestHasRunOut(starts, PriceTimer, priceRead) && LatestHasRunOut(starts, FillTimer, fillRead))
    {
      if 0.0 <= priceRead && 0.0 <= fillRead {
        LatestDecides(starts, PriceTimer, priceRead);
        LatestDecides(starts, FillTimer, fillRead);
      }
      hide LatestHasRunOut, Until;
      var price := priceRead < priceUntil;
      if price {
        return false;
      }
      var fill := fillRead < fillUntil;
      may := !fill;
    }

    /** Compliance depth is required exactly until the latest compliance timer has run out. */
    method ComplianceDepthRequired(now: real) returns (required: bool)
      ensures required <==> DepthRequired(Value(), now)
      ensures Valid() && 0.0 <= now ==> (required <==> !LatestHasRunOut(starts, ComplianceTimer, now))
    {
      if 0.0 <= now {
        LatestDecides(starts, ComplianceTimer, now);
      }
      required := now < complianceUntil;
    }

    method Reset()
      modifies this
      ensures Valid() && starts == [] && Value() == NoTimers
    {
      priceUntil, fillUntil, complianceUntil, starts := 0.0, 0.0, 0.0, [];
    }
  }

  lemma UntilNext(starts: seq<Start>, s: Start)
    ensures Until(starts + [s], s.kind) == Deadline(s)
    ensures forall k :: k != s.kind ==> Until(starts + [s], k) == Until(starts, k)
  {
    assert (starts + [s])[..|starts|] == starts;
  }
}
