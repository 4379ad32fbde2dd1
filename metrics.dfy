/**
 * Daily metrics (`system/metrics/`): `ObserverAdmin` accumulates fare and stop
 * totals per date key, and `Observable` fans each notification out to its
 * observers. `ObserverAdmin` is the only implementation of the `Observer`
 * interface, so the observer list holds `ObserverAdmin` objects.
 */
module Metrics {
  import Seqs

  // ---------------------------------------------------------------------------
  // The two date-keyed accumulators as values
  // ---------------------------------------------------------------------------

  /** `todayCharge(date)` on a fare map: the stored total, 0 for a date never updated. */
  function FareOn(m: map<string, real>, date: string): real {
    if date in m then m[date] else 0.0
  }

  /** `todayStops(date)` on a stops map: the stored total, 0 for a date never updated. */
  function StopsOn(m: map<string, int>, date: string): int {
    if date in m then m[date] else 0
  }

  /** The fare map after `update(date, fare)`. */
  function WithFare(m: map<string, real>, date: string, fare: real): map<string, real> {
    m[date := if date in m then m[date] + fare else fare]
  }

  /** The stops map after `update(date, n)`. */
  function WithStops(m: map<string, int>, date: string, n: int): map<string, int> {
    m[date := if date in m then m[date] + n else n]
  }

  /**
   * An update adds the amount to its own date's total, a date seen for the
   * first time starting from 0, and changes no other date; the date becomes known.
   */
  lemma UpdateAddsToItsDate(fm: map<string, real>, sm: map<string, int>, date: string, fare: real, n: int, d: string)
    ensures WithFare(fm, date, fare).Keys == fm.Keys + {date}
    ensures FareOn(WithFare(fm, date, fare), d) == FareOn(fm, d) + (if d == date then fare else 0.0)
    ensures WithStops(sm, date, n).Keys == sm.Keys + {date}
    ensures StopsOn(WithStops(sm, date, n), d) == StopsOn(sm, d) + (if d == date then n else 0)
  {
  }

  /** The fare map after `k` identical updates `update(date, fare)`. */
  function FareRepeated(m: map<string, real>, date: string, fare: real, k: nat): map<string, real> {
    if k == 0 then m else WithFare(FareRepeated(m, date, fare, k - 1), date, fare)
  }

  /** The stops map after `k` identical updates `update(date, n)`. */
  function StopsRepeated(m: map<string, int>, date: string, n: int, k: nat): map<string, int> {
    if k == 0 then m else WithStops(StopsRepeated(m, date, n, k - 1), date, n)
  }

  /**
   * Repeating a fare update k > 0 times adds k times the fare to that date's
   * total (starting from 0 for a new date) and leaves every other date alone.
   */
  lemma {:induction false} FareRepeatedIsMultiple(m: map<string, real>, date: string, fare: real, k: nat)
    requires k > 0
    ensures FareRepeated(m, date, fare, k) == m[date := FareOn(m, date) + k as real * fare]
  {
    if k == 1 {
      assert FareRepeated(m, date, fare, 0) == m;
      assert FareRepeated(m, date, fare, 1) == WithFare(m, date, fare);
      assert (if date in m then m[date] + fare else fare) == FareOn(m, date) + k as real * fare;
    } else {
      FareRepeatedIsMultiple(m, date, fare, k - 1);
      var p := FareRepeated(m, date, fare, k - 1);
      assert FareOn(p, date) + fare == FareOn(m, date) + k as real * fare;
      assert FareRepeated(m, date, fare, k) == WithFare(p, date, fare);
    }
  }

  /** Repeating a stops update k > 0 times adds k times the count to that date's total. */
  lemma {:induction false} StopsRepeatedIsMultiple(m: map<string, int>, date: string, n: int, k: nat)
    requires k > 0
    ensures StopsRepeated(m, date, n, k) == m[date := StopsOn(m, date) + k * n]
  {
    if k == 1 {
      assert StopsRepeated(m, date, n, 0) == m;
    } else {
      StopsRepeatedIsMultiple(m, date, n, k - 1);
      var p := StopsRepeated(m, date, n, k - 1);
      assert StopsOn(p, date) + n == StopsOn(m, date) + k * n;
      assert StopsRepeated(m, date, n, k) == WithStops(p, date, n);
    }
  }

  /** One notification: the fare overload or the stops overload of `update`. */
  datatype Update = FareUpdate(date: string, fare: real) | StopsUpdate(date: string, n: int)

  /** Both maps of an `ObserverAdmin`, as a value. */
  datatype Totals = Totals(fares: map<string, real>, stops: map<string, int>)

  function Apply(t: Totals, u: Update): Totals {
    match u
    case FareUpdate(d, f) => t.(fares := WithFare(t.fares, d, f))
    case StopsUpdate(d, n) => t.(stops := WithStops(t.stops, d, n))
  }

  /** The totals of a fresh `ObserverAdmin` after the updates of `log`, in order. */
  function Replay(log: seq<Update>): Totals {
    if log == [] then Totals(map[], map[])
    else Apply(Replay(log[..|log| - 1]), log[|log| - 1])
  }

  /** The sum of the fares `log` reports for `date`. */
  function FareSum(log: seq<Update>, date: string): real {
    if log == [] then 0.0
    else
      var u := log[|log| - 1];
      FareSum(log[..|log| - 1], date) + (if u.FareUpdate? && u.date == date then u.fare else 0.0)
  }

  /** The sum of the stop counts `log` reports for `date`. */
  function StopSum(log: seq<Update>, date: string): int {
    if log == [] then 0
    else
      var u := log[|log| - 1];
      StopSum(log[..|log| - 1], date) + (if u.StopsUpdate? && u.date == date then u.n else 0)
  }

  /**
   * After any sequence of updates, `todayCharge(d)` is the sum of the fares
   * reported for `d` and `todayStops(d)` the sum of the stop counts, whatever
   * the other dates and the interleaving of the two kinds.
   */
  lemma {:induction false} ReplayIsSum(log: seq<Update>, d: string)
    ensures FareOn(Replay(log).fares, d) == FareSum(log, d)
    ensures StopsOn(Replay(log).stops, d) == StopSum(log, d)
  {
    if log != [] {
      ReplayIsSum(log[..|log| - 1], d);
    }
  }

  /** `ObserverAdmin`: the per-date fare and stop totals an administrator queries. */
  class ObserverAdmin {
    var fareDayMap: map<string, real>
    var stopsDayMap: map<string, int>

    constructor ()
      ensures fareDayMap == map[] && stopsDayMap == map[]
    {
      fareDayMap, stopsDayMap := map[], map[];
    }

    /** `update(o, date, fareCharged)`: add the fare to the date's total; stop totals untouched. */
    method UpdateFare(date: string, fareCharged: real)
      modifies this`fareDayMap
      ensures fareDayMap == WithFare(old(fareDayMap), date, fareCharged)
    {
      if date in fareDayMap {
        fareDayMap := fareDayMap[date := fareDayMap[date] + fareCharged];
      } else {
        fareDayMap := fareDayMap[date := fareCharged];
      }
    }

    /** `update(o, date, n)`: add the stop count to the date's total; fare totals untouched. */
    method UpdateStops(date: string, n: int)
      modifies this`stopsDayMap
      ensures stopsDayMap == WithStops(old(stopsDayMap), date, n)
    {
      if date in stopsDayMap {
        stopsDayMap := stopsDayMap[date := stopsDayMap[date] + n];
      } else {
        stopsDayMap := stopsDayMap[date := n];
      }
    }

    /** `todayCharge(date)`. */
    function TodayCharge(date: string): (r: real)
      reads this
      ensures date !in fareDayMap ==> r == 0.0
      ensures date in fareDayMap ==> r == fareDayMap[date]
    {
      FareOn(fareDayMap, date)
    }

    /** `todayStops(date)`. */
    function TodayStops(date: string): (r: int)
      reads this
      ensures date !in stopsDayMap ==> r == 0
      ensures date in stopsDayMap ==> r == stopsDayMap[date]
    {
      StopsOn(stopsDayMap, date)
    }
  }

  /** `Observable`: an ordered list of observers, repetitions allowed. */
  class Observable {
    var observers: seq<ObserverAdmin>

    constructor ()
      ensures observers == []
    {
      observers := [];
    }

    /** `attach(o)`: append, even when `o` is already attached. */
    method Attach(o: ObserverAdmin)
      modifies this`observers
      ensures observers == old(observers) + [o]
    {
      observers := observers + [o];
    }

    /** `detach(o)`: remove the first occurrence of `o`; nothing happens when it is not attached. */
    method Detach(o: ObserverAdmin)
      modifies this`observers
      ensures observers == Seqs.RemoveFirst(old(observers), o)
    {
      observers := Seqs.RemoveFirst(observers, o);
    }

    /**
     * `notifyObservers(date, fareCharged)`: every list entry, in order, gets the
     * fare update, so an observer attached k times adds k times the fare to the
     * date's total. Stop totals and the list itself are unchanged.
     */
    method NotifyFare(date: string, fareCharged: real)
      modifies set o | o in observers
      ensures forall o :: o in observers ==> o.stopsDayMap == old(o.stopsDayMap)
      ensures forall o :: o in observers ==>
                o.fareDayMap == FareRepeated(old(o.fareDayMap), date, fareCharged, Seqs.Count(observers, o))
    {
      var i := 0;
      while i < |observers|
        invariant 0 <= i <= |observers|
        invariant forall o :: o in observers ==> o.stopsDayMap == old(o.stopsDayMap)
        invariant forall o :: o in observers ==>
                    o.fareDayMap == FareRepeated(old(o.fareDayMap), date, fareCharged, Seqs.Count(observers[..i], o))
      {
        var x := observers[i];
        label Before:
        x.UpdateFare(date, fareCharged);
        forall o | o in observers
          ensures o.fareDayMap == FareRepeated(old(o.fareDayMap), date, fareCharged, Seqs.Count(observers[..i + 1], o))
        {
          Seqs.CountStep(observers, i, o);
          if o != x {
            assert o.fareDayMap == old@Before(o.fareDayMap);
          }
        }
        i := i + 1;
      }
      assert observers[..i] == observers;
    }

    /**
     * `notifyObservers(date, n)`: every list entry, in order, gets the stops
     * update. Fare totals and the list itself are unchanged.
     */
    method NotifyStops(date: string, n: int)
      modifies set o | o in observers
      ensures forall o :: o in observers ==> o.fareDayMap == old(o.fareDayMap)
      ensures forall o :: o in observers ==>
                o.stopsDayMap == StopsRepeated(old(o.stopsDayMap), date, n, Seqs.Count(observers, o))
    {
      var i := 0;
      while i < |observers|
        invariant 0 <= i <= |observers|
        invariant forall o :: o in observers ==> o.fareDayMap == old(o.fareDayMap)
        invariant forall o :: o in observers ==>
                    o.stopsDayMap == StopsRepeated(old(o.stopsDayMap), date, n, Seqs.Count(observers[..i], o))
      {
        var x := observers[i];
        label Before:
        x.UpdateStops(date, n);
        forall o | o in observers
          ensures o.stopsDayMap == StopsRepeated(old(o.stopsDayMap), date, n, Seqs.Count(observers[..i + 1], o))
        {
          Seqs.CountStep(observers, i, o);
          if o != x {
            assert o.stopsDayMap == old@Before(o.stopsDayMap);
          }
        }
        i := i + 1;
      }
      assert observers[..i] == observers;
    }
  }
}
