/**
 * The fare-card domain: tap events (`system/event/Event.java`), trips
 * (`system/Trip.java`), cards (`entities/Card.java`) and riders
 * (`users/Rider.java`). They refer to each other in a cycle (an event names its
 * card, a card its bearer and its trips, a trip its events), so they share one
 * module. Money (Java `float`) is `real`; a `LocalDateTime` is an `int`
 * timestamp; Java's `null` is `None` or a nullable reference.
 */
module Accounts {
  import opened Wrappers
  import Seqs
  import Ids
  import Topology

  // ---------------------------------------------------------------------------
  // Event
  // ---------------------------------------------------------------------------

  /** The only directions `setDirection` accepts. */
  predicate ValidDirection(d: string) {
    d == "enter" || d == "exit"
  }

  /** `Event`: a tap of `card` at `location` at time `timeStamp`, with a direction that may be unset. */
  class Event {
    const location: Topology.TransitStop
    const timeStamp: int
    const card: Card
    var direction: Option<string>

    /** The three-argument constructor: the direction stays unset. */
    constructor (location: Topology.TransitStop, timeStamp: int, card: Card)
      ensures this.location == location && this.timeStamp == timeStamp && this.card == card
      ensures direction == None
    {
      this.location := location;
      this.timeStamp := timeStamp;
      this.card := card;
      direction := None;
    }

    /**
     * The four-argument constructor: the three-argument one followed by
     * `setDirection`, so an invalid direction leaves it unset.
     */
    constructor WithDirection(location: Topology.TransitStop, timeStamp: int, card: Card, direction: string)
      ensures this.location == location && this.timeStamp == timeStamp && this.card == card
      ensures this.direction == if ValidDirection(direction) then Some(direction) else None
    {
      this.location := location;
      this.timeStamp := timeStamp;
      this.card := card;
      this.direction := None;
      new;
      SetDirection(direction);
    }

    /** `setDirection(d)`: takes `d` when it is "enter" or "exit", otherwise keeps the old direction. */
    method SetDirection(d: string)
      modifies this`direction
      ensures direction == if ValidDirection(d) then Some(d) else old(direction)
      ensures ValidDirection(d) ==> (IsEntering() <==> d == "enter")
    {
      if d == "enter" || d == "exit" {
        direction := Some(d);
      }
    }

    /** `isEntering()`: the direction is "enter"; an unset direction would be dereferenced, so it must be set. */
    predicate IsEntering()
      reads this
      requires direction.Some?
      ensures IsEntering() <==> direction == Some("enter")
      ensures IsEntering() ==> ValidDirection(direction.value)
    {
      direction.value == "enter"
    }
  }

  // ---------------------------------------------------------------------------
  // Trip
  // ---------------------------------------------------------------------------

  /** `Trip.MAX`: the most a single trip may cost. */
  const MAX: real := 6.0

  /** The timestamps of a list of events, in list order. */
  function Times(events: seq<Event>): (ts: seq<int>)
    ensures |ts| == |events|
    ensures forall k :: 0 <= k < |events| ==> ts[k] == events[k].timeStamp
  {
    seq(|events|, k requires 0 <= k < |events| => events[k].timeStamp)
  }

  /** Inserting an event inserts its timestamp at the same place. */
  lemma TimesInsertAt(events: seq<Event>, i: nat, e: Event)
    requires i <= |events|
    ensures Times(Seqs.InsertAt(events, i, e)) == Seqs.InsertAt(Times(events), i, e.timeStamp)
  {
  }

  /** Timestamps in non-decreasing order. */
  predicate Chronological(ts: seq<int>) {
    forall a, b :: 0 <= a < b < |ts| ==> ts[a] <= ts[b]
  }

  /**
   * The scan of `addEvent` from position `i`: while the event before position
   * `i` is strictly earlier than `t` and `i` is not past the end, step on.
   */
  function ScanFrom(ts: seq<int>, t: int, i: nat): (r: nat)
    requires 1 <= i <= |ts|
    ensures i <= r <= |ts|
    ensures forall k :: i - 1 <= k < r - 1 ==> ts[k] < t
    ensures r < |ts| ==> ts[r - 1] >= t
    decreases |ts| - i
  {
    if ts[i - 1] < t && i < |ts| then ScanFrom(ts, t, i + 1) else i
  }

  /**
   * Where `addEvent` puts an event with timestamp `t`: one past the first
   * event not earlier than `t`, or at the end when there is none. Never at 0.
   */
  function AddEventIndex(ts: seq<int>, t: int): (r: nat)
    requires |ts| > 0
    ensures 1 <= r <= |ts|
    ensures forall k :: 0 <= k < r - 1 ==> ts[k] < t
    ensures r < |ts| ==> ts[r - 1] >= t
  {
    ScanFrom(ts, t, 1)
  }

  /**
   * On a chronological list, an event strictly later than the latest is
   * appended, and one not earlier than the latest keeps the list chronological.
   */
  lemma AddEventAfterLatest(ts: seq<int>, t: int)
    requires |ts| > 0 && Chronological(ts) && t >= ts[|ts| - 1]
    ensures t > ts[|ts| - 1] ==> Seqs.InsertAt(ts, AddEventIndex(ts, t), t) == ts + [t]
    ensures Chronological(Seqs.InsertAt(ts, AddEventIndex(ts, t), t))
  {
    var r := AddEventIndex(ts, t);
    var s := Seqs.InsertAt(ts, r, t);
    if r < |ts| {
      // ts[r - 1] >= t >= the latest timestamp, so everything from r - 1 on equals t
      assert forall k :: r - 1 <= k < |ts| ==> ts[k] == t;
    }
    forall a, b | 0 <= a < b < |s| ensures s[a] <= s[b] {
      if b == r {
        assert s[a] == ts[a];
      } else if a == r {
        assert s[b] == ts[b - 1];
      }
    }
  }

  /**
   * As written, `addEvent` misplaces an event that falls strictly inside the
   * trip: into times 1, 5 it puts 3 after the 5.
   */
  lemma AddEventMisplacesMidTrip()
    ensures AddEventIndex([1, 5], 3) == 2
    ensures Seqs.InsertAt([1, 5], AddEventIndex([1, 5], 3), 3) == [1, 5, 3]
    ensures !Chronological([1, 5, 3])
  {
    assert ScanFrom([1, 5], 3, 1) == ScanFrom([1, 5], 3, 2);
    var s := Seqs.InsertAt([1, 5], 2, 3);
    assert s[0] == 1 && s[1] == 5 && s[2] == 3;
    assert [1, 5, 3][1] > [1, 5, 3][2];
  }

  /** The chronological slot from position `i`: the first event strictly later than `t`, else the end. */
  function ChronoFrom(ts: seq<int>, t: int, i: nat): (r: nat)
    requires i <= |ts|
    ensures i <= r <= |ts|
    ensures forall k :: i <= k < r ==> ts[k] <= t
    ensures r < |ts| ==> ts[r] > t
    decreases |ts| - i
  {
    if i < |ts| && ts[i] <= t then ChronoFrom(ts, t, i + 1) else i
  }

  /** The place the documentation of `addEvent` promises: chronological, after any equal timestamps. */
  function ChronoIndex(ts: seq<int>, t: int): (r: nat)
    ensures r <= |ts|
  {
    ChronoFrom(ts, t, 0)
  }

  /**
   * Inserting at the chronological index keeps a chronological list
   * chronological, and agrees with `addEvent` for an event later than the latest.
   */
  lemma ChronoInsertKeepsOrder(ts: seq<int>, t: int)
    requires Chronological(ts)
    ensures Chronological(Seqs.InsertAt(ts, ChronoIndex(ts, t), t))
    ensures |ts| > 0 && t > ts[|ts| - 1] ==> ChronoIndex(ts, t) == AddEventIndex(ts, t)
  {
    var r := ChronoIndex(ts, t);
    var s := Seqs.InsertAt(ts, r, t);
    forall a, b | 0 <= a < b < |s| ensures s[a] <= s[b] {
      if b == r {
        assert s[a] == ts[a];
      } else if a == r {
        assert s[b] == ts[b - 1];
      }
    }
  }

  /**
   * The price after each amount in turn is passed to `addCost`, and the sum of
   * what those calls return.
   */
  function PriceAfter(p: real, amounts: seq<real>): real
    decreases |amounts|
  {
    if amounts == [] then p else PriceAfter(CappedPrice(p, amounts[0]), amounts[1..])
  }

  function Charged(p: real, amounts: seq<real>): real
    decreases |amounts|
  {
    if amounts == [] then 0.0
    else (CappedPrice(p, amounts[0]) - p) + Charged(CappedPrice(p, amounts[0]), amounts[1..])
  }

  /**
   * The cap `addCost` applies: the new price never exceeds `MAX` when the old
   * one did not, and a non-negative amount raises the price by at most itself.
   */
  function CappedPrice(p: real, amount: real): (r: real)
    ensures p <= MAX ==> r <= MAX
    ensures 0.0 <= amount && p <= MAX ==> p <= r <= p + amount
    ensures r < MAX ==> r == p + amount
  {
    if p + amount > MAX then MAX else p + amount
  }

  /** Starting from 4, adding 5 caps the price at 6 and charges 2. */
  lemma CappedPriceExample()
    ensures CappedPrice(4.0, 5.0) == 6.0 && CappedPrice(4.0, 5.0) - 4.0 == 2.0
  {
  }

  /**
   * Over any sequence of `addCost` calls on a trip within the cap, what the calls
   * return adds up to the rise in price, so a trip is never charged more than `MAX`.
   */
  lemma {:induction false} ChargedIsPriceRise(p: real, amounts: seq<real>)
    requires p <= MAX
    ensures Charged(p, amounts) == PriceAfter(p, amounts) - p
    ensures PriceAfter(p, amounts) <= MAX
    decreases |amounts|
  {
    if amounts != [] {
      ChargedIsPriceRise(CappedPrice(p, amounts[0]), amounts[1..]);
    }
  }

  /**
   * What `addEvent` does to an event list: it grows by one, the first event
   * stays first (so the start time is kept), the old events keep their
   * relative order, and a chronological list stays chronological when the new
   * event is not earlier than the latest.
   */
  lemma AddEventShape(events: seq<Event>, e: Event)
    requires |events| > 0
    ensures var i := AddEventIndex(Times(events), e.timeStamp);
      var r := Seqs.InsertAt(events, i, e);
      && |r| == |events| + 1 && r[0] == events[0]
      && r[..i] + r[i + 1..] == events
      && (Chronological(Times(events)) && e.timeStamp >= events[|events| - 1].timeStamp ==> Chronological(Times(r)))
  {
    var ts := Times(events);
    var i := AddEventIndex(ts, e.timeStamp);
    Seqs.InsertThenDrop(events, i, e);
    TimesInsertAt(events, i, e);
    if Chronological(ts) && e.timeStamp >= ts[|ts| - 1] {
      AddEventAfterLatest(ts, e.timeStamp);
    }
  }

  /** `Trip`: the events of one journey and the price charged for it so far. */
  class Trip {
    var events: seq<Event>
    var price: real

    /** `new Trip(initialEvent)`: exactly the initial event, price 0. */
    constructor (initialEvent: Event)
      ensures events == [initialEvent] && price == 0.0
    {
      events := [initialEvent];
      price := 0.0;
    }

    /**
     * `addEvent(e)`: walk from the first event while the current one is
     * strictly earlier than `e`, then insert `e` at the position reached.
     * The list grows by one, the first event stays first, and the old events
     * keep their order.
     */
    method AddEvent(e: Event)
      requires |events| > 0
      modifies this`events
      ensures events == Seqs.InsertAt(old(events), AddEventIndex(Times(old(events)), e.timeStamp), e)
    {
      ghost var ts := Times(events);
      var curr := events[0];
      var i := 1;
      while curr.timeStamp < e.timeStamp && i < |events|
        invariant 1 <= i <= |events|
        invariant curr == events[i - 1]
        invariant ScanFrom(ts, e.timeStamp, i) == AddEventIndex(ts, e.timeStamp)
        decreases |events| - i
      {
        curr := events[i];
        i := i + 1;
      }
      events := Seqs.InsertAt(events, i, e);
    }

    /** `removeEvent(e)`: remove the first occurrence of `e`; nothing happens when it is absent. */
    method RemoveEvent(e: Event)
      modifies this`events
      ensures events == Seqs.RemoveFirst(old(events), e)
    {
      events := Seqs.RemoveFirst(events, e);
    }

    /** `getLatestEvent()`: the last event. */
    function LatestEvent(): (e: Event)
      reads this
      requires |events| > 0
      ensures e == events[|events| - 1]
    {
      events[|events| - 1]
    }

    /** `getSecondLastEvent()`: `null` below two events, else the one before the last. */
    function SecondLastEvent(): (r: Option<Event>)
      reads this
      ensures r.None? <==> |events| < 2
      ensures r.Some? ==> r.value == events[|events| - 2]
    {
      if NumEvents() < 2 then None else Some(events[NumEvents() - 2])
    }

    /** `getStartTime()`: the time of the first event. */
    function StartTime(): int
      reads this
      requires |events| > 0
    {
      events[0].timeStamp
    }

    /** `getEndTime()`: the time of the latest event. */
    function EndTime(): int
      reads this
      requires |events| > 0
    {
      LatestEvent().timeStamp
    }

    /** `getNumEvents()`. */
    function NumEvents(): nat
      reads this
    {
      |events|
    }

    /**
     * `addCost(amount)`: add to the price, capped at `MAX`, and return the
     * amount actually added.
     */
    method AddCost(amount: real) returns (delta: real)
      modifies this`price
      ensures price == CappedPrice(old(price), amount)
      ensures delta == price - old(price)
    {
      var originalPrice := price;
      if originalPrice + amount > MAX {
        price := MAX;
      } else {
        price := price + amount;
      }
      delta := price - originalPrice;
    }
  }

  /**
   * The time accessors of a trip: the start is the first event's time and the
   * end the latest's, the second-last event comes just before the latest, and
   * on a chronological trip the start is no later than the end.
   */
  lemma TripTimes(t: Trip)
    requires |t.events| > 0
    ensures t.StartTime() == Times(t.events)[0] && t.EndTime() == Times(t.events)[t.NumEvents() - 1]
    ensures t.SecondLastEvent().Some? ==> t.SecondLastEvent().value.timeStamp == Times(t.events)[t.NumEvents() - 2]
    ensures Chronological(Times(t.events)) ==> t.StartTime() <= t.EndTime()
    ensures Chronological(Times(t.events)) && t.SecondLastEvent().Some? ==>
              t.SecondLastEvent().value.timeStamp <= t.EndTime()
  {
  }

  // ---------------------------------------------------------------------------
  // Card
  // ---------------------------------------------------------------------------

  /** `Card`: a balance, an active flag, a fixed bearer and ID, and the trips taken with it. */
  class Card {
    var balance: real
    const id: Ids.Id
    var active: bool
    const bearer: Rider
    var trips: seq<Trip>

    /** `new Card(issuedTo)`: active, balance 19, no trips, and a newly generated card ID. */
    constructor (issuedTo: Rider, ids: Ids.IdAllocator)
      modifies ids
      ensures active && balance == 19.0 && bearer == issuedTo && trips == []
      ensures id.kind == Ids.CARD && id.uid == Some(Ids.CardUid(old(ids.cardCount)))
      ensures ids.registry == old(ids.registry) + [id]
      ensures ids.cardCount == old(ids.cardCount) + 1 && ids.riderCount == old(ids.riderCount)
    {
      active := true;
      balance := 19.0;
      bearer := issuedTo;
      var newId := ids.GenerateId(Ids.CARD);
      id := newId;
      trips := [];
    }

    /** `new Card(issuedTo, ID)`: as above, but the ID comes from `IDGenerator.fromString`. */
    constructor FromText(issuedTo: Rider, ids: Ids.IdAllocator, text: string)
      requires |text| > 0 && Ids.AllNamed(ids.registry)
      requires Ids.Registered(ids.registry, text) ==> Ids.IsNumeric(text)
      modifies ids
      ensures active && balance == 19.0 && bearer == issuedTo && trips == []
      ensures ids.registry == old(ids.registry) + [id]
      ensures id.uid.Some? && |id.uid.value| > 0 && id == Ids.IdOfString(id.uid.value)
      ensures !Ids.Registered(old(ids.registry), id.uid.value)
      ensures !Ids.Registered(old(ids.registry), text) ==> id.uid == Some(text)
      ensures Ids.Registered(old(ids.registry), text) ==>
                exists k :: Ids.ProbedUpTo(old(ids.registry), Ids.ParseNat(text), k) && id.uid == Some(Ids.NatToString(k))
      ensures ids.cardCount == old(ids.cardCount) && ids.riderCount == old(ids.riderCount)
    {
      active := true;
      balance := 19.0;
      bearer := issuedTo;
      var newId := ids.FromString(text);
      id := newId;
      trips := [];
    }

    /** `new Card(issuedTo, ID, balance)`: as `FromText`, with the given balance. */
    constructor FromTextWithBalance(issuedTo: Rider, ids: Ids.IdAllocator, text: string, balance: real)
      requires |text| > 0 && Ids.AllNamed(ids.registry)
      requires Ids.Registered(ids.registry, text) ==> Ids.IsNumeric(text)
      modifies ids
      ensures active && this.balance == balance && bearer == issuedTo && trips == []
      ensures ids.registry == old(ids.registry) + [id]
      ensures id.uid.Some? && |id.uid.value| > 0 && id == Ids.IdOfString(id.uid.value)
      ensures !Ids.Registered(old(ids.registry), id.uid.value)
      ensures !Ids.Registered(old(ids.registry), text) ==> id.uid == Some(text)
      ensures Ids.Registered(old(ids.registry), text) ==>
                exists k :: Ids.ProbedUpTo(old(ids.registry), Ids.ParseNat(text), k) && id.uid == Some(Ids.NatToString(k))
      ensures ids.cardCount == old(ids.cardCount) && ids.riderCount == old(ids.riderCount)
    {
      active := true;
      this.balance := balance;
      bearer := issuedTo;
      var newId := ids.FromString(text);
      id := newId;
      trips := [];
    }

    /** `setBalance(b)`: overwrite the balance. */
    method SetBalance(b: real)
      modifies this`balance
      ensures balance == b
    {
      balance := b;
    }

    /** `addBalance(v)`: raise the balance by exactly `v`. */
    method AddBalance(v: real)
      modifies this`balance
      ensures balance == old(balance) + v
    {
      balance := balance + v;
    }

    /** `startTrip(e)`: append a new trip holding only `e` and return it. */
    method StartTrip(initialEvent: Event) returns (t: Trip)
      modifies this`trips
      ensures fresh(t) && t.events == [initialEvent] && t.price == 0.0
      ensures trips == old(trips) + [t]
    {
      t := new Trip(initialEvent);
      trips := trips + [t];
    }

    /**
     * `removeLatestEventFromTrip(trip)`: a one-event trip is taken off the card
     * (nothing happens if it is not on it); otherwise the first occurrence of
     * the trip's latest event is removed, which is the latest one when no event
     * repeats. Balance and active flag stay as they are.
     */
    method RemoveLatestEventFromTrip(trip: Trip)
      requires |trip.events| > 0
      modifies this`trips, trip`events
      ensures |old(trip.events)| == 1 ==> trips == Seqs.RemoveFirst(old(trips), trip) && trip.events == old(trip.events)
      ensures |old(trip.events)| != 1 ==> trips == old(trips)
      ensures |old(trip.events)| != 1 ==> trip.events == Seqs.RemoveFirst(old(trip.events), old(trip.LatestEvent()))
      ensures |old(trip.events)| != 1 && (forall a, b :: 0 <= a < b < |old(trip.events)| ==> old(trip.events)[a] != old(trip.events)[b])
        ==> trip.events == old(trip.events)[..|old(trip.events)| - 1]
    {
      if trip.NumEvents() == 1 {
        trips := Seqs.RemoveFirst(trips, trip);
      } else {
        if forall a, b :: 0 <= a < b < |trip.events| ==> trip.events[a] != trip.events[b] {
          Seqs.RemoveLastOfDistinct(trip.events);
        }
        var latest := trip.LatestEvent();
        trip.RemoveEvent(latest);
      }
    }

    /**
     * `suspend(userId)`: when `userId` equals the bearer's ID, deactivate and
     * report success; otherwise change nothing and report failure.
     */
    method Suspend(userId: Ids.Id) returns (ok: bool)
      requires userId.uid.Some?
      modifies this`active
      ensures ok <==> userId.uid == bearer.id.uid
      ensures active == if ok then false else old(active)
    {
      if Ids.Equals(userId, Some(bearer.id)) {
        active := false;
        return true;
      }
      return false;
    }

    /** `reActivate(userId)`: as `Suspend`, but activates. */
    method ReActivate(userId: Ids.Id) returns (ok: bool)
      requires userId.uid.Some?
      modifies this`active
      ensures ok <==> userId.uid == bearer.id.uid
      ensures active == if ok then true else old(active)
    {
      if Ids.Equals(userId, Some(bearer.id)) {
        active := true;
        return true;
      }
      return false;
    }

    /**
     * `charge(amount)`: an active card with a positive balance is debited
     * (possibly below zero) and the call succeeds; otherwise nothing changes.
     */
    method Charge(amount: real) returns (ok: bool)
      modifies this`balance
      ensures ok <==> active && old(balance) > 0.0
      ensures balance == if ok then old(balance) - amount else old(balance)
    {
      if active && balance > 0.0 {
        balance := balance - amount;
        return true;
      }
      return false;
    }
  }

  // ---------------------------------------------------------------------------
  // Rider: name validation
  // ---------------------------------------------------------------------------

  predicate IsLetter(c: char) {
    'A' <= c <= 'Z' || 'a' <= c <= 'z'
  }

  /** Java's `\s`: space, tab, line feed, vertical tab, form feed, carriage return. */
  predicate IsSpace(c: char) {
    c == ' ' || c == '\t' || c == '\n' || c == '\U{000B}' || c == '\U{000C}' || c == '\r'
  }

  /** The pattern `[^A-Za-z\s]` finds a match. */
  predicate HasSpecialChar(s: string) {
    exists i :: 0 <= i < |s| && !IsLetter(s[i]) && !IsSpace(s[i])
  }

  /**
   * The pattern `^\s+$` finds a match. On the strings it is applied to (no
   * special character) this is: non-empty and nothing but whitespace.
   */
  predicate AllBlank(s: string) {
    |s| > 0 && forall i :: 0 <= i < |s| ==> IsSpace(s[i])
  }

  /** The names `changeName` accepts. */
  predicate ValidName(s: string) {
    !HasSpecialChar(s) && !(s == "" || AllBlank(s))
  }

  /** An accepted name is one made of letters and whitespace only, with at least one letter. */
  lemma ValidNameMeaning(s: string)
    ensures ValidName(s) <==>
      (forall i :: 0 <= i < |s| ==> IsLetter(s[i]) || IsSpace(s[i])) && exists i :: 0 <= i < |s| && IsLetter(s[i])
  {
    if ValidName(s) {
      assert !AllBlank(s) && |s| > 0;
      var i :| 0 <= i < |s| && !IsSpace(s[i]);
      assert IsLetter(s[i]);
    }
  }

  /** The amounts `reloadCard` accepts on a rider made with an ID. */
  const RELOAD_AMOUNTS: seq<real> := [10.0, 20.0, 50.0]

  // ---------------------------------------------------------------------------
  // Rider: the three most recent trips
  // ---------------------------------------------------------------------------

  /**
   * What `insertTrip` and `recentTrips` see of a trip: the trip itself and the
   * end time `getEndTime` reports, `None` when the trip has no event and
   * `getEndTime` throws.
   */
  datatype Visit = Visit(trip: Trip, end: Option<int>)

  /** The visit of trip `t` in the current state. */
  function VisitOf(t: Trip): (v: Visit)
    reads t
    ensures v.trip == t
    ensures v.end.Some? <==> |t.events| > 0
    ensures v.end.Some? ==> v.end.value == t.EndTime()
  {
    Visit(t, if t.NumEvents() > 0 then Some(t.EndTime()) else None)
  }

  /** The visits of a list of trips, in order. */
  function Visits(ts: seq<Trip>): (vs: seq<Visit>)
    reads ts
    ensures |vs| == |ts|
  {
    if ts == [] then [] else Visits(ts[..|ts| - 1]) + [VisitOf(ts[|ts| - 1])]
  }

  /** The `k`-th visit is that of the `k`-th trip. */
  lemma {:induction false} VisitsAt(ts: seq<Trip>, k: nat)
    requires k < |ts|
    ensures Visits(ts)[k] == VisitOf(ts[k])
    decreases |ts|
  {
    if k < |ts| - 1 {
      VisitsAt(ts[..|ts| - 1], k);
    }
  }

  /** The array slots of `recentTrips`: `None` is an empty (`null`) slot. */
  type Slots = seq<Option<Visit>>

  /** The end time seen at slot `k`: `None` for an empty slot or a trip without events. */
  function EndAt(a: Slots, k: nat): Option<int>
    requires k < |a|
  {
    if a[k].Some? then a[k].value.end else None
  }

  /** Where the scan of `insertTrip` stops. */
  datatype Slot =
    | At(i: nat)      // slot `i` holds a trip ending strictly earlier: insert there
    | Beyond          // every slot holds a trip ending no earlier: nothing changes
    | Throws(i: nat)  // comparing with slot `i` throws: it is empty, or a trip compared has no event

  /** The scan of `insertTrip` for visit `x` from slot `i`. */
  function SlotFrom(a: Slots, x: Visit, i: nat): (s: Slot)
    requires i <= |a|
    ensures s.At? ==> i <= s.i < |a| && x.end.Some? && EndAt(a, s.i).Some? && x.end.value > EndAt(a, s.i).value
    ensures s.Throws? ==> i <= s.i < |a| && (x.end.None? || EndAt(a, s.i).None?)
    ensures var stop := if s.Beyond? then |a| else s.i;
      forall k :: i <= k < stop ==> x.end.Some? && EndAt(a, k).Some? && EndAt(a, k).value >= x.end.value
    decreases |a| - i
  {
    if i == |a| then Beyond
    else if x.end.None? || EndAt(a, i).None? then Throws(i)
    else if x.end.value > EndAt(a, i).value then At(i)
    else SlotFrom(a, x, i + 1)
  }

  /** `x` placed at position `i`, the later elements shifted one to the right and the last one dropped. */
  function Shifted<T>(a: seq<T>, i: nat, x: T): (r: seq<T>)
    requires i < |a|
    ensures |r| == |a| && r[i] == x
    ensures forall k :: 0 <= k < i ==> r[k] == a[k]
    ensures forall k :: i < k < |a| ==> r[k] == a[k - 1]
  {
    Seqs.InsertAt(a, i, x)[..|a|]
  }

  /** The slots after `insertTrip(a, x)`, or `None` when it throws. */
  function InsertedTrips(a: Slots, x: Visit): (r: Option<Slots>)
    ensures r.Some? ==> |r.value| == |a|
    ensures r.Some? ==> r.value == a || Some(x) in r.value
    ensures r.None? ==> x.end.None? || exists k :: 0 <= k < |a| && EndAt(a, k).None?
  {
    match SlotFrom(a, x, 0)
    case At(i) => Some(Shifted(a, i, Some(x)))
    case Beyond => Some(a)
    case Throws(_) => None
  }

  /** One step of `recentTrips`: the first trip fills slot 0, any later one goes through `insertTrip`. */
  function RecentStep(acc: Slots, x: Visit): (r: Option<Slots>)
    requires |acc| > 0
    ensures r.Some? ==> |r.value| == |acc|
  {
    if acc[0].None? then Some(acc[0 := Some(x)]) else InsertedTrips(acc, x)
  }

  /**
   * `recentTrips` over the visits `vs` in the order it makes them: the three
   * slots it returns, or `None` when its call to `insertTrip` throws.
   */
  function RecentFold(vs: seq<Visit>): (r: Option<Slots>)
    ensures r.Some? ==> |r.value| == 3
    decreases |vs|
  {
    if vs == [] then Some([None, None, None])
    else
      match RecentFold(vs[..|vs| - 1])
      case None => None
      case Some(acc) => RecentStep(acc, vs[|vs| - 1])
  }

  /** One more visit: one more step of `recentTrips`. */
  lemma FoldStep(seen: seq<Visit>, x: Visit)
    ensures RecentFold(seen + [x]) == match RecentFold(seen)
      case None => None
      case Some(acc) => RecentStep(acc, x)
  {
    assert (seen + [x])[..|seen|] == seen;
  }

  /** A `recentTrips` call that has thrown stays thrown however many trips follow. */
  lemma {:induction false} FailureSticks(xs: seq<Visit>, ys: seq<Visit>)
    requires xs <= ys && RecentFold(xs) == None
    ensures RecentFold(ys) == None
    decreases |ys|
  {
    if |ys| > |xs| {
      var prefix := ys[..|ys| - 1];
      assert xs <= prefix;
      FailureSticks(xs, prefix);
    } else {
      assert ys == xs;
    }
  }

  /** The trips in the slots, `null` for an empty one. */
  function Refs(a: Slots): (r: seq<Trip?>)
    ensures |r| == |a|
    ensures forall k :: 0 <= k < |a| ==> r[k] == if a[k].Some? then a[k].value.trip else null
  {
    seq(|a|, k requires 0 <= k < |a| => if a[k].Some? then a[k].value.trip else null)
  }

  /** Every occupied slot still shows what its trip reports in the current state. */
  predicate Current(a: Slots)
    reads Refs(a)
  {
    forall k :: 0 <= k < |a| && a[k].Some? ==> a[k].value == VisitOf(a[k].value.trip)
  }

  /** A step with a current visit leaves only current visits in the slots. */
  lemma StepKeepsCurrent(acc: Slots, x: Visit)
    requires |acc| > 0 && Current(acc) && x == VisitOf(x.trip)
    requires RecentStep(acc, x).Some?
    ensures Current(RecentStep(acc, x).value)
  {
    var r := RecentStep(acc, x).value;
    forall k | 0 <= k < |r| && r[k].Some? ensures r[k].value == VisitOf(r[k].value.trip) {
      if acc[0].Some? && SlotFrom(acc, x, 0).At? {
        var i := SlotFrom(acc, x, 0).i;
        if k > i {
          assert r[k] == acc[k - 1];
        }
      }
    }
  }

  /** The occupied slots come first, and the trips in them end latest first. */
  predicate Ranked(a: Slots) {
    && (forall i, j :: 0 <= i < j < |a| && a[i].None? ==> a[j].None?)
    && (forall i :: 0 < i < |a| && a[i].Some? ==>
          EndAt(a, i - 1).Some? && EndAt(a, i).Some? && EndAt(a, i - 1).value >= EndAt(a, i).value)
  }

  /** `v` ends no later than the trip in the last of the three slots. */
  predicate Outranked(v: Visit, a: Slots)
    requires |a| == 3
  {
    v.end.Some? && EndAt(a, 2).Some? && v.end.value <= EndAt(a, 2).value
  }

  /** Every visit made is in a slot or ends no later than the last slot's trip. */
  predicate Latest(vs: seq<Visit>, a: Slots)
    requires |a| == 3
  {
    forall k :: 0 <= k < |vs| ==> Some(vs[k]) in a || Outranked(vs[k], a)
  }

  /** Every occupied slot holds a visit that was made. */
  predicate Drawn(vs: seq<Visit>, a: Slots) {
    forall k :: 0 <= k < |a| && a[k].Some? ==> a[k].value in vs
  }

  /** Putting the visit just made into a slot, or leaving the slots alone, keeps every slot drawn from the visits made. */
  lemma DrawnStep(init: seq<Visit>, acc: Slots, x: Visit, i: nat)
    requires i < |acc| && Drawn(init, acc)
    ensures Drawn(init + [x], acc)
    ensures Drawn(init + [x], Shifted(acc, i, Some(x)))
    ensures Drawn(init + [x], acc[i := Some(x)])
  {
    var vs := init + [x];
    var r := Shifted(acc, i, Some(x));
    forall k | 0 <= k < |acc| && acc[k].Some? ensures acc[k].value in vs {
      assert acc[k].value in init;
    }
    forall k | 0 <= k < |r| && r[k].Some? ensures r[k].value in vs {
      if k > i {
        assert r[k] == acc[k - 1];
      } else if k < i {
        assert r[k] == acc[k];
      }
    }
  }

  /**
   * Slot `i` is a place for `x` in ranked slots: every earlier slot ends no
   * earlier than `x`, and slot `i` is empty or ends strictly earlier.
   */
  predicate Fits(acc: Slots, x: Visit, i: nat) {
    && i < |acc| && x.end.Some?
    && (forall k :: 0 <= k < i ==> EndAt(acc, k).Some? && EndAt(acc, k).value >= x.end.value)
    && (acc[i].None? || (EndAt(acc, i).Some? && x.end.value > EndAt(acc, i).value))
  }

  /** Inserting at a place that fits keeps the slots ranked, and the last slot ends no earlier. */
  lemma InsertRanked(acc: Slots, x: Visit, i: nat)
    requires |acc| == 3 && Ranked(acc) && Fits(acc, x, i)
    ensures Ranked(Shifted(acc, i, Some(x)))
    ensures EndAt(acc, 2).Some? ==> Outranked(acc[2].value, Shifted(acc, i, Some(x)))
  {
    var r := Shifted(acc, i, Some(x));
    forall k | 0 <= k < |r|
      ensures r[k] == if k < i then acc[k] else if k == i then Some(x) else acc[k - 1]
      ensures EndAt(r, k) == if k < i then EndAt(acc, k) else if k == i then x.end else EndAt(acc, k - 1)
    {
      if k > i {
        assert r[k] == acc[k - 1];
      }
    }
    forall k | 0 <= k < i ensures acc[k].Some? {
      assert EndAt(acc, k).Some?;
    }
    forall p, q | 0 <= p < q < |r| && r[p].None? ensures r[q].None? {
      assert acc[p - 1].None? && acc[q - 1].None?;
    }
    forall k | 0 < k < |r| && r[k].Some?
      ensures EndAt(r, k - 1).Some? && EndAt(r, k).Some? && EndAt(r, k - 1).value >= EndAt(r, k).value
    {
      if k < i {
        assert EndAt(acc, k - 1).Some? && EndAt(acc, k).Some?;
      } else if k == i {
        assert EndAt(acc, k - 1).Some?;
      } else if k == i + 1 {
        assert acc[i].Some? && EndAt(acc, i).Some?;
      } else {
        assert acc[k - 1].Some?;
      }
    }
  }

  /** After inserting at a place that fits, the visits made are still in a slot or outranked. */
  lemma InsertLatest(init: seq<Visit>, acc: Slots, x: Visit, i: nat)
    requires |acc| == 3 && Ranked(acc) && Latest(init, acc) && Fits(acc, x, i)
    ensures Latest(init + [x], Shifted(acc, i, Some(x)))
  {
    var r := Shifted(acc, i, Some(x));
    var vs := init + [x];
    InsertRanked(acc, x, i);
    forall k | 0 <= k < |vs| ensures Some(vs[k]) in r || Outranked(vs[k], r) {
      if k == |init| {
        assert r[i] == Some(x);
      } else {
        var v := vs[k];
        assert v == init[k];
        if Some(v) in acc {
          var p :| 0 <= p < 3 && acc[p] == Some(v);
          if p < i {
            assert r[p] == Some(v);
          } else if p < 2 {
            assert r[p + 1] == Some(v);
          }
        } else {
          assert Outranked(v, acc);
        }
      }
    }
  }

  /** A step of `recentTrips` that does not throw keeps the slots ranked and holding the latest trips. */
  lemma StepRanked(init: seq<Visit>, acc: Slots, x: Visit)
    requires |acc| == 3 && Ranked(acc) && Latest(init, acc)
    requires init == [] ==> acc == [None, None, None]
    requires init != [] ==> acc[0].Some?
    requires Drawn(init, acc)
    requires RecentStep(acc, x).Some?
    ensures Ranked(RecentStep(acc, x).value) && Latest(init + [x], RecentStep(acc, x).value)
    ensures Drawn(init + [x], RecentStep(acc, x).value)
    ensures RecentStep(acc, x).value[0].Some?
  {
    var r := RecentStep(acc, x).value;
    var vs := init + [x];
    DrawnStep(init, acc, x, 0);
    if acc[0].None? {
      assert r == [Some(x), None, None];
      assert vs == [x];
    } else {
      match SlotFrom(acc, x, 0)
      case Beyond =>
        assert Outranked(x, acc);
        forall k | 0 <= k < |vs| ensures Some(vs[k]) in r || Outranked(vs[k], r) {
          if k < |init| {
            assert vs[k] == init[k];
          }
        }
      case At(i) =>
        assert Fits(acc, x, i);
        InsertRanked(acc, x, i);
        InsertLatest(init, acc, x, i);
        DrawnStep(init, acc, x, i);
    }
  }

  /**
   * Whenever `recentTrips` does not throw, its slots are ranked latest first,
   * every trip it visited is in a slot or ends no later than the last slot's,
   * every slot holds a trip it visited, and once a trip has been visited slot 0
   * is occupied.
   */
  lemma {:induction false} RecentTripsRanked(vs: seq<Visit>)
    requires RecentFold(vs).Some?
    ensures Ranked(RecentFold(vs).value) && Latest(vs, RecentFold(vs).value)
    ensures Drawn(vs, RecentFold(vs).value)
    ensures vs != [] ==> RecentFold(vs).value[0].Some?
    decreases |vs|
  {
    if vs != [] {
      var init, x := vs[..|vs| - 1], vs[|vs| - 1];
      assert vs == init + [x];
      RecentTripsRanked(init);
      StepRanked(init, RecentFold(init).value, x);
    }
  }

  /**
   * The first trip visited goes into slot 0. A second one that ends strictly
   * later takes slot 0 and pushes the first to slot 1; one that ends no later
   * is compared with the empty slot 1, and `recentTrips` throws.
   */
  lemma RecentTwoTrips(x: Visit, y: Visit)
    requires x.end.Some? && y.end.Some?
    ensures RecentFold([x]) == Some([Some(x), None, None])
    ensures RecentFold([x, y]) == if y.end.value > x.end.value then Some([Some(y), Some(x), None]) else None
  {
    var a := [Some(x), None, None];
    FoldStep([], x);
    assert [] + [x] == [x];
    assert [None, None, None][0 := Some(x)] == a;
    FoldStep([x], y);
    assert [x] + [y] == [x, y];
    assert RecentFold([x, y]) == InsertedTrips(a, y);
    if y.end.value > x.end.value {
      assert SlotFrom(a, y, 0) == At(0);
      var r := Shifted(a, 0, Some(y));
      assert r[1] == a[0] && r[2] == a[1];
      assert r == [Some(y), Some(x), None];
    } else {
      assert SlotFrom(a, y, 1) == Throws(1);
    }
  }

  /**
   * The scan `insertTrip` evidently intends: the first slot that is empty or
   * holds a trip ending strictly earlier than `x`.
   */
  function FreeSlotFrom(a: Slots, x: Visit, i: nat): (s: Slot)
    requires i <= |a| && x.end.Some?
    ensures !s.Throws?
    ensures s.At? ==> i <= s.i < |a| && (a[s.i].None? || (EndAt(a, s.i).Some? && x.end.value > EndAt(a, s.i).value))
    ensures var stop := if s.Beyond? then |a| else s.i;
      forall k :: i <= k < stop ==> a[k].Some? && (EndAt(a, k).None? || EndAt(a, k).value >= x.end.value)
    decreases |a| - i
  {
    if i == |a| then Beyond
    else if a[i].None? || (EndAt(a, i).Some? && x.end.value > EndAt(a, i).value) then At(i)
    else FreeSlotFrom(a, x, i + 1)
  }

  /** `recentTrips` as evidently intended: every trip, the first included, goes through the corrected scan. */
  function FixedRecent(vs: seq<Visit>): (r: Slots)
    requires forall k :: 0 <= k < |vs| ==> vs[k].end.Some?
    ensures |r| == 3
    decreases |vs|
  {
    if vs == [] then [None, None, None]
    else
      var acc, x := FixedRecent(vs[..|vs| - 1]), vs[|vs| - 1];
      match FreeSlotFrom(acc, x, 0)
      case At(i) => Shifted(acc, i, Some(x))
      case _ => acc
  }

  /** Every occupied slot holds a trip that has an end time. */
  predicate Timed(a: Slots) {
    forall k :: 0 <= k < |a| && a[k].Some? ==> a[k].value.end.Some?
  }

  /** Exactly the first `n` slots are occupied. */
  predicate Filled(a: Slots, n: nat) {
    forall k :: 0 <= k < |a| ==> (a[k].Some? <==> k < n)
  }

  /** One step of the corrected fold keeps its slots ranked, timed, latest and filled as far as it can be. */
  lemma FixedStep(init: seq<Visit>, acc: Slots, x: Visit)
    requires |acc| == 3 && Ranked(acc) && Timed(acc) && Latest(init, acc) && Drawn(init, acc)
    requires Filled(acc, if |init| < 3 then |init| else 3)
    requires x.end.Some?
    ensures var r := match FreeSlotFrom(acc, x, 0) case At(i) => Shifted(acc, i, Some(x)) case _ => acc;
      Ranked(r) && Timed(r) && Latest(init + [x], r) && Drawn(init + [x], r)
      && Filled(r, if |init| + 1 < 3 then |init| + 1 else 3)
  {
    match FreeSlotFrom(acc, x, 0)
    case At(i) => FixedAt(init, acc, x, i); DrawnStep(init, acc, x, i);
    case Beyond => FixedBeyond(init, acc, x); DrawnStep(init, acc, x, 0);
  }

  /** The corrected step, when `x` goes to slot `i`. */
  lemma FixedAt(init: seq<Visit>, acc: Slots, x: Visit, i: nat)
    requires |acc| == 3 && Ranked(acc) && Timed(acc) && Latest(init, acc)
    requires Filled(acc, if |init| < 3 then |init| else 3)
    requires x.end.Some? && FreeSlotFrom(acc, x, 0) == At(i)
    ensures var r := Shifted(acc, i, Some(x));
      Ranked(r) && Timed(r) && Latest(init + [x], r) && Filled(r, if |init| + 1 < 3 then |init| + 1 else 3)
  {
    var n := if |init| < 3 then |init| else 3;
    var r := Shifted(acc, i, Some(x));
    assert Fits(acc, x, i);
    InsertRanked(acc, x, i);
    InsertLatest(init, acc, x, i);
    assert i <= n by {
      if n < 3 {
        assert acc[n].None?;
      }
    }
    forall k | 0 <= k < 3 ensures r[k] == if k < i then acc[k] else if k == i then Some(x) else acc[k - 1] {
      if k > i {
        assert r[k] == acc[k - 1];
      }
    }
  }

  /** The corrected step, when `x` ends no later than all three kept trips. */
  lemma FixedBeyond(init: seq<Visit>, acc: Slots, x: Visit)
    requires |acc| == 3 && Ranked(acc) && Timed(acc) && Latest(init, acc)
    requires Filled(acc, if |init| < 3 then |init| else 3)
    requires x.end.Some? && FreeSlotFrom(acc, x, 0) == Beyond
    ensures Latest(init + [x], acc) && Filled(acc, if |init| + 1 < 3 then |init| + 1 else 3)
  {
    var vs := init + [x];
    assert acc[2].Some? && EndAt(acc, 2).Some?;
    assert Outranked(x, acc);
    forall k | 0 <= k < |vs| ensures Some(vs[k]) in acc || Outranked(vs[k], acc) {
      if k < |init| {
        assert vs[k] == init[k];
      }
    }
  }

  /**
   * The corrected `recentTrips` never fails on trips that have events, and its
   * result is what the source's comment promises: the slots hold the latest
   * trips visited, latest first, only trips that were visited, and as many of
   * them as were visited, at most three.
   */
  lemma {:induction false} FixedRecentRanked(vs: seq<Visit>)
    requires forall k :: 0 <= k < |vs| ==> vs[k].end.Some?
    ensures var r := FixedRecent(vs);
      Ranked(r) && Timed(r) && Latest(vs, r) && Drawn(vs, r) && Filled(r, if |vs| < 3 then |vs| else 3)
    decreases |vs|
  {
    if vs != [] {
      var init, x := vs[..|vs| - 1], vs[|vs| - 1];
      assert vs == init + [x];
      FixedRecentRanked(init);
      FixedStep(init, FixedRecent(init), x);
    }
  }
  /** Where the scan of `insertTrip` does not throw, the corrected scan stops at the same slot. */
  lemma {:induction false} FreeSlotAgrees(a: Slots, x: Visit, i: nat)
    requires i <= |a| && x.end.Some? && !SlotFrom(a, x, i).Throws?
    ensures FreeSlotFrom(a, x, i) == SlotFrom(a, x, i)
    decreases |a| - i
  {
    if i < |a| && !(x.end.value > EndAt(a, i).value) {
      FreeSlotAgrees(a, x, i + 1);
    }
  }

  /**
   * Wherever the source's `recentTrips` does not throw on trips that have
   * events, it returns exactly what the corrected version returns.
   */
  lemma {:induction false} RecentAgreesWithFixed(vs: seq<Visit>)
    requires forall k :: 0 <= k < |vs| ==> vs[k].end.Some?
    requires RecentFold(vs).Some?
    ensures RecentFold(vs).value == FixedRecent(vs)
    decreases |vs|
  {
    if vs != [] {
      var init, x := vs[..|vs| - 1], vs[|vs| - 1];
      assert forall k :: 0 <= k < |init| ==> init[k] == vs[k];
      RecentAgreesWithFixed(init);
      RecentTripsRanked(init);
      var acc := FixedRecent(init);
      if acc[0].None? {
        assert acc[1].None? && acc[2].None?;
        assert Shifted(acc, 0, Some(x)) == acc[0 := Some(x)];
      } else {
        FreeSlotAgrees(acc, x, 0);
      }
    }
  }


  /** `vs` is what the trips `ts` report now, position by position. */
  predicate Snapshot(ts: seq<Trip>, vs: seq<Visit>)
    reads ts
  {
    |vs| == |ts| && forall k :: 0 <= k < |ts| ==> vs[k] == VisitOf(ts[k])
  }

  /** A snapshot of a list is one of each of its slices. */
  lemma SnapshotSlice(ts: seq<Trip>, vs: seq<Visit>, n: nat, m: nat)
    requires Snapshot(ts, vs) && n <= m <= |ts|
    ensures Snapshot(ts[n..m], vs[n..m])
  {
    assert forall k :: 0 <= k < m - n ==> ts[n..m][k] == ts[n + k] && vs[n..m][k] == vs[n + k];
  }

  /** The lists one after the other. */
  function Concat(ls: seq<seq<Trip>>): (ts: seq<Trip>) {
    if ls == [] then [] else Concat(ls[..|ls| - 1]) + ls[|ls| - 1]
  }

  /** The concatenation of the first `c` lists is a prefix of the whole, and list `c` follows it. */
  lemma {:induction false} ConcatPrefix(ls: seq<seq<Trip>>, c: nat)
    requires c < |ls|
    ensures Concat(ls[..c + 1]) == Concat(ls[..c]) + ls[c]
    ensures Concat(ls[..c + 1]) <= Concat(ls)
    decreases |ls|
  {
    assert ls[..c + 1][..c] == ls[..c];
    if c + 1 < |ls| {
      var init := ls[..|ls| - 1];
      assert ls[..c + 1] == init[..c + 1] && ls[..c] == init[..c];
      ConcatPrefix(init, c);
    } else {
      assert ls[..c + 1] == ls;
    }
  }

  /** Where list `c` sits in the concatenation, when the earlier lists take its first `n` elements. */
  lemma ConcatSlice(ls: seq<seq<Trip>>, c: nat, n: nat)
    requires c < |ls| && n <= |Concat(ls)| && Concat(ls)[..n] == Concat(ls[..c])
    ensures n + |ls[c]| <= |Concat(ls)|
    ensures Concat(ls)[..n + |ls[c]|] == Concat(ls[..c + 1])
    ensures Concat(ls)[n..n + |ls[c]|] == ls[c]
  {
    ConcatPrefix(ls, c);
    var all, upTo := Concat(ls), Concat(ls[..c + 1]);
    assert all[..|upTo|] == upTo;
    assert all[n..n + |ls[c]|] == upTo[n..];
  }

  /** Past the trips of the first `c` lists, the next visits are those of list `c`. */
  lemma CardSlice(ls: seq<seq<Trip>>, vis: seq<Visit>, c: nat, n: nat)
    requires c < |ls| && Snapshot(Concat(ls), vis)
    requires n <= |Concat(ls)| && Concat(ls)[..n] == Concat(ls[..c])
    ensures n + |ls[c]| <= |vis|
    ensures Concat(ls)[..n + |ls[c]|] == Concat(ls[..c + 1])
    ensures Snapshot(ls[c], vis[n..n + |ls[c]|])
  {
    ConcatSlice(ls, c, n);
    SnapshotSlice(Concat(ls), vis, n, n + |ls[c]|);
  }

  /** The trip list of each card. */
  function TripLists(cards: seq<Card>): (ls: seq<seq<Trip>>)
    reads cards
    ensures |ls| == |cards| && forall k :: 0 <= k < |cards| ==> ls[k] == cards[k].trips
  {
    seq(|cards|, k requires 0 <= k < |cards| reads cards => cards[k].trips)
  }

  /** The trips of `cards`, card by card, each card's trips in list order. */
  function TripsOf(cards: seq<Card>): (ts: seq<Trip>)
    reads cards
  {
    Concat(TripLists(cards))
  }

  /** The visits of the trips of `cards` are a snapshot of them. */
  lemma VisitsOfCards(cards: seq<Card>)
    ensures Snapshot(Concat(TripLists(cards)), Visits(TripsOf(cards)))
  {
    forall k | 0 <= k < |TripsOf(cards)| ensures Visits(TripsOf(cards))[k] == VisitOf(TripsOf(cards)[k]) {
      VisitsAt(TripsOf(cards), k);
    }
  }

  // ---------------------------------------------------------------------------
  // Rider
  // ---------------------------------------------------------------------------

  /** `Rider`: a named account holding cards. */
  class Rider {
    var name: string
    const email: string
    var cards: seq<Card>
    const id: Ids.Id
    /** `reloadAmounts`: `None` (Java's `null`) for a rider made without an ID. */
    const reloadAmounts: Option<seq<real>>

    /** `new Rider(name, email, ID)`: the ID comes from `IDGenerator.fromString`; reloads of 10, 20 and 50 are allowed. */
    constructor (name: string, email: string, text: string, ids: Ids.IdAllocator)
      requires |text| > 0 && Ids.AllNamed(ids.registry)
      requires Ids.Registered(ids.registry, text) ==> Ids.IsNumeric(text)
      modifies ids
      ensures this.name == name && this.email == email && cards == []
      ensures reloadAmounts == Some(RELOAD_AMOUNTS)
      ensures ids.registry == old(ids.registry) + [id]
      ensures id.uid.Some? && |id.uid.value| > 0 && id == Ids.IdOfString(id.uid.value)
      ensures !Ids.Registered(old(ids.registry), id.uid.value)
      ensures !Ids.Registered(old(ids.registry), text) ==> id.uid == Some(text)
      ensures Ids.Registered(old(ids.registry), text) ==>
                exists k :: Ids.ProbedUpTo(old(ids.registry), Ids.ParseNat(text), k) && id.uid == Some(Ids.NatToString(k))
      ensures ids.cardCount == old(ids.cardCount) && ids.riderCount == old(ids.riderCount)
    {
      this.name := name;
      this.email := email;
      var newId := ids.FromString(text);
      id := newId;
      cards := [];
      reloadAmounts := Some(RELOAD_AMOUNTS);
    }

    /** `new Rider(name, email)`: a newly generated rider ID, and no reload amounts at all. */
    constructor Generated(name: string, email: string, ids: Ids.IdAllocator)
      modifies ids
      ensures this.name == name && this.email == email && cards == []
      ensures reloadAmounts == None
      ensures id.kind == Ids.RIDER && id.uid == Some(Ids.RiderUid(old(ids.riderCount)))
      ensures ids.registry == old(ids.registry) + [id]
      ensures ids.riderCount == old(ids.riderCount) + 1 && ids.cardCount == old(ids.cardCount)
    {
      this.name := name;
      this.email := email;
      var newId := ids.GenerateId(Ids.RIDER);
      id := newId;
      cards := [];
      reloadAmounts := None;
    }

    /** `issueCard(card)`: keep the card only when its bearer is this very rider. */
    method IssueCard(newCard: Card)
      modifies this`cards
      ensures cards == if newCard.bearer == this then old(cards) + [newCard] else old(cards)
    {
      if newCard.bearer == this {
        cards := cards + [newCard];
      }
    }

    /** `suspendCard(card)`: the card's `suspend` with this rider's ID; it succeeds on the rider's own cards. */
    method SuspendCard(card: Card) returns (ok: bool)
      requires id.uid.Some?
      modifies card`active
      ensures ok <==> card.bearer.id.uid == id.uid
      ensures card.bearer == this ==> ok
      ensures card.active == if ok then false else old(card.active)
    {
      ok := card.Suspend(id);
    }

    /** `reActivateCard(card)`: the card's `reActivate` with this rider's ID. */
    method ReActivateCard(card: Card) returns (ok: bool)
      requires id.uid.Some?
      modifies card`active
      ensures ok <==> card.bearer.id.uid == id.uid
      ensures card.bearer == this ==> ok
      ensures card.active == if ok then true else old(card.active)
    {
      ok := card.ReActivate(id);
    }

    /** `changeName(name)`: take the new name when it is valid, otherwise keep the old one. */
    method ChangeName(newName: string)
      modifies this`name
      ensures name == if ValidName(newName) then newName else old(name)
    {
      if HasSpecialChar(newName) {
        // rejected: special characters
      } else if newName == "" || AllBlank(newName) {
        // rejected: empty or blank
      } else {
        name := newName;
      }
    }

    /**
     * `reloadCard(amount, card)`: add `amount` to the card when it is one of the
     * allowed amounts, and return the card's balance either way.
     */
    method ReloadCard(amount: real, card: Card) returns (balance: real)
      requires reloadAmounts.Some?
      modifies card`balance
      ensures card.balance == if amount in reloadAmounts.value then old(card.balance) + amount else old(card.balance)
      ensures balance == card.balance
    {
      var allowed := reloadAmounts.value;
      var i := 0;
      while i < |allowed|
        invariant 0 <= i <= |allowed|
        invariant amount !in allowed[..i]
        invariant card.balance == old(card.balance)
      {
        if allowed[i] == amount {
          card.AddBalance(amount);
          return card.balance;
        }
        i := i + 1;
      }
      assert allowed[..i] == allowed;
      return card.balance;
    }

    /**
     * `insertTrip(trips, trip)`: find the first slot whose trip ends strictly
     * before `trip`, put `trip` there and shift the later slots right, dropping
     * the last. A comparison that dereferences an empty slot, or asks a trip
     * without events for its end time, throws in the source: `ok` is then
     * false and the array is untouched. `held` is what the slots show.
     */
    method InsertTrip(trips: array<Trip?>, trip: Trip, ghost held: Slots) returns (ok: bool)
      requires Refs(held) == trips[..] && Current(held)
      modifies trips
      ensures ok <==> InsertedTrips(held, VisitOf(trip)).Some?
      ensures ok ==> trips[..] == Refs(InsertedTrips(held, VisitOf(trip)).value)
      ensures !ok ==> trips[..] == old(trips[..])
    {
      ghost var x := VisitOf(trip);
      var i := 0;
      while i < trips.Length
        invariant 0 <= i <= trips.Length
        invariant trips[..] == Refs(held)
        invariant SlotFrom(held, x, i) == SlotFrom(held, x, 0)
      {
        if trip.NumEvents() == 0 || trips[i] == null || trips[i].NumEvents() == 0 {
          return false;
        }
        assert held[i].Some? && held[i].value == VisitOf(trips[i]);
        if trip.EndTime() > trips[i].EndTime() {
          ShiftIn(trips, i, trip);
          assert trips[..] == Refs(Shifted(held, i, Some(x)));
          return true;
        }
        i := i + 1;
      }
      return true;
    }

    /** The inner loop of `insertTrip`: `trip` goes to slot `i`, the later slots move one right, the last drops out. */
    method ShiftIn(trips: array<Trip?>, i: nat, trip: Trip)
      requires i < trips.Length
      modifies trips
      ensures trips[..] == Shifted(old(trips[..]), i, trip)
    {
      ghost var a := trips[..];
      var backup := trips[i];
      var j := i;
      while j < trips.Length
        invariant i <= j <= trips.Length
        invariant forall k :: 0 <= k < j ==> trips[k] == Shifted(a, i, trip)[k]
        invariant forall k :: j <= k < trips.Length ==> trips[k] == a[k]
        invariant j > i ==> backup == a[j - 1]
      {
        var temp := trips[j];
        if j == i {
          trips[j] := trip;
        } else {
          trips[j] := backup;
        }
        backup := temp;
        j := j + 1;
      }
    }

    /**
     * `recentTrips()`: visit the trips of every card in order; the first fills
     * slot 0 and each later one goes through `insertTrip`. `ok` is false when
     * that throws.
     */
    method RecentTrips() returns (recent: array<Trip?>, ok: bool)
      ensures fresh(recent) && recent.Length == 3
      ensures ok <==> old(RecentFold(Visits(TripsOf(cards)))).Some?
      ensures ok ==> recent[..] == Refs(old(RecentFold(Visits(TripsOf(cards)))).value)
    {
      ghost var ls := TripLists(cards);
      ghost var vis := Visits(TripsOf(cards));
      VisitsOfCards(cards);
      recent := new Trip?[3][null, null, null];
      ghost var held;
      ok, held := FoldCards(recent, ls, vis);
    }

    /** The outer loop of `recentTrips`: the cards in order, from three empty slots. */
    method FoldCards(recent: array<Trip?>, ghost ls: seq<seq<Trip>>, ghost vis: seq<Visit>)
      returns (ok: bool, ghost held: Slots)
      requires recent[..] == [null, null, null]
      requires |ls| == |cards| && forall k :: 0 <= k < |cards| ==> cards[k].trips == ls[k]
      requires Snapshot(Concat(ls), vis)
      modifies recent
      ensures ok <==> RecentFold(vis).Some?
      ensures ok ==> RecentFold(vis) == Some(held) && recent[..] == Refs(held)
    {
      ghost var all := Concat(ls);
      held := [None, None, None];
      ghost var n: nat := 0;
      assert ls[..0] == [] && vis[..0] == [];
      var c := 0;
      while c < |cards|
        invariant 0 <= c <= |cards| && n <= |all|
        invariant forall k :: 0 <= k < |cards| ==> cards[k].trips == ls[k]
        invariant Snapshot(all, vis)
        invariant all[..n] == Concat(ls[..c])
        invariant RecentFold(vis[..n]) == Some(held) && Refs(held) == recent[..] && Current(held)
      {
        var card := cards[c];
        ghost var m := n + |ls[c]|;
        CardSlice(ls, vis, c, n);
        ok, held := TripsOfOneCard(recent, card, vis, n, m, held);
        if !ok {
          return;
        }
        n := m;
        c := c + 1;
      }
      assert ls[..c] == ls && vis[..n] == vis;
      ok := true;
    }

    /**
     * One step of `recentTrips`, after the first `i` visits of `vis`: `trip`,
     * whose visit is `vis[i]`, fills an empty slot 0 or goes through `insertTrip`.
     * Once `insertTrip` throws, the whole call has thrown.
     */
    method VisitTrip(recent: array<Trip?>, trip: Trip, ghost vis: seq<Visit>, ghost i: nat, ghost held: Slots)
      returns (ok: bool, ghost next: Slots)
      requires i < |vis| && vis[i] == VisitOf(trip)
      requires RecentFold(vis[..i]) == Some(held) && Refs(held) == recent[..] && Current(held)
      modifies recent
      ensures ok ==> RecentFold(vis[..i + 1]) == Some(next) && Refs(next) == recent[..] && Current(next)
      ensures !ok ==> RecentFold(vis) == None
    {
      Seqs.PrefixStep(vis, i);
      FoldStep(vis[..i], vis[i]);
      ghost var step := RecentStep(held, vis[i]);
      next := held;
      if step.Some? {
        StepKeepsCurrent(held, vis[i]);
        next := step.value;
      }
      if recent[0] == null {
        recent[0] := trip;
        ok := true;
      } else {
        ok := InsertTrip(recent, trip, held);
        if !ok {
          FailureSticks(vis[..i + 1], vis);
        }
      }
    }

    /**
     * The inner loop of `recentTrips`: the trips of one card, whose visits are
     * those of `vis` from position `n` to `m`.
     */
    method TripsOfOneCard(recent: array<Trip?>, card: Card, ghost vis: seq<Visit>, ghost n: nat, ghost m: nat,
                          ghost held0: Slots)
      returns (ok: bool, ghost held: Slots)
      requires m == n + |card.trips| <= |vis|
      requires Snapshot(card.trips, vis[n..m])
      requires RecentFold(vis[..n]) == Some(held0) && Refs(held0) == recent[..] && Current(held0)
      modifies recent
      ensures ok ==> RecentFold(vis[..m]) == Some(held)
      ensures ok ==> Refs(held) == recent[..] && Current(held)
      ensures !ok ==> RecentFold(vis) == None
    {
      held := held0;
      ghost var w := vis[n..m];
      var t := 0;
      while t < |card.trips|
        invariant 0 <= t <= |card.trips|
        invariant Snapshot(card.trips, w)
        invariant RecentFold(vis[..n + t]) == Some(held)
        invariant Refs(held) == recent[..] && Current(held)
      {
        var trip := card.trips[t];
        assert w[t] == vis[n + t];
        ok, held := VisitTrip(recent, trip, vis, n + t, held);
        if !ok {
          return;
        }
        t := t + 1;
      }
      assert n + t == m;
      ok := true;
    }
  }
}
