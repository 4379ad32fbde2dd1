# Transit fare-card domain, modelled in Dafny

This project models the stateful core of a transit fare-card system:

- riders hold cards;
- cards hold a balance, an active flag and a list of trips;
- a trip is a time-ordered list of tap events with a price capped at 6;
- bus and subway lines are routes of named stops;
- an observer pattern accumulates daily fare and stop totals;
- a global registry hands out card and rider IDs.

Every operation is stated and proved against its own contract.

The Java classes whose fields are updated in place become Dafny classes with the same fields: `Event`, `Trip`, `Card`, `Rider`, `TransitStop`, `TransitLine`, `ObserverAdmin` and `Observable`. Their methods carry `modifies` clauses and state the whole new state. `ArrayList`s become `seq` fields, and `HashMap`s become `map` fields. The fixed three-slot array of `recentTrips` stays an `array`. The static counters of `ID` and the static ID list of `IDGenerator` become the fields of one `IdAllocator` object, which every constructor that needs an ID is given.

Conventions:

- Money (Java `float`) is `real`.
- A `LocalDateTime` is an `int` timestamp.
- Java's `null` is `None` of `Option`, or a nullable reference `Trip?` in the recent-trips array.
- An exception the code can raise becomes one of two things. Where callers cannot avoid it (an empty list, a null field), it is a precondition. Inside `recentTrips`, where the code itself provokes it, it is an explicit failure result.

Files:

- `wrappers.dfy`: `Option`.
- `seqs.dfy`: the `ArrayList` operations used (`indexOf`, `remove(Object)`, `add(int, E)`) and an occurrence count.
- `ids.dfy`: `ID` and `IDGenerator`.
- `topology.dfy`: `TransitStop`, `TransitLine`, `BusLine` and `SubwayLine`.
- `metrics.dfy`: `ObserverAdmin` and `Observable`.
- `accounts.dfy`: `Event`, `Trip`, `Card` and `Rider`. They reference each other in a cycle, so they share one module.

`BusLine` and `SubwayLine` differ only in the element type of their route array. They are one class `TransitLine` with a `LineKind` tag. `BusStop` and `SubwayStation` add nothing to `TransitStop`.

How `recentTrips` is modelled:

- A pure specification, `RecentFold`, folds each visited trip into three slots, or reports that the code throws.
- A `Visit` records a trip together with the end time it reports.
- The methods `RecentTrips`, `FoldCards`, `TripsOfOneCard`, `VisitTrip`, `InsertTrip` and `ShiftIn` are the source's nested loops. They are proved to leave in the array exactly the trips of the fold's result.
- Lemmas then prove the following about the fold:
  - its slots are ordered latest first;
  - every visited trip not kept ends no later than the last kept one;
  - it throws as soon as a second trip does not end strictly later than the first (see Findings).

## Model

| member | source | states |
|---|---|---|
| Ids.IdAllocator.constructor | src/main/java/system/UID/ID.java:10-11 | both counters start at 0 and the registry is empty |
| Ids.IdAllocator.NewId | src/main/java/system/UID/ID.java:21-34 | 'C' gets "1" + the zero-padded card counter and bumps it; 'R' gets "2" + the padded rider counter and bumps it; any other character leaves the UID unset and both counters unchanged |
| Ids.CardUidShape | src/main/java/system/UID/ID.java:25-27 | below 10^8 a card UID is 9 characters starting with '1'; distinct counter values give distinct UIDs; no card UID equals a rider UID |
| Ids.RiderUidShape | src/main/java/system/UID/ID.java:28-30 | below 10^8 a rider UID is 9 characters starting with '2'; distinct counter values give distinct UIDs |
| Ids.Pad8RoundTrip | src/main/java/system/UID/ID.java:26 | `%08d` text parses back to the number it was made from |
| Ids.ParseNatToString | src/main/java/system/UID/IDGenerator.java:40-53 | `Integer.parseInt(Integer.toString(n)) == n` for every n >= 0 |
| Ids.IdOfString | src/main/java/system/UID/ID.java:42-45 | `new ID(s)` has UID `s` and type `s[0]` |
| Ids.Equals | src/main/java/system/UID/ID.java:73-78 | true exactly when the other object is an ID whose UID equals this one's |
| Ids.EqualsIsEquivalence | src/main/java/system/UID/ID.java:73-78 | ID equality is reflexive, symmetric and transitive, and never holds against null |
| Ids.IdAllocator.AddToCount | src/main/java/system/UID/ID.java:50-56 | only 'C' bumps the card counter and only 'R' the rider counter; other characters change nothing |
| Ids.IdAllocator.GetCount | src/main/java/system/UID/ID.java:94-100 | the card counter for 'C', the rider counter for every other character |
| Ids.IdAllocator.GenerateId | src/main/java/system/UID/IDGenerator.java:19-23 | the new ID is made as by `new ID(type)` and appended to the registry, and nothing else is added |
| Ids.UidIndex | src/main/java/system/UID/IDGenerator.java:69-76 | the index of the first registered ID with the given UID, below the registry length exactly when one is registered |
| Ids.IdAllocator.FindIdString | src/main/java/system/UID/IDGenerator.java:69-76 | null exactly when no registered ID has UID `t`, otherwise the first that does; needs every UID scanned before the match to be set |
| Ids.IdAllocator.ProbeNext | src/main/java/system/UID/IDGenerator.java:39-53 | the next probe is the decimal text of the current one plus 1; a counter is bumped only when the probe equals the UID that counter would give next |
| Ids.ProbeStep | src/main/java/system/UID/IDGenerator.java:37-55 | after a registered probe, every number up to the next probe has been tried, and the probe is within the registry's largest number, which bounds the loop |
| Ids.IdAllocator.FromString | src/main/java/system/UID/IDGenerator.java:32-60 | the registry grows by exactly the returned ID; its UID was not registered before; it is the text itself when that was free; otherwise it is the first free number after the text, with every number in between already registered; the counters never change, since the type character of numeric text is a digit |
| Topology.TransitStop.constructor | src/main/java/entities/transit/TransitStop.java:18-21 | `getName` and `getLine` give back the constructor arguments |
| Topology.TransitStop.CanTransferTo | src/main/java/entities/transit/TransitStop.java:84-86 | a transfer needs the same stop name, so never goes from a stop to itself, and never holds between stops of the same line |
| Topology.TransferRule | src/main/java/entities/transit/TransitStop.java:84-86 | `canTransferTo` is symmetric, never holds between stops of one line nor from a stop to itself, and implies equal names |
| Topology.TransitLine.constructor | src/main/java/entities/transit/BusLine.java:14-16 | a new line has its name and no route yet |
| Topology.TransitLine.SetRoute | src/main/java/entities/transit/BusLine.java:24-33 | after `setRoute(s)`, `getStops()` is exactly `s` (likewise `SubwayLine.setRoute`, SubwayLine.java lines 25-34) |
| Topology.NameIndex | src/main/java/entities/transit/BusLine.java:39-43 | the position of the first stop with the target name; no earlier stop has that name |
| Topology.FirstNamed | src/main/java/entities/transit/BusLine.java:38-45 | null exactly when no stop has the name; otherwise a route member with that name, namely the first one |
| Topology.TransitLine.FindStopOnLine | src/main/java/entities/transit/BusLine.java:38-45 | the loop returns the first stop named `targetName`, or null when there is none (likewise `SubwayLine.findStopOnLine`, SubwayLine.java lines 43-50) |
| Topology.TransitLine.DistTraveled | src/main/java/entities/transit/TransitLine.java:74-92 | 0 when either stop is on another line; otherwise the number of stops after the first occurrence of `start` up to and including `end`, and 0 when `start` does not come before `end`; `end` must be on the route |
| Topology.Distance | src/main/java/entities/transit/TransitLine.java:74-92 | the closed form of the count: positive only when `start` is on the route and differs from `end`, and below the route's length when `end` is on the route |
| Topology.DistanceByPosition | src/main/java/entities/transit/TransitLine.java:83-91 | on a route without repeated stops, from index i to index j the distance is j - i when i < j and 0 otherwise |
| Topology.DistanceBounds | src/main/java/entities/transit/TransitLine.java:82-91 | the distance is at most the number of stops minus 1, and 0 from a stop to itself |
| Metrics.ObserverAdmin.constructor | src/main/java/system/metrics/ObserverAdmin.java:11-12 | both maps start empty |
| Metrics.ObserverAdmin.UpdateFare | src/main/java/system/metrics/ObserverAdmin.java:20-28 | the fare map becomes the old one with the date's total raised by the fare, or set to it for a new date; the stops map is untouched |
| Metrics.ObserverAdmin.UpdateStops | src/main/java/system/metrics/ObserverAdmin.java:36-44 | the stops map becomes the old one with the date's total raised by n, or set to n for a new date; the fare map is untouched |
| Metrics.UpdateAddsToItsDate | src/main/java/system/metrics/ObserverAdmin.java:20-44 | an update adds its amount to its own date's reported total, counting from 0 for a new date, and changes no other date |
| Metrics.ObserverAdmin.TodayCharge | src/main/java/system/metrics/ObserverAdmin.java:52-57 | the stored fare total for the date, 0 for a date never updated |
| Metrics.ObserverAdmin.TodayStops | src/main/java/system/metrics/ObserverAdmin.java:66-71 | the stored stop total for the date, 0 for a date never updated |
| Metrics.ReplayIsSum | src/main/java/system/metrics/ObserverAdmin.java:20-71 | after any sequence of updates, `todayCharge(d)` is the sum of the fares passed for `d` and `todayStops(d)` the sum of the stop counts |
| Metrics.Observable.constructor | src/main/java/system/metrics/Observable.java:10 | the observer list starts empty |
| Metrics.Observable.Attach | src/main/java/system/metrics/Observable.java:17-19 | appends the observer, duplicates included |
| Metrics.Observable.Detach | src/main/java/system/metrics/Observable.java:26-28 | removes the first occurrence only, and is a no-op when the observer is absent |
| Seqs.RemoveFirst | src/main/java/system/metrics/Observable.java:27 | `ArrayList.remove(Object)` leaves an absent element's list unchanged; otherwise it drops exactly the first occurrence, removing one copy from the multiset |
| Metrics.Observable.NotifyFare | src/main/java/system/metrics/Observable.java:36-40 | each list entry gets the fare update once, so an observer attached k times receives k fare updates for the date; stop totals and the list are unchanged |
| Metrics.FareRepeatedIsMultiple | src/main/java/system/metrics/Observable.java:36-40 | k identical fare updates add k times the fare to that date's total and leave the other dates alone |
| Metrics.Observable.NotifyStops | src/main/java/system/metrics/Observable.java:48-52 | each list entry gets the stops update once; fare totals and the list are unchanged |
| Metrics.StopsRepeatedIsMultiple | src/main/java/system/metrics/Observable.java:48-52 | k identical stop updates add k times n to that date's total |
| Accounts.Event.constructor | src/main/java/system/event/Event.java:25-29 | stores location, time and card; the direction is unset |
| Accounts.Event.WithDirection | src/main/java/system/event/Event.java:40-43 | as the three-argument constructor, then the direction only if it is "enter" or "exit" |
| Accounts.Event.SetDirection | src/main/java/system/event/Event.java:97-101 | the direction becomes `d` exactly when `d` is "enter" or "exit", otherwise it is kept; once set, `isEntering` holds exactly when `d` is "enter" |
| Accounts.Event.IsEntering | src/main/java/system/event/Event.java:87-89 | true exactly when the direction is "enter", which is a valid direction |
| Accounts.Trip.constructor | src/main/java/system/Trip.java:24-29 | a new trip holds exactly the initial event and costs 0 |
| Accounts.AddEventIndex | src/main/java/system/Trip.java:38-43 | `addEvent` inserts at 1 + the first index whose event is not earlier, or at the end; never at 0 |
| Accounts.Trip.AddEvent | src/main/java/system/Trip.java:37-45 | the scan loop inserts `e` at `AddEventIndex` of the old timestamps |
| Accounts.AddEventShape | src/main/java/system/Trip.java:37-45 | the list grows by one, the first event stays first, the old events keep their relative order, and a chronological list stays chronological when the event is not earlier than the latest |
| Accounts.AddEventAfterLatest | src/main/java/system/Trip.java:38-44 | on a chronological list, an event strictly later than the latest is appended, and one not earlier keeps the list chronological |
| Accounts.AddEventMisplacesMidTrip | src/main/java/system/Trip.java:32-44 | into times [1, 5] the code puts 3 after the 5, which breaks chronological order |
| Accounts.ChronoInsertKeepsOrder | src/main/java/system/Trip.java:32-33 | inserting at the chronological index keeps any chronological list chronological, and agrees with the code for an event later than the latest |
| Accounts.Trip.RemoveEvent | src/main/java/system/Trip.java:52-54 | removes the first occurrence of the event; a no-op when it is absent |
| Accounts.Trip.LatestEvent | src/main/java/system/Trip.java:61-63 | the last event; needs a non-empty list |
| Accounts.Trip.SecondLastEvent | src/main/java/system/Trip.java:70-75 | null exactly when there are fewer than 2 events, otherwise the one before the last |
| Accounts.TripTimes | src/main/java/system/Trip.java:82-93 | the start and end times are those of the first and last events, and on a chronological trip the start is no later than the end |
| Accounts.CappedPrice | src/main/java/system/Trip.java:122-132 | the new price never exceeds `MAX` when the old one did not; a non-negative amount raises the price by at most itself; below the cap the price rises by the whole amount |
| Accounts.Trip.AddCost | src/main/java/system/Trip.java:122-132 | the price becomes `MAX` when the sum exceeds it, the sum otherwise, and the result is exactly the change in price |
| Accounts.CappedPriceExample | src/main/java/system/Trip.java:125-131 | from 4, `addCost(5)` sets the price to 6 and returns 2 |
| Accounts.ChargedIsPriceRise | src/main/java/system/Trip.java:113-132 | over any sequence of `addCost` calls from a price within the cap, the returned amounts add up to the rise in price, which ends at most `MAX` |
| Accounts.Card.constructor | src/main/java/entities/Card.java:27-33 | active, balance 19, no trips, and a newly generated card ID |
| Accounts.Card.FromText | src/main/java/entities/Card.java:40-46 | active, balance 19, no trips, and the ID `fromString` registers for the text, with all of `fromString`'s guarantees: the ID was not registered before, it is the text when that was free and otherwise the first free number after it, and the counters are unchanged |
| Accounts.Card.FromTextWithBalance | src/main/java/entities/Card.java:54-60 | as above with the given balance, again with all of `fromString`'s guarantees about the registered ID and the unchanged counters |
| Accounts.Card.SetBalance | src/main/java/entities/Card.java:67-69 | the balance becomes exactly `b` |
| Accounts.Card.AddBalance | src/main/java/entities/Card.java:149-151 | the balance rises by exactly `v` |
| Accounts.Card.StartTrip | src/main/java/entities/Card.java:96-101 | appends one new trip holding only the initial event at price 0, returns it, and leaves the earlier trips in place |
| Accounts.Card.RemoveLatestEventFromTrip | src/main/java/entities/Card.java:109-115 | a one-event trip is removed from the card, or nothing happens when it is absent; otherwise the trip loses its latest event (its last position when events do not repeat) and the trip list is kept |
| Accounts.Card.Suspend | src/main/java/entities/Card.java:162-168 | succeeds exactly when `userId` equals the bearer's ID, then deactivates; a failed call changes nothing |
| Accounts.Card.ReActivate | src/main/java/entities/Card.java:178-184 | succeeds exactly when `userId` equals the bearer's ID, then activates; a failed call changes nothing |
| Accounts.Card.Charge | src/main/java/entities/Card.java:194-200 | succeeds exactly when the card is active with a positive balance, then debits the amount (possibly below 0); otherwise nothing changes |
| Accounts.Rider.constructor | src/main/java/users/Rider.java:34-40 | name and email as given, no cards, the ID `fromString` registers (not registered before; the text when free, else the first free number after it; counters unchanged), and reload amounts 10, 20 and 50 |
| Accounts.Rider.Generated | src/main/java/users/Rider.java:49-54 | name and email as given, no cards, a newly generated rider ID, and no reload amounts |
| Accounts.Rider.IssueCard | src/main/java/users/Rider.java:98-102 | appends the card exactly when its bearer is this rider, and otherwise changes nothing |
| Accounts.Rider.SuspendCard | src/main/java/users/Rider.java:110-112 | the card's `suspend` with this rider's ID: it succeeds exactly when the bearer's ID equals this rider's, in particular on the rider's own cards |
| Accounts.Rider.ReActivateCard | src/main/java/users/Rider.java:120-122 | the card's `reActivate` with this rider's ID, with the same success condition |
| Accounts.ValidNameMeaning | src/main/java/users/Rider.java:129-144 | a name is accepted exactly when it consists of letters and whitespace only and holds at least one letter |
| Accounts.Rider.ChangeName | src/main/java/users/Rider.java:129-144 | the name changes exactly when the new one is accepted, otherwise it is kept |
| Accounts.Rider.ReloadCard | src/main/java/users/Rider.java:154-167 | the card gains `amount` exactly when it is an allowed amount, otherwise it is unchanged; the card's balance is returned either way |
| Accounts.VisitOf | src/main/java/system/Trip.java:91-93 | a trip's visit carries its end time exactly when it has events |
| Accounts.SlotFrom | src/main/java/users/Rider.java:199-200 | the scan stops at the first slot whose trip ends strictly earlier, or throws at the first comparison with an empty slot or an eventless trip, or passes all three slots |
| Accounts.Shifted | src/main/java/users/Rider.java:201-211 | the new trip at `i`, the earlier slots kept, the later ones moved one right, the last dropped, the length kept |
| Accounts.RecentStep | src/main/java/users/Rider.java:180-184 | the first trip fills an empty slot 0; any later one goes through `insertTrip` |
| Accounts.RecentFold | src/main/java/users/Rider.java:176-188 | the trips visited in order give three slots, or a throw |
| Accounts.FailureSticks | src/main/java/users/Rider.java:176-188 | once `insertTrip` has thrown, the whole `recentTrips` call has thrown, whatever trips follow |
| Accounts.Rider.ShiftIn | src/main/java/users/Rider.java:201-211 | the inner loop leaves exactly `Shifted(old array, i, trip)` |
| Accounts.InsertedTrips | src/main/java/users/Rider.java:197-215 | `insertTrip` on values: three slots again, either unchanged or now holding the new trip; it throws only when the new trip or some slot has no end time (an empty slot or an eventless trip) |
| Accounts.Rider.InsertTrip | src/main/java/users/Rider.java:197-215 | the array becomes the slots `insertTrip` yields for the trip, or is left untouched when a comparison throws |
| Accounts.Rider.VisitTrip | src/main/java/users/Rider.java:180-184 | one visited trip advances the array to the next step of the fold, or the whole call throws |
| Accounts.Rider.TripsOfOneCard | src/main/java/users/Rider.java:179-185 | the trips of one card advance the array by that card's stretch of the fold, or the call throws |
| Accounts.Rider.FoldCards | src/main/java/users/Rider.java:178-186 | from three empty slots, the card loop succeeds exactly when the fold does, and then holds its slots |
| Accounts.Rider.RecentTrips | src/main/java/users/Rider.java:176-188 | a new array of length 3; the call succeeds exactly when the fold over all trips of all cards, in card order, does not throw, and the array then holds the fold's trips |
| Accounts.InsertRanked | src/main/java/users/Rider.java:199-211 | inserting where the new trip fits keeps the slots ordered latest first, and the dropped trip ends no later than the new last one |
| Accounts.StepRanked | src/main/java/users/Rider.java:180-184 | a step that does not throw keeps the slots ranked, holding every visited trip or one ending later, holding only visited trips, with slot 0 filled |
| Accounts.RecentTripsRanked | src/main/java/users/Rider.java:169-188 | whenever `recentTrips` does not throw: the filled slots come first, ordered latest first; every visited trip is kept or ends no later than the last slot's; every filled slot holds a visited trip; slot 0 is filled once a trip was visited |
| Accounts.RecentTwoTrips | src/main/java/users/Rider.java:180-200 | the first trip goes into slot 0; a second trip that ends strictly later takes slot 0 and pushes the first one to slot 1; one that does not is compared with the empty slot 1, and the call throws |
| Accounts.FreeSlotAgrees | src/main/java/users/Rider.java:199-200 | wherever the source's scan does not throw, the corrected scan stops at the same slot |
| Accounts.FixedRecentRanked | src/main/java/users/Rider.java:169-173 | the corrected `recentTrips` never throws on trips with events; its slots hold only visited trips, exactly min(n, 3) of them, latest first, and every visited trip left out ends no later than the last one kept |
| Accounts.RecentAgreesWithFixed | src/main/java/users/Rider.java:176-188 | wherever the source's `recentTrips` does not throw on trips with events, it returns exactly what the corrected version returns |

## Left out

- Float arithmetic: money is exact `real`. IEEE-754 rounding of the `float` balance, price and fares is not modelled.
- Java `int` overflow is not modelled. Counters and probe numbers are unbounded naturals, and `fromString` past `Integer.MAX_VALUE` is outside the model.
- `Integer.parseInt`'s `NumberFormatException` is not modelled. `fromString` on a taken UID requires decimal-digit text. Signed text such as "+5" is outside the model.
- Null arguments and empty lists that the Java code would dereference become preconditions. Examples: `getLatestEvent` on an empty trip, `isEntering` with no direction, `findStopOnLine` before `setRoute`, `getDistTraveled` with `end` off the route, `reloadCard` on a rider made without an ID, and an `ID` with an unset UID in the registry scan.
- Logging and console output are not modelled. The `Logger` calls in `changeName` and `reloadCard`, and the `System.out.println` in `ID(char)`, only print, so only their state effects are kept.
- src/main/java/system/Logger.java is not part of this model.
- The tap-processing state machine is not part of this model. src/main/java/system/event/TapEventHandler.java is an abstract shell, and the concrete handlers and `TransitSystem` are not in the repository.
- File parsing is not part of this model (src/main/java/system/Parser.java).
- Rendering is not part of this model (src/main/java/ui/client/TransitMap.java).
- The JavaFX entry point, src/main/java/Main.java, is not part of this model.
- The admin query wrapper, src/main/java/users/Admin.java, is not part of this model.
- Stop coordinates (`setX`/`getX`/`setY`/`getY`) and line colours are left out. They serve rendering only.
- `Trip.toString` and `Rider.averageMonthlyCost` are left out. They are date formatting and float averaging.
- The trivial getters (`getBalance`, `getTrips`, `getBearer`, `getId`, `getType`, `toString`, `getEmail` and the like) are plain field reads of the classes. `getNumEvents`, `getStartTime` and `getEndTime` are functions without contracts of their own; `Accounts.TripTimes` states what they return.
- `Observer` is an interface. `ObserverAdmin` is its only implementation, so the observer list holds `ObserverAdmin` objects, and the unused `Observable` argument of `update` is dropped.
- `Accounts.Rider.RecentTrips`: the source's exception is modelled as `ok == false`, and the contents of the array after a throw are not stated. A trip without events has no end time, so comparing with it throws, and the model treats it as a failure too.
- `Accounts.Rider.FoldCards`, `Accounts.Rider.TripsOfOneCard`, `Accounts.Rider.VisitTrip` and `Accounts.Rider.ShiftIn` are the loops and loop bodies of `recentTrips` and `insertTrip`, written as methods of their own so that each is proved separately.
- `Accounts.Card.RemoveLatestEventFromTrip`: when a trip repeats its latest event object, `removeEvent` drops that object's first occurrence. The contract says so and names the last position only for trips without repeated events.

## Findings

| source | as written | input that shows it | evidently intended | confidence | as-written member | corrected member |
|---|---|---|---|---|---|---|
| src/main/java/system/Trip.java:37-45 | `addEvent` stops one past the first event not earlier than `e`, so an event strictly inside the trip lands after a later one | events at times 1 and 5; add an event at time 3; the list becomes 1, 5, 3 | insert chronologically, as the method's comment says, after any equal times | not executed | Accounts.AddEventMisplacesMidTrip | Accounts.ChronoInsertKeepsOrder |
| src/main/java/users/Rider.java:180-200 | after the first trip fills slot 0, `insertTrip` compares each later trip with every slot in turn, including empty ones, and dereferences null | a rider whose second trip ends no later than the first: after slot 0 the scan reaches the empty slot 1 and throws | the 3 most recent trips, latest first, or fewer when there are fewer, as the method's comment says; an empty slot is a free place | not executed | Accounts.RecentTwoTrips | Accounts.FixedRecentRanked |

The class methods `Accounts.Trip.AddEvent` and `Accounts.Rider.RecentTrips` model the code as written. The corrected definitions, `Accounts.ChronoIndex` and `Accounts.FixedRecent`, stand beside them. Two lemmas relate each pair:

- `Accounts.ChronoInsertKeepsOrder` proves that the corrected `addEvent` agrees with the code for an event later than the latest.
- `Accounts.RecentAgreesWithFixed` proves that the corrected `recentTrips` agrees with the code wherever the code does not throw.
