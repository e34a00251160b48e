# OpenTripPlanner routing core, modelled in Dafny

This project models part of OpenTripPlanner, a multimodal trip planner.
The Raptor transit router, the request objects that feed it and a few
supporting components are covered. Each core source file is one module:

- **Booking** (`RoutingBookingInfo`, `AccessEgress`): the booking window of
  on-demand legs, and the access/egress legs wrapped with a
  booking-time limit or boarded on board.
- **Transit priority groups** (`TransitPriorityGroup32n`, `30n`, `256n`,
  `GroupPriority`, `PriorityGroupConfigurator`,
  `EnturTransitCompetitionGroups`, `TransitGroupSelect`, `Matchers`):
  - how a group index becomes an `int` id;
  - how ids merge along a journey and which merged id dominates;
  - how trip patterns get their group ids from the configured selectors.
- **Transit filtering and transfers** (`TransitDataProviderFilter`,
  `RaptorTransferIndex`, `RaptorRequestTransferCache`,
  `TripPatternForDate`):
  - the trip, pattern, route and stop filters of a routing request;
  - the forward and reversed transfer index;
  - the rounding and keys of the transfer cache;
  - patterns filtered to the trips of one service date.
- **Raptor heuristics** (`RoundOnlyHeuristicRaptorWorker`,
  `RoundOnlyHeuristics`, `HeuristicWorkerState`, `IncValueRelaxFunction`):
  - the round-only worker that finds the least number of transfers to each stop;
  - the per-stop cost state of the heuristic search;
  - the relax function of relaxed multi-criteria searches.
- **Requests and configuration** (`AStarRequest`, `QualifiedModeSet`,
  `NodeAdapters`, `FileTypes`, `LocalDiskRepository`): the street search
  request, the mode-set parser, the JSON configuration adapter, and the
  data-source classification of the local file store.
- **Real-time matching** (`SiriFuzzyTripMatcher`): how a SIRI vehicle
  journey is matched to trips of the timetable through its caches.
- **Debug client** (`TripQueries`): the `useTripQuery` hook of the web client.

`JavaInt`, `JavaStrings`, `TransitModes` and `Wrappers` are shared helpers:
- Java's 32-bit wrap-around and truncating division;
- `String.split`, `toUpperCase` and `contains`;
- the main transit modes;
- `Option` and `Result`.

Java `int` group ids are `bv32` bit patterns, so shifts, masks, the sign bit
and wrap-around are modelled exactly. Other Java ints are unbounded
integers, except where the source relies on overflow or truncation. A
thrown exception is the `Err` case of a `Result`. An object whose fields
change is a `class` with `modifies` clauses. A `HashMap` is a `map`, and a
`BitSet` is a `set<nat>`.

## Model

| member | source | states |
|---|---|---|
| RoutingBookingInfo.New | src/main/java/org/opentripplanner/transit/model/timetable/booking/RoutingBookingInfo.java:29-46 | The constructor succeeds iff a latest booking time or a minimum notice is set and the leg duration and time offset are non-negative. Otherwise it fails with the first error the source checks, in the source's order. |
| RoutingBookingInfo.IsThereEnoughTimeToBookForDeparture | src/main/java/org/opentripplanner/transit/model/timetable/booking/RoutingBookingInfo.java:84-89 | An unrestricted info, or a request without a booking time, is always bookable. |
| RoutingBookingInfo.IsThereEnoughTimeToBookForArrival | src/main/java/org/opentripplanner/transit/model/timetable/booking/RoutingBookingInfo.java:97-105 | The same holds for arrivals. |
| RoutingBookingInfo.EarliestDepartureTime | src/main/java/org/opentripplanner/transit/model/timetable/booking/RoutingBookingInfo.java:107-112 | The result is never before the trip's departure. With a request time and a notice, it is at least the request plus the notice, and it is one of the two. |
| RoutingBookingInfo.DepartureBookableIff | src/main/java/org/opentripplanner/transit/model/timetable/booking/RoutingBookingInfo.java:155-189 | A departure is bookable iff no request time is given, or nothing is restricted, or the request meets both the latest booking time and the minimum notice. The notice counts against the departure plus the offset. |
| RoutingBookingInfo.ArrivalIsDepartureOfLeg | src/main/java/org/opentripplanner/transit/model/timetable/booking/RoutingBookingInfo.java:97-105 | The arrival check is the departure check at the arrival minus the leg duration. |
| RoutingBookingInfo.EarliestDepartureKeepsNotice | src/main/java/org/opentripplanner/transit/model/timetable/booking/RoutingBookingInfo.java:107-112 | The earliest departure it returns never exceeds the minimum booking notice. |
| RoutingBookingInfo.LaterRequestNotBookable | src/main/java/org/opentripplanner/transit/model/timetable/booking/RoutingBookingInfo.java:167-189 | Booking is monotone: a departure not bookable at one request time is not bookable at any later one. |
| RoutingBookingInfo.EqualInfosAgree | src/main/java/org/opentripplanner/transit/model/timetable/booking/RoutingBookingInfo.java:118-131 | Infos that equals() relates answer every query alike. |
| RoutingBookingInfo.Builder.constructor | src/main/java/org/opentripplanner/transit/model/timetable/booking/RoutingBookingInfo.java:202-204 | A new builder has no latest booking time, no notice, and a zero duration and offset. |
| RoutingBookingInfo.Builder.WithBookingInfo | src/main/java/org/opentripplanner/transit/model/timetable/booking/RoutingBookingInfo.java:209-226 | It copies the latest booking time and the notice of the booking info, or clears both when there is none. The other fields are unchanged. |
| RoutingBookingInfo.Builder.WithLatestBookingTime | src/main/java/org/opentripplanner/transit/model/timetable/booking/RoutingBookingInfo.java:228-231 | It sets only the latest booking time. |
| RoutingBookingInfo.Builder.WithMinimumBookingNotice | src/main/java/org/opentripplanner/transit/model/timetable/booking/RoutingBookingInfo.java:233-236 | It sets only the minimum notice. |
| RoutingBookingInfo.Builder.WithLegDurationInSeconds | src/main/java/org/opentripplanner/transit/model/timetable/booking/RoutingBookingInfo.java:242-245 | It sets only the leg duration. |
| RoutingBookingInfo.Builder.WithTimeOffsetInSeconds | src/main/java/org/opentripplanner/transit/model/timetable/booking/RoutingBookingInfo.java:253-256 | It sets only the time offset. |
| RoutingBookingInfo.Builder.Build | src/main/java/org/opentripplanner/transit/model/timetable/booking/RoutingBookingInfo.java:258-268 | With neither restriction set, the result is the shared unrestricted instance. Otherwise it succeeds iff the duration and offset are non-negative. The result equals an info with the builder's booking fields. |
| RoutingBookingInfo.Of | src/main/java/org/opentripplanner/transit/model/timetable/booking/RoutingBookingInfo.java:60-62 | A missing booking info gives the unrestricted instance. Otherwise the result carries the info's latest booking time and notice. |
| AccessEgress.EarliestDepartureTime | src/main/java/org/opentripplanner/routing/algorithm/raptoradapter/transit/BookingTimeAccessEgress.java:84-91 | A booking-time leg departs at the later of its earliest departure and the request, and is not set iff its delegate is not. An on-board leg departs at its fixed time, or not at all when the request is later. |
| AccessEgress.LatestArrivalTime | src/main/java/org/opentripplanner/routing/algorithm/raptoradapter/transit/BookingTimeAccessEgress.java:93-101 | A booking-time leg keeps its delegate's arrival exactly when that arrival leaves room for the earliest departure plus the duration. An on-board leg arrives at departure plus duration, or not at all when the request is earlier. |
| AccessEgress.BookingTimeForwards | src/main/java/org/opentripplanner/routing/algorithm/raptoradapter/transit/BookingTimeAccessEgress.java:69-127 | The wrapper forwards the stop, cost, duration, rides, opening hours and on-board flag of its delegate unchanged. |
| AccessEgress.BookingTimeNarrowsWindow | src/main/java/org/opentripplanner/routing/algorithm/raptoradapter/transit/BookingTimeAccessEgress.java:84-101 | Whenever the delegate can depart, the wrapper departs at the later of its earliest departure and the request, whatever time the delegate answers. So it departs no earlier than the delegate only when the delegate answers the request itself. The wrapper never arrives where the delegate cannot. |
| AccessEgress.BookingTimeDepartsBeforeDelegate | src/main/java/org/opentripplanner/routing/algorithm/raptoradapter/transit/BookingTimeAccessEgress.java:84-91 | A delegate that departs 100 seconds after the request, wrapped with an earliest departure before the request, departs at the request: before the delegate can. |
| AccessEgress.BookingTimeDepartureFixed | src/main/java/org/opentripplanner/routing/algorithm/raptoradapter/transit/BookingTimeAccessEgress.java:84-91 | The intended departure: not set iff the delegate's is not, otherwise the later of the earliest departure and the delegate's answer. |
| AccessEgress.BookingTimeFixedKeepsOpeningHours | src/main/java/org/opentripplanner/routing/algorithm/raptoradapter/transit/BookingTimeAccessEgress.java:84-91 | The intended departure never precedes the delegate's, and equals the written one when the delegate answers the request itself. |
| AccessEgress.BookingTimeWindowIsFeasible | src/main/java/org/opentripplanner/routing/algorithm/raptoradapter/transit/BookingTimeAccessEgress.java:93-101 | When the wrapped leg can arrive, it departs at its earliest departure time and reaches the stop no later than its latest arrival. |
| AccessEgress.DepartOnboardFlags | src/main/java/org/opentripplanner/routing/algorithm/raptoradapter/transit/DepartOnboardAccess.java:71-94 | An on-board access has one ride, has opening hours, reaches its stop on board and is not empty. |
| AccessEgress.DepartOnboardWindow | src/main/java/org/opentripplanner/routing/algorithm/raptoradapter/transit/DepartOnboardAccess.java:55-69 | An on-board access departs at its departure time and arrives at departure plus duration. |
| AStarRequest.New | src/main/java/org/opentripplanner/routing/api/request/AStarRequest.java:58-98 | Building fails iff the mode is not set. Park-and-ride, vehicle rental and car pickup are each set exactly for their modes. |
| AStarRequest.FlagsAgree | src/main/java/org/opentripplanner/routing/api/request/AStarRequest.java:58-98 | At most one of the three flags is set, and each needs walking. Rental holds exactly one form factor. Car and bicycle street modes follow the request mode, and the street modes are never empty. |
| AStarRequest.CarToParkModes | src/main/java/org/opentripplanner/routing/api/request/AStarRequest.java:69-72 | Car-to-park searches by car and on foot. |
| AStarRequest.CopyOfReversed | src/main/java/org/opentripplanner/routing/api/request/AStarRequest.java:153-164 | The reversed copy always builds. |
| AStarRequest.ReversedFlipsOnlyArriveBy | src/main/java/org/opentripplanner/routing/api/request/AStarRequest.java:153-164 | The reversed copy differs only in arriveBy, and reversing twice gives the request back. |
| GroupPriority.CheckGroupSeqNo | src/main/java/org/opentripplanner/routing/algorithm/raptoradapter/transit/cost/grouppriority/TransitPriorityGroup32n.java:44-59 | An index passes iff it lies in 0..max. A negative index is reported first, then one above max. |
| TransitPriorityGroup32n.GroupId | src/main/java/org/opentripplanner/routing/algorithm/raptoradapter/transit/cost/grouppriority/TransitPriorityGroup32n.java:35-38 | It succeeds iff the index is in 0..32, and index 0 is GROUP_ZERO. An error is the one assertValidGroupSeqNo throws. |
| TransitPriorityGroup32n.MergeInGroupId | src/main/java/org/opentripplanner/routing/algorithm/raptoradapter/transit/cost/grouppriority/TransitPriorityGroup32n.java:40-42 | A group bit is set in the merged id iff it is set in either input. |
| TransitPriorityGroup32n.Dominate | src/main/java/org/opentripplanner/routing/algorithm/raptoradapter/transit/cost/grouppriority/TransitPriorityGroup32n.java:31-33 | Two ids dominate each other iff they differ; DominanceIsIrreflexive states it. |
| TransitPriorityGroup32n.MergeHasBit | src/main/java/org/opentripplanner/routing/algorithm/raptoradapter/transit/cost/grouppriority/TransitPriorityGroup32n.java:40-42 | A group is in the merged id iff it is in either input. |
| TransitPriorityGroup32n.GroupIdHasBit | src/main/java/org/opentripplanner/routing/algorithm/raptoradapter/transit/cost/grouppriority/TransitPriorityGroup32n.java:35-38 | The id of index i in 1..32 holds exactly bit i-1. |
| TransitPriorityGroup32n.MergeIsSetUnion | src/main/java/org/opentripplanner/routing/algorithm/raptoradapter/transit/cost/grouppriority/TransitPriorityGroup32n.java:40-42 | Merging is commutative, associative and idempotent, with GROUP_ZERO as unit. |
| TransitPriorityGroup32n.DominanceIsIrreflexive | src/main/java/org/opentripplanner/routing/algorithm/raptoradapter/transit/cost/grouppriority/TransitPriorityGroup32n.java:31-33 | No id dominates itself, and dominance is symmetric. |
| TransitPriorityGroup32n.MergeExample | src/test/java/org/opentripplanner/routing/algorithm/raptoradapter/transit/cost/grouppriority/TransitPriorityGroup32nTest.java:24-52 | Merging groups 0, 1, 2 and 31 in turn gives their union, and none of the unit test's ids dominates itself. |
| TransitPriorityGroup30n.PopCount | src/main/java/org/opentripplanner/routing/algorithm/raptoradapter/transit/cost/grouppriority/TransitPriorityGroup30n.java:48 | Integer.bitCount, by its specification: the number of set bits. SomeBitCounted and GroupOneShiftedCounted state its values. |
| TransitPriorityGroup30n.CountBits | src/main/java/org/opentripplanner/routing/algorithm/raptoradapter/transit/cost/grouppriority/TransitPriorityGroup30n.java:48 | Math.min(k - 1, COUNT_MASK): no bits give -1 (all bits set), one to three bits give 0, 1 and 2, and more give COUNT_MASK. |
| TransitPriorityGroup30n.MergeInGroupId | src/main/java/org/opentripplanner/routing/algorithm/raptoradapter/transit/cost/grouppriority/TransitPriorityGroup30n.java:40-50 | An equal id or GROUP_ZERO leaves the current id, and merging into GROUP_ZERO gives the new id. MergeIsUnion and MergeCount state the other case. |
| TransitPriorityGroup30n.MergeCount | src/main/java/org/opentripplanner/routing/algorithm/raptoradapter/transit/cost/grouppriority/TransitPriorityGroup30n.java:40-50 | Merging two different non-zero ids stores, in the count bits, the number of groups in the union minus one, capped at COUNT_MASK. When no group bit is set the result is -1. |
| TransitPriorityGroup30n.SomeBitCounted | src/main/java/org/opentripplanner/routing/algorithm/raptoradapter/transit/cost/grouppriority/TransitPriorityGroup30n.java:48 | A non-zero value has a positive bit count. |
| TransitPriorityGroup30n.GroupOneShiftedCounted | src/main/java/org/opentripplanner/routing/algorithm/raptoradapter/transit/cost/grouppriority/TransitPriorityGroup30n.java:52-59 | A single group bit has bit count one. |
| TransitPriorityGroup30n.Dominate | src/main/java/org/opentripplanner/routing/algorithm/raptoradapter/transit/cost/grouppriority/TransitPriorityGroup30n.java:31-38 | GROUP_ZERO takes no part, and otherwise a lower count dominates; DominanceIsIrreflexive and LowerCountDominates state it. |
| TransitPriorityGroup30n.GroupIdOf | src/main/java/org/opentripplanner/routing/algorithm/raptoradapter/transit/cost/grouppriority/TransitPriorityGroup30n.java:66-68 | The ids are merged in turn into GROUP_ZERO; GroupIdOfExample states a case. |
| TransitPriorityGroup30n.GroupId | src/main/java/org/opentripplanner/routing/algorithm/raptoradapter/transit/cost/grouppriority/TransitPriorityGroup30n.java:52-59 | It succeeds iff the index is in 0..30, and index 0 is GROUP_ZERO. An error is the one assertValidGroupSeqNo throws. |
| TransitPriorityGroup30n.GroupIdIsSingleGroup | src/main/java/org/opentripplanner/routing/algorithm/raptoradapter/transit/cost/grouppriority/TransitPriorityGroup30n.java:52-59 | The id of index 1..30 holds one group bit, bit index + 1, and a zero count. |
| TransitPriorityGroup30n.MergeIsUnion | src/main/java/org/opentripplanner/routing/algorithm/raptoradapter/transit/cost/grouppriority/TransitPriorityGroup30n.java:40-50 | The group bits of a merge are the union of the inputs' group bits. |
| TransitPriorityGroup30n.MergeCommutes | src/main/java/org/opentripplanner/routing/algorithm/raptoradapter/transit/cost/grouppriority/TransitPriorityGroup30n.java:40-50 | Merging is commutative. |
| TransitPriorityGroup30n.DominanceIsIrreflexive | src/main/java/org/opentripplanner/routing/algorithm/raptoradapter/transit/cost/grouppriority/TransitPriorityGroup30n.java:31-38 | No id dominates itself, and GROUP_ZERO neither dominates nor is dominated. |
| TransitPriorityGroup30n.LowerCountDominates | src/main/java/org/opentripplanner/routing/algorithm/raptoradapter/transit/cost/grouppriority/TransitPriorityGroup30n.java:31-38 | A lower group count dominates, one way only. |
| TransitPriorityGroup30n.MergeExample | src/main/java/org/opentripplanner/routing/algorithm/raptoradapter/transit/cost/grouppriority/TransitPriorityGroup30n.java:40-50 | Merging three groups one at a time gives counts 1 and then 2. |
| TransitPriorityGroup30n.GroupIdOfExample | src/main/java/org/opentripplanner/routing/algorithm/raptoradapter/transit/cost/grouppriority/TransitPriorityGroup30n.java:66-68 | groupIdOf of three single groups gives their union with count 2. |
| TransitPriorityGroup30n.DominanceFunctionDisagrees | src/main/java/org/opentripplanner/routing/algorithm/raptoradapter/transit/cost/grouppriority/TransitPriorityGroup30n.java:26-29 | The dominance function handed out is the 256n one, and it disagrees with this encoding's own dominance on concrete ids. |
| TransitPriorityGroup256n.Count | src/main/java/org/opentripplanner/routing/algorithm/raptoradapter/transit/cost/grouppriority/TransitPriorityGroup256n.java:99-107 | count is 1..4 and names the highest non-zero byte. |
| TransitPriorityGroup256n.GroupId | src/main/java/org/opentripplanner/routing/algorithm/raptoradapter/transit/cost/grouppriority/TransitPriorityGroup256n.java:109-112 | As written, every index in 0..256 is accepted as the id itself. |
| TransitPriorityGroup256n.GroupIdFixed | src/main/java/org/opentripplanner/routing/algorithm/raptoradapter/transit/cost/grouppriority/TransitPriorityGroup256n.java:109-112 | The intended id: accepted iff the index fits one byte. |
| TransitPriorityGroup256n.MergeInGroupId | src/main/java/org/opentripplanner/routing/algorithm/raptoradapter/transit/cost/grouppriority/TransitPriorityGroup256n.java:46-97 | An equal id or GROUP_ZERO leaves the current id, and merging into GROUP_ZERO gives the new id. |
| TransitPriorityGroup256n.MergeInGroupIdFixed | src/main/java/org/opentripplanner/routing/algorithm/raptoradapter/transit/cost/grouppriority/TransitPriorityGroup256n.java:46-97 | The intended merge has the same early returns. |
| TransitPriorityGroup256n.MergeKeepsStoredGroup | src/main/java/org/opentripplanner/routing/algorithm/raptoradapter/transit/cost/grouppriority/TransitPriorityGroup256n.java:46-97 | Merging a group already stored returns the id unchanged, as written and as intended. |
| TransitPriorityGroup256n.MergeFixedInserts | src/main/java/org/opentripplanner/routing/algorithm/raptoradapter/transit/cost/grouppriority/TransitPriorityGroup256n.java:46-97 | In an id with fewer than four groups, the intended merge stores a new group in sorted position. |
| TransitPriorityGroup256n.MergeAsWritten | src/main/java/org/opentripplanner/routing/algorithm/raptoradapter/transit/cost/grouppriority/TransitPriorityGroup256n.java:53-96 | The code agrees with the intended merge, except for a group larger than every stored one, where it gives GROUP_MANY. |
| TransitPriorityGroup256n.MergeIntoFullGivesMany | src/main/java/org/opentripplanner/routing/algorithm/raptoradapter/transit/cost/grouppriority/TransitPriorityGroup256n.java:59-96 | A fifth group gives GROUP_MANY. |
| TransitPriorityGroup256n.CountOfStores | src/main/java/org/opentripplanner/routing/algorithm/raptoradapter/transit/cost/grouppriority/TransitPriorityGroup256n.java:99-107 | count is the number of stored groups. |
| TransitPriorityGroup256n.ManyIsDominated | src/main/java/org/opentripplanner/routing/algorithm/raptoradapter/transit/cost/grouppriority/TransitPriorityGroup256n.java:40-44 | An id of fewer than four groups dominates GROUP_MANY and not the reverse. |
| TransitPriorityGroup256n.DominateByGroups | src/main/java/org/opentripplanner/routing/algorithm/raptoradapter/transit/cost/grouppriority/TransitPriorityGroup256n.java:40-44 | One id dominates another iff it has fewer groups, or as many but a different set. |
| TransitPriorityGroup256n.Dominate | src/main/java/org/opentripplanner/routing/algorithm/raptoradapter/transit/cost/grouppriority/TransitPriorityGroup256n.java:40-44 | Fewer groups dominate, and equal counts dominate each other unless the ids are equal; DominateByGroups and ManyIsDominated state it. |
| TransitPriorityGroup256n.GroupIdOf | src/main/java/org/opentripplanner/routing/algorithm/raptoradapter/transit/cost/grouppriority/TransitPriorityGroup256n.java:118-120 | The ids are merged in turn into GROUP_ZERO with the written merge. |
| TransitPriorityGroup256n.LargerGroupGivesMany | src/main/java/org/opentripplanner/routing/algorithm/raptoradapter/transit/cost/grouppriority/TransitPriorityGroup256n.java:46-97 | As written, merging group 7 into group 5 gives GROUP_MANY. The intended merge gives both groups. |
| TransitPriorityGroup256n.IndexAboveByteIsLost | src/main/java/org/opentripplanner/routing/algorithm/raptoradapter/transit/cost/grouppriority/TransitPriorityGroup256n.java:109-137 | Index 256 passes the check, yet merging it into group 5 drops it. The intended check rejects it. |
| PriorityGroupConfigurator.StoredId | src/main/java/org/opentripplanner/routing/algorithm/raptoradapter/transit/grouppriority/PriorityGroupConfigurator.java:144-151 | A stored agency id is returned; a missing one reads as a negative id. |
| PriorityGroupConfigurator.FirstMatch | src/main/java/org/opentripplanner/routing/algorithm/raptoradapter/transit/grouppriority/PriorityGroupConfigurator.java:107-112 | It returns the first entry whose matcher accepts the pattern, or reports that none does. |
| PriorityGroupConfigurator.Configurator.Empty | src/main/java/org/opentripplanner/routing/algorithm/raptoradapter/transit/grouppriority/PriorityGroupConfigurator.java:60-65 | The empty configurator is disabled, has no matchers and starts its counter at the base group. |
| PriorityGroupConfigurator.Configurator.Enabled | src/main/java/org/opentripplanner/routing/algorithm/raptoradapter/transit/grouppriority/PriorityGroupConfigurator.java:49-53 | An enabled configurator starts with no matchers and the base group id. |
| PriorityGroupConfigurator.Configurator.NextGroupId | src/main/java/org/opentripplanner/routing/algorithm/raptoradapter/transit/grouppriority/PriorityGroupConfigurator.java:122-124 | It advances the counter by one and returns the group id of the new index. |
| PriorityGroupConfigurator.Configurator.LookupTransitGroupPriorityId | src/main/java/org/opentripplanner/routing/algorithm/raptoradapter/transit/grouppriority/PriorityGroupConfigurator.java:102-116 | Disabled, a null pattern or no match gives the base id. A global matcher gives its id. An agency matcher takes the next id and stores it when the stored id reads as negative, as written, and otherwise returns the stored id. |
| PriorityGroupConfigurator.Of | src/main/java/org/opentripplanner/routing/algorithm/raptoradapter/transit/grouppriority/PriorityGroupConfigurator.java:67-95 | With no selectors the configurator is disabled. Otherwise it fails iff the global selectors need more ids than exist. It has one entry per selector, global ones first, each global one with its own id. |
| PriorityGroupConfigurator.LastIdIsNotReused | src/main/java/org/opentripplanner/routing/algorithm/raptoradapter/transit/grouppriority/PriorityGroupConfigurator.java:153-161 | As written, the id of index 32 is negative, and the agency holding it is given a new id on every lookup. The next lookup then fails. |
| PriorityGroupConfigurator.StoredIdIsReused | src/main/java/org/opentripplanner/routing/algorithm/raptoradapter/transit/grouppriority/PriorityGroupConfigurator.java:153-161 | With the intended check, a stored id is always reused. |
| EnturTransitCompetitionGroups.Classify | src/main/java/org/opentripplanner/transit/model/network/EnturTransitCompetitionGroups.java:81-108 | airportLinkBus is its own group. Rail replacement, and rail or coach that is not local, sightseeing or tourist, is grouped per authority. |
| EnturTransitCompetitionGroups.LocalSubModeWins | src/main/java/org/opentripplanner/transit/model/network/EnturTransitCompetitionGroups.java:84-90 | A sub-mode whose name contains "local" is local traffic, whatever the mode. |
| EnturTransitCompetitionGroups.ModeDecides | src/main/java/org/opentripplanner/transit/model/network/EnturTransitCompetitionGroups.java:97-107 | Without a sub-mode: airplane is its own group, rail and coach are per authority, and everything else is local. |
| EnturTransitCompetitionGroups.CompetitionGroups.constructor | src/main/java/org/opentripplanner/transit/model/network/EnturTransitCompetitionGroups.java:46-52 | Local traffic, airplane and airport link bus get ids 0, 1 and 2. The next index is 2, and no authority has an id yet. |
| EnturTransitCompetitionGroups.CompetitionGroups.NextGroupId | src/main/java/org/opentripplanner/transit/model/network/EnturTransitCompetitionGroups.java:54-56 | It advances the index and returns the id of the new index. |
| EnturTransitCompetitionGroups.CompetitionGroups.AuthorityGroupId | src/main/java/org/opentripplanner/transit/model/network/EnturTransitCompetitionGroups.java:58-60 | An authority keeps its id. A new authority gets the next id, which is stored. |
| EnturTransitCompetitionGroups.CompetitionGroups.FindCompetitionGroup | src/main/java/org/opentripplanner/transit/model/network/EnturTransitCompetitionGroups.java:81-108 | The fixed classes get their fixed ids and change nothing. Per-authority trips get the authority's id. |
| EnturTransitCompetitionGroups.CompetitionGroups.ResolveCompetitionGroup | src/main/java/org/opentripplanner/transit/model/network/EnturTransitCompetitionGroups.java:62-72 | Local traffic, airplane and airport link bus give their fixed ids and record their description. A known authority gives its id. A new authority takes the next id: it is stored and recorded, or the index error is returned with nothing changed. A negative id is an error, after it is recorded. |
| EnturTransitCompetitionGroups.FixedGroupIds | src/main/java/org/opentripplanner/transit/model/network/EnturTransitCompetitionGroups.java:48-50 | Indices 0, 1 and 2 give ids 0, 1 and 2. |
| EnturTransitCompetitionGroups.AuthorityIdsRunOut | src/main/java/org/opentripplanner/transit/model/network/EnturTransitCompetitionGroups.java:54-72 | Index 31 is the last non-negative id, index 32 gives a negative id, and index 33 is rejected. |
| TransitDataProviderFilter.BikeAccessForTrip | src/main/java/org/opentripplanner/routing/algorithm/raptoradapter/transit/request/RoutingRequestTransitDataProviderFilter.java:74-80 | A trip's own bike access wins; unknown falls back to the route's. |
| TransitDataProviderFilter.TripTimesPredicate | src/main/java/org/opentripplanner/routing/algorithm/raptoradapter/transit/request/RoutingRequestTransitDataProviderFilter.java:87-121 | The checks run in the source's order; TripTimesPredicateIff states when a trip passes. |
| TransitDataProviderFilter.TripPatternPredicate | src/main/java/org/opentripplanner/routing/algorithm/raptoradapter/transit/request/RoutingRequestTransitDataProviderFilter.java:82-85 | No route ban, or a route not banned; TripPatternPredicateIff states it. |
| TransitDataProviderFilter.RouteIsBanned | src/main/java/org/opentripplanner/routing/algorithm/raptoradapter/transit/request/RoutingRequestTransitDataProviderFilter.java:176-221 | Agency ban, route ban, then whitelists; RouteIsBannedIff states it. |
| TransitDataProviderFilter.TripTimesPredicateIff | src/main/java/org/opentripplanner/routing/algorithm/raptoradapter/transit/request/RoutingRequestTransitDataProviderFilter.java:87-121 | A trip passes iff all of these hold: its mode is allowed, it is not banned, bikes are allowed when required, it is wheelchair accessible when required, and it is not cancelled unless cancellations are included. |
| TransitDataProviderFilter.TripPatternPredicateIff | src/main/java/org/opentripplanner/routing/algorithm/raptoradapter/transit/request/RoutingRequestTransitDataProviderFilter.java:82-85 | A pattern passes iff its route is not banned. |
| TransitDataProviderFilter.RouteIsBannedIff | src/main/java/org/opentripplanner/routing/algorithm/raptoradapter/transit/request/RoutingRequestTransitDataProviderFilter.java:176-221 | A route is allowed iff its agency is not banned, no route ban matches it, and any whitelist includes its agency or the route itself. |
| TransitDataProviderFilter.BannedIds | src/main/java/org/opentripplanner/routing/algorithm/raptoradapter/transit/request/RoutingRequestTransitDataProviderFilter.java:140-168 | The banned ids are exactly the ids of the banned routes. |
| TransitDataProviderFilter.NoRestrictionBansNothing | src/main/java/org/opentripplanner/routing/algorithm/raptoradapter/transit/request/RoutingRequestTransitDataProviderFilter.java:147-154 | No bans and no whitelist ban nothing. |
| TransitDataProviderFilter.BannedRoutes | src/main/java/org/opentripplanner/routing/algorithm/raptoradapter/transit/request/RoutingRequestTransitDataProviderFilter.java:140-168 | The loop returns exactly the banned route ids. |
| TransitDataProviderFilter.FilterAvailableStops | src/main/java/org/opentripplanner/routing/algorithm/raptoradapter/transit/request/RoutingRequestTransitDataProviderFilter.java:123-138 | When only accessible stops count, it returns a new set of the boardable accessible stops. Otherwise it returns the given set object. Neither input changes. |
| TransitDataProviderFilter.FilteredStopsAreBoardable | src/main/java/org/opentripplanner/routing/algorithm/raptoradapter/transit/request/RoutingRequestTransitDataProviderFilter.java:128-136 | Filtering only removes stops. |
| RaptorTransferIndex.CheapestPerStopIsCheapest | src/main/java/org/opentripplanner/routing/algorithm/raptoradapter/transit/RaptorTransferIndex.java:46-57 | Per target stop, it keeps one transfer: the last one of least cost. Every target stays covered. |
| RaptorTransferIndex.Create | src/main/java/org/opentripplanner/routing/algorithm/raptoradapter/transit/RaptorTransferIndex.java:30-69 | The forward list of each stop is its cheapest-per-stop transfers. The reversed lists mirror all forward lists. |
| RaptorTransferIndex.AddStop | src/main/java/org/opentripplanner/routing/algorithm/raptoradapter/transit/RaptorTransferIndex.java:43-66 | Indexing one more stop keeps the loop state: every stop done so far has its cheapest-per-stop list, the later ones are empty, and the reversed lists mirror the lists done. |
| RaptorTransferIndex.AddReversedTransfers | src/main/java/org/opentripplanner/routing/algorithm/raptoradapter/transit/RaptorTransferIndex.java:61-65 | Each transfer is added, reversed, to its target's list. |
| RaptorTransferIndex.ReversedMirrorsForward | src/main/java/org/opentripplanner/routing/algorithm/raptoradapter/transit/RaptorTransferIndex.java:43-66 | A reversed transfer at stop s exists iff some forward transfer leads to s. |
| RaptorRequestTransferCache.RoundTo100 | src/main/java/org/opentripplanner/routing/algorithm/raptoradapter/transit/request/RaptorRequestTransferCache.java:139-145 | The result is a multiple of 100 that stays an int. Values in 1..99 give 100, and other values round to the nearest hundred. Near MAX_INT the addition overflows to a negative value. |
| RaptorRequestTransferCache.RoundTo100Idempotent | src/main/java/org/opentripplanner/routing/algorithm/raptoradapter/transit/request/RaptorRequestTransferCache.java:139-145 | Rounding twice is rounding once, for inputs from 0 to MAX_INT - 100. |
| RaptorRequestTransferCache.RoundTo100NegativeMovesTwice | src/main/java/org/opentripplanner/routing/algorithm/raptoradapter/transit/request/RaptorRequestTransferCache.java:139-145 | Below -50 it is not idempotent: -150 rounds to -100, which rounds to 0. |
| RaptorRequestTransferCache.RoundToTenth | src/main/java/org/opentripplanner/routing/algorithm/raptoradapter/transit/request/RaptorRequestTransferCache.java:135-137 | The result lies within half a tenth of the input. |
| RaptorRequestTransferCache.RoundToHalf | src/main/java/org/opentripplanner/routing/algorithm/raptoradapter/transit/request/RaptorRequestTransferCache.java:131-133 | The result lies within a quarter of a non-negative input. |
| RaptorRequestTransferCache.RoundToTenthIdempotent | src/main/java/org/opentripplanner/routing/algorithm/raptoradapter/transit/request/RaptorRequestTransferCache.java:135-137 | Rounding to a tenth twice is rounding once. |
| RaptorRequestTransferCache.RoundToHalfIdempotent | src/main/java/org/opentripplanner/routing/algorithm/raptoradapter/transit/request/RaptorRequestTransferCache.java:131-133 | Rounding to a half twice is rounding once. |
| RaptorRequestTransferCache.Prepared | src/main/java/org/opentripplanner/routing/algorithm/raptoradapter/transit/request/RaptorRequestTransferCache.java:97-129 | The rounded preferences keep every int within Java's range. |
| RaptorRequestTransferCache.PreparedIsIdempotent | src/main/java/org/opentripplanner/routing/algorithm/raptoradapter/transit/request/RaptorRequestTransferCache.java:97-129 | Preparing twice is preparing once, and the bike triangle factors sum to one. |
| RaptorRequestTransferCache.PrepareTransferPreferences | src/main/java/org/opentripplanner/routing/algorithm/raptoradapter/transit/request/RaptorRequestTransferCache.java:97-129 | It rounds the given preferences in place and returns the same object. |
| RaptorRequestTransferCache.OptionsOf | src/main/java/org/opentripplanner/routing/algorithm/raptoradapter/transit/request/RaptorRequestTransferCache.java:175-199 | The options copy the transfer mode, the bike optimisation, the bike switch cost and the elevator cost. |
| RaptorRequestTransferCache.OptionsEqualIff | src/main/java/org/opentripplanner/routing/algorithm/raptoradapter/transit/request/RaptorRequestTransferCache.java:225-254 | equals() on the options is value equality. |
| RaptorRequestTransferCache.EqualKeysHashAlike | src/main/java/org/opentripplanner/routing/algorithm/raptoradapter/transit/request/RaptorRequestTransferCache.java:73-94 | Equal keys have equal hash codes. |
| RaptorRequestTransferCache.KeyAsWritten | src/main/java/org/opentripplanner/routing/algorithm/raptoradapter/transit/request/RaptorRequestTransferCache.java:62-71 | As written, the key holds the rounded preferences, but its options are taken from the unrounded ones. |
| RaptorRequestTransferCache.Key | src/main/java/org/opentripplanner/routing/algorithm/raptoradapter/transit/request/RaptorRequestTransferCache.java:62-71 | In the intended key, both the preferences and the options come from the rounded values. |
| RaptorRequestTransferCache.NewCacheKey | src/main/java/org/opentripplanner/routing/algorithm/raptoradapter/transit/request/RaptorRequestTransferCache.java:62-71 | It builds the key as written, with the options of the unrounded preferences, and leaves the request's preferences unchanged. |
| RaptorRequestTransferCache.RoundingDoesNotShareKeys | src/main/java/org/opentripplanner/routing/algorithm/raptoradapter/transit/request/RaptorRequestTransferCache.java:68-70 | As written, two requests whose preferences round alike get different keys. |
| RaptorRequestTransferCache.RoundedAlikeShareKeys | src/main/java/org/opentripplanner/routing/algorithm/raptoradapter/transit/request/RaptorRequestTransferCache.java:68-70 | With the intended key, preferences that round alike share a key. |
| TripPatternForDate.New | src/main/java/org/opentripplanner/routing/algorithm/raptor/transit/TripPatternForDate.java:45-62 | The running period starts at the first trip's first departure and ends at the last trip's last arrival, both on the service date. The instance records whether it is of the filtered class. |
| TripPatternForDate.FilterTrips | src/main/java/org/opentripplanner/routing/algorithm/raptor/transit/TripPatternForDate.java:117 | It keeps exactly the trips the predicate accepts. |
| TripPatternForDate.FilterTripsConcat | src/main/java/org/opentripplanner/routing/algorithm/raptor/transit/TripPatternForDate.java:117 | Filtering distributes over concatenation. |
| TripPatternForDate.FilterKeepsAllIff | src/main/java/org/opentripplanner/routing/algorithm/raptor/transit/TripPatternForDate.java:117-121 | Filtering keeps the length iff every trip is accepted, and then it returns the same trips. |
| TripPatternForDate.NewWithFilteredTripTimes | src/main/java/org/opentripplanner/routing/algorithm/raptor/transit/TripPatternForDate.java:113-132 | It returns this iff every trip is kept, and null iff there are trips and none is kept. Otherwise it returns a new filtered-class pattern of the kept trips with the new array. |
| TripPatternForDate.FilteredEqualsOriginalIff | src/main/java/org/opentripplanner/routing/algorithm/raptor/transit/TripPatternForDate.java:103-147 | A new filtered copy equals its source pattern, in either order, iff the source is itself of the filtered class. |
| TripPatternForDate.EqualInstancesHashAlike | src/main/java/org/opentripplanner/routing/algorithm/raptor/transit/TripPatternForDate.java:99-111 | In the intended hashCode, equal instances hash alike. |
| TripPatternForDate.FilteredInstanceHashesDifferently | src/main/java/org/opentripplanner/routing/algorithm/raptor/transit/TripPatternForDate.java:99-111 | As written, the same filter applied twice gives two filtered instances that are equal but hash differently. |
| TripPatternForDate.RunningPeriodDates | src/main/java/org/opentripplanner/routing/algorithm/raptor/transit/TripPatternForDate.java:92-97 | It lists each date from the start day to the end day, in order. It throws iff the end day is more than one day before the start day. |
| RoundOnlyHeuristics.Heuristics.constructor | src/main/java/org/opentripplanner/raptor/heuristic/RoundOnlyHeuristics.java:16-20 | It stores the rounds, the egress stops and the stop count. |
| RoundOnlyHeuristics.Heuristics.Size | src/main/java/org/opentripplanner/raptor/heuristic/RoundOnlyHeuristics.java:50-53 | size is the number of stops. |
| RoundOnlyHeuristics.Heuristics.Unsupported | src/main/java/org/opentripplanner/raptor/heuristic/RoundOnlyHeuristics.java:22-25 | The time and cost queries throw an unsupported-operation error. |
| RoundOnlyHeuristics.Heuristics.BestNumOfTransfersToIntArray | src/main/java/org/opentripplanner/raptor/heuristic/RoundOnlyHeuristics.java:32-43 | A null round slot among the first 128 throws at its index. Otherwise 128 or more rounds throw: after round 127 the byte counter wraps to -128, which still passes the length test. With fewer than 128 rounds and no null slot, the entry of each stop is the last round that reached it, or the unreached value. |
| JavaInt.ToByte | src/main/java/org/opentripplanner/raptor/heuristic/RoundOnlyHeuristics.java:35-37 | A Java (byte) cast: the value in -128..127 congruent to the input modulo 256, and the input itself when it fits. |
| RoundOnlyHeuristics.Heuristics.DestinationReached | src/main/java/org/opentripplanner/raptor/heuristic/RoundOnlyHeuristics.java:70-80 | It returns the scan of the rounds for an egress stop. |
| RoundOnlyHeuristics.DestinationScanIff | src/main/java/org/opentripplanner/raptor/heuristic/RoundOnlyHeuristics.java:70-80 | Without null slots, the destination counts as reached iff some round reached some egress stop. |
| RoundOnlyHeuristics.DestinationScanThrows | src/main/java/org/opentripplanner/raptor/heuristic/RoundOnlyHeuristics.java:70-80 | A null slot before any round reaches an egress stop throws at that slot. |
| RoundOnlyHeuristics.ByteRoundsThrow | src/main/java/org/opentripplanner/raptor/heuristic/RoundOnlyHeuristics.java:33-43 | Exactly 128 rounds, none of them null, throw at index -128. |
| RoundOnlyHeuristics.NumTransfersFixed | src/main/java/org/opentripplanner/raptor/heuristic/RoundOnlyHeuristics.java:33-43 | The intended array, counted with an int: a null slot throws at its index; otherwise each stop holds the last round that reached it, however many rounds there are. |
| RoundOnlyHeuristics.FixedHandlesByteRounds | src/main/java/org/opentripplanner/raptor/heuristic/RoundOnlyHeuristics.java:33-43 | Without null slots the intended array always exists, and each entry is a round index or the unreached value. |
| RoundOnlyHeuristicRaptorWorker.Filled | src/main/java/org/opentripplanner/raptor/heuristic/RoundOnlyHeuristicRaptorWorker.java:218-220 | Not in the source: the intended hand-over, where each null slot is replaced by an empty round and every other slot is kept. |
| RoundOnlyHeuristicRaptorWorker.Worker.constructor | src/main/java/org/opentripplanner/raptor/heuristic/RoundOnlyHeuristicRaptorWorker.java:42-70 | It sets the number of rounds to the larger of the request's rounds and the access rides. Round 0 starts with nothing reached. |
| RoundOnlyHeuristicRaptorWorker.Worker.Reach | src/main/java/org/opentripplanner/raptor/heuristic/RoundOnlyHeuristicRaptorWorker.java:193-195 | It adds the stop to the current round only. |
| RoundOnlyHeuristicRaptorWorker.Worker.AddAccessPaths | src/main/java/org/opentripplanner/raptor/heuristic/RoundOnlyHeuristicRaptorWorker.java:186-197 | Every access stop not reached in an earlier round joins the current round. |
| RoundOnlyHeuristicRaptorWorker.Worker.FindAccessOnStreetForRound | src/main/java/org/opentripplanner/raptor/heuristic/RoundOnlyHeuristicRaptorWorker.java:174-176 | The street access paths of this round's ride count are added. |
| RoundOnlyHeuristicRaptorWorker.Worker.FindAccessOnBoardForRound | src/main/java/org/opentripplanner/raptor/heuristic/RoundOnlyHeuristicRaptorWorker.java:178-180 | The on-board access paths of this round's ride count are added. |
| RoundOnlyHeuristicRaptorWorker.Worker.FindTransitForRound | src/main/java/org/opentripplanner/raptor/heuristic/RoundOnlyHeuristicRaptorWorker.java:122-155 | Riding every route adds exactly the stops transit reaches from the last round. |
| RoundOnlyHeuristicRaptorWorker.Worker.RideRoute | src/main/java/org/opentripplanner/raptor/heuristic/RoundOnlyHeuristicRaptorWorker.java:131-152 | One pattern adds each stop where alighting is possible after a boarding earlier on the pattern, if the stop was not reached before. |
| RoundOnlyHeuristicRaptorWorker.Worker.FindTransfersForRound | src/main/java/org/opentripplanner/raptor/heuristic/RoundOnlyHeuristicRaptorWorker.java:157-172 | It adds the targets of transfers from the stops this round reached, unless an earlier round reached them. |
| RoundOnlyHeuristicRaptorWorker.Worker.IsDestinationReachedInCurrentRound | src/main/java/org/opentripplanner/raptor/heuristic/RoundOnlyHeuristicRaptorWorker.java:207-216 | True iff some egress stop was reached this round. |
| RoundOnlyHeuristicRaptorWorker.Worker.NextRound | src/main/java/org/opentripplanner/raptor/heuristic/RoundOnlyHeuristicRaptorWorker.java:222-227 | The current round becomes the last one and joins the previous rounds, and a fresh round starts. |
| RoundOnlyHeuristicRaptorWorker.Worker.Route | src/main/java/org/opentripplanner/raptor/heuristic/RoundOnlyHeuristicRaptorWorker.java:77-106 | It runs rounds until the limit or a round reaching nothing, and the slots of rounds never run stay null. |
| RoundOnlyHeuristicRaptorWorker.Worker.Heuristics | src/main/java/org/opentripplanner/raptor/heuristic/RoundOnlyHeuristicRaptorWorker.java:218-220 | The heuristics get the round slots as they are, null slots included. |
| RoundOnlyHeuristicRaptorWorker.EarlyStopLeavesNullSlot | src/main/java/org/opentripplanner/raptor/heuristic/RoundOnlyHeuristicRaptorWorker.java:77-106 | As written, stopping early leaves a null slot right after the last round run. |
| RoundOnlyHeuristicRaptorWorker.FilledHasNoNullSlot | src/main/java/org/opentripplanner/raptor/heuristic/RoundOnlyHeuristicRaptorWorker.java:218-220 | The intended hand-over leaves no null slot and keeps every round that ran. |
| HeuristicWorkerState.WorkerState.constructor | src/main/java/org/opentripplanner/raptor/rangeraptor/standard/configure/HeuristicWorkerState.java:31-43 | Every stop's costs start at MAX_INT, and nothing is reached. |
| HeuristicWorkerState.WorkerState.IsNewRoundAvailable | src/main/java/org/opentripplanner/raptor/rangeraptor/standard/configure/HeuristicWorkerState.java:46-49 | A new round is available iff some stop was reached this round; the cost updates state when a stop joins. |
| HeuristicWorkerState.WorkerState.BestOverallCost | src/main/java/org/opentripplanner/raptor/rangeraptor/standard/configure/HeuristicWorkerState.java:116-118 | The stop's overall cost, as the cost updates leave it. |
| HeuristicWorkerState.WorkerState.IsDestinationReachedInCurrentRound | src/main/java/org/opentripplanner/raptor/rangeraptor/standard/configure/HeuristicWorkerState.java:61-64 | Always false. |
| HeuristicWorkerState.WorkerState.NewBestTransitGeneralizedCost | src/main/java/org/opentripplanner/raptor/rangeraptor/standard/configure/HeuristicWorkerState.java:76-83 | It improves iff the cost is lower, keeps the minimum, and marks the stop reached by transit when it improves. |
| HeuristicWorkerState.WorkerState.NewOverallBestGeneralizedCost | src/main/java/org/opentripplanner/raptor/rangeraptor/standard/configure/HeuristicWorkerState.java:85-92 | It improves iff the cost is lower, keeps the minimum, and marks the stop reached when it improves. |
| HeuristicWorkerState.WorkerState.SetAccessToStop | src/main/java/org/opentripplanner/raptor/rangeraptor/standard/configure/HeuristicWorkerState.java:66-74 | It updates the overall cost, and the transit cost too for an on-board access. |
| HeuristicWorkerState.WorkerState.TransitToStop | src/main/java/org/opentripplanner/raptor/rangeraptor/standard/configure/HeuristicWorkerState.java:94-98 | It updates the transit cost, and the overall cost only when transit improved. |
| HeuristicWorkerState.WorkerState.TransferToStops | src/main/java/org/opentripplanner/raptor/rangeraptor/standard/configure/HeuristicWorkerState.java:100-103 | Transfers change no reached set. |
| HeuristicWorkerState.WorkerState.SetupIteration | src/main/java/org/opentripplanner/raptor/rangeraptor/standard/configure/HeuristicWorkerState.java:122-126 | It clears the current round's reached sets. |
| HeuristicWorkerState.WorkerState.PrepareForNextRound | src/main/java/org/opentripplanner/raptor/rangeraptor/standard/configure/HeuristicWorkerState.java:128-138 | The current round becomes the last, and new sets start. |
| HeuristicWorkerState.CostsNeverIncrease | src/main/java/org/opentripplanner/raptor/rangeraptor/standard/configure/HeuristicWorkerState.java:76-92 | After any offers, a stop's cost is at most its start and at most each offer. MinOf folds the Min that each cost update ensures. |
| IncValueRelaxFunction.Round | src/main/java/org/opentripplanner/raptor/api/model/IncValueRelaxFunction.java:39 | Math.round gives an integer within half of its input. |
| IncValueRelaxFunction.AssertRatioInRange | src/main/java/org/opentripplanner/raptor/api/model/IncValueRelaxFunction.java:91-104 | A ratio passes iff it lies in 1.0..4.0. |
| IncValueRelaxFunction.AssertSlackInRange | src/main/java/org/opentripplanner/raptor/api/model/IncValueRelaxFunction.java:82-89 | A slack passes iff it lies in 0..max. |
| IncValueRelaxFunction.Make | src/main/java/org/opentripplanner/raptor/api/model/IncValueRelaxFunction.java:38-41 | It succeeds iff both arguments are in range, checking the ratio first. The ratio is stored as sixteenths rounded. |
| IncValueRelaxFunction.OfIncreasingTime | src/main/java/org/opentripplanner/raptor/api/model/IncValueRelaxFunction.java:48-50 | The slack may be up to one hour. |
| IncValueRelaxFunction.OfCost | src/main/java/org/opentripplanner/raptor/api/model/IncValueRelaxFunction.java:52-54 | The slack may be up to one hour of cost. |
| IncValueRelaxFunction.OfCostNoSlack | src/main/java/org/opentripplanner/raptor/api/model/IncValueRelaxFunction.java:56-58 | Any valid ratio is accepted with zero slack. |
| IncValueRelaxFunction.Relax | src/main/java/org/opentripplanner/raptor/api/model/IncValueRelaxFunction.java:60-62 | The result is a Java int. |
| IncValueRelaxFunction.RelaxIncreases | src/main/java/org/opentripplanner/raptor/api/model/IncValueRelaxFunction.java:60-62 | Below overflow, relax adds the slack to the value times the ratio. The result lies between v + slack and 4v + slack. |
| IncValueRelaxFunction.RelaxMonotone | src/main/java/org/opentripplanner/raptor/api/model/IncValueRelaxFunction.java:60-62 | relax keeps the order of values below overflow. |
| IncValueRelaxFunction.RelaxExamples | src/test/java/org/opentripplanner/raptor/api/model/IncValueRelaxFunctionTest.java:11-37 | The unit tests' expected results and rejected arguments hold. |
| IncValueRelaxFunction.EqualRoundedRatios | src/main/java/org/opentripplanner/raptor/api/model/IncValueRelaxFunction.java:69-75 | Two functions are equal iff their ratios round to the same sixteenths. |
| Matchers.Match | src/main/java/org/opentripplanner/transit/model/filter/expr/SubMatcher.java:37-48 | A sub matcher matches iff its base matches and none of its subtracted matchers does. |
| Matchers.NoneMatch | src/main/java/org/opentripplanner/transit/model/filter/expr/SubMatcher.java:42-46 | No subtracted matcher from the given position on matches. |
| Matchers.EverythingAndNothing | src/main/java/org/opentripplanner/transit/model/filter/expr/Matcher.java:12-18 | everything() matches every entity and nothing() none. |
| Matchers.NoneMatchIff | src/main/java/org/opentripplanner/transit/model/filter/expr/SubMatcher.java:42-46 | The loop finds no match iff no subtracted matcher matches. |
| Matchers.SubMatchIff | src/main/java/org/opentripplanner/transit/model/filter/expr/SubMatcher.java:37-48 | A sub matcher matches iff the base matches and none of the subtracted ones does. |
| Matchers.Subtract | src/main/java/org/opentripplanner/transit/model/filter/expr/SubMatcher.java:28-35 | Subtracting appends to an existing sub matcher, or else wraps the base. |
| Matchers.SubtractMatches | src/main/java/org/opentripplanner/transit/model/filter/expr/SubMatcher.java:28-48 | a minus b matches iff a matches and b does not. |
| Matchers.SubtractTwiceIsFlat | src/main/java/org/opentripplanner/transit/model/filter/expr/SubMatcher.java:28-35 | Subtracting twice gives one flat matcher with both subtracted. |
| Matchers.SubtractEverythingOrNothing | src/main/java/org/opentripplanner/transit/model/filter/expr/SubMatcher.java:28-48 | Subtracting everything matches nothing; subtracting nothing changes nothing. |
| TransitGroupSelect.Normalise | src/main/java/org/opentripplanner/routing/api/request/request/filter/TransitGroupSelect.java:39-41 | The result is sorted without duplicates and has the same members. |
| TransitGroupSelect.NormaliseCanonical | src/main/java/org/opentripplanner/routing/api/request/request/filter/TransitGroupSelect.java:36-42 | Lists with the same members normalise alike, and normalising is idempotent. |
| TransitGroupSelect.FromLists | src/main/java/org/opentripplanner/routing/api/request/request/filter/TransitGroupSelect.java:36-42 | Each list is stored sorted and distinct, with the given members. |
| TransitGroupSelect.IsEmpty | src/main/java/org/opentripplanner/routing/api/request/request/filter/TransitGroupSelect.java:60-62 | Empty iff all three lists are empty, iff the select is the default. |
| TransitGroupSelect.SameEntriesEqual | src/main/java/org/opentripplanner/routing/api/request/request/filter/TransitGroupSelect.java:64-74 | Selects built from the same members are equal. |
| TransitGroupSelect.Builder.constructor | src/main/java/org/opentripplanner/routing/api/request/request/filter/TransitGroupSelect.java:100-105 | The builder starts from the original's lists. |
| TransitGroupSelect.Builder.AddModes | src/main/java/org/opentripplanner/routing/api/request/request/filter/TransitGroupSelect.java:107-110 | It appends modes only. |
| TransitGroupSelect.Builder.AddAgencyIds | src/main/java/org/opentripplanner/routing/api/request/request/filter/TransitGroupSelect.java:112-115 | It appends agency ids only. |
| TransitGroupSelect.Builder.AddRouteIds | src/main/java/org/opentripplanner/routing/api/request/request/filter/TransitGroupSelect.java:117-120 | It appends route ids only. |
| TransitGroupSelect.Builder.Build | src/main/java/org/opentripplanner/routing/api/request/request/filter/TransitGroupSelect.java:122-125 | The built select holds the collected entries, and the original is returned iff it equals it. |
| TransitGroupSelect.AddingPresentEntriesKeepsOriginal | src/main/java/org/opentripplanner/routing/api/request/request/filter/TransitGroupSelect.java:122-125 | Adding entries already present builds the original back. |
| TransitGroupSelect.BuildFromDefault | src/main/java/org/opentripplanner/routing/api/request/request/filter/TransitGroupSelect.java:44-46 | From the default, the result holds exactly the added entries, and it is empty iff nothing was added. |
| QualifiedModeSet.StreetUpToNone | src/main/java/org/opentripplanner/api/parameter/QualifiedModeSet.java:83-125 | Without street modes the street request modes stay unset. |
| QualifiedModeSet.StreetUpToLast | src/main/java/org/opentripplanner/api/parameter/QualifiedModeSet.java:83-125 | The street request modes are those of the last street mode in iteration order. |
| QualifiedModeSet.OneStreetModeIsOrderFree | src/main/java/org/opentripplanner/api/parameter/QualifiedModeSet.java:83-125 | With one street mode, the order of the set does not matter. |
| QualifiedModeSet.TwoStreetModesDependOnOrder | src/main/java/org/opentripplanner/api/parameter/QualifiedModeSet.java:83-106 | Walk and bicycle give different direct modes depending on which comes last. |
| QualifiedModeSet.QualifiedModeSet.constructor | src/main/java/org/opentripplanner/api/parameter/QualifiedModeSet.java:30-34 | The set holds the parse of each comma-separated piece. |
| QualifiedModeSet.QualifiedModeSet.GetRequestModes | src/main/java/org/opentripplanner/api/parameter/QualifiedModeSet.java:36-135 | The transit modes depend on the set alone; the street modes come from the last street mode. |
| QualifiedModeSet.TransitOfOrderIsOfSet | src/main/java/org/opentripplanner/api/parameter/QualifiedModeSet.java:42-75 | The transit modes do not depend on the iteration order. |
| QualifiedModeSet.TransitFallsThroughToRail | src/main/java/org/opentripplanner/api/parameter/QualifiedModeSet.java:45-49 | TRANSIT falls through to RAIL and adds every main mode. |
| FileTypes.ClassificationAgrees | src/main/java/org/opentripplanner/standalone/datastore/FileType.java:46-63 | Transit types are composite input files. Config, graph and unknown files are neither, and only the report is composite without being input. |
| LocalDiskRepository.ResolveOrder | src/main/java/org/opentripplanner/datastore/file/LocalDiskRepository.java:135-149 | GTFS is checked before NeTEx, and both are catalog sources. OSM and DEM are decided by the file extension. |
| LocalDiskRepository.PlainFileByName | src/main/java/org/opentripplanner/datastore/file/LocalDiskRepository.java:144-148 | Plain files are classified as a graph or a status file by their name. |
| LocalDiskRepository.PlainNameByPattern | src/main/java/org/opentripplanner/datastore/file/LocalDiskRepository.java:144-145 | The same holds for names ending in 'j' or 'k'. |
| LocalDiskRepository.GraphNames | src/main/java/org/opentripplanner/datastore/file/LocalDiskRepository.java:144 | The graph pattern's dot matches any character. |
| LocalDiskRepository.StreetGraphName | src/main/java/org/opentripplanner/datastore/file/LocalDiskRepository.java:144 | streetGraph.obj is a graph. |
| LocalDiskRepository.StatusName | src/main/java/org/opentripplanner/datastore/file/LocalDiskRepository.java:145 | otp-status.ok is a status file. |
| LocalDiskRepository.CreateCatalogSource | src/main/java/org/opentripplanner/datastore/file/LocalDiskRepository.java:118-131 | It fails iff the file is not a directory, not a zip, and not a missing output source. |
| LocalDiskRepository.CatalogFilesNeverThrow | src/main/java/org/opentripplanner/datastore/file/LocalDiskRepository.java:114-131 | Existing catalog files always give a source. |
| LocalDiskRepository.FindCatalogSource | src/main/java/org/opentripplanner/datastore/file/LocalDiskRepository.java:75-80 | "." means the base directory; otherwise the child file is used. |
| LocalDiskRepository.SourceOf | src/main/java/org/opentripplanner/datastore/file/LocalDiskRepository.java:94-102 | It gives a file source iff the file is not a catalog. |
| LocalDiskRepository.SourcesOf | src/main/java/org/opentripplanner/datastore/file/LocalDiskRepository.java:94-103 | Each listed source is a file of the given type. |
| LocalDiskRepository.SourcesOfComplete | src/main/java/org/opentripplanner/datastore/file/LocalDiskRepository.java:94-103 | Every file of the type is listed. |
| LocalDiskRepository.Repository.constructor | src/main/java/org/opentripplanner/datastore/file/LocalDiskRepository.java:39-41 | It stores the base directory and its listing. |
| LocalDiskRepository.Repository.ListExistingSources | src/main/java/org/opentripplanner/datastore/file/LocalDiskRepository.java:82-105 | A missing listing gives nothing; otherwise the sources of that type. |
| SiriFuzzyTripMatcher.Unpadded | src/main/java/org/opentripplanner/updater/SiriFuzzyTripMatcher.java:224-230 | The result is a prefix of the id: the id itself, or the part before the first dash. |
| SiriFuzzyTripMatcher.UnpaddedIdempotent | src/main/java/org/opentripplanner/updater/SiriFuzzyTripMatcher.java:224-230 | Unpadding twice is unpadding once. |
| SiriFuzzyTripMatcher.StartStopKeyInjective | src/main/java/org/opentripplanner/updater/SiriFuzzyTripMatcher.java:220-222 | Different stops or times give different keys. |
| SiriFuzzyTripMatcher.TripKeysAdded | src/main/java/org/opentripplanner/updater/SiriFuzzyTripMatcher.java:148-169 | A trip is cached under its unpadded id, and a rail trip also under its short name. |
| SiriFuzzyTripMatcher.TripCacheContents | src/main/java/org/opentripplanner/updater/SiriFuzzyTripMatcher.java:148-169 | A trip is under a key iff the key is its unpadded id, or its short name on a rail pattern. |
| SiriFuzzyTripMatcher.StartStopCacheContents | src/main/java/org/opentripplanner/updater/SiriFuzzyTripMatcher.java:170-184 | A trip is under a stop-and-time key iff it arrives at that last stop at that time. |
| SiriFuzzyTripMatcher.BySiriId | src/main/java/org/opentripplanner/updater/SiriFuzzyTripMatcher.java:135-138 | A null id gives null, and an unknown id gives the empty set. |
| SiriFuzzyTripMatcher.GetRoutes | src/main/java/org/opentripplanner/updater/SiriFuzzyTripMatcher.java:253-255 | An unknown line gives the empty set. |
| SiriFuzzyTripMatcher.MatchActivity | src/main/java/org/opentripplanner/updater/SiriFuzzyTripMatcher.java:55-76 | A course-of-journey ref is looked up by id. Otherwise the destination and aimed arrival are looked up, and a null journey gives null. |
| SiriFuzzyTripMatcher.QuayTrips | src/main/java/org/opentripplanner/updater/SiriFuzzyTripMatcher.java:113-130 | It gives null exactly when no quay has trips cached at the time. |
| SiriFuzzyTripMatcher.QuayTripsMembers | src/main/java/org/opentripplanner/updater/SiriFuzzyTripMatcher.java:113-130 | Otherwise it gives the union of the trips cached for each quay at the time. |
| SiriFuzzyTripMatcher.QuayLookupPollutesCache | src/main/java/org/opentripplanner/updater/SiriFuzzyTripMatcher.java:119-127 | As written, the lookup adds another quay's trips to the cache entry of the first quay. |
| SiriFuzzyTripMatcher.CorrectedFallbackAgrees | src/main/java/org/opentripplanner/updater/SiriFuzzyTripMatcher.java:113-130 | The written lookup changes the cache iff the union differs from the first quay's entry. |
| SiriFuzzyTripMatcher.MatchOf | src/main/java/org/opentripplanner/updater/SiriFuzzyTripMatcher.java:81-133 | Each error matches its cause: no calls, no aimed time, no feed agency. |
| SiriFuzzyTripMatcher.LastStopMatch | src/main/java/org/opentripplanner/updater/SiriFuzzyTripMatcher.java:98-130 | The last-stop part never reports missing calls; it reports no aimed time only for a call with neither time, and no feed agency only when there is none. |
| SiriFuzzyTripMatcher.LastStopTripsAreCached | src/main/java/org/opentripplanner/updater/SiriFuzzyTripMatcher.java:98-130 | Every trip the last-stop part returns is in the start-stop cache. |
| SiriFuzzyTripMatcher.MatchPrefersVehicleRef | src/main/java/org/opentripplanner/updater/SiriFuzzyTripMatcher.java:83-86 | A known vehicle ref with trips decides the match. |
| SiriFuzzyTripMatcher.MatchRetriesNextDay | src/main/java/org/opentripplanner/updater/SiriFuzzyTripMatcher.java:106-111 | A miss on the last stop is retried one day later. |
| SiriFuzzyTripMatcher.MatchedTripsAreCached | src/main/java/org/opentripplanner/updater/SiriFuzzyTripMatcher.java:81-133 | Every matched trip comes from one of the caches. |
| SiriFuzzyTripMatcher.TripCaches.constructor | src/main/java/org/opentripplanner/updater/SiriFuzzyTripMatcher.java:32-34 | The caches start empty. |
| SiriFuzzyTripMatcher.Matcher.constructor | src/main/java/org/opentripplanner/updater/SiriFuzzyTripMatcher.java:36-39 | It builds the caches only when they are empty. |
| SiriFuzzyTripMatcher.Matcher.ForTesting | src/main/java/org/opentripplanner/updater/SiriFuzzyTripMatcher.java:42-50 | A forced rebuild builds the caches. |
| SiriFuzzyTripMatcher.Matcher.InitCache | src/main/java/org/opentripplanner/updater/SiriFuzzyTripMatcher.java:140-203 | It fills the trip, start-stop and route caches from the graph. |
| SiriFuzzyTripMatcher.Matcher.IndexTrips | src/main/java/org/opentripplanner/updater/SiriFuzzyTripMatcher.java:143-185 | It indexes every trip of every pattern. |
| SiriFuzzyTripMatcher.Matcher.AddTrip | src/main/java/org/opentripplanner/updater/SiriFuzzyTripMatcher.java:146-184 | It adds one trip under its keys. |
| SiriFuzzyTripMatcher.Matcher.IndexRoutes | src/main/java/org/opentripplanner/updater/SiriFuzzyTripMatcher.java:186-197 | It indexes every route by its unpadded id. |
| SiriFuzzyTripMatcher.Matcher.CollectQuayTripsAsWritten | src/main/java/org/opentripplanner/updater/SiriFuzzyTripMatcher.java:119-128 | It returns the union and writes it into the first quay's cache entry. |
| SiriFuzzyTripMatcher.Matcher.AsWrittenNext | src/main/java/org/opentripplanner/updater/SiriFuzzyTripMatcher.java:119-127 | After one more quay the result is the union so far, and the cache holds that union under the first quay found. |
| SiriFuzzyTripMatcher.Matcher.CollectQuayTrips | src/main/java/org/opentripplanner/updater/SiriFuzzyTripMatcher.java:119-128 | It returns the union and leaves the cache as it was. |
| SiriFuzzyTripMatcher.MatchCacheGrows | src/main/java/org/opentripplanner/updater/SiriFuzzyTripMatcher.java:81-133 | A match keeps the cache's keys, only grows its sets, and keeps it free of empty sets. |
| SiriFuzzyTripMatcher.AsWrittenCacheGrows | src/main/java/org/opentripplanner/updater/SiriFuzzyTripMatcher.java:119-128 | The written quay lookup keeps the cache's keys and only grows its sets. |
| SiriFuzzyTripMatcher.Matcher.Match | src/main/java/org/opentripplanner/updater/SiriFuzzyTripMatcher.java:81-133 | It returns the match computed on the caches before the call. The start-stop cache afterwards is the one the written quay lookup leaves, and the other caches are unchanged. |
| SiriFuzzyTripMatcher.Matcher.MatchLastStop | src/main/java/org/opentripplanner/updater/SiriFuzzyTripMatcher.java:98-130 | It returns the last-stop match on the cache before the call, and leaves the cache the written quay lookup leaves. |
| SiriFuzzyTripMatcher.Matcher.GetStop | src/main/java/org/opentripplanner/updater/SiriFuzzyTripMatcher.java:237-251 | It finds the first stop with the id. Failing that, it builds an id from a stop whose parent station matches. Otherwise there is no stop. |
| SiriFuzzyTripMatcher.Matcher.GetTripId | src/main/java/org/opentripplanner/updater/SiriFuzzyTripMatcher.java:257-265 | It returns the first trip with the id, in iteration order, or none iff no trip has it. |
| SiriFuzzyTripMatcher.Matcher.GetTrip | src/main/java/org/opentripplanner/updater/SiriFuzzyTripMatcher.java:205-218 | It returns the first trip, pattern by pattern, of the route and direction that starts at the time on a running service, or none iff there is no such trip. |
| SiriFuzzyTripMatcher.Matcher.GetTripIdForShortNameDateAndMode | src/main/java/org/opentripplanner/updater/SiriFuzzyTripMatcher.java:267-283 | It returns a cached trip with that short name, date and mode, or none iff no trip matches. |
| NodeAdapters.FieldIndex | src/main/java/org/opentripplanner/standalone/config/NodeAdapter.java:565-568 | It gives the index of the first field with the name, or -1. |
| NodeAdapters.Get | src/main/java/org/opentripplanner/standalone/config/NodeAdapter.java:565-568 | It gives the field's value, or the missing node. |
| NodeAdapters.GetMissingIffAbsent | src/main/java/org/opentripplanner/standalone/config/NodeAdapter.java:115-132 | In a parsed tree, path gives the missing node iff has says no. |
| NodeAdapters.Elements | src/main/java/org/opentripplanner/standalone/config/NodeAdapter.java:88-101 | Iteration yields an array's elements or an object's values. |
| NodeAdapters.AsTextOr | src/main/java/org/opentripplanner/standalone/config/NodeAdapter.java:188-190 | A missing or null node gives the default. |
| NodeAdapters.FullPathShape | src/main/java/org/opentripplanner/standalone/config/NodeAdapter.java:570-576 | A full path ends in the name, under its context and a dot. |
| NodeAdapters.FullPathNests | src/main/java/org/opentripplanner/standalone/config/NodeAdapter.java:570-576 | Paths nest by dots. |
| NodeAdapters.FullPathInjective | src/main/java/org/opentripplanner/standalone/config/NodeAdapter.java:570-576 | Under one context, different names give different paths. |
| NodeAdapters.ElementName | src/main/java/org/opentripplanner/standalone/config/NodeAdapter.java:91-94 | List elements are named "[1]", "[2]" and so on. |
| NodeAdapters.ElementNamesDistinct | src/main/java/org/opentripplanner/standalone/config/NodeAdapter.java:91-94 | Different elements get different names. |
| NodeAdapters.FindEnum | src/main/java/org/opentripplanner/standalone/config/NodeAdapter.java:518-523 | It finds the first constant equal to the value, ignoring case. |
| NodeAdapters.EnumMatchIgnoresCase | src/main/java/org/opentripplanner/standalone/config/NodeAdapter.java:518-523 | A value, its upper case and its lower case find the same constant. |
| NodeAdapters.EnumSameKey | src/main/java/org/opentripplanner/standalone/config/NodeAdapter.java:518-523 | Values that upper-case alike find the same constant. |
| NodeAdapters.EnumNameAccepted | src/main/java/org/opentripplanner/standalone/config/NodeAdapter.java:518-523 | Every constant's own name is accepted. |
| NodeAdapters.LocaleOfParts | src/main/java/org/opentripplanner/standalone/config/NodeAdapter.java:341-349 | One to three parts give a locale, with the language lower-cased and the country upper-cased as java.util.Locale does; any other count gives none. |
| NodeAdapters.ParseLocale | src/main/java/org/opentripplanner/standalone/config/NodeAdapter.java:336-358 | Text splits on runs of '-', '_' and space into a locale of separator-free parts. Text without a separator is a lower-cased language alone. |
| NodeAdapters.LocaleRoundTrip | src/main/java/org/opentripplanner/standalone/config/NodeAdapter.java:336-358 | One to three joined parts parse back to those parts, normalised; parts already normalised come back exactly. |
| NodeAdapters.LocaleIsNormalised | src/main/java/org/opentripplanner/standalone/config/NodeAdapter.java:341-349 | Every parsed locale has a lower-case language and an upper-case country. |
| NodeAdapters.LocaleCaseNormalised | src/main/java/org/opentripplanner/standalone/config/NodeAdapter.java:340-346 | "EN-gb" is English in Great Britain. |
| NodeAdapters.LocaleWithCountry | src/main/java/org/opentripplanner/standalone/config/NodeAdapter.java:340-346 | "en_GB" is English in Great Britain. |
| NodeAdapters.FourPartsRejected | src/main/java/org/opentripplanner/standalone/config/NodeAdapter.java:347-357 | Four parts are rejected. |
| NodeAdapters.ListChildren | src/main/java/org/opentripplanner/standalone/config/NodeAdapter.java:88-101 | It gives one adapter per element, in order. |
| NodeAdapters.ListAdapters | src/main/java/org/opentripplanner/standalone/config/NodeAdapter.java:88-101 | The loop creates exactly those adapters. |
| NodeAdapters.OwnUnused | src/main/java/org/opentripplanner/standalone/config/NodeAdapter.java:546-555 | It lists the fields never asked for, in field order. |
| NodeAdapters.UnusedFields | src/main/java/org/opentripplanner/standalone/config/NodeAdapter.java:546-555 | The field loop gives exactly those entries. |
| NodeAdapters.OwnUnusedMembers | src/main/java/org/opentripplanner/standalone/config/NodeAdapter.java:546-555 | An entry is listed iff its field was never asked for. |
| NodeAdapters.MoreNamesFewerUnused | src/main/java/org/opentripplanner/standalone/config/NodeAdapter.java:546-555 | Asking for more names never adds an entry. |
| NodeAdapters.ConfigTree.constructor | src/main/java/org/opentripplanner/standalone/config/NodeAdapter.java:75-86 | It creates a root with no context, and nothing has been asked for. |
| NodeAdapters.ConfigTree.Param | src/main/java/org/opentripplanner/standalone/config/NodeAdapter.java:565-568 | It records the name and returns the field. |
| NodeAdapters.ConfigTree.Path | src/main/java/org/opentripplanner/standalone/config/NodeAdapter.java:119-127 | It returns a new child adapter, which is kept only if the field exists. |
| NodeAdapters.ConfigTree.AsList | src/main/java/org/opentripplanner/standalone/config/NodeAdapter.java:88-101 | It gives one kept child per element, named by index. |
| NodeAdapters.ConfigTree.RequiredParam | src/main/java/org/opentripplanner/standalone/config/NodeAdapter.java:606-616 | A missing field is an error naming its path and source, and records nothing. |
| NodeAdapters.ConfigTree.AsTextRequired | src/main/java/org/opentripplanner/standalone/config/NodeAdapter.java:213-216 | It gives the text of a required field. |
| NodeAdapters.ConfigTree.AsTextOrDefault | src/main/java/org/opentripplanner/standalone/config/NodeAdapter.java:188-190 | It gives the text or the default, and the name is always recorded. |
| NodeAdapters.ConfigTree.AsEnum | src/main/java/org/opentripplanner/standalone/config/NodeAdapter.java:219-221 | A required enum is matched ignoring case, or is an error. |
| NodeAdapters.ConfigTree.AsEnumOrDefault | src/main/java/org/opentripplanner/standalone/config/NodeAdapter.java:225-228 | A missing enum gives the default's constant. |
| NodeAdapters.ConfigTree.EnumOf | src/main/java/org/opentripplanner/standalone/config/NodeAdapter.java:518-538 | It gives the matching constant, or the illegal-value error. |
| NodeAdapters.ConfigTree.AsLocale | src/main/java/org/opentripplanner/standalone/config/NodeAdapter.java:336-358 | A missing field gives the default; a bad part count is an error. |
| NodeAdapters.ConfigTree.ChildEntriesIncluded | src/main/java/org/opentripplanner/standalone/config/NodeAdapter.java:557-560 | A child's entries are among its parent's. |
| NodeAdapters.ConfigTree.UnusedParams | src/main/java/org/opentripplanner/standalone/config/NodeAdapter.java:546-563 | It lists all unused fields below, recursively, sorted. |
| NodeAdapters.ChildUnusedListed | src/main/java/org/opentripplanner/standalone/config/NodeAdapter.java:557-560 | A kept child's unused fields are listed with its parent's. |
| TripQueries.ValidLocationCases | client/src/hooks/useTripQuery.ts:48-50 | Coordinates suffice, a non-empty place suffices, and nothing else counts. |
| TripQueries.RequestVariables | client/src/hooks/useTripQuery.ts:25-28 | A truthy cursor replaces the variables' cursor; otherwise they are sent as they are. |
| TripQueries.CursorMergeLastWins | client/src/hooks/useTripQuery.ts:25-28 | Merging a cursor is idempotent, and the later cursor wins. |
| TripQueries.TripQuery.constructor | client/src/hooks/useTripQuery.ts:39-44 | The first render searches iff both ends are valid. |
| TripQueries.TripQuery.Fetch | client/src/hooks/useTripQuery.ts:18-37 | While loading it only warns, and without variables it only warns. Otherwise it sends one request and starts loading. |
| TripQueries.TripQuery.Resolve | client/src/hooks/useTripQuery.ts:23-30 | The result becomes the data, and loading ends. |
| TripQueries.TripQuery.Reject | client/src/hooks/useTripQuery.ts:23-30 | Without a catch, loading stays on forever. |
| TripQueries.TripQuery.Rerender | client/src/hooks/useTripQuery.ts:39-44 | A changed, valid origin or destination triggers a fetch. |

## Left out

- Logging, `System.out` output, `toString` and exception message texts are not modelled. An error is a datatype case carrying its arguments.
- Time zones and calendar arithmetic are not modelled; SIRI and booking times are seconds on one time line. `BookingTimeAccessEgress.of` is left out, because it converts a zoned booking time.
- Doubles are reals, with `Math.round` and the rounding of the transfer cache written out. Floating-point error is not modelled.
- HashMap and HashSet iteration order is not modelled. Where the result depends on it, the order is a parameter: `QualifiedModeSet` takes the set's order, `Matcher.GetTripIdForShortNameDateAndMode` takes the cache order, and the transfer index keeps first appearance.
- These files are not part of this model, and what they decide is a parameter:
  - RaptorConstants;
  - TransitMode.java;
  - RouteMatcher;
  - AllowTransitModeFilter;
  - TripPatternMatcherFactory;
  - FileType.isOutputDataSource;
  - the config-file predicate;
  - QualifiedMode parsing;
  - TransitModeService;
  - DateMapper;
  - AccessPaths;
  - asRaptorTransfer;
  - GraphIndex.routesForStop;
  - CalendarService.
- LocalDiskRepository: `isCurrentDir` is taken to be the test that the name equals ".". The `BUILD_REPORT_DIR` name is taken to be "report". `findSource`, the URI lookups, `description`, `open` and `toString` are left out.
- RoutingRequestTransitDataProviderFilter: the constructor that reads a RouteRequest (54-72) is left out; the filter's fields are given directly.
- RaptorRequestTransferCache: the Guava cache behind `get` and the loader, and the options' `hashCode` (a parameter), are left out. RoutingPreferences cloning is modelled only by its values.
- RaptorRequestTransferCache.RoundTo100Idempotent: stated only for inputs from 0 to MAX_INT - 100. Near MAX_INT the addition overflows, and below -50 rounding is not idempotent (RoundTo100NegativeMovesTwice).
- RaptorTransferIndex: the getters are left out.
- RoundOnlyHeuristicRaptorWorker: the worker lifecycle, timers, `paths()`, `stopArrivals()` and the AccessPaths class are left out; access stops by ride count are given. `Worker.Heuristics` hands over a copy of the round slots, while the source shares its live array, which later departure minutes go on modifying; that aliasing is not modelled.
- HeuristicWorkerState: the `stopsTouched` iterators are left out. `extractPaths` and `extractStopArrivals` return null and are left out. The lifecycle subscription is left out.
- PriorityGroupConfigurator: matchers are given as predicates on trip patterns rather than built by TripPatternMatcherFactory.
- EnturTransitCompetitionGroups: `printList` only writes to standard out. The description record holds values, not its formatted string; the sub-mode is kept as given, so a missing one stands for the printed "null".
- NodeAdapter, left out:
  - floating-point JSON numbers: a number node holds an integer;
  - the getters other than `path`, `asList`, `asText`, `asEnum` and `asLocale`;
  - Jackson's conversions behind `asBoolean`, `asDouble`, `asInt` and `asLong`;
  - rendering a JSON value in an unused-parameter entry, which is a parameter.
- NodeAdapter, simplified:
  - `asList` on an object iterates its values, as Jackson does.
  - Adapters live in one arena sequence, so aliasing between adapter objects is not modelled.
  - Case mapping covers ASCII letters only, and locale-sensitive case rules are not modelled.
  - java.util.Locale's mapping of legacy language codes (such as "iw" to "he") is not modelled.
- LocalDiskRepository: the lower-casing of file names covers ASCII letters only.
- RoutingBookingInfo: the sum of a departure time and the time offset is an unbounded integer; Java int overflow of that sum is not modelled.
- TransitPriorityGroup30n.PopCount: Integer.bitCount is modelled by its specification, the number of set bits, not by the JDK's bit-twiddling code.
- TransitPriorityGroup32n.GroupId: that different indices give different ids is not stated, because the int-to-bit-vector conversion it needs is too costly to prove.
- TripPatternForDate: a null trip pattern, which would throw in the constructor, is not modelled. The class check of equals() is a flag recording whether an instance is of the filtered subclass.
- useTripQuery, not modelled:
  - React's scheduling;
  - dependency arrays, which are compared by value here rather than by identity;
  - the stale closure that a fetch from an old render sees;
  - `console.warn`, which becomes a recorded warning.
- SiriFuzzyTripMatcher: the static caches shared by all instances are one object passed to each matcher. Which services run on a date is a parameter. `getRoutesForStop` is left out, because it only calls GraphIndex.routesForStop.

## Findings

| source | as written | input that shows it | evidently intended | confidence | as-written member | corrected member |
|---|---|---|---|---|---|---|
| src/main/java/org/opentripplanner/routing/algorithm/raptoradapter/transit/cost/grouppriority/TransitPriorityGroup256n.java:46-97 | A group larger than every stored one passes each stage and ends in GROUP_MANY. | mergeInGroupId(5, 7) | 7 is stored in the next byte, giving 0x0705 | high; not executed | TransitPriorityGroup256n.MergeAsWritten, TransitPriorityGroup256n.LargerGroupGivesMany | TransitPriorityGroup256n.MergeInGroupIdFixed, TransitPriorityGroup256n.MergeFixedInserts |
| src/main/java/org/opentripplanner/routing/algorithm/raptoradapter/transit/cost/grouppriority/TransitPriorityGroup256n.java:109-137 | MAX_SEQ_NO is 0xFF + 1, so index 256 is accepted, but it does not fit one byte. | groupId(256) = 0x100; mergeInGroupId(5, 0x100) = 5 | indices 0..255 only | high; not executed | TransitPriorityGroup256n.IndexAboveByteIsLost | TransitPriorityGroup256n.GroupIdFixed |
| src/main/java/org/opentripplanner/routing/algorithm/raptoradapter/transit/cost/grouppriority/TransitPriorityGroup30n.java:26-29 | The 30n calculator hands out the 256n dominance function. | groupId(9) = 0x400 against merge(0x4, 0x8) = 0xD | 30n's own dominateTransitPriorityGroup | high; not executed | TransitPriorityGroup30n.DominanceFunctionDisagrees | TransitPriorityGroup30n.LowerCountDominates |
| src/main/java/org/opentripplanner/routing/algorithm/raptoradapter/transit/grouppriority/PriorityGroupConfigurator.java:153-161 | A stored id is treated as "no id yet" when it is negative, and the id of index 32 is negative. | an agency assigned groupId(32) = 0x8000_0000 | a stored id is reused | medium; not executed | PriorityGroupConfigurator.LastIdIsNotReused | PriorityGroupConfigurator.StoredIdIsReused |
| src/main/java/org/opentripplanner/routing/algorithm/raptoradapter/transit/request/RaptorRequestTransferCache.java:68-70 | The cache key's options are built from the unrounded preferences. | two requests whose costs 90 and 110 round to 100 | preferences that round alike share a key | medium; not executed | RaptorRequestTransferCache.RoundingDoesNotShareKeys | RaptorRequestTransferCache.RoundedAlikeShareKeys |
| src/main/java/org/opentripplanner/routing/algorithm/raptor/transit/TripPatternForDate.java:99-111 | hashCode hashes the trip-times array, while equals ignores it. | the same filter applied twice to a pattern of two trips, giving two filtered instances with different arrays | equal instances hash alike | medium; not executed | TripPatternForDate.FilteredInstanceHashesDifferently | TripPatternForDate.EqualInstancesHashAlike |
| src/main/java/org/opentripplanner/raptor/heuristic/RoundOnlyHeuristicRaptorWorker.java:77-106 | A search that stops early leaves null round slots. Worker.Heuristics hands them over, and the destination check of the heuristics then meets one of them. | one round reaching nothing, with rounds left and an egress stop not reached | rounds never run count as empty | medium; not executed | RoundOnlyHeuristicRaptorWorker.EarlyStopLeavesNullSlot | RoundOnlyHeuristicRaptorWorker.FilledHasNoNullSlot |
| src/main/java/org/opentripplanner/updater/SiriFuzzyTripMatcher.java:119-128 | The quay lookup adds every later quay's trips into the cached set of the first quay found. | quays A and B at the same time with different trips | the lookup leaves the cache unchanged | high; not executed | SiriFuzzyTripMatcher.Matcher.CollectQuayTripsAsWritten, SiriFuzzyTripMatcher.QuayLookupPollutesCache | SiriFuzzyTripMatcher.Matcher.CollectQuayTrips |
| src/main/java/org/opentripplanner/raptor/heuristic/RoundOnlyHeuristics.java:35 | The round counter is a byte. After round 127 it wraps to -128, which still passes the length test, so the array lookup at -128 throws. A worker with 127 rounds allocates 128 slots. | 128 round slots, none null | every round is indexed | high; not executed | RoundOnlyHeuristics.Heuristics.BestNumOfTransfersToIntArray, RoundOnlyHeuristics.ByteRoundsThrow | RoundOnlyHeuristics.NumTransfersFixed, RoundOnlyHeuristics.FixedHandlesByteRounds |
| src/main/java/org/opentripplanner/routing/algorithm/raptoradapter/transit/BookingTimeAccessEgress.java:84-91 | The earliest departure is the later of the booking time and the request; the delegate's own answer only decides whether there is one. | a delegate with opening hours answering request + 100, booking time before the request | the later of the booking time and the delegate's answer | medium; not executed | AccessEgress.BookingTimeDepartsBeforeDelegate | AccessEgress.BookingTimeDepartureFixed, AccessEgress.BookingTimeFixedKeepsOpeningHours |
