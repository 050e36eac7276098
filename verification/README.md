# Syncday booking engine: a verified model

Syncday lets teams publish their hosts' availability and lets invitees book meetings. This project models its booking
engine and the stateful protocols around it, and proves what they keep.

* `TimeRanges`, `WeeklyAvailability`, `DateOverrides`, `OverrideClamp`, `HostAvailability`: how the availabilities of
  several hosts become one. The two-pointer sweep over time ranges is shown to be intersection, on lists; the weekly merge
  does not depend on the order of the hosts; what is left of a date suits every host that overrides it.
* `Booking`: how a request is checked against the merged availability and the stored bookings, down to the seconds of
  the conflict window, and what every run of bookings keeps.
* `Billing`, `Invitations`, `Membership`: prorated orders and refunds, the Redis index of invitations, and the member
  count that has to balance them.
* `CalendarSync`, `OutboundCalendar`: synchronization of a Google calendar, and the single outbound calendar of a profile.
* `EventLinks`, `AvailabilityStore`: the link set and the availability bodies that Redis holds beside the database.
* `Notifications`: the reminders of a booking, expanded over hosts by a loop that merges shared objects in place.
* `PercentDecoding`: the pipe that decodes a URL part until nothing changes.
* `Wrappers`, `Strings`: absent values, refusals, and string helpers.

Code that changes things step by step is modelled by classes and methods with loops, each proved equal to a function of
the old state; the properties are lemmas about those functions. Clocks, generated ids and suffixes, fetched events and
vendor answers are parameters.

Where the code does not do what its purpose suggests, the model follows the code and states exactly when it does:

* The end of the conflict window is set from the start that was already moved, so on whole minutes it is not shortened:
  the slot right before a meeting is refused (`Booking.BackToBack`). With other seconds a meeting can be booked over
  (`Booking.FilterSafeIff`, `Booking.UnsafeSecondsDoubleBook`).
* Each override range is narrowed by every weekly range of its weekday, so a lunch break closes every override on that
  weekday; the clamp is an intersection exactly for one weekly range, or where there is nothing to lose
  (`OverrideClamp.ClampExactIff`, `OverrideClamp.GapClosesOverride`).
* When hosts work the same weekday without common hours, an override there is not clamped at all, and does not suit the
  week of every host (`HostAvailability.SuitsEveryWeekIff`).
* A refund can exceed the unit price for some prices (`Billing.NeverOverRefundedIff`); a period in the future gives days
  outside 0 to 30 (`Billing.ProrationDateRange`).
* New invitees are recognized by substring, a withdrawal decrements the count even if nothing was pending, and a sign-up
  deletes the invitations of both contacts of a user for one profile (`Membership.PlainRequestBalancesIff`,
  `Membership.WithdrawalConservesIff`, `Membership.SignUpConservesIff`).
* Both vendors' patches start before either can fail, each in a transaction of its own that a synchronization can roll
  back (`OutboundCalendar.PatchKeepsOneIff`).
* A patch with an empty link bypasses the link set (`EventLinks.PatchKeepsIff`).
* The body of an availability that no event uses is not deleted with it (`AvailabilityStore.RemoveKeepsExactIff`).
* The host's notification settings are merged with themselves, so later reminders of a kind take the time of the first
  (`Notifications.SelfMergeKeepsIff`).
* Patch, clone and remove also reach availabilities of other profiles (`AvailabilityStore.PatchKeepsDefaultIff`,
  `AvailabilityStore.CloneKeepsCoverIff`, `AvailabilityStore.RemoveKeepsDefaultIff`), and
  updateAll finds bodies by the digits in their keys (`AvailabilityStore.UpdateAllReachesIff`).
* Twelve decodings are made, not ten (`PercentDecoding.RestoresIff`).

## Model

| member | source | states |
|---|---|---|
| HostAvailability.FoldInsideEveryHost | src/main/services/util/time-util/time-util.service.ts:26-238 | After any number of hosts has been merged, every range left on a date lies inside one override range of every host that overrides that date; the hosts' ranges need not be sorted or disjoint. |
| HostAvailability.FoldInsideEveryWeek | src/main/services/util/time-util/time-util.service.ts:79-141 | With two or more hosts who have common hours on the weekday, every range left on a date lies inside one weekly range of every host, whether or not that host overrides the date. |
| HostAvailability.SuitsEveryWeekIff | src/main/services/util/time-util/time-util.service.ts:79-141 | With two or more hosts, a range that is left on a date and takes time lies inside a weekly range of every host if and only if the hosts have any common hours on the weekday. |
| HostAvailability.NoCommonHoursLeaveAWeek | src/main/services/util/time-util/time-util.service.ts:102-134 | The failing case: two hosts who both work the weekday without common hours, and of whom one overrides the date; every range of the override is offered, and lies outside the weekly hours of one of the two. |
| HostAvailability.NoCommonHoursOfferWhole | src/main/services/util/time-util/time-util.service.ts:102-134 | In that case the override is offered as it is, also if it has ranges that take no time. |
| HostAvailability.WeekInsideEveryHost | src/main/services/util/time-util/time-util.service.ts:240-267 | Every merged weekly range lies inside one weekly range of every host. |
| HostAvailability.FoldDates | src/main/services/util/time-util/time-util.service.ts:26-141 | A date is in the merged result if and only if some host overrides it and, with two or more hosts, its weekday is in the merged week: a date dropped on the way never comes back from a later host. |
| HostAvailability.ClosedStaysClosed | src/main/services/util/time-util/time-util.service.ts:79-238 | A date that one host closes has no range left, whatever the other hosts offer. |
| HostAvailability.WeekOrderIndependent | src/main/services/bookings/bookings.service.ts:145-147 | For hosts normalized to one fixed time zone, the weekly part of the merged availability is the same list for every order in which they arrive. |
| HostAvailability.FoldTimezone | src/main/services/util/time-util/time-util.service.ts:26-77 | The merged availability has the time zone of the first host, and a single host stays as it is. |
| Booking.OverrideBookingSuitsEveryHost | src/main/services/bookings/bookings.service.ts:164-209 | A booking accepted through an override of the merged availability starts no earlier than now, takes time, and lies inside one override range of every host that overrides the date, for any localizer that is monotone in the time of day. |
| Booking.OverrideBookingSuitsEveryWeek | src/main/services/bookings/bookings.service.ts:164-209 | Such a booking, with two or more hosts who have common hours on the weekday, also lies inside one weekly range of every host. |
| Booking.RunsNeverDoubleBook | src/main/services/scheduled-events/global-scheduled-events.service.ts:506-724 | No run of booking and cancellation steps leaves two overlapping meetings of one event, as long as every request encloses its meeting in its buffers and its seconds are safe for the filter (whole minutes always are). |
| Booking.WholeMinutesNeverDoubleBook | src/main/services/scheduled-events/global-scheduled-events.service.ts:506-724 | On whole minutes, with meetings inside their buffers, no run double-books. |
| Booking.WholeMinutesCovered | src/main/services/scheduled-events/global-scheduled-events.service.ts:664-683 | Requests on whole minutes are safe for the filter. |
| Booking.StepKeeps | src/main/services/scheduled-events/global-scheduled-events.service.ts:506-724 | One booking step, or one cancellation, keeps all stored meetings of an event disjoint. |
| Booking.AcceptedClearsMeetings | src/main/services/scheduled-events/global-scheduled-events.service.ts:580-662 | The checked window of an accepted booking, buffers included, overlaps no earlier meeting of the event and no schedule of the outbound calendar. |
| Booking.WholeMinuteConflicts | src/main/services/scheduled-events/global-scheduled-events.service.ts:664-724 | On whole minutes the four meeting clauses together match exactly the meetings that start by the end of the window and end after its start. |
| Booking.BackToBack | src/main/services/scheduled-events/global-scheduled-events.service.ts:664-724 | A slot right after a stored meeting is free of it; a slot that ends where a stored meeting starts is refused. |
| Booking.MeetingClausesMeaning | src/main/services/scheduled-events/global-scheduled-events.service.ts:684-724 | In a window that is not reversed the four clauses say that the meeting touches the window; in a reversed one that it reaches across it. |
| Booking.FilterExactIff | src/main/services/scheduled-events/global-scheduled-events.service.ts:664-724 | The filter reads "starts by the end, ends after the start" for every stored meeting if and only if start and end carry the same seconds and those are not 59. |
| Booking.FilterSafeIff | src/main/services/scheduled-events/global-scheduled-events.service.ts:664-724 | Every overlapping meeting is caught if and only if the seconds of the end are at most those of the moved start (or the request is so short that its window comes out reversed). |
| Booking.UnsafeSecondsDoubleBook | src/main/services/scheduled-events/global-scheduled-events.service.ts:506-724 | Whenever the filter is not safe for a request, there is a stored meeting on top of which the request is accepted. |
| Booking.Validate | src/main/services/scheduled-events/global-scheduled-events.service.ts:506-662 | Accepted if and only if the request is not past, takes time, is offered by the first overlapping override (or, without one, by the weekly check), and matches no booking of the event and no schedule of the outbound calendar. |
| Booking.NoConflictIff | src/main/services/scheduled-events/global-scheduled-events.service.ts:580-724 | For a request whose checked start and end are whole minutes, start before end: no conflict if and only if no stored booking of the event and no vendor schedule starts by the end and ends after the start, or has a start or end buffer after the start and up to the end. |
| Booking.NoConflictSecondsIff | src/main/services/scheduled-events/global-scheduled-events.service.ts:580-724 | For any seconds: no conflict if and only if none of them touches the stretch between one second after the start and the end with shifted seconds, whichever comes first, or has a buffer in it. |
| Booking.AcceptedOnOverrideIff | src/main/services/scheduled-events/global-scheduled-events.service.ts:506-662 | Where the first override whose day the request touches decides, the request is accepted if and only if it is not past, takes time, lies in one range of that override, and has no conflict; so a closed day refuses every request that touches it. |
| Booking.AcceptedOnWeekIff | src/main/services/scheduled-events/global-scheduled-events.service.ts:506-662 | Where the request touches no overridden day, it is accepted if and only if it is not past, takes time, lies in the weekly hours, and has no conflict. |
| Booking.ConflictCheckWindow | src/main/services/scheduled-events/global-scheduled-events.service.ts:664-683 | The window that two setSeconds calls leave, the second of which uses the start that the first has moved. |
| Booking.FindOverlappingDateOverride | src/main/services/util/time-util/time-util.service.ts:349-388 | The first override whose day, 00:00 to 23:59, holds the start or the end of the request; none if and only if no override does. |
| Booking.ScheduledEvents.Create | src/main/services/scheduled-events/global-scheduled-events.service.ts:410-443 | The request is stored if and only if it is accepted; otherwise nothing changes. |
| Booking.CancelTakesOut | src/main/services/scheduled-events/global-scheduled-events.service.ts:410-443 | A cancellation takes out the booking named and no other. |
| TimeRanges.IntersectTimeRanges | src/main/services/util/time-util/time-util.service.ts:269-311 | The two-pointer loop computes the sweep; for ordered lists the result is ordered and free exactly in the minutes in which both are. |
| TimeRanges.CompareTimeSlot | src/main/services/util/time-util/time-util.service.ts:313-342 | The earlier or the later of two slots. |
| TimeRanges.Sweep | src/main/services/util/time-util/time-util.service.ts:269-311 | The result has at most as many ranges as both lists together. |
| TimeRanges.SweepElements | src/main/services/util/time-util/time-util.service.ts:269-311 | For ordered lists the result holds exactly the non-empty overlaps of a range of one list with a range of the other. |
| TimeRanges.SweepWithin | src/main/services/util/time-util/time-util.service.ts:269-311 | For any lists, every range of the result lies in one range of each. |
| TimeRanges.SweepComplete | src/main/services/util/time-util/time-util.service.ts:269-311 | For ordered lists no overlap is missed by the advance rule on equal ends. |
| TimeRanges.SweepOrdered | src/main/services/util/time-util/time-util.service.ts:269-311 | Sorted, disjoint, non-empty ranges give sorted, disjoint, non-empty ranges. |
| TimeRanges.SweepFree | src/main/services/util/time-util/time-util.service.ts:269-311 | A minute is free in the result if and only if it is free in both lists. |
| TimeRanges.OrderedUnique | src/main/services/util/time-util/time-util.service.ts:269-311 | Ordered lists with the same ranges are the same list. |
| TimeRanges.SweepCommutes | src/main/services/util/time-util/time-util.service.ts:269-311 | As a function on ordered lists the intersection is commutative, although ties are broken by argument order. |
| TimeRanges.SweepAssociates | src/main/services/util/time-util/time-util.service.ts:269-311 | It is associative. |
| TimeRanges.SweepIdempotent | src/main/services/util/time-util/time-util.service.ts:269-311 | It is idempotent. |
| WeeklyAvailability.IntersectAvailableTimes | src/main/services/util/time-util/time-util.service.ts:240-267 | The loop over weekdays computes the shared week. |
| WeeklyAvailability.SharedHoursOn | src/main/services/util/time-util/time-util.service.ts:240-267 | The shared week has a weekday if and only if both hosts have it, with the intersection of their ranges. |
| WeeklyAvailability.HoursOnFirst | src/main/services/util/time-util/time-util.service.ts:240-267 | The hours of a weekday are those of the first entry for it. |
| WeeklyAvailability.SharedWeekCommutes | src/main/services/util/time-util/time-util.service.ts:240-267 | Merging two weeks is commutative. |
| WeeklyAvailability.SharedWeekAssociates | src/main/services/util/time-util/time-util.service.ts:240-267 | Merging weeks is associative. |
| WeeklyAvailability.FoldWeeksMeaning | src/main/services/bookings/bookings.service.ts:145-147 | After the fold a weekday is offered if and only if every host works it, and a minute is free if and only if it is free for every host. |
| WeeklyAvailability.FoldWeeksOrderIndependent | src/main/services/availability/availability.service.ts:127-143 | Any permutation of the hosts' normalized weeks folds to the same list. |
| DateOverrides.IntersectOverridedAvailableTimes | src/main/services/util/time-util/time-util.service.ts:143-238 | The Map, the do-while loop and the sort compute the merge. |
| DateOverrides.ReadOverrides | src/main/services/util/time-util/time-util.service.ts:150-173 | The Map holds every date once, in order of first sight, with the range lists of its entries in order. |
| DateOverrides.CombineTimeRanges | src/main/services/util/time-util/time-util.service.ts:192-229 | Sole list, closed date or intersection; the final throw is never reached. |
| DateOverrides.MergeMeaning | src/main/services/util/time-util/time-util.service.ts:143-238 | With distinct dates on each side, a merged date has the sole list if one side has it, no range if either side is closed, and the intersection otherwise; no other date appears. |
| DateOverrides.OverrideOnFirst | src/main/services/util/time-util/time-util.service.ts:143-238 | What a list says of a date is what its first entry for the date says. |
| DateOverrides.MergeDescending | src/main/services/util/time-util/time-util.service.ts:143-238 | The merged dates are exactly those of either list, strictly descending. |
| DateOverrides.DescendingUnique | src/main/services/util/time-util/time-util.service.ts:232-238 | A descending list is determined by what it says of each date. |
| OverrideClamp.IntersectOverrideWithAvailableTimes | src/main/services/util/time-util/time-util.service.ts:79-141 | The filter and the in-place updates leave objects that hold the clamped overrides. |
| OverrideClamp.DateOverrideCell.Clamp | src/main/services/util/time-util/time-util.service.ts:93-137 | One override, narrowed and filtered in place. |
| OverrideClamp.TimeRangeCell.Narrow | src/main/services/util/time-util/time-util.service.ts:105-121 | The inner loop narrows one range object by every weekly range in turn. |
| OverrideClamp.NarrowAll | src/main/services/util/time-util/time-util.service.ts:104-124 | Every range object of an override is narrowed, each independently of the others. |
| OverrideClamp.KeepValidCells | src/main/services/util/time-util/time-util.service.ts:124-134 | Exactly the objects whose end is not before their start are kept, in order. |
| OverrideClamp.ClampAll | src/main/services/util/time-util/time-util.service.ts:93-137 | Clamping one override leaves the others alone. |
| OverrideClamp.OpenCells | src/main/services/util/time-util/time-util.service.ts:84-93 | Exactly the overrides on weekdays with hours go on, in order. |
| OverrideClamp.ClampRangesWithin | src/main/services/util/time-util/time-util.service.ts:79-141 | Every surviving range is a sub-range of an original range and of every weekly range of its weekday. |
| OverrideClamp.ClampRangeWithin | src/main/services/util/time-util/time-util.service.ts:105-121 | Narrowing only shrinks, against every weekly range. |
| OverrideClamp.ClampRangeLargest | src/main/services/util/time-util/time-util.service.ts:105-121 | Nothing more is lost: whatever lies in the range and in all weekly ranges lies in the narrowed one. |
| OverrideClamp.SurvivesIff | src/main/services/util/time-util/time-util.service.ts:105-134 | A range survives if and only if it and all the weekly ranges of the weekday have an instant in common. |
| OverrideClamp.ClampExactIff | src/main/services/util/time-util/time-util.service.ts:102-134 | For ordered weekly hours, the clamp leaves exactly the minutes that the override and the hours share if and only if there is one weekly range, or several and nothing is shared, or none and the override has no minute. |
| OverrideClamp.GapClosesOverride | src/main/services/util/time-util/time-util.service.ts:105-134 | A weekday whose hours have a gap loses every override range on it, since each range is narrowed by all of them. |
| OverrideClamp.ClampRangesOrdered | src/main/services/util/time-util/time-util.service.ts:79-141 | Survivors keep their order and stay disjoint. |
| OverrideClamp.ClampLookup | src/main/services/util/time-util/time-util.service.ts:79-141 | Dates on weekdays without hours disappear; every other date keeps its clamped ranges. |
| OverrideClamp.ClampIdempotent | src/main/services/util/time-util/time-util.service.ts:79-141 | Clamping twice is clamping once. |
| Membership.MemberCountConservedIff | src/main/services/profiles/profiles.service.ts:304-974 | In every run of team creation, bulk invitation, sign-up, phone update, removal and withdrawal, the member count of every team is its profiles plus its pending invitations all along, if and only if every step meets its condition: an invitation balances, the other contact of a user who signs up is not pending at the teams joined, a withdrawal names a pending contact. |
| Membership.MemberCountConserved | src/main/services/team/team.redis-repository.ts:72-123 | After any run whose steps meet these conditions, the Redis count of a team is the number of its profiles plus its pending contacts. |
| Membership.StepConservesIff | src/main/services/profiles/profiles.service.ts:304-974 | One step keeps the counts of all teams if and only if it meets its condition. |
| Membership.SignUpConservesIff | src/main/services/profiles/profiles.service.ts:548-640 | A sign-up, of a user with an e-mail address, a phone number or both, keeps the counts if and only if no team that invited the contact looked up has the user's other contact pending as well. |
| Membership.SecondContactMiscounts | src/main/services/profiles/profiles.service.ts:785-794 | The failing case: completing the invitation deletes both contacts but only one profile is added, so the team counts one too many. |
| Membership.SignUpCompletes | src/main/services/users/user.service.ts:377-395 | After a sign-up no team keeps an invitation of the contact that was looked up. |
| Membership.JoinsEffect | src/main/services/profiles/profiles.service.ts:548-640 | The loop over the inviting teams adds one profile to each, takes the user's contacts out of each, and changes no other team. |
| Membership.JoinsAreListed | src/main/services/profiles/profiles.service.ts:548-640 | Every profile that a sign-up adds is listed by the order of the invitation it completes. |
| Membership.BulkInviteConservesIff | src/main/services/profiles/profiles.service.ts:304-531 | A bulk invitation, of any invitees among any users, keeps the counts if and only if the contacts it counts are as many as the users it finds and the contacts it newly makes pending. |
| Membership.PlainRequestBalancesIff | src/main/services/util/util.service.ts:551-571 | For different invitees with one contact each, among users who share no contact but may have two, that is so if and only if no user is found by two invitees, no new invitee's contact is a part of a found user's, and no new invitee is already pending. |
| Membership.BulkInviteEffect | src/main/services/profiles/profiles.service.ts:377-508 | What a bulk invitation adds to the count, to the profiles and to the pending contacts of every team. |
| Membership.InvitationsCounted | src/main/services/profiles/profiles.service.ts:304-375 | A bulk invitation counts every non-empty e-mail address and every non-empty phone number of its invitees. |
| Membership.InviteOrdered | src/main/services/profiles/profiles.service.ts:377-452 | A bulk invitation orders as many units as it has invitees, and makes as many new profiles as it finds users; every earlier order and profile stays. |
| Membership.FoundPerInvitee | src/main/services/users/user.service.ts:90-119 | The users found are at most as many as the invitees with an account, and fewer if and only if one is found twice. |
| Membership.SearchedIff | src/main/services/users/user.service.ts:90-119 | A stored user is found if and only if an invitee has a non-empty e-mail address equal to the user's or a non-empty phone number equal to the user's. |
| Membership.FoundIff | src/main/services/util/util.service.ts:551-571 | An invitee is taken for a found user if and only if both have an e-mail address and the invitee's is a part of the user's, or not both have one, both have a number, and the invitee's is a part of the user's. |
| Membership.RegisteredIsNotInvited | src/main/services/util/util.service.ts:551-571 | After a plain request no contact of a registered user that is equal to an invitee's is newly pending. |
| Membership.InvitedPlainIff | src/main/services/util/util.service.ts:551-571 | A plain request invites an invitee anew if and only if none of the users found is taken for the invitee. |
| Membership.AllInvitedIff | src/main/services/util/util.service.ts:551-571 | Only invitees without an account are invited anew, and all of them if and only if no substring hits. |
| Membership.WithdrawalConservesIff | src/main/services/profiles/profiles.service.ts:960-974 | A withdrawal keeps the counts if and only if the invitation it names is pending: the count is decremented either way. |
| Membership.RemoveConserves | src/main/services/profiles/profiles.service.ts:804-958 | Removing a profile keeps the counts. |
| Membership.RemoveRefunds | src/main/services/profiles/profiles.service.ts:835-955 | A removal takes the prorated share of one unit for the days left from what its order has been paid, and changes no other order. |
| Membership.StepSound | src/main/services/profiles/profiles.service.ts:304-974 | Every step keeps the index in agreement, and every pending contact with an order that exists, whatever happens to the counts. |
| Membership.OrdersNeverOverRefunded | src/main/services/profiles/profiles.service.ts:835-955 | In every run in which each order's units cover the users found and the contacts invited, an order has no more refunds than profiles and no more profiles than units; if its refund fits its unit price its payments never sum below zero. |
| Membership.RunsKeepOrdersIff | src/main/services/profiles/profiles.service.ts:304-974 | All along a run every order's units cover the profiles it lists and the invitations that wait for it, if and only if they cover the users found and the contacts invited at every bulk invitation. |
| Membership.StepKeepsOrdersIff | src/main/services/profiles/profiles.service.ts:304-974 | One step keeps the units of all orders ahead if and only if it is not an invitation that finds or invites too many. |
| Membership.PlainRequestCovers | src/main/services/profiles/profiles.service.ts:377-452 | The units cover every plain request among users who share no contact. |
| Membership.ProfilesService.CreateBulk | src/main/services/profiles/profiles.service.ts:366-516 | Profiles, order, member count and index after a bulk invitation. |
| Membership.ProfilesService.CreateInvitedProfiles | src/main/services/profiles/profiles.service.ts:548-640 | The loop over the inviting teams; an invitation without an order is not completed. |
| Invitations.RunsAgree | src/main/services/profiles/profiles.redis-repository.ts:98-171 | In every run of invitations and deletions a team is in a contact's set if and only if the contact is in the team's set. |
| Invitations.PendingHasLatestOrder | src/main/services/profiles/profiles.redis-repository.ts:46-78 | Every pending contact has an order field, and any field left holds the order id of the latest invitation. |
| Invitations.DeletionLeavesOrder | src/main/services/profiles/profiles.redis-repository.ts:139-171 | A deletion removes the invitation but leaves the order field, whose name it does not use. |
| Invitations.AlreadyInvitedMeaning | src/main/services/profiles/profiles.redis-repository.ts:20-44 | The filter returns exactly the listed contacts that are pending for the team. |
| Invitations.AlreadyInvitedInOrder | src/main/services/profiles/profiles.redis-repository.ts:20-44 | It keeps them in order. |
| Invitations.NoColonIsPlain | src/main/services/profiles/profiles.redis-repository.ts:139-171 | A contact without a colon does not read like the Redis key of another. |
| Invitations.ProfilesRedisRepository.SetTeamInvitations | src/main/services/profiles/profiles.redis-repository.ts:98-137 | Both sets and the order field of every contact. |
| Invitations.ProfilesRedisRepository.FilterAlreadyInvited | src/main/services/profiles/profiles.redis-repository.ts:20-44 | The loop computes the filter. |
| Invitations.ProfilesRedisRepository.GetTeamInvitations | src/main/services/profiles/profiles.redis-repository.ts:46-78 | Every team that invited the contact, with its order id. |
| Invitations.ProfilesRedisRepository.GetAllTeamInvitations | src/main/services/profiles/profiles.redis-repository.ts:89-96 | Exactly the pending contacts of the team. |
| Billing.NeverOverRefundedIff | src/main/services/profiles/profiles.service.ts:835-845 | The payments of an order stay non-negative in every history of up to unit removals if and only if three times the last digit of the unit price is at most its tens. |
| Billing.RefundsBelow | src/main/services/profiles/profiles.service.ts:835-845 | Whatever the price, total refunds stay below 30/31 of the amount plus ten for every unit. |
| Billing.LargestRefund | src/main/services/util/util.service.ts:224-237 | The refund of 30 days fits the unit price if and only if that condition on its digits holds. |
| Billing.UsualPricesFit | src/main/services/util/util.service.ts:224-237 | Unit prices of 310 or more, and whole tens, meet it. |
| Billing.ProratedBounds | src/main/services/util/util.service.ts:224-237 | A proration is a multiple of ten, at least the exact share and less than ten above it. |
| Billing.ProrationDateRange | src/main/services/util/util.service.ts:189-202 | The days left are 0 to 30 if and only if the period has started, or starts whole 31-day months ahead. |
| Billing.DaysLeft | src/main/services/util/util.service.ts:189-202 | In milliseconds, in the first 31 days of a period: with d days left, at least 30 - d and less than 31 - d whole days have gone. |
| Billing.DaysLeftRepeat | src/main/services/util/util.service.ts:189-202 | Within the started periods the days left are the same 31 days later. |
| Billing.FirstDay | src/main/services/util/util.service.ts:189-237 | On the first day of a period the amount is the proration of 30 days. |
| Billing.LastDay | src/main/services/util/util.service.ts:189-237 | On its last day the amount is nothing. |
| Billing.LaterIsNoDearer | src/main/services/util/util.service.ts:189-237 | Within a month a later order is never dearer. |
| Billing.Order.constructor | src/main/services/orders/orders.service.ts:115-144 | An order's amount is the proration, which is its first payment. |
| Billing.Order.Refund | src/main/services/payments/payments.service.ts:121-140 | A refund adds one negative payment, the prorated floor of the unit price. |
| Billing.RefundSubtracts | src/main/services/payments/payments.service.ts:121-140 | The payments of an order sum up to what they were, less the prorated floor of the unit price. |
| CalendarSync.SyncConverges | src/main/services/integrations/google-integration/google-calendar-integrations/google-calendar-integrations.service.ts:92-218 | After a sync the calendar's stored iCalUIDs are exactly the fetched ones that were stored already or convert to a schedule. |
| CalendarSync.SyncRows | src/main/services/integrations/google-integration/google-calendar-integrations/google-calendar-integrations.service.ts:92-218 | Row by row: rows of fetched events stay as they are, and only events not stored before are converted. |
| CalendarSync.SyncRowsIff | src/main/services/integrations/google-integration/google-calendar-integrations/google-calendar-integrations.service.ts:92-218 | Which rows there are after a sync, row by row, in terms of what was fetched and what was stored. |
| CalendarSync.SyncIdempotent | src/main/services/integrations/google-integration/google-calendar-integrations/google-calendar-integrations.service.ts:92-218 | A second sync with the same fetch and clock changes nothing. |
| CalendarSync.OtherCalendarsUnchanged | src/main/services/integrations/google-integration/google-calendar-integrations/google-calendar-integrations.service.ts:92-218 | The rows of every other calendar are the same, in the same order. |
| CalendarSync.RemovedBookingsCanceled | src/main/services/integrations/google-integration/google-calendar-integrations/google-calendar-integrations.service.ts:176-218 | Exactly the unfinished, undeleted bookings tied to a removed iCalUID are canceled. |
| CalendarSync.CanceledIff | src/main/services/integrations/google-integration/google-calendar-integrations/google-calendar-integrations.service.ts:176-218 | A booking is canceled if and only if it ends after now, is not deleted, and its iCalUID has a stored row of the calendar but was not fetched; every other booking stays as it is. |
| CalendarSync.Repository.Synchronize | src/main/services/integrations/google-integration/google-calendar-integrations/google-calendar-integrations.service.ts:92-218 | Conversion loop, save, delete and cancel, step by step. |
| OutboundCalendar.RunsKeepOneIff | src/main/services/integrations/calendar-integrations/calendar-integrations.controller.ts:48-143 | In every run of integrations and patches, no profile has two outbound calendars at any time if and only if no patch leaves one behind at a vendor that fails. |
| OutboundCalendar.PatchKeepsOneIff | src/main/services/integrations/calendar-integrations/calendar-integrations.controller.ts:61-142 | A patch keeps at most one outbound calendar if and only if it does not set one at a vendor that goes through while the other vendor, holding one, fails: it refuses a calendar that is not the profile's, or its transaction rolls back because a synchronization throws. |
| OutboundCalendar.PartialPatchLeavesTwo | src/main/services/integrations/calendar-integrations/calendar-integrations.controller.ts:84-109 | The first failing case: both vendors start before either can refuse, so Apple sets its calendar while Google keeps its own. |
| OutboundCalendar.RevokedCredentialsLeaveTwo | src/main/services/integrations/calendar-integrations/calendar-integrations.controller.ts:129-142 | The second failing case: with the Apple account's credentials revoked, Google sets its calendar, Apple's reset is rolled back, and the response is a success. |
| OutboundCalendar.AcceptedPatchMovesOutbound | src/main/services/integrations/calendar-integrations/calendar-integrations.controller.ts:61-109 | A patch that goes through at both vendors makes the calendar it sets the only outbound calendar of the profile. |
| OutboundCalendar.PatchWithoutOutbound | src/main/services/integrations/calendar-integrations/calendar-integrations.controller.ts:61-109 | A patch that sets none adds none, whatever fails. |
| OutboundCalendar.PatchKeepsOtherProfiles | src/main/services/integrations/google-integration/google-calendar-integrations/google-calendar-integrations.service.ts:256-370 | A patch changes no calendar of another profile. |
| OutboundCalendar.PatchedOutbound | src/main/services/integrations/calendar-integrations/calendar-integrations.controller.ts:84-109 | Calendar by calendar, what is outbound after a patch of both vendors, of which each goes through or fails. |
| OutboundCalendar.VendorPatchedCalendar | src/main/services/integrations/apple-integrations/apple-calendar-integrations/apple-calendar-integrations.service.ts:132-242 | One vendor's transaction: if it goes through, its calendars of the profile are outbound as requested; if it throws, all are as before. |
| OutboundCalendar.PatchedSetting | src/main/services/integrations/google-integration/google-calendar-integrations/google-calendar-integrations.service.ts:256-370 | A patch that goes through gives a calendar it names the whole setting last asked for; another calendar of the profile keeps its conflict check and loses only its outbound flag. |
| OutboundCalendar.SynchronizesIff | src/main/services/integrations/google-integration/google-calendar-integrations/google-calendar-integrations.service.ts:256-428 | Google synchronizes if and only if a calendar of the profile is to be checked for conflicts after the request, by the first setting given to it or else by its own; Apple if and only if the request names a calendar that was checked before it. |
| OutboundCalendar.FailsIff | src/main/services/integrations/calendar-integrations/calendar-integrations.controller.ts:61-142 | A vendor fails for a calendar of another profile, or when the request concerns it or sets an outbound calendar anywhere, and it has to synchronize and does not. |
| OutboundCalendar.FirstFailureAnswers | src/main/services/integrations/calendar-integrations/calendar-integrations.controller.ts:84-142 | The failure that arrives first decides the response: not the owner, a success for revoked credentials, or not synchronized. |
| OutboundCalendar.NoFailureAnswers | src/main/services/integrations/calendar-integrations/calendar-integrations.controller.ts:61-142 | A request is bad, and changes nothing, if and only if two of its rows ask for outbound writing; without a failure the response is a success. |
| OutboundCalendar.FailsAsBefore | src/main/services/integrations/calendar-integrations/calendar-integrations.controller.ts:84-109 | What Google writes does not change whether Apple fails. |
| OutboundCalendar.GoogleIntegrationKeepsOne | src/main/services/integrations/google-integration/google-integrations.service.ts:208-238 | A new Google integration leaves at most one outbound calendar and any earlier one in place. |
| OutboundCalendar.FirstPrimaryMarked | src/main/services/integrations/google-integration/google-integrations.service.ts:208-238 | Exactly the first primary calendar is marked, and only in a first integration. |
| OutboundCalendar.InitialSettingIs | src/main/services/integrations/google-integration/google-integrations.service.ts:208-238 | A new Google calendar is checked for conflicts if and only if it is the marked one. |
| OutboundCalendar.AddedRows | src/main/services/integrations/google-integration/google-integrations.service.ts:208-238 | Every calendar of an integration has a row, with the setting of its own place. |
| OutboundCalendar.AppleIntegrationKeepsOne | src/main/services/integrations/apple-integrations/apple-converter/apple-converter.service.ts:43-57 | An Apple integration changes no profile's outbound calendars. |
| OutboundCalendar.AppleStartsChecking | src/main/services/integrations/apple-integrations/apple-converter/apple-converter.service.ts:43-57 | A new Apple calendar is checked for conflicts and not outbound. |
| OutboundCalendar.CalendarIntegrations.HasOutboundCalendar | src/main/services/integrations/integrations.validator.ts:43-75 | Both vendors' answers combined say whether the profile has an outbound calendar. |
| OutboundCalendar.CalendarIntegrations.IntegrateGoogle | src/main/services/integrations/google-integration/google-integrations.service.ts:208-238 | The pass over the calendars that lowers the flag at the first primary one. |
| OutboundCalendar.CalendarIntegrations.PatchVendor | src/main/services/integrations/google-integration/google-calendar-integrations/google-calendar-integrations.service.ts:256-428 | Refused, or reset, saved and then, if a synchronization throws, rolled back; the failure says which. |
| OutboundCalendar.CalendarIntegrations.PatchAll | src/main/services/integrations/calendar-integrations/calendar-integrations.controller.ts:48-143 | A request that sets two is bad; otherwise both vendors are patched, and the failure that arrives first decides the response, with invalid credentials answered as a success. |
| EventLinks.RunsAgreeIff | src/main/services/events/events.service.ts:252-615 | All along a run with fresh ids and generated links the link set is the set of the stored events' links, all distinct, if and only if no step blanks a link. |
| EventLinks.StepKeepsIff | src/main/services/events/events.service.ts:252-615 | Such a step keeps the agreement if and only if it is not a patch that replaces a link by the empty text. |
| EventLinks.RunsCover | src/main/services/events/events.service.ts:252-615 | In every run with fresh ids and generated links, blanked links or not, no two events share a link that is not empty. |
| EventLinks.PatchKeepsIff | src/main/services/events/events.service.ts:416-442 | A patch keeps the agreement if and only if it does not blank a link: the empty text is written without a look at the set. |
| EventLinks.BlankedLinkIsLost | src/main/services/events/events.service.ts:416-442 | The failing case: no event has the blanked link any more, yet another event's patch to it is refused. |
| EventLinks.CreateKeepsIff | src/main/services/events/events.service.ts:307-322 | A new event breaks the agreement only when the plain link is taken and the suffixed one is too. |
| EventLinks.CloneKeepsIff | src/main/services/events/events.service.ts:596-608 | A clone breaks it only when its suffixed link is taken. |
| EventLinks.UpdateKeeps | src/main/services/events/events.service.ts:463-528 | An update keeps it. |
| EventLinks.RemoveKeeps | src/main/services/events/events.service.ts:533-567 | A removal keeps it. |
| EventLinks.RefusedIffTaken | src/main/services/events/events.service.ts:424-471 | A link is refused if and only if another stored event of the team has it. |
| EventLinks.PatchBack | src/main/services/events/events.service.ts:416-442 | Patching the old link back is accepted and restores events and set. |
| EventLinks.CreateGives | src/main/services/events/events.service.ts:307-396 | A new event has the plain link, or the suffixed one if that is taken; its link is in the set and every other event keeps its own. |
| EventLinks.PatchGives | src/main/services/events/events.service.ts:416-442 | A patch that is not refused gives the event the link asked for, in row and set, and frees the old one. |
| EventLinks.UpdateGives | src/main/services/events/events.service.ts:463-528 | An update that is not refused gives the event the new link, in row and set, and frees the old one. |
| EventLinks.RemoveFrees | src/main/services/events/events.service.ts:533-567 | After a removal the event is gone, its link is free again, and every other event keeps its own. |
| EventLinks.CloneGives | src/main/services/events/events.service.ts:596-608 | A clone has the suffixed link of its source, which keeps its own. |
| EventLinks.RefusalKeeps | src/main/services/events/events.service.ts:424-471 | A refused patch or update changes nothing. |
| EventLinks.EventsService.Create | src/main/services/events/events.service.ts:307-396 | Event and link set after a creation. |
| EventLinks.EventsService.Patch | src/main/services/events/events.service.ts:416-442 | Event, link set and refusal of a patch. |
| EventLinks.EventsService.Update | src/main/services/events/events.service.ts:452-531 | Event, link set and refusal of an update. |
| EventLinks.EventsService.Remove | src/main/services/events/events.service.ts:533-567 | Event and link set after a removal. |
| EventLinks.EventsService.Clone | src/main/services/events/events.service.ts:569-615 | Event and link set after a clone. |
| AvailabilityStore.RunsStaySound | src/main/services/availability/availability.service.ts:169-477 | In every run on own availabilities each profile that started with one default keeps exactly one, every event profile uses an availability that exists, every availability has its body, and no patch or clone fails for want of one. |
| AvailabilityStore.RunsKeepBodiesExactIff | src/main/services/availability/availability.service.ts:169-477 | All along a run on own availabilities the body keys are exactly profileId:uuid of the availabilities, if and only if every availability removed was in use. |
| AvailabilityStore.StepKeepsExactIff | src/main/services/availability/availability.service.ts:350-392 | A step keeps the keys exact if and only if it does not remove an availability that no event profile uses. |
| AvailabilityStore.RemoveKeepsExactIff | src/main/services/availability/availability.service.ts:350-392 | A removal, of an own availability or not, keeps the keys exact if and only if it removes nothing or removes an own availability in use. |
| AvailabilityStore.UnusedBodyStays | src/main/services/availability/availability.service.ts:371-389 | The failing case: the body of an availability that no event uses outlives it. |
| AvailabilityStore.RemoveRelinks | src/main/services/events/events.service.ts:807-825 | A removal leaves every event profile on an availability that exists, since those of the removed one move to the caller's default, which is another. |
| AvailabilityStore.RemoveMoves | src/main/services/availability/availability.service.ts:350-392 | A removal moves exactly the event profiles that used the availability, to a default one of the caller; every other event profile, row and body stays. |
| AvailabilityStore.UnlinkMoves | src/main/services/events/events.service.ts:807-825 | Unlinking moves exactly the event profiles that used the availability, to a default one of the caller, and nothing else. |
| AvailabilityStore.RefusedIffDefault | src/main/services/availability/availability.service.ts:350-477 | For a profile with one default, a removal or an unlinking is refused if and only if it names that one. |
| AvailabilityStore.EventUsesDefault | src/main/services/events/events.service.ts:288-378 | A new event profile uses a default availability of its profile. |
| AvailabilityStore.OthersEventProfileKept | src/main/services/events/events.service.ts:807-825 | No step on own availabilities changes an event profile that uses another profile's availability. |
| AvailabilityStore.RunsKeepOthersEventProfiles | src/main/services/events/events.service.ts:807-825 | So it is in a whole run: while others act, the event profiles of a profile stay where they are. |
| AvailabilityStore.OthersRowKept | src/main/services/availability/availability.service.ts:169-477 | No step on own availabilities changes the row of another profile's availability. |
| AvailabilityStore.OthersBodyKept | src/main/services/availability/availability.service.ts:169-477 | Nor, updateAll aside, its body. |
| AvailabilityStore.PatchKeepsDefaultIff | src/main/services/availability/availability.service.ts:250-323 | A patch keeps exactly one default of a profile unless it makes an availability of another profile than the caller's a default, which the lookup by id alone finds: then the caller has none, and the owner has two if it was not the default before. |
| AvailabilityStore.RemoveKeepsDefaultIff | src/main/services/availability/availability.service.ts:350-392 | A removal keeps exactly one default of a profile unless it deletes, by its id alone, the default of another profile than the caller's. |
| AvailabilityStore.OwnPatchDefaults | src/main/services/availability/availability.service.ts:281-305 | A patch of an own availability moves the default there when asked to and touches no other profile's. |
| AvailabilityStore.PatchWrites | src/main/services/availability/availability.service.ts:250-323 | A patch that goes through writes the default flag and the body it names, and no other body. |
| AvailabilityStore.PatchRefusedIff | src/main/services/availability/availability.service.ts:250-323 | A patch is refused, and changes nothing, if there is no such availability or it would take the flag from the default one. |
| AvailabilityStore.OwnPatchFindsBody | src/main/services/availability/availability.redis-repository.ts:89-108 | A patch of an own availability never fails to save its body and creates no key. |
| AvailabilityStore.CloneKeepsCoverIff | src/main/services/availability/availability.service.ts:397-432 | A clone leaves every availability with a body if and only if it copies no availability of another profile, whose body it looks up under the caller's. |
| AvailabilityStore.OwnCloneKeepsBodies | src/main/services/availability/availability.service.ts:397-432 | A clone of an own availability finds its body and adds exactly one. |
| AvailabilityStore.CloneCopies | src/main/services/availability/availability.service.ts:397-432 | A clone of an own availability is a new row of the profile, not a default, with the refreshed body of its source. |
| AvailabilityStore.UpdateAllKeepsKeys | src/main/services/availability/availability.redis-repository.ts:148-207 | updateAll leaves the key set as it is, whatever it writes. |
| AvailabilityStore.UpdateAllReachesIff | src/main/services/availability/availability.redis-repository.ts:176-190 | It rewrites every body of the profile, and a body of another profile if and only if that profile's id or the uuid contains the digits of the id. |
| AvailabilityStore.BodyKeyInjective | src/main/services/availability/availability.redis-repository.ts:133-136 | A body key names one profile and one uuid. |
| AvailabilityStore.AvailabilityService.Create | src/main/services/availability/availability.service.ts:169-204 | Row and body of a new availability. |
| AvailabilityStore.AvailabilityService.Patch | src/main/services/availability/availability.service.ts:250-323 | Refusals, default flags and body of a patch, in the order of its writes. |
| AvailabilityStore.AvailabilityService.Remove | src/main/services/availability/availability.service.ts:350-392 | Refusals, event profiles, row and body of a removal. |
| AvailabilityStore.AvailabilityService.Clone | src/main/services/availability/availability.service.ts:397-432 | Row and body of a clone, whose source body is looked up under the caller's profile. |
| AvailabilityStore.AvailabilityService.UnlinkToEvents | src/main/services/availability/availability.service.ts:459-477 | The default cannot be unlinked; event profiles of any other availability move to it. |
| AvailabilityStore.AvailabilityRedisRepository.Save | src/main/services/availability/availability.redis-repository.ts:68-87 | Fails if and only if the key existed; the body is written either way. |
| AvailabilityStore.AvailabilityRedisRepository.Update | src/main/services/availability/availability.redis-repository.ts:89-108 | Fails if and only if the key is new; the body is written either way. |
| AvailabilityStore.AvailabilityRedisRepository.UpdateAll | src/main/services/availability/availability.redis-repository.ts:148-207 | Every body whose key contains the digits of the profile id is rewritten; never fails. |
| AvailabilityStore.AvailabilityRedisRepository.Clone | src/main/services/availability/availability.redis-repository.ts:240-253 | The source body saved under the new key, or a failure if there is none. |
| Notifications.GetPatchedScheduledEvent | src/main/services/util/util.service.ts:705-729 | The rows over all hosts are those of the settings merged once, although every pass merges them again in place; rejected if and only if there is a host and an unsupported host notification has a reminder. |
| Notifications.InviteeRowsOnce | src/main/services/util/util.service.ts:711-729 | The invitee rows do not multiply with the hosts: they are those of the first host's pass. |
| Notifications.HostRowsPerHost | src/main/services/util/util.service.ts:711-729 | The host rows are, host after host, the rows of each host. |
| Notifications.OneRowPerReminder | src/main/services/util/util.service.ts:796-852 | A host has one row for each reminder of each notification that it can receive. |
| Notifications.HostRowsMeaning | src/main/services/util/util.service.ts:827-858 | Every host row comes from a reminder of the merged settings: its type, the host's profile and address, and as many hours and minutes before the start as the reminder says; never after the start. |
| Notifications.HostRowsComplete | src/main/services/util/util.service.ts:796-858 | Every reminder of a notification that the host can receive has such a row. |
| Notifications.InviteeRowsMeaning | src/main/services/util/util.service.ts:827-858 | Every invitee row comes, in the same way, from a reminder that the event's invitee settings want. |
| Notifications.InviteeRowsComplete | src/main/services/util/util.service.ts:796-858 | Every reminder that those settings want has such a row. |
| Notifications.LongerLeadsEarlier | src/main/services/util/util.service.ts:835-841 | A reminder without a lead time reminds at the start, any other its hours and minutes before it; a longer lead never reminds later. |
| Notifications.ExpansionRemindsInTime | src/main/services/util/util.service.ts:705-729 | No row of an expansion over any hosts reminds after the start of the meeting. |
| Notifications.ExpansionRowsCome | src/main/services/util/util.service.ts:705-858 | Every row of an expansion comes from a reminder of the settings: it has the type, the lead before the start and, for the invitee, the address of the first reminder of its kind in the source, and its own where the source is silent; host rows have the host settings themselves as source, invitee rows the invitee settings of the event. |
| Notifications.PassOrder | src/main/services/util/util.service.ts:760-858 | In a pass the rows of the host come all before those of the invitee, or all after them, in the order of the settings. |
| Notifications.HostRowsAddressed | src/main/services/util/util.service.ts:827-876 | Every host row carries the host's own e-mail address or phone number, as its kind asks. |
| Notifications.LaterPassesKeepSettings | src/main/services/util/util.service.ts:767-791 | After the first pass the merged reminders stay as they are. |
| Notifications.HostMergeTwice | src/main/services/util/util.service.ts:767-791 | Merging the host settings with themselves twice is merging them once. |
| Notifications.SelfMergeKeepsIff | src/main/services/util/util.service.ts:767-791 | The merge leaves the host settings of the event as they are if and only if every reminder carries what the first reminder of the first notification of its kind has set. |
| Notifications.HostRemindersCollapse | src/main/services/util/util.service.ts:767-791 | The failing case: all host reminders of a kind take the time of the first one, since the settings of the event are merged with themselves. |
| Notifications.ExpandsIff | src/main/services/util/util.service.ts:860-876 | The expansion fails if and only if there is a host and a host notification other than e-mail and text has a reminder. |
| Notifications.GetPatchedScheduleNotification | src/main/services/util/util.service.ts:760-858 | One pass: the settings are merged in place, and the rows are those of the merged settings. |
| Notifications.MergeReminders | src/main/services/util/util.service.ts:771-791 | The in-place merge computes the merged list even when the source is the list itself. |
| Notifications.MergedReminderFields | src/main/services/util/util.service.ts:767-791 | Field by field, a merged reminder says what its source says, and what it said itself where the source is silent. |
| Notifications.SourceReminderMeaning | src/main/services/util/util.service.ts:767-791 | Its source is the first reminder of the first source notification of its kind. |
| Notifications.GenerateHostRows | src/main/services/util/util.service.ts:796-854 | The rows of a host, or the failure of getHostValue. |
| Notifications.GenerateInviteeRows | src/main/services/util/util.service.ts:796-854 | The rows of the reminders that the event's invitee settings want; none without such settings. |
| PercentDecoding.RestoresIff | src/main/pipes/parse-url-decoded/parse-encoded-url.pipe.ts:5-29 | The pipe restores a text encoded k times if and only if k is 12, or the text has no percent sign and k is less than 12 or there is nothing to escape in it. |
| PercentDecoding.EndsFixedOrAtLimit | src/main/pipes/parse-url-decoded/parse-encoded-url.pipe.ts:9-25 | A run that ends before the limit ends at a fixed point; one that does not has decoded as often as it may, shorter each time. |
| PercentDecoding.DecodeEncode | src/main/pipes/parse-url-decoded/parse-encoded-url.pipe.ts:14 | Decoding undoes encoding for every text, over all one- to four-byte characters. |
| PercentDecoding.WellFormedIff | src/main/pipes/parse-url-decoded/parse-encoded-url.pipe.ts:14 | The bytes accepted are exactly the UTF-8 encodings of characters: no overlong form, surrogate or stray byte. |
| PercentDecoding.MalformedFails | src/main/pipes/parse-url-decoded/parse-encoded-url.pipe.ts:14 | A text whose first percent sign starts no well-formed escape is an error. |
| PercentDecoding.BarePercentFails | src/main/pipes/parse-url-decoded/parse-encoded-url.pipe.ts:14 | So is a first percent sign without two hexadecimal digits after it. |
| PercentDecoding.PlainPrefixStays | src/main/pipes/parse-url-decoded/parse-encoded-url.pipe.ts:14 | What is before the first percent sign stays as it is. |
| PercentDecoding.Decode | src/main/pipes/parse-url-decoded/parse-encoded-url.pipe.ts:14 | A decoding that succeeds never lengthens, and shortens every text with a percent sign. |
| PercentDecoding.FixedPointIffPlain | src/main/pipes/parse-url-decoded/parse-encoded-url.pipe.ts:16 | The fixed points are exactly the texts without a percent sign. |
| PercentDecoding.TakesOff | src/main/pipes/parse-url-decoded/parse-encoded-url.pipe.ts:13-24 | Each decoding takes one encoding off. |
| PercentDecoding.ParseEncodedUrl.Transform | src/main/pipes/parse-url-decoded/parse-encoded-url.pipe.ts:5-29 | The do-while loop decodes until nothing changes, at most twelve times; a malformed escape is an error, and a missing or empty value is handed through. |

## Left out

- Time slot formats: one zero-padded "HH:MM" text per slot is assumed, so that equal texts and equal times coincide. Mixed formats such as "9:00" or "09:00:00" are not modelled.
- shareTimeUtilService is not part of this model: the availabilities given to the fold are its output, one entry per weekday and date with sorted, disjoint ranges where a property needs them.
- HostAvailability.FoldInsideEveryHost: the fold is on values. That a merged list holds the hosts' own range objects, which the clamp then changes, is modelled for one clamp and not carried through the fold.
- HostAvailability.WeekOrderIndependent: the time zone is fixed. Without an invitee's time zone the code normalizes to that of the first host to arrive, so the weeks given to the fold then depend on the arrival.
- The order independence of the override part of the fold: it is not claimed.
- isTimeOverlappingWithAvailableTimes: the weekly check of a booking depends on Intl and on the server's zone, and is an arbitrary function of the two instants here.
- Localization of times (localizeDateTime and the functions below it): an arbitrary function, monotone in the time of day where a property needs it.
- Booking.Validate: the vendor schedules are those of the one calendar that the emitted outbound integration names; how it is chosen among vendors is an input.
- Booking.RunsNeverDoubleBook: a booking step is validate and save taken together. The code does not make them atomic, and interleavings of two bookings are not modelled.
- A symmetric claim about the buffers of two bookings: the filter has no containment clause for stored buffers.
- The calendar events, conference links and messages that follow an accepted booking.
- Billing.ProratedBounds: prices are exact integers and quotients are exact; rounding of floating point numbers is not modelled.
- The payment gateways, and the payment row that a failed gateway refund still gets.
- Invitations.PendingHasLatestOrder: a contact that looks like the Redis key of another contact is excluded. The name of the Redis store in such keys is a stand-in.
- Membership.MemberCountConserved: every invitee has a contact, and none that reads like the Redis key of another.
- Teams created together with invitations, whose count starts at the invitees plus one and whose order lists no profiles.
- Roles, notifications, team plan status, team deletion, and the availabilities, which an invited profile gets without a default one and a removed profile hands to the owner.
- CalendarSync.SyncIdempotent: the conversion of fetched events is a function of the event, which stands for one clock and one set of settings.
- Watch channels, sync tokens and the synchronization of Apple calendars.
- OutboundCalendar.CalendarIntegrations.PatchVendor: a calendar belongs to one profile, and ids are positive; how a synchronization ends is an input, and the schedules that it writes are not modelled. _resetOutboundSetting is not part of this model and is taken to clear the flag on the vendor's calendars of the profile.
- OutboundCalendar.RunsKeepOneIff: the patch of a single calendar, which only one vendor implements, and the removal of an integration are not steps.
- EventLinks.RunsAgreeIff: the steps are whole; a failure between the link set and the database is not modelled. An update is given a link.
- The other fields of events, their details and event groups.
- AvailabilityStore.RunsStaySound: an update by PUT, which writes the default flag freely, and _linkToProfiles and linksToAvailability are not steps.
- AvailabilityStore.AvailabilityRedisRepository.Save: the JSON text, with its times sorted and its past overrides filtered, is an input.
- AvailabilityStore.AvailabilityRedisRepository.UpdateAll: what it writes into the bodies is an arbitrary function, and a hash without a matching key is written with no fields.
- AvailabilityStore.AvailabilityService.Patch: a field that is absent from the request is absent from the object that is assigned over the row.
- Notifications.GetPatchedScheduledEvent: reminders are subtracted in a zone without clock changes, and their times are well-formed; a field that is absent is not an own property of the reminder.
- The other fields that getPatchedScheduledEvent copies, and the sending of notifications.
- PercentDecoding.DecodeEncode: texts are sequences of Unicode scalar values; lone surrogates, on which encodeURIComponent fails, are not modelled.
- Entities, DTOs, guards, modules, logging and the enumerations Weekday and NotificationType, whose definitions are not part of this model.
- Failures of MySQL and Redis, and partial transactions.
