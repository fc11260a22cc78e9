# Omnichannel chat backend: verified core

A Dafny model of the parts of the backend where correctness is not visible from one function body: the
business-time clock, realtime fan-out, the automation-rule engine, the Redis protocols with expiring keys, signed
tokens, attachment confirmation and topic routing. `dafny verify dfyconfig.toml` checks all of it.

Go code that updates state step by step is a class or a method with loops, proved equal to a specification function;
what the code promises is then proved of that function, or of the state machine whose steps it is.

| module | what it holds |
|---|---|
| `Text`, `Base64`, `Results` | trimming, splitting, decimal and base64url (sections 3.2 and 5 of RFC 4648) printing and parsing |
| `OpeningHours` | the lenient schedule parser, the strict validator, what acceptance guarantees the reader |
| `Calendar`, `Counting`, `BusinessClock` | the pointwise "is it open?" answer and the two capped day walks |
| `ClockLaws`, `ClockLimits` | the walks count open instants, Add inverts Between, both compose; how far the cap reaches |
| `RepeatedMidnight` | what both walks compute once a zone's missing midnight makes them repeat a day |
| `Topics` | topic builders, rooms joined against rooms published to |
| `Hub`, `PubSub` | the subscription index, slots and bounded delivery under any interleaving of connections; the cross-node log |
| `Fanout` | one node as an interleaving machine of deliveries and write pumps: nothing is lost silently |
| `RuleMatch`, `RuleEngine`, `RuleLaws` | conditions, the evaluator and executor, and what one evaluation runs and logs |
| `RuleWorkers`, `RuleDrain` | concurrent, crashing, retried workers: at most once, bounded firings, the queue drains |
| `Redis`, `Lock`, `RateLimit`, `Presence` | expiring keys on one monotone clock, and the protocols built on them |
| `Tokens` | media, file and upload tokens and the cosmetic media extension |
| `Attachments` | reserving, inbound storage, confirmation and audio conversion over records and objects |
| `Confirmations` | confirmations call by call, interleaved: exactly which of them can lose an object |

Instants and wall clocks are integer nanoseconds, a day is an integer, and a time zone is a pair of functions: the
wall clock at an instant, and the instant `time.Date` picks for a wall clock reading. Nothing is assumed of them
except where a lemma says so (`ClockLaws.RegularDay`: the day has a local midnight, and no clock change straddles the
edges of its hours; a fixed offset always qualifies).

## Where the code does less than it says

Each has a lemma with the exact condition and one with an input.

- The clock and `Status` disagree for a channel without hours if and only if a holiday falls in the range
  (`ClockLaws.UnconfiguredIsExactIff`; `ClockLimits.HolidayIsCounted`).
- The 4000-day cap loses open time if and only if something is open beyond it (`ClockLaws.BetweenIsExactIff`;
  `ClockLimits.CapLosesOpenTime`), and `AddBusinessDuration` falls back to wall-clock time if and only if the walked
  days hold too little (`ClockLaws.AddFindsLeast`; `ClockLimits.FallbackIgnoresHours`).
- Where a zone's clocks skip a midnight the walk's step returns the same day (`RepeatedMidnight.StepRepeatsIff`). A
  range ending that day is then measured right if and only if nothing is open on it
  (`RepeatedMidnight.BetweenAtRepeatIff`; `RepeatedMidnight.MissingMidnightRepeatsADay` measures twelve hours as 4000),
  and a duration added after closing gives an earlier instant if and only if it fits in the day's remaining scans
  (`RepeatedMidnight.AddAfterHoursIff`; `RepeatedMidnight.MissingMidnightAddsBackwards`). What either computes once its
  walk meets such a day is `RepeatedMidnight.BetweenMeetsRepeat` and `RepeatedMidnight.AddMeetsRepeat`.
- `InboxTopicsFor` is documented to mirror inbox visibility; it misses exactly the agents who see a sectored
  conversation from outside its sector (`Topics.InboxRoomsMissIff`; `Topics.ManagerIsMissed`).
- Upload tokens come back intact if and only if the content type has no `|` (`Tokens.UploadRoundTripIff`;
  `Tokens.UploadOfTwoTypes`).
- Confirming an already ready recording again can leave its record naming a deleted object; of uninterrupted
  confirmations exactly those do whose swap completes and whose rewrite fails (`Attachments.ConfirmKeepsIff`;
  `Attachments.ReconfirmingLosesObject`).
- Two confirmations of one recording that overlap can do the same with every call succeeding
  (`Confirmations.TwoConfirmationsLoseIt`). Which confirmations can, in some interleaving, is read off the record and
  the confirmations in flight (`Confirmations.SafeIff`, `Confirmations.LoadLosesIff`).
- A closed connection's write pump sends one more heartbeat before its write fails, and the heartbeat is unconditional:
  the closed socket reads as live for another minute, and a reconnect is not reported as the first
  (`Presence.ClosedSocketReadsLive`). The recorded sockets are the undisconnected ones if and only if no heartbeat
  stands that follows its socket's own disconnect (`Presence.RecordedIsOpenIff`), and `HasLiveSocket`, `Connect` and
  `Disconnect` answer for the undisconnected ones if and only if none stands while none of those is live
  (`Presence.AnswerIsOpenIff`, `Presence.CountReportsIff`).
- `Disconnect` counts and deletes in two commands; its delete is harmless if and only if no socket recorded in between
  is still live (`Presence.DeleteRaceIff`; `Presence.DeleteRace`).
- A fixed window is not a rolling one, as the automation budget's comment calls it: a window's length keeps to the
  limit, whatever comes, if and only if no window with room left ends inside it (`RateLimit.WindowHoldsIff`), and for
  every limit and window one less than twice the limit is reached (`RateLimit.BoundIsReached`).
- A spent counter lets a call through again if and only if its expiry was armed (`RateLimit.RecoversIff`), which a
  failed `EXPIRE` after the first increment prevents for good (`RateLimit.UnarmedNeverRecovers`).
- A rule firing is let through twice if and only if the first of its claims never reached the store, or a later one
  ended in an error or came an hour after the first (`RuleWorkers.FiresTwiceIff`;
  `RuleWorkers.RetryRunsAgainIff` is a crash and its retry).

## Model

| member | source | states |
|---|---|---|
| `OpeningHours.HHMMRoundTrip` | domain/businesshours/service/businesshours_service.go:115-117 | every minute of the day from 0 to 1440 survives printing by hhmm and parsing by parseHHMM |
| `OpeningHours.HHMMShape` | domain/businesshours/service/businesshours_service.go:115-117 | a minute prints as two digits, a colon and two digits, the hour and the minute |
| `OpeningHours.ParsesIff` | domain/businesshours/entity/schedule.go:184-200 | a text parses to a minute if and only if, spaces aside, it is an hour, a colon and a minute in range, at most 24:00 |
| `OpeningHours.KeptInterval` | domain/businesshours/entity/schedule.go:82-88 | an interval the parser keeps lies in [0, 1440] and ends after it starts |
| `OpeningHours.Kept` | domain/businesshours/entity/schedule.go:81-89 | whatever the document, every interval kept for a day lies in [0, 1440] and is not empty |
| `OpeningHours.ParseSchedule` | domain/businesshours/entity/schedule.go:68-96 | the loop builds exactly the schedule specified: UTC by default, weekdays outside 0..6 and bad intervals skipped, configured exactly when some day contributes |
| `OpeningHours.WeeklyLastWins` | domain/businesshours/entity/schedule.go:77-94 | a weekday has hours exactly when some entry contributes to it, and the last such entry decides them |
| `OpeningHours.KeptOneByOne` | domain/businesshours/entity/schedule.go:82-89 | each interval is kept with its own minutes or dropped on its own: one bad entry costs no other its place |
| `OpeningHours.KeepsOneIff` | domain/businesshours/entity/schedule.go:82-91 | a day keeps something exactly when one of its intervals is readable |
| `OpeningHours.ConfiguredIff` | domain/businesshours/entity/schedule.go:68-96 | hours are configured exactly when a decoded document has a weekday with a readable interval, and without them the channel never closes |
| `OpeningHours.ZoneOfParsed` | domain/businesshours/entity/schedule.go:69-76 | the zone is the document's, without the white space around it, and UTC when that leaves nothing |
| `OpeningHours.ValidateSchedule` | domain/businesshours/entity/schedule.go:98-149 | accepts exactly the valid documents, and an error names a fault that is really there |
| `OpeningHours.ValidateIntervals` | domain/businesshours/entity/schedule.go:126-146 | a day passes exactly when all its intervals parse and are pairwise disjoint |
| `OpeningHours.ParseIntervals` | domain/businesshours/entity/schedule.go:126-140 | reads a day whole or reports one of its faults |
| `OpeningHours.ParseInterval` | domain/businesshours/entity/schedule.go:128-138 | fails exactly when the lenient parser would drop the interval, with the failing end named |
| `OpeningHours.HasOverlap` | domain/businesshours/entity/schedule.go:141-146 | sorting and comparing neighbours finds an overlap exactly when two intervals overlap |
| `OpeningHours.SortByStart` | domain/businesshours/entity/schedule.go:141 | the result is sorted by start and has the same intervals |
| `OpeningHours.SortIsPermutation` | domain/businesshours/entity/schedule.go:141 | sorting by start keeps every interval with its multiplicity |
| `OpeningHours.SortKeepsDisjointness` | domain/businesshours/entity/schedule.go:141-146 | sorting neither makes nor hides an overlap |
| `OpeningHours.AdjacentIsPairwise` | domain/businesshours/entity/schedule.go:142-146 | in sorted order the adjacent check is pairwise disjointness |
| `OpeningHours.NothingDropped` | domain/businesshours/entity/schedule.go:82-89 | a day whose intervals all parse is kept whole, in order |
| `OpeningHours.ValidDayIsReadWhole` | domain/businesshours/entity/schedule.go:77-94 | each day of an accepted document is read back with every interval's own minutes |
| `OpeningHours.AcceptedDocumentParsesWhole` | domain/businesshours/entity/schedule.go:64-149 | a document the validator accepts is parsed with no interval dropped and no weekday overwritten, into in-range, pairwise disjoint hours |
| `Calendar.Status` | domain/businesshours/service/businesshours_service.go:46-97 | open exactly when the pointwise specification says so; the reason, the first closing holiday's name and the day's printed hours are right |
| `Calendar.FormatIntervals` | domain/businesshours/service/businesshours_service.go:104-113 | one printed range per interval, in order |
| `Calendar.WeekdaysInOrder` | domain/businesshours/entity/schedule.go:173 | 1970-01-01 is a Thursday and every day is followed by the next weekday |
| `Calendar.HolidayLaws` | domain/businesshours/entity/holiday.go:33-68 | a one-off holiday falls on its own date only, a recurring one on that date of every year, an unreadable one never; it closes every channel or just those listed |
| `Calendar.DayOfWall` | domain/businesshours/service/businessclock.go:139-142 | a wall clock reading is on a day exactly when it lies between that midnight and the next |
| `Calendar.MinuteOfWall` | domain/businesshours/entity/schedule.go:172-175 | comparing whole minutes is comparing wall clock readings with the interval's edges |
| `BusinessClock.BusinessDurationBetween` | domain/businesshours/service/businessclock.go:66-98 | the nested loops compute the specified walk, with the order of the error checks |
| `BusinessClock.AddBusinessDuration` | domain/businesshours/service/businessclock.go:101-137 | the nested loops compute the specified walk or its fallback |
| `BusinessClock.ScanIntervals` | domain/businesshours/service/businessclock.go:121-131 | one day's loop either lands inside an interval or leaves what remains |
| `BusinessClock.DayIntervals` | domain/businesshours/service/businessclock.go:52-63 | the day's hours as sorted instants |
| `BusinessClock.IsHoliday` | domain/businesshours/service/businessclock.go:42-49 | true exactly when some holiday of this channel falls on the local day |
| `ClockLaws.FixedOffsetIsRegular` | domain/businesshours/service/businessclock.go:139-142 | a fixed offset makes every day of every schedule regular |
| `ClockLaws.DayRange` | domain/businesshours/service/businessclock.go:84-95 | with local midnights, a day is exactly the instants between two midnights |
| `ClockLaws.NextMid` | domain/businesshours/service/businessclock.go:95 | the walk's step reaches the next day's midnight and strictly advances |
| `ClockLaws.OpenInDay` | domain/businesshours/entity/schedule.go:168-179 | an instant is open exactly when its day is no holiday and one of the day's spans holds it |
| `ClockLaws.SumIsCount` | domain/businesshours/service/businessclock.go:87-93 | the clipped lengths of ordered spans add up to the number of instants they hold in the range |
| `ClockLaws.DayCount` | domain/businesshours/service/businessclock.go:86-94 | one step of the walk adds the day's open instants within the range |
| `ClockLaws.WalkBetweenCounts` | domain/businesshours/service/businessclock.go:83-97 | n steps of the walk count the open instants of n days |
| `ClockLaws.BetweenCountsOpenInstants` | domain/businesshours/service/businessclock.go:66-98 | Between is the number of open instants of the range, up to the cap |
| `ClockLaws.BetweenIsExactIff` | domain/businesshours/service/businessclock.go:12-98 | the capped result is the exact count if and only if nothing is open past the cap |
| `ClockLaws.BetweenIsExactWithin` | domain/businesshours/service/businessclock.go:66-98 | for a range inside the cap only the days it crosses need to be regular |
| `ClockLaws.UnconfiguredIsExactIff` | domain/businesshours/service/businessclock.go:77-79 | without hours the clock agrees with the pointwise answer if and only if no holiday falls in the range |
| `ClockLaws.ScanDayMeets` | domain/businesshours/service/businessclock.go:121-131 | the scan lands right after an open instant with exactly the asked time behind it, or uses up the whole day |
| `ClockLaws.WalkAddMeets` | domain/businesshours/service/businessclock.go:116-134 | the advancing walk finds the first instant with the asked open time, or the walked days hold less |
| `ClockLaws.AddFindsLeast` | domain/businesshours/service/businessclock.go:101-137 | Add lands on the least instant preceded by d of open time, and falls back if and only if the walked days hold less |
| `ClockLaws.AddFindsLeastWithin` | domain/businesshours/service/businessclock.go:101-137 | the same, as soon as the regular days ahead hold d of open time |
| `ClockLaws.FirstAfterIsLeast` | domain/businesshours/service/businessclock.go:127-129 | before that instant less than d has passed, and from it on at least d |
| `ClockLaws.FirstAfterUnique` | domain/businesshours/service/businessclock.go:127-129 | there is only one such instant |
| `ClockLaws.BetweenAfterAdd` | domain/businesshours/service/businessclock.go:66-137 | Between(from, Add(from, d)) is d, and every earlier instant gives less |
| `ClockLaws.AddAfterBetween` | domain/businesshours/service/businessclock.go:66-137 | Add(from, Between(from, to)) is to, less the closed time just before it |
| `ClockLaws.BetweenComposes` | domain/businesshours/service/businessclock.go:66-98 | business time over adjacent ranges adds up |
| `ClockLaws.AddComposes` | domain/businesshours/service/businessclock.go:101-137 | advancing twice is advancing by the sum |
| `ClockLaws.AddMonotoneInDuration` | domain/businesshours/service/businessclock.go:101-137 | more time never lands earlier |
| `ClockLaws.AddMonotoneInStart` | domain/businesshours/service/businessclock.go:101-137 | a later start never lands earlier |
| `ClockLimits.SevenDays` | domain/businesshours/entity/schedule.go:181-182 | any seven days in a row hold each weekday's hours once |
| `ClockLimits.OpenAtIff` | domain/businesshours/entity/schedule.go:168-182 | at a fixed offset a moment is open if and only if no holiday of the channel has its date and the hours of its own weekday, counted from Thursday 1970-01-01, hold its minute |
| `ClockLimits.BetweenOneDay` | domain/businesshours/service/businessclock.go:66-98 | from one midnight to the next Between measures exactly that weekday's own hours |
| `ClockLimits.UnconfiguredAdds` | domain/businesshours/service/businessclock.go:106-115 | without hours a duration is added as it is and measured back as it is; a duration that is not positive moves nothing |
| `ClockLimits.UnconfiguredSaturates` | domain/businesshours/service/businessclock.go:77-79 | without hours a longer range than a Duration holds is measured as 2^63 - 1 nanoseconds |
| `ClockLimits.Weeks` | domain/businesshours/service/businessclock.go:83-97 | k whole weeks without holidays hold exactly k times the weekly open time |
| `ClockLimits.NoFallbackWithin571Weeks` | domain/businesshours/service/businessclock.go:12-136 | without holidays at a fixed offset, no duration up to 571 weeks' worth of open time reaches the fallback |
| `ClockLimits.HolidayIsCounted` | domain/businesshours/service/businessclock.go:77-79 | without hours, an instant of a holiday is counted by the clock and closed for Status |
| `ClockLimits.CapLosesOpenTime` | domain/businesshours/service/businessclock.go:85 | an open Thursday past day 4000 is not counted |
| `ClockLimits.FallbackIgnoresHours` | domain/businesshours/service/businessclock.go:135-136 | a duration the walked days cannot hold is added as wall-clock time, whatever the hours |
| `RepeatedMidnight.StepRepeatsIff` | domain/businesshours/service/businessclock.go:95 | the walk's step returns the same midnight if and only if the instant chosen for the next one is still on that day, days skipped whole included |
| `RepeatedMidnight.RepeatedDayIsRecounted` | domain/businesshours/service/businessclock.go:85-96 | a repeated day is added again at every remaining step |
| `RepeatedMidnight.BetweenMeetsRepeat` | domain/businesshours/service/businessclock.go:83-97 | once the walk meets a repeated midnight, the result is the open time so far plus that day's once per remaining step |
| `RepeatedMidnight.BetweenAtRepeatIff` | domain/businesshours/service/businessclock.go:83-97 | a range ending on the repeated day is exact if and only if nothing is open on it, or the cap is about to stop the walk |
| `RepeatedMidnight.RepeatedDayIsRescanned` | domain/businesshours/service/businessclock.go:118-134 | restarted from the repeated midnight, the advancing walk succeeds if and only if its steps hold enough of that one day, and never leaves it |
| `RepeatedMidnight.AddOnRepeatedDay` | domain/businesshours/service/businessclock.go:116-136 | starting on such a day, Add lands on it while its scans last, and then falls back |
| `RepeatedMidnight.AddCrosses` | domain/businesshours/service/businessclock.go:118-134 | while the days ahead hold less than is asked for, the walk crosses them and carries exactly the rest on |
| `RepeatedMidnight.AddMeetsRepeat` | domain/businesshours/service/businessclock.go:116-136 | meeting a repeated midnight after k regular days, Add is right while those hold the duration, then lands on the repeated day while its scans last, then falls back |
| `RepeatedMidnight.AddAfterHoursIff` | domain/businesshours/service/businessclock.go:116-136 | after closing on such a day, Add returns no later than its start if and only if the duration fits in the remaining scans |
| `RepeatedMidnight.MissingMidnightAddsBackwards` | domain/businesshours/service/businessclock.go:116-136 | in such a zone, an hour or less added after closing gives an instant that morning |
| `RepeatedMidnight.MissingMidnightRepeatsADay` | domain/businesshours/service/businessclock.go:85-96 | in a zone that skips a midnight, a twelve-hour range is measured as 4000 hours |
| `Topics.TopicInjective` | domain/shared/topics.go:6-38 | for tenants without colons two topics are equal if and only if tenant, kind and id are |
| `Topics.TopicNames` | domain/shared/topics.go:6-38 | the tenant, presence and unassigned rooms' names |
| `Topics.TopicNamesWithId` | domain/shared/topics.go:16-30 | the user, inbox and conversation rooms' names |
| `Topics.TenantsCollideIff` | domain/shared/topics.go:6-38 | for any ids, two tenants share a topic if and only if they are equal or one extends the other by a colon and the name of a room with an id |
| `Topics.JoinedRoom` | presenter/websocket/handler.go:244-258 | a connection is in a room by default exactly when the room is its own tenant's and its claims entitle it |
| `Topics.DealRoomsAreVisibility` | domain/shared/topics.go:59-79 | a deal update reaches a default-joined connection if and only if the deal is visible to it in its own tenant |
| `Topics.InboxRoomsAreVisible` | domain/shared/topics.go:40-57 | a conversation update reaches only those who may see it, and all of them when it has no sector |
| `Topics.InboxRoomsMissIff` | domain/attachments/service/service.go:835-846 | rooms and visibility disagree if and only if the agent sees a sectored conversation from outside its sector |
| `Topics.ManagerIsMissed` | domain/shared/topics.go:40-57 | an all-scope agent sees a conversation of a sector and is in none of its rooms |
| `Hub.Hub.Register` | infra/realtime/hub.go:68-80 | admits exactly below the limit, counts exactly this user, and never exceeds a positive limit |
| `Hub.Hub.Subscribe` | infra/realtime/hub.go:82-94 | both directions of the index gain exactly this pair |
| `Hub.Hub.Unsubscribe` | infra/realtime/hub.go:96-107 | both directions lose exactly this pair, and an emptied topic disappears |
| `Hub.Hub.Remove` | infra/realtime/hub.go:109-131 | the client leaves every topic, no other client leaves any, and exactly one slot of its user is released |
| `Hub.Hub.LeaveTopics` | infra/realtime/hub.go:114-122 | the index loses the client in both directions and nothing else |
| `Hub.Hub.ReleaseSlot` | infra/realtime/hub.go:124-130 | one slot of one user is released and zero counts disappear |
| `Hub.Hub.Deliver` | infra/realtime/hub.go:133-148 | every subscriber is offered the message once, without blocking, and a full buffer raises its resync |
| `Hub.SameCounts` | infra/realtime/hub.go:124-130 | counts that agree user by user are the same map, as no zero entry is stored |
| `Hub.SameIndex` | infra/realtime/hub.go:114-121 | subscriptions that agree topic by topic are the same map, as no empty topic is stored |
| `Hub.FollowsOwnTenant` | presenter/websocket/handler.go:279-300 | whatever it sends, a connection follows only default rooms and, with permission, conversations of its own tenant |
| `Hub.FollowIff` | presenter/websocket/handler.go:288-300 | the last command about a room decides whether it is followed: a permitted subscribe is never skipped, an unsubscribe always counts |
| `Hub.FollowsIff` | infra/realtime/hub.go:82-133 | after any of its own actions a connection follows exactly what it followed or joined and has neither quit nor closed since |
| `Hub.UserKeyInjective` | infra/realtime/hub.go:62 | different users are counted separately, for tenants without a bar |
| `Hub.JoinDefaultRooms` | presenter/websocket/handler.go:241-258 | joins exactly the default rooms, leaving the other clients alone |
| `Hub.JoinSectors` | presenter/websocket/handler.go:253-257 | one room for each non-empty allowed sector |
| `Hub.ReadCommands` | presenter/websocket/handler.go:279-300 | the read loop follows exactly the commands it may, leaving the other clients alone |
| `Hub.Serve` | presenter/websocket/handler.go:209-271 | with no other connection in between: refused exactly at the limit, and otherwise, upgraded or not, the hub is left exactly as it was found |
| `Hub.Perform` | infra/realtime/hub.go:71-131 | one connection's action changes its own rooms and slot alone, only a registered connection acts, and no count passes a positive limit |
| `Hub.Interleave` | presenter/websocket/handler.go:209-301 | in any interleaving of any number of connections, each follows exactly what its own actions say and nothing once closed, the index agrees both ways, slots equal live connections and no count passes a positive limit |
| `PubSub.Channel.PublishBatch` | infra/realtime/pubsub.go:37-57 | all messages in order, or none when one does not encode |
| `PubSub.Run` | infra/realtime/pubsub.go:59-81 | each client ends with exactly the offers of its topics' messages, in order |
| `PubSub.BatchArrives` | infra/realtime/pubsub.go:37-81 | a node decodes a published batch whole and in order |
| `PubSub.SkipsOnlyUndecodable` | infra/realtime/pubsub.go:61-81 | a message that does not decode is skipped and costs no other |
| `PubSub.FillsThenSignals` | infra/realtime/hub.go:138-148 | an unread buffer keeps the first messages of the followed topics up to its capacity, and resync is raised if and only if there were more |
| `Fanout.HalvesAreOffer` | infra/realtime/hub.go:141-147 | the machine's two-step send is the hub's non-blocking send |
| `Fanout.StepKeepsInv` | infra/realtime/hub.go:133-148 | every delivery, pump, subscription and disconnect step keeps the accounting of due messages |
| `Fanout.RunsKeepInv` | infra/realtime/hub.go:133-148 | so does every interleaving |
| `Fanout.FramesFollowTheLog` | presenter/websocket/handler.go:314-324 | in every run the event frames a client was sent are messages due to it (`Fanout.DueIff`) in log order, each at most once |
| `Fanout.NoSilentLoss` | infra/realtime/hub.go:39-48 | in every run a message due to a connection is being offered, buffered or in flight, was written, or was dropped with a resync announced; or the connection failed |
| `Fanout.QuietMeansInformed` | presenter/websocket/handler.go:308-350 | once a healthy connection is quiet, the client has each due message or a resync taken after its drop |
| `Fanout.FollowsItsJoins` | infra/realtime/hub.go:82-133 | in every run a connection follows exactly the topics its own joins name and it has not left since, nor been removed |
| `Fanout.DueIff` | infra/realtime/hub.go:133-148 | in every run a message is due to a connection if and only if the connection followed its topic when the message's delivery began |
| `Fanout.BeginsCounted` | infra/realtime/pubsub.go:61-81 | in every run as many deliveries have begun as the log position reached says: messages are read in log order, each once |
| `Fanout.LogIsPublished` | infra/realtime/pubsub.go:28-57 | the log is what was published, in order |
| `Fanout.SendIsOffer` | infra/realtime/hub.go:142-147 | the steps of one send leave the mailbox the hub's non-blocking offer would |
| `Fanout.OnlyFullBuffersDrop` | infra/realtime/hub.go:133-148 | in every run a connection never due more than its buffer holds has dropped nothing and is owed no resync |
| `Fanout.ResyncSpeaksOfThePast` | presenter/websocket/handler.go:319-327 | in every run a resync frame accounts only for messages offered before it was made |
| `Fanout.DeliveryFinishes` | infra/realtime/hub.go:133-148 | from any reachable state, however full the buffers and wherever the pumps are stuck, a delivery ends within two steps of the hub's own per follower |
| `Fanout.PumpsGoOn` | presenter/websocket/handler.go:308-327 | a pump between two writes can always take what is waiting for it |
| `Fanout.FailureIsFinal` | presenter/websocket/handler.go:316-326 | a failed write ends the connection's pump for good |
| `RuleMatch.SplitJoin` | domain/automationrules/entity/match.go:115 | splitting a joined list of comma-free items gives back the items |
| `RuleMatch.ListMembershipIsExact` | domain/automationrules/entity/match.go:109-121 | an id is in a list if and only if it is one whole item, spaces aside, and not empty |
| `RuleMatch.ScalarConditions` | domain/automationrules/entity/match.go:39-98 | an equality condition holds exactly when its own field has the value; an unknown field reads as empty |
| `RuleMatch.ContainingConditions` | domain/automationrules/entity/match.go:41-77 | a containing condition finds a whole tag, a listed id, or the text anywhere in the phone |
| `RuleMatch.OperatorsOppose` | domain/automationrules/entity/match.go:39-83 | the negative operators deny exactly what the positive ones assert |
| `RuleMatch.OtherOperatorsDefault` | domain/automationrules/entity/match.go:39-83 | an operator a field does not know reads as the field's default one |
| `RuleMatch.MessageMatchesCaseBlind` | domain/automationrules/entity/match.go:51-56 | a message condition holds exactly when its text stands anywhere in the message, in any mix of cases |
| `RuleMatch.MatchesAllTogether` | domain/automationrules/entity/match.go:26-36 | all conditions must hold, and a rule without any matches every event |
| `RuleEngine.BeforeTotal` | domain/automationrules/service/evaluator.go:127-136 | of two rules with different ids one comes first |
| `RuleEngine.BeforeTransitive` | domain/automationrules/service/evaluator.go:127-136 | the rule order is transitive |
| `RuleEngine.BeforeAsymmetric` | domain/automationrules/service/evaluator.go:127-136 | no two rules come before each other |
| `RuleEngine.BeforeReads` | domain/automationrules/service/evaluator.go:125-134 | a lower priority comes first, then the older rule, then the smaller id |
| `Text.LessIff` | domain/automationrules/service/evaluator.go:133 | ids compare by their first difference, a proper prefix first |
| `RuleEngine.EmittedIsTagged` | domain/automationrules/service/executor.go:82-87 | whatever an action of a task emits carries its tenant, the automation tag and one level more |
| `RuleEngine.EmitCarries` | infra/automationrules/enqueuer.go:32-54 | an event arrives as sent, on its own context: outside an action it is not automation and, down to depth three, is evaluated |
| `RuleEngine.EventsOf` | domain/automationrules/service/evaluator.go:242-252 | which rules an event concerns: an interactive reply is also a created message |
| `RuleEngine.FiringReads` | domain/automationrules/service/evaluator.go:178-209 | a firing runs each action once in declared order, and each row names the rule, its event, the action and what came of it |
| `RuleEngine.Evaluator.Evaluate` | domain/automationrules/service/evaluator.go:77-173 | the method with its early returns and loops leaves exactly the specified claims, rows, runs and error |
| `RuleEngine.Evaluator.HandleRules` | domain/automationrules/service/evaluator.go:155-171 | each matched rule in turn is skipped as stale, skipped as claimed, or fired |
| `RuleEngine.Evaluator.Fire` | domain/automationrules/service/evaluator.go:175-191 | every action runs in declared order and gets its own row, whatever the ones before it returned |
| `RuleEngine.CandidatesFail` | domain/automationrules/service/evaluator.go:97-103 | a listing that fails for some events fails for all of them with the same error |
| `RuleLaws.SortOrdered` | domain/automationrules/service/evaluator.go:127-136 | with distinct ids the sort gives a strict order of the same rules |
| `RuleLaws.OrderedUnique` | domain/automationrules/service/evaluator.go:127-136 | there is only one strict order of a collection of rules |
| `RuleLaws.MatchedIsOrdered` | domain/automationrules/service/evaluator.go:117-136 | the rules to run are exactly those that match, each once, in strict (priority, created_at, id) order |
| `RuleLaws.OrderIndependent` | domain/automationrules/service/evaluator.go:117-136 | the order the repository listed the rules in does not matter |
| `RuleLaws.DedupKeyInjective` | domain/automationrules/service/evaluator.go:296-298 | two rules never share an event's claim, nor two events a rule's |
| `RuleLaws.FiringsAreApart` | domain/automationrules/service/evaluator.go:296-298 | claims of two firings are the same if and only if tenant, rule and event are, for tenants and rules without colons |
| `RuleLaws.SparesOtherEvents` | domain/automationrules/service/evaluator.go:149-171 | evaluating one event, whatever it claims, claims no firing of another |
| `RuleLaws.NewEventsFire` | domain/automationrules/service/evaluator.go:77-173 | after any history of other events, a new event's evaluation runs every matched rule that still matches, in order |
| `RuleLaws.ClaimsOwnFirings` | domain/automationrules/service/evaluator.go:155-171 | an evaluation claims the firings of its own still-matching rules and no other |
| `RuleLaws.LastUnclaimed` | domain/automationrules/service/evaluator.go:155-171 | the rules before it never stop a rule from firing |
| `RuleLaws.RunsInOrder` | domain/automationrules/service/evaluator.go:155-191 | what runs is exactly the actions of the still-matching, newly claimed rules, rules in order and actions in declared order |
| `RuleLaws.RowsPerRule` | domain/automationrules/service/evaluator.go:155-191 | each matched rule adds exactly one skip row or one row per action, and no other rule adds any |
| `RuleLaws.RowsInOrder` | domain/automationrules/service/evaluator.go:149-188 | the rows written are, rule by rule in order, a stale skip, a claimed skip, or one row per action |
| `RuleLaws.RetriedIff` | domain/automationrules/service/evaluator.go:89-147 | an evaluation returns an error exactly when a port it needed failed other than by a missing conversation |
| `RuleLaws.ListingFailsIff` | domain/automationrules/service/evaluator.go:95-102 | the candidates are the listed rules of every event concerned, and fail exactly when one listing does |
| `RuleLaws.BudgetGuardsMessages` | domain/automationrules/service/executor.go:85-151 | the three message actions alone are stopped, by a tripped budget alone; every other call runs as automation one level deeper |
| `RuleLaws.EvaluationIsOrderFree` | domain/automationrules/service/evaluator.go:96-173 | a whole evaluation leaves the same claims, rows, runs and error whatever order the repository listed each event's rules in |
| `RuleLaws.EvaluationRuns` | domain/automationrules/service/evaluator.go:77-173 | a live task whose ports answer runs exactly the actions of its matched, still live, newly claimed rules in order; any other evaluation changes nothing |
| `RuleLaws.AutomationNeverFeedsItself` | domain/automationrules/service/evaluator.go:78-86 | evaluating anything an action can emit changes nothing |
| `RuleWorkers.Allow` | infra/automationrules/deduper.go:24-33 | the set-if-absent claim with its hour to live is the evaluator's claim on the live keys; an error lets the firing through, whether or not the claim took effect |
| `RuleWorkers.EventQueue.EmitRuleEvent` | infra/automationrules/enqueuer.go:28-54 | one task with the context's origin and depth and a fresh event id, or none |
| `RuleWorkers.ClaimIsAllow` | infra/automationrules/deduper.go:27-33 | the machine's claim step grants exactly what the evaluator's claim allows |
| `RuleWorkers.StepKeepsInv` | domain/automationrules/service/evaluator.go:138-171 | deliveries, claims, actions, crashes and waits keep every grant single-handed, in order and claimed for its window |
| `RuleWorkers.RunsKeepInv` | domain/automationrules/service/evaluator.go:138-171 | so does every interleaving of workers |
| `RuleWorkers.AtMostOnce` | domain/automationrules/service/evaluator.go:160-170 | for every schedule of retries and concurrent workers, lock or no lock, the actions run for one (rule, event) are a prefix of the declared ones, each once, while the store answers and the claim lasts |
| `RuleWorkers.FiresTwiceIff` | infra/automationrules/deduper.go:10-33 | over every run, a firing is let through twice if and only if the first of its claims never reached the store, or a later one ended in an error or came a whole window after the first |
| `RuleWorkers.AtMostOnceUnlessAgain` | domain/automationrules/service/evaluator.go:160-170 | in every other run its actions run at most once, in declared order, a first claim whose reply alone was lost included |
| `RuleWorkers.GrantsCounted` | infra/automationrules/deduper.go:24-33 | how often a firing is let through in a run is a function of its claims' times and answers alone |
| `RuleWorkers.RetryRunsAgainIff` | infra/automationrules/deduper.go:10-33 | a crashed firing runs again on retry if and only if its first claim never reached the store, the second ended in an error, or the first had expired |
| `RuleWorkers.FinishedIsWhole` | domain/automationrules/service/evaluator.go:178-191 | in every run a firing finishes only after every action of its rule, in declared order |
| `RuleWorkers.FiringsBounded` | domain/automationrules/service/evaluator.go:77-86 | in every interleaving, whatever actions emit, there are at most (external events times rules) firings |
| `RuleWorkers.KeysBounded` | domain/automationrules/service/evaluator.go:296-298 | external events and rules have at most their product of claim keys |
| `RuleDrain.OnlyEmptyStops` | infra/automationrules/enqueuer.go:52-53 | a queue has no delivery left if and only if it is empty |
| `RuleDrain.RetriedThreeTimes` | infra/automationrules/enqueuer.go:53 | a task that always fails is delivered four times |
| `RuleDrain.DeliveryLowers` | domain/automationrules/service/evaluator.go:83-86 | a delivery uses up an attempt at its depth and adds tasks at deeper ones only |
| `RuleDrain.Drains` | domain/automationrules/service/evaluator.go:83-86 | even with origin tags lost and any finite emissions and retries, every run of deliveries empties the queue |
| `RuleDrain.GenerationsBounded` | domain/automationrules/service/evaluator.go:83-86 | a causal chain has at most four evaluated generations |
| `RuleDrain.DeliveriesBounded` | infra/automationrules/enqueuer.go:32-54 | a run with at most b emissions per delivery is no longer than the cost of its initial queue |
| `RuleDrain.DeliveriesPerEvent` | infra/automationrules/enqueuer.go:32-54 | hence a bound per external event |
| `Redis.Server.SetNX` | infra/redis/lock.go:32 | succeeds exactly when no live key is there, and then holds the value for its time to live |
| `Redis.Server.CompareAndDelete` | infra/redis/lock.go:12-19 | deletes a live key only with its own token |
| `Redis.SetNXReads` | infra/redis/lock.go:32 | what any reader finds after a set-if-absent and a pause: the live old value, or the new one for exactly its time to live; other keys notice nothing |
| `Redis.CompareAndDeleteReads` | infra/redis/lock.go:12-19 | what any reader finds after the unlock script: nothing for the owner's key, everything else as before |
| `Redis.Server.Incr` | presenter/middleware/ratelimit.go:30 | the returned count is what a reader then finds, a live counter stays alive exactly as long as before, and no other key changes |
| `Redis.Server.Expire` | presenter/middleware/ratelimit.go:36-38 | a live key then lives for exactly the time given, a dead one stays dead, and no other key changes |
| `Lock.Acquire` | infra/redis/lock.go:29-46 | taken exactly when reachable and free, under the caller's token |
| `Lock.Release` | infra/redis/lock.go:39-44 | the key is gone if and only if it still held this token and the server answered; otherwise nothing changes, and no other key ever does |
| `Lock.TakeTakes` | infra/redis/lock.go:29-46 | a free key is always taken, under the caller's token, for exactly its time to live |
| `Lock.TakeWaits` | infra/redis/lock.go:36-38 | a taken key is left alone |
| `Lock.StepKeepsInv` | infra/redis/lock.go:14-46 | acquisitions, releases and waits keep holds of a key apart and the stored token's hold running |
| `Lock.RunsKeepInv` | infra/redis/lock.go:14-46 | so does every run |
| `Lock.SectionsExclude` | infra/redis/lock.go:29-46 | critical sections finished within their time to live never overlap |
| `Lock.OneOwner` | infra/redis/lock.go:29-46 | a token is stored if and only if its hold is running, so a key has at most one owner |
| `Lock.ReleaseSparesOthers` | infra/redis/lock.go:12-19 | a release by anyone else leaves the running owner's key and hold alone |
| `RateLimit.Allow` | presenter/middleware/ratelimit.go:30-44 | one call is one hit on the key's counter; an unreachable store lets it through |
| `RateLimit.AllowAutomationMessage` | infra/automationrules/budget.go:33-47 | the same counter with a hundred hits in ten minutes |
| `RateLimit.CounterReadsBack` | presenter/middleware/ratelimit.go:30-38 | a counter reads back as written while it runs, and not after |
| `RateLimit.HitReads` | presenter/middleware/ratelimit.go:30-44 | the first call starts a window, each later one counts on, and the limit-th is the last let through |
| `RateLimit.HitSpends` | presenter/middleware/ratelimit.go:30-44 | an admitted call uses up the allowance left in any interval |
| `RateLimit.AdmittedWithinAllowance` | presenter/middleware/ratelimit.go:30-44 | from any armed counter a run admits no more than the allowance |
| `RateLimit.WindowsIsCeiling` | presenter/middleware/ratelimit.go:36-38 | the number of windows in a length is its quotient rounded up |
| `RateLimit.EventSpends` | presenter/middleware/ratelimit.go:30-44 | an increment or an expiry, in any order between calls, uses up the allowance |
| `RateLimit.LimitHoldsApart` | presenter/middleware/ratelimit.go:30-44 | any run admits fewer than limit times (ceiling(L / W) + 1) calls in any interval of length L, whatever comes between an increment and its expiry, and even if some are never armed |
| `RateLimit.PairedIsAdmitted` | presenter/middleware/ratelimit.go:30-38 | with nothing in between, the two commands are one hit |
| `RateLimit.LimitHolds` | presenter/middleware/ratelimit.go:30-44 | the same bound with each increment and its expiry taken as one hit |
| `RateLimit.LessThanTwiceTheLimit` | infra/automationrules/budget.go:33-47 | hence at most one less than twice the limit in a window's length |
| `RateLimit.IntervalHoldsIff` | presenter/middleware/ratelimit.go:30-44 | from any counter, a window's length keeps to the limit whatever comes if and only if nothing is running, the limit is spent, or no expiry falls inside |
| `RateLimit.WindowHoldsIff` | presenter/middleware/ratelimit.go:30-44 | the same after any run of calls |
| `RateLimit.BoundIsReached` | infra/automationrules/budget.go:11-19 | for every limit and every window of two units or more, some run admits one less than twice the limit in a window's length |
| `RateLimit.UnarmedNeverRecovers` | presenter/middleware/ratelimit.go:36-38 | if arming failed, nothing more is ever admitted once the limit is spent |
| `RateLimit.RecoversIff` | presenter/middleware/ratelimit.go:36-38 | a spent counter lets a call through again if and only if its expiry is armed |
| `Presence.CommandKeepsInv` | infra/presence/store.go:68-149 | each command keeps the key a superset of the sockets seen within the time to live |
| `Presence.RunsKeepInv` | infra/presence/store.go:68-149 | so does every interleaving of processes that delete only while no socket is live |
| `Presence.AnswerIsRight` | infra/presence/store.go:126-149 | prune-then-count is true whenever a socket was seen strictly within the time to live, and only if one was seen within it |
| `Presence.LiveSocketsAreSeen` | infra/presence/store.go:126-149 | the same over every interleaving from an empty key, for the recorded sockets, those a late heartbeat revived included |
| `Presence.RevivedIff` | infra/presence/store.go:89-103 | a disconnected socket is recorded again if and only if a heartbeat follows its own disconnect and still stands |
| `Presence.RecordedIsOpenIff` | infra/presence/store.go:89-124 | the recorded sockets are the undisconnected ones if and only if no such heartbeat stands |
| `Presence.OpenSocketsAreSeen` | infra/presence/store.go:126-149 | then the answer is true whenever an undisconnected socket was seen strictly within the time to live, and only if one was seen within it |
| `Presence.AnswerIsOpenIff` | presenter/websocket/handler.go:261-338 | in every run, an undisconnected live socket is always reported, and off the very millisecond of an expiry the answer is that of the undisconnected sockets if and only if no late heartbeat stands while none of them is live |
| `Presence.CountReportsIff` | infra/presence/store.go:78-86 | the same for the count behind Connect's and Disconnect's reports, with other processes' commands in between |
| `Presence.ClosedSocketReadsLive` | presenter/websocket/handler.go:261-338 | a connection closes, its next tick records it, and a minute on the user reads as live with nothing open |
| `Presence.CountIsRight` | infra/presence/store.go:72-86 | with other processes' commands between the prune and the count, an empty count still means no live socket, and a non-empty one that a socket was seen since the cutoff |
| `Presence.KeyOutlivesMembers` | infra/presence/store.go:81-82 | the key never expires before a member's last-seen time plus the time to live |
| `Presence.ConnStore.Connect` | infra/presence/store.go:68-87 | uninterrupted, reports a first socket only when no undisconnected one is live, and misses one only for a socket revived after its disconnect |
| `Presence.ConnStore.Heartbeat` | infra/presence/store.go:89-103 | renews one socket and the key; one that has disconnected is recorded again without being open |
| `Presence.ConnStore.Disconnect` | infra/presence/store.go:105-124 | uninterrupted, the socket is gone and counts as disconnected from then on; reports the last only when no undisconnected one is live, and misses it only for a revived one |
| `Presence.ConnStore.HasLiveSocket` | infra/presence/store.go:126-139 | false only when no undisconnected socket is live; true only if one was seen within the time to live or a disconnected one was revived |
| `Presence.DeleteRace` | infra/presence/store.go:118-121 | a socket recorded between the count and the delete reads as gone |
| `Presence.DeleteIsHarmlessIff` | infra/presence/store.go:118-121 | a delete keeps the refinement, and the answer right, if and only if no socket is live |
| `Presence.DeleteRaceIff` | infra/presence/store.go:114-121 | after an empty count and any commands in between, the delete is harmless if and only if none of them left a live socket |
| `Base64.RoundTrip` | domain/attachments/service/service.go:200-234 | every byte string decodes back from its unpadded base64url encoding |
| `Base64.EncodeAlphabet` | domain/attachments/service/service.go:730-733 | an encoding uses the base64url alphabet only, so no separator occurs in it |
| `Base64.DecodesIff` | domain/attachments/service/service.go:215 | a text decodes if and only if, line breaks aside, it stays in the alphabet and leaves no single symbol over |
| `Base64.BreaksDoNotMatter` | domain/attachments/service/service.go:215 | a line break anywhere changes nothing |
| `Base64.StandardVectors` | domain/attachments/service/service.go:200-207 | the short test vectors of section 10 of RFC 4648, unpadded |
| `Base64.StandardQuantum` | domain/attachments/service/service.go:200-207 | a whole quantum's test vector of the same section |
| `Base64.UrlSymbols` | domain/attachments/service/service.go:200-207 | the two symbols of section 5 of RFC 4648 |
| `Text.ParseFormat` | infra/storage/filestore.go:122-133 | every 64-bit integer survives decimal printing and parsing |
| `Text.SplitNJoined` | domain/attachments/service/service.go:219 | a field without the separator is split off whole |
| `Text.TrimSpaceTrims` | domain/businesshours/entity/schedule.go:74 | trimming leaves the stretch between the white space around it, with none at its ends |
| `Text.AsciiSpaces` | domain/businesshours/entity/schedule.go:74 | the ASCII characters that count as white space |
| `Text.LowerIsCaseBlind` | domain/automationrules/entity/match.go:52 | two texts are equal in lower case exactly when they differ in letter case only |
| `Text.ParseIntReads` | domain/businesshours/entity/schedule.go:190-191 | a number is digits with an optional sign; a sign and leading zeros read as usual |
| `Tokens.OpenedSigned` | infra/storage/filestore.go:103-136 | a signed payload opens to itself |
| `Tokens.OpensOnlySigned` | infra/storage/filestore.go:104-111 | a token opens if and only if it is some text and that text's own hash, and to what the text encodes |
| `Tokens.MediaLayout` | domain/attachments/service/service.go:200-207 | a media payload written out |
| `Tokens.UploadLayout` | infra/storage/attachments_local.go:135-139 | an upload payload written out |
| `Tokens.VerifySigned` | domain/attachments/service/service.go:200-234 | key, type and filename come back exactly while now is at most the expiry's nanosecond, and nothing after it |
| `Tokens.StripOwn` | domain/attachments/service/service.go:730-741 | stripping removes exactly the extension that was added, and nothing of the token |
| `Tokens.ExtensionsAreDotted` | domain/attachments/service/service.go:689-728 | every extension a type maps to is on the strip list |
| `Tokens.BaseTypeReads` | domain/attachments/service/service.go:690-694 | parameters, case and surrounding spaces of a content type do not count |
| `Tokens.ExtensionOf` | domain/attachments/service/service.go:689-718 | which extension each known type gets |
| `Tokens.MediaRoundTrip` | domain/attachments/service/service.go:177-234 | a media URL's token, extension included, serves exactly its object up to the expiry's nanosecond and nothing after, for all byte strings |
| `Tokens.FileRoundTrip` | infra/storage/filestore.go:103-136 | every key, colons included, comes back up to the expiry's nanosecond, and nothing after |
| `Tokens.UploadRoundTripIff` | infra/storage/attachments_local.go:106-139 | an upload token gives back its key, type and size if and only if it has not expired and the type has no separator; expired, it gives nothing |
| `Tokens.ParsedAnywayReads` | infra/storage/attachments_local.go:131-132 | a number out of the 64-bit range reads as the nearest one within |
| `Tokens.UploadTypeIsCut` | infra/storage/attachments_local.go:119-132 | otherwise, until the expiry, the type is cut at its first separator and the rest of it becomes part of the key |
| `Tokens.UploadOfTwoTypes` | infra/storage/attachments_local.go:119-132 | such a token, and what it comes back as |
| `Attachments.SwapStaysInFilename` | domain/attachments/service/service.go:799-807 | swapping a whole key's extension is swapping the filename's if and only if the filename has a dot or the rest has none |
| `Attachments.SanitizedIsBase` | domain/attachments/service/service.go:849-858 | what is left of a path is its last element, whichever slashes were used |
| `Attachments.SanitizedIsPlain` | domain/attachments/service/service.go:849-858 | no filename keeps a slash of either kind, and none is a single dot |
| `Attachments.SanitizedBare` | domain/attachments/service/service.go:849-858 | a name without slashes is only trimmed |
| `Attachments.SlashesAtTheEnd` | domain/attachments/service/service.go:849-858 | a slash at the end does not count |
| `Attachments.SwapReads` | domain/attachments/service/service.go:799-807 | a swapped name ends in .ogg instead of its last extension, or after a name without one |
| `Attachments.RecordingsAreWebm` | domain/attachments/service/service.go:791-797 | WebM audio is converted, whatever its parameters, case or surrounding spaces, and nothing else |
| `Attachments.VisibleIff` | domain/attachments/service/service.go:821-847 | a conversation is loaded exactly for who may see it, and a hidden one reads as one that is not there |
| `Attachments.ReservedIsAsked` | domain/attachments/service/service.go:244-323 | a reservation succeeds exactly for a visible conversation, an allowed type and a size within bounds; its pending record is what was asked for and no object moves |
| `Attachments.AvatarIsAsked` | domain/attachments/service/service.go:272-323 | an avatar is reserved exactly for a named owner, an image and its own size bound, without a conversation |
| `Attachments.InboundIsStored` | domain/attachments/service/service.go:384-433 | an inbound file is accepted exactly when valid and both calls succeed; then its object is its own data, its record says type, name, length and key, and nothing else moves |
| `Attachments.KeysRead` | domain/attachments/service/service.go:264-296 | the keys of conversation files and avatars |
| `Attachments.Service.ReserveUpload` | domain/attachments/service/service.go:299-323 | a pending record appears exactly when signing and creating succeed |
| `Attachments.Service.StoreInboundFile` | domain/attachments/service/service.go:379-433 | the object first and the ready record only after it, with each failure's state |
| `Attachments.Service.MaybeConvertAudio` | domain/attachments/service/service.go:743-787 | new object before old is deleted, and the record unchanged on any failure before the swap |
| `Attachments.Service.ConfirmUpload` | domain/attachments/service/service.go:325-377 | the record and the objects after every combination of failures |
| `Attachments.ConfirmsIff` | domain/attachments/service/service.go:327-377 | a confirmation succeeds exactly when the record exists, the caller may see its conversation, the message belongs to it, the object is there and the rewrite succeeds |
| `Attachments.ConvertedReads` | domain/attachments/service/service.go:747-787 | a conversion leaves the converted bytes under the new key, removes the original unless deleting fails, and moves no other object |
| `Attachments.ConfirmedReads` | domain/attachments/service/service.go:327-377 | a confirmed record is ready, linked to the message, never without a type, and names the converted bytes or its object as it was |
| `Attachments.KeysAreApart` | domain/attachments/service/service.go:264-266 | records with different ids can never name the same key |
| `Attachments.SwapKeepsKey` | domain/attachments/service/service.go:766 | the swapped key still belongs to the same record |
| `Attachments.ImagesAreNotAudio` | domain/attachments/service/service.go:560-563 | an avatar's type is never converted, so its shared key is never rewritten |
| `Attachments.ConfirmNeedsSight` | domain/attachments/service/service.go:809-847 | only someone who may see the conversation can confirm its attachment, or change anything by trying |
| `Attachments.ConversionSparesOthers` | domain/attachments/service/service.go:766-778 | converting one record neither overwrites nor deletes another's object |
| `Attachments.ConfirmKeepsIff` | domain/attachments/service/service.go:327-377 | an uninterrupted confirmation keeps every ready attachment's object if and only if it is not a completed swap whose rewrite of a ready record fails |
| `Attachments.ReconfirmingLosesObject` | domain/attachments/service/service.go:327-377 | such a confirmation |
| `Attachments.StepKeeps` | domain/attachments/service/service.go:242-433 | one at a time, reservations, uploads, inbound files and confirmations keep records and objects consistent |
| `Attachments.ReadyAttachmentsExist` | domain/attachments/service/service.go:242-433 | over every history of them one at a time, with failures anywhere else, each ready conversation attachment names an existing object |
| `Attachments.ObjectKept` | domain/attachments/service/service.go:242-433 | one operation leaves a conversation record's object and its content alone, unless it uploads to that very key or converts that record |
| `Attachments.InboundDataStays` | domain/attachments/service/service.go:384-433 | over every history an inbound file's object stays its own data, under its own record, until an upload to its key or a conversion of its recording |
| `Confirmations.SoloIsConfirm` | domain/attachments/service/service.go:327-377 | a confirmation's calls without interruption do what Confirm does |
| `Confirmations.StepKeepsSafe` | domain/attachments/service/service.go:327-377 | every call of every confirmation keeps a safe state safe, loads if they are safe ones |
| `Confirmations.LoadIsSafeIff` | domain/attachments/service/service.go:331-338 | a load keeps the state safe if and only if its record is no ready recording to be converted, no other confirmation holds its key, and none is about to delete its object |
| `Confirmations.ReadyAlwaysHaveObjects` | domain/attachments/service/service.go:242-433 | in every interleaving of confirmations with safe loads, reservations, uploads and inbound files, with failures and crashes anywhere, each ready conversation attachment names an existing object at every moment |
| `Confirmations.ContentKept` | domain/attachments/service/service.go:242-433 | in every interleaving an object keeps its content until an upload to its key or a conversion of its own record |
| `Confirmations.CrashEnds` | domain/attachments/service/service.go:327-377 | a crash ends one confirmation and changes nothing stored |
| `Confirmations.SafeIff` | domain/attachments/service/service.go:347-376 | the confirmations in flight can lose no object in any interleaving if and only if the state is safe |
| `Confirmations.LoadLosesIff` | domain/attachments/service/service.go:331-376 | starting a confirmation from a safe state can lose an object if and only if its load is not safe |
| `Confirmations.AloneIsSafe` | domain/attachments/service/service.go:331-338 | a confirmation alone on its record, which is not a ready recording to be converted, has a safe load |
| `Confirmations.TwoConfirmationsLoseIt` | domain/attachments/service/service.go:747-776 | two overlapping confirmations of any convertible recording have a schedule in which every call succeeds and the ready record names a deleted object |

## Left out

- ClockLaws.BetweenCountsOpenInstants: exact under regular days; of the others, the repeated midnight is analysed in `RepeatedMidnight`, and a day whose hours' edges fall in a clock change is not.
- OpeningHours.ParseSchedule: starts from the decoded document; JSON decoding is three outcomes (empty, malformed, decoded), and a zone name is known or not.
- BusinessClock.BusinessDurationBetween: duration saturation is modelled for unconfigured schedules only; configured totals are bounded by the walked days and not by 64 bits.
- OpeningHours.SortByStart: a stable insertion sort stands for the library's unstable one; only intervals with equal starts could differ, and a validated day has none.
- PubSub.Run: the nodes' view of the published log is complete and ordered; messages Redis itself loses across a reconnect are not modelled.
- Fanout.NoSilentLoss: one node's machine over an arbitrary log; ping and heartbeat frames appear only as write failures, and a message published while a connection does not follow its topic is not due to it.
- Hub.Hub.Deliver: a client without a resync channel is not modelled, the handler always makes one; the capacity-one channel is a flag.
- Lock.Acquire: only positive times to live, and tokens that are never reused; an acquisition that ends in an error is taken to have had no effect.
- Redis.Server.Incr: counters and tokens are kept under different keys, so a wrong-type error cannot arise.
- RateLimit.LimitHolds: the increment and its expiry are one step; apart, `RateLimit.LimitHoldsApart` holds. Increments that end in an error admit without counting and are not part of a run.
- Presence.ConnStore.Disconnect: each method's commands run without interruption; interleaved, its count is `Presence.CountIsRight` and `Presence.CountReportsIff`, and its delete `Presence.DeleteRaceIff`. A connection's id is assumed fresh. Errors from Redis are not modelled.
- Hub.Serve: no other connection acts in between; with others, `Hub.Interleave` holds.
- RuleWorkers.AtMostOnce: assumes the firings let through were answered and all fall within one hour (`RuleWorkers.AtMostOnceUnlessAgain` asks for less); a claim the Redis client itself repeats after a lost reply is one answered claim; at least once is not claimed, since a crash after the claim loses the remaining actions.
- RuleDrain.Drains: a delivery is one step, with depths that start at zero or more.
- RuleEngine.Evaluator.Evaluate: log rows carry no ids, times or error text, and the log store never fails; an unwired claim store behaves like an unreachable one. What actions do behind their ports is their outcome and the tasks they emit.
- RuleMatch.ListMembershipIsExact: lower-casing elsewhere in the matcher is ASCII only.
- Tokens.MediaRoundTrip: the hash is any function to 64 hexadecimal characters; forging is not modelled.
- Attachments.ReadyAttachmentsExist: confirmations are single steps here, and interleaved in `Confirmations`; in both, ids are minted without slashes or dots and are fresh, and ids and owner types arrive trimmed; storage is a map from keys to bytes, so path cleaning of the local backend is not modelled: there a filename of two dots, which is kept, names the conversation's directory, reads as present and can be confirmed without an upload; signed URLs, sizes and times are not recorded.
- Presence hash records, roster and the debounced vanish: single writes around the connection set.
- Time-zone tables, holiday and rule CRUD, HTTP, authentication, permissions, idempotency, pagination, providers, SLA, routing, conversation and deal services: wiring, or effects behind ports here.
