# html-calendar core in Dafny

A model of the computational core of the merakiframework `html-calendar`
PHP library: the calendar object that keeps the displayed view, period and
dates and runs a small event bus, the placement of events on the day grid,
time slots, events, in-memory event sources, the ordered set of sources and
the request URL with its query parameters.

Dates are integer day numbers (day 0 is 1970-01-01, a Thursday), weekdays
run 1 = Monday to 7 = Sunday, and times of day are minutes `0..1439`. An
event's start is a local date-time in its own fixed offset. Objects the PHP
code updates in place are Dafny classes: `Calendar`, `SourceSet` (the PHP
`Source\Set`), `InMemory`, `Event` and `Url`. Values are datatypes:
time slots, bus events, query maps and layout cells. Listeners are opaque
identities. The log `invocations` records which listener received which
event, in order, so delivery and replay can be stated. The calendar's
constructor can throw, so it is a static `Create` returning a `Result`.
Every exception the modelled code throws is an error value.

Modules: `Wrappers`, `Seqs` (an order-keeping filter, PHP's `array_filter`),
`Strings` (ASCII lower-casing, `explode`), `Dates`, `Periods`, `TimeSlots`,
`Events`, `Sources`, `SourceSets`, `Urls`, `Layout`, `Naming`, `EventBus`
and `Calendars`.

The model follows the code wherever the code and the library's description
differ:
- `occursOn` means "starts and ends on that date", so a multi-day event is on no date.
- `getByName` always fails; see Findings.
- `withSources` fails when `sources` holds a single scalar.
- A query pair without `=` stores a null value that `isset` treats as absent.

## Model

| member | source | states |
|---|---|---|
| Dates.DayOfWeek | src/Calendar.php:216 | the weekday of a day number is between 1 and 7 |
| Dates.DayOfWeekNext | src/Calendar.php:216-217 | the day after Sunday is Monday, otherwise the weekday goes up by one |
| Dates.DayOfWeekPeriodic | src/Calendar.php:216-217 | weekdays repeat every seven days |
| Dates.DayOfWeekDistinct | src/Calendar.php:216-217 | two dates less than a week apart fall on different weekdays |
| Dates.ZonedDateTime.Date | src/Calendar/Event.php:73 | a date-time's date is the day whose minutes contain its local time |
| Dates.ZonedDateTime.Time | src/Calendar/Event.php:83 | the date's first minute plus the time of day gives back the local time |
| Dates.ZonedDateTime.PlusMinutes | src/Calendar/Event.php:61 | adding a duration keeps the offset and moves the instant by exactly that many minutes |
| Dates.At | src/Calendar.php:610 | a date at a time of day has that date and that time |
| Periods.WeekAnchor | src/Calendar.php:215-218 | walking back to the week-start day gives the latest date not after d with that weekday, between d-6 and d |
| Periods.PeriodStartBounds | src/Calendar.php:220-229 | the period start lies a whole number of periods after the anchor, at or before d, and d lies inside that period |
| Periods.FirstDayOfPeriodRelativeTo | src/Calendar.php:211-230 | the two loops return the start of the period containing d; for a week it falls on the week-start day |
| Periods.RangeOfContains | src/Calendar.php:137-145 | the range that includes d contains d and has exactly `period` days |
| Periods.RangeOfDayAndWeek | src/Calendar.php:137-145 | a one-day range is [d, d]; a week range starts on the week-start day within six days before d and ends six days later |
| Periods.RangeOfStable | src/Calendar.php:137-145 | for the day and week periods, every date in a range yields that same range, so recomputing from the same date gives identical ranges |
| Periods.RangeOfNext | src/Calendar.php:137-145 | moving the date by one period moves the range start by one period |
| Periods.WeekOfAugust27 | src/Calendar.php:137-145 | with Monday as week start, 2024-08-27 (a Tuesday) lies in the week 2024-08-26 to 2024-09-01 |
| Calendars.Calendar.DateRangeThatIncludes | src/Calendar.php:137-145 | the range that includes a date is the period's range around it, contains it and has `period` days |
| TimeSlots.SlotWithin | src/Calendar/TimeSlots.php:63-72 | the k-th step stays at or before `latest` exactly when k is below the slot count |
| TimeSlots.SlotsShape | src/Calendar/TimeSlots.php:63-72 | slots start at `earliest`, step by `duration`, all lie within [earliest, latest], and one more step passes `latest` |
| TimeSlots.LatestIncluded | src/Calendar/TimeSlots.php:9-16 | both bounds are inclusive: when latest - earliest is a multiple of the duration, `latest` is the last slot |
| TimeSlots.EmptyWhenReversed | src/Calendar/TimeSlots.php:67-82 | an earliest after the latest yields no slots and a count of 0 |
| TimeSlots.GeneratesWhenLatestEarly | src/Calendar/TimeSlots.php:63-72 | a positive duration whose step past `latest` stays before midnight never wraps past midnight |
| TimeSlots.Generate | src/Calendar/TimeSlots.php:63-77 | the generator loop yields exactly the slot sequence |
| TimeSlots.Contains | src/Calendar/TimeSlots.php:52-61 | contains(t) is true exactly when t is one of the slots |
| TimeSlots.Count | src/Calendar/TimeSlots.php:79-82 | on a grid whose generation never wraps, the count is the number of slots, is 0 exactly when earliest is after latest, and the last slot is the final step not past `latest` |
| TimeSlots.TypicalWorkDaySlots | src/Calendar/TimeSlots.php:47-50 | the typical work day has 33 slots from 09:00 to 17:00 |
| TimeSlots.CalendarGridSlots | src/Calendar.php:115 | the calendar's 07:00-19:00 quarter-hour grid has 49 slots from 07:00 to 19:00 |
| TimeSlots.AllHoursNeverStops | src/Calendar/TimeSlots.php:23-26 | all-hours slots (latest 23:59) always wrap past midnight, whatever the duration, so their loop never ends |
| TimeSlots.ParseTexts | src/Calendar/TimeSlots.php:34-45 | input without `-` is rejected; otherwise it splits into the text before the first `-`, the rest up to its first `/`, and the remainder |
| TimeSlots.ParseTextsRoundTrip | src/Calendar/TimeSlots.php:34-45 | parsing `earliest-latest/duration` gives the three texts back |
| Events.Event.constructor | src/Calendar/Event.php:25-36 | a new event has the given fields, empty location and description, no attendees, and prints as its title |
| Events.Event.Describe | src/Calendar/Event.php:38-43 | sets only the description and returns the same event |
| Events.Event.AttendAt | src/Calendar/Event.php:45-50 | sets only the location and returns the same event |
| Events.Event.Invite | src/Calendar/Event.php:52-57 | appends the attendees after the existing ones, in order, and returns the same event |
| Events.Event.OccursBetween | src/Calendar/Event.php:59-64 | for a non-negative duration, an event lies between two instants only when they are in order |
| Events.Event.OccursOn | src/Calendar/Event.php:69-74 | for a non-negative duration, an event is on a date exactly when it starts and ends on that date |
| Events.Event.OccursAt | src/Calendar/Event.php:79-84 | the time of day lies between the start and end times of day, both inclusive; its consequences are stated by Events.OccursAtRange |
| Events.Event.ToString | src/Calendar/Event.php:86-89 | an event prints as its title |
| Events.OccursOnSameDay | src/Calendar/Event.php:69-74 | for a non-negative duration, an event is on a date exactly when it starts and ends on that date |
| Events.MultiDayEventOnNoDate | src/Calendar/Event.php:69-74 | an event ending on a later date than it starts is on no date at all |
| Events.LongEventEndsLater | src/Calendar/Event.php:69-74 | an event lasting a day or more ends on a later date, so it is on no date |
| Events.OccursBetweenOwnBounds | src/Calendar/Event.php:59-64 | occurring between two instants needs them ordered, and an event occurs between its own start and end |
| Events.OccursAtRange | src/Calendar/Event.php:79-84 | only times of day count: an event whose end time of day is before its start time occurs at no time; a zero-length event occurs only at its start time |
| Sources.InMemory.constructor | src/Calendar/Source/InMemory.php:15-23 | a new source is selected and holds the given events in order |
| Sources.InMemory.Clone | src/Calendar/Source/Set.php:165 | a clone has the same id, name, colour, events and selection flag |
| Sources.InMemory.AddEvent | src/Calendar/Source/InMemory.php:25-28 | appends one event at the end, the count grows by one, and each date's events gain it exactly when it is on that date |
| Sources.InMemory.Count | src/Calendar/Source/InMemory.php:50-53 | the count is the number of events, and no date holds more events than that |
| Sources.InMemory.EventsBetween | src/Calendar/Source/InMemory.php:30-33 | returns exactly the source's events that occur between the two instants |
| Sources.InMemory.EventsOn | src/Calendar/Source/InMemory.php:40-43 | returns exactly the source's events that are on the date |
| Sources.InMemory.EventsFor | src/Calendar/Source/InMemory.php:35-38 | events for a date-time are the events on its date |
| Sources.InMemory.Select | src/Calendar/Source/InMemory.php:60-65 | sets the flag and changes nothing else |
| Sources.InMemory.Deselect | src/Calendar/Source/InMemory.php:67-72 | clears the flag and changes nothing else |
| Sources.EqualsIsIdEquivalence | src/Calendar/Source/InMemory.php:55-58 | equality by id is reflexive, symmetric and transitive |
| Seqs.Filter | src/Calendar/Source/Set.php:100-105 | filtering never lengthens a sequence |
| Seqs.FilterMembers | src/Calendar/Source/Set.php:100-105 | the filtered sequence holds exactly the members satisfying the predicate |
| Seqs.FilterConcat | src/Calendar/Source/Set.php:100-105 | filtering distributes over concatenation, so order is kept |
| Seqs.FilterFilter | src/Calendar/Source/Set.php:100-105 | filtering twice equals filtering once by the conjunction |
| Seqs.FilterPartition | src/Calendar/Source/Set.php:143-151 | a predicate and its negation split a sequence into two parts that together hold every element exactly once |
| Seqs.FilterUnion | src/Calendar.php:563-568 | filtering by two disjoint predicates gives, together, the filter by their disjunction |
| SourceSets.AddAllProperties | src/Calendar/Source/Set.php:41-50 | adding keeps the old members as a prefix, keeps ids distinct, and afterwards every offered id is present |
| SourceSets.AddAllFrom | src/Calendar/Source/Set.php:41-50 | every appended member was offered and its id was not already present |
| SourceSets.AddAllSuffix | src/Calendar/Source/Set.php:41-50 | adding never reorders or drops the existing members |
| SourceSets.AddAllDistinct | src/Calendar/Source/Set.php:12-15 | offering sources with distinct ids appends all of them in order |
| SourceSets.AddAllSameIds | src/Calendar/Source/Set.php:17-23 | what gets appended depends only on the ids present, so adding to a clone appends what adding to the original would |
| SourceSets.PassingMembers | src/Calendar/Source/Set.php:100-105 | the filtered members are exactly the members the callback accepts, whatever state the callback reads |
| SourceSets.PassingDistinct | src/Calendar/Source/Set.php:100-105 | filtering a set keeps its ids distinct |
| SourceSets.PassingPure | src/Calendar/Source/Set.php:100-105 | a callback that agrees with a pure predicate filters exactly as the order-keeping filter by that predicate |
| SourceSets.PassingSelection | src/Calendar/Source/Set.php:143-151 | filtering by the selection flag, as `getSelected` and `getUnselected` do, gives exactly the members with that flag, in order |
| SourceSets.WithSelection | src/Calendar/Source/Set.php:143-151 | the selected (unselected) members are exactly the members with that flag |
| SourceSets.SelectionPartition | src/Calendar/Source/Set.php:143-151 | the selected and unselected members partition the set |
| SourceSets.SelectionDistinct | src/Calendar/Source/Set.php:143-151 | the selected and unselected subsets keep ids distinct |
| SourceSets.Transform | src/Calendar/Source/Set.php:107-112 | mapping applies the transform, which may read the sources' state, to every member, in order |
| SourceSets.SourceSet.constructor | src/Calendar/Source/Set.php:12-15 | construction adds the sources in order, skipping any whose id is already present |
| SourceSets.SourceSet.Copy | src/Calendar/Source/Set.php:12-15 | constructing from sources with distinct ids keeps them all, in order |
| SourceSets.SourceSet.Contains | src/Calendar/Source/Set.php:75-84 | a set contains a source exactly when a member has its id |
| SourceSets.SourceSet.MutableAdd | src/Calendar/Source/Set.php:41-50 | the loop appends, in order, each offered source whose id is not yet present, and ids stay distinct |
| SourceSets.SourceSet.First | src/Calendar/Source/Set.php:52-55 | none for an empty set, otherwise the first member |
| SourceSets.SourceSet.Last | src/Calendar/Source/Set.php:57-60 | none for an empty set, otherwise the last member |
| SourceSets.SourceSet.Count | src/Calendar/Source/Set.php:158-161 | the count of members is the number of selected members plus the number of unselected ones |
| SourceSets.SourceSet.Clone | src/Calendar/Source/Set.php:163-166 | a clone holds fresh copies of every member, in order, with equal fields |
| SourceSets.SourceSet.Add | src/Calendar/Source/Set.php:17-23 | returns a new set of fresh clones of the old members, each with the same id, name, colour, events and flag, followed by whatever adding would append; no object of the original is shared, so the original is untouched |
| SourceSets.SourceSet.Select | src/Calendar/Source/Set.php:62-73 | exactly the members whose id is listed become selected, all others deselected; nothing else changes |
| SourceSets.SourceSet.SelectAll | src/Calendar/Source/Set.php:125-132 | every member becomes selected |
| SourceSets.SourceSet.DeselectAll | src/Calendar/Source/Set.php:134-141 | every member becomes deselected |
| SourceSets.SourceSet.Filter | src/Calendar/Source/Set.php:100-105 | returns a new set sharing exactly the members that the callback accepts, in order; the callback may read the sources' state, such as the selection flag |
| SourceSets.SourceSet.Map | src/Calendar/Source/Set.php:107-112 | returns a new set built from the transformed members, dropping repeated ids |
| SourceSets.SourceSet.GetSelected | src/Calendar/Source/Set.php:143-146 | built with `filter` and a callback reading the flag: returns a new set of exactly the selected members, in order |
| SourceSets.SourceSet.GetUnselected | src/Calendar/Source/Set.php:148-151 | built with `filter` and a callback reading the flag: returns a new set of exactly the unselected members, in order |
| SourceSets.SourceSet.Remove | src/Calendar/Source/Set.php:86-89 | drops only the identical object and keeps every other member, in order |
| SourceSets.SourceSet.FindSource | src/Calendar/Source/Set.php:91-98 | finding by object gives the one-member set holding it when present, else the empty set |
| SourceSets.SourceSet.Get | src/Calendar/Source/Set.php:114-123 | returns the source itself when present by identity, otherwise fails with "not found" |
| SourceSets.SourceSet.GetById | src/Calendar/Source/Set.php:36-39 | returns a new set of exactly the members whose id is one of those given, in their original order |
| SourceSets.SourceSet.GetByNameAsWritten | src/Calendar/Source/Set.php:25-34 | as written, every call fails with a type error |
| SourceSets.SourceSet.GetByName | src/Calendar/Source/Set.php:25-34 | corrected: succeeds exactly when some member has the name, and returns the first such member; otherwise fails with "not found" |
| Urls.Lookup | src/Calendar/Url.php:52-55 | a key is absent exactly when it is not among the query's names |
| Urls.QueryGiven | src/Calendar/Url.php:52-55 | a given key is among the query's names, and a key holding a list is always given |
| Urls.AssignGiven | src/Calendar/Url.php:52-55 | a key assigned null is not given, one assigned a text is |
| Urls.Assign | src/Calendar/Url.php:57-75 | after setting a key it reads back the assigned value |
| Urls.AssignKeeps | src/Calendar/Url.php:57-75 | setting one key leaves every other key's value unchanged |
| Urls.AssignNames | src/Calendar/Url.php:57-75 | setting a key overwrites it in place, or appends it at the end when new |
| Urls.AssignTwice | src/Calendar/Url.php:57-75 | setting a key twice equals setting it once to the later value |
| Urls.AssignUnique | src/Calendar/Url.php:57-75 | setting a key keeps the names distinct |
| Urls.PairOf | src/Calendar/Url.php:125 | a pair splits at its first `=`, so the value may contain `=`; without `=` the value is null |
| Urls.ParseUnique | src/Calendar/Url.php:121-138 | the parsed query never holds a name twice |
| Urls.ParseQuery | src/Calendar/Url.php:115-139 | the loop computes the parse of the text; the empty text gives the empty query |
| Urls.AbsorbKeeps | src/Calendar/Url.php:127-135 | absorbing one pair leaves every other name's value unchanged |
| Urls.ParseCollects | src/Calendar/Url.php:127-135 | a name given once holds a scalar; given several times, holds the list of its values in order |
| Urls.NullThenValue | src/Calendar/Url.php:127-135 | a null first value is replaced by a later one, because `isset` ignores nulls |
| Urls.ValueThenNull | src/Calendar/Url.php:127-135 | a value followed by a null value becomes a two-element list |
| Urls.TextOf | src/Calendar/Url.php:34-41 | an absent or null key reads as none; a list reads as an error; otherwise the scalar value |
| Urls.SourcesOf | src/Calendar/Url.php:43-50 | sources is none when absent, a one-element list for a scalar, and the list itself otherwise |
| Urls.AppendSourceAccumulates | src/Calendar/Url.php:77-92 | appending a source id extends the list, creating it when absent; it fails exactly when a scalar is there; no other key changes |
| Urls.AssignReadsBack | src/Calendar/Url.php:57-75 | a date or view set on a copy reads back as given and counts as present |
| Urls.SplitTarget | src/Calendar/Url.php:18-23 | a request target splits at its first `?` into path and query, and the query is empty without one |
| Urls.RenderSplitTarget | src/Calendar/Url.php:104-113 | the string form is the bare path for an empty query, and splitting it again gives back the path and the encoded query |
| Urls.Url.constructor | src/Calendar/Url.php:11-16 | a URL keeps its path and holds the parse of its query text |
| Urls.Url.Clone | src/Calendar/Url.php:59 | a clone has the same path and query |
| Urls.Url.FromServer | src/Calendar/Url.php:18-23 | the URL of the request target (the empty text when missing) has its path and the parse of its query |
| Urls.Url.WithDate | src/Calendar/Url.php:57-63 | a new URL with the date set or overwritten, the original untouched |
| Urls.Url.WithView | src/Calendar/Url.php:65-75 | a new URL with the view set or overwritten, the original untouched |
| Urls.Url.WithSources | src/Calendar/Url.php:77-92 | a new URL with the id appended to sources, or a failure when sources is a scalar |
| Layout.CeilDivBounds | src/Calendar.php:572 | the span is the ceiling of duration over slot length |
| Layout.ClaimsStep | src/Calendar.php:563-568 | the pass over one slot takes the occurring events and leaves exactly the events not yet placed |
| Layout.CellsAt | src/Calendar.php:570-589 | one event cell per taken event, in order, at the slot's row, with the ceiling span |
| Layout.TakeOccurring | src/Calendar.php:563-568 | the inner loop splits the pending events into those occurring at the slot and the rest, keeping order |
| Layout.MarkUsed | src/Calendar.php:591-594 | marks exactly the slots an event spans as used, leaving others as they were |
| Layout.CoveredAppend | src/Calendar.php:591-594 | a slot is covered after a new cell exactly when it was covered before or the cell's span covers it |
| Layout.PlaceAt | src/Calendar.php:570-596 | places the slot's events and keeps the used-flags equal to coverage by the placed cells |
| Layout.FillEmpty | src/Calendar.php:599-614 | the final loop emits the empty cells of the uncovered slots |
| Layout.BuildSourceColumn | src/Calendar.php:552-614 | the per-source loops produce exactly the column's event cells followed by its empty cells |
| Layout.PlacedAtFirstSlot | src/Calendar.php:558-597 | every event cell sits at the first slot where its event occurs, at row index + 2, in its source's column, with the ceiling span |
| Layout.EventsOfConcat | src/Calendar.php:589 | the events shown by two cell lists are those of each, in order |
| Layout.EventsOfCellsAt | src/Calendar.php:570-589 | the cells of a slot show exactly its taken events |
| Layout.NothingPlacedAtStart | src/Calendar.php:556 | before the first slot no event is placed |
| Layout.PlacedStep | src/Calendar.php:558-568 | an event is placed by slot n exactly when it was placed earlier or first occurs at slot n-1, and never both |
| Layout.PlacedOnce | src/Calendar.php:558-597 | each event is placed at most once: the placed cells show exactly the events that occur at some slot, each once |
| Layout.EventsOfStep | src/Calendar.php:558-597 | one slot's pass adds exactly the events it claims |
| Layout.ClaimsAddUp | src/Calendar.php:558-568 | the events placed by slot n are those placed before plus those claimed at slot n-1 |
| Layout.EmptyCellsShape | src/Calendar.php:599-614 | every empty cell is at an uncovered slot, in the column, with that slot's time, in increasing row order |
| Layout.EmptyCellsComplete | src/Calendar.php:599-614 | every uncovered slot gets an empty cell |
| Layout.SingleEvent | src/Calendar.php:558-597 | a lone event gets one cell, at its first occurring slot, once that slot is reached |
| Layout.QuarterPastTen | src/Calendar.php:572 | a 45-minute event at 10:15 on the quarter-hour grid sits at row 15 with span 3 |
| Layout.ZeroLengthLeavesSlotEmpty | src/Calendar.php:591-614 | a zero-length event gets a span-0 cell and its slot still gets an empty cell |
| Layout.SourceCellsInColumn | src/Calendar.php:582 | every cell of a source is in that source's column |
| Layout.DayCellsColumns | src/Calendar.php:550-551 | every cell of a day sits in a column between 1 and the number of selected sources |
| Layout.BuildDayColumn | src/Calendar.php:509-618 | a day column is at grid column index + 2, flags selected and today, and holds the cells of every selected source, columns 1-based (the intended column: as written, the first event cell ends the render, see Findings) |
| Layout.EventsOfHasCell | src/Calendar.php:586-589 | an event shown by a list of cells comes from one of its event cells |
| Layout.ListedEventPlaced | src/Calendar.php:556-589 | a source's event that occurs at some slot gets an event cell in that source's column |
| Layout.ShownEventPlaced | src/Calendar.php:544-589 | a day column holds an event cell as soon as one selected source has an event on that day that occurs at some slot |
| Layout.QuarterPastTenShown | src/Calendar.php:544-589 | a source holding the 10:15 event of 45 minutes gives its start date an event cell on the quarter-hour grid |
| Layout.GridEventCells | src/Calendar.php:490-507 | a week grid holds an event cell exactly when some date of its range shows one |
| Layout.QuarterPastTenInRange | src/Calendar.php:490-507 | a grid whose range holds the start date of the 10:15 event of 45 minutes, in any source, shows an event cell |
| Layout.BuildWeekView | src/Calendar.php:490-506 | the week grid has `period` day columns and one row per slot, and shows each date of the range in order |
| Naming.KebabCase | src/Calendar.php:430-433 | the converted name contains no upper-case letter |
| Naming.DashBeforeCapitalsShape | src/Calendar.php:432 | one dash is inserted per capital after position 0; removing dashes gives back a dash-free input |
| Naming.KebabLength | src/Calendar.php:430-433 | the result is longer by the number of capitals after the first character |
| Naming.WithoutDashesLower | src/Calendar.php:432 | removing dashes and lower-casing commute |
| Naming.KebabWithoutDashes | src/Calendar.php:430-433 | removing the dashes from the result of a dash-free name gives the lower-cased name |
| Naming.TwoWords | src/Calendar.php:430-433 | two capitalised words are lower-cased and joined by one dash |
| Naming.MiniMonthName | src/Calendar.php:399-400 | the widget name MiniMonth becomes mini-month |
| Strings.LowerChar | src/Calendar.php:284 | lower-casing maps A-Z to a-z and keeps every other character |
| Strings.ToLower | src/Calendar.php:284 | lower-casing works character by character and keeps the length |
| Strings.SplitOnce | src/Calendar/Url.php:125 | splitting at the first separator gives the parts around it, or the whole text when absent |
| Strings.Split | src/Calendar/Url.php:122 | splitting gives at least one piece and no piece contains the separator |
| Strings.JoinSplit | src/Calendar/Url.php:122 | joining the pieces of a split gives back the text |
| Strings.SplitJoin | src/Calendar/Url.php:122 | splitting a join of separator-free pieces gives back the pieces |
| Strings.SplitOnceAt | src/Calendar/TimeSlots.php:36 | text before the first separator and the rest come back from a split-once |
| EventBus.Deliveries | src/Calendar.php:261-269 | a dispatch calls every listener of the name once, in subscription order |
| EventBus.IntegerKeys | src/Calendar.php:255-270 | a year such as "2024" is an integer array key, while a leading zero, "-0", the empty name or a name starting with a letter stays a string key |
| EventBus.NotDigitLed | src/Calendar.php:255-270 | a name starting with neither a digit nor `-` is never an integer key, so the calendar's own event names are string keys |
| EventBus.Replays | src/Calendar.php:246-250 | replays go to the new listener only and carry only events of its name |
| EventBus.SeenDeliveries | src/Calendar.php:261-269 | each listener receives the dispatched event once per subscription and nothing else |
| EventBus.SeenReplays | src/Calendar.php:246-250 | the new listener is replayed exactly the recorded events of its name, in dispatch order; no one else gets anything |
| EventBus.ReplayedHistory | src/Calendar.php:241-253 | after subscribing, a fresh listener has seen exactly the history of its name, and other listeners see nothing new |
| EventBus.ShiftSucceeds | src/Calendar.php:305-324 | creating an event succeeds exactly when every required parameter is given and nothing else is; the event carries them |
| EventBus.ShiftFails | src/Calendar.php:309-322 | a failure names a missing required parameter or a non-empty set of unknown given parameters |
| EventBus.SingleParameter | src/Calendar.php:305-324 | an event with one required parameter is created from exactly that parameter |
| Calendars.PeriodOf | src/Calendar.php:331-337 | the day view shows one day and every other view seven |
| Calendars.Texts | src/Calendar.php:445-448 | the source ids given in the query are passed on in order |
| Calendars.SpreadSelects | src/Calendar.php:445-448 | spreading the ids into select selects exactly the ids given in the query |
| Calendars.LowerCaseNames | src/Calendar.php:232-239 | the default event names are already lower case, so registering them stores them as written |
| Calendars.AlreadyLower | src/Calendar.php:284 | lower-casing a name with no capitals leaves it unchanged |
| Calendars.Calendar.Init | src/Calendar.php:98-115 | the constructor's first steps register the default events with no listeners and keep the week start, clock reading, URL and sources |
| Calendars.Calendar.RegisterDefaultEvents | src/Calendar.php:232-239 | the five default events are registered with their parameters and empty listener lists |
| Calendars.Calendar.RegisterEvent | src/Calendar.php:282-294 | registers the lower-cased name with its parameters and no listeners, or fails on a second registration and changes nothing |
| Calendars.Calendar.CreateEvent | src/Calendar.php:296-325 | an unregistered name fails; otherwise the event is created exactly when its parameters match the registered list |
| Calendars.Calendar.DispatchEvent | src/Calendar.php:255-270 | an unregistered name fails and changes nothing; a registered name that PHP keeps as an integer key reaches no listener and is not recorded; otherwise the listeners are called in order and the event is recorded once |
| Calendars.Calendar.ListenOnEvent | src/Calendar.php:241-253 | the listener is appended to the name's list and replayed that name's history; no other listener receives anything |
| Calendars.Calendar.Update | src/Calendar.php:416-428 | today and the selected date are set, both ranges recomputed, exactly one datechange with the date is dispatched, and nothing else changes |
| Calendars.Calendar.Announce | src/Calendar.php:255-270 | dispatching a one-parameter event records it and delivers it to that name's listeners |
| Calendars.Calendar.AssignDates | src/Calendar.php:418-422 | today and the selected date are set and both ranges are the periods around them |
| Calendars.Calendar.SelectView | src/Calendar.php:327-345 | an unsupported view fails and changes nothing; otherwise view and period are set, the date is refreshed (falling back to today) and datechange then view.selected are dispatched |
| Calendars.Calendar.ConnectTo | src/Calendar.php:367-372 | the calendar gets a new set holding fresh clones of the old sources, with the same id, name, colour, events and flag, plus the source itself when its id is new |
| Calendars.Calendar.DisconnectFrom | src/Calendar.php:374-379 | the calendar gets a new set without the identical source and with every other one, in order |
| Calendars.Calendar.HandleQueryParameters | src/Calendar.php:435-452 | the outcome is that of the query; on success a query date becomes the selected date, a query view becomes the view with its period (one day or seven) and the range around the date, the sources listed are selected and the others deselected (all selected when none), and the dispatched events and listener calls are exactly those of the date and view steps |
| Calendars.Calendar.ApplyQueryDate | src/Calendar.php:437-439 | a date given in the query is parsed and applied with one datechange delivered to that event's listeners; a list of dates or an unparsable text fails |
| Calendars.Calendar.ApplyQueryView | src/Calendar.php:441-443 | a view given in the query is selected unless it is empty or "0", setting the period to one day for the day view and seven otherwise, with datechange then view.selected delivered to their listeners; a list of views or an unsupported view fails |
| Calendars.Calendar.ApplyQuerySources | src/Calendar.php:445-451 | the sources listed are selected and all others deselected; with none listed all are selected |
| Calendars.Calendar.BuildView | src/Calendar.php:454-488 | corrected: month and agenda fail as not implemented; day and week give the grid of the selected range with the selected sources, which shows the selected date |
| Calendars.Calendar.BuildViewAsWritten | src/Calendar.php:454-488 | as written: month and agenda fail as not implemented; day and week fail with a type error exactly when some date of the selected range shows an event cell, and otherwise give the grid, which then holds no event cell |
| Calendars.Calendar.Open | src/Calendar.php:98-126 | construction up to the query fails on a bad week start or view; otherwise the calendar has the chosen view and today selected, its three start-up events and no listeners |
| Calendars.Calendar.Start | src/Calendar.php:121-126 | the initial view selection then the update to today dispatch datechange, view.selected, datechange |
| Calendars.Calendar.Create | src/Calendar.php:98-128 | the constructor fails on a bad week start, an unsupported view or a bad query. Otherwise the new calendar's view is the query's view or else the attribute, with the period of that view; its selected date is the query's date or else today, and its range is the period around it; today is the clock's date; the sources named in the query are selected (all when none); its history is the three start-up events followed by the query's date and view events; and no listener has been called |

## Left out

- Markup: `buildTimeColumn`, `buildEventPopover`, `render`, `appendContent`, `extend`, the CSS strings and attribute writes in `buildDayColumn`, `buildWeekView` and `buildView`, and all widgets. The layout is modelled as abstract cells.
- Calendars.Calendar.BuildView and Layout.BuildDayColumn give the intended grid. As written, the render throws at the first placed event, because the label and popover read `id` and `name`, which `Event` does not declare (see Findings). Event cells carry the event itself; the popover is not modelled.
- Reflection in `extend`: only the name conversion is modelled.
- Time zones and DST: each event's start is a local time in its own fixed offset. The calendar's zone conversion and `TimeZone::parse` are not modelled.
- `LocalDate::parse` becomes the parameter `parseDate`. `prettifyDate` formatting is not modelled.
- The clock becomes the parameter `now`. `$_SERVER['REQUEST_URI']` becomes the parameter `requestTarget`. The first-day-of-week and view attributes become optional parameters.
- `http_build_query` becomes the encoder parameter of `Urls.Render`. `getQueryAsArray` is the query field itself.
- PHP turns numeric-string query names into integer keys. Query names stay strings here; for event names the conversion is modelled (`EventBus.IntegerKey`), because `dispatchEvent` compares keys strictly.
- Re-entrant listeners, which dispatch or subscribe while being called, are not modelled. Listeners are identities recorded in the invocation log.
- Layout.CeilDivBounds: the PHP float `ceil` on minute counts is modelled as integer ceiling division.
- TimeSlots.Generate: requires that generation never wraps past midnight (a positive duration, and the step past `latest` before midnight). `LocalTime` addition wraps at midnight. On a wrapping grid the PHP loop either never ends (`allHours()`) or yields a wrapped time before it stops (10:00 to 16:40 every 1000 minutes yields 10:00 and 02:40). Neither is modelled.
- TimeSlots.Contains: requires the same no-wrap condition. `allHours()` never meets it (see TimeSlots.AllHoursNeverStops).
- TimeSlots.Count: requires the same no-wrap condition. On a wrapping grid the PHP count is the number of values the wrapping loop yields, or it never returns.
- TimeSlots.ParseTexts: splits the text only. `LocalTime::parse` and `Duration::parse` are not modelled. A missing `/` is its own error value; in PHP it is a warning followed by a type error.
- `src/Calendar/OperatingHours.php` is not part of this model: its fields are never assigned.
- The no-op stubs `startDayAt`, `endDayAt`, `startWeekOn` and `isInTimeZone` change nothing and are not modelled.
- SourceSets.SourceSet.Filter: the callback is a Dafny function. It may read the sources' state, for example the selection flag or the events, but it cannot allocate or change anything. A PHP callable that does either is not modelled.
- SourceSets.SourceSet.Map: the transform is a Dafny function. It may read the sources' state, but it cannot clone, create or change a source, so `fn($s) => clone $s` or `fn($s) => $s->deselect()` are not modelled.
- The fluent `return $this` of the Calendar methods, of `Set::select`, `selectAll` and `deselectAll`, and of `InMemory::select` and `deselect` is not modelled: those methods change the object in place and return nothing. `Event::describe`, `attendAt` and `invite` do return the same event (`r == this`).
- EventBus.ShiftSucceeds: the created event keeps its name apart from its parameters. A required parameter literally called `eventName` would overwrite the name in PHP.
- EventBus.ShiftFails: reports unknown parameters as a set, not in the order PHP's message lists them.
- Calendars.Calendar.Init: before the first view selection PHP leaves `view` and `period` uninitialised; the model holds the empty view and its seven-day period, which the first view selection replaces.
- Calendars.Calendar.HandleQueryParameters: on failure it states only the error. The partially updated calendar is never handed out, because the constructor throws.
- Calendars.Calendar.Basic: requires only `datechange` and `view.selected` to stay registered with one parameter, the two events the calendar dispatches itself.
- Seqs.FilterPartition: states the multiset split only. The length equation follows from it.

## Findings

| source | as written | input that shows it | evidently intended | confidence | as-written member | corrected member |
|---|---|---|---|---|---|---|
| src/Calendar/Source/Set.php:25-34 | `find` returns a `Set`, never null, so the null check always passes and the `Source` return type is violated | any name, on any set, even one holding a source of that name | return the first source with that name, or throw "Source not found in list." | not executed | SourceSets.SourceSet.GetByNameAsWritten | SourceSets.SourceSet.GetByName |
| src/Calendar.php:588 | the event cell's label is `$event->name`, and the popover reads `$event->id` (src/Calendar.php:624, 630); `Event` declares neither, so both read as null. `Element::appendContent` accepts at most what the override at src/Calendar.php:381 accepts, `Element\|string`, so it refuses the null label with a type error | the 10:15 event of 45 minutes in a selected source, on any date of the selected range, in the day or week view (Layout.QuarterPastTenInRange) | label the cell with the event's title and render the grid | not executed | Calendars.Calendar.BuildViewAsWritten | Calendars.Calendar.BuildView |
