# Guard shift schedule board — a Dafny model

The schedule board shows security guards and their shifts over a range of
days. A shift is a record `(guardId, date, status, siteId?)`. The status is
`assigned`, `free`, `off` or `leave`. Records are generated from a mock
roster of twelve guards and seven sites. They are indexed under the key
`guardId_yyyy-MM-dd`. The board shows them in one of two views:

- the desktop grid: one header per day, with an "assigned • free • off"
  tally, and one row per guard;
- on small screens, the mobile guard card: one row per day for one guard.

A third component, the mobile site card, shows per day `capacity ?? 1` slots
filled from a site-day guard list. The board does not render it. It reads its
own map `assignmentsBySiteDate`, keyed `siteId_yyyy-MM-dd`, which it is given
by its caller, not the guard-day index.

The model covers the data layer of those views:

- the range state and the three week buttons (`DateRange`);
- the generator (`MockData`);
- the guard-day index (`AssignmentIndex`);
- the name and status filter (`GuardFilter`);
- the day tally and the grid cells (`BoardGrid`);
- the two mobile cards (`MobileGuardCard`, `MobileSiteCard`).

`JsText` models the JavaScript string built-ins they use. `Calendar` holds
what is taken from `Date` and date-fns. Days are integer day numbers. The
day of the month and the `yyyy-MM-dd` formatter are fields of a `Calendar`
value. A valid calendar keeps the day of the month within 1..31 and gives
distinct days distinct keys. The clock read `new Date()` is a parameter
`today`.

Files: `wrappers.dfy`, `calendar.dfy`, `js_text.dfy`, `schedule_types.dfy`,
`date_range.dfy`, `mock_data.dfy`, `assignment_index.dfy`, `guard_filter.dfy`,
`board_grid.dfy`, `mobile_guard_card.dfy`, `mobile_site_card.dfy`.

## Model

| member | source | states |
|---|---|---|
| Calendar.DayOfWeek | src/components/schedule/ScheduleBoard.tsx:259 | `getDay()` is a weekday number in 0..6 |
| Calendar.IsTodayIffSameDay | src/components/schedule/ScheduleBoard.tsx:258 | comparing `yyyy-MM-dd` keys with today's key holds exactly on the clock's day |
| Calendar.Days | src/components/schedule/ScheduleBoard.tsx:112-116 | `eachDayOfInterval` yields end-start+1 days, from start to end, each one day after the previous |
| Calendar.DaysAscending | src/components/schedule/ScheduleBoard.tsx:115 | the day list is strictly ascending |
| Calendar.DaysMembership | src/components/schedule/ScheduleBoard.tsx:115 | a day is listed iff it lies between start and end inclusive |
| JsText.TrimStart | src/components/schedule/ScheduleBoard.tsx:127 | the result is a suffix, everything dropped is whitespace, and it starts with a non-blank |
| JsText.TrimEnd | src/components/schedule/ScheduleBoard.tsx:127 | the result is a prefix, everything dropped is whitespace, and it ends with a non-blank |
| JsText.Trim | src/components/schedule/ScheduleBoard.tsx:127 | `trim` returns a contiguous piece of the input with only whitespace around it, which neither starts nor ends with whitespace |
| JsText.TrimBlank | src/components/schedule/ScheduleBoard.tsx:127 | a query of whitespace only trims to the empty string |
| JsText.ToLower | src/components/schedule/ScheduleBoard.tsx:127-128 | lower-casing keeps the length and maps each character by itself |
| JsText.ToLowerCharIdempotent | src/components/schedule/ScheduleBoard.tsx:127-128 | lower-casing a character twice is lower-casing it once |
| JsText.ToLowerCharKeepsBlank | src/components/schedule/ScheduleBoard.tsx:127 | lower-casing neither creates nor removes whitespace |
| JsText.ToLowerIdempotent | src/components/schedule/ScheduleBoard.tsx:127-128 | lower-casing a string twice is lower-casing it once |
| JsText.TrimStartToLower | src/components/schedule/ScheduleBoard.tsx:127 | trimming the start commutes with lower-casing |
| JsText.TrimEndToLower | src/components/schedule/ScheduleBoard.tsx:127 | trimming the end commutes with lower-casing |
| JsText.TrimToLower | src/components/schedule/ScheduleBoard.tsx:127 | `trim` commutes with `toLowerCase` |
| JsText.IncludesEmpty | src/components/schedule/ScheduleBoard.tsx:128 | every name includes the empty query |
| JsText.Includes | src/components/schedule/ScheduleBoard.tsx:128 | a string includes only needles no longer than itself |
| JsText.DigitsOf | src/components/schedule/MobileGuardCard.tsx:51 | `replace(/[^0-9]/g, "")` leaves only decimal digits, is no longer than its input, returns an all-digit string unchanged and a digit-free one as "" |
| JsText.DigitsOfChar | src/components/schedule/MobileGuardCard.tsx:51 | one character is kept exactly when it is a digit |
| JsText.DigitsOfConcat | src/components/schedule/MobileGuardCard.tsx:51 | the digits of a concatenation are the digits of each part, in order, so every digit of the input is kept in order and nothing else |
| JsText.DigitsValueZero | src/components/schedule/MobileGuardCard.tsx:51 | a digit string parses to 0 exactly when all its digits are '0', including no digits at all |
| ScheduleTypes.KeySplit | src/components/schedule/ScheduleBoard.tsx:121 | in `id_rest` with no '_' in `id`, the first separator sits right after `id` |
| ScheduleTypes.KeyInjective | src/components/schedule/ScheduleBoard.tsx:121 | with separator-free ids and a valid calendar, equal keys mean the same guard and day |
| ScheduleTypes.Get | src/components/schedule/ScheduleBoard.tsx:263 | `Map.get` gives a value exactly for present keys, and that value is the stored one |
| ScheduleTypes.JsRemPalette | src/components/schedule/ScheduleBoard.tsx:40 | JavaScript `% 8` lies strictly between -8 and 8, is congruent to its operand and has its sign |
| ScheduleTypes.ColourSlot | src/components/schedule/ScheduleBoard.tsx:29-41 | `siteColorClass(i)` names a palette entry exactly when `(i-1) % 8` is not negative, and that entry is `(i-1) mod 8` in 0..7 |
| DateRange.Shown | src/components/schedule/ScheduleBoard.tsx:107-108 | for a range the picker can produce, the shown window (`from ?? today` to `to ?? start+6`) is never reversed |
| DateRange.DefaultWindow | src/components/schedule/ScheduleBoard.tsx:112-116 | with no range the board shows the seven days from today |
| DateRange.OpenEndedWindow | src/components/schedule/ScheduleBoard.tsx:113-114 | a start without an end shows seven days from that start |
| DateRange.PrevWeek | src/components/schedule/ScheduleBoard.tsx:192-195 | "previous" gives a full seven-day range that ends the day before the shown start |
| DateRange.TodayWeek | src/components/schedule/ScheduleBoard.tsx:201-204 | "from today" gives a seven-day range showing the same window as no range at all |
| DateRange.NextWeek | src/components/schedule/ScheduleBoard.tsx:212-215 | "next" as written gives a seven-day range, and it follows the shown window whenever the range has an end |
| DateRange.NextWeekWithoutEnd | src/components/schedule/ScheduleBoard.tsx:212-215 | without an end, "next" starts the day after today rather than the day after the shown window |
| DateRange.NextWeekAfterShown | src/components/schedule/ScheduleBoard.tsx:212-215 | the intended "next" always gives the seven days right after the shown window |
| DateRange.NextWeekAgreesWithEnd | src/components/schedule/ScheduleBoard.tsx:212-215 | the intended and the written "next" agree whenever the range has an end |
| DateRange.PrevNextRoundTrip | src/components/schedule/ScheduleBoard.tsx:192-215 | on a seven-day range, "previous" then "next" (and the reverse) returns the same range |
| DateRange.WeekShowsSevenDays | src/components/schedule/ScheduleBoard.tsx:112-116 | a range made by the buttons shows seven columns, starting at its `from` |
| MockData.Dice | src/components/schedule/ScheduleBoard.tsx:81 | the dice is in 0..9 |
| MockData.SiteIndex | src/components/schedule/ScheduleBoard.tsx:87 | the chosen site index is within the site list |
| MockData.MockRecord | src/components/schedule/ScheduleBoard.tsx:81-91 | the record for a guard and a day carries that guard and day, names a site exactly when assigned, and that site is one of the list |
| MockData.MockRecordRule | src/components/schedule/ScheduleBoard.tsx:81-91 | dice 0-1 gives off, 2-5 assigned, 6-8 free, 9 leave; only assigned records name a site, and that site is `sites[(day + n) % count]` |
| MockData.DayRecordsAt | src/components/schedule/ScheduleBoard.tsx:80-92 | a day's block holds one record per guard, in roster order |
| MockData.DayRecords | src/components/schedule/ScheduleBoard.tsx:80-92 | a day's block has one record per guard |
| MockData.Generate | src/components/schedule/ScheduleBoard.tsx:76-95 | the generator emits exactly days × guards records |
| MockData.GenerateAt | src/components/schedule/ScheduleBoard.tsx:79-93 | the record for guard j on day i sits at index i·guards + j (day-major order) |
| MockData.GenerateDates | src/components/schedule/ScheduleBoard.tsx:79-93 | every record is dated on one of the given days |
| MockData.GeneratedRecordFor | src/components/schedule/ScheduleBoard.tsx:79-93 | every (roster guard, day in range) pair has its rule record among the output |
| MockData.GenerateOrigin | src/components/schedule/ScheduleBoard.tsx:79-93 | every output record is the rule record of some roster guard on some listed day |
| MockData.GenerateUniquePairs | src/components/schedule/ScheduleBoard.tsx:79-93 | with distinct ids and days, no two records share a (guard, day) pair |
| MockData.DaysDistinct | src/components/schedule/ScheduleBoard.tsx:77 | the days of a range are pairwise distinct |
| MockData.RosterWellFormed | src/components/schedule/ScheduleBoard.tsx:51-74 | the roster ids are "g" and digits, none contains '_', and there are seven sites |
| MockData.RosterDistinct | src/components/schedule/ScheduleBoard.tsx:61-74 | the roster ids are pairwise distinct |
| MockData.SeedQuirk | src/components/schedule/ScheduleBoard.tsx:81 | since only `charCodeAt(1)` seeds the dice, g10, g11 and g12 always share g1's status |
| MockData.MakeMockAssignments | src/components/schedule/ScheduleBoard.tsx:76-95 | the nested loop returns exactly the day-major sequence of rule records |
| AssignmentIndex.IndexOf | src/components/schedule/ScheduleBoard.tsx:118-124 | every entry of the index is one of the records, stored under its own key |
| AssignmentIndex.BuildIndex | src/components/schedule/ScheduleBoard.tsx:118-124 | the loop of `map.set` calls builds the index defined by replaying the records in order |
| AssignmentIndex.IndexKeys | src/components/schedule/ScheduleBoard.tsx:118-124 | the index holds exactly the records' keys |
| AssignmentIndex.IndexLastWins | src/components/schedule/ScheduleBoard.tsx:120-122 | a record whose key no later record repeats is what that key maps to |
| AssignmentIndex.GuardIdHasNoSeparator | src/components/schedule/ScheduleBoard.tsx:121 | roster-shaped ids contain no '_' |
| AssignmentIndex.GeneratedKeysUnique | src/components/schedule/ScheduleBoard.tsx:106-124 | generator output has pairwise distinct keys |
| AssignmentIndex.GeneratedLookup | src/components/schedule/ScheduleBoard.tsx:263 | on generator output, looking up `guardId_date` for a roster guard and a day in range returns that guard's rule record for that day |
| AssignmentIndex.GeneratedIndexAt | src/components/schedule/ScheduleBoard.tsx:118-124 | on generator output every record is what its own key maps to |
| AssignmentIndex.IndexUniqueKeys | src/components/schedule/ScheduleBoard.tsx:118-124 | with distinct keys, every record is what its own key maps to |
| AssignmentIndex.RecordIdWellFormed | src/components/schedule/ScheduleBoard.tsx:79-93 | every generated record carries a roster-shaped id |
| GuardFilter.Filter | src/components/schedule/ScheduleBoard.tsx:128 | `filter` never grows the list, keeps exactly the elements that satisfy the test, and keeps every copy of them |
| GuardFilter.FilterIsSubsequence | src/components/schedule/ScheduleBoard.tsx:128 | `filter` keeps the original order |
| GuardFilter.SubsequenceOfTail | src/components/schedule/ScheduleBoard.tsx:128 | a subsequence of the tail is a subsequence of the list |
| GuardFilter.FilterKeepsAll | src/components/schedule/ScheduleBoard.tsx:128 | a test every element passes returns the list unchanged |
| GuardFilter.TextFiltered | src/components/schedule/ScheduleBoard.tsx:127-128 | a guard is kept iff it is on the roster and its lower-cased name includes the trimmed, lower-cased query, every copy kept |
| GuardFilter.SubsequenceTransitive | src/components/schedule/ScheduleBoard.tsx:128-140 | an order-preserving selection of an order-preserving selection is one of the original list, as the two-stage filter needs |
| GuardFilter.InRangeMeansListed | src/components/schedule/ScheduleBoard.tsx:138 | the day-number range test holds exactly for the days shown as columns |
| GuardFilter.WithinIntervalEastOfUtc | src/components/schedule/ScheduleBoard.tsx:138 | with bounds at local midnight (picker ranges) east of UTC, the written test accepts exactly start ≤ date < end, so it drops the last day |
| GuardFilter.WithinIntervalWestOfUtc | src/components/schedule/ScheduleBoard.tsx:138 | with bounds at local midnight (picker ranges) west of UTC, the written test accepts exactly start < date ≤ end, so it drops the first day |
| GuardFilter.WithinIntervalAtUtc | src/components/schedule/ScheduleBoard.tsx:138 | with bounds at local midnight (picker ranges), only at UTC does the written test agree with the day range |
| GuardFilter.WithinIntervalFromClock | src/components/schedule/ScheduleBoard.tsx:131-138 | with bounds taken from the clock (`new Date()` at lines 107-108, 193, 202, 213), even at UTC the written test accepts exactly start < date ≤ end, so it drops the first day |
| GuardFilter.HasStatusInRange | src/components/schedule/ScheduleBoard.tsx:134-139 | a guard can only have a matching record when there are records and the range is not reversed |
| GuardFilter.FilteredGuards | src/components/schedule/ScheduleBoard.tsx:126-141 | a guard is kept iff it is on the roster, its lower-cased name includes the normalised query, and the tab is "all" or some record in range has the tab's status; "all" is the text filter alone |
| GuardFilter.FilteredIsSubsequence | src/components/schedule/ScheduleBoard.tsx:126-141 | the filtered list keeps the roster's order |
| GuardFilter.QueryCaseInsensitive | src/components/schedule/ScheduleBoard.tsx:127 | lower-casing the query first does not change the result |
| GuardFilter.GeneratedStatusFilter | src/components/schedule/ScheduleBoard.tsx:133-140 | on generator output, a tab keeps a guard iff the status rule gives that status on some day of the range |
| GuardFilter.GeneratedStatusDay | src/components/schedule/ScheduleBoard.tsx:133-140 | a matching record yields a day in range on which the rule gives that status |
| GuardFilter.GeneratedStatusRecord | src/components/schedule/ScheduleBoard.tsx:133-140 | each day in range contributes a matching record for its rule status |
| GuardFilter.BlankQueryKeepsAll | src/components/schedule/ScheduleBoard.tsx:127-128 | an empty or whitespace-only query keeps every guard |
| BoardGrid.CountStatus | src/components/schedule/ScheduleBoard.tsx:261-268 | a status count over the filtered guards never exceeds their number |
| BoardGrid.CountPresent | src/components/schedule/ScheduleBoard.tsx:262-264 | the number of guards with a record never exceeds their number |
| BoardGrid.DayTally | src/components/schedule/ScheduleBoard.tsx:261-268 | the header loop counts assigned records, off records, and free plus leave records over the filtered guards |
| BoardGrid.DayColumnHeader | src/components/schedule/ScheduleBoard.tsx:257-268 | the header has the day's key, is "today" exactly on the clock's day, is a weekend on Sunday and Saturday, and its three counts sum to the guards with a record |
| BoardGrid.TallyAccountsForPresent | src/components/schedule/ScheduleBoard.tsx:264-267 | every guard with a record is counted once: the four status counts sum to the guards present |
| BoardGrid.FindSite | src/components/schedule/ScheduleBoard.tsx:334 | `SITES.find` finds a site iff one has the id, and the one it finds is the first site with that id |
| BoardGrid.RowCell | src/components/schedule/ScheduleBoard.tsx:329-351 | a site name is shown only for a record with a site id, and it is the name and colour of a site with that id; the unknown-site case arises exactly when no site has the id |
| BoardGrid.RowCells | src/components/schedule/ScheduleBoard.tsx:325-327 | a row has one cell per shown day, and cell i shows the record looked up under `guardId_toKey(days[i])` |
| BoardGrid.RowCellsAt | src/components/schedule/ScheduleBoard.tsx:325-350 | cell i shows a dash iff there is no record under `guardId_date`, the free badge iff it is free or leave, the off badge iff off, an empty cell iff assigned without a site, and otherwise the name and colour of a site with the record's site id |
| BoardGrid.RowCellClassification | src/components/schedule/ScheduleBoard.tsx:329-351 | a dash iff no record; the free badge iff free or leave; the off badge iff off; an empty cell iff assigned without a site; a site name only for assigned records with a site |
| BoardGrid.CountCells | src/components/schedule/ScheduleBoard.tsx:325-351 | the number of cells of one kind in a column never exceeds the guards |
| BoardGrid.TallyMatchesBadges | src/components/schedule/ScheduleBoard.tsx:261-268 | the header's free count equals the free badges below it, and its off count equals the off badges |
| BoardGrid.GeneratedRowCell | src/components/schedule/ScheduleBoard.tsx:331-350 | on generator output over named sites, every cell of a guard's row shows a site, a free badge or an off badge |
| BoardGrid.MockSitesColoured | src/components/schedule/ScheduleBoard.tsx:51-59 | the mock sites have non-empty ids and seven different palette colours |
| MobileGuardCard.TagIndex | src/components/schedule/MobileGuardCard.tsx:51 | the tag index is at least 1: 1 when the id's digits are all zero or absent, otherwise their value |
| MobileGuardCard.MobileCellOf | src/components/schedule/MobileGuardCard.tsx:48-64 | a site tag's colour is palette entry `(tagIndex - 1) % 8`, always within the palette |
| MobileGuardCard.GuardCardRows | src/components/schedule/MobileGuardCard.tsx:45-47 | one row per day, in `days` order, keyed by that day's `yyyy-MM-dd`, whose content is the record looked up under `guard.id_dateKey` |
| MobileGuardCard.MobileCellClassification | src/components/schedule/MobileGuardCard.tsx:48-64 | a dash iff no record or assigned without a site; one badge each for free, off and leave; a site tag names the record's site with one of the 8 colours |
| MobileGuardCard.MobileAgreesWithDesk | src/components/schedule/MobileGuardCard.tsx:48-64 | the mobile card shows a record as the grid does, except that leave has its own badge and an assigned record without a site shows a dash rather than an empty cell |
| MobileGuardCard.GuardCardKeysDistinct | src/components/schedule/MobileGuardCard.tsx:67 | distinct days give rows distinct React keys |
| MobileGuardCard.GeneratedMobileCell | src/components/schedule/MobileGuardCard.tsx:47-64 | on generator output no row of the card shows a dash, and a row shows the leave badge exactly on the rule's leave days |
| MobileGuardCard.MobileColourDiffersFromDesk | src/components/schedule/MobileGuardCard.tsx:51-54 | the mobile colour follows the id's digits, not the site's tag: "хан1" gets colour 0 against 2 on the desktop, and "зайсан" falls back to 1 |
| MobileSiteCard.Slots | src/components/schedule/MobileSiteCard.tsx:43-53 | there are exactly `capacity ?? 1` slots; slot i is filled iff i < the number of guards, then with guard i and an edit of that guard, else with an edit without a guard |
| MobileSiteCard.GuardsAt | src/components/schedule/MobileSiteCard.tsx:26 | the guard list of a site-day is the stored one under `siteId_dateKey`, or empty when there is none |
| MobileSiteCard.SiteDayRows | src/components/schedule/MobileSiteCard.tsx:22-54 | one row per shown day, in order; row i carries day i's `yyyy-MM-dd` key, its today and weekend flags, and the slots laid out from the list stored under `siteId_dateKey` |
| MobileSiteCard.SlotPrefixShowsPrefix | src/components/schedule/MobileSiteCard.tsx:43-53 | slots laid out in order show the first guards of the list, as many as there are slots |
| MobileSiteCard.ShownGuardsArePrefix | src/components/schedule/MobileSiteCard.tsx:43-53 | a site-day shows exactly the first `min(capacity, guards)` guards in order, so guards beyond the capacity are never shown |
| MobileSiteCard.DefaultCapacity | src/components/schedule/MobileSiteCard.tsx:43 | without a capacity there is one slot, filled iff the list is non-empty |
| MobileSiteCard.SiteDayRowAt | src/components/schedule/MobileSiteCard.tsx:22-54 | each row has the day's key, is "today" exactly on the clock's day and a weekend on Sunday and Saturday; slot k is filled iff the stored list has a k-th guard, then shows that guard and edits `(site.id, dateKey, guard.id)`, and otherwise edits `(site.id, dateKey)` with no guard; a site-day without an entry shows only empty slots, one with an entry shows the prefix of its list |

## Left out

- The SEO effect (ScheduleBoard.tsx:143-163) writes the document title and meta tags. It only touches the DOM.
- Layout, CSS classes, icons, `LegendPill`, the localised labels and the display formats `yyyy.MM.dd` and `EEE` are presentation only.
- The phone line under a guard's name is presentation only.
- The desktop cell's "today" ring is presentation only. It uses the same key comparison as the header's flag, which is modelled.
- The choice between the mobile and the desktop view (`useIsMobile`) is not modelled. Both views are modelled over the same filtered guards.
- React state and memoisation are not modelled. The range state is the `Selection` value, and the buttons are functions from one value to the next.
- `AssignGuardDialog.tsx` is not part of this model.
- The builder of the site-day guard lists and the handler behind `onEditCell` are not part of this model. The lists are an input map, and an edit is the `EditRequest` value its arguments would form.
- Date handling: `Date`, `getDate` and `format(d, "yyyy-MM-dd")` are abstracted by `Calendar`. `getDay` is computed from the day number.
- The clock: `new Date()` is the parameter `today`.
- The filter model compares whole days. The written test with bounds taken from the clock is modelled separately. This applies with no range, after "from today 7", and after "previous" or "next" stepped from such a range: `GuardFilter.WithinIntervalFromClock` shows it drops the first day.
- A range with an end but no start, or with the end before the start, is excluded by `DateRange.WellFormed`. The picker does not produce such ranges.
- `Calendar.Days` requires `start <= end`. For a reversed interval, date-fns 2's `eachDayOfInterval` throws and later versions list the days backwards. The date-fns version is not fixed by these files. The board never passes a reversed interval (`DateRange.WellFormed`).
- JsText.ToLowerChar: lower-cases ASCII, Latin-1 and the Cyrillic block only. Characters of other scripts are left unchanged. The roster's names are all Cyrillic.
- MobileGuardCard.TagIndex: yields the exact value of the digits. `parseInt` loses precision above 2^53, and a digit run long enough to overflow yields `Infinity`, which has no palette entry.
- MockData.MakeMockAssignments: takes a roster whose ids are "g" and decimal digits. Other id shapes are not modelled.
- `charCodeAt(1)` is modelled as the code of the second character. For the roster's ASCII ids this is the same value.
- A site's capacity is `Option<nat>`. `Site` at ScheduleBoard.tsx:16 declares no capacity field, so every mock site has none. Negative or fractional capacities are not modelled.
- Holes (`undefined` entries) in a site-day guard list are not modelled. Every element is a guard.
- When `SITES.find` finds nothing, the desktop `Row` throws on `site.tagIndex`. The model shows this as the cell `MissingSite` instead of an exception. On generator output it never happens (`BoardGrid.GeneratedRowCell`).

## Findings

| source | as written | input that shows it | evidently intended | confidence | as-written member | corrected member |
|---|---|---|---|---|---|---|
| src/components/schedule/ScheduleBoard.tsx:212-215 | "next 7 days" starts from `range?.to ?? new Date()` | range with start 2025-08-01 and no end, today 2025-08-20: the board shows 08-01..08-07, and "next" jumps to 08-21..08-27. With no range at all it moves by one day, overlapping six columns | the seven days after the last shown day, as "previous" does from the first shown day | not executed | DateRange.NextWeekWithoutEnd | DateRange.NextWeekAfterShown |
| src/components/schedule/ScheduleBoard.tsx:138 | `isWithinInterval(new Date(a.date), {start, end})`, where `new Date("yyyy-MM-dd")` is midnight UTC. The bounds are local midnights for picker ranges, and carry the clock's time of day for ranges derived from `new Date()` | time zone UTC+8, picker range 2025-08-12..2025-08-21: the record dated 08-21 falls at 08:00 local on the 21st, after the end bound, so a guard free only on the last shown day is dropped by the "free" tab. At UTC, after "from today 7" pressed at 10:00, today's record at 00:00 is before the start bound (`GuardFilter.WithinIntervalFromClock`) | a record counts when its date is one of the shown days | not executed | GuardFilter.WithinIntervalEastOfUtc | GuardFilter.InRangeMeansListed |
