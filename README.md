# Clinic scheduler: a Dafny model of its scheduling and data-shaping core

The clinic scheduler is a web front end for a dental clinic. Each doctor has a
day column of half-hour slots from 09:00 to 19:00. Receptionists book, move and
advance appointments (Записан → Пришел → Завершен, or Отменен), search patients
by name or phone, and keep a patient register. Most of the code is React
rendering and calls to a hosted database. Under it sit small deterministic
pieces, which this project models and proves things about:

- **Time engine** (`TimeText`, `GridTime`, `GridStore`, `DateUtils`):
  - "HH:MM" ↔ minute-of-day conversion;
  - the 21 working-day slots;
  - the working-hours test and rounding to a slot;
  - the pixel geometry of an appointment block and its inverse;
  - the interval-overlap test;
  - the calendar store's memo table of block positions, keyed by "start-end";
  - the date helpers' own copies of these, and the slot index of a time.
- **Status cycle** (`Status`): the status changer's table and the store that
  records an update in flight.
- **Form checks and text** (`Validation`, `Phone`, `Format`):
  - the booking form's per-field error record;
  - the Kyrgyz phone pattern, the "996 XXX XXX XXX" display form, and
    white-space stripping;
  - text truncation with an ellipsis.
- **Client stores** (`SearchStore`, `PatientStore`, `DoctorStore`,
  `AppointmentStore`, built on `Recency`):
  - two most-recently-used lists (search terms, capped at 5; patients by id,
    capped at 10);
  - the favourite-doctor toggle;
  - filter records whose setters touch one field each.
- **Data layer** (`Records`, `DoctorApi`, `AppointmentApi`, `PatientApi`,
  `PatientSummary`):
  - grouping the day's appointments under their doctors;
  - the rows inserted on booking and registration, and the update payloads;
  - search gating;
  - the per-patient summary (upcoming count, last visit);
  - the clinic statistics;
  - the fall-backs to built-in sample data.

  Each database answer is a parameter of type `Fetch<T>`: rows, a null data
  field, an error object, or a thrown exception. "Today" and "now" are
  parameters as well.

Stores whose fields the source replaces are classes. Each setter is a method
whose `modifies` clause names only the field it writes, so "nothing else
changes" is part of its frame. The imperative operations are methods proved
against a specification function: `generateTimeSlots` (a loop), `getSlotIndex`
(a call to `indexOf` on the generated list), `validateAppointment` (a chain of
checks that each add an error), and the two `updateData` builders (each adds
the columns that were given). The rest are functions. Predicates and
functions that only compute are specification functions; the lemmas next to
them state their properties.

JavaScript behaviour is modelled explicitly wherever the code relies on it:

- truthiness of optional strings and numbers (`Truthy`, `TruthyNumber`);
- `x || fallback` and `x || null`;
- `slice` with a negative end;
- the `\s` and `\D` character classes;
- the alternatives a regular expression can match;
- string `<` as code-point order (`LexLess`).

## Model

| member | source | states |
|---|---|---|
| TimeText.Decimal | src/widgets/calendar-grid/model/store.ts:21-25 | `toString()` of a natural number is a non-empty run of decimal digits |
| TimeText.PadStart2 | src/widgets/calendar-grid/model/store.ts:23-25 | `padStart(2, "0")` gives exactly two characters for shorter text and keeps the length of longer text |
| TimeText.PadShape | src/widgets/calendar-grid/model/store.ts:23-25 | padding only adds leading zeros: the text is a suffix of the result, everything before it is '0', and text of two or more characters comes back unchanged |
| TimeText.DecimalValue | src/widgets/calendar-grid/model/store.ts:16-25 | reading back the decimal text of n gives n |
| TimeText.PadValue | src/widgets/calendar-grid/model/store.ts:16-25 | zero-padding keeps a digit run's value |
| TimeText.ParseTime | src/widgets/calendar-grid/model/store.ts:15-18 | specification function: 60 · hours + minutes, read from the digit runs around the first colon; the lemmas below relate it to `minutesToTime` |
| TimeText.MinutesToTime | src/widgets/calendar-grid/model/store.ts:20-26 | specification function: the hour and the minute, each padded to two digits, around a colon; `ParseMinutesToTime` proves it inverts `parseTime` |
| TimeText.SplitTime | src/widgets/calendar-grid/model/store.ts:15-18 | splitting "h:m" at its first colon gives back h and m |
| TimeText.ParseMinutesToTime | src/widgets/calendar-grid/model/store.ts:15-26 | for every m ≥ 0, `parseTime(minutesToTime(m)) == m` |
| TimeText.MinutesToTimeParts | src/widgets/calendar-grid/model/store.ts:20-26 | the printed time is the padded hour, a colon and the padded minute |
| TimeText.MinutesToTimeInjective | src/widgets/calendar-grid/model/store.ts:20-26 | different minute counts print differently |
| TimeText.MinutesToTimeCanonical | src/widgets/calendar-grid/model/store.ts:20-26 | for 0 ≤ m < 1440 the result is a five-character zero-padded "HH:MM" with these digits |
| TimeText.CanonicalValue | src/widgets/calendar-grid/model/store.ts:15-18 | `parseTime` of "HH:MM" is 60·HH + MM |
| TimeText.CanonicalRoundTrip | src/widgets/calendar-grid/model/store.ts:15-26 | a canonical "HH:MM" prints back to itself after `parseTime` |
| GridTime.WorkingSlots | src/widgets/calendar-grid/model/store.ts:28-41 | the slot list has 21 entries |
| GridTime.SlotOnTheHour | src/widgets/calendar-grid/model/store.ts:35 | slot 2(h−9) is "HH:00" |
| GridTime.SlotOnTheHalfHour | src/widgets/calendar-grid/model/store.ts:36-38 | slot 2(h−9)+1 is "HH:30" |
| GridTime.GenerateTimeSlots | src/widgets/calendar-grid/model/store.ts:28-41 | the loop's list equals the 21 working-day slots |
| GridTime.SlotListShape | src/widgets/calendar-grid/model/store.ts:28-41 | 21 slots, "09:00" first and "19:00" last, slot i at 540 + 30i minutes, each 30 minutes after the one before |
| GridTime.FirstAndLastSlot | src/widgets/calendar-grid/model/store.ts:31-35 | the first slot is "09:00" and the last is "19:00" |
| GridTime.SlotsAreAlignedWorkingTimes | src/widgets/calendar-grid/model/store.ts:28-48 | a canonical time is a slot iff it is within working hours and on a half hour |
| GridTime.SlotIsAligned | src/widgets/calendar-grid/model/store.ts:28-48 | every slot is inside working hours and on a half hour |
| GridTime.AlignedIsSlot | src/widgets/calendar-grid/model/store.ts:28-48 | every canonical half-hour time within working hours is in the slot list |
| GridTime.SlotsInWorkingHours | src/widgets/calendar-grid/model/store.ts:43-48 | every slot passes `isTimeInWorkingHours` |
| GridTime.WorkingHoursEdges | src/widgets/calendar-grid/model/store.ts:43-48 | both ends are included: "09:00" and "19:00" pass, "08:59" and "19:01" fail |
| GridTime.NormalizeTimeToSlot | src/widgets/calendar-grid/model/store.ts:50-62 | the source's three-way case split is rounding half up to a multiple of 30 minutes |
| GridTime.RoundToSlotCases | src/widgets/calendar-grid/model/store.ts:52-61 | the closed form agrees with the case split on minutes 0–14, 15–44 and 45–59 |
| GridTime.RoundToSlotBounds | src/widgets/calendar-grid/model/store.ts:50-62 | the rounded count is a multiple of 30, within 15 minutes of the input, and unchanged for a multiple of 30 |
| GridTime.NormalizeTimeToSlotProperties | src/widgets/calendar-grid/model/store.ts:50-62 | the result ends in ":00" or ":30", lies within 15 minutes of the input, and rounding it again changes nothing |
| GridTime.NormalizeLateEvening | src/widgets/calendar-grid/model/store.ts:57-59 | "23:50" rounds to "24:00", past the end of the day |
| GridTime.CalculateAppointmentPosition | src/widgets/calendar-grid/model/store.ts:66-92 | top ≥ 0, height ≥ 30, zIndex 10 |
| GridTime.PositionOf | src/widgets/calendar-grid/model/store.ts:66-92 | top = max(0, 2·(start−540)), height = max(30, 2·(end−start) − 8) |
| GridTime.FirstHourPosition | src/widgets/calendar-grid/model/store.ts:66-92 | 09:00–10:00 is drawn at top 0, 112 px tall |
| GridTime.TopOf | src/widgets/calendar-grid/model/store.ts:66-92 | a block starting at or after 09:00 sits 2 px down per minute past 09:00 |
| GridTime.AfternoonPosition | src/widgets/calendar-grid/model/store.ts:66-92 | a 14:00 start is ten 60 px slots down the grid |
| GridTime.RoundQuotient | src/widgets/calendar-grid/model/store.ts:97 | `Math.round(y/d)` is the integer nearest y/d, with halves rounding up |
| GridTime.CalculateTimeFromPosition | src/widgets/calendar-grid/model/store.ts:94-101 | the result is a well-formed time that prints back to itself from its own minute count, and it is the minute whose 2 px band contains y |
| GridTime.TimeFromPositionInvertsTop | src/widgets/calendar-grid/model/store.ts:66-101 | the time at a block's top edge is its start time, or 09:00 for blocks clamped to the top |
| GridTime.TimeAtEvenOffset | src/widgets/calendar-grid/model/store.ts:94-101 | an offset of 2k px reads as exactly k minutes after 09:00 |
| GridTime.SeparateAppointmentsSeparateBlocks | src/widgets/calendar-grid/model/store.ts:66-115 | appointments that do not overlap get blocks that do not collide, provided the earlier one lasts at least 16 minutes (at 15 minutes the 30 px minimum height makes the block touch the next) |
| GridTime.ShortBlockReachesNext | src/widgets/calendar-grid/model/store.ts:81-85 | the 30 px minimum makes the block of 09:00–09:10 reach into the block of 09:10–10:00 |
| GridTime.IsTimeInWorkingHours | src/widgets/calendar-grid/model/store.ts:43-48 | specification predicate: 540 ≤ minutes ≤ 1140, both ends included; `WorkingHoursEdges` and `CanDropExactlyWorkingHours` state it |
| GridTime.DoAppointmentsOverlap | src/widgets/calendar-grid/model/store.ts:103-115 | specification predicate: start1 < end2 and end1 > start2 in minutes; the overlap lemmas below state its meaning |
| GridTime.OverlapMeansSharedMinute | src/widgets/calendar-grid/model/store.ts:103-115 | for non-empty intervals, overlap holds iff some minute lies in both half-open intervals |
| GridTime.OverlapSymmetric | src/widgets/calendar-grid/model/store.ts:103-115 | overlap does not depend on the order of the two appointments |
| GridTime.OverlapExamples | src/widgets/calendar-grid/model/store.ts:114 | 09:00–10:00 overlaps 09:30–10:30 but not 10:00–11:00 |
| GridStore.CacheKey | src/widgets/calendar-grid/model/store.ts:171 | specification function: the two times joined by '-'; `KeySplits` proves the key determines both times |
| GridStore.KeySplits | src/widgets/calendar-grid/model/store.ts:171 | the key `start-end` splits back into its two times |
| GridStore.FreshEntryCoherent | src/widgets/calendar-grid/model/store.ts:171-182 | a freshly computed position is a coherent entry under its key |
| GridStore.CalendarGridStore.constructor | src/widgets/calendar-grid/model/store.ts:144-149 | starts with the generated slots, no selection or drag, not loading, one column, and an empty cache |
| GridStore.CalendarGridStore.SetSelectedTimeSlot | src/widgets/calendar-grid/model/store.ts:151-152 | writes only the selected slot |
| GridStore.CalendarGridStore.SetDraggedAppointment | src/widgets/calendar-grid/model/store.ts:154-159 | writes only the dragged appointment |
| GridStore.CalendarGridStore.SetIsLoading | src/widgets/calendar-grid/model/store.ts:161-162 | writes only the loading flag |
| GridStore.CalendarGridStore.SetGridColumns | src/widgets/calendar-grid/model/store.ts:164-165 | writes only the column count |
| GridStore.CalendarGridStore.CalculateAppointmentPosition | src/widgets/calendar-grid/model/store.ts:167-185 | a hit returns the cached value and leaves the cache alone; a miss computes the position and stores it under the key; with a coherent cache the answer always equals the pure function's, and the cache stays coherent |
| GridStore.CalendarGridStore.GetTimeSlots | src/widgets/calendar-grid/model/store.ts:187 | returns the 21 working-day slots |
| GridStore.CalendarGridStore.ClearPositionCache | src/widgets/calendar-grid/model/store.ts:189-197 | the cache becomes empty |
| GridStore.CalendarGridStore.GetCachedPosition | src/widgets/calendar-grid/model/store.ts:199 | present iff the key is cached, and then it is the cached value |
| GridStore.CalendarGridStore.SetCachedPosition | src/widgets/calendar-grid/model/store.ts:201-210 | changes only the given key; coherence survives when the new entry is coherent |
| GridStore.CalendarGridStore.IsValidTimeSlot | src/widgets/calendar-grid/model/store.ts:212-216 | specification predicate for `isValidTimeSlot`; `ValidTimeSlotIsSlot` states its meaning |
| GridStore.CalendarGridStore.CanDropAppointment | src/widgets/calendar-grid/model/store.ts:218-223 | specification predicate for `canDropAppointment`; `CanDropExactlyWorkingHours` states its meaning |
| GridStore.CalendarGridStore.ValidTimeSlotIsSlot | src/widgets/calendar-grid/model/store.ts:212-216 | `isValidTimeSlot` holds iff the time is one of the 21 slots |
| GridStore.CanDropExactlyWorkingHours | src/widgets/calendar-grid/model/store.ts:218-223 | `canDropAppointment` holds iff 540 ≤ minutes ≤ 1140, whatever the doctor |
| GridStore.NoNegativeTop | src/widgets/calendar-grid/model/store.ts:81 | no block has a negative top |
| DateUtils.GenerateTimeSlots | src/shared/lib/date-utils/index.ts:36-45 | the helpers' loop gives the same 21 slots as the grid store's |
| DateUtils.IsTimeInWorkingHours | src/shared/lib/date-utils/index.ts:47-52 | specification predicate of the helpers' working-hours test; `WorkingHoursAgree` states its meaning |
| DateUtils.NormalizeTimeToSlot | src/shared/lib/date-utils/index.ts:68-82 | specification function of the helpers' rounding to the slot; `NormalizeAgrees` states its meaning |
| DateUtils.WorkingHoursAgree | src/shared/lib/date-utils/index.ts:47-52 | the helpers' test holds iff 540 ≤ minutes ≤ 1140, the same as the grid store's |
| DateUtils.NormalizeAgrees | src/shared/lib/date-utils/index.ts:68-82 | the helpers' rounding gives the same text as the grid store's for every time, "24:00" included |
| DateUtils.SlotIndexOf | src/shared/lib/date-utils/index.ts:84-88 | the slot index lies in [−1, 20] |
| DateUtils.GetSlotIndex | src/shared/lib/date-utils/index.ts:84-88 | the search result is (rounded − 540)/30 for a rounded time within working hours, and −1 otherwise; a found index holds the rounded time |
| DateUtils.SlotSearch | src/shared/lib/date-utils/index.ts:84-88 | `indexOf` on the slot list finds the rounded time exactly at its index |
| DateUtils.SearchHalfHour | src/shared/lib/date-utils/index.ts:84-88 | the text of a half-hour count is found at (k − 540)/30 within working hours and nowhere outside them |
| DateUtils.SlotIndexExamples | src/shared/lib/date-utils/index.ts:84-88 | "08:50" → 0, "19:10" → 20, "19:20" → −1 |
| Status.Label | src/shared/types/index.ts:20 | specification function: the stored text of each status; `LabelRoundTrip` and `LabelInjective` state that it is one-to-one |
| Status.FromLabel | src/shared/types/index.ts:20 | a recognised text is the label of its status |
| Status.LabelRoundTrip | src/shared/types/index.ts:20 | every status reads back from its label |
| Status.LabelInjective | src/shared/types/index.ts:20 | different statuses have different labels |
| Status.NextStatus | src/features/appointment-management/update-appointment/model/store.ts:27-32 | the table never yields Отменен, and Отменен goes to Записан |
| Status.GetNextStatus | src/features/appointment-management/update-appointment/model/store.ts:26-34 | a known status gets its table entry; any other text gets "Записан"; the result is never Отменен |
| Status.CycleOfThree | src/features/appointment-management/update-appointment/model/store.ts:27-32 | three steps bring Записан, Пришел and Завершен back to themselves |
| Status.TextCycleOfThree | src/features/appointment-management/update-appointment/model/store.ts:26-34 | the same, at the level of the stored texts |
| Status.StatusTable | src/features/appointment-management/update-appointment/model/store.ts:27-32 | the four table entries |
| Status.UpdateAppointmentStore.constructor | src/features/appointment-management/update-appointment/model/store.ts:17-18 | starts not updating, with no last id |
| Status.UpdateAppointmentStore.SetIsUpdating | src/features/appointment-management/update-appointment/model/store.ts:20-21 | writes only `isUpdating` |
| Status.UpdateAppointmentStore.SetLastUpdatedId | src/features/appointment-management/update-appointment/model/store.ts:23-24 | writes only `lastUpdatedId` |
| Validation.ValidateAppointment | src/features/appointment-management/create-appointment/model/validation.ts:11-39 | for each field group, the error is set iff its test fails, and the message is fixed; the two phone messages are exclusive ("enter" iff missing or empty, "incorrect" iff non-empty and rejected by the pattern); the record is empty iff the draft is complete |
| Phone.CleanPhone | src/shared/lib/phone-utils/index.ts:16-18 | removes exactly the `\s` characters |
| Phone.CleanPhoneConcat | src/shared/lib/phone-utils/index.ts:16-18 | removal works piece by piece, so kept characters stay in order |
| Phone.CleanPhoneKeepsSpaceFree | src/shared/lib/phone-utils/index.ts:16-18 | text without white space is unchanged |
| Phone.CleanPhoneIdempotent | src/shared/lib/phone-utils/index.ts:16-18 | cleaning twice is cleaning once |
| Phone.DigitsOf | src/shared/lib/phone-utils/index.ts:2 | `replace(/\D/g, "")` keeps exactly the digits |
| Phone.DigitsOfConcat | src/shared/lib/phone-utils/index.ts:2 | digit extraction works piece by piece |
| Phone.DigitsOfDigits | src/shared/lib/phone-utils/index.ts:2 | an all-digit string is its own digits |
| Phone.FormatPhone | src/shared/lib/phone-utils/index.ts:1-9 | input whose digits do not start with 996 is returned unchanged; fewer than 12 digits give the digit-only string; 12 or more are grouped with spaces after digits 3, 6 and 9 |
| Phone.GroupedDigits | src/shared/lib/phone-utils/index.ts:5 | grouping only inserts spaces: the digits come back unchanged |
| Phone.FormatPhoneKeepsDigits | src/shared/lib/phone-utils/index.ts:1-9 | formatting keeps the number's digits |
| Phone.FormatPhoneIdempotent | src/shared/lib/phone-utils/index.ts:1-9 | formatting a formatted number changes nothing |
| Phone.ValidatePhone | src/shared/lib/phone-utils/index.ts:11-14 | specification predicate of `validatePhone`; the four lemmas below state which numbers pass and which fail |
| Phone.PlainDigitsValid | src/shared/lib/phone-utils/index.ts:11-14 | every string of 9–12 digits passes |
| Phone.LengthBounds | src/shared/lib/phone-utils/index.ts:11-14 | anything shorter than 9 or longer than 16 characters fails |
| Phone.ValidCharacters | src/shared/lib/phone-utils/index.ts:11-14 | in a number that passes, each character is a digit, white space, or a '+' at index 0, so any letter fails |
| Phone.FormattedNumberValid | src/shared/lib/phone-utils/index.ts:1-14 | the display form "996 XXX XXX XXX" of a 12-digit number itself passes validation |
| Format.SliceEnd | src/shared/lib/utils/format.ts:18 | `slice`'s end: clamped to the text, counted back from the end when negative |
| Format.TruncateText | src/shared/lib/utils/format.ts:16-19 | unchanged when `|t| ≤ n`; otherwise the first n characters then "...", of length n + 3; for a negative n, `slice(0, n)` counts from the end and the result is the text minus its last |n| characters (nothing when |n| ≥ |t|), then "..." |
| Format.TruncateIdempotent | src/shared/lib/utils/format.ts:16-19 | for n ≥ 0, truncating twice equals truncating once |
| Format.NegativeLimitKeepsCutting | src/shared/lib/utils/format.ts:16-19 | with a negative limit each call cuts again: "abc" → "ab..." → "ab....." |
| Recency.Without | src/features/patient-search/model/store.ts:47 | the filter keeps exactly the entries whose key differs |
| Recency.Touch | src/features/patient-search/model/store.ts:45-48 | the touched entry is first, and there are 1 to cap entries |
| Recency.TouchShape | src/features/patient-search/model/store.ts:45-48 | after the first entry come the filtered old entries, in order, cut to cap − 1; none shares the new key |
| Recency.WithoutUnique | src/features/patient-search/model/store.ts:47 | filtering keeps keys unique |
| Recency.TouchUnique | src/features/patient-search/model/store.ts:45-48 | a touch keeps keys unique |
| Recency.WithoutAbsent | src/features/patient-search/model/store.ts:47 | a list without the key is its own filter |
| Recency.TouchTwice | src/features/patient-search/model/store.ts:45-48 | touching twice is touching once |
| Recency.WithoutConcat | src/entities/doctor/model/store.ts:37 | filtering works piece by piece, so the order of what stays is kept |
| SearchStore.AddToHistory | src/features/patient-search/model/store.ts:42-52 | the term is first, and the history has at most 5 entries |
| SearchStore.AddToHistoryProperties | src/features/patient-search/model/store.ts:45-48 | the term occurs only at the front; the rest are the old terms other than it, in order, cut to 4; no repeats stay no repeats; adding twice is adding once |
| SearchStore.PatientSearchStore.constructor | src/features/patient-search/model/store.ts:24-28 | starts with an empty term, results and history, not searching, nothing selected |
| SearchStore.PatientSearchStore.SetSearchTerm | src/features/patient-search/model/store.ts:30-31 | writes only the term |
| SearchStore.PatientSearchStore.SetSearchResults | src/features/patient-search/model/store.ts:33-34 | writes only the results |
| SearchStore.PatientSearchStore.SetIsSearching | src/features/patient-search/model/store.ts:36-37 | writes only the flag |
| SearchStore.PatientSearchStore.SetSelectedPatient | src/features/patient-search/model/store.ts:39-40 | writes only the selection |
| SearchStore.PatientSearchStore.AddToSearchHistory | src/features/patient-search/model/store.ts:42-52 | the history becomes AddToHistory of the old one: the term is first, at most 5 entries; nothing else changes |
| SearchStore.PatientSearchStore.ClearSearch | src/features/patient-search/model/store.ts:54-64 | resets term, results, selection and flag; the history is untouched |
| SearchStore.PatientSearchStore.ClearHistory | src/features/patient-search/model/store.ts:66 | empties only the history |
| PatientStore.AddRecent | src/entities/patient/model/store.ts:40-50 | the patient is first, and there are at most 10 entries |
| PatientStore.AddRecentProperties | src/entities/patient/model/store.ts:43-46 | no other entry has the patient's id, so a stale record is replaced; the others keep their order, cut to 9; distinct ids stay distinct; adding twice is adding once |
| PatientStore.PatientStore.constructor | src/entities/patient/model/store.ts:23-26 | starts with no selection, an empty term, not searching, and no recent patients |
| PatientStore.PatientStore.SetSelectedPatient | src/entities/patient/model/store.ts:28-29 | writes only the selection |
| PatientStore.PatientStore.SetSearchTerm | src/entities/patient/model/store.ts:31-32 | writes only the term |
| PatientStore.PatientStore.SetIsSearching | src/entities/patient/model/store.ts:34-35 | writes only the flag |
| PatientStore.PatientStore.SetRecentPatients | src/entities/patient/model/store.ts:37-38 | writes only the recent list |
| PatientStore.PatientStore.AddRecentPatient | src/entities/patient/model/store.ts:40-50 | the list becomes AddRecent of the old one: the patient is first, at most 10 entries; nothing else changes |
| PatientStore.PatientStore.ClearSelection | src/entities/patient/model/store.ts:52-53 | clears only the selection |
| PatientStore.PatientStore.ClearSearch | src/entities/patient/model/store.ts:55-63 | resets the term and the flag; the selection and the recent list are untouched |
| DoctorStore.Toggled | src/entities/doctor/model/store.ts:36-38 | the id is a favourite afterwards iff it was not before; every other id keeps its membership; an absent id is appended once at the end, a present one is taken out, every copy of it, by the same filter `Without` the recency lists use |
| DoctorStore.ToggleKeepsOthers | src/entities/doctor/model/store.ts:36-38 | apart from the toggled id the list is unchanged, order included |
| DoctorStore.ToggleKeepsUnique | src/entities/doctor/model/store.ts:36-38 | a list without repeats stays without repeats |
| DoctorStore.ToggleTwice | src/entities/doctor/model/store.ts:36-38 | toggling twice restores the set of favourites, and restores the list exactly when the id was not a favourite |
| DoctorStore.ToggleTwiceExample | src/entities/doctor/model/store.ts:36-38 | toggling a favourite off and on moves it to the end: [1, 2] → [2, 1] |
| DoctorStore.DoctorStore.constructor | src/entities/doctor/model/store.ts:23-28 | starts with no selection, no favourites, specialty null and availability true |
| DoctorStore.DoctorStore.SetSelectedDoctorId | src/entities/doctor/model/store.ts:30-31 | writes only the selection |
| DoctorStore.DoctorStore.ToggleFavoriteDoctor | src/entities/doctor/model/store.ts:33-42 | the favourites become Toggled of the old list, so the id's membership flips; nothing else changes |
| DoctorStore.DoctorStore.SetSpecialtyFilter | src/entities/doctor/model/store.ts:44-51 | changes only `filters.specialty` |
| DoctorStore.DoctorStore.SetAvailabilityFilter | src/entities/doctor/model/store.ts:53-60 | changes only `filters.availability` |
| DoctorStore.DoctorStore.ClearFilters | src/entities/doctor/model/store.ts:62-69 | the filters become specialty null, availability true; the selection and favourites are untouched |
| AppointmentStore.AppointmentStore.constructor | src/entities/appointment/model/store.ts:27-34 | starts with no selection, both flags false, and all filters null |
| AppointmentStore.AppointmentStore.SetSelectedAppointmentId | src/entities/appointment/model/store.ts:36-37 | writes only the selection |
| AppointmentStore.AppointmentStore.SetIsCreatingAppointment | src/entities/appointment/model/store.ts:39-44 | writes only the creating flag |
| AppointmentStore.AppointmentStore.SetIsUpdatingAppointment | src/entities/appointment/model/store.ts:46-51 | writes only the updating flag |
| AppointmentStore.AppointmentStore.SetStatusFilter | src/entities/appointment/model/store.ts:53-60 | changes only `filters.status` |
| AppointmentStore.AppointmentStore.SetDateRangeFilter | src/entities/appointment/model/store.ts:62-69 | changes only `filters.dateRange` |
| AppointmentStore.AppointmentStore.SetDoctorFilter | src/entities/appointment/model/store.ts:71-78 | changes only `filters.doctorId` |
| AppointmentStore.AppointmentStore.ClearFilters | src/entities/appointment/model/store.ts:80-87 | the filters become the initial ones; the selection and flags are untouched |
| Records.ToAppointment | src/entities/appointment/model/api.ts:33-42 | copies a row's fields into an appointment; the comment is present iff truthy |
| DoctorApi.RowsFor | src/entities/doctor/model/api.ts:87-88 | selects exactly the rows with the doctor's id |
| DoctorApi.RowsForConcat | src/entities/doctor/model/api.ts:87-88 | selection works piece by piece, so row order is kept |
| DoctorApi.ToDoctor | src/entities/doctor/model/api.ts:82-99 | copies the doctor's fields; a falsy avatar becomes "👨‍⚕️"; the appointments are that doctor's rows, mapped, in row order |
| DoctorApi.GetDoctors | src/entities/doctor/model/api.ts:57-105 | a doctors-query error, an exception, or no doctor rows give the sample doctors; otherwise one doctor per row, in order; the result is never empty |
| DoctorApi.DoctorsFollowRows | src/entities/doctor/model/api.ts:82-99 | each doctor's appointments are exactly the mapped rows with its id |
| DoctorApi.RowUnderOneDoctor | src/entities/doctor/model/api.ts:87-88 | with unique doctor ids, a row appears under at most one doctor |
| DoctorApi.UnmatchedRowNowhere | src/entities/doctor/model/api.ts:87-88 | a row whose doctor_id matches no doctor appears nowhere |
| DoctorApi.FailedAppointmentsLeaveDoctorsEmpty | src/entities/doctor/model/api.ts:78-87 | a failed appointments query leaves every doctor with no appointments |
| AppointmentApi.InsertRow | src/entities/appointment/model/api.ts:17-27 | the inserted status is always Записан; a falsy comment is stored as null; the other fields are copied |
| AppointmentApi.AppointmentResult | src/entities/appointment/model/api.ts:31-47 | a returned row gives its appointment; any failure gives FETCH_ERROR |
| AppointmentApi.CreateRoundTrip | src/entities/appointment/model/api.ts:12-49 | booking then reading back gives the request's appointment, booked, with a falsy comment absent |
| AppointmentApi.UpdatePayload | src/entities/appointment/model/api.ts:56-67 | the six text columns are sent only when truthy; the comment whenever it is defined, "" included; `updated_at` always; there is no id column |
| AppointmentApi.ToSearchResult | src/entities/appointment/model/api.ts:126-136 | the row's appointment, with the doctor's name or "Неизвестный врач" |
| AppointmentApi.SearchPatients | src/entities/appointment/model/api.ts:101-143 | a term shorter than 2 characters, an error, or an exception give []; otherwise one hit per row, in order |
| AppointmentApi.SearchQueried | src/entities/appointment/model/api.ts:103-105 | specification predicate: the database is queried only for terms of two or more characters; `ShortTermsGiveNothing` and `SearchPatients` state the consequences |
| AppointmentApi.ShortTermsGiveNothing | src/entities/appointment/model/api.ts:103-105 | "" and one-letter terms give [] |
| PatientApi.ToPatient | src/entities/patient/model/api.ts:33-42 | falsy email, birth date and notes become absent; the rest is copied |
| PatientApi.PatientsQuery | src/entities/patient/model/api.ts:12-24 | the limit defaults to 50; the search filter is added iff the term has 2 or more characters |
| PatientApi.GetPatients | src/entities/patient/model/api.ts:26-48 | one patient per row, in order; [] after an error, an exception, or a null answer |
| PatientApi.InsertPatientRow | src/entities/patient/model/api.ts:56-64 | a falsy email, birth date or notes is stored as null; name and phone are copied |
| PatientApi.PatientResult | src/entities/patient/model/api.ts:68-85 | a returned row gives its patient; any failure gives FETCH_ERROR |
| PatientApi.CreatePatientRoundTrip | src/entities/patient/model/api.ts:53-86 | registering then reading back gives the request's patient, with its truthy optional fields |
| PatientApi.UpdatePatientPayload | src/entities/patient/model/api.ts:93-102 | name and phone are sent only when truthy; email, birth date and notes whenever defined, "" included; `updated_at` always; there is no id column |
| PatientSummary.WithFallbacks | src/entities/patient/model/appointments-api.ts:555-560 | each of id, name, specialty and avatar falls back to its own default when falsy |
| PatientSummary.ExtractDoctorData | src/entities/patient/model/appointments-api.ts:538-561 | a missing doctor gives {0, "Неизвестный врач", "", "👨‍⚕️"}; an array stands for its first element; an empty array gives the same defaults |
| PatientSummary.UnknownDoctorCases | src/entities/patient/model/appointments-api.ts:544-560 | a missing doctor, an empty array and an all-falsy doctor all read as the unknown doctor |
| PatientSummary.ToEntry | src/entities/patient/model/appointments-api.ts:196-213 | the entry copies the row (the comment unchanged) and takes the doctor from ExtractDoctorData |
| PatientSummary.IsUpcoming | src/entities/patient/model/appointments-api.ts:218 | specification predicate: dated today or later and not cancelled; `UpcomingCount` counts it |
| PatientSummary.IsPastVisit | src/entities/patient/model/appointments-api.ts:222 | specification predicate: dated before today and completed; `LastVisit` takes the greatest such date |
| PatientSummary.UpcomingCount | src/entities/patient/model/appointments-api.ts:216-219 | the count is at most the list length, and is 0 iff no entry is dated today or later and not cancelled |
| PatientSummary.LastVisit | src/entities/patient/model/appointments-api.ts:221-223 | None iff no entry is completed and dated before today; otherwise the date of such an entry, no earlier than any other such entry's, and before today |
| PatientSummary.Summarize | src/entities/patient/model/appointments-api.ts:196-237 | one entry per row, in order; total = length; upcoming ≤ total; lastVisit as above |
| PatientSummary.GetPatientsWithAppointments | src/entities/patient/model/appointments-api.ts:131-246 | a patients-query error gives []; no patients or an exception give the sample list; otherwise one summary per patient row, in order |
| PatientSummary.DistinctCount | src/entities/patient/model/appointments-api.ts:277-279 | `new Set(list).size` is the number of distinct values |
| PatientSummary.DistinctCountBound | src/entities/patient/model/appointments-api.ts:277-279 | at most the list length, and equal to it iff no value repeats |
| PatientSummary.CountOrZero | src/entities/patient/model/appointments-api.ts:309-315 | `count || 0` |
| PatientSummary.GetPatientStats | src/entities/patient/model/appointments-api.ts:251-322 | an exception or a null patient count gives the sample statistics; otherwise the counts (missing → 0) and the numbers of distinct phones |

## Left out

- Rendering and wiring: all React/antd components, pages and modals; the
  status changer's async request flow; RTK Query caching and tag
  invalidation; `console` logging.
- Database semantics: each answer is a parameter, not computed. Not modelled:
  - what `.eq`, `.or` with `ilike`/`like`, `.order`, `.range` and `.limit`
    select;
  - the per-patient appointment filters (status, doctor, date range);
  - the id and timestamps the table assigns.
- Clocks: "today" and "now" are string parameters. The `dayjs`/`Date`
  helpers are not part of this model, and neither is the calendar header's
  date navigation. These are `formatDate`, `calculateAppointmentDuration`,
  `isWeekend`, and the week and month starts of the statistics.
- `formatCurrency`, `formatNumber`, `formatPercentage` and
  `capitalizeFirst` are not part of this model. They rely on locale data,
  floating point and Unicode case mapping.
- `deletePatient` and `getPatientAppointmentHistory` are not part of this
  model. They only forward a database call and its error.
- TimeText.ParseTime: defined only on two non-empty digit runs around a
  colon. Other text makes the source compute `NaN` or coerce through
  `Number`, and negative minute counts are not printed.
- GridTime.CalculateTimeFromPosition: requires the offset to stay at or
  after 00:00 (more than 1080 px above the grid is excluded). It takes
  whole-pixel offsets only; a fractional offset is not modelled, because no
  caller in the source passes one.
- String lengths are counted in code points; JavaScript counts UTF-16 units.
  The two differ only outside the Basic Multilingual Plane. This matters
  for the patient-name length and for `truncateText`.
- `localeCompare` in the last-visit sort is taken as code-point order. For
  ISO dates this is the same as locale order. Sorting and taking the first
  element is modelled by its result, the greatest date.
- Status.GetNextStatus: a text that names a property of `Object.prototype`
  (such as "toString") finds that property in the source's table instead
  of falling back to "Записан". The model sends every unknown text to
  "Записан".
- The update payloads are records with one optional field per column, not
  open objects. The missing id column is visible in the record's type.
- Mock data is kept only as far as the fall-backs return it: the sample
  doctors and patients, and the sample statistics.
- JavaScript `NaN` as a number's truthiness is not modelled.
