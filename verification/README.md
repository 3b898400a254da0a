# OutlookClone in Dafny

A model of the data logic behind OutlookClone, a mock Outlook mail client
for React Native. The client is fed by two corpus generators: one writes a
synthetic mailbox as monthly JSON shards, the other writes a one-week test
file. The project models and proves properties of six pieces:

- **Inbox paging and rows** (`inbox.dfy`, module `Inbox`):
  - the avatar colour hash `colorFor` and `pad2`;
  - the row derived from each message: preview, initials, colour and the unread flag;
  - the newest-first month order `allMonths`;
  - the per-month cache `getMonthDesc`;
  - `loadNextPage`, which walks a cursor (month, offset) over the concatenated month lists and takes 200 messages at a time, across month boundaries;
  - the "Load more" condition.

  The screen's state is the class `Mailbox`. Its methods update the cache, the cursor and the rows in place.
- **Body and signature splitting** (`email_parser.dfy`, module `EmailParser`):
  - `parseEmailBody` splits at the last `"\n--\n"` and trims both halves;
  - `detectCompanyFromSignature` searches the ordered company mapping, domain keys before name keys.
- **Relative-date buckets** (`date_buckets.dfy`, module `DateBuckets`):
  - `getDateBucket`;
  - the bucket-to-format choice of `formatRightCell`;
  - `compareByNewest`.
- **Month index access** (`data_loader.dfy`, module `DataLoader`): `getAvailableMonths`, `loadMonth` and `loadLatestMonth`.
- **The full corpus generator** (`full_dataset.dfy`, modules `FullDataset` and `FullCast`). Each day gets:
  - a weekday research brief;
  - a rare all-staff note;
  - random messages up to the day's volume, with senders filtered, slots skipped and template times fixed.

  The day is then merged into its monthly shard in timestamp order.
- **The test-week generator** (`test_data.dfy`, module `TestData`): one message per slot, with each day's sorted messages appended to one list.

Shared pieces:

- `schedule.dfy` holds the calendar, record and draw types, the time and volume rules, and the shard paths.
- `text.dfy` holds the JavaScript string operations: `trim`, the `\s+` collapse, `split`, `lastIndexOf`, `parseInt`, case mapping and the default string order.
- `sorting.dfy` holds the stable numeric-comparator sort.
- `wrappers.dfy` holds `Option`.

Abstractions:

- **Random draws.** Every faker draw is an input whose type is the draw's stated range, e.g. `WeekdayCount` is 15..25. `arrayElement(list)` picks `list[pick % |list|]`. Probabilities are not modelled, only that a coin was drawn.
- **Dates.** The date libraries (date-fns, date-fns-tz, dayjs) are a `Calendar` or `Zone` of functions over integer days and instants. `ValidZone` states the calendar laws the bucketing relies on, and `UtcValid` shows they can be met.
- **Files.** The file system is a map from path to shard. A missing or unparsable shard reads as empty.
- **Bundled data.** The bundler's `require` map is a map from `"year/monthKey"` to messages.

Two behaviours of the date buckets and the inbox worth knowing:

- **Seven days back.** `app/dateBuckets.ts:34` compares against the start of the day seven days back. So 09:00 exactly seven days ago is "weekday", not "this year" (`SevenDaysBackIsWeekday`).
- **"Load more" with only empty months left.** The cursor is committed only when a page is non-empty. Suppose the months left after a full page are all empty. Then "Load more" stays visible, and a press changes nothing. `LoadNextPage` states this: when no rows are added, the cursor does not move. `LoadMoreHidden` states that the button is hidden exactly when the month position is past the last month.

## Model

| member | source | states |
|---|---|---|
| Text.Trim | OutlookClone/utils/emailParser.ts:86-87 | the result is the slice of the input from its first non-whitespace character; everything outside it is whitespace; it neither starts nor ends with whitespace; it is empty exactly when the input is all whitespace |
| Text.TrimKeepsText | OutlookClone/utils/emailParser.ts:86-87 | trimming keeps every non-whitespace character, in order |
| Text.CollapseSpaces | OutlookClone/app/index.tsx:98 | after `replace(/\s+/g, ' ')` the only whitespace is single spaces, each followed by a non-space; the result is empty exactly when the input is, and is no longer than it |
| Text.CollapseWord | OutlookClone/app/index.tsx:98 | text without whitespace is left as it is |
| Text.CollapseAppend | OutlookClone/app/index.tsx:98 | collapsing can be done piece by piece at any point that does not cut a whitespace run |
| Text.CollapseRun | OutlookClone/app/index.tsx:98 | each whitespace run becomes exactly one space in its place, with the text on either side collapsed on its own |
| Text.CollapseKeepsText | OutlookClone/app/index.tsx:98 | collapsing whitespace keeps every other character, in order |
| Text.LastIndexOf | OutlookClone/utils/emailParser.ts:79 | the result is -1 or an index where the pattern occurs, and the pattern occurs at no later index |
| Text.Split | OutlookClone/app/index.tsx:99 | `split` gives at least one part and no part contains the separator |
| Text.JoinSplit | OutlookClone/app/index.tsx:99 | joining the parts of a split with the separator gives back the string |
| Text.ToUpper | OutlookClone/app/index.tsx:99 | no lower-case ASCII letter is left, and every character that is not one is unchanged |
| Text.ToLower | OutlookClone/utils/emailParser.ts:56 | no upper-case ASCII letter is left, and every character that is not one is unchanged |
| Text.CaseFold | OutlookClone/utils/emailParser.ts:56 | lower-casing ignores an upper-casing before it and the other way round, and both are idempotent |
| Text.SplitHead | OutlookClone/app/index.tsx:57 | the first part of a split is the text before the first separator |
| Text.DigitsValueAppend | OutlookClone/app/index.tsx:57 | the digits of a followed by those of b are worth a·10^(length of b) + b |
| Text.ParseDigits | OutlookClone/app/index.tsx:57 | parseInt of a non-empty digit string is its value |
| Text.Decimal | OutlookClone/app/index.tsx:31 | `${n}` is a digit string without a leading zero that reads back as n; it has one digit exactly when n < 10 |
| Text.ZeroPad | OutlookClone/generateFullDataset.js:376-377 | the padded string has the requested width (or the original length), ends with the original and is '0' before it |
| Text.StrLessTotal | OutlookClone/utils/dataLoader.ts:69 | the default sort order of strings compares any two different strings |
| Text.StrLessTransitive | OutlookClone/utils/dataLoader.ts:69 | the default sort order of strings is transitive |
| Text.StrLessIrreflexive | OutlookClone/utils/dataLoader.ts:69 | no string sorts before itself |
| Sorting.SortByOrders | OutlookClone/generateFullDataset.js:479-481 | the numeric-comparator sort orders the elements by key and is a permutation of its input |
| DataLoader.IndexMonthsLayout | OutlookClone/utils/dataLoader.ts:53-59 | the flattened list has as many entries as the index lists month keys, and month j of year entry i sits right after the months of the entries before i |
| DataLoader.GetAvailableMonths | OutlookClone/utils/dataLoader.ts:53-59 | the nested push loops produce exactly the flattened list |
| DataLoader.LoadMonth | OutlookClone/utils/dataLoader.ts:61-66 | the bundled shard for "year/monthKey", or no messages when the key is absent |
| DataLoader.YearMonths | OutlookClone/utils/dataLoader.ts:72 | a month list is found exactly when the year is a key of the index, and it is that year's list |
| DataLoader.GreatestKey | OutlookClone/utils/dataLoader.ts:69-71 | the last key after the default sort is one of the keys and no key sorts after it |
| DataLoader.LoadLatestMonth | OutlookClone/utils/dataLoader.ts:68-77 | null for an empty index or when the greatest year lists no months; otherwise the last month listed under the greatest year with loadMonth's data for it |
| Inbox.NameHash | OutlookClone/app/index.tsx:26-27 | the rolling hash stays below 2^32 (the `>>> 0` wrap) |
| Inbox.PaletteColor | OutlookClone/app/index.tsx:24-28 | the colour is always one of the five palette entries, and the first one for an empty name |
| Inbox.ColorFor | OutlookClone/app/index.tsx:25-29 | the hash loop returns the palette entry of the hash of the whole name |
| Inbox.Pad2 | OutlookClone/app/index.tsx:31 | two digits for every n below 100, a leading '0' exactly when n < 10, reading back as n |
| Inbox.PreviewText | OutlookClone/app/index.tsx:98 | a preview has at most 90 characters |
| Inbox.PreviewPrefix | OutlookClone/app/index.tsx:98 | the preview is min(90, length of the collapsed, trimmed body) long, and its non-whitespace characters are the first ones of the body's |
| Inbox.PreviewCollapsed | OutlookClone/app/index.tsx:98 | a preview holds no whitespace but single spaces and does not start with a space |
| Inbox.PreviewEmpty | OutlookClone/app/index.tsx:98 | the preview is empty exactly when the body is all whitespace |
| Inbox.PreviewKeepsText | OutlookClone/app/index.tsx:98 | when the collapsed, trimmed body fits in 90 characters, the preview keeps all of its non-whitespace characters |
| Inbox.HeadsSplitEmpty | OutlookClone/app/index.tsx:99 | the word initials are empty exactly when the name is all spaces |
| Inbox.InitialsOf | OutlookClone/app/index.tsx:99 | initials have at most two characters, are "?" for an empty name, and are empty only for a name made of spaces |
| Inbox.HeadsOfWords | OutlookClone/app/index.tsx:99 | mapping each part to its first character and joining gives one character per non-empty part, its first |
| Inbox.InitialsAreFirstLetters | OutlookClone/app/index.tsx:99 | the initials of a non-empty name are the upper-cased first characters of its first two space-separated words, or of its one word |
| Inbox.Rows | OutlookClone/app/index.tsx:97-112 | one row per message |
| Inbox.RowsAppend | OutlookClone/app/index.tsx:97-112 | the rows of two lists one after the other are the rows of the joined list |
| Inbox.MapRows | OutlookClone/app/index.tsx:97-112 | the push loop produces one row per message of the slice, in order |
| Inbox.AllMonthsOrder | OutlookClone/app/index.tsx:54-60 | allMonths is a permutation of the available months ordered by non-increasing sort key `ym` |
| Inbox.MonthNumberValue | OutlookClone/app/index.tsx:57 | for a year of digits and a key of two month digits, '_' and a name (the form the generator writes, whose digits read back as year and month by `Schedule.YearTextValue` and `Schedule.MonthDigitsValue`), `ym` is year·100 + month, so the order is newest month first |
| Inbox.NewestFirstOrder | OutlookClone/app/index.tsx:73 | a month's list is a permutation of its shard ordered by non-increasing timestamp |
| Inbox.CollectCount | OutlookClone/app/index.tsx:86-119 | a run of the page loop takes min(room, messages left) messages, stops at the position just after them, and stops short of the room only when the months run out |
| Inbox.CollectSlice | OutlookClone/app/index.tsx:86-119 | the messages a run takes are the next ones of the concatenated month lists, in order, with nothing skipped or repeated |
| Inbox.PassTaken | OutlookClone/app/index.tsx:87-118 | one pass of the loop keeps its invariant: what is taken so far, followed by the rest of the run, is the whole run, and the rows so far are the rows of what was taken |
| Inbox.NextPage | OutlookClone/app/index.tsx:79-119 | a page at the cursor has min(200, what is left) messages, moves the cursor past exactly them, leaves the months exhausted when shorter than 200, and the rows so far plus the page's rows are the rows of everything before the new cursor |
| Inbox.PageStep | OutlookClone/app/index.tsx:113-125 | a non-empty page commits the new cursor and appends its rows; an empty page happens only when nothing is left |
| Inbox.Mailbox.constructor | OutlookClone/app/index.tsx:54-65 | the initial state: allMonths sorted from the index, empty cache, cursor (0, 0), no rows |
| Inbox.Mailbox.GetMonthDesc | OutlookClone/app/index.tsx:68-77 | returns the month's messages newest first; a first request loads the month once and caches it; a repeated request, even for an empty list, returns the cache and loads nothing |
| Inbox.Mailbox.TakeMonth | OutlookClone/app/index.tsx:87-118 | one pass skips a month with nothing left, or takes min(room, remaining) messages and leaves the month once it is used up |
| Inbox.Mailbox.CollectPage | OutlookClone/app/index.tsx:81-119 | the loop returns the rows of exactly the run from the cursor with room 200, and the position that run stops at |
| Inbox.Mailbox.LoadNextPage | OutlookClone/app/index.tsx:79-126 | appends the rows of the next min(200, left) messages of the newest-first list and advances the cursor by that many; a call that adds nothing moves nothing; a short page exhausts the months |
| Inbox.Mailbox.Mount | OutlookClone/app/index.tsx:128-133 | the first render with months and no rows shows the rows of the first min(200, all) messages; otherwise the rows stay as they were |
| Inbox.Mailbox.LoadMoreHidden | OutlookClone/app/index.tsx:289 | "Load more" is shown exactly while some month has not been passed by the cursor; once hidden, every message of every month has its row |
| EmailParser.FirstWhere | OutlookClone/utils/emailParser.ts:60-64 | the index found is the first entry the test accepts; none means no entry is accepted |
| EmailParser.DetectCompany | OutlookClone/utils/emailParser.ts:55-75 | every company found is one of the mapping's company ids |
| EmailParser.DomainDecides | OutlookClone/utils/emailParser.ts:58-65 | with a sender address, the first domain key it contains decides the company, whatever the signature says |
| EmailParser.FirstWhereFinds | OutlookClone/utils/emailParser.ts:60-72 | the first accepted entry is the one the search returns |
| EmailParser.NameDecides | OutlookClone/utils/emailParser.ts:67-72 | without a domain match, the first name key in the lower-cased signature decides |
| EmailParser.NoCompany | OutlookClone/utils/emailParser.ts:67-74 | with no domain match and no name key in the signature, there is no company |
| EmailParser.SplitSignature | OutlookClone/utils/emailParser.ts:79-91 | a signature found is non-empty and neither starts nor ends with whitespace |
| EmailParser.ParseEmailBody | OutlookClone/utils/emailParser.ts:77-101 | no signature exactly when the split finds none, and then the content is the whole body; otherwise the trimmed halves, with the company detected from the signature |
| EmailParser.NotFoundIffAbsent | OutlookClone/utils/emailParser.ts:79-84 | lastIndexOf gives -1 exactly when the body does not contain the separator |
| EmailParser.NoSeparatorNoSignature | OutlookClone/utils/emailParser.ts:81-84 | a body without the separator is returned whole with no signature |
| EmailParser.SplitAtLast | OutlookClone/utils/emailParser.ts:79-91 | at the last separator: no signature exactly when the text after it is all whitespace, and otherwise the trimmed texts before and after it |
| EmailParser.SignatureHasNoSeparator | OutlookClone/utils/emailParser.ts:79-87 | a signature never contains the separator |
| EmailParser.TrimmedTailHasNoMatch | OutlookClone/utils/emailParser.ts:87 | the trimmed text after the last occurrence of a pattern does not contain it |
| EmailParser.TrimAroundKeepsText | OutlookClone/utils/emailParser.ts:86-87 | trimming the two sides of the separator loses only whitespace |
| EmailParser.SplitKeepsText | OutlookClone/utils/emailParser.ts:86-87 | the body's non-whitespace characters are the content's, then "--", then the signature's |
| DateBuckets.UtcValid | OutlookClone/app/dateBuckets.ts:28-30 | the calendar laws the bucketing assumes are met by a fixed-offset zone |
| DateBuckets.TodayIffSameDay | OutlookClone/app/dateBuckets.ts:28-32 | "today" exactly when the instant is on now's calendar day |
| DateBuckets.YesterdayIffDayBefore | OutlookClone/app/dateBuckets.ts:29-33 | "yesterday" exactly when the instant's day starts one calendar day before today's start |
| DateBuckets.WeekdayIffBetween | OutlookClone/app/dateBuckets.ts:30-34 | "weekday" exactly when the instant is strictly after the start of the day seven days back and strictly before the start of yesterday |
| DateBuckets.SevenDaysBackIsWeekday | OutlookClone/app/dateBuckets.ts:30-34 | any instant of the day seven days back, except the midnight that opens it, is "weekday" |
| DateBuckets.FutureIsYearBucket | OutlookClone/app/dateBuckets.ts:32-36 | an instant on a day after today is only ever "this year" or "older" |
| DateBuckets.YearDecides | OutlookClone/app/dateBuckets.ts:35-36 | past the first three tests, "this year" and "older" are decided by the calendar year alone |
| DateBuckets.FormatFor | OutlookClone/app/dateBuckets.ts:42-53 | today and yesterday share the time-of-day format, weekday uses the short day name, this year day and month, older day, month and year |
| DateBuckets.SameDayShowsTime | OutlookClone/app/dateBuckets.ts:39-45 | an instant of today is shown as a time of day |
| DateBuckets.CompareByNewest | OutlookClone/app/dateBuckets.ts:56-60 | negative exactly when a is newer, zero exactly when equal, positive exactly when b is newer |
| DateBuckets.CompareAntisymmetric | OutlookClone/app/dateBuckets.ts:56-60 | swapping the arguments negates the result |
| Schedule.DefaultTime | OutlookClone/generateFullDataset.js:336-343 | the default hour is 18..21 exactly when the coin says so on a weekday, otherwise 8..17; the minute is the drawn one |
| Schedule.EmailCount | OutlookClone/generateFullDataset.js:357-364 | 15..25 on weekdays, 5..10 on weekends in week four or later, 2..5 on other weekends |
| Schedule.Pick | OutlookClone/generateFullDataset.js:438 | arrayElement returns an element of the list |
| Schedule.Attachments | OutlookClone/generateFullDataset.js:456-463 | no attachment or exactly one, sized 500000..2000000, one exactly when the coin was drawn |
| Schedule.RandomEmailShape | OutlookClone/generateFullDataset.js:445-464 | a random-slot message is to the user, from its sender, labelled with the sender's type, with at most one attachment, at the given timestamp |
| Schedule.Filter | OutlookClone/generateFullDataset.js:436 | the filtered senders are exactly those of the cast the test accepts |
| Schedule.SortByTimeOrders | OutlookClone/generateFullDataset.js:479-481 | sorting by timestamp orders ascending and keeps every message |
| Schedule.YearText | OutlookClone/generateFullDataset.js:376 | the year text is all digits |
| Schedule.YearTextValue | OutlookClone/generateFullDataset.js:376 | the year text reads back as the year |
| Schedule.MonthDigits | OutlookClone/generateFullDataset.js:377 | the month text is two digits |
| Schedule.MonthDigitsValue | OutlookClone/generateFullDataset.js:377 | the two month digits read back as the month |
| Schedule.MonthKeyInjective | OutlookClone/generateFullDataset.js:377 | different months have different keys |
| Schedule.PathParts | OutlookClone/generateFullDataset.js:378-379 | two shard paths with slash-free year texts are equal only when their years and their month keys are equal |
| Schedule.ShardPathInjective | OutlookClone/generateFullDataset.js:376-379 | different months go to different files |
| FullDataset.FindByEmail | OutlookClone/generateFullDataset.js:389 | find returns the first cast member with that address, and nothing exactly when there is none |
| FullDataset.BriefPart | OutlookClone/generateFullDataset.js:387-407 | one brief on a weekday, none at the weekend |
| FullDataset.AllStaffPart | OutlookClone/generateFullDataset.js:409-431 | at most one all-staff note |
| FullDataset.Scheduled | OutlookClone/generateFullDataset.js:385-431 | at most two scheduled messages |
| FullDataset.Remaining | OutlookClone/generateFullDataset.js:435 | the scheduled count plus the slot count is max(target, scheduled) |
| FullDataset.TemplateOverride | OutlookClone/generateFullDataset.js:254-281 | only the huddle and wrap templates fix a time: 8:30 exactly for the huddle on a weekday, 16:00 exactly for the wrap on a Friday |
| FullDataset.SlotEmails | OutlookClone/generateFullDataset.js:437-466 | at most one message per slot |
| FullDataset.ScheduleDay | OutlookClone/generateFullDataset.js:385-431 | the scheduled pushes give the brief (weekdays) then the all-staff note (when drawn and there is an executive) |
| FullDataset.GenerateSlot | OutlookClone/generateFullDataset.js:438-465 | one slot yields its message, or nothing when the store is missing or empty or the template result is falsy |
| FullDataset.PushSlot | OutlookClone/generateFullDataset.js:437-466 | one pass of the slot loop pushes that slot's message, if any |
| FullDataset.PushSlots | OutlookClone/generateFullDataset.js:437-466 | the slot loop pushes the messages of slots 0..remaining-1, in order |
| FullDataset.GenerateDay | OutlookClone/generateFullDataset.js:385-466 | a day's messages are the scheduled ones then those of max(0, target - scheduled) random slots |
| FullDataset.SomeSlots | OutlookClone/generateFullDataset.js:433-437 | every day runs at least one random slot |
| FullDataset.DayBound | OutlookClone/generateFullDataset.js:433-466 | a day yields at most max(target, scheduled) messages |
| FullDataset.SlotsAllYield | OutlookClone/generateFullDataset.js:437-466 | when every type has templates and every template gives a result, n slots yield n messages |
| FullDataset.DayExact | OutlookClone/generateFullDataset.js:433-466 | with stores for every type and no falsy template result, a day holds exactly max(target, scheduled) messages |
| FullDataset.BriefShape | OutlookClone/generateFullDataset.js:388-406 | a weekday's first message is the brief: from research, to the user, read, unstarred, labelled internal-brief, no attachments, at 6:30..6:59 |
| FullDataset.SlotEmailsShape | OutlookClone/generateFullDataset.js:436-465 | every random-slot message has the shape of a message from a general sender |
| FullDataset.SlotUsesOverride | OutlookClone/generateFullDataset.js:444-452 | a slot's timestamp is the template's fixed time when it has one, the default time otherwise |
| FullDataset.SlotSkipped | OutlookClone/generateFullDataset.js:439-443 | a slot yields nothing exactly when its type has no or an empty store or the template result is falsy |
| FullDataset.SlotsNotScheduled | OutlookClone/generateFullDataset.js:436-455 | random slots never carry the brief or all-staff label |
| FullDataset.OneBriefOnWeekdays | OutlookClone/generateFullDataset.js:387-407 | exactly one brief on every weekday and none at the weekend |
| FullDataset.AtMostOneAllStaff | OutlookClone/generateFullDataset.js:409-431 | at most one all-staff message a day |
| FullDataset.AllStaffFromExecutive | OutlookClone/generateFullDataset.js:411-419 | the all-staff note comes from an all-staff sender of the cast |
| FullDataset.MergeKeepsAll | OutlookClone/generateFullDataset.js:479-481 | the merged month is in timestamp order and is a permutation of the existing and new messages |
| FullDataset.DayPaths | OutlookClone/generateFullDataset.js:375-379 | one path per day of the range |
| FullDataset.PathAt | OutlookClone/generateFullDataset.js:375-379 | each day writes to its own month's file |
| FullDataset.OutputAt | OutlookClone/generateFullDataset.js:375-466 | each day of the range contributes its own messages |
| FullDataset.GenerateEmails | OutlookClone/generateFullDataset.js:367-490 | the day loop writes each day from start through end, in order, to its monthly file |
| FullDataset.AppendToMonth | OutlookClone/generateFullDataset.js:468-483 | the monthly file is rewritten with the merge of its readable contents and the day |
| FullDataset.RunUntouched | OutlookClone/generateFullDataset.js:468-483 | a file no day writes to is left exactly as it was |
| FullDataset.RunWritten | OutlookClone/generateFullDataset.js:468-483 | a file some day writes to ends up a parsed list in timestamp order |
| FullDataset.RunContents | OutlookClone/generateFullDataset.js:468-483 | each file ends up holding its earlier readable messages plus exactly those of the days that write to it, nothing dropped or invented |
| FullDataset.WrittenContents | OutlookClone/generateFullDataset.js:469-481 | the file a day is written to holds its old readable messages and the day's |
| FullCast.FullStored | OutlookClone/generateFullDataset.js:183-333 | every sender type of the real cast has a non-empty template store |
| FullCast.FullReady | OutlookClone/generateFullDataset.js:33-180 | the real cast has the research sender and general senders, so every day can run |
| TestData.TestSendersStored | OutlookClone/generateTestData.js:20-79 | every test sender's type has a non-empty template store |
| TestData.SlotEmails | OutlookClone/generateTestData.js:124-146 | one message per slot |
| TestData.SlotAt | OutlookClone/generateTestData.js:124-146 | message i of the day is slot i's message |
| TestData.GenerateDay | OutlookClone/generateTestData.js:121-147 | the slot loop then the sort produce the day's messages in timestamp order |
| TestData.GenerateEmails | OutlookClone/generateTestData.js:114-156 | the day loop appends each day's sorted messages, from start through end, in day order |
| TestData.RunLength | OutlookClone/generateTestData.js:120-149 | the list holds exactly the sum of the daily counts |
| TestData.TotalBounds | OutlookClone/generateTestData.js:98-111 | the total is between 2 and 25 per day of the range |
| TestData.RunPrefix | OutlookClone/generateTestData.js:148 | the list for an earlier last day is a prefix of the list for a later one |
| TestData.DayAt | OutlookClone/generateTestData.js:147-148 | a day's sorted messages sit right after the earlier days' messages |
| TestData.DayBlock | OutlookClone/generateTestData.js:147-148 | each day's block is in timestamp order and holds exactly that day's messages |
| TestData.SlotShape | OutlookClone/generateTestData.js:130-144 | a slot's message comes from one of the senders with its shape, at a default time of the day |
| TestData.DayShape | OutlookClone/generateTestData.js:124-146 | every message of a day has that shape |
| TestData.ShapeHours | OutlookClone/generateTestData.js:82-95 | a message's local hour is 8..21, and at most 17 at the weekend |
| TestData.ShapeLabels | OutlookClone/generateTestData.js:130-144 | a test message is to the user, labelled internal or external-vendor, with at most one attachment |
| TestData.RunShape | OutlookClone/generateTestData.js:120-152 | every message of the list has the shape of some day of the range |

## Left out

- Rendering: JSX, styles, navigation and gestures are left out. So are `formatListTimestamp`, `formatDetailTime` and the Intl formatting itself; `formatRightCell` is modelled only as the choice of format.
- React state: hook batching and stale closures are not modelled. `loadNextPage` updates plain fields in sequence.
- Dates: time zones, daylight saving and the date libraries are left out. They are the `Calendar` and `Zone` parameters, constrained only by `ValidZone`. Every instant is a valid integer here, so the source's invalid dates are not modelled: an ISO string dayjs cannot parse falls to 'older' in getDateBucket (dateBuckets.ts:32-37) and makes compareByNewest return NaN (dateBuckets.ts:56-60).
- Randomness: faker's text, probabilities and uuid ids are left out. Draws are inputs within their stated ranges; ids are opaque strings.
- Template prose is opaque text. Each template is reduced to whether it returns a result and to the fixed times of the two Teams templates.
- File I/O is left out: `existsSync`, `mkdirSync`, reads and writes. The model keeps a map from path to shard. The generator's log lines are also not modelled.
- FullDataset.Existing: a shard is either a message list or unparsable. A shard that is valid JSON but not an array is not modelled: the spread at `generateFullDataset.js:480` would throw for an object, null or a number, and would spread a string into characters.
- Inbox.AllMonthsOrder: a month whose year and key prefix do not parse as a number ranks as 0 in the model. In the source `parseInt` gives NaN there, so the comparator returns NaN and the order of such months is left to the JavaScript engine. `MonthNumberValue` covers the keys the generator writes.
- Inbox.NameHash: a character outside the Basic Multilingual Plane (an emoji) is one `char` in the model and two UTF-16 code units in JavaScript. For names and bodies holding such characters, the colour hash, the 90-character preview cut (`Inbox.PreviewText`), the initials and the default string order (`Text.StrLess`) can differ from the source.
- The environment variables `GEN_START`, `GEN_END` and `GEN_OUTDIR` are parameters. So are the default dates of both generators.
- `scripts/generateRecentWeek.js` only spawns the generator, so it is not part of this model.
- Sorting.SortByOrders: stability is not stated as a lemma. The insertion sort keeps equal keys in input order by construction, as the library sort does.
- Inbox.NewestFirstOrder: does not state that messages with equal timestamps keep their shard order, for the same reason.
- Text.ToUpper: maps only the ASCII letters. Full Unicode case mapping is not modelled.
- Text.ToLower: maps only the ASCII letters. The mapping's name keys are lower-case ASCII, but a signature with a non-ASCII letter that lower-cases to ASCII (such as U+212A, the Kelvin sign, to "k") can match a name key in the source and not in the model.
- Text.IsSpace: Unicode normalisation is not modelled.
- FullDataset.DayReady: a weekday needs the research sender, and any day needs a general sender. Without them the script fails (`researchSender.email`, `arrayElement([])`), and that failure is not modelled. `FullCast.FullReady` shows the real cast meets both.
- FullDataset.SlotEmail: the falsy-template branch is modelled, but no template in the real stores returns a falsy value.
- TestData.GenerateDay: the template-store lookup never fails for the four test senders (`TestSendersStored`). The failure a missing store would cause is not modelled.
