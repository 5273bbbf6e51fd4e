# WorldWipe, modelled in Dafny

WorldWipe is a server plugin that deletes (and optionally regenerates) game worlds on a
schedule. Each configured world carries a schedule (weekly on a day, daily, or monthly on a
date, at a time of day in a zone). The plugin arms one timer for the earliest due time, wipes
the worlds due then, catches up on wipes missed while the server was down, keeps a list of
protected worlds that are never wiped, and, with offline tracking, sends a player who joins a
world that was wiped since they last left it to the primary protected world. Its configuration
is a YAML file with a fixed banner header.

This project models the core of that plugin:

- `Plugin.WorldWipePlugin` is the plugin object. Its fields are the ones the plugin updates in
  place: the wipe-in-progress flag, the scheduler's queue of pending steps, the timer, the
  stored configuration, the settings `loadConfig` resolves, and the two offline-tracking maps.
  Every method is proved against a function of the old state from `WipeState`, and what the
  source promises is proved about those functions in `WipeStateFacts`.
- `Occurrence` and `Calendar`: `calculateNextOccurrence` and `calculatePreviousOccurrence` over
  a proleptic Gregorian calendar. They are proved to give the earliest occurrence after now and
  the latest one at or before now.
- `Selection`: the loops of `scheduleNextAutomaticWipe` and `catchUpMissedWipes`.
- `Registry` and `Offline`: the plugin's normalisation helpers and its offline-tracking maps.
- `Config` and `ConfigFile`: `WorldWipeConfig`. This covers reading values out of the YAML tree,
  `ensureDefaults`, `resolve`, `buildYamlMap` and its read-back, `ensureHeader`,
  `findYamlBodyOffset` and `buildHeader`.
- `ScheduleSet`: the `/wipe schedule set` command. It resolves its arguments, with the mode
  fallback and the argument shift, and then calls the plugin.
- `Permissions`: the permission strings and the rules that read them.
- `Dashboard`: the static helpers of the dashboard UI, namely the option lists, input clean-up
  and the lenient parsers.
- `JavaText`: the JDK string and integer operations used above (`trim`, `isBlank`, case
  mapping, `Integer.parseInt`).

The outside world is a parameter. `Env` holds:

- the server's `Universe` (which worlds are loaded or loadable, and the default world);
- whether evacuating or deleting a world fails;
- the clock: the instant now, and the wall time in each zone;
- a `TimeLibrary` that stands for `LocalTime.parse`, `ZoneId.of`, `Instant.parse` and their
  `toString`.

## Model

Paths are relative to the repository root.

| member | source | states |
|---|---|---|
| JavaText.ParseInt | src/main/java/no/sdev/worldwipe/config/WorldWipeConfig.java:500-516 | Integer.parseInt succeeds exactly on one optional sign followed by at least one decimal digit whose signed value is in the 32-bit range, and gives that signed value |
| JavaText.ParseIntToString | src/main/java/no/sdev/worldwipe/config/WorldWipeConfig.java:500-516 | parseInt reads back every 32-bit integer from its decimal text |
| JavaText.IntValue | src/main/java/no/sdev/worldwipe/config/WorldWipeConfig.java:500-516 | Number.intValue keeps the low 32 bits as a signed int, so it is the identity on the int range |
| JavaText.TrimShape | src/main/java/no/sdev/worldwipe/ui/WorldWipeDashboardUI.java:1433-1439 | trim yields the infix without characters at or below U+0020 at either end, dropping only such characters |
| JavaText.TrimIdempotent | src/main/java/no/sdev/worldwipe/ui/WorldWipeDashboardUI.java:1433-1439 | trimming twice is trimming once |
| JavaText.StripLeadingShape | src/main/java/no/sdev/worldwipe/config/WorldWipeConfig.java:164-172 | stripLeading keeps an end part that does not start with whitespace and drops only whitespace |
| Calendar.MonthLength | src/main/java/no/sdev/worldwipe/WorldWipePlugin.java:599-603 | lengthOfMonth is 28 to 31, with 29 days in February of a leap year |
| Calendar.PlusMonths | src/main/java/no/sdev/worldwipe/WorldWipePlugin.java:705-709 | plusMonths lands in the month n months away on the same day, clamped to that month's length |
| Calendar.WithDayOfMonth | src/main/java/no/sdev/worldwipe/WorldWipePlugin.java:699-704 | withDayOfMonth keeps the year and month and sets the day |
| Calendar.DayOfWeekValue | src/main/java/no/sdev/worldwipe/WorldWipePlugin.java:725-726 | getDayOfWeek().getValue() is 1 (Monday) to 7, and 1970-01-01 is a Thursday |
| Calendar.PlusDays | src/main/java/no/sdev/worldwipe/WorldWipePlugin.java:728 | plusDays moves the epoch day forward by n and keeps the date valid |
| Calendar.MinusDays | src/main/java/no/sdev/worldwipe/WorldWipePlugin.java:633 | minusDays moves the epoch day back by n and keeps the date valid |
| Calendar.EpochDayInjective | src/main/java/no/sdev/worldwipe/WorldWipePlugin.java:669-740 | valid dates are determined by their epoch day |
| Calendar.IsAfterSameZone | src/main/java/no/sdev/worldwipe/WorldWipePlugin.java:594 | within one zone isAfter is the lexicographic order on date and time of day |
| Occurrence.ModeNamed | src/main/java/no/sdev/worldwipe/commands/ScheduleSetSubCommand.java:190-200 | ScheduleMode.valueOf finds a constant only by its exact name |
| Occurrence.ModeNamedName | src/main/java/no/sdev/worldwipe/commands/ScheduleSetSubCommand.java:190-200 | valueOf finds every mode by its name |
| Occurrence.WeekdayNamed | src/main/java/no/sdev/worldwipe/commands/ScheduleSetSubCommand.java:167-176 | DayOfWeek.valueOf finds a day only by its exact name |
| Occurrence.WeekdayNamedName | src/main/java/no/sdev/worldwipe/commands/ScheduleSetSubCommand.java:167-176 | valueOf finds every day by its name |
| Occurrence.TargetDay | src/main/java/no/sdev/worldwipe/WorldWipePlugin.java:600 | the requested date is clamped into 1..31 |
| Occurrence.ResolvedDay | src/main/java/no/sdev/worldwipe/WorldWipePlugin.java:600-602 | the date is clamped to the month's length, so it is a day of that month |
| Occurrence.PreviousDaily | src/main/java/no/sdev/worldwipe/WorldWipePlugin.java:588-598 | the DAILY candidate today at the time, or yesterday when that is after now |
| Occurrence.PreviousMonthly | src/main/java/no/sdev/worldwipe/WorldWipePlugin.java:599-621 | the MONTHLY candidate this month, or the month before when that is after now |
| Occurrence.PreviousWeekly | src/main/java/no/sdev/worldwipe/WorldWipePlugin.java:622-640 | the WEEKLY candidate back to the weekday, a week further back when that is after now |
| Occurrence.NextDaily | src/main/java/no/sdev/worldwipe/WorldWipePlugin.java:684-694 | the DAILY candidate today at the time, or tomorrow when that is not after now |
| Occurrence.NextMonthly | src/main/java/no/sdev/worldwipe/WorldWipePlugin.java:695-717 | the MONTHLY candidate this month, or next month when that is not after now |
| Occurrence.NextWeekly | src/main/java/no/sdev/worldwipe/WorldWipePlugin.java:718-735 | the WEEKLY candidate ahead to the weekday, a week further when that is not after now |
| Occurrence.WeekdayAhead | src/main/java/no/sdev/worldwipe/WorldWipePlugin.java:725-728 | going ahead (v - w) mod 7 days from weekday w reaches weekday v |
| Occurrence.WeekdayBack | src/main/java/no/sdev/worldwipe/WorldWipePlugin.java:629-633 | going back (w - v) mod 7 days from weekday w reaches weekday v |
| Occurrence.MonthlyDateUnique | src/main/java/no/sdev/worldwipe/WorldWipePlugin.java:695-717 | a MONTHLY schedule has one occurrence date per month |
| Occurrence.NextDailyIsAfterNow | src/main/java/no/sdev/worldwipe/WorldWipePlugin.java:684-694 | the next DAILY occurrence is at the time of day and strictly after now |
| Occurrence.NextDailyIsEarliest | src/main/java/no/sdev/worldwipe/WorldWipePlugin.java:684-694 | no DAILY occurrence lies strictly between now and the next one |
| Occurrence.PreviousDailyIsNotAfterNow | src/main/java/no/sdev/worldwipe/WorldWipePlugin.java:588-598 | the previous DAILY occurrence is at the time of day and not after now |
| Occurrence.PreviousDailyIsLatest | src/main/java/no/sdev/worldwipe/WorldWipePlugin.java:588-598 | no DAILY occurrence at or before now is after the previous one |
| Occurrence.DailyWindow | src/main/java/no/sdev/worldwipe/WorldWipePlugin.java:588-598 | a DAILY schedule is due at most a day ahead and was due less than a day ago |
| Occurrence.NextWeeklyIsAfterNow | src/main/java/no/sdev/worldwipe/WorldWipePlugin.java:718-735 | the next WEEKLY occurrence falls on the requested weekday, at the time, strictly after now |
| Occurrence.NextWeeklyWithinWeek | src/main/java/no/sdev/worldwipe/WorldWipePlugin.java:718-735 | the next WEEKLY occurrence is within a week, and a whole week ahead only when today's slot has passed |
| Occurrence.NextWeeklyIsEarliest | src/main/java/no/sdev/worldwipe/WorldWipePlugin.java:718-735 | no WEEKLY occurrence lies strictly between now and the next one |
| Occurrence.PreviousWeeklyIsNotAfterNow | src/main/java/no/sdev/worldwipe/WorldWipePlugin.java:622-640 | the previous WEEKLY occurrence falls on the weekday, at the time, and not after now |
| Occurrence.PreviousWeeklyWithinWeek | src/main/java/no/sdev/worldwipe/WorldWipePlugin.java:622-640 | the previous WEEKLY occurrence is within a week back, and a whole week back only when today's slot is still ahead |
| Occurrence.PreviousWeeklyIsLatest | src/main/java/no/sdev/worldwipe/WorldWipePlugin.java:622-640 | no WEEKLY occurrence at or before now is after the previous one |
| Occurrence.WeeklyWindow | src/main/java/no/sdev/worldwipe/WorldWipePlugin.java:622-640 | a WEEKLY schedule is due at most a week ahead and was due less than a week ago |
| Occurrence.NextMonthlyIsAfterNow | src/main/java/no/sdev/worldwipe/WorldWipePlugin.java:695-717 | the next MONTHLY occurrence is on the clamped date of its month, strictly after now |
| Occurrence.NextMonthlyIsEarliest | src/main/java/no/sdev/worldwipe/WorldWipePlugin.java:695-717 | no MONTHLY occurrence lies strictly between now and the next one |
| Occurrence.PreviousMonthlyIsNotAfterNow | src/main/java/no/sdev/worldwipe/WorldWipePlugin.java:599-621 | the previous MONTHLY occurrence is on the clamped date of its month, not after now |
| Occurrence.PreviousMonthlyIsLatest | src/main/java/no/sdev/worldwipe/WorldWipePlugin.java:599-621 | no MONTHLY occurrence at or before now is after the previous one |
| Occurrence.NextOccurrenceIsAfterNow | src/main/java/no/sdev/worldwipe/WorldWipePlugin.java:669-740 | calculateNextOccurrence gives an occurrence of the schedule strictly after now |
| Occurrence.NextOccurrenceIsEarliest | src/main/java/no/sdev/worldwipe/WorldWipePlugin.java:669-740 | calculateNextOccurrence gives the earliest occurrence after now |
| Occurrence.PreviousOccurrenceIsNotAfterNow | src/main/java/no/sdev/worldwipe/WorldWipePlugin.java:573-645 | calculatePreviousOccurrence gives an occurrence of the schedule at or before now |
| Occurrence.PreviousOccurrenceIsLatest | src/main/java/no/sdev/worldwipe/WorldWipePlugin.java:573-645 | calculatePreviousOccurrence gives the latest occurrence at or before now |
| Occurrence.WeeklyFromWednesdayExample | src/main/java/no/sdev/worldwipe/WorldWipePlugin.java:60-62 | on a Wednesday at 10:00 the default schedule (WEEKLY, Monday 06:00) was due two days earlier and is next due five days later |
| Occurrence.MonthlyClampExample | src/main/java/no/sdev/worldwipe/WorldWipePlugin.java:599-621 | MONTHLY on the 31st in February 1970 occurs on the 28th, and the previous occurrence is January 31st |
| Config.GetAt | src/main/java/no/sdev/worldwipe/config/WorldWipeConfig.java:354-395 | Map.get finds the entry under a key |
| Config.GetMissing | src/main/java/no/sdev/worldwipe/config/WorldWipeConfig.java:354-395 | Map.get of an absent key is null |
| Config.ParseBooleanValue | src/main/java/no/sdev/worldwipe/config/WorldWipeConfig.java:480-498 | a Boolean passes through; a text counts when it trims to "true" or "false" in any case; anything else is absent |
| Config.BlankIsNoWord | src/main/java/no/sdev/worldwipe/config/WorldWipeConfig.java:480-498 | blank text never spells "true" or "false" |
| Config.ParseBoolean | src/main/java/no/sdev/worldwipe/config/WorldWipeConfig.java:472-478 | the primary value when it parses, otherwise the fallback |
| Config.ParseIntValue | src/main/java/no/sdev/worldwipe/config/WorldWipeConfig.java:500-516 | a number's intValue wrapped to 32 bits; null is absent; any other value is Integer.parseInt of its trimmed text, so blank and malformed text are absent |
| Config.DayOfMonthOf | src/main/java/no/sdev/worldwipe/config/WorldWipeConfig.java:425-436 | a number's intValue, else the trimmed text parsed as an int; null and text that does not parse keep the given default, exactly as ParseIntValue with that default |
| Config.ParseSchedule | src/main/java/no/sdev/worldwipe/config/WorldWipeConfig.java:414-446 | a non-map gives the default schedule (WEEKLY, MONDAY, 1, "06:00", "system"); in a map a present mode, day, time or zone is its untrimmed toString and an absent one keeps its default, and the day of month is the parsed int or 1 |
| Config.LastWipeOf | src/main/java/no/sdev/worldwipe/config/WorldWipeConfig.java:397-412 | the stored last wipe is present exactly when the value is not null and its trimmed text is not blank, and it is that trimmed text |
| Config.ParseWorldEntry | src/main/java/no/sdev/worldwipe/config/WorldWipeConfig.java:397-412 | a non-map gives the default entry; a map gives the parsed schedule, the parsed regeneration Boolean and the stored last wipe of its own fields |
| Config.ParseStringList | src/main/java/no/sdev/worldwipe/config/WorldWipeConfig.java:448-470 | null is absent; a list gives its elements' trimmed, non-blank texts in first-seen order without repeats, and any other value is read as a one-element list; nothing kept is absent |
| Config.DistinctTextsUnique | src/main/java/no/sdev/worldwipe/config/WorldWipeConfig.java:448-470 | the texts parseStringList keeps are distinct |
| Config.DistinctTextsMembers | src/main/java/no/sdev/worldwipe/config/WorldWipeConfig.java:448-470 | a text is kept exactly when some element's trimmed text is that text |
| Config.DistinctTextsPrefix | src/main/java/no/sdev/worldwipe/config/WorldWipeConfig.java:448-470 | first-seen order: the texts of a prefix of the list are a prefix of all the texts |
| Config.DistinctTextsAllKept | src/main/java/no/sdev/worldwipe/config/WorldWipeConfig.java:448-470 | when all elements are kept and distinct, they are all kept in order |
| Config.StringListOfShape | src/main/java/no/sdev/worldwipe/config/WorldWipeConfig.java:448-470 | every returned text is trimmed and non-blank, the list is never empty, no text repeats, and membership matches the elements |
| Config.Defaulted | src/main/java/no/sdev/worldwipe/config/WorldWipeConfig.java:95-120 | ensureDefaults makes every field non-null: a null or empty protected list becomes ["default"], null switches become false, false, true and true, null max days 90, a null or blank mode "ALL" and null worlds an empty map |
| Config.DefaultedKeepsAndSettles | src/main/java/no/sdev/worldwipe/config/WorldWipeConfig.java:95-120 | ensureDefaults keeps every usable field, and a second application changes nothing |
| Config.Resolve | src/main/java/no/sdev/worldwipe/config/WorldWipeConfig.java:333-352 | null reads as false for scheduling and regeneration, true for the two tracking switches, 90 days, mode "ALL", ["default"] and no worlds |
| Config.ResolveAfterDefaults | src/main/java/no/sdev/worldwipe/config/WorldWipeConfig.java:333-352 | resolving after ensureDefaults differs from resolving before only for an empty protected list and a blank mode |
| Config.Lookup | src/main/java/no/sdev/worldwipe/config/WorldWipeConfig.java:380-392 | Map.get on the worlds map: the entry under the name, if any |
| Config.Put | src/main/java/no/sdev/worldwipe/config/WorldWipeConfig.java:380-392 | LinkedHashMap.put keeps a present key's position and appends a new one |
| Config.PutNames | src/main/java/no/sdev/worldwipe/config/WorldWipeConfig.java:380-392 | after put the names are the old ones and the new one |
| Config.PutLookup | src/main/java/no/sdev/worldwipe/config/WorldWipeConfig.java:380-392 | after put the key maps to the new entry and every other key is untouched |
| Config.ParseWorlds | src/main/java/no/sdev/worldwipe/config/WorldWipeConfig.java:380-392 | fromMap's loop over the worlds map, proved equal to the function that specifies it |
| Config.WorldsOfUnique | src/main/java/no/sdev/worldwipe/config/WorldWipeConfig.java:380-392 | the parsed worlds have distinct names |
| Config.WorldsOfNames | src/main/java/no/sdev/worldwipe/config/WorldWipeConfig.java:380-392 | a world is present exactly when some non-null key has that non-blank text |
| Config.WorldsOfLastWins | src/main/java/no/sdev/worldwipe/config/WorldWipeConfig.java:380-392 | a world keeps the entry of the last key naming it |
| Config.ProtectedRoundTrip | src/main/java/no/sdev/worldwipe/config/WorldWipeConfig.java:203-253 | the protected list as written reads back as itself, or ["default"] for none |
| Config.ScheduleRoundTrip | src/main/java/no/sdev/worldwipe/config/WorldWipeConfig.java:255-264 | buildScheduleMap's map reads back as the schedule |
| Config.EntryRoundTrip | src/main/java/no/sdev/worldwipe/config/WorldWipeConfig.java:203-253 | a canonical world entry survives writing and reading back |
| Config.WorldsRoundTrip | src/main/java/no/sdev/worldwipe/config/WorldWipeConfig.java:203-253 | a canonical worlds map survives writing and reading back |
| Config.ReadBackSwitches | src/main/java/no/sdev/worldwipe/config/WorldWipeConfig.java:203-253 | the four switches read back from buildYamlMap's tree |
| Config.ReadBackTracking | src/main/java/no/sdev/worldwipe/config/WorldWipeConfig.java:203-253 | the tracking horizon and mode read back from buildYamlMap's tree |
| Config.ReadBackProtected | src/main/java/no/sdev/worldwipe/config/WorldWipeConfig.java:203-253 | the protected list reads back from buildYamlMap's tree |
| Config.ReadBackWorlds | src/main/java/no/sdev/worldwipe/config/WorldWipeConfig.java:203-253 | the worlds read back from buildYamlMap's tree |
| Config.YamlRoundTrip | src/main/java/no/sdev/worldwipe/config/WorldWipeConfig.java:48-74 | writing a configuration and reading it back gives what ensureDefaults makes of it |
| Config.WorldWipeConfig.constructor | src/main/java/no/sdev/worldwipe/config/WorldWipeConfig.java:48-74 | a new configuration has every field null |
| Config.WorldWipeConfig.EnsureDefaults | src/main/java/no/sdev/worldwipe/config/WorldWipeConfig.java:95-120 | the fields become their defaulted values |
| Config.WorldWipeConfig.EnsureSwitchDefaults | src/main/java/no/sdev/worldwipe/config/WorldWipeConfig.java:96-109 | the protected list and the three switches are defaulted, the rest untouched |
| Config.WorldWipeConfig.EnsureTrackingDefaults | src/main/java/no/sdev/worldwipe/config/WorldWipeConfig.java:110-119 | the tracking settings and the worlds are defaulted, the rest untouched |
| Config.WorldWipeConfig.ResolveConfig | src/main/java/no/sdev/worldwipe/config/WorldWipeConfig.java:333-352 | resolve reads the fields as Config.Resolve says |
| Config.FromMap | src/main/java/no/sdev/worldwipe/config/WorldWipeConfig.java:354-395 | fromMap fills a new configuration from the root map and defaults it |
| ConfigFile.PadRight | src/main/java/no/sdev/worldwipe/config/WorldWipeConfig.java:325-331 | null reads as "", and shorter text is filled with spaces up to the width |
| ConfigFile.HeaderShape | src/main/java/no/sdev/worldwipe/config/WorldWipeConfig.java:292-323 | every row of the banner box is as wide as its edges, and the header ends with a line break and has no carriage return |
| ConfigFile.BannerLinesFit | src/main/java/no/sdev/worldwipe/config/WorldWipeConfig.java:292-323 | no banner line is wider than the box |
| ConfigFile.ConfigHeaderShape | src/main/java/no/sdev/worldwipe/config/WorldWipeConfig.java:27-36 | CONFIG_HEADER has no carriage return and ends with a line break |
| ConfigFile.BuildHeaderText | src/main/java/no/sdev/worldwipe/config/WorldWipeConfig.java:292-323 | buildHeader's loop appends the edge, one row per line in order, the edge again and an empty line |
| ConfigFile.ReplaceCrlf | src/main/java/no/sdev/worldwipe/config/WorldWipeConfig.java:162 | each CR LF pair becomes LF, left to right without overlap |
| ConfigFile.ReplaceCrlfPrefix | src/main/java/no/sdev/worldwipe/config/WorldWipeConfig.java:162 | text without carriage returns passes unchanged |
| ConfigFile.ReplaceCrlfWindows | src/main/java/no/sdev/worldwipe/config/WorldWipeConfig.java:162 | a file with Windows line endings comes out with no carriage return |
| ConfigFile.JoinSplitLines | src/main/java/no/sdev/worldwipe/config/WorldWipeConfig.java:181 | split("\n", -1) loses nothing: joining the pieces with line breaks gives the text back, empty pieces included |
| ConfigFile.LineAt | src/main/java/no/sdev/worldwipe/config/WorldWipeConfig.java:181-190 | line k of the split starts the text or follows a line break, and is the text from there up to the next line break |
| ConfigFile.FindYamlBodyOffset | src/main/java/no/sdev/worldwipe/config/WorldWipeConfig.java:177-192 | the loop computes BodyOffset: the start of the first line that is neither blank nor a comment, or -1 |
| ConfigFile.BodyOffsetShape | src/main/java/no/sdev/worldwipe/config/WorldWipeConfig.java:177-192 | a non-negative offset is the start of a line inside the content and that line is a body line; -1 exactly for blank content or when every line is blank or a comment |
| ConfigFile.KeptBodyShape | src/main/java/no/sdev/worldwipe/config/WorldWipeConfig.java:164-172 | the kept body is an end part that does not start with whitespace, with only whitespace before it |
| ConfigFile.EnsureHeaderShape | src/main/java/no/sdev/worldwipe/config/WorldWipeConfig.java:146-175 | the file is left alone exactly when it starts with the header; otherwise it becomes the header and the kept body |
| ConfigFile.EnsureHeaderWithIdempotent | src/main/java/no/sdev/worldwipe/config/WorldWipeConfig.java:146-175 | running ensureHeader on its own output leaves the file alone |
| ConfigFile.EnsureHeaderIdempotent | src/main/java/no/sdev/worldwipe/config/WorldWipeConfig.java:146-175 | a second ensureHeader with CONFIG_HEADER leaves the file alone |
| Registry.IsProtectedWorldIff | src/main/java/no/sdev/worldwipe/WorldWipePlugin.java:1473-1483 | a world is protected exactly when some entry equals it ignoring case |
| Registry.IsProtectedWorldIgnoresCase | src/main/java/no/sdev/worldwipe/WorldWipePlugin.java:1473-1483 | names that differ only in case are protected alike |
| Registry.PrimaryProtectedWorld | src/main/java/no/sdev/worldwipe/WorldWipePlugin.java:222-233 | "default" for an empty list, else the first entry equal to "default" ignoring case, else the first entry |
| Registry.PrimaryIsDefaultIff | src/main/java/no/sdev/worldwipe/WorldWipePlugin.java:222-233 | the primary world is "default" ignoring case exactly when some entry is |
| Registry.NormalizeProtectedWorlds | src/main/java/no/sdev/worldwipe/WorldWipePlugin.java:1407-1426 | the loop keeps each trimmed, non-blank name not already kept (exact comparison, as the LinkedHashSet does) in first-seen order, and falls back to ["default"] |
| Registry.ProtectedWorldsOfShape | src/main/java/no/sdev/worldwipe/WorldWipePlugin.java:1407-1426 | the normalised list is never empty and has no exact repeats; a name is in it exactly when it is the trimmed form of a non-blank given name, or it is "default" and nothing was kept |
| Registry.ResolveScheduleSpec | src/main/java/no/sdev/worldwipe/WorldWipePlugin.java:1485-1559 | each field falls back on its own: mode, day, time and zone are read as ModeOf, DayOf, TimeOf and ZoneOf say; the day of month is kept when it is in 1..31 and becomes 1 otherwise |
| Registry.ModeOf | src/main/java/no/sdev/worldwipe/WorldWipePlugin.java:1493-1503 | blank text or text whose trimmed upper-case form names no mode gives WEEKLY; otherwise the mode of that name |
| Registry.DayOf | src/main/java/no/sdev/worldwipe/WorldWipePlugin.java:1504-1514 | blank text or text whose trimmed upper-case form names no day gives MONDAY; otherwise the day of that name |
| Registry.TimeOf | src/main/java/no/sdev/worldwipe/WorldWipePlugin.java:1528-1538 | blank text or trimmed text that does not parse gives 06:00; otherwise the parsed time |
| Registry.ZoneOf | src/main/java/no/sdev/worldwipe/WorldWipePlugin.java:1540-1555 | blank text, "system" in any case, or an unknown zone id gives the system zone; otherwise the named zone |
| Registry.DefaultScheduleResolves | src/main/java/no/sdev/worldwipe/WorldWipePlugin.java:1485-1559 | the default schedule resolves to WEEKLY, MONDAY, day 1, 06:00, system zone |
| Registry.StoredDayOfMonth | src/main/java/no/sdev/worldwipe/WorldWipePlugin.java:971-975 | updateWorldSchedule stores 1 for a missing day of month or one outside 1..31 |
| Registry.WrittenScheduleResolves | src/main/java/no/sdev/worldwipe/WorldWipePlugin.java:951-1001 | a schedule as updateWorldSchedule writes it resolves back to its mode, day, date and time |
| Registry.NormalizeWorldSchedules | src/main/java/no/sdev/worldwipe/WorldWipePlugin.java:1428-1471 | the loop builds one schedule per trimmed, non-blank, unprotected world not seen before |
| Registry.SchedulesOfShape | src/main/java/no/sdev/worldwipe/WorldWipePlugin.java:1428-1471 | the schedules' worlds are trimmed, not blank, not protected and pairwise distinct |
| Registry.SchedulesOfCovers | src/main/java/no/sdev/worldwipe/WorldWipePlugin.java:1428-1471 | a trimmed, non-blank, unprotected name gets a schedule exactly when some key trims to it |
| Registry.ResetWorlds | src/main/java/no/sdev/worldwipe/WorldWipePlugin.java:235-247 | getResetWorlds lists the schedules' non-blank worlds in order |
| Registry.RegenerateOverridesLast | src/main/java/no/sdev/worldwipe/WorldWipePlugin.java:1207-1226 | an entry's override is in the map when no later entry with its key has one |
| Registry.RegenerateOverridesMissing | src/main/java/no/sdev/worldwipe/WorldWipePlugin.java:1207-1226 | a key without an override is not in the map |
| Registry.ResolveWorldRegenerateMap | src/main/java/no/sdev/worldwipe/WorldWipePlugin.java:1207-1226 | the loop puts each override under its world's lower-cased key |
| Registry.ShouldRegenerateWorld | src/main/java/no/sdev/worldwipe/WorldWipePlugin.java:1252-1258 | the world's override when there is one, else the global flag |
| Registry.ShouldRegenerateIgnoresCase | src/main/java/no/sdev/worldwipe/WorldWipePlugin.java:1252-1258 | names that differ in case or surrounding spaces get the same answer |
| Registry.ResolveWorldLastWipeMap | src/main/java/no/sdev/worldwipe/WorldWipePlugin.java:1228-1250 | the loop puts each parsable last wipe under its world's key |
| Registry.LastWipesFrom | src/main/java/no/sdev/worldwipe/WorldWipePlugin.java:1228-1250 | a key in the map comes from an entry whose last wipe parses to the stored instant, with no later parsable entry for that key |
| Registry.LastWipeInstant | src/main/java/no/sdev/worldwipe/WorldWipePlugin.java:1260-1265 | getLastWipeInstant looks up the world's lower-cased key, and blank names have none |
| Registry.RemovalKeys | src/main/java/no/sdev/worldwipe/WorldWipePlugin.java:1031-1050 | the names to remove are the trimmed, non-blank names, lower-cased, in order |
| Registry.KeptEntriesMembers | src/main/java/no/sdev/worldwipe/WorldWipePlugin.java:1052-1070 | an entry stays exactly when it does not match a removed name |
| Registry.KeptEntriesAll | src/main/java/no/sdev/worldwipe/WorldWipePlugin.java:1052-1070 | nothing is removed exactly when no entry matches |
| Registry.RemoveMatchingEntries | src/main/java/no/sdev/worldwipe/WorldWipePlugin.java:1052-1070 | the iterator loop drops every matching entry and reports whether it dropped one |
| Offline.TrackingModeOfIff | src/main/java/no/sdev/worldwipe/WorldWipePlugin.java:1561-1570 | "RESET_WORLD_ONLY" in any case and with spaces selects that mode; every other text selects ALL |
| Offline.TrackingModeOfName | src/main/java/no/sdev/worldwipe/WorldWipePlugin.java:1561-1570 | a mode's own name selects it |
| Offline.PrunedShape | src/main/java/no/sdev/worldwipe/WorldWipePlugin.java:1572-1587 | pruning keeps exactly the entries at or after the cutoff, with their values |
| Offline.PrunedTwice | src/main/java/no/sdev/worldwipe/WorldWipePlugin.java:1572-1587 | pruning twice is pruning once with the later cutoff |
| Offline.RemoveBefore | src/main/java/no/sdev/worldwipe/WorldWipePlugin.java:1572-1587 | removeIf over the entries, proved equal to the pruned map |
| Offline.OfflineLastWipe | src/main/java/no/sdev/worldwipe/WorldWipePlugin.java:1589-1603 | of the two stores' entries under the world's key, the later one; none for a blank name or no entry |
| Offline.RecordedWipeSeen | src/main/java/no/sdev/worldwipe/WorldWipePlugin.java:1605-1612 | after recording, the world's last wipe is at least the recorded instant |
| Offline.MergeOneShape | src/main/java/no/sdev/worldwipe/WorldWipePlugin.java:1614-1632 | one merge keeps every entry at a value no earlier and puts the later instant under the lower-cased key |
| Offline.MergeOneCommutes | src/main/java/no/sdev/worldwipe/WorldWipePlugin.java:1614-1632 | two merges give the same map in either order |
| Offline.MergeAllAnyOrder | src/main/java/no/sdev/worldwipe/WorldWipePlugin.java:1614-1632 | the map's iteration order does not matter |
| Offline.MergeInto | src/main/java/no/sdev/worldwipe/WorldWipePlugin.java:1614-1632 | the loop merges every incoming entry |
| Offline.MergeAllShape | src/main/java/no/sdev/worldwipe/WorldWipePlugin.java:1614-1632 | after merging, every incoming non-blank key is present at its instant or later, and nothing else is added |
| Offline.ConnectRedirectIff | src/main/java/no/sdev/worldwipe/WorldWipePlugin.java:249-298 | a joining player is redirected exactly when tracking is on, the world is an unprotected reset world wiped since they were last seen, and a different destination exists |
| Selection.OccurrenceInstantsAroundNow | src/main/java/no/sdev/worldwipe/WorldWipePlugin.java:803-812 | a schedule's previous instant is not after its zone's now, and its next instant is after it |
| Selection.Destination | src/main/java/no/sdev/worldwipe/WorldWipePlugin.java:437-447 | the primary protected world when it is loaded, else the default world |
| Selection.UnreachableWorldsMembers | src/main/java/no/sdev/worldwipe/WorldWipePlugin.java:754-765 | a world is pruned exactly when some schedule of it is neither loaded, loadable nor regenerated |
| Selection.CollectUnreachable | src/main/java/no/sdev/worldwipe/WorldWipePlugin.java:754-765 | the first loop collects the unreachable worlds |
| Selection.EarliestIsMinimum | src/main/java/no/sdev/worldwipe/WorldWipePlugin.java:788-821 | the accumulator holds the minimum instant and exactly the worlds due then, in order; it is empty only for no candidates |
| Selection.FindEarliest | src/main/java/no/sdev/worldwipe/WorldWipePlugin.java:788-821 | the second loop computes that accumulator over the reachable schedules |
| Selection.DelayMillisBounds | src/main/java/no/sdev/worldwipe/WorldWipePlugin.java:830-831 | the delay is never negative, zero for a past instant, and otherwise the whole milliseconds until it |
| Selection.MissedMeansOccurrencePassed | src/main/java/no/sdev/worldwipe/WorldWipePlugin.java:503-528 | a world is missed only if an occurrence passed after its last wipe |
| Selection.MissedWorldsMembers | src/main/java/no/sdev/worldwipe/WorldWipePlugin.java:503-528 | a world is caught up exactly when one of its schedules is missed |
| Selection.CollectMissed | src/main/java/no/sdev/worldwipe/WorldWipePlugin.java:503-528 | the loop collects the missed worlds |
| WipeState.Enqueued | src/main/java/no/sdev/worldwipe/WorldWipePlugin.java:536-571 | the step for worlds[index] is queued when there is one, and nothing happens otherwise |
| WipeState.RereadWritable | src/main/java/no/sdev/worldwipe/config/WorldWipeConfig.java:48-74 | a written configuration reads back as its defaulted self |
| WipeState.PruneIfEnabled | src/main/java/no/sdev/worldwipe/WorldWipePlugin.java:1572-1587 | nothing is pruned when tracking is off or the horizon is not positive; otherwise entries before now minus the horizon go |
| WipeState.SettingsFrom | src/main/java/no/sdev/worldwipe/WorldWipePlugin.java:1170-1180 | the loaded protected list is never empty and the horizon is never negative |
| WipeState.Loaded | src/main/java/no/sdev/worldwipe/WorldWipePlugin.java:1165-1205 | loadConfig changes only the settings and the tracking maps, and the settings are those of the stored configuration |
| WipeState.Recorded | src/main/java/no/sdev/worldwipe/WorldWipePlugin.java:1605-1612 | recordWorldWipe changes only the offline world map |
| WipeState.Rearmed | src/main/java/no/sdev/worldwipe/WorldWipePlugin.java:742-850 | scheduleNextAutomaticWipe changes only the timer, the stored configuration, the settings and the tracking, and arms the timer from what is left |
| WipeState.RemovedSchedules | src/main/java/no/sdev/worldwipe/WorldWipePlugin.java:1031-1089 | nothing changes when nothing was removed, and only the timer, stored configuration, settings and tracking can change |
| WipeState.WorldScheduleRemoved | src/main/java/no/sdev/worldwipe/WorldWipePlugin.java:1091-1096 | nothing changes when nothing was removed |
| WipeState.UpdatedLastWipe | src/main/java/no/sdev/worldwipe/WorldWipePlugin.java:1267-1294 | nothing changes when the world is not configured, and only the configuration-derived state can change |
| WipeState.Succeeded | src/main/java/no/sdev/worldwipe/WorldWipePlugin.java:1356-1380 | after a deletion the flag and the queue are untouched |
| WipeState.ScheduledEntry | src/main/java/no/sdev/worldwipe/WorldWipePlugin.java:976-992 | the stored entry has the new schedule, keeps the override and the last wipe, and gets now as last wipe when it had none |
| WipeState.Disconnected | src/main/java/no/sdev/worldwipe/WorldWipePlugin.java:338-372 | a disconnect changes only the player map |
| WipeStateFacts.ExecutedWipeShape | src/main/java/no/sdev/worldwipe/WorldWipePlugin.java:449-491 | a cleanup starts exactly when the world is eligible and either evacuation succeeds or an unloaded world is regenerated or loadable; a failed evacuation throws; the flag is untouched |
| WipeStateFacts.ExecutedAllShape | src/main/java/no/sdev/worldwipe/WorldWipePlugin.java:410-430 | the tick's loop only appends first cleanup attempts, and reports a start exactly when it appended one |
| WipeStateFacts.TickedShape | src/main/java/no/sdev/worldwipe/WorldWipePlugin.java:394-435 | a tick while a wipe runs changes nothing; otherwise it only queues first attempts and holds the flag exactly when it queued one |
| WipeStateFacts.CleanedUpShape | src/main/java/no/sdev/worldwipe/WorldWipePlugin.java:1313-1405 | the cleanup always frees the flag; a failed attempt below 15 queues the next attempt, and a later failure gives up |
| WipeStateFacts.MissedSteppedShape | src/main/java/no/sdev/worldwipe/WorldWipePlugin.java:536-571 | a catch-up step does nothing with scheduling off, re-queues itself while a wipe runs, and otherwise wipes and queues the next index |
| WipeStateFacts.WipedNowShape | src/main/java/no/sdev/worldwipe/WorldWipePlugin.java:867-913 | wipeWorldNow refuses blank names and a running wipe without change, starts a cleanup for a loaded eligible world, and otherwise refuses with the flag left taken |
| WipeStateFacts.ProtectedRefusalBlocksWipes | src/main/java/no/sdev/worldwipe/WorldWipePlugin.java:879-884 | after refusing a protected world the flag stays taken, so no tick, catch-up step or manual wipe proceeds |
| WipeStateFacts.ArmedTimerShape | src/main/java/no/sdev/worldwipe/WorldWipePlugin.java:774-850 | the timer is empty when scheduling is off or nothing is reachable; otherwise it is set to the minimum next instant for exactly the worlds due then |
| WipeStateFacts.TrackingLoadedShape | src/main/java/no/sdev/worldwipe/WorldWipePlugin.java:1182-1195 | with tracking off both maps are cleared; otherwise entries are kept exactly within the horizon and every configured last wipe within it is merged in |
| WipeStateFacts.DisconnectedShape | src/main/java/no/sdev/worldwipe/WorldWipePlugin.java:338-372 | a tracked player's last-seen becomes now and nothing else changes; an untracked disconnect changes nothing |
| WipeStateFacts.RecordedSeen | src/main/java/no/sdev/worldwipe/WorldWipePlugin.java:1605-1612 | after recording a wipe within the horizon, the world's offline last wipe is at least that instant |
| WipeStateFacts.UpdatedLastWipeShape | src/main/java/no/sdev/worldwipe/WorldWipePlugin.java:1267-1294 | the update happens exactly for a configured non-blank world, writes its last wipe, and leaves other worlds alone |
| WipeStateFacts.WorldsWithScheduleShape | src/main/java/no/sdev/worldwipe/WorldWipePlugin.java:951-1001 | the written entry resolves to the requested schedule, keeps the override and last wipe, and other worlds are untouched |
| WipeStateFacts.StepRunOk | src/main/java/no/sdev/worldwipe/WorldWipePlugin.java:1313-1405 | running a queued step keeps retries numbered at most 15 and catch-up indices inside their list |
| WipeStateFacts.CaughtUpOk | src/main/java/no/sdev/worldwipe/WorldWipePlugin.java:493-534 | catchUpMissedWipes keeps retries numbered at most 15 and catch-up indices inside their list |
| WipeStateFacts.NextKeepsStepsOk | src/main/java/no/sdev/worldwipe/WorldWipePlugin.java:148-156 | every event keeps the scheduler's queue well formed |
| Plugin.WorldWipePlugin.constructor | src/main/java/no/sdev/worldwipe/WorldWipePlugin.java:127-130 | a new plugin holds the stored configuration with nothing scheduled or tracked |
| Plugin.WorldWipePlugin.PrunePlayerLastSeen | src/main/java/no/sdev/worldwipe/WorldWipePlugin.java:1572-1578 | the player map is pruned as PruneIfEnabled says and nothing else changes |
| Plugin.WorldWipePlugin.PruneOfflineWorldLastWipe | src/main/java/no/sdev/worldwipe/WorldWipePlugin.java:1580-1587 | the offline world map is pruned as PruneIfEnabled says and nothing else changes |
| Plugin.WorldWipePlugin.MergeWorldLastWipeIntoOffline | src/main/java/no/sdev/worldwipe/WorldWipePlugin.java:1614-1632 | the configured last wipes are merged into the offline map, which is then pruned |
| Plugin.WorldWipePlugin.RecordWorldWipe | src/main/java/no/sdev/worldwipe/WorldWipePlugin.java:1605-1612 | the new state is Recorded of the old |
| Plugin.WorldWipePlugin.LoadConfig | src/main/java/no/sdev/worldwipe/WorldWipePlugin.java:1165-1205 | the new state is Loaded of the old |
| Plugin.WorldWipePlugin.LoadSettings | src/main/java/no/sdev/worldwipe/WorldWipePlugin.java:1170-1180 | the settings become SettingsFrom the stored configuration and nothing else changes |
| Plugin.WorldWipePlugin.LoadTracking | src/main/java/no/sdev/worldwipe/WorldWipePlugin.java:1182-1195 | the tracking maps become TrackingLoaded of the old ones |
| Plugin.WorldWipePlugin.HandlePlayerDisconnect | src/main/java/no/sdev/worldwipe/WorldWipePlugin.java:338-372 | the new state is Disconnected of the old |
| Plugin.WorldWipePlugin.HandlePlayerConnect | src/main/java/no/sdev/worldwipe/WorldWipePlugin.java:249-298 | the redirect is ConnectRedirect of the state, and nothing changes |
| Plugin.WorldWipePlugin.RemoveWorldSchedulesInternal | src/main/java/no/sdev/worldwipe/WorldWipePlugin.java:1031-1089 | the new state and the result are RemovedSchedules of the old |
| Plugin.WorldWipePlugin.ScheduleNextAutomaticWipe | src/main/java/no/sdev/worldwipe/WorldWipePlugin.java:742-850 | the new state is Rearmed of the old |
| Plugin.WorldWipePlugin.RemoveWorldSchedule | src/main/java/no/sdev/worldwipe/WorldWipePlugin.java:1091-1096 | the new state and result are WorldScheduleRemoved of the old |
| Plugin.WorldWipePlugin.ScheduleWorldCleanup | src/main/java/no/sdev/worldwipe/WorldWipePlugin.java:1313-1320 | the cleanup step is queued and nothing else changes |
| Plugin.WorldWipePlugin.ExecuteWipeForWorld | src/main/java/no/sdev/worldwipe/WorldWipePlugin.java:449-491 | the new state and the two flags are ExecutedWipe of the old |
| Plugin.WorldWipePlugin.RunScheduledWipeTick | src/main/java/no/sdev/worldwipe/WorldWipePlugin.java:394-435 | the loop leaves the state Ticked of the old |
| Plugin.WorldWipePlugin.FireScheduledWipe | src/main/java/no/sdev/worldwipe/WorldWipePlugin.java:842-848 | the timer's task: a tick and then a rearm |
| Plugin.WorldWipePlugin.UpdateWorldLastWipe | src/main/java/no/sdev/worldwipe/WorldWipePlugin.java:1267-1294 | the new state and result are UpdatedLastWipe of the old |
| Plugin.WorldWipePlugin.RunWorldCleanup | src/main/java/no/sdev/worldwipe/WorldWipePlugin.java:1320-1405 | the new state is CleanedUp of the old |
| Plugin.WorldWipePlugin.WipeWorldNow | src/main/java/no/sdev/worldwipe/WorldWipePlugin.java:867-913 | the new state and result are WipedNow of the old |
| Plugin.WorldWipePlugin.RequestManualWipe | src/main/java/no/sdev/worldwipe/WorldWipePlugin.java:852-865 | a manual wipe is accepted exactly when no wipe is in progress |
| Plugin.WorldWipePlugin.ScheduleMissedWipeQueue | src/main/java/no/sdev/worldwipe/WorldWipePlugin.java:536-541 | the new state is Enqueued of the old |
| Plugin.WorldWipePlugin.CatchUpMissedWipes | src/main/java/no/sdev/worldwipe/WorldWipePlugin.java:493-534 | the new state is CaughtUp of the old |
| Plugin.WorldWipePlugin.RunMissedWipeStep | src/main/java/no/sdev/worldwipe/WorldWipePlugin.java:541-571 | the new state is MissedStepped of the old |
| Plugin.WorldWipePlugin.RunNextStep | src/main/java/no/sdev/worldwipe/WorldWipePlugin.java:536-571 | the scheduler runs its first queued step: the new state is StepRun of the old |
| Plugin.WorldWipePlugin.UpdateWorldSchedule | src/main/java/no/sdev/worldwipe/WorldWipePlugin.java:951-1001 | the new state and result are ScheduleUpdated of the old |
| Plugin.WorldWipePlugin.Start | src/main/java/no/sdev/worldwipe/WorldWipePlugin.java:148-156 | start loads the configuration, catches up and rearms, as the Start event of Next |
| Plugin.WorldWipePlugin.ReloadConfig | src/main/java/no/sdev/worldwipe/WorldWipePlugin.java:915-924 | reload loads the configuration and rearms, as the Reload event of Next |
| ScheduleSet.ParseMode | src/main/java/no/sdev/worldwipe/commands/ScheduleSetSubCommand.java:190-200 | WEEKLY for a missing or blank token, else only the mode named exactly by the trimmed, upper-cased token |
| ScheduleSet.ParseDay | src/main/java/no/sdev/worldwipe/commands/ScheduleSetSubCommand.java:167-176 | only a day named exactly by the trimmed, upper-cased token; none for blank |
| ScheduleSet.ParseDayOfMonth | src/main/java/no/sdev/worldwipe/commands/ScheduleSetSubCommand.java:178-188 | only a whole integer in 1..31 |
| ScheduleSet.ParseTime | src/main/java/no/sdev/worldwipe/commands/ScheduleSetSubCommand.java:202-211 | LocalTime.parse of the trimmed token, none for blank |
| ScheduleSet.ParseZone | src/main/java/no/sdev/worldwipe/commands/ScheduleSetSubCommand.java:213-224 | "system" for blank or "system" in any case; otherwise the trimmed token exactly when ZoneId.of accepts it, and None when it does not |
| ScheduleSet.ParseModeOfName | src/main/java/no/sdev/worldwipe/commands/ScheduleSetSubCommand.java:190-200 | every mode reads back from its name in either case and with surrounding spaces |
| ScheduleSet.ParseDayOfName | src/main/java/no/sdev/worldwipe/commands/ScheduleSetSubCommand.java:167-176 | every day reads back from its name in either case |
| ScheduleSet.ParseDayOfMonthOfText | src/main/java/no/sdev/worldwipe/commands/ScheduleSetSubCommand.java:178-188 | every date 1..31 reads back from its decimal text |
| ScheduleSet.Resolved | src/main/java/no/sdev/worldwipe/commands/ScheduleSetSubCommand.java:66-127 | a request names a non-blank world and a date in 1..31; a non-weekly request has day MONDAY and a non-monthly one date 1 |
| ScheduleSet.ResolveArguments | src/main/java/no/sdev/worldwipe/commands/ScheduleSetSubCommand.java:66-127 | the step-by-step reading of the arguments gives Resolved |
| ScheduleSet.UnparsableModeShiftsArguments | src/main/java/no/sdev/worldwipe/commands/ScheduleSetSubCommand.java:92-104 | an unparsable mode token reads as a missing mode, with the day, time and zone taken from the mode, day and time tokens |
| ScheduleSet.DailyReadsShiftedSlots | src/main/java/no/sdev/worldwipe/commands/ScheduleSetSubCommand.java:92-110 | a daily schedule takes its time from the day slot and its zone from the time slot, and ignores the zone slot |
| ScheduleSet.DefaultsWhenAbsent | src/main/java/no/sdev/worldwipe/commands/ScheduleSetSubCommand.java:23-25 | with only the world given, the schedule is WEEKLY on Monday at 06:00 in the system zone |
| ScheduleSet.BuildSummary | src/main/java/no/sdev/worldwipe/commands/ScheduleSetSubCommand.java:149-165 | the summary starts with the world and cadence and ends with the zone in parentheses |
| ScheduleSet.ExecuteSync | src/main/java/no/sdev/worldwipe/commands/ScheduleSetSubCommand.java:66-147 | a rejection leaves the plugin unchanged; a request updates the schedule and answers with the summary and the protected note |
| Permissions.ScheduleWorld | src/main/java/no/sdev/worldwipe/permissions/WorldWipePermissions.java:70-73 | the per-world permission is the prefix followed by the trimmed, lower-cased name |
| Permissions.Command | src/main/java/no/sdev/worldwipe/permissions/WorldWipePermissions.java:83-86 | a command permission is the prefix followed by the trimmed, lower-cased name |
| Permissions.CommandIgnoresCaseAndSpaces | src/main/java/no/sdev/worldwipe/permissions/WorldWipePermissions.java:83-86 | two names give the same command permission exactly when they agree trimmed and lower-cased |
| Permissions.ScheduleWorldIgnoresCaseAndSpaces | src/main/java/no/sdev/worldwipe/permissions/WorldWipePermissions.java:70-73 | two names give the same world permission exactly when they agree trimmed and lower-cased |
| Permissions.CanViewSchedule | src/main/java/no/sdev/worldwipe/permissions/WorldWipePermissions.java:32-43 | no holder sees nothing; an admin sees every schedule; otherwise both the schedule and the world permission are needed |
| Permissions.CanViewScheduleById | src/main/java/no/sdev/worldwipe/permissions/WorldWipePermissions.java:57-68 | the same rule asked of the permissions module for a player id |
| Permissions.ViewOverloadsAgree | src/main/java/no/sdev/worldwipe/permissions/WorldWipePermissions.java:32-68 | the holder and player-id overloads agree |
| Permissions.CanViewMonotone | src/main/java/no/sdev/worldwipe/permissions/WorldWipePermissions.java:32-43 | holding more permissions never hides a schedule |
| Dashboard.TimeOptions | src/main/java/no/sdev/worldwipe/ui/WorldWipeDashboardUI.java:1301-1308 | there are 48 time options |
| Dashboard.DateOptions | src/main/java/no/sdev/worldwipe/ui/WorldWipeDashboardUI.java:1293-1299 | there are 31 date options |
| Dashboard.BuildTimeOptions | src/main/java/no/sdev/worldwipe/ui/WorldWipeDashboardUI.java:1301-1308 | the loop yields "HH:00" and "HH:30" for every hour 00 to 23, in order |
| Dashboard.BuildDateOptions | src/main/java/no/sdev/worldwipe/ui/WorldWipeDashboardUI.java:1293-1299 | the loop yields "1" to "31" in order |
| Dashboard.TimeOptionsDistinct | src/main/java/no/sdev/worldwipe/ui/WorldWipeDashboardUI.java:1301-1308 | no two time options are the same text |
| Dashboard.DateOptionsDistinct | src/main/java/no/sdev/worldwipe/ui/WorldWipeDashboardUI.java:1293-1299 | no two date options are the same text |
| Dashboard.Sanitize | src/main/java/no/sdev/worldwipe/ui/WorldWipeDashboardUI.java:1433-1439 | none exactly for missing or blank text; otherwise the trimmed, non-blank text |
| Dashboard.SanitizeIdempotent | src/main/java/no/sdev/worldwipe/ui/WorldWipeDashboardUI.java:1433-1439 | sanitizing twice is sanitizing once |
| Dashboard.ParseBooleanInput | src/main/java/no/sdev/worldwipe/ui/WorldWipeDashboardUI.java:1366-1378 | true exactly for "true" or "1" and false exactly for "false" or "0", trimmed and in any case |
| Dashboard.ResolveOptionFromIndex | src/main/java/no/sdev/worldwipe/ui/WorldWipeDashboardUI.java:1380-1400 | index i picks options[i] for 0 <= i < n and the last option for i = n; other or non-numeric input gives none |
| Dashboard.NormalizeDropdownValue | src/main/java/no/sdev/worldwipe/ui/WorldWipeDashboardUI.java:1350-1364 | the fallback for no options or blank input; the option's own spelling on a match ignoring case; otherwise the trimmed input |
| Dashboard.MergeOption | src/main/java/no/sdev/worldwipe/ui/WorldWipeDashboardUI.java:1414-1431 | the list is unchanged for blank or present text; otherwise the trimmed text comes first, one longer; a missing list gives [] |
| Dashboard.MergeOptionIdempotent | src/main/java/no/sdev/worldwipe/ui/WorldWipeDashboardUI.java:1414-1431 | merging the same text twice is merging it once |
| Dashboard.FirstDigitRun | src/main/java/no/sdev/worldwipe/ui/WorldWipeDashboardUI.java:1513-1518 | the first match of one or two digits: the first digit, with the next character when it is a digit too |
| Dashboard.ParseDayOfMonth | src/main/java/no/sdev/worldwipe/ui/WorldWipeDashboardUI.java:1502-1522 | the result is in 1..31; a whole integer decides alone; otherwise the first one- or two-digit run decides |
| Dashboard.ParseDayOfMonthOfOption | src/main/java/no/sdev/worldwipe/ui/WorldWipeDashboardUI.java:1502-1522 | every date option reads back as its date |
| Dashboard.ParseMode | src/main/java/no/sdev/worldwipe/ui/WorldWipeDashboardUI.java:1486-1500 | blank gives WEEKLY, and a parsed mode's name is the text or occurs in it |
| Dashboard.ParseModeFirstMatch | src/main/java/no/sdev/worldwipe/ui/WorldWipeDashboardUI.java:1486-1500 | the first of WEEKLY, DAILY, MONTHLY that the upper-cased text equals or contains wins, and none when it names none |
| Dashboard.ParseDay | src/main/java/no/sdev/worldwipe/ui/WorldWipeDashboardUI.java:1464-1483 | blank text gives no day |
| Dashboard.ParseDayByIndex | src/main/java/no/sdev/worldwipe/ui/WorldWipeDashboardUI.java:1464-1470 | an index is read before any name: "0" is MONDAY, "6" is SUNDAY and "7", one past the end, is SUNDAY too |
| Dashboard.ParseDayFirstNamed | src/main/java/no/sdev/worldwipe/ui/WorldWipeDashboardUI.java:1471-1482 | text that is not an index gives the first day, Monday first, whose name it contains, and none when it contains none |

## Left out

- The scheduler is always present: the `scheduler == null` paths of `startSchedulerIfNeeded`
  and `stopScheduler` are not modelled. The executor is a queue of pending steps run one at a
  time, and the fixed 1000 ms delays between steps are not modelled.
- File I/O is not modelled. The YAML file is a tree value; `WipeState.Reread` stands for
  writing it out and loading it back. The two JSON stores (`player-last-seen.json`,
  `world-last-wipe.json`) read back as the in-memory maps they were saved from. A missing or
  unreadable file is not modelled.
- migrateLegacyConfig: moving a legacy configuration file is file I/O.
- `universe.getWorld(name).getName()` is taken to be `name`.
- The universe, the clock and the `TimeLibrary` are fixed for the length of one step.
  Deletion is one oracle per world.
- Exceptions are modelled only where a catch changes the plugin's state: the evacuation in
  `executeWipeForWorld`. Plugin.WorldWipePlugin.ReloadConfig returns false only on an
  exception, so in the model it always succeeds. Plugin.WorldWipePlugin.UpdateWorldSchedule
  returns false for a blank world name or a missing mode or time, which the model does, and
  otherwise only on an exception, which the model does not have. `ScheduleSet.ExecuteSync`
  rejects a blank world before it calls it, so in the model it never answers `UpdateFailed`.
- Asynchronous regeneration and the evacuation service's player transfers are not modelled,
  and neither are log messages.
- `LocalTime.parse`, `ZoneId.of`, `Instant.parse` and their `toString` are oracles in
  `TimeLibrary`. Zones are fixed offsets, so daylight-saving gaps and overlaps are not
  modelled.
- addProtectedWorld, removeProtectedWorld, updateSchedulingEnabled and
  updateWorldRegenerateOnWipe are not modelled. They are configuration writers of the same kind
  as `updateWorldSchedule`, which is modelled.
- Plugin.WorldWipePlugin.RemoveWorldSchedulesInternal: the loop that lower-cases the names to
  remove is modelled by the function `Registry.RemovalKeys`.
- Plugin.WorldWipePlugin.LoadSettings: the ten settings fields are grouped in one `settings`
  value, which is assigned as a whole.
- The dashboard's `parseTime` and `parseZone`, its instance code (building the page, event
  bindings, view state, BSON decoding) and `canViewAnySchedule` are not modelled.
- Config.Resolve: `resolve` copies the worlds into a `HashMap`, so the plugin then walks them
  in hash order. The model keeps them in file order (the `LinkedHashMap` that `fromMap` builds).
  Everything below that depends on this order follows file order in the model and hash order
  in the plugin.
- Registry.NormalizeWorldSchedules: the order of the schedules, and so the order of the tick
  loop (an exception in one world's wipe skips the worlds after it), the catch-up queue and
  ties between equally due worlds, is file order in the model. The same holds for which of two
  keys that trim to the same name supplies the schedule (the first one seen).
- Registry.RegenerateOverridesLast: when two keys differ only in case or surrounding spaces, the
  override kept is that of the later key in file order. The plugin keeps the later key in hash
  order.
- Registry.LastWipesFrom: the same holds for which of two such keys supplies the last wipe.
- Config.ParseIntValue: the loader's floating point numbers are not modelled, so a `Double`
  value (whose `intValue` truncates) is not covered.
- Config.DayOfMonthOf: a floating point day of month is not covered, as for
  `Config.ParseIntValue`.
- Config.ParseSchedule: a field holding a floating point number or a timestamp is not covered;
  its `toString` text is not modelled.
- Config.LastWipeOf: an unquoted ISO date or timestamp, which the loader turns into a
  `java.util.Date` whose `toString` is not ISO text, is not covered; the model reads it as the
  string it was written as.
- ConfigFile.PadRight: the width counts characters (Unicode scalar values), not UTF-16 code
  units as `String.length` does; the two differ only outside the Basic Multilingual Plane.
- ConfigFile.FindYamlBodyOffset: the offset is counted in characters, not UTF-16 code units,
  for the same reason.
- Dashboard.ParseDay: only blank text is stated on the function itself. The index rule and the
  name rule are stated by `Dashboard.ParseDayByIndex` and `Dashboard.ParseDayFirstNamed`.
- Case mapping is ASCII only, and `Integer.parseInt` accepts ASCII digits only.
