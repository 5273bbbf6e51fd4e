/**
 * ScheduleSetSubCommand: `/wipe schedule set <world> [mode] [dayOrDate] [time] [zone]`. The
 * command reads its optional arguments into the schedule it asks the plugin to write. A mode
 * token that is not a mode is read as a weekly schedule's day, and every later argument moves
 * one slot left; a daily schedule reads its time from the day slot and its zone from the time
 * slot.
 */
module ScheduleSet {
  import opened JavaText
  import opened Occurrence
  import opened Registry
  import opened Selection
  import opened Permissions
  import opened WipeState
  import opened Plugin

  const DefaultDay: Weekday := Monday
  const DefaultZone: string := "system"

  /** The command's arguments; a missing optional argument is None. */
  datatype Arguments = Arguments(world: Option<string>, modeInput: Option<string>, dayInput: Option<string>,
                                 timeInput: Option<string>, zoneInput: Option<string>)

  /** Who runs the command: a player, with the permissions it holds, or the console. */
  datatype Sender = Sender(isPlayer: bool, holder: Option<Holder>)

  /** Why the command stops before it writes anything. */
  datatype Rejection =
    | NoCommandPermission
    | NotAdmin
    | WorldRequired
    | InvalidDay
    | InvalidDate
    | InvalidTime
    | InvalidZone

  /** The command's reading of its arguments: a rejection, or the schedule to write. */
  datatype Resolution =
    | Rejected(reason: Rejection)
    | Request(world: string, mode: ScheduleMode, day: Weekday, dayOfMonth: int, time: ClockTime, zone: string)

  /** What the sender is told once the plugin has been asked. */
  datatype Outcome =
    | Refused(reason: Rejection)
    | UpdateFailed
    | Updated(summary: string, protectedNote: bool)

  // ---------------------------------------------------------------------------
  // The parsers
  // ---------------------------------------------------------------------------

  /** parseMode: WEEKLY for a missing or blank token, otherwise the mode named exactly by the
      trimmed, upper-cased token, or None. */
  function ParseMode(input: Option<string>): (r: Option<ScheduleMode>)
    ensures input.None? || IsBlank(input.value) ==> r == Some(Weekly)
    ensures input.Some? && !IsBlank(input.value) && r.Some? ==> ModeName(r.value) == Upper(Trim(input.value))
  {
    if input.None? || IsBlank(input.value) then Some(Weekly) else ModeNamed(Upper(Trim(input.value)))
  }

  /** parseDay: the day named exactly by the trimmed, upper-cased token, or None (also for a
      blank token). */
  function ParseDay(input: string): (r: Option<Weekday>)
    ensures IsBlank(input) ==> r.None?
    ensures r.Some? ==> WeekdayName(r.value) == Upper(Trim(input))
  {
    if IsBlank(input) then None else WeekdayNamed(Upper(Trim(input)))
  }

  /** parseDayOfMonth: the trimmed token as an integer in 1..31, or None. */
  function ParseDayOfMonth(input: string): (r: Option<int>)
    ensures r.Some? ==> 1 <= r.value <= 31 && ParseInt(Trim(input)) == r
  {
    if IsBlank(input) then None
    else match ParseInt(Trim(input))
      case Some(value) => if 1 <= value <= 31 then Some(value) else None
      case None => None
  }

  /** parseTime: LocalTime.parse of the trimmed token, or None. */
  function ParseTime(input: string, lib: TimeLibrary): (r: Option<ClockTime>)
    ensures IsBlank(input) ==> r.None?
    ensures !IsBlank(input) ==> r == lib.parseTime(Trim(input))
  {
    if IsBlank(input) then None else lib.parseTime(Trim(input))
  }

  /** parseZone: "system" for a blank token or "system" in any case; otherwise the trimmed
      token when ZoneId.of accepts it, or None. */
  function ParseZone(input: string, lib: TimeLibrary): (r: Option<string>)
    ensures IsBlank(input) || EqualsIgnoreCase("system", Trim(input)) ==> r == Some(DefaultZone)
    ensures r.Some? && r.value != DefaultZone ==> r.value == Trim(input) && lib.zoneOf(r.value).Some?
    ensures !IsBlank(input) && !EqualsIgnoreCase("system", Trim(input)) ==>
              (r.Some? <==> lib.zoneOf(Trim(input)).Some?) && (r.Some? ==> r.value == Trim(input))
  {
    if IsBlank(input) || EqualsIgnoreCase("system", Trim(input)) then Some(DefaultZone)
    else if lib.zoneOf(Trim(input)).Some? then Some(Trim(input))
    else None
  }

  /** A name of capital letters, or its lower-case form, is non-blank and trimmed, and
      upper-cases back to the name. */
  lemma CapitalNameForms(name: string, token: string)
    requires |name| > 0 && forall i :: 0 <= i < |name| ==> 'A' <= name[i] <= 'Z'
    requires token == name || token == Lower(name)
    ensures !IsBlank(token) && Trim(token) == token && Upper(token) == name
  {
    assert !IsWhitespace(token[0]);
    assert TrimmedForm(token);
    TrimOfTrimmedForm(token);
  }

  /** Every mode reads back from its name, in any case and with surrounding spaces. */
  lemma ParseModeOfName(m: ScheduleMode, padded: string)
    requires Trim(padded) == ModeName(m) || Trim(padded) == Lower(ModeName(m))
    ensures ParseMode(Some(padded)) == Some(m)
  {
    var name := ModeName(m);
    assert forall i :: 0 <= i < |name| ==> 'A' <= name[i] <= 'Z';
    CapitalNameForms(name, Trim(padded));
    TrimShape(padded);
    var start := |padded| - |TrimStart(padded)|;
    assert padded[start] == Trim(padded)[0];
    ModeNamedName(m);
  }

  /** Every day reads back from its name, in any case. */
  lemma ParseDayOfName(d: Weekday, token: string)
    requires token == WeekdayName(d) || token == Lower(WeekdayName(d))
    ensures ParseDay(token) == Some(d)
  {
    var name := WeekdayName(d);
    assert forall i :: 0 <= i < |name| ==> 'A' <= name[i] <= 'Z';
    CapitalNameForms(name, token);
    WeekdayNamedName(d);
  }

  /** Every date of a month reads back from its decimal text. */
  lemma ParseDayOfMonthOfText(k: int)
    requires 1 <= k <= 31
    ensures ParseDayOfMonth(IntToString(k)) == Some(k)
  {
    var text := IntToString(k);
    assert AllDigits(text);
    assert !IsWhitespace(text[0]);
    assert TrimmedForm(text);
    TrimOfTrimmedForm(text);
    ParseIntToString(k);
  }

  // ---------------------------------------------------------------------------
  // executeSync's reading of the arguments
  // ---------------------------------------------------------------------------

  /** The tokens the day, time and zone are read from: shifted one slot left after an
      unparsable mode token; a daily schedule's time and zone one slot left of their places;
      otherwise each in its own slot. */
  function Slots(args: Arguments, mode: Option<ScheduleMode>): (Option<string>, Option<string>, Option<string>)
  {
    if mode.None? then (args.modeInput, args.dayInput, args.timeInput)
    else if mode.value == Daily then (None, args.dayInput, args.timeInput)
    else (args.dayInput, args.timeInput, args.zoneInput)
  }

  /** What the command makes of its arguments: the permission checks for a player, the world
      name, then the day (weekly) or the date (monthly), the time and the zone, each defaulted
      when its token is missing and rejected when it does not parse. */
  function Resolved(sender: Sender, args: Arguments, lib: TimeLibrary): (r: Resolution)
    ensures r.Request? ==> args.world == Some(r.world) && !IsBlank(r.world) && 1 <= r.dayOfMonth <= 31
    ensures r.Request? && r.mode != Weekly ==> r.day == DefaultDay
    ensures r.Request? && r.mode != Monthly ==> r.dayOfMonth == 1
  {
    if sender.isPlayer && !HasCommand(sender.holder, Some("schedule.set")) then Rejected(NoCommandPermission)
    else if sender.isPlayer && !HasAdmin(sender.holder) then Rejected(NotAdmin)
    else if args.world.None? || IsBlank(args.world.value) then Rejected(WorldRequired)
    else
      var parsedMode := ParseMode(args.modeInput);
      var mode := if parsedMode.Some? then parsedMode.value else Weekly;
      var (dayToken, timeToken, zoneToken) := Slots(args, parsedMode);
      var day := if mode != Weekly then Some(DefaultDay) else if dayToken.None? then Some(DefaultDay)
                 else ParseDay(dayToken.value);
      var dayOfMonth := if mode != Monthly then Some(1) else if dayToken.None? then Some(1)
                        else ParseDayOfMonth(dayToken.value);
      var time := if timeToken.None? then Some(DefaultScheduleTime) else ParseTime(timeToken.value, lib);
      var zone := if zoneToken.None? then Some(DefaultZone) else ParseZone(zoneToken.value, lib);
      if day.None? then Rejected(InvalidDay)
      else if dayOfMonth.None? then Rejected(InvalidDate)
      else if time.None? then Rejected(InvalidTime)
      else if zone.None? then Rejected(InvalidZone)
      else Request(args.world.value, mode, day.value, dayOfMonth.value, time.value, zone.value)
  }

  /** executeSync up to the call into the plugin: the mode and the three token locals are
      reassigned step by step as the arguments shift. */
  method ResolveArguments(sender: Sender, args: Arguments, lib: TimeLibrary) returns (resolution: Resolution)
    ensures resolution == Resolved(sender, args, lib)
  {
    if sender.isPlayer {
      if !HasCommand(sender.holder, Some("schedule.set")) {
        return Rejected(NoCommandPermission);
      }
      if !HasAdmin(sender.holder) {
        return Rejected(NotAdmin);
      }
    }
    if args.world.None? || IsBlank(args.world.value) {
      return Rejected(WorldRequired);
    }
    var parsedMode := ParseMode(args.modeInput);
    var resolvedDayInput := args.dayInput;
    var resolvedTimeInput := args.timeInput;
    var resolvedZoneInput := args.zoneInput;
    var mode: ScheduleMode;
    if parsedMode.None? {
      mode := Weekly;
      resolvedDayInput := args.modeInput;
      resolvedTimeInput := args.dayInput;
      resolvedZoneInput := args.timeInput;
    } else {
      mode := parsedMode.value;
    }
    var day := DefaultDay;
    var dayOfMonth := 1;
    if mode == Weekly {
      var parsedDay := if resolvedDayInput.None? then Some(DefaultDay) else ParseDay(resolvedDayInput.value);
      if parsedDay.None? {
        return Rejected(InvalidDay);
      }
      day := parsedDay.value;
    } else if mode == Monthly {
      var parsedDate := if resolvedDayInput.None? then Some(1) else ParseDayOfMonth(resolvedDayInput.value);
      if parsedDate.None? {
        return Rejected(InvalidDate);
      }
      dayOfMonth := parsedDate.value;
    } else {
      resolvedTimeInput := resolvedDayInput;
      resolvedZoneInput := args.timeInput;
    }
    var time := if resolvedTimeInput.None? then Some(DefaultScheduleTime) else ParseTime(resolvedTimeInput.value, lib);
    if time.None? {
      return Rejected(InvalidTime);
    }
    var zone := if resolvedZoneInput.None? then Some(DefaultZone) else ParseZone(resolvedZoneInput.value, lib);
    if zone.None? {
      return Rejected(InvalidZone);
    }
    return Request(args.world.value, mode, day, dayOfMonth, time.value, zone.value);
  }

  /** A mode token that is not a mode reads exactly as a missing mode with the day, time and
      zone taken from the mode, day and time tokens: the zone argument is never read. */
  lemma UnparsableModeShiftsArguments(sender: Sender, args: Arguments, lib: TimeLibrary)
    requires ParseMode(args.modeInput).None?
    ensures Resolved(sender, args, lib) ==
            Resolved(sender, Arguments(args.world, None, args.modeInput, args.dayInput, args.timeInput), lib)
  {
  }

  /** A daily schedule reads its time from the day slot and its zone from the time slot; the
      zone argument is never read. */
  lemma DailyReadsShiftedSlots(sender: Sender, args: Arguments, lib: TimeLibrary, otherZone: Option<string>)
    requires ParseMode(args.modeInput) == Some(Daily)
    ensures Resolved(sender, args, lib) == Resolved(sender, args.(zoneInput := otherZone), lib)
    ensures var r := Resolved(sender, args, lib);
            r.Request? ==>
              r.mode == Daily &&
              r.time == (if args.dayInput.None? then DefaultScheduleTime else ParseTime(args.dayInput.value, lib).value) &&
              r.zone == (if args.timeInput.None? then DefaultZone else ParseZone(args.timeInput.value, lib).value)
  {
  }

  /** With only the world given, the schedule is weekly on Monday at 06:00 in the system zone. */
  lemma DefaultsWhenAbsent(sender: Sender, world: string, lib: TimeLibrary)
    requires !sender.isPlayer && !IsBlank(world)
    ensures Resolved(sender, Arguments(Some(world), None, None, None, None), lib) ==
            Request(world, Weekly, Monday, 1, DefaultScheduleTime, "system")
  {
  }

  // ---------------------------------------------------------------------------
  // buildSummary and the whole command
  // ---------------------------------------------------------------------------

  /** The part of the summary that names the cadence: DAILY, MONTHLY with the date, or the
      day of a weekly schedule. */
  function Cadence(mode: ScheduleMode, day: Weekday, dayOfMonth: int): string
  {
    match mode
    case Daily => "DAILY"
    case Monthly => "MONTHLY " + IntToString(dayOfMonth)
    case Weekly => WeekdayName(day)
  }

  /** buildSummary */
  function BuildSummary(world: string, mode: ScheduleMode, day: Weekday, dayOfMonth: int, time: ClockTime,
                        zone: string, lib: TimeLibrary): (r: string)
    ensures StartsWith(r, "Schedule updated: " + world + " -> " + Cadence(mode, day, dayOfMonth) + " @ ")
    ensures var tail := " (" + zone + ")"; |tail| <= |r| && r[|r| - |tail|..] == tail
  {
    var prefix := "Schedule updated: " + world + " -> " + Cadence(mode, day, dayOfMonth) + " @ ";
    var r := prefix + lib.timeText(time) + " (" + zone + ")";
    assert r[..|prefix|] == prefix;
    r
  }

  /** executeSync: a rejection leaves the plugin alone; otherwise the plugin writes the
      schedule, and the sender gets the summary, with a note when the world is protected. */
  method ExecuteSync(plugin: WorldWipePlugin, sender: Sender, args: Arguments, env: Env) returns (outcome: Outcome)
    requires ValidClock(env.clock)
    modifies plugin
    ensures Resolved(sender, args, env.lib).Rejected? ==>
              outcome == Refused(Resolved(sender, args, env.lib).reason) && plugin.State() == old(plugin.State())
    ensures var r := Resolved(sender, args, env.lib);
            r.Request? ==>
              plugin.State() == ScheduleUpdated(old(plugin.State()), r.world, Some(r.mode), Some(r.day),
                                                Some(r.dayOfMonth), Some(r.time), Some(r.zone), env).0 &&
              outcome == Updated(BuildSummary(r.world, r.mode, r.day, r.dayOfMonth, r.time, r.zone, env.lib),
                                 IsProtectedWorld(r.world, plugin.settings.protectedWorlds))
  {
    var resolution := ResolveArguments(sender, args, env.lib);
    if resolution.Rejected? {
      return Refused(resolution.reason);
    }
    var updated := plugin.UpdateWorldSchedule(resolution.world, Some(resolution.mode), Some(resolution.day),
                                              Some(resolution.dayOfMonth), Some(resolution.time),
                                              Some(resolution.zone), env);
    if !updated {
      return UpdateFailed;
    }
    var summary := BuildSummary(resolution.world, resolution.mode, resolution.day, resolution.dayOfMonth,
                                resolution.time, resolution.zone, env.lib);
    return Updated(summary, IsProtectedWorld(resolution.world, plugin.settings.protectedWorlds));
  }
}
