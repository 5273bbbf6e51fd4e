/**
 * The helpers of WorldWipePlugin that turn the resolved configuration into the plugin's working
 * registry, and answer questions about it: normalizeProtectedWorlds, isProtectedWorld,
 * getPrimaryProtectedWorld, resolveScheduleSpec, normalizeWorldSchedules, getResetWorlds, the
 * per-world regenerate and last-wipe maps with shouldRegenerateWorld, the key matching of
 * removeWorldSchedulesInternal, and the argument normalisation of updateWorldSchedule.
 */
module Registry {
  import opened JavaText
  import opened Calendar
  import opened Occurrence
  import Config

  const DefaultProtectedWorld: string := "default"
  const DefaultScheduleDayOfMonth: int := 1

  /** A valid LocalTime. */
  type ClockTime = t: Time | ValidTime(t) witness Time(0, 0, 0, 0)

  const DefaultScheduleTime: ClockTime := Time(6, 0, 0, 0)

  /** The java.time calls the plugin makes on configured text, which this model does not
      implement: LocalTime.parse (None where it throws), LocalTime.toString, ZoneId.of (None
      where it throws), ZoneId.systemDefault, parseInstant (Instant.parse, then epoch
      milliseconds; None where both fail) and Instant.toString. */
  datatype TimeLibrary = TimeLibrary(
    parseTime: string -> Option<ClockTime>,
    timeText: ClockTime -> string,
    zoneOf: string -> Option<Zone>,
    systemZone: Zone,
    parseInstant: string -> Option<Instant>,
    instantText: Instant -> string)

  /** WorldWipePlugin.ScheduleSpec */
  datatype ScheduleSpec = ScheduleSpec(mode: ScheduleMode, day: Weekday, dayOfMonth: int, time: ClockTime, zone: Zone)

  /** WorldWipePlugin.WorldSchedule */
  datatype WorldSchedule = WorldSchedule(world: string, mode: ScheduleMode, day: Weekday, dayOfMonth: int,
                                         time: ClockTime, zone: Zone)

  function ScheduleFor(world: string, spec: ScheduleSpec): WorldSchedule
  {
    WorldSchedule(world, spec.mode, spec.day, spec.dayOfMonth, spec.time, spec.zone)
  }

  // ---------------------------------------------------------------------------
  // isProtectedWorld and getPrimaryProtectedWorld
  // ---------------------------------------------------------------------------

  /** isProtectedWorld: the list holds the name, ignoring case. */
  predicate IsProtectedWorld(worldName: string, protectedWorlds: seq<string>)
    decreases |protectedWorlds|
  {
    |protectedWorlds| > 0 &&
    (EqualsIgnoreCase(worldName, protectedWorlds[0]) || IsProtectedWorld(worldName, protectedWorlds[1..]))
  }

  lemma {:induction false} IsProtectedWorldIff(worldName: string, protectedWorlds: seq<string>)
    ensures IsProtectedWorld(worldName, protectedWorlds) <==>
            exists i :: 0 <= i < |protectedWorlds| && EqualsIgnoreCase(worldName, protectedWorlds[i])
    decreases |protectedWorlds|
  {
    if |protectedWorlds| > 0 {
      IsProtectedWorldIff(worldName, protectedWorlds[1..]);
      if IsProtectedWorld(worldName, protectedWorlds[1..]) {
        var i :| 0 <= i < |protectedWorlds| - 1 && EqualsIgnoreCase(worldName, protectedWorlds[1..][i]);
        assert EqualsIgnoreCase(worldName, protectedWorlds[i + 1]);
      }
      if exists i :: 0 <= i < |protectedWorlds| && EqualsIgnoreCase(worldName, protectedWorlds[i]) {
        var i :| 0 <= i < |protectedWorlds| && EqualsIgnoreCase(worldName, protectedWorlds[i]);
        if i > 0 {
          assert protectedWorlds[1..][i - 1] == protectedWorlds[i];
        }
      }
    }
  }

  /** Names that differ only in case are protected alike. */
  lemma {:induction false} IsProtectedWorldIgnoresCase(a: string, b: string, protectedWorlds: seq<string>)
    requires EqualsIgnoreCase(a, b)
    ensures IsProtectedWorld(a, protectedWorlds) == IsProtectedWorld(b, protectedWorlds)
    decreases |protectedWorlds|
  {
    if |protectedWorlds| > 0 {
      IsProtectedWorldIgnoresCase(a, b, protectedWorlds[1..]);
    }
  }

  /** The index of the first entry equal to name ignoring case, or -1. */
  function FirstIgnoringCase(worlds: seq<string>, name: string): (k: int)
    ensures -1 <= k < |worlds|
    ensures k >= 0 ==> EqualsIgnoreCase(worlds[k], name)
    ensures forall j :: 0 <= j < |worlds| && (k == -1 || j < k) ==> !EqualsIgnoreCase(worlds[j], name)
  {
    if |worlds| == 0 then -1
    else if EqualsIgnoreCase(worlds[0], name) then 0
    else
      var k := FirstIgnoringCase(worlds[1..], name);
      assert forall j :: 1 <= j < |worlds| ==> worlds[1..][j - 1] == worlds[j];
      if k == -1 then -1 else k + 1
  }

  /** getPrimaryProtectedWorld: "default" for an empty list; the first entry that is "default"
      ignoring case, if any; otherwise the first entry. */
  function PrimaryProtectedWorld(worlds: seq<string>): (r: string)
    ensures |worlds| == 0 ==> r == DefaultProtectedWorld
    ensures |worlds| > 0 ==> r in worlds
    ensures var k := FirstIgnoringCase(worlds, DefaultProtectedWorld);
            |worlds| > 0 ==> r == (if k >= 0 then worlds[k] else worlds[0])
  {
    if |worlds| == 0 then DefaultProtectedWorld
    else
      var k := FirstIgnoringCase(worlds, DefaultProtectedWorld);
      if k >= 0 then worlds[k] else worlds[0]
  }

  /** The primary world is "default" ignoring case exactly when some entry is. */
  lemma PrimaryIsDefaultIff(worlds: seq<string>)
    requires |worlds| > 0
    ensures EqualsIgnoreCase(PrimaryProtectedWorld(worlds), DefaultProtectedWorld) <==>
            exists i :: 0 <= i < |worlds| && EqualsIgnoreCase(worlds[i], DefaultProtectedWorld)
  {
    var k := FirstIgnoringCase(worlds, DefaultProtectedWorld);
    if k == -1 {
      assert !EqualsIgnoreCase(worlds[0], DefaultProtectedWorld);
    }
  }

  // ---------------------------------------------------------------------------
  // normalizeProtectedWorlds
  // ---------------------------------------------------------------------------

  /** What normalizeProtectedWorlds keeps of one name: its trimmed form, unless blank. */
  function KeptName(name: string): (r: Option<string>)
  {
    var trimmed := Trim(name);
    if IsBlank(trimmed) then None else Some(trimmed)
  }

  function KeptNames(names: seq<string>): (r: seq<Option<string>>)
    ensures |r| == |names|
  {
    seq(|names|, i requires 0 <= i < |names| => KeptName(names[i]))
  }

  /** The trimmed, non-blank names without repeats in first-seen order, or ["default"] when
      none is left. */
  function ProtectedWorldsOf(names: seq<string>): seq<string>
  {
    var unique := Config.DistinctTexts(KeptNames(names));
    if |unique| == 0 then [DefaultProtectedWorld] else unique
  }

  lemma KeptNamesStep(names: seq<string>, i: nat)
    requires i < |names|
    ensures Config.DistinctTexts(KeptNames(names)[..i + 1]) ==
            Config.AddText(Config.DistinctTexts(KeptNames(names)[..i]), KeptName(names[i]))
  {
    assert KeptNames(names)[..i + 1][..i] == KeptNames(names)[..i];
  }

  /** normalizeProtectedWorlds (a null list reads as empty). */
  method NormalizeProtectedWorlds(worldNames: Option<seq<string>>) returns (r: seq<string>)
    ensures r == ProtectedWorldsOf(if worldNames.Some? then worldNames.value else [])
  {
    var names := if worldNames.Some? then worldNames.value else [];
    var unique: seq<string> := [];
    var i := 0;
    while i < |names|
      invariant 0 <= i <= |names|
      invariant unique == Config.DistinctTexts(KeptNames(names)[..i])
    {
      KeptNamesStep(names, i);
      var trimmed := Trim(names[i]);
      if !IsBlank(trimmed) && trimmed !in unique {
        unique := unique + [trimmed];
      }
      i := i + 1;
    }
    assert KeptNames(names)[..|names|] == KeptNames(names);
    if |unique| == 0 {
      unique := [DefaultProtectedWorld];
    }
    r := unique;
  }

  /** Some given name is kept as t. */
  predicate KeptFrom(names: seq<string>, t: string)
  {
    exists i :: 0 <= i < |names| && KeptName(names[i]) == Some(t)
  }

  lemma KeptNamesMembers(names: seq<string>, t: string)
    ensures t in Config.DistinctTexts(KeptNames(names)) <==> KeptFrom(names, t)
  {
    var ks := KeptNames(names);
    Config.DistinctTextsMembers(ks, t);
    if Some(t) in ks {
      var i :| 0 <= i < |ks| && ks[i] == Some(t);
      assert KeptName(names[i]) == Some(t);
    }
    if KeptFrom(names, t) {
      var i :| 0 <= i < |names| && KeptName(names[i]) == Some(t);
      assert ks[i] == Some(t);
    }
  }

  /** The normalised list is never empty and has no repeats; a name is in it exactly when it is
      the trimmed, non-blank form of a given name, or it is "default" and no given name is kept. */
  lemma ProtectedWorldsOfShape(names: seq<string>)
    ensures var r := ProtectedWorldsOf(names);
            |r| > 0 && Config.NoDuplicates(r) &&
            forall t :: t in r <==>
              KeptFrom(names, t) ||
              (t == DefaultProtectedWorld && forall i :: 0 <= i < |names| ==> KeptName(names[i]).None?)
  {
    var ks := KeptNames(names);
    Config.DistinctTextsUnique(ks);
    var unique := Config.DistinctTexts(ks);
    forall t ensures t in unique <==> KeptFrom(names, t) {
      KeptNamesMembers(names, t);
    }
    if |unique| == 0 {
      forall i | 0 <= i < |names| ensures KeptName(names[i]).None? {
        if KeptName(names[i]).Some? {
          KeptNamesMembers(names, KeptName(names[i]).value);
        }
      }
    } else {
      var t0 := unique[0];
      KeptNamesMembers(names, t0);
      var i0 :| 0 <= i0 < |names| && KeptName(names[i0]) == Some(t0);
      assert KeptName(names[i0]).Some?;
    }
  }

  /** Every kept name is trimmed and not blank. */
  lemma KeptNameShape(name: string)
    ensures KeptName(name).Some? ==> Trim(KeptName(name).value) == KeptName(name).value &&
                                     !IsBlank(KeptName(name).value)
  {
    TrimIdempotent(name);
  }

  // ---------------------------------------------------------------------------
  // resolveScheduleSpec and updateWorldSchedule's arguments
  // ---------------------------------------------------------------------------

  /** The mode of a configured schedule: the constant named by the trimmed, upper-cased text;
      WEEKLY when the text is blank or names no mode. */
  function ModeOf(text: string): (r: ScheduleMode)
    ensures !IsBlank(text) && ModeNamed(Upper(Trim(text))).Some? ==> ModeName(r) == Upper(Trim(text))
    ensures IsBlank(text) || ModeNamed(Upper(Trim(text))).None? ==> r == Weekly
  {
    if IsBlank(text) then Weekly
    else match ModeNamed(Upper(Trim(text)))
      case Some(m) => m
      case None => Weekly
  }

  /** The day of a configured schedule, MONDAY when blank or not a day name. */
  function DayOf(text: string): (r: Weekday)
    ensures !IsBlank(text) && WeekdayNamed(Upper(Trim(text))).Some? ==> WeekdayName(r) == Upper(Trim(text))
    ensures IsBlank(text) || WeekdayNamed(Upper(Trim(text))).None? ==> r == Monday
  {
    if IsBlank(text) then Monday
    else match WeekdayNamed(Upper(Trim(text)))
      case Some(d) => d
      case None => Monday
  }

  /** The time of a configured schedule, 06:00 when blank or not parsable. */
  function TimeOf(text: string, lib: TimeLibrary): (r: ClockTime)
    ensures !IsBlank(text) && lib.parseTime(Trim(text)).Some? ==> Some(r) == lib.parseTime(Trim(text))
    ensures IsBlank(text) || lib.parseTime(Trim(text)).None? ==> r == DefaultScheduleTime
  {
    if IsBlank(text) then DefaultScheduleTime
    else match lib.parseTime(Trim(text))
      case Some(t) => t
      case None => DefaultScheduleTime
  }

  /** The zone of a configured schedule: the system zone when blank, "system" in any case or
      not a zone id. */
  function ZoneOf(text: string, lib: TimeLibrary): (r: Zone)
    ensures !IsBlank(text) && !EqualsIgnoreCase("system", Trim(text)) && lib.zoneOf(Trim(text)).Some? ==>
              Some(r) == lib.zoneOf(Trim(text))
    ensures IsBlank(text) || EqualsIgnoreCase("system", Trim(text)) || lib.zoneOf(Trim(text)).None? ==>
              r == lib.systemZone
  {
    if IsBlank(text) then lib.systemZone
    else
      var zoneValue := Trim(text);
      if EqualsIgnoreCase("system", zoneValue) then lib.systemZone
      else match lib.zoneOf(zoneValue)
        case Some(z) => z
        case None => lib.systemZone
  }

  /** resolveScheduleSpec: each field falls back on its own; a day of month outside 1..31
      becomes 1. */
  function ResolveScheduleSpec(schedule: Config.Schedule, lib: TimeLibrary): (r: ScheduleSpec)
    ensures 1 <= r.dayOfMonth <= 31
    ensures 1 <= schedule.dayOfMonth <= 31 ==> r.dayOfMonth == schedule.dayOfMonth
    ensures !(1 <= schedule.dayOfMonth <= 31) ==> r.dayOfMonth == DefaultScheduleDayOfMonth
    ensures r.mode == ModeOf(schedule.mode) && r.day == DayOf(schedule.day)
    ensures r.time == TimeOf(schedule.time, lib) && r.zone == ZoneOf(schedule.zone, lib)
  {
    var dayOfMonth := schedule.dayOfMonth;
    ScheduleSpec(ModeOf(schedule.mode), DayOf(schedule.day),
                 if dayOfMonth < 1 || dayOfMonth > 31 then DefaultScheduleDayOfMonth else dayOfMonth,
                 TimeOf(schedule.time, lib), ZoneOf(schedule.zone, lib))
  }

  /** The default schedule text resolves to WEEKLY, MONDAY, day 1, the parsed "06:00" and the
      system zone. */
  lemma DefaultScheduleResolves(lib: TimeLibrary)
    requires lib.parseTime("06:00") == Some(DefaultScheduleTime)
    ensures ResolveScheduleSpec(Config.DefaultSchedule, lib) ==
            ScheduleSpec(Weekly, Monday, 1, DefaultScheduleTime, lib.systemZone)
  {
    var s := Config.DefaultSchedule;
    assert !IsWhitespace(s.mode[0]) && !IsWhitespace(s.day[0]) && !IsWhitespace(s.time[0]) && !IsWhitespace(s.zone[0]);
    assert TrimmedForm(s.mode) && TrimmedForm(s.day) && TrimmedForm(s.time) && TrimmedForm(s.zone);
    TrimOfTrimmedForm(s.mode);
    TrimOfTrimmedForm(s.day);
    TrimOfTrimmedForm(s.time);
    TrimOfTrimmedForm(s.zone);
    LowerOfLowercase(s.zone);
    assert Upper(s.mode) == s.mode;
    assert Upper(s.day) == s.day;
  }

  /** The zone text updateWorldSchedule stores: "system" for a missing or blank zone, else the
      trimmed text. */
  function StoredZone(zone: Option<string>): string
  {
    if zone.None? || IsBlank(zone.value) then "system" else Trim(zone.value)
  }

  /** The day of month updateWorldSchedule stores: 1 when missing or outside 1..31. */
  function StoredDayOfMonth(dayOfMonth: Option<int>): (r: int)
    ensures 1 <= r <= 31
  {
    var value := if dayOfMonth.Some? then dayOfMonth.value else DefaultScheduleDayOfMonth;
    if value < 1 || value > 31 then DefaultScheduleDayOfMonth else value
  }

  /** The schedule updateWorldSchedule writes for the world: the mode's and the day's names
      (MONDAY when no day is given), the stored day of month, the time's text and the stored
      zone. */
  function WrittenSchedule(mode: ScheduleMode, day: Option<Weekday>, dayOfMonth: Option<int>, time: ClockTime,
                           zone: Option<string>, lib: TimeLibrary): Config.Schedule
  {
    Config.Schedule(ModeName(mode), WeekdayName(if day.Some? then day.value else Monday),
                    StoredDayOfMonth(dayOfMonth), lib.timeText(time), StoredZone(zone))
  }

  /** A constant's name: capital letters only, so trim and toUpperCase leave it alone. */
  lemma CapitalName(s: string)
    requires |s| > 0 && forall i :: 0 <= i < |s| ==> 'A' <= s[i] <= 'Z'
    ensures !IsBlank(s) && Trim(s) == s && Upper(s) == s
  {
    assert !IsWhitespace(s[0]);
    TrimOfTrimmedForm(s);
  }

  /** The mode read back from a mode's name is that mode. */
  lemma ModeOfName(mode: ScheduleMode)
    ensures ModeOf(ModeName(mode)) == mode
  {
    CapitalName(ModeName(mode));
    ModeNamedName(mode);
  }

  /** The day read back from a day's name is that day. */
  lemma DayOfName(day: Weekday)
    ensures DayOf(WeekdayName(day)) == day
  {
    CapitalName(WeekdayName(day));
    WeekdayNamedName(day);
  }

  /** What updateWorldSchedule writes is read back by resolveScheduleSpec as the mode, day,
      day of month and time it was given (when LocalTime.parse reads LocalTime.toString back),
      and the zone the stored zone text names. */
  lemma WrittenScheduleResolves(mode: ScheduleMode, day: Option<Weekday>, dayOfMonth: Option<int>, time: ClockTime,
                                zone: Option<string>, lib: TimeLibrary)
    requires !IsBlank(lib.timeText(time)) && lib.parseTime(Trim(lib.timeText(time))) == Some(time)
    ensures var r := ResolveScheduleSpec(WrittenSchedule(mode, day, dayOfMonth, time, zone, lib), lib);
            r.mode == mode && r.day == (if day.Some? then day.value else Monday) &&
            r.dayOfMonth == StoredDayOfMonth(dayOfMonth) && r.time == time &&
            r.zone == ZoneOf(StoredZone(zone), lib)
  {
    ModeOfName(mode);
    DayOfName(if day.Some? then day.value else Monday);
  }

  // ---------------------------------------------------------------------------
  // normalizeWorldSchedules and getResetWorlds
  // ---------------------------------------------------------------------------

  function WorldNames(schedules: seq<WorldSchedule>): (r: seq<string>)
    ensures |r| == |schedules| && forall i :: 0 <= i < |r| ==> r[i] == schedules[i].world
  {
    seq(|schedules|, i requires 0 <= i < |schedules| => schedules[i].world)
  }

  /** The schedule normalizeWorldSchedules adds for an entry, if it adds one: the trimmed name
      must be non-blank, not protected, and not seen before. */
  function AddSchedule(acc: seq<WorldSchedule>, entry: (string, Config.WorldEntry), protectedWorlds: seq<string>,
                       lib: TimeLibrary): seq<WorldSchedule>
  {
    var trimmed := Trim(entry.0);
    if IsBlank(trimmed) || IsProtectedWorld(trimmed, protectedWorlds) || trimmed in WorldNames(acc) then acc
    else acc + [ScheduleFor(trimmed, ResolveScheduleSpec(entry.1.schedule, lib))]
  }

  /** The schedules loadConfig derives from the configured worlds, in entry order. */
  function SchedulesOf(worlds: Config.Worlds, protectedWorlds: seq<string>, lib: TimeLibrary): seq<WorldSchedule>
  {
    if |worlds| == 0 then []
    else AddSchedule(SchedulesOf(worlds[..|worlds| - 1], protectedWorlds, lib), worlds[|worlds| - 1], protectedWorlds, lib)
  }

  lemma SchedulesOfStep(worlds: Config.Worlds, protectedWorlds: seq<string>, lib: TimeLibrary, i: nat)
    requires i < |worlds|
    ensures SchedulesOf(worlds[..i + 1], protectedWorlds, lib) ==
            AddSchedule(SchedulesOf(worlds[..i], protectedWorlds, lib), worlds[i], protectedWorlds, lib)
  {
    assert worlds[..i + 1][..i] == worlds[..i];
  }

  /** normalizeWorldSchedules (a null map reads as empty). */
  method NormalizeWorldSchedules(worlds: Option<Config.Worlds>, protectedWorlds: seq<string>, lib: TimeLibrary)
    returns (resolved: seq<WorldSchedule>)
    ensures resolved == SchedulesOf(if worlds.Some? then worlds.value else [], protectedWorlds, lib)
  {
    var baseWorlds := if worlds.Some? then worlds.value else [];
    var seen: set<string> := {};
    resolved := [];
    var i := 0;
    while i < |baseWorlds|
      invariant 0 <= i <= |baseWorlds|
      invariant resolved == SchedulesOf(baseWorlds[..i], protectedWorlds, lib)
      invariant forall n :: n in seen <==> n in WorldNames(resolved)
    {
      SchedulesOfStep(baseWorlds, protectedWorlds, lib, i);
      var (worldName, worldEntry) := baseWorlds[i];
      var trimmed := Trim(worldName);
      if !IsBlank(trimmed) && !IsProtectedWorld(trimmed, protectedWorlds) && trimmed !in seen {
        seen := seen + {trimmed};
        var spec := ResolveScheduleSpec(worldEntry.schedule, lib);
        resolved := resolved + [ScheduleFor(trimmed, spec)];
        assert WorldNames(resolved) == WorldNames(resolved[..|resolved| - 1]) + [trimmed];
      }
      i := i + 1;
    }
    assert baseWorlds[..|baseWorlds|] == baseWorlds;
  }

  /** The schedules' worlds are trimmed, not blank, not protected and pairwise distinct. */
  lemma {:induction false} SchedulesOfShape(worlds: Config.Worlds, protectedWorlds: seq<string>, lib: TimeLibrary)
    ensures var names := WorldNames(SchedulesOf(worlds, protectedWorlds, lib));
            Config.NoDuplicates(names) &&
            forall i :: 0 <= i < |names| ==>
              !IsBlank(names[i]) && !IsProtectedWorld(names[i], protectedWorlds) &&
              exists j :: 0 <= j < |worlds| && Trim(worlds[j].0) == names[i]
  {
    if |worlds| > 0 {
      var front := worlds[..|worlds| - 1];
      SchedulesOfShape(front, protectedWorlds, lib);
      var acc := SchedulesOf(front, protectedWorlds, lib);
      var names := WorldNames(SchedulesOf(worlds, protectedWorlds, lib));
      forall i | 0 <= i < |names|
        ensures exists j :: 0 <= j < |worlds| && Trim(worlds[j].0) == names[i]
      {
        if i < |acc| {
          var j :| 0 <= j < |front| && Trim(front[j].0) == WorldNames(acc)[i];
          assert worlds[j] == front[j];
        } else {
          assert Trim(worlds[|worlds| - 1].0) == names[i];
        }
      }
    }
  }

  /** A trimmed, non-blank, unprotected name gets a schedule exactly when some entry's key
      trims to it. */
  lemma {:induction false} SchedulesOfCovers(worlds: Config.Worlds, protectedWorlds: seq<string>, lib: TimeLibrary,
                                             name: string)
    requires !IsBlank(name) && !IsProtectedWorld(name, protectedWorlds)
    ensures name in WorldNames(SchedulesOf(worlds, protectedWorlds, lib)) <==>
            exists j :: 0 <= j < |worlds| && Trim(worlds[j].0) == name
  {
    if |worlds| > 0 {
      var front := worlds[..|worlds| - 1];
      SchedulesOfCovers(front, protectedWorlds, lib, name);
      var acc := SchedulesOf(front, protectedWorlds, lib);
      var r := SchedulesOf(worlds, protectedWorlds, lib);
      assert WorldNames(acc) <= WorldNames(r) by {
        if r != acc {
          assert WorldNames(r) == WorldNames(acc) + [Trim(worlds[|worlds| - 1].0)];
        }
      }
      if exists j :: 0 <= j < |front| && Trim(front[j].0) == name {
        var j :| 0 <= j < |front| && Trim(front[j].0) == name;
        assert worlds[j] == front[j];
      }
      if exists j :: 0 <= j < |worlds| && Trim(worlds[j].0) == name {
        var j :| 0 <= j < |worlds| && Trim(worlds[j].0) == name;
        if j < |front| {
          assert front[j] == worlds[j];
        } else if r != acc {
          assert WorldNames(r)[|acc|] == name;
        }
      }
      if name in WorldNames(r) && name !in WorldNames(acc) {
        assert r != acc;
        assert WorldNames(r) == WorldNames(acc) + [Trim(worlds[|worlds| - 1].0)];
      }
    }
  }

  /** getResetWorlds: the schedules' worlds that are not blank, in order. */
  function ResetWorlds(schedules: seq<WorldSchedule>): (r: seq<string>)
    ensures forall i :: 0 <= i < |r| ==> !IsBlank(r[i])
    ensures forall i :: 0 <= i < |schedules| && !IsBlank(schedules[i].world) ==> schedules[i].world in r
  {
    if |schedules| == 0 then []
    else
      var rest := ResetWorlds(schedules[..|schedules| - 1]);
      var world := schedules[|schedules| - 1].world;
      assert forall i :: 0 <= i < |schedules| - 1 ==> schedules[..|schedules| - 1][i] == schedules[i];
      if IsBlank(world) then rest else rest + [world]
  }

  /** Whether some reset world is the name, ignoring case (the test handlePlayerConnect and
      handlePlayerDisconnect make). */
  predicate IsResetWorld(schedules: seq<WorldSchedule>, worldName: string)
  {
    exists w :: w in ResetWorlds(schedules) && EqualsIgnoreCase(w, worldName)
  }

  // ---------------------------------------------------------------------------
  // The per-world maps and shouldRegenerateWorld
  // ---------------------------------------------------------------------------

  /** The key the per-world maps use: the trimmed, lower-case name. */
  function WorldKey(worldName: string): string
  {
    Lower(Trim(worldName))
  }

  /** resolveWorldRegenerateMap: the override of every entry that has one, under its key; of
      two entries with the same key the later wins. */
  function RegenerateOverrides(worlds: Config.Worlds): map<string, bool>
  {
    if |worlds| == 0 then map[]
    else
      var m := RegenerateOverrides(worlds[..|worlds| - 1]);
      var (worldName, entry) := worlds[|worlds| - 1];
      if IsBlank(worldName) || entry.regenerateOnWipe.None? then m
      else m[WorldKey(worldName) := entry.regenerateOnWipe.value]
  }

  /** An entry's override reaches the map when no later entry with the same key has one. */
  lemma {:induction false} RegenerateOverridesLast(worlds: Config.Worlds, i: nat)
    requires i < |worlds| && !IsBlank(worlds[i].0) && worlds[i].1.regenerateOnWipe.Some?
    requires forall j :: i < j < |worlds| && !IsBlank(worlds[j].0) && worlds[j].1.regenerateOnWipe.Some? ==>
               WorldKey(worlds[j].0) != WorldKey(worlds[i].0)
    ensures var m := RegenerateOverrides(worlds);
            WorldKey(worlds[i].0) in m && m[WorldKey(worlds[i].0)] == worlds[i].1.regenerateOnWipe.value
  {
    if i < |worlds| - 1 {
      var front := worlds[..|worlds| - 1];
      forall j | i < j < |front| && !IsBlank(front[j].0) && front[j].1.regenerateOnWipe.Some?
        ensures WorldKey(front[j].0) != WorldKey(front[i].0)
      {
        assert front[j] == worlds[j];
      }
      RegenerateOverridesLast(front, i);
    }
  }

  /** A key no entry with an override has is not in the map. */
  lemma {:induction false} RegenerateOverridesMissing(worlds: Config.Worlds, key: string)
    requires forall j :: 0 <= j < |worlds| && !IsBlank(worlds[j].0) && worlds[j].1.regenerateOnWipe.Some? ==>
               WorldKey(worlds[j].0) != key
    ensures key !in RegenerateOverrides(worlds)
  {
    if |worlds| > 0 {
      var front := worlds[..|worlds| - 1];
      forall j | 0 <= j < |front| && !IsBlank(front[j].0) && front[j].1.regenerateOnWipe.Some?
        ensures WorldKey(front[j].0) != key
      {
        assert front[j] == worlds[j];
      }
      RegenerateOverridesMissing(front, key);
    }
  }

  /** resolveWorldRegenerateMap as a loop over the entries, putting each override under its
      world's key. */
  method ResolveWorldRegenerateMap(worlds: Config.Worlds) returns (m: map<string, bool>)
    ensures m == RegenerateOverrides(worlds)
  {
    m := map[];
    for i := 0 to |worlds|
      invariant m == RegenerateOverrides(worlds[..i])
    {
      assert worlds[..i + 1][..i] == worlds[..i];
      var worldName := worlds[i].0;
      var worldEntry := worlds[i].1;
      if !IsBlank(worldName) && worldEntry.regenerateOnWipe.Some? {
        m := m[WorldKey(worldName) := worldEntry.regenerateOnWipe.value];
      }
    }
    assert worlds[..|worlds|] == worlds;
  }

  /** shouldRegenerateWorld: the world's override when there is one, else the global flag. */
  function ShouldRegenerateWorld(worldName: string, overrides: map<string, bool>, regenerateOnWipe: bool): (r: bool)
    ensures IsBlank(worldName) || WorldKey(worldName) !in overrides ==> r == regenerateOnWipe
    ensures !IsBlank(worldName) && WorldKey(worldName) in overrides ==> r == overrides[WorldKey(worldName)]
  {
    if IsBlank(worldName) then regenerateOnWipe
    else
      var key := WorldKey(worldName);
      if key in overrides then overrides[key] else regenerateOnWipe
  }

  /** Names that differ only in case or surrounding spaces get the same answer. */
  lemma ShouldRegenerateIgnoresCase(a: string, b: string, overrides: map<string, bool>, regenerateOnWipe: bool)
    requires !IsBlank(a) && !IsBlank(b) && EqualsIgnoreCase(Trim(a), Trim(b))
    ensures ShouldRegenerateWorld(a, overrides, regenerateOnWipe) == ShouldRegenerateWorld(b, overrides, regenerateOnWipe)
  {
  }

  /** resolveWorldLastWipeMap: every non-blank lastWipe that parses, under its world's key; of
      two entries with the same key the later wins. */
  function LastWipes(worlds: Config.Worlds, lib: TimeLibrary): map<string, Instant>
  {
    if |worlds| == 0 then map[]
    else
      var m := LastWipes(worlds[..|worlds| - 1], lib);
      var (worldName, entry) := worlds[|worlds| - 1];
      if IsBlank(worldName) || entry.lastWipe.None? || IsBlank(entry.lastWipe.value) then m
      else match lib.parseInstant(entry.lastWipe.value)
        case None => m
        case Some(t) => m[WorldKey(worldName) := t]
  }

  /** resolveWorldLastWipeMap as a loop over the entries, putting each parsed lastWipe under its
      world's key. */
  method ResolveWorldLastWipeMap(worlds: Config.Worlds, lib: TimeLibrary) returns (m: map<string, Instant>)
    ensures m == LastWipes(worlds, lib)
  {
    m := map[];
    for i := 0 to |worlds|
      invariant m == LastWipes(worlds[..i], lib)
    {
      assert worlds[..i + 1][..i] == worlds[..i];
      var worldName := worlds[i].0;
      var worldEntry := worlds[i].1;
      if !IsBlank(worldName) && worldEntry.lastWipe.Some? && !IsBlank(worldEntry.lastWipe.value) {
        var parsed := lib.parseInstant(worldEntry.lastWipe.value);
        if parsed.Some? {
          m := m[WorldKey(worldName) := parsed.value];
        }
      }
    }
    assert worlds[..|worlds|] == worlds;
  }

  /** A key in the map comes from an entry with that key and a lastWipe that parses to the
      stored instant, and no later entry with that key parses. */
  lemma {:induction false} LastWipesFrom(worlds: Config.Worlds, lib: TimeLibrary, key: string)
    requires key in LastWipes(worlds, lib)
    ensures exists i :: 0 <= i < |worlds| && !IsBlank(worlds[i].0) && WorldKey(worlds[i].0) == key &&
                        worlds[i].1.lastWipe.Some? && !IsBlank(worlds[i].1.lastWipe.value) &&
                        lib.parseInstant(worlds[i].1.lastWipe.value) == Some(LastWipes(worlds, lib)[key])
  {
    var front := worlds[..|worlds| - 1];
    var (worldName, entry) := worlds[|worlds| - 1];
    if !IsBlank(worldName) && entry.lastWipe.Some? && !IsBlank(entry.lastWipe.value) &&
       lib.parseInstant(entry.lastWipe.value).Some? && WorldKey(worldName) == key {
      assert worlds[|worlds| - 1] == (worldName, entry);
    } else {
      LastWipesFrom(front, lib, key);
      var i :| 0 <= i < |front| && !IsBlank(front[i].0) && WorldKey(front[i].0) == key &&
               front[i].1.lastWipe.Some? && !IsBlank(front[i].1.lastWipe.value) &&
               lib.parseInstant(front[i].1.lastWipe.value) == Some(LastWipes(front, lib)[key]);
      assert worlds[i] == front[i];
    }
  }

  /** getLastWipeInstant */
  function LastWipeInstant(worldName: string, worldLastWipe: map<string, Instant>): (r: Option<Instant>)
    ensures r.Some? ==> WorldKey(worldName) in worldLastWipe && r.value == worldLastWipe[WorldKey(worldName)]
    ensures r.None? ==> IsBlank(worldName) || WorldKey(worldName) !in worldLastWipe
  {
    if IsBlank(worldName) then None
    else if WorldKey(worldName) in worldLastWipe then Some(worldLastWipe[WorldKey(worldName)])
    else None
  }

  // ---------------------------------------------------------------------------
  // removeWorldSchedulesInternal: which entries go
  // ---------------------------------------------------------------------------

  /** The names removeWorldSchedulesInternal matches keys against: each trimmed, non-blank
      name, lower-cased, in order. */
  function RemovalKeys(names: seq<string>): (r: seq<string>)
    ensures forall k :: k in r <==> exists i :: 0 <= i < |names| && !IsBlank(Trim(names[i])) && k == WorldKey(names[i])
  {
    if |names| == 0 then []
    else
      var front := names[..|names| - 1];
      var rest := RemovalKeys(front);
      var trimmed := Trim(names[|names| - 1]);
      assert forall i :: 0 <= i < |front| ==> front[i] == names[i];
      if IsBlank(trimmed) then rest else rest + [Lower(trimmed)]
  }

  /** Whether an entry's key, trimmed and lower-cased, is one of the removal keys. */
  predicate Matches(entry: (string, Config.WorldEntry), keys: seq<string>)
  {
    WorldKey(entry.0) in keys
  }

  /** The entries that stay: those that do not match, in order. */
  function KeptEntries(worlds: Config.Worlds, keys: seq<string>): (r: Config.Worlds)
    ensures |r| <= |worlds|
    ensures |r| == |worlds| ==> r == worlds
  {
    if |worlds| == 0 then []
    else
      var rest := KeptEntries(worlds[..|worlds| - 1], keys);
      var last := worlds[|worlds| - 1];
      assert worlds == worlds[..|worlds| - 1] + [last];
      if Matches(last, keys) then rest else rest + [last]
  }

  lemma KeptEntriesStep(worlds: Config.Worlds, keys: seq<string>, i: nat)
    requires i < |worlds|
    ensures KeptEntries(worlds[..i + 1], keys) ==
            if Matches(worlds[i], keys) then KeptEntries(worlds[..i], keys) else KeptEntries(worlds[..i], keys) + [worlds[i]]
  {
    assert worlds[..i + 1][..i] == worlds[..i];
  }

  /** An entry stays exactly when it does not match. */
  lemma {:induction false} KeptEntriesMembers(worlds: Config.Worlds, keys: seq<string>, e: (string, Config.WorldEntry))
    ensures e in KeptEntries(worlds, keys) <==> e in worlds && !Matches(e, keys)
  {
    if |worlds| > 0 {
      var front := worlds[..|worlds| - 1];
      KeptEntriesMembers(front, keys, e);
      assert worlds == front + [worlds[|worlds| - 1]];
    }
  }

  /** Nothing is removed exactly when no entry matches. */
  lemma {:induction false} KeptEntriesAll(worlds: Config.Worlds, keys: seq<string>)
    ensures KeptEntries(worlds, keys) == worlds <==> forall i :: 0 <= i < |worlds| ==> !Matches(worlds[i], keys)
  {
    if |worlds| > 0 {
      var front := worlds[..|worlds| - 1];
      KeptEntriesAll(front, keys);
      assert worlds == front + [worlds[|worlds| - 1]];
      forall i | 0 <= i < |front| ensures front[i] == worlds[i] { }
      if !Matches(worlds[|worlds| - 1], keys) && KeptEntries(worlds, keys) == worlds {
        assert KeptEntries(front, keys) == front;
      }
    }
  }

  /** The iterator loop of removeWorldSchedulesInternal over the configured worlds: drops every
      matching entry and reports whether it dropped one. */
  method RemoveMatchingEntries(worlds: Config.Worlds, keys: seq<string>) returns (kept: Config.Worlds, changed: bool)
    ensures kept == KeptEntries(worlds, keys)
    ensures changed <==> kept != worlds
  {
    kept := [];
    changed := false;
    var i := 0;
    while i < |worlds|
      invariant 0 <= i <= |worlds|
      invariant kept == KeptEntries(worlds[..i], keys)
      invariant changed <==> |kept| < i
    {
      KeptEntriesStep(worlds, keys, i);
      if Matches(worlds[i], keys) {
        changed := true;
      } else {
        kept := kept + [worlds[i]];
      }
      i := i + 1;
    }
    assert worlds[..i] == worlds;
  }
}
