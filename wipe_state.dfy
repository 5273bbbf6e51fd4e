/**
 * The state of WorldWipePlugin as one value, and what each of its operations makes of it:
 * loadConfig, removeWorldSchedulesInternal, scheduleNextAutomaticWipe, executeWipeForWorld,
 * runScheduledWipeTick, the body scheduleWorldCleanup schedules, updateWorldLastWipe,
 * recordWorldWipe, catchUpMissedWipes with the body scheduleMissedWipeQueue schedules,
 * wipeWorldNow, updateWorldSchedule and handlePlayerDisconnect.
 *
 * The scheduler is a queue of pending steps (the cleanup attempts and the catch-up steps, each
 * due a second after it was queued) plus the one slot of the automatic wipe timer. The
 * configuration file is the Settings value loadOrCreate reads from it.
 */
module WipeState {
  import opened JavaText
  import opened Calendar
  import Config
  import opened Occurrence
  import opened Registry
  import opened Offline
  import opened Selection

  /** scheduleWorldCleanup's maxAttempts. */
  const MaxCleanupAttempts: int := 15

  /** A task waiting in the scheduler: a cleanup attempt for a world, or the catch-up step for
      worlds[index]. */
  datatype Step =
    | Cleanup(world: string, regenerate: bool, attempt: int)
    | MissedQueue(worlds: seq<string>, index: nat)

  /** scheduledWipeFuture: the tick for these worlds, due after the delay. */
  datatype PendingTick = PendingTick(worlds: seq<string>, delayMillis: int)

  /** The outcome of wipeWorldNow; only Started is a success. */
  datatype WipeResult =
    | Started
    | NameRequired
    | AlreadyInProgress
    | Protected
    | NoDestination
    | TargetIsDestination
    | NotLoaded
    | Failed

  /** The automatic wipe timer: scheduledWipeFuture and the snapshot beside it. */
  datatype Timer = Timer(scheduledWipe: Option<PendingTick>, nextScheduledWipeAt: Option<Instant>,
                         nextScheduledWorlds: seq<string>)

  /** The fields loadConfig sets from the configuration file. */
  datatype LoadedSettings = LoadedSettings(
    protectedWorlds: seq<string>,
    worldSchedules: seq<WorldSchedule>,
    schedulingEnabled: bool,
    regenerateOnWipe: bool,
    offlineTrackingEnabled: bool,
    offlineTrackingSaveFile: bool,
    offlineTrackingMaxDays: int,
    offlineTrackingMode: TrackingMode,
    worldRegenerateOnWipe: map<string, bool>,
    worldLastWipe: map<string, Instant>)

  /** The offline tracking stores. */
  datatype Tracking = Tracking(playerLastSeen: map<PlayerId, Instant>, offlineWorldLastWipe: map<string, Instant>)

  /** The fields of WorldWipePlugin, the scheduler's queue and the configuration file. */
  datatype PluginState = PluginState(
    wipeInProgress: bool,
    steps: seq<Step>,
    timer: Timer,
    stored: Config.Settings,
    settings: LoadedSettings,
    tracking: Tracking)

  /** What one step sees of the outside: the server, the clock and the java.time calls. */
  datatype Env = Env(universe: Universe, clock: Clock, lib: TimeLibrary)


  /** The plugin's field initialisers, with the configuration file as it stands. */
  function Initial(stored: Config.Settings): PluginState
  {
    PluginState(false, [], Timer(None, None, []), stored,
                LoadedSettings([DefaultProtectedWorld], [], false, false, true, true, 90, All, map[], map[]),
                Tracking(map[], map[]))
  }

  // ---------------------------------------------------------------------------
  // The scheduler's queue
  // ---------------------------------------------------------------------------

  /** A queued step the plugin can have made: a cleanup attempt numbered 0..15, and a catch-up
      step whose index is inside its list. */
  predicate StepOk(step: Step)
  {
    match step
    case Cleanup(_, _, attempt) => 0 <= attempt <= MaxCleanupAttempts
    case MissedQueue(worlds, index) => index < |worlds|
  }

  predicate StepsOk(steps: seq<Step>)
  {
    forall i :: 0 <= i < |steps| ==> StepOk(steps[i])
  }

  /** The steps appended to `before` are all first cleanup attempts. */
  predicate QueuedFirstAttempts(before: seq<Step>, after: seq<Step>)
  {
    |before| <= |after| && after[..|before|] == before &&
    forall i :: |before| <= i < |after| ==> after[i].Cleanup? && after[i].attempt == 0
  }

  /** scheduleMissedWipeQueue(worlds, index): queues the step for worlds[index], if there is one. */
  function Enqueued(s: PluginState, worlds: seq<string>, index: nat): (r: PluginState)
    ensures index < |worlds| ==> r == s.(steps := s.steps + [MissedQueue(worlds, index)])
    ensures index >= |worlds| ==> r == s
  {
    if index >= |worlds| then s else s.(steps := s.steps + [MissedQueue(worlds, index)])
  }

  /** scheduleWorldCleanup(world, regenerate, attempt): queues the attempt. */
  function CleanupQueued(s: PluginState, world: string, regenerate: bool, attempt: int): PluginState
  {
    s.(steps := s.steps + [Cleanup(world, regenerate, attempt)])
  }

  // ---------------------------------------------------------------------------
  // loadConfig and the offline stores
  // ---------------------------------------------------------------------------

  /** writeYaml followed by loadOrCreate: the configuration the file reads back as. */
  function Reread(c: Config.Settings): Config.Settings
  {
    Config.Defaulted(Config.SettingsOf(Config.BuildYamlMap(c)))
  }

  /** A written configuration that survives the round trip reads back as its defaulted self. */
  lemma RereadWritable(c: Config.Settings)
    requires Config.Writable(c)
    ensures Reread(c) == Config.Defaulted(c)
  {
    Config.YamlRoundTrip(c);
  }

  /** prunePlayerLastSeen and pruneOfflineWorldLastWipe: nothing when tracking is off or the
      horizon is not positive; otherwise the entries before now minus the horizon go. */
  function PruneIfEnabled<K>(m: map<K, Instant>, enabled: bool, maxDays: int, now: Instant): (r: map<K, Instant>)
    ensures !enabled || maxDays <= 0 ==> r == m
    ensures enabled && maxDays > 0 ==> r == Pruned(m, Cutoff(now, maxDays))
  {
    if !enabled || maxDays <= 0 then m else Pruned(m, Cutoff(now, maxDays))
  }

  /** An instant the pruning keeps: any, when the horizon is not positive; otherwise one at or
      after now minus the horizon. */
  predicate WithinHorizon(i: Instant, now: Instant, maxDays: int)
  {
    maxDays <= 0 || Cutoff(now, maxDays) <= i
  }

  /** The fields loadConfig takes from the resolved configuration. */
  function SettingsFrom(stored: Config.Settings, lib: TimeLibrary): (r: LoadedSettings)
    ensures |r.protectedWorlds| > 0 && r.offlineTrackingMaxDays >= 0
  {
    var effective := Config.Resolve(stored);
    var protectedWorlds := ProtectedWorldsOf(effective.protectedWorlds);
    LoadedSettings(
      protectedWorlds,
      SchedulesOf(effective.worlds, protectedWorlds, lib),
      effective.schedulingEnabled,
      effective.regenerateOnWipe,
      effective.offlineTrackingEnabled,
      effective.offlineTrackingSaveFile,
      Max(0, effective.offlineTrackingMaxDays),
      TrackingModeOf(effective.offlineTrackingMode),
      RegenerateOverrides(effective.worlds),
      LastWipes(effective.worlds, lib))
  }

  /** mergeWorldLastWipeIntoOffline with tracking on: nothing for an empty map; otherwise every
      entry merged in, then the store pruned (the save that follows prunes again, which changes
      nothing by PrunedTwice). */
  ghost function MergedIntoOffline(offline: map<string, Instant>, worldLastWipe: map<string, Instant>, maxDays: int,
                                   now: Instant): map<string, Instant>
  {
    if |worldLastWipe| == 0 then offline
    else PruneIfEnabled(MergeAll(offline, worldLastWipe, worldLastWipe.Keys), true, maxDays, now)
  }

  /** The offline stores after loadConfig: cleared with tracking off; otherwise pruned (reading
      them back from their files gives what was last saved, which is the store itself) and the
      configured last wipes merged in. */
  ghost function TrackingLoaded(t: Tracking, settings: LoadedSettings, now: Instant): Tracking
  {
    var maxDays := settings.offlineTrackingMaxDays;
    if !settings.offlineTrackingEnabled then Tracking(map[], map[])
    else
      Tracking(PruneIfEnabled(t.playerLastSeen, true, maxDays, now),
               MergedIntoOffline(PruneIfEnabled(t.offlineWorldLastWipe, true, maxDays, now), settings.worldLastWipe,
                                 maxDays, now))
  }

  /** loadConfig. */
  ghost function Loaded(s: PluginState, env: Env): (r: PluginState)
    ensures r == s.(settings := r.settings, tracking := r.tracking)
    ensures r.settings == SettingsFrom(s.stored, env.lib)
  {
    var settings := SettingsFrom(s.stored, env.lib);
    s.(settings := settings, tracking := TrackingLoaded(s.tracking, settings, env.clock.now))
  }

  /** recordWorldWipe, with the save that follows it: the instant under the world's key when
      tracking is on, then the store pruned when it is saved to its file. */
  function Recorded(s: PluginState, worldName: string, instant: Instant, now: Instant): (r: PluginState)
    ensures r == s.(tracking := r.tracking) && r.tracking.playerLastSeen == s.tracking.playerLastSeen
  {
    var settings := s.settings;
    if !settings.offlineTrackingEnabled || IsBlank(worldName) then s
    else
      var m := RecordedWipe(s.tracking.offlineWorldLastWipe, true, worldName, instant);
      s.(tracking := s.tracking.(offlineWorldLastWipe :=
           if settings.offlineTrackingSaveFile then PruneIfEnabled(m, true, settings.offlineTrackingMaxDays, now) else m))
  }

  // ---------------------------------------------------------------------------
  // removeWorldSchedulesInternal, removeWorldSchedule, scheduleNextAutomaticWipe
  // ---------------------------------------------------------------------------

  /** The configuration file with its worlds replaced, written and read back. */
  function WithWorlds(stored: Config.Settings, worlds: Config.Worlds): Config.Settings
  {
    Reread(stored.(worlds := Some(worlds)))
  }

  /** removeWorldSchedulesInternal up to its reschedule: the configured worlds whose trimmed,
      lower-cased key matches a name go, the file is written and reloaded, and the answer says
      whether any went. */
  ghost function RemovedEntries(s: PluginState, worldNames: seq<string>, env: Env): (r: (PluginState, bool))
    ensures !r.1 ==> r.0 == s
    ensures r.0 == s.(stored := r.0.stored, settings := r.0.settings, tracking := r.0.tracking)
  {
    var normalized := RemovalKeys(worldNames);
    if |worldNames| == 0 || |normalized| == 0 then (s, false)
    else if s.stored.worlds.None? || |s.stored.worlds.value| == 0 then (s, false)
    else
      var kept := KeptEntries(s.stored.worlds.value, normalized);
      if kept == s.stored.worlds.value then (s, false)
      else (Loaded(s.(stored := WithWorlds(s.stored, kept)), env), true)
  }

  /** The timer scheduleNextAutomaticWipe leaves, from the settings after pruning: nothing when
      scheduling is off or there are no schedules; otherwise the earliest next instant among the
      reachable schedules, the worlds due then, and the tick armed for them. */
  function ArmedTimer(settings: LoadedSettings, env: Env): Timer
    requires ValidClock(env.clock)
  {
    if !settings.schedulingEnabled || |settings.worldSchedules| == 0 then Timer(None, None, [])
    else
      var (earliestInstant, earliestWorlds) :=
        Earliest(Candidates(settings.worldSchedules, env.universe, settings.worldRegenerateOnWipe,
                            settings.regenerateOnWipe, env.clock));
      match earliestInstant
      case None => Timer(None, None, [])
      case Some(t) => Timer(Some(PendingTick(earliestWorlds, DelayMillis(env.clock.now, t))), Some(t), earliestWorlds)
  }

  /** The schedules scheduleNextAutomaticWipe removes: those of worlds neither loaded, loadable
      nor regenerated. */
  function PrunedBeforeArming(settings: LoadedSettings, universe: Universe): seq<string>
  {
    if |settings.worldSchedules| == 0 then []
    else UnreachableWorlds(settings.worldSchedules, universe, settings.worldRegenerateOnWipe, settings.regenerateOnWipe)
  }

  /** scheduleNextAutomaticWipe: the pending tick is cancelled, the unreachable worlds' schedules
      are removed (without a reschedule), and the timer is armed from what is left. */
  ghost function Rearmed(s: PluginState, env: Env): (r: PluginState)
    requires ValidClock(env.clock)
    ensures r == s.(timer := r.timer, stored := r.stored, settings := r.settings, tracking := r.tracking)
    ensures r.timer == ArmedTimer(r.settings, env)
  {
    var s1 := s.(timer := s.timer.(scheduledWipe := None));
    var pruneSchedules := PrunedBeforeArming(s1.settings, env.universe);
    var s2 := if |pruneSchedules| == 0 then s1 else RemovedEntries(s1, pruneSchedules, env).0;
    s2.(timer := ArmedTimer(s2.settings, env))
  }

  /** removeWorldSchedulesInternal: the removal, then a reschedule when asked for and something
      was removed. */
  ghost function RemovedSchedules(s: PluginState, worldNames: seq<string>, reschedule: bool, env: Env)
    : (r: (PluginState, bool))
    requires ValidClock(env.clock)
    ensures !r.1 ==> r.0 == s
    ensures r.0 == s.(timer := r.0.timer, stored := r.0.stored, settings := r.0.settings, tracking := r.0.tracking)
  {
    var (s1, removed) := RemovedEntries(s, worldNames, env);
    if removed && reschedule then (Rearmed(s1, env), true) else (s1, removed)
  }

  /** removeWorldSchedule: false for a blank name; otherwise the removal, rescheduled. */
  ghost function WorldScheduleRemoved(s: PluginState, worldName: string, env: Env): (r: (PluginState, bool))
    requires ValidClock(env.clock)
    ensures !r.1 ==> r.0 == s
    ensures r.0 == s.(timer := r.0.timer, stored := r.0.stored, settings := r.0.settings, tracking := r.0.tracking)
  {
    if IsBlank(worldName) then (s, false) else RemovedSchedules(s, [worldName], true, env)
  }

  // ---------------------------------------------------------------------------
  // executeWipeForWorld and runScheduledWipeTick
  // ---------------------------------------------------------------------------

  /** executeWipeForWorld's guard: the target is named, not protected and not the destination. */
  predicate WipeEligible(s: PluginState, target: string, destination: string)
  {
    !IsBlank(target) && !IsProtectedWorld(target, s.settings.protectedWorlds) && !EqualsIgnoreCase(destination, target)
  }

  /** executeWipeForWorld towards the named destination: the new state, whether a cleanup was
      started, and whether evacuating the loaded world threw. */
  ghost function ExecutedWipe(s: PluginState, target: string, destination: string, env: Env)
    : (r: (PluginState, bool, bool))
    requires ValidClock(env.clock)
  {
    if !WipeEligible(s, target, destination) then (s, false, false)
    else
      var shouldRegenerate := ShouldRegenerateWorld(target, s.settings.worldRegenerateOnWipe, s.settings.regenerateOnWipe);
      if env.universe.loaded(target) then
        if env.universe.evacuationFails(target) then (s, false, true)
        else (CleanupQueued(s, target, shouldRegenerate, 0), true, false)
      else if shouldRegenerate || env.universe.loadable(target) then
        (CleanupQueued(s, target, shouldRegenerate, 0), true, false)
      else (WorldScheduleRemoved(s, target, env).0, false, false)
  }

  /** The loop of runScheduledWipeTick: each target in turn, until one throws. */
  ghost function ExecutedAll(s: PluginState, targets: seq<string>, destination: string, started: bool, env: Env)
    : (r: (PluginState, bool))
    requires ValidClock(env.clock)
    decreases |targets|
  {
    if |targets| == 0 then (s, started)
    else
      var (s1, startedOne, threw) := ExecutedWipe(s, targets[0], destination, env);
      if threw then (s1, started)
      else ExecutedAll(s1, targets[1..], destination, started || startedOne, env)
  }

  /** runScheduledWipeTick: nothing while another wipe holds the flag; otherwise the flag is
      taken, each target is wiped towards the destination, and the flag is given back unless a
      cleanup was started. */
  ghost function Ticked(s: PluginState, scheduledWorlds: seq<string>, env: Env): PluginState
    requires ValidClock(env.clock)
  {
    if s.wipeInProgress then s
    else if !s.settings.schedulingEnabled || |scheduledWorlds| == 0 then s
    else match Destination(s.settings.protectedWorlds, env.universe)
      case None => s
      case Some(destination) =>
        var (s2, startedCleanup) := ExecutedAll(s.(wipeInProgress := true), scheduledWorlds, destination, false, env);
        if startedCleanup then s2 else s2.(wipeInProgress := false)
  }

  /** The automatic timer fires: its tick runs, then scheduleNextAutomaticWipe. */
  ghost function Fired(s: PluginState, env: Env): PluginState
    requires ValidClock(env.clock)
  {
    match s.timer.scheduledWipe
    case None => s
    case Some(pending) => Rearmed(Ticked(s, pending.worlds, env), env)
  }

  // ---------------------------------------------------------------------------
  // The cleanup attempt, updateWorldLastWipe
  // ---------------------------------------------------------------------------

  /** updateWorldLastWipe: false for a blank name or one the configured worlds do not hold
      under exactly that key; otherwise the entry's lastWipe is the instant's text, and the
      file is written and reloaded. */
  ghost function UpdatedLastWipe(s: PluginState, worldName: string, instant: Instant, env: Env)
    : (r: (PluginState, bool))
    ensures !r.1 ==> r.0 == s
    ensures r.0 == s.(stored := r.0.stored, settings := r.0.settings, tracking := r.0.tracking)
  {
    if IsBlank(worldName) || s.stored.worlds.None? then (s, false)
    else
      var worlds := s.stored.worlds.value;
      if worldName !in Config.Names(worlds) then (s, false)
      else (Loaded(s.(stored := WithWorlds(s.stored, WorldsWithLastWipe(worlds, worldName, env.lib.instantText(instant)))),
                   env), true)
  }

  /** The configured worlds after updateWorldLastWipe: the named entry's lastWipe replaced. */
  function WorldsWithLastWipe(worlds: Config.Worlds, worldName: string, text: string): Config.Worlds
    requires worldName in Config.Names(worlds)
  {
    var entry := Config.Lookup(worlds, worldName).value;
    Config.Put(worlds, worldName, entry.(lastWipe := Some(text)))
  }

  /** After the world is deleted: with regeneration, the configured last wipe is updated and the
      wipe recorded; without, the wipe is recorded and the world's schedule removed. */
  ghost function Succeeded(s: PluginState, world: string, regenerate: bool, env: Env): (r: PluginState)
    requires ValidClock(env.clock)
    ensures r.wipeInProgress == s.wipeInProgress && r.steps == s.steps
  {
    var wipeInstant := env.clock.now;
    if regenerate then Recorded(UpdatedLastWipe(s, world, wipeInstant, env).0, world, wipeInstant, env.clock.now)
    else WorldScheduleRemoved(Recorded(s, world, wipeInstant, env.clock.now), world, env).0
  }

  /** A failed attempt: the next one is queued while attempts remain. */
  function Retried(s: PluginState, world: string, regenerate: bool, attempt: int): PluginState
  {
    if attempt < MaxCleanupAttempts then CleanupQueued(s, world, regenerate, attempt + 1) else s
  }

  /** Whether the cleanup attempt fails: players are still in the loaded world, or deleting it
      fails. */
  predicate CleanupFails(world: string, universe: Universe)
  {
    (universe.loaded(world) && universe.hasPlayers(world)) || !universe.deletes(world)
  }

  /** The body scheduleWorldCleanup schedules: a failed attempt is retried, otherwise the wipe
      succeeded. Every exit gives the flag back. */
  ghost function CleanedUp(s: PluginState, world: string, regenerate: bool, attempt: int, env: Env): PluginState
    requires ValidClock(env.clock)
  {
    var r := if CleanupFails(world, env.universe) then Retried(s, world, regenerate, attempt)
             else Succeeded(s, world, regenerate, env);
    r.(wipeInProgress := false)
  }

  // ---------------------------------------------------------------------------
  // catchUpMissedWipes and the catch-up queue
  // ---------------------------------------------------------------------------

  /** catchUpMissedWipes: with scheduling on, the missed schedules' worlds are queued from the
      first. */
  function CaughtUp(s: PluginState, env: Env): PluginState
    requires ValidClock(env.clock)
  {
    if !s.settings.schedulingEnabled || |s.settings.worldSchedules| == 0 then s
    else Enqueued(s, MissedWorlds(s.settings.worldSchedules, s.settings.worldLastWipe, env.clock), 0)
  }

  /** The body scheduleMissedWipeQueue schedules: nothing once scheduling is off; the same index
      again while another wipe holds the flag; otherwise the flag is taken, the world wiped, the
      flag given back unless a cleanup started, and the next index queued. */
  ghost function MissedStepped(s: PluginState, worlds: seq<string>, index: nat, env: Env): PluginState
    requires ValidClock(env.clock)
  {
    if !s.settings.schedulingEnabled then s
    else if s.wipeInProgress then Enqueued(s, worlds, index)
    else match Destination(s.settings.protectedWorlds, env.universe)
      case None => Enqueued(s, worlds, index + 1)
      case Some(destination) =>
        if index >= |worlds| then Enqueued(s, worlds, index + 1)
        else
          var (s2, startedCleanup, _) := ExecutedWipe(s.(wipeInProgress := true), worlds[index], destination, env);
          Enqueued(if startedCleanup then s2 else s2.(wipeInProgress := false), worlds, index + 1)
  }

  /** The scheduler runs the first queued step. */
  ghost function StepRun(s: PluginState, env: Env): PluginState
    requires ValidClock(env.clock)
  {
    if |s.steps| == 0 then s
    else
      var rest := s.(steps := s.steps[1..]);
      match s.steps[0]
      case Cleanup(world, regenerate, attempt) => CleanedUp(rest, world, regenerate, attempt, env)
      case MissedQueue(worlds, index) => MissedStepped(rest, worlds, index, env)
  }

  // ---------------------------------------------------------------------------
  // wipeWorldNow, updateWorldSchedule, handlePlayerDisconnect
  // ---------------------------------------------------------------------------

  /** wipeWorldNow. Its rejections after taking the flag keep it; only a throw gives it back. */
  function WipedNow(s: PluginState, worldName: string, env: Env): (r: (PluginState, WipeResult))
  {
    if IsBlank(worldName) then (s, NameRequired)
    else if s.wipeInProgress then (s, AlreadyInProgress)
    else
      var held := s.(wipeInProgress := true);
      if IsProtectedWorld(worldName, s.settings.protectedWorlds) then (held, Protected)
      else match Destination(s.settings.protectedWorlds, env.universe)
        case None => (held, NoDestination)
        case Some(destination) =>
          if EqualsIgnoreCase(destination, worldName) then (held, TargetIsDestination)
          else if !env.universe.loaded(worldName) then (held, NotLoaded)
          else if env.universe.evacuationFails(worldName) then (s, Failed)
          else
            var shouldRegenerate := ShouldRegenerateWorld(worldName, s.settings.worldRegenerateOnWipe,
                                                          s.settings.regenerateOnWipe);
            (CleanupQueued(held, worldName, shouldRegenerate, 0), Started)
  }

  /** The entry updateWorldSchedule stores: the written schedule, the override kept, and a
      lastWipe of now when there was none. */
  function ScheduledEntry(entry: Config.WorldEntry, schedule: Config.Schedule, nowText: string): (r: Config.WorldEntry)
    ensures r.schedule == schedule && r.regenerateOnWipe == entry.regenerateOnWipe
    ensures entry.lastWipe.Some? && !IsBlank(entry.lastWipe.value) ==> r.lastWipe == entry.lastWipe
    ensures entry.lastWipe.None? || IsBlank(entry.lastWipe.value) ==> r.lastWipe == Some(nowText)
  {
    var lastWipe := if entry.lastWipe.None? || IsBlank(entry.lastWipe.value) then Some(nowText) else entry.lastWipe;
    entry.(schedule := schedule, lastWipe := lastWipe)
  }

  /** The configured worlds after updateWorldSchedule: the world's entry (a new one when the
      exact name is absent) takes the written schedule. */
  function WorldsWithSchedule(stored: Config.Settings, worldName: string, mode: ScheduleMode, day: Option<Weekday>,
                              dayOfMonth: Option<int>, time: ClockTime, zone: Option<string>, lib: TimeLibrary,
                              now: Instant): Config.Worlds
  {
    var worlds := if stored.worlds.Some? then stored.worlds.value else [];
    var entry := match Config.Lookup(worlds, worldName) case Some(e) => e case None => Config.DefaultWorldEntry;
    var schedule := WrittenSchedule(mode, day, dayOfMonth, time, zone, lib);
    Config.Put(worlds, worldName, ScheduledEntry(entry, schedule, lib.instantText(now)))
  }

  /** updateWorldSchedule: false for a blank name or a missing mode or time; otherwise the new
      worlds are written and reloaded, and the timer re-armed. */
  ghost function ScheduleUpdated(s: PluginState, worldName: string, mode: Option<ScheduleMode>, day: Option<Weekday>,
                                 dayOfMonth: Option<int>, time: Option<ClockTime>, zone: Option<string>, env: Env)
    : (r: (PluginState, bool))
    requires ValidClock(env.clock)
  {
    if IsBlank(worldName) || mode.None? || time.None? then (s, false)
    else
      var worlds := WorldsWithSchedule(s.stored, worldName, mode.value, day, dayOfMonth, time.value, zone, env.lib,
                                       env.clock.now);
      (Rearmed(Loaded(s.(stored := WithWorlds(s.stored, worlds)), env), env), true)
  }

  /** handlePlayerDisconnect: with tracking on, the player's last-seen time becomes now, except
      in RESET_WORLD_ONLY mode when the player leaves from anything but a reset world; the save
      that follows prunes the store. */
  function Disconnected(s: PluginState, player: Option<PlayerId>, currentWorld: Option<string>, now: Instant)
    : (r: PluginState)
    ensures r == s.(tracking := r.tracking) && r.tracking.offlineWorldLastWipe == s.tracking.offlineWorldLastWipe
  {
    var settings := s.settings;
    if !settings.offlineTrackingEnabled || player.None? then s
    else if settings.offlineTrackingMode == ResetWorldOnly &&
            (currentWorld.None? || IsBlank(currentWorld.value) ||
             !IsResetWorld(settings.worldSchedules, currentWorld.value)) then s
    else
      var m := s.tracking.playerLastSeen[player.value := now];
      s.(tracking := s.tracking.(playerLastSeen :=
           if settings.offlineTrackingSaveFile then PruneIfEnabled(m, true, settings.offlineTrackingMaxDays, now) else m))
  }

  // ---------------------------------------------------------------------------
  // The plugin as a whole
  // ---------------------------------------------------------------------------

  /** What can happen to the plugin: a server start, a reload, the timer firing, the scheduler
      running its first queued step, a manual wipe, a schedule written or removed, a player
      leaving. */
  datatype Event =
    | Start
    | Reload
    | TimerFires
    | RunStep
    | WipeNow(worldName: string)
    | UpdateSchedule(worldName: string, mode: Option<ScheduleMode>, day: Option<Weekday>, dayOfMonth: Option<int>,
                     time: Option<ClockTime>, zone: Option<string>)
    | RemoveSchedule(worldName: string)
    | Disconnect(player: Option<PlayerId>, currentWorld: Option<string>)

  /** The state after an event: start runs loadConfig, catchUpMissedWipes and
      scheduleNextAutomaticWipe; reloadConfig runs loadConfig and scheduleNextAutomaticWipe. */
  ghost function Next(s: PluginState, event: Event, env: Env): PluginState
    requires ValidClock(env.clock)
  {
    match event
    case Start => Rearmed(CaughtUp(Loaded(s, env), env), env)
    case Reload => Rearmed(Loaded(s, env), env)
    case TimerFires => Fired(s, env)
    case RunStep => StepRun(s, env)
    case WipeNow(worldName) => WipedNow(s, worldName, env).0
    case UpdateSchedule(worldName, mode, day, dayOfMonth, time, zone) =>
      ScheduleUpdated(s, worldName, mode, day, dayOfMonth, time, zone, env).0
    case RemoveSchedule(worldName) => WorldScheduleRemoved(s, worldName, env).0
    case Disconnect(player, currentWorld) => Disconnected(s, player, currentWorld, env.clock.now)
  }
}

module WipeStateFacts {
  import opened JavaText
  import opened Calendar
  import opened Occurrence
  import Config
  import opened Registry
  import opened Offline
  import opened Selection
  import opened WipeState

  /** executeWipeForWorld starts a cleanup exactly when the target is eligible and is loaded and
      evacuates, or is regenerated or loadable; the started cleanup is the target's first
      attempt. Only an evacuation throws, and then nothing changes. The flag and the queue are
      otherwise left alone. */
  lemma ExecutedWipeShape(s: PluginState, target: string, destination: string, env: Env)
    requires ValidClock(env.clock)
    ensures var (r, started, threw) := ExecutedWipe(s, target, destination, env);
            var u := env.universe;
            var shouldRegenerate := ShouldRegenerateWorld(target, s.settings.worldRegenerateOnWipe,
                                                          s.settings.regenerateOnWipe);
            r.wipeInProgress == s.wipeInProgress &&
            (started <==> WipeEligible(s, target, destination) &&
                          (if u.loaded(target) then !u.evacuationFails(target) else shouldRegenerate || u.loadable(target))) &&
            (threw <==> WipeEligible(s, target, destination) && u.loaded(target) && u.evacuationFails(target)) &&
            (started ==> r.steps == s.steps + [Cleanup(target, shouldRegenerate, 0)]) &&
            (!started ==> r.steps == s.steps) &&
            (!WipeEligible(s, target, destination) || threw ==> r == s)
  {
  }

  /** The loop of a tick only appends first cleanup attempts, leaves the flag alone, and reports
      a started cleanup exactly when one was appended (or one had been started before). */
  lemma {:induction false} ExecutedAllShape(s: PluginState, targets: seq<string>, destination: string, started: bool,
                                            env: Env)
    requires ValidClock(env.clock)
    ensures var (r, startedAny) := ExecutedAll(s, targets, destination, started, env);
            r.wipeInProgress == s.wipeInProgress && QueuedFirstAttempts(s.steps, r.steps) &&
            (startedAny <==> started || |r.steps| > |s.steps|)
    decreases |targets|
  {
    if |targets| > 0 {
      var (s1, startedOne, threw) := ExecutedWipe(s, targets[0], destination, env);
      ExecutedWipeShape(s, targets[0], destination, env);
      if !threw {
        ExecutedAllShape(s1, targets[1..], destination, started || startedOne, env);
        var (r, _) := ExecutedAll(s1, targets[1..], destination, started || startedOne, env);
        assert r.steps[..|s1.steps|] == s1.steps;
        assert r.steps[..|s.steps|] == s1.steps[..|s.steps|];
      }
    }
  }

  /** A tick while the flag is held changes nothing. From a free flag it only queues first
      cleanup attempts, and leaves the flag held exactly when it queued one. */
  lemma TickedShape(s: PluginState, scheduledWorlds: seq<string>, env: Env)
    requires ValidClock(env.clock)
    ensures s.wipeInProgress ==> Ticked(s, scheduledWorlds, env) == s
    ensures var r := Ticked(s, scheduledWorlds, env);
            QueuedFirstAttempts(s.steps, r.steps) &&
            (!s.wipeInProgress ==> (r.wipeInProgress <==> |r.steps| > |s.steps|))
  {
    if !s.wipeInProgress && s.settings.schedulingEnabled && |scheduledWorlds| > 0 {
      match Destination(s.settings.protectedWorlds, env.universe)
      case None =>
      case Some(destination) =>
        ExecutedAllShape(s.(wipeInProgress := true), scheduledWorlds, destination, false, env);
    }
  }

  /** A cleanup attempt always gives the flag back. A failed attempt queues the next one while
      fewer than 15 retries were made and changes nothing else; a successful one queues
      nothing. */
  lemma CleanedUpShape(s: PluginState, world: string, regenerate: bool, attempt: int, env: Env)
    requires ValidClock(env.clock)
    ensures var r := CleanedUp(s, world, regenerate, attempt, env);
            !r.wipeInProgress &&
            (CleanupFails(world, env.universe) && attempt < MaxCleanupAttempts ==>
               r == s.(wipeInProgress := false, steps := s.steps + [Cleanup(world, regenerate, attempt + 1)])) &&
            (CleanupFails(world, env.universe) && attempt >= MaxCleanupAttempts ==> r == s.(wipeInProgress := false)) &&
            (!CleanupFails(world, env.universe) ==> r.steps == s.steps)
  {
  }

  /** The catch-up step: with scheduling off nothing happens; while the flag is held the same
      index is queued again; otherwise the next index is queued last, after at most one first
      cleanup attempt, and the flag stays held exactly when that attempt was queued. */
  lemma MissedSteppedShape(s: PluginState, worlds: seq<string>, index: nat, env: Env)
    requires ValidClock(env.clock)
    ensures var r := MissedStepped(s, worlds, index, env);
            (!s.settings.schedulingEnabled ==> r == s) &&
            (s.settings.schedulingEnabled && s.wipeInProgress ==> r == Enqueued(s, worlds, index)) &&
            (s.settings.schedulingEnabled && !s.wipeInProgress ==>
               var next := if index + 1 < |worlds| then [MissedQueue(worlds, index + 1)] else [];
               var mid := r.steps[..|r.steps| - |next|];
               |next| <= |r.steps| && r.steps == mid + next &&
               QueuedFirstAttempts(s.steps, mid) && |mid| <= |s.steps| + 1 &&
               (r.wipeInProgress <==> |mid| > |s.steps|))
  {
    if s.settings.schedulingEnabled && !s.wipeInProgress {
      match Destination(s.settings.protectedWorlds, env.universe)
      case None =>
      case Some(destination) =>
        if index < |worlds| {
          ExecutedWipeShape(s.(wipeInProgress := true), worlds[index], destination, env);
        }
    }
  }

  /** wipeWorldNow's outcomes: a blank name or a held flag is refused without any change; a
      start takes the flag and queues the world's first cleanup attempt; a failed evacuation
      leaves the state as it was; every other refusal leaves the flag taken and the queue as it
      was. */
  lemma WipedNowShape(s: PluginState, worldName: string, env: Env)
    ensures var (r, result) := WipedNow(s, worldName, env);
            (result == NameRequired <==> IsBlank(worldName)) &&
            (result == AlreadyInProgress <==> !IsBlank(worldName) && s.wipeInProgress) &&
            (result in {NameRequired, AlreadyInProgress, Failed} ==> r == s) &&
            (result == Started ==>
               !s.wipeInProgress && env.universe.loaded(worldName) &&
               r == s.(wipeInProgress := true,
                       steps := s.steps + [Cleanup(worldName, ShouldRegenerateWorld(worldName,
                                             s.settings.worldRegenerateOnWipe, s.settings.regenerateOnWipe), 0)])) &&
            (result in {Protected, NoDestination, TargetIsDestination, NotLoaded} ==>
               !s.wipeInProgress && r == s.(wipeInProgress := true)) &&
            (result == Protected <==>
               !IsBlank(worldName) && !s.wipeInProgress && IsProtectedWorld(worldName, s.settings.protectedWorlds))
  {
  }

  /** After wipeWorldNow refuses a protected world, no tick, catch-up step or manual wipe can
      proceed: the flag stays taken. */
  lemma ProtectedRefusalBlocksWipes(s: PluginState, protectedName: string, worlds: seq<string>, index: nat,
                                    other: string, env: Env)
    requires ValidClock(env.clock)
    requires WipedNow(s, protectedName, env).1 == Protected
    ensures var held := WipedNow(s, protectedName, env).0;
            Ticked(held, worlds, env) == held &&
            WipedNow(held, other, env).1 in {NameRequired, AlreadyInProgress} &&
            (held.settings.schedulingEnabled ==> MissedStepped(held, worlds, index, env) == Enqueued(held, worlds, index))
  {
    WipedNowShape(s, protectedName, env);
    var held := WipedNow(s, protectedName, env).0;
    TickedShape(held, worlds, env);
    WipedNowShape(held, other, env);
    MissedSteppedShape(held, worlds, index, env);
  }

  /** The timer scheduleNextAutomaticWipe arms: none when scheduling is off or no schedule is
      reachable; otherwise the earliest next instant of the reachable schedules, every world due
      at exactly that instant in schedule order, and a tick for those worlds after the
      non-negative delay until it. */
  lemma ArmedTimerShape(settings: LoadedSettings, env: Env)
    requires ValidClock(env.clock)
    ensures var r := ArmedTimer(settings, env);
            var c := Candidates(settings.worldSchedules, env.universe, settings.worldRegenerateOnWipe,
                                settings.regenerateOnWipe, env.clock);
            (r.nextScheduledWipeAt.None? <==> !settings.schedulingEnabled || |c| == 0) &&
            (r.nextScheduledWipeAt.None? ==> r.scheduledWipe.None? && r.nextScheduledWorlds == []) &&
            (r.nextScheduledWipeAt.Some? ==>
               var t := r.nextScheduledWipeAt.value;
               (forall i :: 0 <= i < |c| ==> t <= c[i].1) &&
               (exists i :: 0 <= i < |c| && c[i].1 == t) &&
               r.nextScheduledWorlds == WorldsAt(c, t) &&
               r.scheduledWipe == Some(PendingTick(r.nextScheduledWorlds, DelayMillis(env.clock.now, t))))
  {
    var c := Candidates(settings.worldSchedules, env.universe, settings.worldRegenerateOnWipe,
                        settings.regenerateOnWipe, env.clock);
    EarliestIsMinimum(c);
  }

  /** The offline stores after loadConfig: empty with tracking off. With it on, the players kept
      are those seen within the horizon, with their times; every configured last wipe within
      the horizon is in the world store at a value no earlier; and nothing older than the
      horizon is left. */
  lemma {:induction false} TrackingLoadedShape(t: Tracking, settings: LoadedSettings, now: Instant)
    requires settings.offlineTrackingMaxDays >= 0
    ensures var r := TrackingLoaded(t, settings, now);
            var maxDays := settings.offlineTrackingMaxDays;
            (!settings.offlineTrackingEnabled ==> r == Tracking(map[], map[])) &&
            (settings.offlineTrackingEnabled ==>
               (forall p :: p in r.playerLastSeen <==> p in t.playerLastSeen && WithinHorizon(t.playerLastSeen[p], now, maxDays)) &&
               (forall p :: p in r.playerLastSeen ==> r.playerLastSeen[p] == t.playerLastSeen[p]) &&
               (forall k :: k in settings.worldLastWipe && !IsBlank(k) && WithinHorizon(settings.worldLastWipe[k], now, maxDays) ==>
                  Lower(k) in r.offlineWorldLastWipe && settings.worldLastWipe[k] <= r.offlineWorldLastWipe[Lower(k)]) &&
               (forall k :: k in r.offlineWorldLastWipe ==> WithinHorizon(r.offlineWorldLastWipe[k], now, maxDays)))
  {
    var maxDays := settings.offlineTrackingMaxDays;
    var cutoff := Cutoff(now, maxDays);
    if settings.offlineTrackingEnabled {
      PrunedShape(t.playerLastSeen, cutoff);
      var offline := PruneIfEnabled(t.offlineWorldLastWipe, true, maxDays, now);
      PrunedShape(t.offlineWorldLastWipe, cutoff);
      var incoming := settings.worldLastWipe;
      if |incoming| > 0 {
        var merged := MergeAll(offline, incoming, incoming.Keys);
        MergeAllShape(offline, incoming, incoming.Keys);
        PrunedShape(merged, cutoff);
      }
    }
  }

  /** handlePlayerDisconnect records exactly the tracked disconnects: with tracking on, and in
      RESET_WORLD_ONLY mode only from a reset world. A recorded player's last-seen time is now,
      and every other player keeps the time it had, unless the save pruned it. */
  lemma DisconnectedShape(s: PluginState, player: Option<PlayerId>, currentWorld: Option<string>, now: Instant)
    requires s.settings.offlineTrackingMaxDays >= 0
    ensures var r := Disconnected(s, player, currentWorld, now);
            var settings := s.settings;
            var tracked := settings.offlineTrackingEnabled && player.Some? &&
                           (settings.offlineTrackingMode == All ||
                            (currentWorld.Some? && !IsBlank(currentWorld.value) &&
                             IsResetWorld(settings.worldSchedules, currentWorld.value)));
            (!tracked ==> r == s) &&
            (tracked ==> player.value in r.tracking.playerLastSeen && r.tracking.playerLastSeen[player.value] == now &&
                         forall p :: p in r.tracking.playerLastSeen && p != player.value ==>
                           p in s.tracking.playerLastSeen &&
                           r.tracking.playerLastSeen[p] == s.tracking.playerLastSeen[p])
  {
    var settings := s.settings;
    if settings.offlineTrackingEnabled && player.Some? {
      var m := s.tracking.playerLastSeen[player.value := now];
      PrunedShape(m, Cutoff(now, settings.offlineTrackingMaxDays));
    }
  }

  /** recordWorldWipe: with tracking on and a named world, the world's last wipe as
      handlePlayerConnect reads it is no earlier than the recorded instant, provided the save's
      pruning keeps it. */
  lemma RecordedSeen(s: PluginState, worldName: string, instant: Instant, now: Instant)
    requires s.settings.offlineTrackingEnabled && !IsBlank(worldName)
    requires WithinHorizon(instant, now, s.settings.offlineTrackingMaxDays)
    ensures var r := Recorded(s, worldName, instant, now);
            var seen := OfflineLastWipe(worldName, r.tracking.offlineWorldLastWipe, r.settings.worldLastWipe);
            seen.Some? && instant <= seen.value
  {
    var m := RecordedWipe(s.tracking.offlineWorldLastWipe, true, worldName, instant);
    PrunedShape(m, Cutoff(now, s.settings.offlineTrackingMaxDays));
    var r := Recorded(s, worldName, instant, now);
    assert WorldKey(worldName) in r.tracking.offlineWorldLastWipe;
  }

  /** updateWorldLastWipe succeeds exactly for a named world the file holds under that exact
      key; it then writes that entry with the instant's text as its lastWipe and every other
      entry as it was. */
  lemma UpdatedLastWipeShape(s: PluginState, worldName: string, instant: Instant, other: string, env: Env)
    ensures var (r, updated) := UpdatedLastWipe(s, worldName, instant, env);
            (updated <==> !IsBlank(worldName) && s.stored.worlds.Some? && worldName in Config.Names(s.stored.worlds.value)) &&
            (updated ==>
               var worlds := s.stored.worlds.value;
               var written := WorldsWithLastWipe(worlds, worldName, env.lib.instantText(instant));
               r.stored == WithWorlds(s.stored, written) &&
               Config.Lookup(written, worldName) ==
                 Some(Config.Lookup(worlds, worldName).value.(lastWipe := Some(env.lib.instantText(instant)))) &&
               (other != worldName ==> Config.Lookup(written, other) == Config.Lookup(worlds, other)))
  {
    if !IsBlank(worldName) && s.stored.worlds.Some? && worldName in Config.Names(s.stored.worlds.value) {
      var worlds := s.stored.worlds.value;
      var entry := Config.Lookup(worlds, worldName).value;
      Config.PutLookup(worlds, worldName, entry.(lastWipe := Some(env.lib.instantText(instant))), other);
    }
  }

  /** updateWorldSchedule writes the named entry with the asked-for schedule (which reads back
      as asked for), keeps its regenerate override and any non-blank last wipe, and leaves
      every other entry as it was. */
  lemma WorldsWithScheduleShape(stored: Config.Settings, worldName: string, mode: ScheduleMode, day: Option<Weekday>,
                                dayOfMonth: Option<int>, time: ClockTime, zone: Option<string>, lib: TimeLibrary,
                                now: Instant, other: string)
    requires !IsBlank(lib.timeText(time)) && lib.parseTime(Trim(lib.timeText(time))) == Some(time)
    ensures var worlds := if stored.worlds.Some? then stored.worlds.value else [];
            var before := Config.Lookup(worlds, worldName);
            var written := WorldsWithSchedule(stored, worldName, mode, day, dayOfMonth, time, zone, lib, now);
            var e := Config.Lookup(written, worldName);
            e.Some? &&
            var spec := ResolveScheduleSpec(e.value.schedule, lib);
            spec.mode == mode && spec.day == (if day.Some? then day.value else Monday) &&
            spec.dayOfMonth == StoredDayOfMonth(dayOfMonth) && spec.time == time &&
            (before.Some? ==> e.value.regenerateOnWipe == before.value.regenerateOnWipe) &&
            (before.Some? && before.value.lastWipe.Some? && !IsBlank(before.value.lastWipe.value) ==>
               e.value.lastWipe == before.value.lastWipe) &&
            (other != worldName ==> Config.Lookup(written, other) == Config.Lookup(worlds, other))
  {
    var worlds := if stored.worlds.Some? then stored.worlds.value else [];
    var entry := match Config.Lookup(worlds, worldName) case Some(e) => e case None => Config.DefaultWorldEntry;
    var schedule := WrittenSchedule(mode, day, dayOfMonth, time, zone, lib);
    Config.PutLookup(worlds, worldName, ScheduledEntry(entry, schedule, lib.instantText(now)), other);
    WrittenScheduleResolves(mode, day, dayOfMonth, time, zone, lib);
  }

  /** Appending first attempts keeps the queue well formed. */
  lemma FirstAttemptsOk(before: seq<Step>, after: seq<Step>)
    requires StepsOk(before) && QueuedFirstAttempts(before, after)
    ensures StepsOk(after)
  {
    forall i | 0 <= i < |after| ensures StepOk(after[i]) {
      if i < |before| {
        assert after[i] == after[..|before|][i];
      }
    }
  }

  /** Running the first queued step keeps the queue well formed: a retry is numbered at most 15
      and a catch-up step is queued only for an index inside its list. */
  lemma StepRunOk(s: PluginState, env: Env)
    requires ValidClock(env.clock) && StepsOk(s.steps)
    ensures StepsOk(StepRun(s, env).steps)
  {
    if |s.steps| > 0 {
      var rest := s.(steps := s.steps[1..]);
      assert StepsOk(rest.steps) by {
        forall i | 0 <= i < |rest.steps| ensures StepOk(rest.steps[i]) {
          assert rest.steps[i] == s.steps[i + 1];
        }
      }
      assert StepOk(s.steps[0]);
      match s.steps[0]
      case Cleanup(world, regenerate, attempt) =>
        CleanedUpShape(rest, world, regenerate, attempt, env);
      case MissedQueue(worlds, index) =>
        MissedSteppedShape(rest, worlds, index, env);
        var r := MissedStepped(rest, worlds, index, env);
        if rest.settings.schedulingEnabled && !rest.wipeInProgress {
          var next := if index + 1 < |worlds| then [MissedQueue(worlds, index + 1)] else [];
          var mid := r.steps[..|r.steps| - |next|];
          FirstAttemptsOk(rest.steps, mid);
          assert r.steps == mid + next;
        }
    }
  }

  /** catchUpMissedWipes queues at most the first catch-up step, which is inside its list. */
  lemma CaughtUpOk(s: PluginState, env: Env)
    requires ValidClock(env.clock) && StepsOk(s.steps)
    ensures StepsOk(CaughtUp(s, env).steps)
  {
  }

  /** Every event keeps the scheduler's queue well formed. */
  lemma NextKeepsStepsOk(s: PluginState, event: Event, env: Env)
    requires ValidClock(env.clock) && StepsOk(s.steps)
    ensures StepsOk(Next(s, event, env).steps)
  {
    match event
    case Start => CaughtUpOk(Loaded(s, env), env);
    case Reload =>
    case TimerFires =>
      if s.timer.scheduledWipe.Some? {
        var pending := s.timer.scheduledWipe.value;
        TickedShape(s, pending.worlds, env);
        FirstAttemptsOk(s.steps, Ticked(s, pending.worlds, env).steps);
      }
    case RunStep => StepRunOk(s, env);
    case WipeNow(worldName) => WipedNowShape(s, worldName, env);
    case UpdateSchedule(worldName, mode, day, dayOfMonth, time, zone) =>
    case RemoveSchedule(worldName) =>
    case Disconnect(player, currentWorld) =>
  }
}
