/**
 * WorldWipePlugin as a class: its fields, updated in place by its methods, each proved to leave
 * the state WipeState says it leaves. The scheduler is the `steps` queue and the
 * `scheduledWipe` slot; the configuration file is `stored`.
 */
module Plugin {
  import opened JavaText
  import opened Calendar
  import opened Occurrence
  import Config
  import opened Registry
  import opened Offline
  import opened Selection
  import opened WipeState
  import opened WipeStateFacts

  class WorldWipePlugin {
    var wipeInProgress: bool
    var steps: seq<Step>
    var scheduledWipe: Option<PendingTick>
    var nextScheduledWipeAt: Option<Instant>
    var nextScheduledWorlds: seq<string>
    var stored: Config.Settings
    /** The ten settings loadConfig resolves, kept together as one value. */
    var settings: LoadedSettings
    var playerLastSeen: map<PlayerId, Instant>
    var offlineWorldLastWipe: map<string, Instant>

    /** The whole state as one value. */
    ghost function State(): PluginState
      reads this
    {
      PluginState(wipeInProgress, steps, Timer(scheduledWipe, nextScheduledWipeAt, nextScheduledWorlds), stored,
                  settings, Tracking(playerLastSeen, offlineWorldLastWipe))
    }

    constructor (stored: Config.Settings)
      ensures State() == Initial(stored)
    {
      wipeInProgress := false;
      steps := [];
      scheduledWipe := None;
      nextScheduledWipeAt := None;
      nextScheduledWorlds := [];
      this.stored := stored;
      settings := Initial(stored).settings;
      playerLastSeen := map[];
      offlineWorldLastWipe := map[];
    }

    // -------------------------------------------------------------------------
    // The offline stores
    // -------------------------------------------------------------------------

    /** prunePlayerLastSeen */
    method PrunePlayerLastSeen(now: Instant)
      modifies this
      ensures State() == old(State()).(tracking := old(State()).tracking.(playerLastSeen :=
                PruneIfEnabled(old(playerLastSeen), settings.offlineTrackingEnabled, settings.offlineTrackingMaxDays, now)))
    {
      if settings.offlineTrackingEnabled && settings.offlineTrackingMaxDays > 0 {
        playerLastSeen := RemoveBefore(playerLastSeen, Cutoff(now, settings.offlineTrackingMaxDays));
      }
    }

    /** pruneOfflineWorldLastWipe */
    method PruneOfflineWorldLastWipe(now: Instant)
      modifies this
      ensures State() == old(State()).(tracking := old(State()).tracking.(offlineWorldLastWipe :=
                PruneIfEnabled(old(offlineWorldLastWipe), settings.offlineTrackingEnabled, settings.offlineTrackingMaxDays, now)))
    {
      if settings.offlineTrackingEnabled && settings.offlineTrackingMaxDays > 0 {
        offlineWorldLastWipe := RemoveBefore(offlineWorldLastWipe, Cutoff(now, settings.offlineTrackingMaxDays));
      }
    }

    /** mergeWorldLastWipeIntoOffline, with the save that prunes once more. */
    method MergeWorldLastWipeIntoOffline(now: Instant)
      modifies this
      requires settings.offlineTrackingEnabled
      ensures State() == old(State()).(tracking := old(State()).tracking.(offlineWorldLastWipe :=
                MergedIntoOffline(old(offlineWorldLastWipe), settings.worldLastWipe, settings.offlineTrackingMaxDays, now)))
    {
      if |settings.worldLastWipe| == 0 {
        return;
      }
      var merged := MergeInto(offlineWorldLastWipe, settings.worldLastWipe);
      offlineWorldLastWipe := merged;
      PruneOfflineWorldLastWipe(now);
      if settings.offlineTrackingSaveFile {
        PruneOfflineWorldLastWipe(now);
        if settings.offlineTrackingMaxDays > 0 {
          var cutoff := Cutoff(now, settings.offlineTrackingMaxDays);
          PrunedTwice(merged, cutoff, cutoff);
        }
      }
    }

    /** recordWorldWipe, with the save that follows it. */
    method RecordWorldWipe(worldName: string, instant: Instant, now: Instant)
      modifies this
      ensures State() == Recorded(old(State()), worldName, instant, now)
    {
      if !settings.offlineTrackingEnabled || IsBlank(worldName) {
        return;
      }
      offlineWorldLastWipe := offlineWorldLastWipe[WorldKey(worldName) := instant];
      if settings.offlineTrackingSaveFile {
        PruneOfflineWorldLastWipe(now);
      }
    }

    /** loadConfig: the settings from the file, then the offline stores. */
    method LoadConfig(env: Env)
      modifies this
      ensures State() == Loaded(old(State()), env)
    {
      LoadSettings(env.lib);
      LoadTracking(env.clock.now);
    }

    /** The first half of loadConfig: every setting from the resolved configuration. */
    method LoadSettings(lib: TimeLibrary)
      modifies this
      ensures State() == old(State()).(settings := SettingsFrom(stored, lib))
    {
      var effective := Config.Resolve(stored);
      var protectedList := NormalizeProtectedWorlds(Some(effective.protectedWorlds));
      var schedules := NormalizeWorldSchedules(Some(effective.worlds), protectedList, lib);
      var overrides := ResolveWorldRegenerateMap(effective.worlds);
      var lastWipes := ResolveWorldLastWipeMap(effective.worlds, lib);
      settings := LoadedSettings(protectedList, schedules, effective.schedulingEnabled, effective.regenerateOnWipe,
                                 effective.offlineTrackingEnabled, effective.offlineTrackingSaveFile,
                                 Max(0, effective.offlineTrackingMaxDays),
                                 TrackingModeOf(effective.offlineTrackingMode), overrides, lastWipes);
    }

    /** The second half of loadConfig: the offline stores cleared, or pruned and merged. */
    method LoadTracking(now: Instant)
      modifies this
      ensures State() == old(State()).(tracking := TrackingLoaded(old(State()).tracking, settings, now))
    {
      if !settings.offlineTrackingEnabled {
        playerLastSeen := map[];
        offlineWorldLastWipe := map[];
      } else {
        PrunePlayerLastSeen(now);
        PruneOfflineWorldLastWipe(now);
        MergeWorldLastWipeIntoOffline(now);
      }
    }

    /** handlePlayerDisconnect, with the save that follows it. */
    method HandlePlayerDisconnect(player: Option<PlayerId>, currentWorld: Option<string>, now: Instant)
      modifies this
      ensures State() == Disconnected(old(State()), player, currentWorld, now)
    {
      if !settings.offlineTrackingEnabled || player.None? {
        return;
      }
      if settings.offlineTrackingMode == ResetWorldOnly {
        if currentWorld.None? || IsBlank(currentWorld.value) || !IsResetWorld(settings.worldSchedules, currentWorld.value) {
          return;
        }
      }
      playerLastSeen := playerLastSeen[player.value := now];
      if settings.offlineTrackingSaveFile {
        PrunePlayerLastSeen(now);
      }
    }

    /** handlePlayerConnect: the world the joining player is sent to instead, if any. */
    method HandlePlayerConnect(player: Option<PlayerId>, worldName: Option<string>, universe: Universe)
      returns (redirect: Option<string>)
      ensures redirect == ConnectRedirect(settings.offlineTrackingEnabled, worldName, settings.protectedWorlds, settings.worldSchedules,
                                          offlineWorldLastWipe, settings.worldLastWipe, player, playerLastSeen,
                                          Destination(settings.protectedWorlds, universe))
    {
      redirect := ConnectRedirect(settings.offlineTrackingEnabled, worldName, settings.protectedWorlds, settings.worldSchedules,
                                  offlineWorldLastWipe, settings.worldLastWipe, player, playerLastSeen,
                                  Destination(settings.protectedWorlds, universe));
    }

    // -------------------------------------------------------------------------
    // Removing schedules and arming the timer
    // -------------------------------------------------------------------------

    /** removeWorldSchedulesInternal: the configured worlds whose trimmed, lower-cased key
        matches one of the names are dropped, the file is written and reloaded, and the timer is
        re-armed when asked for. */
    method RemoveWorldSchedulesInternal(worldNames: seq<string>, reschedule: bool, env: Env) returns (removed: bool)
      requires ValidClock(env.clock)
      modifies this
      ensures (State(), removed) == RemovedSchedules(old(State()), worldNames, reschedule, env)
      decreases if reschedule then 2 else 0
    {
      if |worldNames| == 0 {
        return false;
      }
      var normalized := RemovalKeys(worldNames);
      if |normalized| == 0 {
        return false;
      }
      if stored.worlds.None? || |stored.worlds.value| == 0 {
        return false;
      }
      var kept, changed := RemoveMatchingEntries(stored.worlds.value, normalized);
      if !changed {
        return false;
      }
      stored := WithWorlds(stored, kept);
      LoadConfig(env);
      if reschedule {
        ScheduleNextAutomaticWipe(env);
      }
      return true;
    }

    /** scheduleNextAutomaticWipe: the pending tick is cancelled, the schedules of worlds that
        can no longer be reached are removed, and the tick is armed for the worlds whose next
        occurrence comes first. */
    method ScheduleNextAutomaticWipe(env: Env)
      requires ValidClock(env.clock)
      modifies this
      ensures State() == Rearmed(old(State()), env)
      decreases 1
    {
      scheduledWipe := None;
      ghost var cancelled := State();
      if |settings.worldSchedules| > 0 {
        var pruneSchedules := CollectUnreachable(settings.worldSchedules, env.universe, settings.worldRegenerateOnWipe,
                                                 settings.regenerateOnWipe);
        if |pruneSchedules| > 0 {
          var _ := RemoveWorldSchedulesInternal(pruneSchedules, false, env);
        }
      }
      assert State() == var prune := PrunedBeforeArming(cancelled.settings, env.universe);
                        if |prune| == 0 then cancelled else RemovedEntries(cancelled, prune, env).0;
      if !settings.schedulingEnabled || |settings.worldSchedules| == 0 {
        nextScheduledWipeAt := None;
        nextScheduledWorlds := [];
        return;
      }
      var earliestInstant, earliestWorlds := FindEarliest(settings.worldSchedules, env.universe,
                                                          settings.worldRegenerateOnWipe, settings.regenerateOnWipe,
                                                          env.clock);
      if earliestInstant.None? {
        nextScheduledWipeAt := None;
        nextScheduledWorlds := [];
        return;
      }
      var delayMillis := DelayMillis(env.clock.now, earliestInstant.value);
      nextScheduledWipeAt := earliestInstant;
      nextScheduledWorlds := earliestWorlds;
      scheduledWipe := Some(PendingTick(earliestWorlds, delayMillis));
    }

    /** removeWorldSchedule: a blank name removes nothing; otherwise its schedule is removed and
        the timer re-armed. */
    method RemoveWorldSchedule(worldName: string, env: Env) returns (removed: bool)
      requires ValidClock(env.clock)
      modifies this
      ensures (State(), removed) == WorldScheduleRemoved(old(State()), worldName, env)
    {
      if IsBlank(worldName) {
        return false;
      }
      removed := RemoveWorldSchedulesInternal([worldName], true, env);
    }

    // -------------------------------------------------------------------------
    // Wiping
    // -------------------------------------------------------------------------

    /** scheduleWorldCleanup: the attempt is queued, due a second later. */
    method ScheduleWorldCleanup(world: string, regenerate: bool, attempt: int)
      modifies this
      ensures State() == CleanupQueued(old(State()), world, regenerate, attempt)
    {
      steps := steps + [Cleanup(world, regenerate, attempt)];
    }

    /** executeWipeForWorld: whether a cleanup was started, and whether evacuating the world
        threw. */
    method ExecuteWipeForWorld(target: string, destination: string, env: Env) returns (started: bool, threw: bool)
      requires ValidClock(env.clock)
      modifies this
      ensures (State(), started, threw) == ExecutedWipe(old(State()), target, destination, env)
    {
      if IsBlank(target) {
        return false, false;
      }
      if IsProtectedWorld(target, settings.protectedWorlds) {
        return false, false;
      }
      if EqualsIgnoreCase(destination, target) {
        return false, false;
      }
      var shouldRegenerate := ShouldRegenerateWorld(target, settings.worldRegenerateOnWipe, settings.regenerateOnWipe);
      if env.universe.loaded(target) {
        if env.universe.evacuationFails(target) {
          return false, true;
        }
        ScheduleWorldCleanup(target, shouldRegenerate, 0);
        return true, false;
      }
      if shouldRegenerate || env.universe.loadable(target) {
        ScheduleWorldCleanup(target, shouldRegenerate, 0);
        return true, false;
      }
      var _ := RemoveWorldSchedule(target, env);
      return false, false;
    }

    /** runScheduledWipeTick: the flag is taken, each target is wiped in turn until one throws,
        and the flag is given back unless a cleanup was started. */
    method RunScheduledWipeTick(scheduledWorlds: seq<string>, env: Env)
      requires ValidClock(env.clock)
      modifies this
      ensures State() == Ticked(old(State()), scheduledWorlds, env)
    {
      if wipeInProgress {
        return;
      }
      wipeInProgress := true;
      var startedCleanup := false;
      if !settings.schedulingEnabled || |scheduledWorlds| == 0 {
        wipeInProgress := false;
        return;
      }
      var destination := Destination(settings.protectedWorlds, env.universe);
      if destination.None? {
        wipeInProgress := false;
        return;
      }
      ghost var held := State();
      var i := 0;
      while i < |scheduledWorlds|
        invariant 0 <= i <= |scheduledWorlds|
        invariant ExecutedAll(State(), scheduledWorlds[i..], destination.value, startedCleanup, env) ==
                  ExecutedAll(held, scheduledWorlds, destination.value, false, env)
      {
        var startedOne, threw := ExecuteWipeForWorld(scheduledWorlds[i], destination.value, env);
        if threw {
          break;
        }
        startedCleanup := startedCleanup || startedOne;
        i := i + 1;
      }
      if !startedCleanup {
        wipeInProgress := false;
      }
    }

    /** The task the timer runs: the tick for its worlds, then scheduleNextAutomaticWipe. */
    method FireScheduledWipe(env: Env)
      requires ValidClock(env.clock)
      modifies this
      ensures State() == Fired(old(State()), env)
    {
      if scheduledWipe.None? {
        return;
      }
      var worlds := scheduledWipe.value.worlds;
      RunScheduledWipeTick(worlds, env);
      ScheduleNextAutomaticWipe(env);
    }

    /** updateWorldLastWipe: the configured entry under exactly this name takes the instant as
        its lastWipe, and the file is written and reloaded. */
    method UpdateWorldLastWipe(worldName: string, instant: Instant, env: Env) returns (updated: bool)
      modifies this
      ensures (State(), updated) == UpdatedLastWipe(old(State()), worldName, instant, env)
    {
      if IsBlank(worldName) || stored.worlds.None? {
        return false;
      }
      if worldName !in Config.Names(stored.worlds.value) {
        return false;
      }
      stored := WithWorlds(stored, WorldsWithLastWipe(stored.worlds.value, worldName, env.lib.instantText(instant)));
      LoadConfig(env);
      return true;
    }

    /** A queued cleanup attempt runs: it is retried while players remain or the deletion fails,
        otherwise the wipe is recorded; the flag is given back in every case. */
    method RunWorldCleanup(world: string, regenerate: bool, attempt: int, env: Env)
      requires ValidClock(env.clock)
      modifies this
      ensures State() == CleanedUp(old(State()), world, regenerate, attempt, env)
    {
      var failed := if env.universe.loaded(world) then env.universe.hasPlayers(world) || !env.universe.deletes(world)
                    else !env.universe.deletes(world);
      if failed {
        if attempt < MaxCleanupAttempts {
          ScheduleWorldCleanup(world, regenerate, attempt + 1);
        }
        wipeInProgress := false;
        return;
      }
      var wipeInstant := env.clock.now;
      if regenerate {
        var _ := UpdateWorldLastWipe(world, wipeInstant, env);
        RecordWorldWipe(world, wipeInstant, env.clock.now);
      } else {
        RecordWorldWipe(world, wipeInstant, env.clock.now);
        var _ := RemoveWorldSchedule(world, env);
      }
      wipeInProgress := false;
    }

    /** wipeWorldNow. */
    method WipeWorldNow(worldName: string, env: Env) returns (result: WipeResult)
      modifies this
      ensures (State(), result) == WipedNow(old(State()), worldName, env)
    {
      if IsBlank(worldName) {
        return NameRequired;
      }
      if wipeInProgress {
        return AlreadyInProgress;
      }
      wipeInProgress := true;
      if IsProtectedWorld(worldName, settings.protectedWorlds) {
        return Protected;
      }
      var destination := Destination(settings.protectedWorlds, env.universe);
      if destination.None? {
        return NoDestination;
      }
      if EqualsIgnoreCase(destination.value, worldName) {
        return TargetIsDestination;
      }
      if !env.universe.loaded(worldName) {
        return NotLoaded;
      }
      if env.universe.evacuationFails(worldName) {
        wipeInProgress := false;
        return Failed;
      }
      var shouldRegenerate := ShouldRegenerateWorld(worldName, settings.worldRegenerateOnWipe, settings.regenerateOnWipe);
      ScheduleWorldCleanup(worldName, shouldRegenerate, 0);
      return Started;
    }

    /** requestManualWipe: accepted exactly when no wipe holds the flag, which it takes and gives
        straight back. */
    method RequestManualWipe(targetWorld: string) returns (accepted: bool)
      ensures accepted <==> !wipeInProgress
    {
      accepted := !wipeInProgress;
    }

    // -------------------------------------------------------------------------
    // Catching up
    // -------------------------------------------------------------------------

    /** scheduleMissedWipeQueue: the step for worlds[index] is queued, if there is one. */
    method ScheduleMissedWipeQueue(worlds: seq<string>, index: nat)
      modifies this
      ensures State() == Enqueued(old(State()), worlds, index)
    {
      if index >= |worlds| {
        return;
      }
      steps := steps + [MissedQueue(worlds, index)];
    }

    /** catchUpMissedWipes: the worlds whose previous occurrence passed since their last wipe
        are queued, from the first. */
    method CatchUpMissedWipes(env: Env)
      requires ValidClock(env.clock)
      modifies this
      ensures State() == CaughtUp(old(State()), env)
    {
      if !settings.schedulingEnabled || |settings.worldSchedules| == 0 {
        return;
      }
      var missedWorlds := CollectMissed(settings.worldSchedules, settings.worldLastWipe, env.clock);
      if |missedWorlds| == 0 {
        return;
      }
      ScheduleMissedWipeQueue(missedWorlds, 0);
    }

    /** A queued catch-up step runs: it waits for the flag, wipes worlds[index] and queues the
        next index. */
    method RunMissedWipeStep(worlds: seq<string>, index: nat, env: Env)
      requires ValidClock(env.clock)
      modifies this
      ensures State() == MissedStepped(old(State()), worlds, index, env)
    {
      if !settings.schedulingEnabled {
        return;
      }
      if wipeInProgress {
        ScheduleMissedWipeQueue(worlds, index);
        return;
      }
      wipeInProgress := true;
      var startedCleanup := false;
      var destination := Destination(settings.protectedWorlds, env.universe);
      if destination.Some? && index < |worlds| {
        var threw;
        startedCleanup, threw := ExecuteWipeForWorld(worlds[index], destination.value, env);
      }
      if !startedCleanup {
        wipeInProgress := false;
      }
      ScheduleMissedWipeQueue(worlds, index + 1);
    }

    /** The scheduler takes the first queued step and runs it. */
    method RunNextStep(env: Env)
      requires ValidClock(env.clock)
      modifies this
      ensures State() == StepRun(old(State()), env)
    {
      if |steps| == 0 {
        return;
      }
      var step := steps[0];
      steps := steps[1..];
      match step
      case Cleanup(world, regenerate, attempt) => RunWorldCleanup(world, regenerate, attempt, env);
      case MissedQueue(worlds, index) => RunMissedWipeStep(worlds, index, env);
    }

    // -------------------------------------------------------------------------
    // Schedules, start and reload
    // -------------------------------------------------------------------------

    /** updateWorldSchedule: the world's entry takes the written schedule, the file is written
        and reloaded, and the timer re-armed. */
    method UpdateWorldSchedule(worldName: string, mode: Option<ScheduleMode>, day: Option<Weekday>,
                               dayOfMonth: Option<int>, time: Option<ClockTime>, zone: Option<string>, env: Env)
      returns (updated: bool)
      requires ValidClock(env.clock)
      modifies this
      ensures (State(), updated) == ScheduleUpdated(old(State()), worldName, mode, day, dayOfMonth, time, zone, env)
    {
      if IsBlank(worldName) || mode.None? || time.None? {
        return false;
      }
      var worlds := WorldsWithSchedule(stored, worldName, mode.value, day, dayOfMonth, time.value, zone, env.lib,
                                       env.clock.now);
      stored := WithWorlds(stored, worlds);
      LoadConfig(env);
      ScheduleNextAutomaticWipe(env);
      return true;
    }

    /** start: the configuration is loaded, missed wipes are queued and the timer is armed. */
    method Start(env: Env)
      requires ValidClock(env.clock)
      modifies this
      ensures State() == Next(old(State()), Event.Start, env)
    {
      LoadConfig(env);
      CatchUpMissedWipes(env);
      ScheduleNextAutomaticWipe(env);
    }

    /** reloadConfig: the configuration is loaded again and the timer re-armed. */
    method ReloadConfig(env: Env)
      requires ValidClock(env.clock)
      modifies this
      ensures State() == Next(old(State()), Reload, env)
    {
      LoadConfig(env);
      ScheduleNextAutomaticWipe(env);
    }
  }
}
