/**
 * The choices WorldWipePlugin makes over its schedules against the server and the clock:
 * which schedules scheduleNextAutomaticWipe prunes, which worlds are due first and after what
 * delay, which worlds catchUpMissedWipes finds missed, and where players are evacuated to.
 */
module Selection {
  import opened JavaText
  import opened Calendar
  import opened Occurrence
  import opened Registry

  /** What the server's Universe answers while one step runs: whether getWorld finds a world
      (loaded), isWorldLoadable, whether a loaded world still holds players, whether
      deleteWorldFromDisk succeeds, the default world's name, and whether
      WorldEvacuationService.evacuate throws. */
  datatype Universe = Universe(
    loaded: string -> bool,
    loadable: string -> bool,
    hasPlayers: string -> bool,
    deletes: string -> bool,
    defaultWorld: Option<string>,
    evacuationFails: string -> bool)

  /** Instant.now(), and ZonedDateTime.now(zone) for each zone. */
  datatype Clock = Clock(now: Instant, wallTime: Zone -> ZonedDateTime)

  ghost predicate ValidClock(clock: Clock)
  {
    forall z :: ValidZoned(clock.wallTime(z)) && clock.wallTime(z).zone == z
  }

  /** The instant of a schedule's next occurrence after the current time in its zone. */
  function NextInstant(schedule: WorldSchedule, clock: Clock): Instant
    requires ValidClock(clock)
  {
    ToInstant(CalculateNextOccurrence(clock.wallTime(schedule.zone), schedule.mode, schedule.day,
                                      schedule.dayOfMonth, schedule.time))
  }

  /** The instant of a schedule's latest occurrence at or before the current time in its zone. */
  function PreviousInstant(schedule: WorldSchedule, clock: Clock): Instant
    requires ValidClock(clock)
  {
    ToInstant(CalculatePreviousOccurrence(clock.wallTime(schedule.zone), schedule.mode, schedule.day,
                                          schedule.dayOfMonth, schedule.time))
  }

  /** The next occurrence is after the zone's current time, and the previous one is not. */
  lemma OccurrenceInstantsAroundNow(schedule: WorldSchedule, clock: Clock)
    requires ValidClock(clock)
    ensures PreviousInstant(schedule, clock) <= ToInstant(clock.wallTime(schedule.zone)) < NextInstant(schedule, clock)
  {
    var now := clock.wallTime(schedule.zone);
    NextOccurrenceIsAfterNow(now, schedule.mode, schedule.day, schedule.dayOfMonth, schedule.time);
    PreviousOccurrenceIsNotAfterNow(now, schedule.mode, schedule.day, schedule.dayOfMonth, schedule.time);
  }

  // ---------------------------------------------------------------------------
  // resolveDestinationWorld
  // ---------------------------------------------------------------------------

  /** resolveDestinationWorld: the primary protected world when the server has it loaded, else
      the default world. */
  function Destination(protectedWorlds: seq<string>, universe: Universe): (r: Option<string>)
    ensures universe.loaded(PrimaryProtectedWorld(protectedWorlds)) ==> r == Some(PrimaryProtectedWorld(protectedWorlds))
    ensures !universe.loaded(PrimaryProtectedWorld(protectedWorlds)) ==> r == universe.defaultWorld
  {
    var destinationWorldName := PrimaryProtectedWorld(protectedWorlds);
    if universe.loaded(destinationWorldName) then Some(destinationWorldName) else universe.defaultWorld
  }

  // ---------------------------------------------------------------------------
  // scheduleNextAutomaticWipe: pruning
  // ---------------------------------------------------------------------------

  /** A schedule scheduleNextAutomaticWipe keeps: its world is loaded, loadable, or regenerated
      on wipe. */
  predicate Reachable(world: string, universe: Universe, overrides: map<string, bool>, regenerateOnWipe: bool)
  {
    universe.loaded(world) || universe.loadable(world) || ShouldRegenerateWorld(world, overrides, regenerateOnWipe)
  }

  /** The worlds of the schedules that are not reachable, in order. */
  function UnreachableWorlds(schedules: seq<WorldSchedule>, universe: Universe, overrides: map<string, bool>,
                             regenerateOnWipe: bool): seq<string>
  {
    if |schedules| == 0 then []
    else
      var rest := UnreachableWorlds(schedules[..|schedules| - 1], universe, overrides, regenerateOnWipe);
      var world := schedules[|schedules| - 1].world;
      if Reachable(world, universe, overrides, regenerateOnWipe) then rest else rest + [world]
  }

  /** A world is pruned exactly when some schedule of it is unreachable. */
  lemma {:induction false} UnreachableWorldsMembers(schedules: seq<WorldSchedule>, universe: Universe,
                                                    overrides: map<string, bool>, regenerateOnWipe: bool, w: string)
    ensures w in UnreachableWorlds(schedules, universe, overrides, regenerateOnWipe) <==>
            exists i :: 0 <= i < |schedules| && schedules[i].world == w &&
                        !Reachable(w, universe, overrides, regenerateOnWipe)
  {
    if |schedules| > 0 {
      var front := schedules[..|schedules| - 1];
      UnreachableWorldsMembers(front, universe, overrides, regenerateOnWipe, w);
      if exists i :: 0 <= i < |front| && front[i].world == w && !Reachable(w, universe, overrides, regenerateOnWipe) {
        var i :| 0 <= i < |front| && front[i].world == w && !Reachable(w, universe, overrides, regenerateOnWipe);
        assert schedules[i] == front[i];
      }
      if exists i :: 0 <= i < |schedules| && schedules[i].world == w && !Reachable(w, universe, overrides, regenerateOnWipe) {
        var i :| 0 <= i < |schedules| && schedules[i].world == w && !Reachable(w, universe, overrides, regenerateOnWipe);
        if i < |front| {
          assert front[i] == schedules[i];
        }
      }
    }
  }

  /** The first loop of scheduleNextAutomaticWipe: collects the unreachable schedules' worlds. */
  method CollectUnreachable(schedules: seq<WorldSchedule>, universe: Universe, overrides: map<string, bool>,
                            regenerateOnWipe: bool) returns (pruneSchedules: seq<string>)
    ensures pruneSchedules == UnreachableWorlds(schedules, universe, overrides, regenerateOnWipe)
  {
    pruneSchedules := [];
    for i := 0 to |schedules|
      invariant pruneSchedules == UnreachableWorlds(schedules[..i], universe, overrides, regenerateOnWipe)
    {
      assert schedules[..i + 1][..i] == schedules[..i];
      var worldName := schedules[i].world;
      var loaded := universe.loaded(worldName);
      var loadable := universe.loadable(worldName);
      if !loaded && !loadable && !ShouldRegenerateWorld(worldName, overrides, regenerateOnWipe) {
        pruneSchedules := pruneSchedules + [worldName];
      }
    }
    assert schedules[..|schedules|] == schedules;
  }

  // ---------------------------------------------------------------------------
  // scheduleNextAutomaticWipe: the earliest schedules
  // ---------------------------------------------------------------------------

  /** The reachable schedules' worlds with their next instants, in order. */
  function Candidates(schedules: seq<WorldSchedule>, universe: Universe, overrides: map<string, bool>,
                      regenerateOnWipe: bool, clock: Clock): (r: seq<(string, Instant)>)
    requires ValidClock(clock)
    ensures |r| <= |schedules|
  {
    if |schedules| == 0 then []
    else
      var rest := Candidates(schedules[..|schedules| - 1], universe, overrides, regenerateOnWipe, clock);
      var schedule := schedules[|schedules| - 1];
      if Reachable(schedule.world, universe, overrides, regenerateOnWipe) then rest + [(schedule.world, NextInstant(schedule, clock))]
      else rest
  }

  /** The accumulator of the second loop of scheduleNextAutomaticWipe: the earliest instant so
      far and the worlds due then, in order. */
  function Earliest(candidates: seq<(string, Instant)>): (Option<Instant>, seq<string>)
  {
    if |candidates| == 0 then (None, [])
    else
      var (world, nextInstant) := candidates[|candidates| - 1];
      Consider(Earliest(candidates[..|candidates| - 1]), world, nextInstant)
  }

  /** One step of the accumulator: a strictly earlier instant replaces the worlds, an equal one
      appends its world, a later one is ignored. */
  function Consider(acc: (Option<Instant>, seq<string>), world: string, nextInstant: Instant): (Option<Instant>, seq<string>)
  {
    var (earliestInstant, earliestWorlds) := acc;
    if earliestInstant.None? || nextInstant < earliestInstant.value then (Some(nextInstant), [world])
    else if nextInstant == earliestInstant.value then (earliestInstant, earliestWorlds + [world])
    else (earliestInstant, earliestWorlds)
  }

  /** The worlds of the candidates due at instant t, in order. */
  function WorldsAt(candidates: seq<(string, Instant)>, t: Instant): seq<string>
  {
    if |candidates| == 0 then []
    else
      var rest := WorldsAt(candidates[..|candidates| - 1], t);
      if candidates[|candidates| - 1].1 == t then rest + [candidates[|candidates| - 1].0] else rest
  }

  /** No candidate in the list is due at t. */
  lemma {:induction false} WorldsAtNone(candidates: seq<(string, Instant)>, t: Instant)
    requires forall i :: 0 <= i < |candidates| ==> candidates[i].1 != t
    ensures WorldsAt(candidates, t) == []
  {
    if |candidates| > 0 {
      WorldsAtNone(candidates[..|candidates| - 1], t);
    }
  }

  /** The accumulator holds the minimum of the instants and exactly the worlds due then, in list
      order; it is empty only for an empty list. */
  lemma {:induction false} EarliestIsMinimum(candidates: seq<(string, Instant)>)
    ensures var (e, ws) := Earliest(candidates);
            (e.None? <==> |candidates| == 0) &&
            (e.Some? ==> (forall i :: 0 <= i < |candidates| ==> e.value <= candidates[i].1) &&
                         (exists i :: 0 <= i < |candidates| && candidates[i].1 == e.value) &&
                         ws == WorldsAt(candidates, e.value))
  {
    if |candidates| > 0 {
      var front := candidates[..|candidates| - 1];
      var (world, t) := candidates[|candidates| - 1];
      EarliestIsMinimum(front);
      var (e0, ws0) := Earliest(front);
      var (e, ws) := Earliest(candidates);
      forall i | 0 <= i < |front| ensures front[i] == candidates[i] { }
      if e0.None? || t < e0.value {
        assert forall i :: 0 <= i < |front| ==> front[i].1 != t;
        WorldsAtNone(front, t);
      } else if t == e0.value {
      } else {
        var i :| 0 <= i < |front| && front[i].1 == e0.value;
        assert candidates[i].1 == e0.value;
      }
    }
  }

  /** The second loop of scheduleNextAutomaticWipe: the Earliest accumulator over the reachable
      schedules' candidates (EarliestIsMinimum says what it holds). */
  method FindEarliest(schedules: seq<WorldSchedule>, universe: Universe, overrides: map<string, bool>,
                      regenerateOnWipe: bool, clock: Clock)
    returns (earliestInstant: Option<Instant>, earliestWorlds: seq<string>)
    requires ValidClock(clock)
    ensures (earliestInstant, earliestWorlds) == Earliest(Candidates(schedules, universe, overrides, regenerateOnWipe, clock))
  {
    earliestInstant := None;
    earliestWorlds := [];
    for i := 0 to |schedules|
      invariant (earliestInstant, earliestWorlds) == Earliest(Candidates(schedules[..i], universe, overrides, regenerateOnWipe, clock))
    {
      var schedule := schedules[i];
      var worldName := schedule.world;
      var loaded := universe.loaded(worldName);
      var loadable := universe.loadable(worldName);
      if loaded || loadable || ShouldRegenerateWorld(worldName, overrides, regenerateOnWipe) {
        var nextInstant := NextInstant(schedule, clock);
        CandidatesStep(schedules, universe, overrides, regenerateOnWipe, clock, i, nextInstant);
        if earliestInstant.None? || nextInstant < earliestInstant.value {
          earliestInstant := Some(nextInstant);
          earliestWorlds := [worldName];
        } else if nextInstant == earliestInstant.value {
          earliestWorlds := earliestWorlds + [worldName];
        }
      } else {
        CandidatesSkip(schedules, universe, overrides, regenerateOnWipe, clock, i);
      }
    }
    assert schedules[..|schedules|] == schedules;
  }

  /** A reachable schedule adds its candidate to the accumulator. */
  lemma CandidatesStep(schedules: seq<WorldSchedule>, universe: Universe, overrides: map<string, bool>,
                       regenerateOnWipe: bool, clock: Clock, i: nat, nextInstant: Instant)
    requires ValidClock(clock) && i < |schedules|
    requires Reachable(schedules[i].world, universe, overrides, regenerateOnWipe)
    requires nextInstant == NextInstant(schedules[i], clock)
    ensures Earliest(Candidates(schedules[..i + 1], universe, overrides, regenerateOnWipe, clock)) ==
            Consider(Earliest(Candidates(schedules[..i], universe, overrides, regenerateOnWipe, clock)),
                     schedules[i].world, nextInstant)
  {
    var prefix := schedules[..i + 1];
    assert prefix[..i] == schedules[..i] && prefix[i] == schedules[i];
    var c := Candidates(schedules[..i], universe, overrides, regenerateOnWipe, clock);
    assert Candidates(prefix, universe, overrides, regenerateOnWipe, clock) == c + [(schedules[i].world, nextInstant)];
    assert (c + [(schedules[i].world, nextInstant)])[..|c|] == c;
  }

  /** An unreachable schedule leaves the accumulator as it was. */
  lemma CandidatesSkip(schedules: seq<WorldSchedule>, universe: Universe, overrides: map<string, bool>,
                       regenerateOnWipe: bool, clock: Clock, i: nat)
    requires ValidClock(clock) && i < |schedules|
    requires !Reachable(schedules[i].world, universe, overrides, regenerateOnWipe)
    ensures Candidates(schedules[..i + 1], universe, overrides, regenerateOnWipe, clock) ==
            Candidates(schedules[..i], universe, overrides, regenerateOnWipe, clock)
  {
    assert schedules[..i + 1][..i] == schedules[..i];
  }

  const NanosPerMilli: int := 1_000_000

  /** Duration.toMillis: whole milliseconds, truncated toward zero. */
  function ToMillis(nanos: int): int
  {
    if nanos >= 0 then nanos / NanosPerMilli else -((-nanos) / NanosPerMilli)
  }

  /** Math.max(0, Duration.between(now, at).toMillis()) */
  function DelayMillis(now: Instant, at: Instant): int
  {
    Max(0, ToMillis(at - now))
  }

  /** The delay is never negative, is zero for an instant already past, and otherwise is the
      whole milliseconds until the instant. */
  lemma DelayMillisBounds(now: Instant, at: Instant)
    ensures var d := DelayMillis(now, at);
            d >= 0 && (at <= now ==> d == 0) &&
            (at > now ==> now + d * NanosPerMilli <= at < now + (d + 1) * NanosPerMilli)
  {
    if at < now {
      assert ToMillis(at - now) <= 0;
    }
  }

  // ---------------------------------------------------------------------------
  // catchUpMissedWipes
  // ---------------------------------------------------------------------------

  /** catchUpMissedWipes' test: the world has no recorded last wipe, or one strictly before its
      previous occurrence. */
  predicate Missed(schedule: WorldSchedule, lastWipes: map<string, Instant>, clock: Clock)
    requires ValidClock(clock)
  {
    var lastWipe := LastWipeInstant(schedule.world, lastWipes);
    lastWipe.None? || lastWipe.value < PreviousInstant(schedule, clock)
  }

  /** A world is missed only if an occurrence passed after its last wipe. */
  lemma MissedMeansOccurrencePassed(schedule: WorldSchedule, lastWipes: map<string, Instant>, clock: Clock)
    requires ValidClock(clock) && Missed(schedule, lastWipes, clock)
    requires LastWipeInstant(schedule.world, lastWipes).Some?
    ensures LastWipeInstant(schedule.world, lastWipes).value < PreviousInstant(schedule, clock) <=
            ToInstant(clock.wallTime(schedule.zone))
  {
    OccurrenceInstantsAroundNow(schedule, clock);
  }

  /** The missed schedules' worlds, in order. */
  function MissedWorlds(schedules: seq<WorldSchedule>, lastWipes: map<string, Instant>, clock: Clock): seq<string>
    requires ValidClock(clock)
  {
    if |schedules| == 0 then []
    else
      var rest := MissedWorlds(schedules[..|schedules| - 1], lastWipes, clock);
      var schedule := schedules[|schedules| - 1];
      if Missed(schedule, lastWipes, clock) then rest + [schedule.world] else rest
  }

  /** A world is in the catch-up list exactly when one of its schedules is missed. */
  lemma {:induction false} MissedWorldsMembers(schedules: seq<WorldSchedule>, lastWipes: map<string, Instant>,
                                               clock: Clock, w: string)
    requires ValidClock(clock)
    ensures w in MissedWorlds(schedules, lastWipes, clock) <==>
            exists i :: 0 <= i < |schedules| && schedules[i].world == w && Missed(schedules[i], lastWipes, clock)
  {
    if |schedules| > 0 {
      var front := schedules[..|schedules| - 1];
      MissedWorldsMembers(front, lastWipes, clock, w);
      if exists i :: 0 <= i < |front| && front[i].world == w && Missed(front[i], lastWipes, clock) {
        var i :| 0 <= i < |front| && front[i].world == w && Missed(front[i], lastWipes, clock);
        assert schedules[i] == front[i];
      }
      if exists i :: 0 <= i < |schedules| && schedules[i].world == w && Missed(schedules[i], lastWipes, clock) {
        var i :| 0 <= i < |schedules| && schedules[i].world == w && Missed(schedules[i], lastWipes, clock);
        if i < |front| {
          assert front[i] == schedules[i];
        }
      }
    }
  }

  /** The loop of catchUpMissedWipes: collects the missed schedules' worlds. */
  method CollectMissed(schedules: seq<WorldSchedule>, lastWipes: map<string, Instant>, clock: Clock)
    returns (missedWorlds: seq<string>)
    requires ValidClock(clock)
    ensures missedWorlds == MissedWorlds(schedules, lastWipes, clock)
  {
    missedWorlds := [];
    for i := 0 to |schedules|
      invariant missedWorlds == MissedWorlds(schedules[..i], lastWipes, clock)
    {
      assert schedules[..i + 1][..i] == schedules[..i];
      var schedule := schedules[i];
      var lastInstant := PreviousInstant(schedule, clock);
      var lastWipe := LastWipeInstant(schedule.world, lastWipes);
      if lastWipe.None? || lastWipe.value < lastInstant {
        missedWorlds := missedWorlds + [schedule.world];
      }
    }
    assert schedules[..|schedules|] == schedules;
  }
}
