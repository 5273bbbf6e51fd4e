/**
 * Offline tracking in WorldWipePlugin: when a player was last seen, when each reset world was
 * last wiped, how the two stores are pruned and merged, and the decision handlePlayerConnect
 * makes to send a returning player elsewhere.
 */
module Offline {
  import opened JavaText
  import opened Calendar
  import opened Registry

  /** java.util.UUID */
  datatype PlayerId = PlayerId(mostSigBits: int, leastSigBits: int)

  /** WorldWipePlugin.OfflineTrackingMode */
  datatype TrackingMode = All | ResetWorldOnly

  function TrackingModeName(m: TrackingMode): string
  {
    match m
    case All => "ALL"
    case ResetWorldOnly => "RESET_WORLD_ONLY"
  }

  /** resolveOfflineTrackingMode: the constant named by the trimmed, upper-cased text; ALL when
      the text is blank or names no constant. */
  function TrackingModeOf(value: string): TrackingMode
  {
    if IsBlank(value) then All
    else
      var name := Upper(Trim(value));
      if name == "ALL" then All
      else if name == "RESET_WORLD_ONLY" then ResetWorldOnly
      else All
  }

  /** The configured text "RESET_WORLD_ONLY", in any case and with surrounding spaces, selects
      that mode; every other text selects ALL. */
  lemma TrackingModeOfIff(value: string)
    ensures TrackingModeOf(value) == ResetWorldOnly <==>
            !IsBlank(value) && Upper(Trim(value)) == TrackingModeName(ResetWorldOnly)
  {
  }

  /** A mode's own name selects it. */
  lemma TrackingModeOfName(m: TrackingMode)
    ensures TrackingModeOf(TrackingModeName(m)) == m
  {
    var s := TrackingModeName(m);
    assert !IsWhitespace(s[0]);
    CapitalLetters(s);
  }

  lemma CapitalLetters(s: string)
    requires |s| > 0 && forall i :: 0 <= i < |s| ==> 'A' <= s[i] <= 'Z' || s[i] == '_'
    ensures Trim(s) == s && Upper(s) == s
  {
    TrimOfTrimmedForm(s);
  }

  // ---------------------------------------------------------------------------
  // Pruning: prunePlayerLastSeen, pruneOfflineWorldLastWipe
  // ---------------------------------------------------------------------------

  /** Instant.now().minus(Duration.ofDays(maxDays)) */
  function Cutoff(now: Instant, maxDays: int): Instant
  {
    now - maxDays * NanosPerDay
  }

  /** removeIf(value is before the cutoff): the entries at or after the cutoff. */
  function Pruned<K>(m: map<K, Instant>, cutoff: Instant): map<K, Instant>
  {
    map k | k in m && cutoff <= m[k] :: m[k]
  }

  /** Pruning keeps exactly the entries at or after the cutoff, with their values. */
  lemma PrunedShape<K>(m: map<K, Instant>, cutoff: Instant)
    ensures var r := Pruned(m, cutoff);
            r.Keys <= m.Keys && (forall k :: k in r ==> r[k] == m[k] && cutoff <= r[k]) &&
            (forall k :: k in m && cutoff <= m[k] ==> k in r)
  {
  }

  /** Pruning twice is pruning once with the later cutoff. */
  lemma PrunedTwice<K>(m: map<K, Instant>, c1: Instant, c2: Instant)
    ensures Pruned(Pruned(m, c1), c2) == Pruned(m, if c1 <= c2 then c2 else c1)
  {
  }

  /** entrySet().removeIf(value is before the cutoff), one entry at a time. */
  method RemoveBefore<K>(m: map<K, Instant>, cutoff: Instant) returns (r: map<K, Instant>)
    ensures r == Pruned(m, cutoff)
  {
    r := m;
    var remaining := m.Keys;
    while remaining != {}
      invariant remaining <= m.Keys
      invariant r == map k | k in m && (k in remaining || cutoff <= m[k]) :: m[k]
      decreases remaining
    {
      var k :| k in remaining;
      if r[k] < cutoff {
        r := r - {k};
      }
      remaining := remaining - {k};
    }
  }

  // ---------------------------------------------------------------------------
  // getOfflineWorldLastWipe, recordWorldWipe
  // ---------------------------------------------------------------------------

  /** getOfflineWorldLastWipe: of the two stores' entries under the world's key, the later one. */
  function OfflineLastWipe(worldName: string, offline: map<string, Instant>, fromConfig: map<string, Instant>)
    : (r: Option<Instant>)
    ensures r.None? <==> IsBlank(worldName) || (WorldKey(worldName) !in offline && WorldKey(worldName) !in fromConfig)
    ensures r.Some? ==> (WorldKey(worldName) in offline && r.value == offline[WorldKey(worldName)]) ||
                        (WorldKey(worldName) in fromConfig && r.value == fromConfig[WorldKey(worldName)])
    ensures r.Some? && WorldKey(worldName) in offline ==> offline[WorldKey(worldName)] <= r.value
    ensures r.Some? && WorldKey(worldName) in fromConfig ==> fromConfig[WorldKey(worldName)] <= r.value
  {
    if IsBlank(worldName) then None
    else
      var key := WorldKey(worldName);
      if key !in offline then (if key in fromConfig then Some(fromConfig[key]) else None)
      else if key !in fromConfig then Some(offline[key])
      else if offline[key] > fromConfig[key] then Some(offline[key]) else Some(fromConfig[key])
  }

  /** recordWorldWipe: the instant under the world's key, when tracking is on and the name is not
      blank. */
  function RecordedWipe(offline: map<string, Instant>, trackingEnabled: bool, worldName: string, instant: Instant)
    : (r: map<string, Instant>)
  {
    if !trackingEnabled || IsBlank(worldName) then offline
    else offline[WorldKey(worldName) := instant]
  }

  /** After recording, the world's last wipe is at least the recorded instant. */
  lemma RecordedWipeSeen(offline: map<string, Instant>, fromConfig: map<string, Instant>, worldName: string,
                         instant: Instant)
    requires !IsBlank(worldName)
    ensures var r := OfflineLastWipe(worldName, RecordedWipe(offline, true, worldName, instant), fromConfig);
            r.Some? && instant <= r.value
  {
  }

  // ---------------------------------------------------------------------------
  // mergeWorldLastWipeIntoOffline
  // ---------------------------------------------------------------------------

  /** Map.merge of one entry: a blank key is skipped; otherwise the lower-cased key takes the
      incoming instant when it is absent or the incoming instant is later. */
  function MergeOne(m: map<string, Instant>, key: string, instant: Instant): map<string, Instant>
  {
    if IsBlank(key) then m
    else
      var k := Lower(key);
      if k in m && !(instant > m[k]) then m else m[k := instant]
  }

  /** One merge keeps every entry at a value no earlier, puts the merged instant or a later one
      under the lower-cased key, and takes no value from anywhere else. */
  lemma MergeOneShape(m: map<string, Instant>, key: string, instant: Instant)
    ensures var r := MergeOne(m, key, instant);
            (forall k :: k in m ==> k in r && m[k] <= r[k]) &&
            (!IsBlank(key) ==> Lower(key) in r && instant <= r[Lower(key)]) &&
            (forall k :: k in r ==> (k in m && r[k] == m[k]) || (!IsBlank(key) && k == Lower(key) && r[k] == instant))
  {
  }

  /** Merging two entries gives the same map in either order. */
  lemma MergeOneCommutes(m: map<string, Instant>, a: string, x: Instant, b: string, y: Instant)
    ensures MergeOne(MergeOne(m, a, x), b, y) == MergeOne(MergeOne(m, b, y), a, x)
  {
  }

  /** The entries of `incoming` under `keys` merged into m, one at a time, in some order. */
  ghost function MergeAll(m: map<string, Instant>, incoming: map<string, Instant>, keys: set<string>)
    : map<string, Instant>
    requires keys <= incoming.Keys
    decreases keys
  {
    if keys == {} then m
    else
      var k :| k in keys;
      MergeOne(MergeAll(m, incoming, keys - {k}), k, incoming[k])
  }

  /** The iteration order does not matter: any key may be merged last. */
  lemma {:induction false} MergeAllAnyOrder(m: map<string, Instant>, incoming: map<string, Instant>,
                                            keys: set<string>, j: string)
    requires keys <= incoming.Keys && j in keys
    ensures MergeAll(m, incoming, keys) == MergeOne(MergeAll(m, incoming, keys - {j}), j, incoming[j])
    decreases keys
  {
    var k :| k in keys && MergeAll(m, incoming, keys) == MergeOne(MergeAll(m, incoming, keys - {k}), k, incoming[k]);
    if k != j {
      var rest := keys - {k} - {j};
      assert keys - {k} - {j} == keys - {j} - {k};
      MergeAllAnyOrder(m, incoming, keys - {k}, j);
      MergeAllAnyOrder(m, incoming, keys - {j}, k);
      MergeOneCommutes(MergeAll(m, incoming, rest), j, incoming[j], k, incoming[k]);
    }
  }

  /** mergeWorldLastWipeIntoOffline's loop: merges every incoming entry, in whatever order the
      map yields them. */
  method MergeInto(m: map<string, Instant>, incoming: map<string, Instant>) returns (r: map<string, Instant>)
    ensures r == MergeAll(m, incoming, incoming.Keys)
  {
    r := m;
    var remaining := incoming.Keys;
    while remaining != {}
      invariant remaining <= incoming.Keys
      invariant r == MergeAll(m, incoming, incoming.Keys - remaining)
      decreases remaining
    {
      var key :| key in remaining;
      var instant := incoming[key];
      if !IsBlank(key) {
        var k := Lower(key);
        if k !in r || instant > r[k] {
          r := r[k := instant];
        }
      }
      var done := incoming.Keys - (remaining - {key});
      MergeAllAnyOrder(m, incoming, done, key);
      assert done - {key} == incoming.Keys - remaining;
      remaining := remaining - {key};
    }
    assert incoming.Keys - remaining == incoming.Keys;
  }

  /** What merging computes: every entry already there survives with a value no earlier; every
      merged non-blank key is present, lower-cased, with a value no earlier than the merged
      one; and each value comes from the original map or from a merged entry with that key. */
  lemma {:induction false} MergeAllShape(m: map<string, Instant>, incoming: map<string, Instant>, keys: set<string>)
    requires keys <= incoming.Keys
    ensures var r := MergeAll(m, incoming, keys);
            (forall k :: k in m ==> k in r && m[k] <= r[k]) &&
            (forall k :: k in keys && !IsBlank(k) ==> Lower(k) in r && incoming[k] <= r[Lower(k)]) &&
            (forall k :: k in r ==> (k in m && r[k] == m[k]) ||
                                    exists j :: j in keys && !IsBlank(j) && Lower(j) == k && r[k] == incoming[j])
    decreases keys
  {
    if keys != {} {
      var k :| k in keys && MergeAll(m, incoming, keys) == MergeOne(MergeAll(m, incoming, keys - {k}), k, incoming[k]);
      var prev := MergeAll(m, incoming, keys - {k});
      var r := MergeAll(m, incoming, keys);
      MergeAllShape(m, incoming, keys - {k});
      MergeOneShape(prev, k, incoming[k]);
      forall j | j in keys && !IsBlank(j) ensures Lower(j) in r && incoming[j] <= r[Lower(j)] {
        if j != k {
          assert j in keys - {k};
        }
      }
      forall x | x in r
        ensures (x in m && r[x] == m[x]) || exists j :: j in keys && !IsBlank(j) && Lower(j) == x && r[x] == incoming[j]
      {
        if !(x in prev && r[x] == prev[x]) {
          assert k in keys && !IsBlank(k) && Lower(k) == x && r[x] == incoming[k];
        }
      }
    }
  }

  // ---------------------------------------------------------------------------
  // handlePlayerConnect
  // ---------------------------------------------------------------------------

  /** handlePlayerConnect's decision: the world a connecting player is sent to instead of the
      world they join, if any. */
  function ConnectRedirect(trackingEnabled: bool, worldName: Option<string>, protectedWorlds: seq<string>,
                           schedules: seq<WorldSchedule>, offline: map<string, Instant>,
                           fromConfig: map<string, Instant>, player: Option<PlayerId>,
                           lastSeen: map<PlayerId, Instant>, destination: Option<string>): Option<string>
  {
    if !trackingEnabled || worldName.None? || IsBlank(worldName.value) then None
    else
      var name := worldName.value;
      if IsProtectedWorld(name, protectedWorlds) || !IsResetWorld(schedules, name) then None
      else match OfflineLastWipe(name, offline, fromConfig)
        case None => None
        case Some(lastWipe) =>
          var seen := if player.Some? && player.value in lastSeen then Some(lastSeen[player.value]) else None;
          if seen.Some? && !(lastWipe > seen.value) then None
          else if destination.None? || EqualsIgnoreCase(destination.value, name) then None
          else destination
  }

  /** A connecting player is redirected exactly when tracking is on, the world is a non-blank,
      unprotected reset world with a recorded wipe, the player was not seen since that wipe, and
      a destination other than the world itself exists. */
  lemma ConnectRedirectIff(trackingEnabled: bool, worldName: Option<string>, protectedWorlds: seq<string>,
                           schedules: seq<WorldSchedule>, offline: map<string, Instant>,
                           fromConfig: map<string, Instant>, player: Option<PlayerId>,
                           lastSeen: map<PlayerId, Instant>, destination: Option<string>)
    ensures var r := ConnectRedirect(trackingEnabled, worldName, protectedWorlds, schedules, offline, fromConfig,
                                     player, lastSeen, destination);
            r.Some? <==>
              trackingEnabled && worldName.Some? && !IsBlank(worldName.value) &&
              (forall i :: 0 <= i < |protectedWorlds| ==> !EqualsIgnoreCase(worldName.value, protectedWorlds[i])) &&
              (exists w :: w in ResetWorlds(schedules) && EqualsIgnoreCase(w, worldName.value)) &&
              OfflineLastWipe(worldName.value, offline, fromConfig).Some? &&
              (player.None? || player.value !in lastSeen ||
               lastSeen[player.value] < OfflineLastWipe(worldName.value, offline, fromConfig).value) &&
              destination.Some? && !EqualsIgnoreCase(destination.value, worldName.value)
    ensures var r := ConnectRedirect(trackingEnabled, worldName, protectedWorlds, schedules, offline, fromConfig,
                                     player, lastSeen, destination);
            r.Some? ==> r == destination
  {
    if worldName.Some? {
      IsProtectedWorldIff(worldName.value, protectedWorlds);
    }
  }
}
