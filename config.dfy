/**
 * WorldWipeConfig: the plugin's configuration record, how it is read from the
 * tree a YAML (or JSON) loader produces, how missing fields are defaulted and
 * resolved, how it is written back as a tree, and the text transforms applied
 * to the configuration file (header insertion, body offset, padding).
 */
module Config {
  import opened JavaText

  // ---------------------------------------------------------------------------
  // The loader's value tree
  // ---------------------------------------------------------------------------

  /** The part of what SnakeYAML's safe constructor yields that this model covers: null,
      Boolean, an integral Number, String, List, or Map (entries in document order). Floating
      point numbers and the timestamps an unquoted ISO date becomes are not covered. */
  datatype Value =
    | Null
    | Bool(b: bool)
    | Int(i: int)
    | Str(s: string)
    | List(items: seq<Value>)
    | Map(entries: seq<(Value, Value)>)

  /** Object.toString of a loaded value; lists and maps print as AbstractCollection.toString and
      AbstractMap.toString do. */
  function Show(v: Value): string
    decreases v
  {
    match v
    case Null => "null"
    case Bool(b) => if b then "true" else "false"
    case Int(i) => IntToString(i)
    case Str(s) => s
    case List(items) => "[" + ShowItems(items) + "]"
    case Map(entries) => "{" + ShowEntries(entries) + "}"
  }

  /** List elements joined with ", ". */
  function ShowItems(items: seq<Value>): string
    decreases items
  {
    if |items| == 0 then ""
    else if |items| == 1 then Show(items[0])
    else Show(items[0]) + ", " + ShowItems(items[1..])
  }

  /** One map entry as key=value. */
  function ShowEntry(entry: (Value, Value)): string
    decreases entry
  {
    Show(entry.0) + "=" + Show(entry.1)
  }

  /** Map entries joined with ", ". */
  function ShowEntries(entries: seq<(Value, Value)>): string
    decreases entries
  {
    if |entries| == 0 then ""
    else if |entries| == 1 then ShowEntry(entries[0])
    else ShowEntry(entries[0]) + ", " + ShowEntries(entries[1..])
  }

  /** Map.get with a String key: the value of the first entry under Str(key), or Null when there
      is none. */
  function Get(entries: seq<(Value, Value)>, key: string): Value
  {
    if |entries| == 0 then Null
    else if entries[0].0 == Str(key) then entries[0].1
    else Get(entries[1..], key)
  }

  /** Get finds the first entry under the key. */
  lemma {:induction false} GetAt(entries: seq<(Value, Value)>, key: string, k: nat)
    requires k < |entries| && entries[k].0 == Str(key)
    requires forall j :: 0 <= j < k ==> entries[j].0 != Str(key)
    ensures Get(entries, key) == entries[k].1
  {
    if k > 0 {
      GetAt(entries[1..], key, k - 1);
    }
  }

  /** Get of an absent key is Null. */
  lemma {:induction false} GetMissing(entries: seq<(Value, Value)>, key: string)
    requires forall j :: 0 <= j < |entries| ==> entries[j].0 != Str(key)
    ensures Get(entries, key) == Null
  {
    if |entries| > 0 {
      GetMissing(entries[1..], key);
    }
  }

  /** Map.containsKey with a String key. */
  predicate ContainsKey(entries: seq<(Value, Value)>, key: string)
  {
    exists k :: 0 <= k < |entries| && entries[k].0 == Str(key)
  }

  /** The text a value stands for once trimmed, as the parsers read scalars. */
  function TextOf(v: Value): string
  {
    Trim(Show(v))
  }

  // ---------------------------------------------------------------------------
  // Scalar parsers (parseBooleanValue, parseBoolean, parseInt)
  // ---------------------------------------------------------------------------

  /** parseBooleanValue: Booleans pass through; other values count when their trimmed text is
      "true" or "false" in any case; everything else, and null, is absent. */
  function ParseBooleanValue(v: Value): (r: Option<bool>)
    ensures v.Null? ==> r == None
    ensures v.Bool? ==> r == Some(v.b)
    ensures !v.Null? && !v.Bool? ==>
              (r == Some(true) <==> Lower(TextOf(v)) == "true") &&
              (r == Some(false) <==> Lower(TextOf(v)) == "false")
  {
    LowerOfLowercase("true");
    LowerOfLowercase("false");
    if v.Null? then None
    else if v.Bool? then Some(v.b)
    else
      var text := TextOf(v);
      if IsBlank(text) then
        BlankIsNoWord(text, "true");
        BlankIsNoWord(text, "false");
        None
      else if EqualsIgnoreCase("true", text) then Some(true)
      else if EqualsIgnoreCase("false", text) then Some(false)
      else None
  }

  /** Lower-casing keeps a blank text blank, so it never spells a word. */
  lemma BlankIsNoWord(text: string, word: string)
    requires IsBlank(text) && |word| > 0 && !IsWhitespace(word[0])
    ensures Lower(text) != word
  {
    if |text| > 0 {
      assert Lower(text)[0] == text[0];
    }
  }

  /** parseBoolean: the primary value when it parses, the fallback otherwise. */
  function ParseBoolean(primary: Value, fallback: Value): (r: Option<bool>)
    ensures ParseBooleanValue(primary).Some? ==> r == ParseBooleanValue(primary)
    ensures ParseBooleanValue(primary).None? ==> r == ParseBooleanValue(fallback)
  {
    var result := ParseBooleanValue(primary);
    if result.Some? then result else ParseBooleanValue(fallback)
  }

  /** parseInt: an integral number's intValue, or Integer.parseInt of the trimmed text;
      null, blank and malformed text are absent. */
  function ParseIntValue(v: Value): (r: Option<int>)
    ensures r.Some? ==> IntMin <= r.value <= IntMax
    ensures v.Int? ==> r == Some(IntValue(v.i))
    ensures v.Null? ==> r == None
    ensures !v.Null? && !v.Int? ==> r == ParseInt(TextOf(v))
  {
    if v.Null? then None
    else if v.Int? then Some(IntValue(v.i))
    else
      var text := TextOf(v);
      if IsBlank(text) then None else ParseInt(text)
  }

  // ---------------------------------------------------------------------------
  // Schedules and world entries
  // ---------------------------------------------------------------------------

  /** WorldWipeConfig.Schedule, as stored in the file (unvalidated text). */
  datatype Schedule = Schedule(mode: string, day: string, dayOfMonth: int, time: string, zone: string)

  const DefaultSchedule: Schedule := Schedule("WEEKLY", "MONDAY", 1, "06:00", "system")

  /** WorldWipeConfig.WorldEntry: a per-world schedule, an optional regenerate override and
      the last wipe as ISO text. */
  datatype WorldEntry = WorldEntry(schedule: Schedule, regenerateOnWipe: Option<bool>, lastWipe: Option<string>)

  const DefaultWorldEntry: WorldEntry := WorldEntry(DefaultSchedule, None, None)

  /** The day of month a schedule map gives: a number's intValue, else the parsed trimmed
      text, else the default kept. */
  function DayOfMonthOf(v: Value, otherwise: int): (r: int)
    ensures v.Int? ==> r == IntValue(v.i)
    ensures v.Null? ==> r == otherwise
    ensures r == OrElse(ParseIntValue(v), otherwise)
  {
    if v.Int? then IntValue(v.i)
    else if v.Null? then otherwise
    else
      var parsed := ParseInt(TextOf(v));
      if parsed.Some? then parsed.value else otherwise
  }

  /** A present field replaces the default with its text. */
  function TextOr(v: Value, otherwise: string): string
  {
    if v.Null? then otherwise else Show(v)
  }

  /** parseSchedule */
  function ParseSchedule(v: Value): (r: Schedule)
    ensures !v.Map? ==> r == DefaultSchedule
    ensures v.Map? ==>
              var m := v.entries;
              (Get(m, "mode").Null? ==> r.mode == "WEEKLY") &&
              (Get(m, "day").Null? ==> r.day == "MONDAY") &&
              (Get(m, "time").Null? ==> r.time == "06:00") &&
              (Get(m, "zone").Null? ==> r.zone == "system") &&
              (Get(m, "dayOfMonth").Null? ==> r.dayOfMonth == 1)
    ensures v.Map? ==>
              var m := v.entries;
              (!Get(m, "mode").Null? ==> r.mode == Show(Get(m, "mode"))) &&
              (!Get(m, "day").Null? ==> r.day == Show(Get(m, "day"))) &&
              (!Get(m, "time").Null? ==> r.time == Show(Get(m, "time"))) &&
              (!Get(m, "zone").Null? ==> r.zone == Show(Get(m, "zone"))) &&
              r.dayOfMonth == OrElse(ParseIntValue(Get(m, "dayOfMonth")), 1)
    ensures IntMin <= r.dayOfMonth <= IntMax
  {
    if !v.Map? then DefaultSchedule
    else
      var m := v.entries;
      Schedule(TextOr(Get(m, "mode"), DefaultSchedule.mode),
               TextOr(Get(m, "day"), DefaultSchedule.day),
               DayOfMonthOf(Get(m, "dayOfMonth"), DefaultSchedule.dayOfMonth),
               TextOr(Get(m, "time"), DefaultSchedule.time),
               TextOr(Get(m, "zone"), DefaultSchedule.zone))
  }

  /** The stored last wipe: trimmed, and absent when blank. */
  function LastWipeOf(v: Value): (r: Option<string>)
    ensures r.Some? ==> !IsBlank(r.value) && r.value == Trim(r.value)
    ensures r.Some? <==> !v.Null? && !IsBlank(TextOf(v))
    ensures r.Some? ==> r.value == Trim(Show(v))
  {
    if v.Null? then None
    else
      var text := TextOf(v);
      TrimIdempotent(Show(v));
      if IsBlank(text) then None else Some(text)
  }

  /** parseWorldEntry */
  function ParseWorldEntry(v: Value): (r: WorldEntry)
    ensures !v.Map? ==> r == DefaultWorldEntry
    ensures v.Map? ==> r.schedule == ParseSchedule(Get(v.entries, "schedule"))
    ensures v.Map? ==> r.regenerateOnWipe == ParseBooleanValue(Get(v.entries, "regenerateOnWipe"))
    ensures v.Map? ==> r.lastWipe == LastWipeOf(Get(v.entries, "lastWipe"))
    ensures r.lastWipe.Some? ==> !IsBlank(r.lastWipe.value) && r.lastWipe.value == Trim(r.lastWipe.value)
  {
    if !v.Map? then DefaultWorldEntry
    else
      var m := v.entries;
      WorldEntry(ParseSchedule(Get(m, "schedule")),
                 ParseBooleanValue(Get(m, "regenerateOnWipe")),
                 LastWipeOf(Get(m, "lastWipe")))
  }

  // ---------------------------------------------------------------------------
  // parseStringList
  // ---------------------------------------------------------------------------

  /** What one list element adds: nothing when it is null or its trimmed text is blank, else
      that text. */
  function KeptText(v: Value): (r: Option<string>)
    ensures v.Null? ==> r == None
  {
    if v.Null? then None
    else
      var text := TextOf(v);
      if IsBlank(text) then None else Some(text)
  }

  /** The kept text of every element. */
  function KeptTexts(items: seq<Value>): (r: seq<Option<string>>)
    ensures |r| == |items|
  {
    seq(|items|, i requires 0 <= i < |items| => KeptText(items[i]))
  }

  /** One LinkedHashSet.add: a kept text not seen before is appended. */
  function AddText(acc: seq<string>, k: Option<string>): seq<string>
  {
    if k.Some? && k.value !in acc then acc + [k.value] else acc
  }

  /** The distinct kept texts, in first-seen order. */
  function DistinctTexts(ks: seq<Option<string>>): seq<string>
  {
    if |ks| == 0 then [] else AddText(DistinctTexts(ks[..|ks| - 1]), ks[|ks| - 1])
  }

  /** What parseStringList iterates: a list's elements, or the single scalar. */
  function Candidates(v: Value): seq<Value>
  {
    if v.List? then v.items else [v]
  }

  /** parseStringList: null for null, otherwise the distinct kept texts, or null when none. */
  function StringListOf(v: Value): Option<seq<string>>
  {
    if v.Null? then None
    else
      var texts := DistinctTexts(KeptTexts(Candidates(v)));
      if |texts| == 0 then None else Some(texts)
  }

  /** One more element is one more add. */
  lemma DistinctTextsStep(items: seq<Value>, i: nat)
    requires i < |items|
    ensures DistinctTexts(KeptTexts(items)[..i + 1]) == AddText(DistinctTexts(KeptTexts(items)[..i]), KeptText(items[i]))
  {
    assert KeptTexts(items)[..i + 1][..i] == KeptTexts(items)[..i];
  }

  /** parseStringList */
  method ParseStringList(value: Value) returns (r: Option<seq<string>>)
    ensures r == StringListOf(value)
  {
    if value.Null? {
      return None;
    }
    var values: seq<string> := [];
    if value.List? {
      var items := value.items;
      var i := 0;
      while i < |items|
        invariant 0 <= i <= |items|
        invariant values == DistinctTexts(KeptTexts(items)[..i])
      {
        var entry := items[i];
        DistinctTextsStep(items, i);
        if !entry.Null? {
          var text := TextOf(entry);
          if !IsBlank(text) && text !in values {
            values := values + [text];
          }
        }
        i := i + 1;
      }
      assert KeptTexts(items)[..|items|] == KeptTexts(items);
    } else {
      var text := TextOf(value);
      if !IsBlank(text) {
        values := values + [text];
      }
      DistinctTextsStep([value], 0);
      assert KeptTexts([value])[..1] == KeptTexts([value]);
    }
    r := if |values| == 0 then None else Some(values);
  }

  /** No text occurs twice (what a LinkedHashSet guarantees). */
  predicate NoDuplicates(r: seq<string>)
  {
    forall i, j :: 0 <= i < j < |r| ==> r[i] != r[j]
  }

  /** The kept texts are distinct. */
  lemma {:induction false} DistinctTextsUnique(ks: seq<Option<string>>)
    ensures NoDuplicates(DistinctTexts(ks))
  {
    if |ks| > 0 {
      DistinctTextsUnique(ks[..|ks| - 1]);
    }
  }

  /** Exactly the kept texts are there: each result is some element's kept text, and each
      element's kept text is in the result. */
  lemma {:induction false} DistinctTextsMembers(ks: seq<Option<string>>, t: string)
    ensures t in DistinctTexts(ks) <==> Some(t) in ks
  {
    if |ks| > 0 {
      var front := ks[..|ks| - 1];
      DistinctTextsMembers(front, t);
      assert ks == front + [ks[|ks| - 1]];
    }
  }

  /** First-seen order: the texts of a prefix of the elements are a prefix of the texts of all. */
  lemma {:induction false} DistinctTextsPrefix(ks: seq<Option<string>>, n: nat)
    requires n <= |ks|
    ensures var p, r := DistinctTexts(ks[..n]), DistinctTexts(ks); |p| <= |r| && r[..|p|] == p
    decreases |ks| - n
  {
    if n < |ks| {
      var front := ks[..|ks| - 1];
      assert front[..n] == ks[..n];
      DistinctTextsPrefix(front, n);
    } else {
      assert ks[..n] == ks;
    }
  }

  /** When every element is kept and their texts differ, all of them are kept, in order. */
  lemma {:induction false} DistinctTextsAllKept(l: seq<string>)
    requires NoDuplicates(l)
    ensures DistinctTexts(seq(|l|, i requires 0 <= i < |l| => Some(l[i]))) == l
  {
    var ks := seq(|l|, i requires 0 <= i < |l| => Some(l[i]));
    if |l| > 0 {
      var front := l[..|l| - 1];
      assert ks[..|ks| - 1] == seq(|front|, i requires 0 <= i < |front| => Some(front[i]));
      DistinctTextsAllKept(front);
      assert l[|l| - 1] !in front by {
        forall i | 0 <= i < |front| ensures front[i] != l[|l| - 1] {
          assert front[i] == l[i];
        }
      }
      assert l == front + [l[|l| - 1]];
    }
  }

  /** Every text parseStringList returns is trimmed and not blank, the list is never empty, no
      text repeats, and a text is there exactly when some element's trimmed text is it. */
  lemma StringListOfShape(v: Value)
    ensures var r := StringListOf(v);
            r.Some? ==> |r.value| > 0 && NoDuplicates(r.value) &&
                        (forall t :: t in r.value ==> !IsBlank(t) && Trim(t) == t) &&
                        (forall t :: t in r.value <==> Some(t) in KeptTexts(Candidates(v)))
  {
    var ks := KeptTexts(Candidates(v));
    DistinctTextsUnique(ks);
    forall t
      ensures t in DistinctTexts(ks) <==> Some(t) in ks
    {
      DistinctTextsMembers(ks, t);
    }
    forall t | Some(t) in ks
      ensures !IsBlank(t) && Trim(t) == t
    {
      var k :| 0 <= k < |ks| && ks[k] == Some(t);
      TrimIdempotent(Show(Candidates(v)[k]));
    }
  }

  // ---------------------------------------------------------------------------
  // The configuration record, its defaults and its resolved view
  // ---------------------------------------------------------------------------

  /** A world name with its entry, in the order a LinkedHashMap keeps them. */
  type Worlds = seq<(string, WorldEntry)>

  /** The eight nullable fields of WorldWipeConfig, as a value (None is null). */
  datatype Settings = Settings(
    protectedWorlds: Option<seq<string>>,
    schedulingEnabled: Option<bool>,
    regenerateOnWipe: Option<bool>,
    offlineTrackingEnabled: Option<bool>,
    offlineTrackingSaveFile: Option<bool>,
    offlineTrackingMaxDays: Option<int>,
    offlineTrackingMode: Option<string>,
    worlds: Option<Worlds>)

  /** A configuration object straight from its constructor: every field null. */
  const EmptySettings: Settings := Settings(None, None, None, None, None, None, None, None)

  /** What ensureDefaults leaves in the fields. */
  function Defaulted(s: Settings): (r: Settings)
    ensures r.protectedWorlds.Some? && |r.protectedWorlds.value| > 0
    ensures r.schedulingEnabled.Some? && r.regenerateOnWipe.Some?
    ensures r.offlineTrackingEnabled.Some? && r.offlineTrackingSaveFile.Some?
    ensures r.offlineTrackingMaxDays.Some? && r.worlds.Some?
    ensures r.offlineTrackingMode.Some? && !IsBlank(r.offlineTrackingMode.value)
    ensures s.protectedWorlds.None? || |s.protectedWorlds.value| == 0 ==> r.protectedWorlds == Some(["default"])
    ensures s.schedulingEnabled.None? ==> r.schedulingEnabled == Some(false)
    ensures s.regenerateOnWipe.None? ==> r.regenerateOnWipe == Some(false)
    ensures s.offlineTrackingEnabled.None? ==> r.offlineTrackingEnabled == Some(true)
    ensures s.offlineTrackingSaveFile.None? ==> r.offlineTrackingSaveFile == Some(true)
    ensures s.offlineTrackingMaxDays.None? ==> r.offlineTrackingMaxDays == Some(90)
    ensures s.offlineTrackingMode.None? || IsBlank(s.offlineTrackingMode.value) ==> r.offlineTrackingMode == Some("ALL")
    ensures s.worlds.None? ==> r.worlds == Some([])
  {
    assert !IsWhitespace("ALL"[0]);
    Settings(
      if s.protectedWorlds.None? || |s.protectedWorlds.value| == 0 then Some(["default"]) else s.protectedWorlds,
      if s.schedulingEnabled.None? then Some(false) else s.schedulingEnabled,
      if s.regenerateOnWipe.None? then Some(false) else s.regenerateOnWipe,
      if s.offlineTrackingEnabled.None? then Some(true) else s.offlineTrackingEnabled,
      if s.offlineTrackingSaveFile.None? then Some(true) else s.offlineTrackingSaveFile,
      if s.offlineTrackingMaxDays.None? then Some(90) else s.offlineTrackingMaxDays,
      if s.offlineTrackingMode.None? || IsBlank(s.offlineTrackingMode.value) then Some("ALL") else s.offlineTrackingMode,
      if s.worlds.None? then Some([]) else s.worlds)
  }

  /** ensureDefaults only fills in: a field that is already usable keeps its value, and a second
      application changes nothing. */
  lemma DefaultedKeepsAndSettles(s: Settings)
    ensures var d := Defaulted(s);
            (s.protectedWorlds.Some? && |s.protectedWorlds.value| > 0 ==> d.protectedWorlds == s.protectedWorlds) &&
            (s.schedulingEnabled.Some? ==> d.schedulingEnabled == s.schedulingEnabled) &&
            (s.regenerateOnWipe.Some? ==> d.regenerateOnWipe == s.regenerateOnWipe) &&
            (s.offlineTrackingEnabled.Some? ==> d.offlineTrackingEnabled == s.offlineTrackingEnabled) &&
            (s.offlineTrackingSaveFile.Some? ==> d.offlineTrackingSaveFile == s.offlineTrackingSaveFile) &&
            (s.offlineTrackingMaxDays.Some? ==> d.offlineTrackingMaxDays == s.offlineTrackingMaxDays) &&
            (s.offlineTrackingMode.Some? && !IsBlank(s.offlineTrackingMode.value) ==> d.offlineTrackingMode == s.offlineTrackingMode) &&
            (s.worlds.Some? ==> d.worlds == s.worlds) &&
            Defaulted(d) == d
  {
    var d := Defaulted(s);
    assert !IsBlank(d.offlineTrackingMode.value);
  }

  /** WorldWipeConfig.EffectiveConfig: every field non-null. */
  datatype EffectiveConfig = EffectiveConfig(
    protectedWorlds: seq<string>,
    schedulingEnabled: bool,
    regenerateOnWipe: bool,
    offlineTrackingEnabled: bool,
    offlineTrackingSaveFile: bool,
    offlineTrackingMaxDays: int,
    offlineTrackingMode: string,
    worlds: Worlds)

  function OrElse<T>(o: Option<T>, otherwise: T): T
  {
    if o.Some? then o.value else otherwise
  }

  /** resolve: null reads as false for scheduling and regeneration, as true for the two offline
      tracking switches, as 90 days, as mode "ALL", as the list ["default"] and as no worlds. */
  function Resolve(s: Settings): (e: EffectiveConfig)
    ensures e.schedulingEnabled <==> s.schedulingEnabled == Some(true)
    ensures e.regenerateOnWipe <==> s.regenerateOnWipe == Some(true)
    ensures e.offlineTrackingEnabled <==> s.offlineTrackingEnabled != Some(false)
    ensures e.offlineTrackingSaveFile <==> s.offlineTrackingSaveFile != Some(false)
    ensures e.offlineTrackingMaxDays == (if s.offlineTrackingMaxDays.Some? then s.offlineTrackingMaxDays.value else 90)
    ensures e.offlineTrackingMode == (if s.offlineTrackingMode.Some? then s.offlineTrackingMode.value else "ALL")
    ensures e.protectedWorlds == (if s.protectedWorlds.Some? then s.protectedWorlds.value else ["default"])
    ensures e.worlds == (if s.worlds.Some? then s.worlds.value else [])
  {
    EffectiveConfig(
      OrElse(s.protectedWorlds, ["default"]),
      s.schedulingEnabled.Some? && s.schedulingEnabled.value,
      s.regenerateOnWipe.Some? && s.regenerateOnWipe.value,
      s.offlineTrackingEnabled.None? || s.offlineTrackingEnabled.value,
      s.offlineTrackingSaveFile.None? || s.offlineTrackingSaveFile.value,
      OrElse(s.offlineTrackingMaxDays, 90),
      OrElse(s.offlineTrackingMode, "ALL"),
      OrElse(s.worlds, []))
  }

  /** Resolving after ensureDefaults differs from resolving before it only where resolve keeps what
      ensureDefaults replaces: an empty protected list and a blank mode. */
  lemma ResolveAfterDefaults(s: Settings)
    ensures var before, after := Resolve(s), Resolve(Defaulted(s));
            after.schedulingEnabled == before.schedulingEnabled &&
            after.regenerateOnWipe == before.regenerateOnWipe &&
            after.offlineTrackingEnabled == before.offlineTrackingEnabled &&
            after.offlineTrackingSaveFile == before.offlineTrackingSaveFile &&
            after.offlineTrackingMaxDays == before.offlineTrackingMaxDays &&
            after.worlds == before.worlds &&
            (after.protectedWorlds == before.protectedWorlds <==> |before.protectedWorlds| > 0) &&
            (after.offlineTrackingMode == before.offlineTrackingMode <==> !IsBlank(before.offlineTrackingMode))
  {
    var before, after := Resolve(s), Resolve(Defaulted(s));
    if IsBlank(before.offlineTrackingMode) {
      assert !IsBlank(after.offlineTrackingMode);
    }
  }

  // ---------------------------------------------------------------------------
  // The worlds map (a LinkedHashMap from world name to entry)
  // ---------------------------------------------------------------------------

  /** The names of the worlds, in order. */
  function Names(w: Worlds): seq<string>
  {
    seq(|w|, i requires 0 <= i < |w| => w[i].0)
  }

  /** A map has each key once. */
  predicate UniqueNames(w: Worlds)
  {
    forall i, j :: 0 <= i < j < |w| ==> w[i].0 != w[j].0
  }

  /** Map.get: the entry under `name`, if any. */
  function Lookup(w: Worlds, name: string): (r: Option<WorldEntry>)
    ensures r.Some? <==> name in Names(w)
  {
    if |w| == 0 then None
    else
      assert Names(w) == [w[0].0] + Names(w[1..]);
      if w[0].0 == name then Some(w[0].1)
      else Lookup(w[1..], name)
  }

  /** LinkedHashMap.put: a present key keeps its position and takes the new entry; a new key
      is appended. */
  function Put(w: Worlds, name: string, e: WorldEntry): (r: Worlds)
    ensures name in Names(w) ==> |r| == |w| && Names(r) == Names(w)
    ensures name !in Names(w) ==> r == w + [(name, e)]
  {
    if |w| == 0 then [(name, e)]
    else
      assert Names(w) == [w[0].0] + Names(w[1..]);
      if w[0].0 == name then
        assert Names([(name, e)] + w[1..]) == [name] + Names(w[1..]);
        [(name, e)] + w[1..]
      else
        assert Names([w[0]] + Put(w[1..], name, e)) == [w[0].0] + Names(Put(w[1..], name, e));
        [w[0]] + Put(w[1..], name, e)
  }

  /** After put, the names are the old names and the new one. */
  lemma PutNames(w: Worlds, name: string, e: WorldEntry)
    ensures forall m :: m in Names(Put(w, name, e)) <==> m in Names(w) || m == name
  {
    if name !in Names(w) {
      assert Names(w + [(name, e)]) == Names(w) + [name];
    }
  }

  /** After put, the key maps to the new entry and every other key is untouched. */
  lemma {:induction false} PutLookup(w: Worlds, name: string, e: WorldEntry, other: string)
    ensures Lookup(Put(w, name, e), name) == Some(e)
    ensures other != name ==> Lookup(Put(w, name, e), other) == Lookup(w, other)
  {
    if |w| > 0 && w[0].0 != name {
      PutLookup(w[1..], name, e, other);
      assert Put(w, name, e)[1..] == Put(w[1..], name, e);
    }
  }

  lemma PutKeepsUnique(w: Worlds, name: string, e: WorldEntry)
    requires UniqueNames(w)
    ensures UniqueNames(Put(w, name, e))
  {
    var r := Put(w, name, e);
    if name in Names(w) {
      forall i, j | 0 <= i < j < |r|
        ensures r[i].0 != r[j].0
      {
        assert r[i].0 == Names(r)[i] == Names(w)[i];
        assert r[j].0 == Names(r)[j] == Names(w)[j];
      }
    } else {
      forall i | 0 <= i < |w|
        ensures w[i].0 != name
      {
        assert w[i].0 == Names(w)[i];
      }
    }
  }

  /** The world name a loaded key stands for: its text, unless it is null or blank. */
  function WorldKey(k: Value): Option<string>
  {
    if k.Null? || IsBlank(Show(k)) then None else Some(Show(k))
  }

  /** The worlds fromMap builds from the loaded worlds map, entry by entry. */
  function WorldsOf(raw: seq<(Value, Value)>): Worlds
  {
    if |raw| == 0 then []
    else
      var w := WorldsOf(raw[..|raw| - 1]);
      var last := raw[|raw| - 1];
      match WorldKey(last.0)
      case None => w
      case Some(name) => Put(w, name, ParseWorldEntry(last.1))
  }

  /** fromMap's loop over the worlds map. */
  method ParseWorlds(raw: seq<(Value, Value)>) returns (w: Worlds)
    ensures w == WorldsOf(raw)
  {
    w := [];
    var i := 0;
    while i < |raw|
      invariant 0 <= i <= |raw|
      invariant w == WorldsOf(raw[..i])
    {
      assert raw[..i + 1][..i] == raw[..i];
      var (key, value) := raw[i];
      if !key.Null? {
        var worldName := Show(key);
        if !IsBlank(worldName) {
          var entry := ParseWorldEntry(value);
          w := Put(w, worldName, entry);
        }
      }
      i := i + 1;
    }
    assert raw[..i] == raw;
  }

  /** The parsed worlds have distinct names. */
  lemma {:induction false} WorldsOfUnique(raw: seq<(Value, Value)>)
    ensures UniqueNames(WorldsOf(raw))
  {
    if |raw| > 0 {
      var front := raw[..|raw| - 1];
      var last := raw[|raw| - 1];
      WorldsOfUnique(front);
      if WorldKey(last.0).Some? {
        PutKeepsUnique(WorldsOf(front), WorldKey(last.0).value, ParseWorldEntry(last.1));
      }
    }
  }

  /** A world is present exactly when some non-null key has that non-blank text. */
  lemma {:induction false} WorldsOfNames(raw: seq<(Value, Value)>, name: string)
    ensures name in Names(WorldsOf(raw)) <==> exists k :: 0 <= k < |raw| && WorldKey(raw[k].0) == Some(name)
  {
    if |raw| > 0 {
      var front := raw[..|raw| - 1];
      var last := raw[|raw| - 1];
      WorldsOfNames(front, name);
      if WorldKey(last.0).Some? {
        PutNames(WorldsOf(front), WorldKey(last.0).value, ParseWorldEntry(last.1));
      }
      if exists k :: 0 <= k < |front| && WorldKey(front[k].0) == Some(name) {
        var k :| 0 <= k < |front| && WorldKey(front[k].0) == Some(name);
        assert raw[k] == front[k];
      }
      if exists k :: 0 <= k < |raw| && WorldKey(raw[k].0) == Some(name) {
        var k :| 0 <= k < |raw| && WorldKey(raw[k].0) == Some(name);
        if k < |front| {
          assert raw[k] == front[k];
        }
      }
    }
  }

  /** A world keeps the entry of the last key that names it (LinkedHashMap.put overwrites). */
  lemma {:induction false} WorldsOfLastWins(raw: seq<(Value, Value)>, k: int)
    requires 0 <= k < |raw| && WorldKey(raw[k].0).Some?
    requires forall j :: k < j < |raw| ==> WorldKey(raw[j].0) != WorldKey(raw[k].0)
    ensures Lookup(WorldsOf(raw), WorldKey(raw[k].0).value) == Some(ParseWorldEntry(raw[k].1))
  {
    var front := raw[..|raw| - 1];
    var name := WorldKey(raw[k].0).value;
    if k < |raw| - 1 {
      assert front[k] == raw[k];
      forall j | k < j < |front|
        ensures WorldKey(front[j].0) != WorldKey(front[k].0)
      {
        assert front[j] == raw[j];
      }
      WorldsOfLastWins(front, k);
      var last := raw[|raw| - 1];
      if WorldKey(last.0).Some? {
        PutLookup(WorldsOf(front), WorldKey(last.0).value, ParseWorldEntry(last.1), name);
      }
    } else {
      PutLookup(WorldsOf(front), name, ParseWorldEntry(raw[k].1), name);
    }
  }

  // ---------------------------------------------------------------------------
  // fromMap
  // ---------------------------------------------------------------------------

  /** The fields fromMap reads from the root map, before ensureDefaults: "protectedWorlds" wins over
      the legacy "protectedWorld" when the key is present, "schedulingEnabled" falls back to the
      legacy "enabled", and a worlds value that is not a map leaves the worlds null. */
  function SettingsOf(root: seq<(Value, Value)>): Settings
  {
    var protectedValue := if ContainsKey(root, "protectedWorlds") then Get(root, "protectedWorlds")
                          else Get(root, "protectedWorld");
    var mode := Get(root, "offlineTrackingMode");
    var worlds := Get(root, "worlds");
    Settings(
      StringListOf(protectedValue),
      ParseBoolean(Get(root, "schedulingEnabled"), Get(root, "enabled")),
      ParseBoolean(Get(root, "regenerateOnWipe"), Null),
      ParseBoolean(Get(root, "offlineTrackingEnabled"), Null),
      ParseBoolean(Get(root, "offlineTrackingSaveFile"), Null),
      ParseIntValue(Get(root, "offlineTrackingMaxDays")),
      if mode.Null? then None else Some(Show(mode)),
      if worlds.Map? then Some(WorldsOf(worlds.entries)) else None)
  }

  // ---------------------------------------------------------------------------
  // buildYamlMap / buildScheduleMap: the tree handed to the YAML dumper
  // ---------------------------------------------------------------------------

  /** buildScheduleMap */
  function ScheduleMap(schedule: Schedule): seq<(Value, Value)>
  {
    [(Str("mode"), Str(schedule.mode)),
     (Str("day"), Str(schedule.day)),
     (Str("dayOfMonth"), Int(schedule.dayOfMonth)),
     (Str("time"), Str(schedule.time)),
     (Str("zone"), Str(schedule.zone))]
  }

  /** One world's map: its schedule, the regenerate override only when set, the last wipe only
      when not blank. */
  function EntryMap(e: WorldEntry): seq<(Value, Value)>
  {
    [(Str("schedule"), Map(ScheduleMap(e.schedule)))]
    + (if e.regenerateOnWipe.Some? then [(Str("regenerateOnWipe"), Bool(e.regenerateOnWipe.value))] else [])
    + (if e.lastWipe.Some? && !IsBlank(e.lastWipe.value) then [(Str("lastWipe"), Str(e.lastWipe.value))] else [])
  }

  /** The worlds map written out; worlds with a blank name are skipped. */
  function WorldsMap(w: Worlds): seq<(Value, Value)>
  {
    if |w| == 0 then []
    else
      var front := WorldsMap(w[..|w| - 1]);
      var (name, e) := w[|w| - 1];
      if IsBlank(name) then front else front + [(Str(name), Map(EntryMap(e)))]
  }

  /** protectedWorld as written: "default" for none, the name itself for one, the list otherwise. */
  function ProtectedValue(p: Option<seq<string>>): Value
  {
    if p.None? || |p.value| == 0 then Str("default")
    else if |p.value| == 1 then Str(p.value[0])
    else List(seq(|p.value|, i requires 0 <= i < |p.value| => Str(p.value[i])))
  }

  /** buildYamlMap: null switches are written as their defaults. */
  function BuildYamlMap(s: Settings): seq<(Value, Value)>
  {
    [(Str("schedulingEnabled"), Bool(OrElse(s.schedulingEnabled, false))),
     (Str("regenerateOnWipe"), Bool(OrElse(s.regenerateOnWipe, false))),
     (Str("offlineTrackingEnabled"), Bool(OrElse(s.offlineTrackingEnabled, true))),
     (Str("offlineTrackingSaveFile"), Bool(OrElse(s.offlineTrackingSaveFile, true))),
     (Str("offlineTrackingMaxDays"), Int(OrElse(s.offlineTrackingMaxDays, 90))),
     (Str("offlineTrackingMode"), Str(OrElse(s.offlineTrackingMode, "ALL"))),
     (Str("protectedWorld"), ProtectedValue(s.protectedWorlds)),
     (Str("worlds"), Map(WorldsMap(OrElse(s.worlds, []))))]
  }

  /** A name list fromMap reads back unchanged: trimmed, non-blank, without repeats. */
  predicate CanonicalNames(l: seq<string>)
  {
    NoDuplicates(l) && forall i :: 0 <= i < |l| ==> !IsBlank(l[i]) && Trim(l[i]) == l[i]
  }

  /** An entry parseWorldEntry reads back unchanged. */
  predicate CanonicalEntry(e: WorldEntry)
  {
    IntMin <= e.schedule.dayOfMonth <= IntMax &&
    (e.lastWipe.Some? ==> !IsBlank(e.lastWipe.value) && Trim(e.lastWipe.value) == e.lastWipe.value)
  }

  /** A worlds map that survives writing and reading back. */
  predicate CanonicalWorlds(w: Worlds)
  {
    UniqueNames(w) && forall i :: 0 <= i < |w| ==> !IsBlank(w[i].0) && CanonicalEntry(w[i].1)
  }

  /** A configuration whose write-out reads back as itself, up to defaults. */
  predicate Writable(s: Settings)
  {
    (s.protectedWorlds.Some? ==> CanonicalNames(s.protectedWorlds.value)) &&
    (s.offlineTrackingMaxDays.Some? ==> IntMin <= s.offlineTrackingMaxDays.value <= IntMax) &&
    (s.worlds.Some? ==> CanonicalWorlds(s.worlds.value))
  }

  /** A trimmed string reads back as itself. */
  lemma TextOfStr(t: string)
    requires Trim(t) == t
    ensures TextOf(Str(t)) == t
  {
    assert Show(Str(t)) == t;
  }

  /** A canonical name list written as strings reads back as itself. */
  lemma DistinctTextsOfNames(l: seq<string>)
    requires CanonicalNames(l)
    ensures DistinctTexts(KeptTexts(seq(|l|, i requires 0 <= i < |l| => Str(l[i])))) == l
  {
    var items := seq(|l|, i requires 0 <= i < |l| => Str(l[i]));
    forall i | 0 <= i < |l|
      ensures KeptText(items[i]) == Some(l[i])
    {
      TextOfStr(l[i]);
    }
    assert KeptTexts(items) == seq(|l|, i requires 0 <= i < |l| => Some(l[i]));
    DistinctTextsAllKept(l);
  }

  /** protectedWorld as written reads back as the list, or ["default"] for none. */
  lemma ProtectedRoundTrip(p: Option<seq<string>>)
    requires p.Some? ==> CanonicalNames(p.value)
    ensures StringListOf(ProtectedValue(p)) == (if p.None? || |p.value| == 0 then Some(["default"]) else p)
  {
    if p.None? || |p.value| == 0 {
      DefaultNameRoundTrip();
    } else if |p.value| == 1 {
      SingleNameRoundTrip(p.value);
    } else {
      DistinctTextsOfNames(p.value);
    }
  }

  /** "default" is a canonical name. */
  lemma DefaultNameRoundTrip()
    ensures StringListOf(Str("default")) == Some(["default"])
  {
    var l := ["default"];
    assert !IsWhitespace(l[0][0]);
    assert Trim(l[0]) == l[0];
    SingleNameRoundTrip(l);
  }

  lemma SingleNameRoundTrip(l: seq<string>)
    requires |l| == 1 && CanonicalNames(l)
    ensures StringListOf(Str(l[0])) == Some(l)
  {
    DistinctTextsOfNames(l);
    assert seq(1, i requires 0 <= i < 1 => Str(l[i])) == [Str(l[0])];
  }

  /** buildScheduleMap's map reads back as the schedule. */
  lemma ScheduleRoundTrip(schedule: Schedule)
    requires IntMin <= schedule.dayOfMonth <= IntMax
    ensures ParseSchedule(Map(ScheduleMap(schedule))) == schedule
  {
    var sm := ScheduleMap(schedule);
    GetAt(sm, "mode", 0);
    GetAt(sm, "day", 1);
    GetAt(sm, "dayOfMonth", 2);
    GetAt(sm, "time", 3);
    GetAt(sm, "zone", 4);
  }

  /** A canonical entry survives writing and reading back. */
  lemma EntryRoundTrip(e: WorldEntry)
    requires CanonicalEntry(e)
    ensures ParseWorldEntry(Map(EntryMap(e))) == e
  {
    var m := EntryMap(e);
    GetAt(m, "schedule", 0);
    ScheduleRoundTrip(e.schedule);
    var n := if e.regenerateOnWipe.Some? then 2 else 1;
    if e.regenerateOnWipe.Some? {
      GetAt(m, "regenerateOnWipe", 1);
    } else {
      GetMissing(m, "regenerateOnWipe");
    }
    if e.lastWipe.Some? {
      GetAt(m, "lastWipe", n);
      TextOfStr(e.lastWipe.value);
    } else {
      GetMissing(m, "lastWipe");
    }
  }

  /** A world name that is not blank is its own key. */
  lemma WorldKeyStr(name: string)
    requires !IsBlank(name)
    ensures WorldKey(Str(name)) == Some(name)
  {
    assert Show(Str(name)) == name;
  }

  /** Writing out one more world appends one entry to the written map. */
  lemma WorldsMapSnoc(w: Worlds)
    requires |w| > 0 && !IsBlank(w[|w| - 1].0)
    ensures WorldsMap(w) == WorldsMap(w[..|w| - 1]) + [(Str(w[|w| - 1].0), Map(EntryMap(w[|w| - 1].1)))]
  {
  }

  /** Reading one more entry with a fresh world name appends it. */
  lemma WorldsOfSnoc(raw: seq<(Value, Value)>, name: string, v: Value)
    requires !IsBlank(name) && name !in Names(WorldsOf(raw))
    ensures WorldsOf(raw + [(Str(name), v)]) == WorldsOf(raw) + [(name, ParseWorldEntry(v))]
  {
    WorldKeyStr(name);
    assert (raw + [(Str(name), v)])[..|raw|] == raw;
  }

  /** A canonical worlds map minus its last entry is canonical, and does not name that entry's
      world. */
  lemma CanonicalWorldsFront(w: Worlds)
    requires |w| > 0 && CanonicalWorlds(w)
    ensures var front := w[..|w| - 1];
            CanonicalWorlds(front) && w[|w| - 1].0 !in Names(front) &&
            !IsBlank(w[|w| - 1].0) && CanonicalEntry(w[|w| - 1].1)
  {
    var front := w[..|w| - 1];
    forall i | 0 <= i < |front| ensures front[i] == w[i] && Names(front)[i] != w[|w| - 1].0 {
    }
  }

  /** A canonical worlds map survives writing and reading back. */
  lemma {:induction false} WorldsRoundTrip(w: Worlds)
    requires CanonicalWorlds(w)
    ensures WorldsOf(WorldsMap(w)) == w
  {
    if |w| > 0 {
      var front := w[..|w| - 1];
      var name, e := w[|w| - 1].0, w[|w| - 1].1;
      CanonicalWorldsFront(w);
      WorldsRoundTrip(front);
      var raw := WorldsMap(front);
      WorldsMapSnoc(w);
      WorldsOfSnoc(raw, name, Map(EntryMap(e)));
      EntryRoundTrip(e);
      calc {
        WorldsOf(WorldsMap(w));
        WorldsOf(raw + [(Str(name), Map(EntryMap(e)))]);
        WorldsOf(raw) + [(name, ParseWorldEntry(Map(EntryMap(e))))];
        front + [(name, e)];
        { assert w == front + [w[|w| - 1]]; }
        w;
      }
    }
  }

  /** The four switches read back from buildYamlMap's tree, with null written as the default. */
  lemma ReadBackSwitches(s: Settings)
    ensures var r := SettingsOf(BuildYamlMap(s));
            r.schedulingEnabled == Some(OrElse(s.schedulingEnabled, false)) &&
            r.regenerateOnWipe == Some(OrElse(s.regenerateOnWipe, false)) &&
            r.offlineTrackingEnabled == Some(OrElse(s.offlineTrackingEnabled, true)) &&
            r.offlineTrackingSaveFile == Some(OrElse(s.offlineTrackingSaveFile, true))
  {
    var root := BuildYamlMap(s);
    GetAt(root, "schedulingEnabled", 0);
    GetAt(root, "regenerateOnWipe", 1);
    GetAt(root, "offlineTrackingEnabled", 2);
    GetAt(root, "offlineTrackingSaveFile", 3);
  }

  /** The tracking horizon and mode read back from buildYamlMap's tree, with null written as the
      default. */
  lemma ReadBackTracking(s: Settings)
    requires s.offlineTrackingMaxDays.Some? ==> IntMin <= s.offlineTrackingMaxDays.value <= IntMax
    ensures var r := SettingsOf(BuildYamlMap(s));
            r.offlineTrackingMaxDays == Some(OrElse(s.offlineTrackingMaxDays, 90)) &&
            r.offlineTrackingMode == Some(OrElse(s.offlineTrackingMode, "ALL"))
  {
    var root := BuildYamlMap(s);
    GetAt(root, "offlineTrackingMaxDays", 4);
    GetAt(root, "offlineTrackingMode", 5);
    assert Show(Str(OrElse(s.offlineTrackingMode, "ALL"))) == OrElse(s.offlineTrackingMode, "ALL");
  }

  /** The protected list reads back from buildYamlMap's tree; no list reads back as ["default"]. */
  lemma ReadBackProtected(s: Settings)
    requires Writable(s)
    ensures var r := SettingsOf(BuildYamlMap(s));
            r.protectedWorlds == (if s.protectedWorlds.None? || |s.protectedWorlds.value| == 0 then Some(["default"]) else s.protectedWorlds)
  {
    var root := BuildYamlMap(s);
    GetAt(root, "protectedWorld", 6);
    assert !ContainsKey(root, "protectedWorlds");
    ProtectedRoundTrip(s.protectedWorlds);
  }

  /** The worlds read back from buildYamlMap's tree; no worlds read back as none. */
  lemma ReadBackWorlds(s: Settings)
    requires Writable(s)
    ensures SettingsOf(BuildYamlMap(s)).worlds == Some(OrElse(s.worlds, []))
  {
    var root := BuildYamlMap(s);
    GetAt(root, "worlds", 7);
    if s.worlds.Some? {
      WorldsRoundTrip(s.worlds.value);
    }
  }

  /** Writing a configuration out and reading it back gives what ensureDefaults makes of it. */
  lemma YamlRoundTrip(s: Settings)
    requires Writable(s)
    ensures Defaulted(SettingsOf(BuildYamlMap(s))) == Defaulted(s)
  {
    ReadBackSwitches(s);
    ReadBackTracking(s);
    ReadBackProtected(s);
    ReadBackWorlds(s);
  }

  /** The configuration object; its fields are replaced in place by ensureDefaults. */
  class WorldWipeConfig {
    var protectedWorlds: Option<seq<string>>
    var schedulingEnabled: Option<bool>
    var regenerateOnWipe: Option<bool>
    var offlineTrackingEnabled: Option<bool>
    var offlineTrackingSaveFile: Option<bool>
    var offlineTrackingMaxDays: Option<int>
    var offlineTrackingMode: Option<string>
    var worlds: Option<Worlds>

    /** The fields as one value. */
    function Snapshot(): Settings
      reads this
    {
      Settings(protectedWorlds, schedulingEnabled, regenerateOnWipe, offlineTrackingEnabled,
               offlineTrackingSaveFile, offlineTrackingMaxDays, offlineTrackingMode, worlds)
    }

    /** new WorldWipeConfig(): every field null. */
    constructor ()
      ensures Snapshot() == EmptySettings
    {
      protectedWorlds := None;
      schedulingEnabled := None;
      regenerateOnWipe := None;
      offlineTrackingEnabled := None;
      offlineTrackingSaveFile := None;
      offlineTrackingMaxDays := None;
      offlineTrackingMode := None;
      worlds := None;
    }

    /** ensureDefaults: fills each null (or empty, or blank) field with its default. */
    method EnsureDefaults()
      modifies this
      ensures Snapshot() == Defaulted(old(Snapshot()))
    {
      EnsureSwitchDefaults();
      EnsureTrackingDefaults();
    }

    /** The first half of ensureDefaults: the protected list and the three switches. */
    method EnsureSwitchDefaults()
      modifies this
      ensures var d := Defaulted(old(Snapshot()));
              Snapshot() == old(Snapshot()).(protectedWorlds := d.protectedWorlds, schedulingEnabled := d.schedulingEnabled,
                                              regenerateOnWipe := d.regenerateOnWipe,
                                              offlineTrackingEnabled := d.offlineTrackingEnabled)
    {
      if protectedWorlds.None? || |protectedWorlds.value| == 0 {
        protectedWorlds := Some(["default"]);
      }
      if schedulingEnabled.None? {
        schedulingEnabled := Some(false);
      }
      if regenerateOnWipe.None? {
        regenerateOnWipe := Some(false);
      }
      if offlineTrackingEnabled.None? {
        offlineTrackingEnabled := Some(true);
      }
    }

    /** The second half of ensureDefaults: the tracking settings and the worlds. */
    method EnsureTrackingDefaults()
      modifies this
      ensures var d := Defaulted(old(Snapshot()));
              Snapshot() == old(Snapshot()).(offlineTrackingSaveFile := d.offlineTrackingSaveFile,
                                              offlineTrackingMaxDays := d.offlineTrackingMaxDays,
                                              offlineTrackingMode := d.offlineTrackingMode, worlds := d.worlds)
    {
      if offlineTrackingSaveFile.None? {
        offlineTrackingSaveFile := Some(true);
      }
      if offlineTrackingMaxDays.None? {
        offlineTrackingMaxDays := Some(90);
      }
      if offlineTrackingMode.None? || IsBlank(offlineTrackingMode.value) {
        offlineTrackingMode := Some("ALL");
      }
      if worlds.None? {
        worlds := Some([]);
      }
    }

    /** resolve */
    function ResolveConfig(): (e: EffectiveConfig)
      reads this
      ensures e == Resolve(Snapshot())
    {
      Resolve(Snapshot())
    }
  }

  /** fromMap: a new configuration filled from the root map, then defaulted. */
  method FromMap(root: seq<(Value, Value)>) returns (config: WorldWipeConfig)
    ensures fresh(config)
    ensures config.Snapshot() == Defaulted(SettingsOf(root))
  {
    config := new WorldWipeConfig();
    var protectedValue := if ContainsKey(root, "protectedWorlds") then Get(root, "protectedWorlds")
                          else Get(root, "protectedWorld");
    config.protectedWorlds := ParseStringList(protectedValue);
    config.schedulingEnabled := ParseBoolean(Get(root, "schedulingEnabled"), Get(root, "enabled"));
    config.regenerateOnWipe := ParseBoolean(Get(root, "regenerateOnWipe"), Null);
    config.offlineTrackingEnabled := ParseBoolean(Get(root, "offlineTrackingEnabled"), Null);
    config.offlineTrackingSaveFile := ParseBoolean(Get(root, "offlineTrackingSaveFile"), Null);
    config.offlineTrackingMaxDays := ParseIntValue(Get(root, "offlineTrackingMaxDays"));
    var trackingMode := Get(root, "offlineTrackingMode");
    if !trackingMode.Null? {
      config.offlineTrackingMode := Some(Show(trackingMode));
    }
    var worldsValue := Get(root, "worlds");
    if worldsValue.Map? {
      var worldEntries := ParseWorlds(worldsValue.entries);
      config.worlds := Some(worldEntries);
    }
    assert config.Snapshot() == SettingsOf(root);
    config.EnsureDefaults();
  }
}
