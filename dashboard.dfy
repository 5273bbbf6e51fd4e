/**
 * The static helpers of WorldWipeDashboardUI: the dropdown option lists, the clean-up of text
 * typed into the dashboard, and the lenient parsers that read a mode, a day or a date out of
 * it (by option index, by name, or by a name or number found inside the text).
 */
module Dashboard {
  import opened JavaText
  import opened Occurrence

  // ---------------------------------------------------------------------------
  // The option lists
  // ---------------------------------------------------------------------------

  /** MODE_OPTIONS, in the order the mode parser tries them. */
  const ModeOptions: seq<string> := ["WEEKLY", "DAILY", "MONTHLY"]

  /** DAY_OPTIONS: the day names, Monday first. */
  const DayOptions: seq<string> := ["MONDAY", "TUESDAY", "WEDNESDAY", "THURSDAY", "FRIDAY", "SATURDAY", "SUNDAY"]

  /** String.format("%02d", n) for 0 <= n < 100. */
  function TwoDigits(n: int): (r: string)
    requires 0 <= n < 100
    ensures |r| == 2 && AllDigits(r)
  {
    [DigitChar(n / 10), DigitChar(n % 10)]
  }

  lemma TwoDigitsInjective(a: int, b: int)
    requires 0 <= a < 100 && 0 <= b < 100 && TwoDigits(a) == TwoDigits(b)
    ensures a == b
  {
    assert TwoDigits(a)[0] == TwoDigits(b)[0] && TwoDigits(a)[1] == TwoDigits(b)[1];
  }

  /** The time options: every half hour of the day, "00:00" first. */
  function TimeOptions(): (r: seq<string>)
    ensures |r| == 48
  {
    seq(48, i requires 0 <= i < 48 => TwoDigits(i / 2) + (if i % 2 == 0 then ":00" else ":30"))
  }

  /** The date options: "1" to "31". */
  function DateOptions(): (r: seq<string>)
    ensures |r| == 31
  {
    seq(31, i requires 0 <= i < 31 => IntToString(i + 1))
  }

  /** buildTimeOptions: the two half hours of each hour in turn. */
  method BuildTimeOptions() returns (options: seq<string>)
    ensures options == TimeOptions()
  {
    options := [];
    for hour := 0 to 24
      invariant |options| == 2 * hour
      invariant forall i :: 0 <= i < |options| ==> options[i] == TimeOptions()[i]
    {
      options := options + [TwoDigits(hour) + ":00"];
      options := options + [TwoDigits(hour) + ":30"];
    }
  }

  /** buildDateOptions */
  method BuildDateOptions() returns (options: seq<string>)
    ensures options == DateOptions()
  {
    options := [];
    for i := 1 to 32
      invariant |options| == i - 1
      invariant forall k :: 0 <= k < |options| ==> options[k] == DateOptions()[k]
    {
      options := options + [IntToString(i)];
    }
  }

  /** No two time options are the same text, and each reads as its hour and half hour. */
  lemma TimeOptionsDistinct(i: int, j: int)
    requires 0 <= i < 48 && 0 <= j < 48 && i != j
    ensures TimeOptions()[i] != TimeOptions()[j]
  {
    var a, b := TimeOptions()[i], TimeOptions()[j];
    if a == b {
      assert a[..2] == TwoDigits(i / 2) && b[..2] == TwoDigits(j / 2);
      TwoDigitsInjective(i / 2, j / 2);
    }
  }

  /** No two date options are the same text. */
  lemma DateOptionsDistinct(i: int, j: int)
    requires 0 <= i < 31 && 0 <= j < 31 && i != j
    ensures DateOptions()[i] != DateOptions()[j]
  {
    ParseIntToString(i + 1);
    ParseIntToString(j + 1);
  }

  // ---------------------------------------------------------------------------
  // Cleaning up input
  // ---------------------------------------------------------------------------

  /** sanitize: the trimmed text, or None for a missing or blank one. */
  function Sanitize(value: Option<string>): (r: Option<string>)
    ensures r.Some? ==> value.Some? && r.value == Trim(value.value) && !IsBlank(r.value)
    ensures r.None? <==> value.None? || IsBlank(Trim(value.value))
  {
    if value.None? then None
    else
      var trimmed := Trim(value.value);
      if IsBlank(trimmed) then None else Some(trimmed)
  }

  /** Sanitizing twice is sanitizing once. */
  lemma SanitizeIdempotent(value: Option<string>)
    ensures Sanitize(Sanitize(value)) == Sanitize(value)
  {
    if value.Some? {
      TrimIdempotent(value.value);
    }
  }

  /** parseBooleanInput: "true" or "1" is true and "false" or "0" is false, trimmed and in any
      case; anything else, blank included, is None. */
  function ParseBooleanInput(input: Option<string>): (r: Option<bool>)
    ensures r == Some(true) <==> input.Some? && !IsBlank(input.value) && Lower(Trim(input.value)) in {"true", "1"}
    ensures r == Some(false) <==> input.Some? && !IsBlank(input.value) && Lower(Trim(input.value)) in {"false", "0"}
  {
    if input.None? || IsBlank(input.value) then None
    else
      var normalized := Lower(Trim(input.value));
      if normalized == "true" || normalized == "1" then Some(true)
      else if normalized == "false" || normalized == "0" then Some(false)
      else None
  }

  /** resolveOptionFromIndex: the trimmed text as an index into the options, counted from 0;
      one past the end is read as counting from 1 and picks the last option. Anything else is
      None. */
  function ResolveOptionFromIndex(input: Option<string>, options: seq<string>): (r: Option<string>)
    ensures input.None? || |options| == 0 ==> r.None?
    ensures r.Some? ==> input.Some? && ParseInt(Trim(input.value)).Some?
    ensures input.Some? && !IsBlank(Trim(input.value)) && ParseInt(Trim(input.value)).Some? ==>
              var index := ParseInt(Trim(input.value)).value;
              (0 <= index < |options| ==> r == Some(options[index])) &&
              (index == |options| > 0 ==> r == Some(options[|options| - 1])) &&
              (index < 0 || index > |options| ==> r.None?)
  {
    if input.None? || |options| == 0 then None
    else
      var trimmed := Trim(input.value);
      if IsBlank(trimmed) then None
      else match ParseInt(trimmed)
        case None => None
        case Some(index) =>
          if 0 <= index < |options| then Some(options[index])
          else if 1 <= index <= |options| then Some(options[index - 1])
          else None
  }

  /** The first option equal to the text up to case, if any. */
  function FirstMatch(options: seq<string>, text: string): (r: Option<string>)
    ensures r.Some? ==> r.value in options && EqualsIgnoreCase(r.value, text)
    ensures r.None? ==> forall i :: 0 <= i < |options| ==> !EqualsIgnoreCase(options[i], text)
  {
    if |options| == 0 then None
    else if EqualsIgnoreCase(options[0], text) then Some(options[0])
    else FirstMatch(options[1..], text)
  }

  /** normalizeDropdownValue: the fallback when there are no options or the text is blank; the
      option's own spelling when one matches the trimmed text up to case; otherwise the trimmed
      text. */
  function NormalizeDropdownValue(value: Option<string>, options: seq<string>, fallback: string): (r: string)
    ensures |options| == 0 || value.None? || IsBlank(Trim(value.value)) ==> r == fallback
    ensures |options| > 0 && value.Some? && !IsBlank(Trim(value.value)) ==>
              (r in options && EqualsIgnoreCase(r, Trim(value.value))) ||
              (r == Trim(value.value) && forall i :: 0 <= i < |options| ==> !EqualsIgnoreCase(options[i], r))
  {
    if |options| == 0 || value.None? then fallback
    else
      var trimmed := Trim(value.value);
      if IsBlank(trimmed) then fallback
      else match FirstMatch(options, trimmed)
        case Some(option) => option
        case None => trimmed
  }

  /** Whether the list holds the text up to case. */
  predicate HasIgnoringCase(options: seq<string>, text: string)
  {
    exists i :: 0 <= i < |options| && EqualsIgnoreCase(options[i], text)
  }

  /** mergeOption: the list with the trimmed text put first, unless the text is blank or the
      list already holds it up to case; a missing list gives the empty list. */
  function MergeOption(base: Option<seq<string>>, value: Option<string>): (r: seq<string>)
    ensures base.None? ==> r == []
    ensures base.Some? && (value.None? || IsBlank(Trim(value.value)) || HasIgnoringCase(base.value, Trim(value.value)))
            ==> r == base.value
    ensures base.Some? && value.Some? && !IsBlank(Trim(value.value)) && !HasIgnoringCase(base.value, Trim(value.value))
            ==> r == [Trim(value.value)] + base.value && |r| == |base.value| + 1
  {
    if base.None? then []
    else if value.None? then base.value
    else
      var trimmed := Trim(value.value);
      if IsBlank(trimmed) then base.value
      else if FirstMatch(base.value, trimmed).Some? then base.value
      else [trimmed] + base.value
  }

  /** Merging the same text twice is merging it once: after the first merge the list holds it. */
  lemma MergeOptionIdempotent(base: seq<string>, value: Option<string>)
    ensures MergeOption(Some(MergeOption(Some(base), value)), value) == MergeOption(Some(base), value)
  {
    if value.Some? {
      var trimmed := Trim(value.value);
      var once := MergeOption(Some(base), value);
      if !IsBlank(trimmed) && !HasIgnoringCase(base, trimmed) {
        assert once[0] == trimmed && EqualsIgnoreCase(once[0], trimmed);
        assert HasIgnoringCase(once, trimmed);
      }
    }
  }

  // ---------------------------------------------------------------------------
  // The lenient parsers
  // ---------------------------------------------------------------------------

  /** The place of the first ASCII digit, or the length when there is none. */
  function FirstDigit(s: string): (i: nat)
    ensures i <= |s| && (i < |s| ==> IsDigit(s[i]))
    ensures forall j :: 0 <= j < i ==> !IsDigit(s[j])
  {
    if |s| == 0 then 0
    else if IsDigit(s[0]) then 0
    else 1 + FirstDigit(s[1..])
  }

  /** The first match of the pattern (\d{1,2}): the first digit, with the next character when
      that is a digit too. */
  function FirstDigitRun(s: string): (r: Option<string>)
    ensures r.None? <==> forall j :: 0 <= j < |s| ==> !IsDigit(s[j])
    ensures r.Some? ==> var i := FirstDigit(s);
              1 <= |r.value| <= 2 && i + |r.value| <= |s| && r.value == s[i..i + |r.value|] &&
              AllDigits(r.value) && (|r.value| == 1 ==> i + 1 == |s| || !IsDigit(s[i + 1]))
  {
    var i := FirstDigit(s);
    if i == |s| then None
    else if i + 1 < |s| && IsDigit(s[i + 1]) then Some(s[i..i + 2])
    else Some(s[i..i + 1])
  }

  /** parseDayOfMonth: the trimmed text as a whole integer, kept when it is a date; when the
      text is not an integer, the first run of one or two digits in it, kept when it is a date. */
  function ParseDayOfMonth(input: Option<string>): (r: Option<int>)
    ensures r.Some? ==> 1 <= r.value <= 31
    ensures input.Some? && !IsBlank(input.value) && ParseInt(Trim(input.value)).Some? ==>
              var v := ParseInt(Trim(input.value)).value;
              r == if 1 <= v <= 31 then Some(v) else None
    ensures input.Some? && !IsBlank(input.value) && ParseInt(Trim(input.value)).None? ==>
              match FirstDigitRun(Trim(input.value))
              case None => r.None?
              case Some(run) => r == if 1 <= DigitsValue(run) <= 31 then Some(DigitsValue(run)) else None
  {
    if input.None? || IsBlank(input.value) then None
    else
      var trimmed := Trim(input.value);
      match ParseInt(trimmed)
      case Some(value) => if 1 <= value <= 31 then Some(value) else None
      case None =>
        match FirstDigitRun(trimmed)
        case None => None
        case Some(run) =>
          var value := DigitsValue(run);
          if 1 <= value <= 31 then Some(value) else None
  }

  /** Every date reads back from its option text. */
  lemma ParseDayOfMonthOfOption(k: int)
    requires 1 <= k <= 31
    ensures ParseDayOfMonth(Some(IntToString(k))) == Some(k)
  {
    var text := IntToString(k);
    assert !IsWhitespace(text[0]);
    assert TrimmedForm(text);
    TrimOfTrimmedForm(text);
    ParseIntToString(k);
  }

  /** Whether the upper-cased text picks a mode option: it is the option up to case, or it
      contains it. */
  predicate ModeMatches(option: string, normalized: string)
  {
    EqualsIgnoreCase(option, normalized) || Contains(normalized, option)
  }

  /** The first mode option the text picks. */
  function FirstModeIn(options: seq<string>, normalized: string): (r: Option<string>)
    ensures r.Some? ==> r.value in options && ModeMatches(r.value, normalized)
    ensures r.None? ==> forall i :: 0 <= i < |options| ==> !ModeMatches(options[i], normalized)
  {
    if |options| == 0 then None
    else if ModeMatches(options[0], normalized) then Some(options[0])
    else FirstModeIn(options[1..], normalized)
  }

  /** parseMode: WEEKLY for blank text; otherwise the first of WEEKLY, DAILY and MONTHLY that the
      trimmed, upper-cased text is or contains; otherwise the mode named exactly, or None. */
  function ParseMode(input: Option<string>): (r: Option<ScheduleMode>)
    ensures input.None? || IsBlank(input.value) ==> r == Some(Weekly)
    ensures r.Some? && input.Some? && !IsBlank(input.value) ==> ModeMatches(ModeName(r.value), Upper(Trim(input.value)))
  {
    if input.None? || IsBlank(input.value) then Some(Weekly)
    else
      var normalized := Upper(Trim(input.value));
      match FirstModeIn(ModeOptions, normalized)
      case Some(option) => ModeNamed(option)
      case None =>
        ContainsSelf(normalized);
        ModeNamed(normalized)
  }

  /** The order of the options decides: WEEKLY when the text picks it, DAILY when it picks DAILY
      but not WEEKLY, MONTHLY when it picks only MONTHLY, and None when it picks none. */
  lemma ParseModeFirstMatch(input: string)
    requires !IsBlank(input)
    ensures var n, r := Upper(Trim(input)), ParseMode(Some(input));
            (r == Some(Weekly) <==> ModeMatches("WEEKLY", n)) &&
            (r == Some(Daily) <==> !ModeMatches("WEEKLY", n) && ModeMatches("DAILY", n)) &&
            (r == Some(Monthly) <==> !ModeMatches("WEEKLY", n) && !ModeMatches("DAILY", n) && ModeMatches("MONTHLY", n)) &&
            (r.None? <==> !ModeMatches("WEEKLY", n) && !ModeMatches("DAILY", n) && !ModeMatches("MONTHLY", n))
  {
    var n := Upper(Trim(input));
    assert ModeOptions[1..] == ["DAILY", "MONTHLY"];
    assert ModeOptions[1..][1..] == ["MONTHLY"];
    assert ModeOptions[1..][1..][1..] == [];
    if ModeMatches("WEEKLY", n) {
      assert FirstModeIn(ModeOptions, n) == Some("WEEKLY");
    } else if ModeMatches("DAILY", n) {
      assert FirstModeIn(ModeOptions, n) == Some("DAILY");
    } else if ModeMatches("MONTHLY", n) {
      assert FirstModeIn(ModeOptions[1..], n) == FirstModeIn(ModeOptions[1..][1..], n) == Some("MONTHLY");
    } else {
      assert FirstModeIn(ModeOptions, n) == None;
      ContainsSelf(n);
      assert ModeNamed(n) == None;
    }
  }

  /** The days in the order the day parser tries their names. */
  const Week: seq<Weekday> := [Monday, Tuesday, Wednesday, Thursday, Friday, Saturday, Sunday]

  /** The first day whose name the text contains. */
  function FirstDayIn(days: seq<Weekday>, normalized: string): (r: Option<Weekday>)
    ensures r.Some? ==> exists k :: 0 <= k < |days| && days[k] == r.value &&
                          Contains(normalized, WeekdayName(days[k])) &&
                          forall j :: 0 <= j < k ==> !Contains(normalized, WeekdayName(days[j]))
    ensures r.None? ==> forall k :: 0 <= k < |days| ==> !Contains(normalized, WeekdayName(days[k]))
  {
    if |days| == 0 then None
    else if Contains(normalized, WeekdayName(days[0])) then
      assert days[0] == days[0];
      Some(days[0])
    else
      var r := FirstDayIn(days[1..], normalized);
      assert r.Some? ==> exists k :: 0 <= k < |days[1..]| && days[1..][k] == r.value &&
                          Contains(normalized, WeekdayName(days[1..][k])) &&
                          forall j :: 0 <= j < k ==> !Contains(normalized, WeekdayName(days[1..][j]));
      if r.Some? then
        var k :| 0 <= k < |days[1..]| && days[1..][k] == r.value &&
                 Contains(normalized, WeekdayName(days[1..][k])) &&
                 forall j :: 0 <= j < k ==> !Contains(normalized, WeekdayName(days[1..][j]));
        assert days[k + 1] == r.value && forall j :: 0 <= j < k + 1 ==> !Contains(normalized, WeekdayName(days[j]));
        r
      else r
  }

  /** parseDay: an option index first, then the first day name contained in the trimmed,
      upper-cased text, then the exact name; None for blank text or no match. */
  function ParseDay(input: Option<string>): (r: Option<Weekday>)
    ensures input.None? || IsBlank(input.value) ==> r.None?
  {
    if input.None? || IsBlank(input.value) then None
    else match ResolveOptionFromIndex(input, DayOptions)
      case Some(name) => WeekdayNamed(name)
      case None =>
        var normalized := Upper(Trim(input.value));
        match FirstDayIn(Week, normalized)
        case Some(day) => Some(day)
        case None => WeekdayNamed(normalized)
  }

  /** Text that is not an option index gives the first day, Monday first, whose name it
      contains once trimmed and upper-cased, and None when it contains none. */
  lemma ParseDayFirstNamed(input: string)
    requires !IsBlank(input) && ResolveOptionFromIndex(Some(input), DayOptions).None?
    ensures var n, r := Upper(Trim(input)), ParseDay(Some(input));
            (r.Some? ==> Contains(n, WeekdayName(r.value)) &&
                         forall e :: WeekdayValue(e) < WeekdayValue(r.value) ==> !Contains(n, WeekdayName(e))) &&
            (r.None? <==> forall d :: !Contains(n, WeekdayName(d)))
  {
    var n := Upper(Trim(input));
    match FirstDayIn(Week, n)
    case Some(day) =>
      assert ParseDay(Some(input)) == Some(day);
      var k :| 0 <= k < |Week| && Week[k] == day && Contains(n, WeekdayName(Week[k])) &&
               forall j :: 0 <= j < k ==> !Contains(n, WeekdayName(Week[j]));
      forall e | WeekdayValue(e) < WeekdayValue(day)
        ensures !Contains(n, WeekdayName(e))
      {
        WeekPlace(e);
        WeekPlace(day);
      }
    case None =>
      forall d
        ensures !Contains(n, WeekdayName(d))
      {
        WeekPlace(d);
      }
      ContainsSelf(n);
      assert ParseDay(Some(input)) == WeekdayNamed(n) == None;
  }

  /** Each day sits in the week at its value less one. */
  lemma WeekPlace(d: Weekday)
    ensures 1 <= WeekdayValue(d) <= 7 && Week[WeekdayValue(d) - 1] == d
  {
  }

  /** An index reads as the day at that place counted from 0, so "0" is MONDAY, and "7", one
      past the end, is SUNDAY. */
  lemma ParseDayByIndex(k: int)
    requires 0 <= k <= 7
    ensures ParseDay(Some(IntToString(k))) == Some(if k == 7 then Sunday else DayAt(k))
  {
    var text := IntToString(k);
    assert !IsWhitespace(text[0]);
    assert TrimmedForm(text);
    TrimOfTrimmedForm(text);
    ParseIntToString(k);
  }

  /** The day at a place of DAY_OPTIONS. */
  function DayAt(k: int): (d: Weekday)
    requires 0 <= k < 7
    ensures WeekdayNamed(DayOptions[k]) == Some(d)
  {
    WeekdayOf(k + 1)
  }
}
