/**
 * The behaviour in the Studio's `project` document schema: the cross-field
 * validator of `endYear` and the preview formatter that shows a project in
 * document lists.
 */
module ProjectSchema {
  import opened Wrappers
  import opened Js

  // ---------------------------------------------------------------------------
  // The endYear validator
  // ---------------------------------------------------------------------------

  /** The fields of the edited document the validator reads. */
  datatype ProjectFields = ProjectFields(startYear: Option<int>, isOngoing: Option<bool>)

  /** A custom validator returns `true` or the message to show. */
  datatype Validation = Valid | Invalid(message: string)

  const EndBeforeStartMessage: string := "End year must be equal to or after start year"

  /** The schema's lower bound on both years. */
  const MinYear: int := 1900

  /**
   * The custom rule on `endYear`: an ongoing project is always valid; otherwise an end
   * year before the start year is rejected, but only when both years are set and non-zero.
   */
  function ValidateEndYear(endYear: Option<int>, document: Option<ProjectFields>): (r: Validation)
    ensures r.Invalid? ==> r.message == EndBeforeStartMessage
    ensures document.Some? && TruthyBool(document.value.isOngoing) ==> r == Valid
    ensures r.Invalid? <==> (document.Some? && !TruthyBool(document.value.isOngoing)
      && TruthyNumber(endYear) && TruthyNumber(document.value.startYear)
      && endYear.value < document.value.startYear.value)
  {
    var startYear := if document.Some? then document.value.startYear else None;
    var isOngoing := if document.Some? then document.value.isOngoing else None;
    if TruthyBool(isOngoing) then Valid
    else if TruthyNumber(endYear) && TruthyNumber(startYear) && endYear.value < startYear.value then
      Invalid(EndBeforeStartMessage)
    else Valid
  }

  /** Without a start year, or without an end year, there is nothing to compare. */
  lemma MissingYearIsValid(endYear: Option<int>, document: Option<ProjectFields>)
    requires endYear.None? || document.None? || document.value.startYear.None?
    ensures ValidateEndYear(endYear, document) == Valid
  {
  }

  /**
   * For years the schema's `min(1900)` rule admits, the truthiness checks never matter:
   * a project that is not ongoing is rejected exactly when it ends before it starts.
   */
  lemma InRangeYearsAreOrdered(startYear: int, endYear: int, isOngoing: Option<bool>)
    requires startYear >= MinYear && endYear >= MinYear
    requires !TruthyBool(isOngoing)
    ensures ValidateEndYear(Some(endYear), Some(ProjectFields(Some(startYear), isOngoing))).Invalid?
      <==> endYear < startYear
  {
  }

  /** A zero start year is falsy, so even an earlier end year passes. */
  lemma ZeroStartYearIsNotCompared()
    ensures ValidateEndYear(Some(-5), Some(ProjectFields(Some(0), Some(false)))) == Valid
  {
  }

  // ---------------------------------------------------------------------------
  // The list preview
  // ---------------------------------------------------------------------------

  /** `preview.select`: the fields `prepare` receives, each possibly missing. */
  datatype PreviewSelection<M> = PreviewSelection(
    title: Option<string>,
    startYear: Option<int>,
    endYear: Option<int>,
    isOngoing: Option<bool>,
    media: Option<M>,
    creator0: Option<string>,
    creatorLast0: Option<string>)

  datatype Preview<M> = Preview(title: Option<string>, subtitle: string, media: Option<M>)

  /** The years a preview shows, as the formatter distinguishes them. */
  datatype YearsShown = OngoingFrom(since: Option<int>) | Between(start: int, end: int) | From(first: int) | NoDates

  /** What of the dates a preview means to show: the start of an ongoing project, both years, the start, or nothing. */
  function ShownYears(startYear: Option<int>, endYear: Option<int>, isOngoing: Option<bool>): YearsShown {
    if TruthyBool(isOngoing) then OngoingFrom(if TruthyNumber(startYear) then startYear else None)
    else if TruthyNumber(startYear) && TruthyNumber(endYear) then Between(startYear.value, endYear.value)
    else if TruthyNumber(startYear) then From(startYear.value)
    else NoDates
  }

  /** The text of the year range. */
  function YearRange(startYear: Option<int>, endYear: Option<int>, isOngoing: Option<bool>): (r: string)
    ensures '•' !in r
    ensures ShownYears(startYear, endYear, isOngoing) == NoDates ==> r == "No dates"
  {
    var startText := if TruthyNumber(startYear) then IntToString(startYear.value) else "?";
    if TruthyBool(isOngoing) then startText + " - Ongoing"
    else if TruthyNumber(startYear) && TruthyNumber(endYear) then IntToString(startYear.value) + " - " + IntToString(endYear.value)
    else if TruthyNumber(startYear) then IntToString(startYear.value)
    else "No dates"
  }

  /** The first creator's name: both parts separated by a space, or the part that is set, or nothing. */
  function CreatorName(creator0: Option<string>, creatorLast0: Option<string>): (r: string)
    ensures r == "" <==> !TruthyString(creator0) && !TruthyString(creatorLast0)
    ensures TruthyString(creator0) && !TruthyString(creatorLast0) ==> r == creator0.value
    ensures !TruthyString(creator0) && TruthyString(creatorLast0) ==> r == creatorLast0.value
    ensures TruthyString(creator0) && TruthyString(creatorLast0) ==> r == creator0.value + " " + creatorLast0.value
  {
    if TruthyString(creator0) && TruthyString(creatorLast0) then creator0.value + " " + creatorLast0.value
    else if TruthyString(creator0) then creator0.value
    else if TruthyString(creatorLast0) then creatorLast0.value
    else ""
  }

  /** `preview.prepare`: the title and media unchanged, and the year range followed by the creator when there is one. */
  function Prepare<M>(selection: PreviewSelection<M>): (r: Preview<M>)
    ensures r.title == selection.title && r.media == selection.media
    ensures CreatorName(selection.creator0, selection.creatorLast0) == "" ==>
      r.subtitle == YearRange(selection.startYear, selection.endYear, selection.isOngoing)
    ensures CreatorName(selection.creator0, selection.creatorLast0) != "" ==>
      r.subtitle == YearRange(selection.startYear, selection.endYear, selection.isOngoing)
        + " • " + CreatorName(selection.creator0, selection.creatorLast0)
  {
    var yearRange := YearRange(selection.startYear, selection.endYear, selection.isOngoing);
    var creatorName := CreatorName(selection.creator0, selection.creatorLast0);
    Preview(selection.title, if creatorName != "" then yearRange + " • " + creatorName else yearRange, selection.media)
  }

  // ---------------------------------------------------------------------------
  // Reading a preview back
  // ---------------------------------------------------------------------------

  /** `s` is the decimal rendering of an integer, as IntToString produces it. */
  predicate IsIntText(s: string) {
    |s| >= 1
    && (forall i :: 0 <= i < |s| ==> IsDigit(s[i]) || s[i] == '-')
    && (forall i :: 0 < i < |s| ==> IsDigit(s[i]))
  }

  /** Reads a year-range text back into the years it shows, if it is one. */
  function ReadYearRange(text: string): Option<YearsShown> {
    ReadYearParts(Split(text, ' '))
  }

  /** Reads the space-separated words of a year-range text. */
  function ReadYearParts(parts: seq<string>): Option<YearsShown> {
    if parts == ["No", "dates"] then Some(NoDates)
    else if |parts| == 3 && parts[1] == "-" && parts[2] == "Ongoing" then
      if parts[0] == "?" then Some(OngoingFrom(None))
      else if IsIntText(parts[0]) then Some(OngoingFrom(Some(ParseInt(parts[0]))))
      else None
    else if |parts| == 3 && parts[1] == "-" && IsIntText(parts[0]) && IsIntText(parts[2]) then
      Some(Between(ParseInt(parts[0]), ParseInt(parts[2])))
    else if |parts| == 1 && IsIntText(parts[0]) then Some(From(ParseInt(parts[0])))
    else None
  }

  /** The year range of `subtitle`: everything before the first ` • `. */
  function YearRangeOfSubtitle(subtitle: string): string {
    var head := Split(subtitle, '•')[0];
    if |head| > 0 && head[|head| - 1] == ' ' then head[..|head| - 1] else head
  }

  /** The creator of `subtitle`: everything after the first ` • `, or nothing when there is none. */
  function CreatorOfSubtitle(subtitle: string): string {
    var parts := Split(subtitle, '•');
    if |parts| < 2 then ""
    else
      var tail := Join(parts[1..], '•');
      if |tail| > 0 && tail[0] == ' ' then tail[1..] else tail
  }

  lemma IntTextHasNoSpace(n: int)
    ensures IsIntText(IntToString(n)) && ' ' !in IntToString(n)
  {
  }

  lemma Join3(a: string, b: string, c: string, sep: char)
    ensures Join([a, b, c], sep) == a + [sep] + b + [sep] + c
  {
    assert [a, b, c][1..] == [b, c] && [b, c][1..] == [c];
    assert Join([c], sep) == c;
    assert Join([b, c], sep) == b + [sep] + c;
  }

  /** `<a> - <b>` splits at its two spaces. */
  lemma SplitDashed(a: string, b: string)
    requires ' ' !in a && ' ' !in b
    ensures Split(a + " - " + b, ' ') == [a, "-", b]
  {
    Join3(a, "-", b, ' ');
    assert a + " - " + b == a + [' '] + "-" + [' '] + b;
    SplitJoin([a, "-", b], ' ');
  }

  lemma OngoingReadsBack(startYear: Option<int>, endYear: Option<int>)
    ensures ReadYearRange(YearRange(startYear, endYear, Some(true))) == Some(ShownYears(startYear, endYear, Some(true)))
  {
    var startText := if TruthyNumber(startYear) then IntToString(startYear.value) else "?";
    if TruthyNumber(startYear) {
      IntTextHasNoSpace(startYear.value);
      IntToStringRoundTrip(startYear.value);
      assert startText[0] != "?"[0];
    }
    assert ' ' !in startText;
    Join3(startText, "-", "Ongoing", ' ');
    assert startText + " - Ongoing" == startText + [' '] + "-" + [' '] + "Ongoing";
    SplitJoin([startText, "-", "Ongoing"], ' ');
    ReadOngoingYears(startText);
  }

  lemma BothYearsReadBack(startYear: int, endYear: int, isOngoing: Option<bool>)
    requires !TruthyBool(isOngoing) && startYear != 0 && endYear != 0
    ensures ReadYearRange(YearRange(Some(startYear), Some(endYear), isOngoing)) == Some(Between(startYear, endYear))
  {
    var s, e := IntToString(startYear), IntToString(endYear);
    IntTextHasNoSpace(startYear);
    IntTextHasNoSpace(endYear);
    IntToStringRoundTrip(startYear);
    IntToStringRoundTrip(endYear);
    SplitDashed(s, e);
    ReadDashedYears(s, e);
  }

  lemma ReadDashedYears(s: string, e: string)
    requires IsIntText(s) && IsIntText(e)
    ensures ReadYearParts([s, "-", e]) == Some(Between(ParseInt(s), ParseInt(e)))
  {
    assert e[0] != "Ongoing"[0];
  }

  lemma ReadOngoingYears(startText: string)
    requires startText == "?" || IsIntText(startText)
    ensures ReadYearParts([startText, "-", "Ongoing"])
      == Some(OngoingFrom(if startText == "?" then None else Some(ParseInt(startText))))
  {
  }

  lemma StartYearReadsBack(startYear: int, endYear: Option<int>, isOngoing: Option<bool>)
    requires !TruthyBool(isOngoing) && startYear != 0 && !TruthyNumber(endYear)
    ensures ReadYearRange(YearRange(Some(startYear), endYear, isOngoing)) == Some(From(startYear))
  {
    IntTextHasNoSpace(startYear);
    IntToStringRoundTrip(startYear);
    SplitNoSeparator(IntToString(startYear), ' ');
  }

  lemma NoDatesReadsBack()
    ensures ReadYearRange("No dates") == Some(NoDates)
  {
    assert "No dates" == "No" + [' '] + "dates";
    SplitPrefix("No", ' ', "dates");
    SplitNoSeparator("dates", ' ');
  }

  /** The year-range text reads back as the years the formatter meant to show. */
  lemma YearRangeReadsBack(startYear: Option<int>, endYear: Option<int>, isOngoing: Option<bool>)
    ensures ReadYearRange(YearRange(startYear, endYear, isOngoing)) == Some(ShownYears(startYear, endYear, isOngoing))
  {
    if TruthyBool(isOngoing) {
      OngoingReadsBack(startYear, endYear);
    } else if TruthyNumber(startYear) && TruthyNumber(endYear) {
      BothYearsReadBack(startYear.value, endYear.value, isOngoing);
    } else if TruthyNumber(startYear) {
      StartYearReadsBack(startYear.value, endYear, isOngoing);
    } else {
      NoDatesReadsBack();
    }
  }

  /** The subtitle starts with the whole year range, so the preview still shows the years. */
  lemma {:induction false} SubtitleKeepsYearRange<M>(selection: PreviewSelection<M>)
    ensures YearRangeOfSubtitle(Prepare(selection).subtitle)
      == YearRange(selection.startYear, selection.endYear, selection.isOngoing)
  {
    var yearRange := YearRange(selection.startYear, selection.endYear, selection.isOngoing);
    var creatorName := CreatorName(selection.creator0, selection.creatorLast0);
    var subtitle := Prepare(selection).subtitle;
    if creatorName != "" {
      assert '•' !in yearRange + " ";
      assert subtitle == (yearRange + " ") + ['•'] + (" " + creatorName);
      SplitPrefix(yearRange + " ", '•', " " + creatorName);
      assert (yearRange + " ")[..|yearRange|] == yearRange;
    } else {
      SplitNoSeparator(yearRange, '•');
      if |yearRange| > 0 {
        assert yearRange[|yearRange| - 1] != ' ' by { YearRangeEndsWithoutSpace(selection.startYear, selection.endYear, selection.isOngoing); }
      }
    }
  }

  /** The subtitle ends with the whole creator name, or names no creator when there is none. */
  lemma SubtitleKeepsCreator<M>(selection: PreviewSelection<M>)
    ensures CreatorOfSubtitle(Prepare(selection).subtitle) == CreatorName(selection.creator0, selection.creatorLast0)
  {
    var yearRange := YearRange(selection.startYear, selection.endYear, selection.isOngoing);
    var creatorName := CreatorName(selection.creator0, selection.creatorLast0);
    var subtitle := Prepare(selection).subtitle;
    if creatorName != "" {
      assert '•' !in yearRange + " ";
      assert subtitle == (yearRange + " ") + ['•'] + (" " + creatorName);
      SplitPrefix(yearRange + " ", '•', " " + creatorName);
      JoinSplit(" " + creatorName, '•');
      assert Split(subtitle, '•')[1..] == Split(" " + creatorName, '•');
      assert (" " + creatorName)[1..] == creatorName;
    } else {
      SplitNoSeparator(yearRange, '•');
    }
  }

  lemma YearRangeEndsWithoutSpace(startYear: Option<int>, endYear: Option<int>, isOngoing: Option<bool>)
    ensures var r := YearRange(startYear, endYear, isOngoing); |r| > 0 && r[|r| - 1] != ' '
  {
    var r := YearRange(startYear, endYear, isOngoing);
    if !TruthyBool(isOngoing) && TruthyNumber(startYear) {
      var e := if TruthyNumber(endYear) then IntToString(endYear.value) else IntToString(startYear.value);
      IntTextHasNoSpace(if TruthyNumber(endYear) then endYear.value else startYear.value);
      assert r[|r| - 1] == e[|e| - 1];
    }
  }

  /** The years shown in a preview's subtitle read back from it, whatever the creator's name. */
  lemma SubtitleShowsYears<M>(selection: PreviewSelection<M>)
    ensures ReadYearRange(YearRangeOfSubtitle(Prepare(selection).subtitle))
      == Some(ShownYears(selection.startYear, selection.endYear, selection.isOngoing))
  {
    SubtitleKeepsYearRange(selection);
    YearRangeReadsBack(selection.startYear, selection.endYear, selection.isOngoing);
  }
}
