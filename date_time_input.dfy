/**
 * The date, time and weekday steps of the browser search form. The form's
 * elements are the fields of `SearchForm`: two text inputs for the date range,
 * two `<select>` elements for the time range and the row of weekday checkboxes
 * (values "1".."7" for the weekdays and "8" for public holidays). Each step
 * writes the elements, reads their values back and reports success only when
 * the read-back values are the requested ones.
 */
module DateTimeInput {
  import opened Text

  /** The configured default date range. */
  datatype DateConfig = DateConfig(startDate: string, endDate: string)

  /** The parts of a search task the form steps read. */
  datatype TaskConfig = TaskConfig(startTime: string, endTime: string, selectedDays: seq<int>, includeHolidays: bool)

  /** The value of the holiday checkbox. */
  const Holiday: string := "8"

  /** Python's `given or fallback` on an optional string: `None` and "" are falsy. */
  function OrElse(given: Option<string>, fallback: string): (r: string)
    ensures given.Some? && given.value != "" ==> r == given.value
    ensures given.None? || given.value == "" ==> r == fallback
  {
    match given
    case Some(v) => if v != "" then v else fallback
    case None => fallback
  }

  /**
   * The value a `<select>` reports after it is set to `v`: `select_by_value`
   * picks the option with that value; when there is none, the script fallback
   * assigns `value = v`, which leaves a `<select>` with no option chosen and a
   * value of "".
   */
  function SelectValue(options: seq<string>, v: string): (r: string)
    ensures r == v <==> v in options || v == ""
    ensures r == v || r == ""
  {
    if v in options then v else ""
  }

  /**
   * What the first loop of `select_weekdays` does with one checkbox: `Some(true)`
   * clicks it, `Some(false)` leaves it, `None` is `int(value)` raising, which
   * ends the step with failure.
   */
  function Decision(value: Option<string>, days: seq<int>, includeHolidays: bool): Option<bool> {
    match value
    case None => Some(false)
    case Some(v) =>
      if v == "" then Some(false)
      else if v == Holiday then Some(includeHolidays)
      else match ParseInt(v)
        case None => None
        case Some(n) => Some(n in days)
  }

  /** The number of leading checkboxes the first loop gets through before `int(value)` raises. */
  function Decided(values: seq<Option<string>>, days: seq<int>, includeHolidays: bool): (k: nat)
    ensures k <= |values|
    ensures forall i :: 0 <= i < k ==> Decision(values[i], days, includeHolidays).Some?
    ensures k < |values| ==> Decision(values[k], days, includeHolidays).None?
  {
    if values == [] || Decision(values[0], days, includeHolidays).None? then 0
    else 1 + Decided(values[1..], days, includeHolidays)
  }

  /** The checkbox states after the first `k` checkboxes were visited: a click toggles a box. */
  function Toggled(values: seq<Option<string>>, checked: seq<bool>, days: seq<int>, includeHolidays: bool, k: nat): (r: seq<bool>)
    requires |checked| == |values| && k <= |values|
    ensures |r| == |checked|
  {
    seq(|checked|, i requires 0 <= i < |checked| =>
      if i < k && Decision(values[i], days, includeHolidays) == Some(true) then !checked[i] else checked[i])
  }

  /** The `selected_values` list: the values of the checked boxes, in page order. */
  function SelectedValues(values: seq<Option<string>>, checked: seq<bool>): seq<Option<string>>
    requires |checked| == |values|
  {
    if values == [] then []
    else
      var n := |values| - 1;
      SelectedValues(values[..n], checked[..n]) + (if checked[n] then [values[n]] else [])
  }

  /** The final test of `select_weekdays`: each requested day, and "8" with holidays, is among the selected values. */
  predicate AllRequested(selected: seq<Option<string>>, days: seq<int>, includeHolidays: bool) {
    (forall d :: d in days ==> Some(IntToString(d)) in selected)
    && (includeHolidays ==> Some(Holiday) in selected)
  }

  /** The result of `select_weekdays` from the given checkbox states. */
  predicate WeekdaysOutcome(values: seq<Option<string>>, checked: seq<bool>, days: seq<int>, includeHolidays: bool)
    requires |checked| == |values|
  {
    var k := Decided(values, days, includeHolidays);
    values != [] && k == |values|
    && AllRequested(SelectedValues(values, Toggled(values, checked, days, includeHolidays, k)), days, includeHolidays)
  }

  class SearchForm {
    /** The default date range that falsy arguments fall back to. */
    const config: DateConfig
    /** Whether the page has both `HomeModel.DateFrom` and `HomeModel.DateTo` inputs (both are looked up before typing). */
    const hasDateInputs: bool
    /** Whether the page has the `HomeModel_TimeFrom` and the `HomeModel_TimeTo` select (each looked up just before it is set). */
    const hasTimeFrom: bool
    const hasTimeTo: bool
    var dateFrom: string
    var dateTo: string
    const timeFromOptions: seq<string>
    const timeToOptions: seq<string>
    var timeFrom: string
    var timeTo: string
    /** The `value` attributes of the `HomeModel.SelectedWeekDays` checkboxes, `None` when missing. */
    const boxValues: seq<Option<string>>
    var checked: seq<bool>

    ghost predicate Valid()
      reads this
    {
      |checked| == |boxValues|
    }

    constructor(config: DateConfig, hasDateInputs: bool, hasTimeFrom: bool, hasTimeTo: bool,
                timeFromOptions: seq<string>, timeToOptions: seq<string>,
                boxValues: seq<Option<string>>, checked: seq<bool>)
      requires |checked| == |boxValues|
      ensures Valid()
      ensures this.config == config && this.hasDateInputs == hasDateInputs
      ensures this.hasTimeFrom == hasTimeFrom && this.hasTimeTo == hasTimeTo
      ensures this.timeFromOptions == timeFromOptions && this.timeToOptions == timeToOptions
      ensures this.boxValues == boxValues && this.checked == checked
      ensures dateFrom == "" && dateTo == "" && timeFrom == "" && timeTo == ""
    {
      this.config := config;
      this.hasDateInputs := hasDateInputs;
      this.hasTimeFrom := hasTimeFrom;
      this.hasTimeTo := hasTimeTo;
      this.timeFromOptions := timeFromOptions;
      this.timeToOptions := timeToOptions;
      this.boxValues := boxValues;
      this.checked := checked;
      dateFrom, dateTo, timeFrom, timeTo := "", "", "", "";
    }

    /**
     * `input_date_range`: falsy dates fall back to the configured ones; each
     * input is cleared and typed into, and the step succeeds iff both inputs
     * read back the dates typed. Missing inputs make the wait raise: failure,
     * nothing typed.
     */
    method InputDateRange(startDate: Option<string>, endDate: Option<string>) returns (ok: bool)
      modifies this`dateFrom, this`dateTo
      ensures hasDateInputs ==> dateFrom == OrElse(startDate, config.startDate) && dateTo == OrElse(endDate, config.endDate)
      ensures !hasDateInputs ==> dateFrom == old(dateFrom) && dateTo == old(dateTo)
      ensures ok <==> hasDateInputs && dateFrom == OrElse(startDate, config.startDate) && dateTo == OrElse(endDate, config.endDate)
    {
      var start := OrElse(startDate, config.startDate);
      var end := OrElse(endDate, config.endDate);
      if !hasDateInputs {
        return false;
      }
      dateFrom := start;
      dateTo := end;
      ok := dateFrom == start && dateTo == end;
    }

    /**
     * `select_time_range`: the start select is looked up and set, then the end
     * select; a missing select makes its wait raise, so a page with only the
     * start select keeps the start time set and fails. The step succeeds iff
     * both selects exist and read back the requested times, that is, iff each
     * time is one of its select's options (or empty).
     */
    method SelectTimeRange(task: TaskConfig) returns (ok: bool)
      modifies this`timeFrom, this`timeTo
      ensures hasTimeFrom ==> timeFrom == SelectValue(timeFromOptions, task.startTime)
      ensures !hasTimeFrom ==> timeFrom == old(timeFrom)
      ensures hasTimeFrom && hasTimeTo ==> timeTo == SelectValue(timeToOptions, task.endTime)
      ensures !(hasTimeFrom && hasTimeTo) ==> timeTo == old(timeTo)
      ensures ok <==> hasTimeFrom && hasTimeTo && timeFrom == task.startTime && timeTo == task.endTime
    {
      if !hasTimeFrom {
        return false;
      }
      timeFrom := SelectValue(timeFromOptions, task.startTime);
      if !hasTimeTo {
        return false;
      }
      timeTo := SelectValue(timeToOptions, task.endTime);
      ok := timeFrom == task.startTime && timeTo == task.endTime;
    }

    /** `_click_checkbox`: a click toggles the box. */
    method Click(i: nat)
      requires Valid() && i < |boxValues|
      modifies this`checked
      ensures Valid()
      ensures checked == old(checked)[i := !old(checked)[i]]
    {
      checked := checked[i := !checked[i]];
    }

    /**
     * `select_weekdays`: with no checkboxes, failure. Otherwise each box is
     * visited once and clicked according to `Decision`; a value `int` cannot
     * parse ends the step with failure after the boxes before it. Then the
     * checked boxes' values are collected and the step succeeds iff every
     * requested day, and "8" when holidays are included, is among them.
     */
    method SelectWeekdays(task: TaskConfig) returns (ok: bool)
      requires Valid()
      modifies this`checked
      ensures Valid()
      ensures checked == Toggled(boxValues, old(checked), task.selectedDays, task.includeHolidays,
                                 Decided(boxValues, task.selectedDays, task.includeHolidays))
      ensures ok == WeekdaysOutcome(boxValues, old(checked), task.selectedDays, task.includeHolidays)
    {
      var days, holidays := task.selectedDays, task.includeHolidays;
      if |boxValues| == 0 {
        return false;
      }
      var n := |boxValues|;
      var k := Decided(boxValues, days, holidays);
      for i := 0 to n
        invariant Valid()
        invariant i <= k
        invariant checked == Toggled(boxValues, old(checked), days, holidays, i)
      {
        var click := false;
        match boxValues[i] {
          case None =>
          case Some(value) =>
            if value == "" {
            } else if value == Holiday {
              click := holidays;
            } else {
              var day := ParseInt(value);
              if day.None? {
                return false;
              }
              click := day.value in days;
            }
        }
        assert click <==> Decision(boxValues[i], days, holidays) == Some(true);
        if click {
          Click(i);
        }
        assert checked == Toggled(boxValues, old(checked), days, holidays, i + 1);
      }
      var selected := CollectSelected();
      ok := Requested(selected, days, holidays);
    }

    /** The second loop of `select_weekdays`: the values of the checked boxes. */
    method CollectSelected() returns (selected: seq<Option<string>>)
      requires Valid()
      ensures selected == SelectedValues(boxValues, checked)
    {
      selected := [];
      for i := 0 to |boxValues|
        invariant selected == SelectedValues(boxValues[..i], checked[..i])
      {
        assert boxValues[..i + 1][..i] == boxValues[..i] && checked[..i + 1][..i] == checked[..i];
        if checked[i] {
          selected := selected + [boxValues[i]];
        }
      }
      assert boxValues[..|boxValues|] == boxValues && checked[..|checked|] == checked;
    }
  }

  /** The third loop of `select_weekdays` and the holiday test after it. */
  method Requested(selected: seq<Option<string>>, days: seq<int>, includeHolidays: bool) returns (allSelected: bool)
    ensures allSelected == AllRequested(selected, days, includeHolidays)
  {
    allSelected := true;
    var i := 0;
    while i < |days|
      invariant i <= |days|
      invariant forall j :: 0 <= j < i ==> Some(IntToString(days[j])) in selected
    {
      if Some(IntToString(days[i])) !in selected {
        allSelected := false;
        break;
      }
      i := i + 1;
    }
    if includeHolidays && Some(Holiday) !in selected {
      allSelected := false;
    }
  }

  // ----- properties of the weekday rule -----

  /** A box without a value, or with an empty one, is never clicked. */
  lemma EmptyNeverClicked(values: seq<Option<string>>, checked: seq<bool>, days: seq<int>, includeHolidays: bool, i: nat)
    requires |checked| == |values| && i < |values|
    requires values[i] == None || values[i] == Some("")
    ensures Toggled(values, checked, days, includeHolidays, Decided(values, days, includeHolidays))[i] == checked[i]
  {
  }

  /** The holiday box is clicked iff holidays are included, whatever the requested days. */
  lemma HolidayBoxRule(days: seq<int>, includeHolidays: bool)
    ensures Decision(Some(Holiday), days, includeHolidays) == Some(includeHolidays)
    ensures 8 in days && !includeHolidays ==> Decision(Some(Holiday), days, includeHolidays) == Some(false)
  {
  }

  /** Any other box whose value parses is clicked iff its number is requested. */
  lemma WeekdayBoxRule(v: string, days: seq<int>, includeHolidays: bool)
    requires v != "" && v != Holiday && ParseInt(v).Some?
    ensures Decision(Some(v), days, includeHolidays) == Some(ParseInt(v).value in days)
  {
  }

  /** `str(d)` is the holiday value only for `d == 8`. */
  lemma HolidayString(d: int)
    ensures IntToString(d) == Holiday <==> d == 8
  {
    IntRoundTrip(d);
    assert IntToString(8) == Holiday;
  }

  /** Each box is visited once: it ends either as it was or toggled, and toggled exactly when it was clicked. */
  lemma ClickedAtMostOnce(values: seq<Option<string>>, checked: seq<bool>, days: seq<int>, includeHolidays: bool, i: nat)
    requires |checked| == |values| && i < |values|
    requires Decided(values, days, includeHolidays) == |values|
    ensures Toggled(values, checked, days, includeHolidays, |values|)[i]
            == (checked[i] != (Decision(values[i], days, includeHolidays) == Some(true)))
  {
  }

  /** A value of `selected_values` is the value of a checked box. */
  lemma {:induction false} SelectedValuesIn(values: seq<Option<string>>, checked: seq<bool>, x: Option<string>)
    requires |checked| == |values|
    ensures x in SelectedValues(values, checked) <==> exists i :: 0 <= i < |values| && checked[i] && values[i] == x
  {
    if values != [] {
      var n := |values| - 1;
      SelectedValuesIn(values[..n], checked[..n], x);
      if exists i :: 0 <= i < n && checked[..n][i] && values[..n][i] == x {
        var i :| 0 <= i < n && checked[..n][i] && values[..n][i] == x;
        assert checked[i] && values[i] == x;
      }
      if exists i :: 0 <= i < |values| && checked[i] && values[i] == x {
        var i :| 0 <= i < |values| && checked[i] && values[i] == x;
        if i < n {
          assert checked[..n][i] && values[..n][i] == x;
        }
      }
    }
  }

  /** From all boxes unchecked, a value ends among the selected values iff some box has it and that box is clicked. */
  lemma UncheckedStart(values: seq<Option<string>>, checked: seq<bool>, days: seq<int>, includeHolidays: bool, x: Option<string>)
    requires |checked| == |values| && forall i :: 0 <= i < |checked| ==> !checked[i]
    requires Decided(values, days, includeHolidays) == |values|
    ensures x in SelectedValues(values, Toggled(values, checked, days, includeHolidays, |values|))
            <==> exists i :: 0 <= i < |values| && values[i] == x && Decision(x, days, includeHolidays) == Some(true)
  {
    SelectedValuesIn(values, Toggled(values, checked, days, includeHolidays, |values|), x);
  }

  /**
   * From all boxes unchecked and every value parseable, `select_weekdays`
   * succeeds iff there is a box whose value is exactly `str(d)` for each
   * requested day `d` other than 8, and, when 8 is requested as a day or as
   * the holidays, holidays are included and the page has the "8" box. In
   * particular 8 among the days without holidays always fails, and boxes that
   * are not requested never cause failure.
   */
  lemma WeekdaysSuccess(values: seq<Option<string>>, checked: seq<bool>, days: seq<int>, includeHolidays: bool)
    requires |checked| == |values| && forall i :: 0 <= i < |checked| ==> !checked[i]
    requires values != [] && Decided(values, days, includeHolidays) == |values|
    ensures WeekdaysOutcome(values, checked, days, includeHolidays)
            <==> (forall d :: d in days && d != 8 ==> Some(IntToString(d)) in values)
                 && ((includeHolidays || 8 in days) ==> includeHolidays && Some(Holiday) in values)
  {
    var sel := SelectedValues(values, Toggled(values, checked, days, includeHolidays, |values|));
    forall d | d in days && d != 8
      ensures Some(IntToString(d)) in sel <==> Some(IntToString(d)) in values
    {
      UncheckedStart(values, checked, days, includeHolidays, Some(IntToString(d)));
      HolidayString(d);
      IntRoundTrip(d);
      assert IntToString(d) != "";
      if Some(IntToString(d)) in values {
        var i :| 0 <= i < |values| && values[i] == Some(IntToString(d));
      }
    }
    UncheckedStart(values, checked, days, includeHolidays, Some(Holiday));
    assert Some(Holiday) in sel <==> includeHolidays && Some(Holiday) in values by {
      if Some(Holiday) in values {
        var i :| 0 <= i < |values| && values[i] == Some(Holiday);
      }
    }
    HolidayString(8);
  }
}
