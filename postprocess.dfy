/**
  Post-processing of a model's task JSON (`api/utils/postprocess.py`):
  holiday names resolved against a holiday table, due dates moved into the
  current year, and the decoded task object with its `due_date` corrected.
  The current year, the holiday table and the JSON decoder's verdict, which the
  source takes from the clock, the `holidays` package and `json.loads`, are
  parameters.
*/
module Postprocess {
  import opened Wrappers
  import opened Text
  import opened Calendar

  /** A decoded JSON value; numbers are exact. */
  datatype Json =
    | JNull
    | JBool(b: bool)
    | JNumber(x: real)
    | JString(s: string)
    | JArray(items: seq<Json>)
    | JObject(fields: map<string, Json>)

  /** A `ValueError` and its message. */
  datatype Error = ValueError(message: string)

  /** A year that `%Y` prints with four digits, as every current year does. */
  predicate FourDigitYear(y: int) {
    1000 <= y <= 9999
  }

  // ---- correct_due_date ----

  /** The names the source treats as 15 April, compared after lower-casing. */
  const TaxDayNames: seq<string> := ["tax day", "april 15", "4/15"]

  /** `date.replace(year=y)`: `None` where Python raises `ValueError` (29 February into a common year). */
  function ReplaceYear(d: Date, y: int): (r: Option<Date>)
    requires ValidDate(d) && 1 <= y <= 9999
    ensures r.Some? <==> !(d.month == 2 && d.day == 29 && !IsLeap(y))
    ensures r.Some? ==> r.value == Date(y, d.month, d.day) && ValidDate(r.value)
  {
    var r := Date(y, d.month, d.day);
    if ValidDate(r) then Some(r) else None
  }

  /**
    `correct_due_date` (lines 17-33): a tax-day name becomes 15 April of the
    current year; a date that `strptime` accepts and that lies in an earlier
    year moves to the current year, unless that date does not exist there;
    everything else comes back as it was.
  */
  function CorrectDueDate(dueDate: string, currentYear: int): string
    requires FourDigitYear(currentYear)
  {
    if LowerStr(dueDate) in TaxDayNames then Format(Date(currentYear, 4, 15))
    else
      match ParseIso(dueDate)
      case Some(d) =>
        if d.year < currentYear then
          match ReplaceYear(d, currentYear)
          case Some(moved) => Format(moved)
          case None => dueDate
        else dueDate
      case None => dueDate
  }

  /** Lines 22-23: "Tax Day", "april 15", "4/15" in any case give 15 April of the current year. */
  lemma TaxDay(dueDate: string, currentYear: int)
    requires FourDigitYear(currentYear)
    requires LowerStr(dueDate) in TaxDayNames
    ensures CorrectDueDate(dueDate, currentYear) == Format(Date(currentYear, 4, 15))
    ensures ParseIso(CorrectDueDate(dueDate, currentYear)) == Some(Date(currentYear, 4, 15))
  {
    ParseFormat(Date(currentYear, 4, 15));
  }

  /**
    Lines 27-29: a date in an earlier year comes back with the same month and
    day in the current year, printed zero-padded.
  */
  lemma StaleDateMoved(dueDate: string, currentYear: int, d: Date)
    requires FourDigitYear(currentYear)
    requires LowerStr(dueDate) !in TaxDayNames
    requires ParseIso(dueDate) == Some(d) && d.year < currentYear
    requires !(d.month == 2 && d.day == 29 && !IsLeap(currentYear))
    ensures ValidDate(Date(currentYear, d.month, d.day))
    ensures CorrectDueDate(dueDate, currentYear) == Format(Date(currentYear, d.month, d.day))
  {
  }

  /**
    Lines 28-31: 29 February of an earlier year, when the current year is not a
    leap year, makes `replace` raise; the error is swallowed and the input is
    returned unchanged.
  */
  lemma StaleLeapDayKept(dueDate: string, currentYear: int, d: Date)
    requires FourDigitYear(currentYear)
    requires LowerStr(dueDate) !in TaxDayNames
    requires ParseIso(dueDate) == Some(d) && d.year < currentYear
    requires d.month == 2 && d.day == 29 && !IsLeap(currentYear)
    ensures CorrectDueDate(dueDate, currentYear) == dueDate
  {
  }

  /** Lines 30-33: a date in the current year or later, and a string that does not parse, are kept. */
  lemma OtherwiseKept(dueDate: string, currentYear: int)
    requires FourDigitYear(currentYear)
    requires LowerStr(dueDate) !in TaxDayNames
    requires ParseIso(dueDate).None? || ParseIso(dueDate).value.year >= currentYear
    ensures CorrectDueDate(dueDate, currentYear) == dueDate
  {
  }

  /** No printed date is a tax-day name: those are shorter than ten characters. */
  lemma FormatNotTaxDay(d: Date)
    requires ValidDate(d)
    ensures LowerStr(Format(d)) !in TaxDayNames
  {
  }

  /** Correcting a corrected due date changes nothing, for a fixed current year. */
  lemma CorrectDueDateIdempotent(dueDate: string, currentYear: int)
    requires FourDigitYear(currentYear)
    ensures CorrectDueDate(CorrectDueDate(dueDate, currentYear), currentYear) == CorrectDueDate(dueDate, currentYear)
  {
    var once := CorrectDueDate(dueDate, currentYear);
    if once != dueDate {
      // `once` is the current year's date `moved`, printed.
      var moved: Date :| ValidDate(moved) && moved.year == currentYear && once == Format(moved) by {
        if LowerStr(dueDate) in TaxDayNames {
          assert once == Format(Date(currentYear, 4, 15));
        } else {
          var d := ParseIso(dueDate).value;
          assert once == Format(ReplaceYear(d, currentYear).value);
        }
      }
      FormatNotTaxDay(moved);
      ParseFormat(moved);
    }
  }

  // ---- get_holiday_date ----

  /** The holiday entry `entry` answers the query `query` (line 12). */
  predicate NameMatches(query: string, entry: (Date, string)) {
    Contains(LowerStr(entry.1), LowerStr(query))
  }

  /**
    `get_holiday_date` (lines 6-15): the date of the first holiday, in table
    order, whose lower-cased name contains the lower-cased query, printed as
    YYYY-MM-DD; "Unknown" when no name does.
  */
  method GetHolidayDate(query: string, holidays: seq<(Date, string)>) returns (result: string)
    requires forall i :: 0 <= i < |holidays| ==> ValidDate(holidays[i].0) && FourDigitYear(holidays[i].0.year)
    ensures result == "Unknown" <==> forall i :: 0 <= i < |holidays| ==> !NameMatches(query, holidays[i])
    ensures result != "Unknown" ==>
              exists i :: 0 <= i < |holidays| && NameMatches(query, holidays[i]) && result == Format(holidays[i].0) &&
                          forall j :: 0 <= j < i ==> !NameMatches(query, holidays[j])
  {
    var needle := LowerStr(query);
    for i := 0 to |holidays|
      invariant forall j :: 0 <= j < i ==> !NameMatches(query, holidays[j])
    {
      var (date, name) := holidays[i];
      if Contains(LowerStr(name), needle) {
        result := Format(date);
        assert result[4] == '-';
        return;
      }
    }
    result := "Unknown";
  }

  // ---- process_parsed_task ----

  /** The decoded response is a task object whose due date, when present, is a string. */
  predicate TaskObject(decoded: Json) {
    decoded.JObject? && ("due_date" in decoded.fields ==> decoded.fields["due_date"].JString?)
  }

  /**
    `process_parsed_task` (lines 35-49): an empty response and one the decoder
    rejects (`decoded` is `None`) raise `ValueError` with the source's messages;
    otherwise the decoded task comes back with its `due_date`, when it has one,
    corrected, and every other field as decoded.
  */
  method ProcessParsedTask(content: string, decoded: Option<Json>, currentYear: int)
    returns (result: Result<map<string, Json>, Error>)
    requires FourDigitYear(currentYear)
    requires decoded.Some? ==> TaskObject(decoded.value)
    ensures content == [] ==> result == Failure(ValueError("Invalid response format from OpenAI"))
    ensures content != [] && decoded.None? ==> result == Failure(ValueError("OpenAI returned an invalid JSON response"))
    ensures content != [] && decoded.Some? ==> result.Success?
    ensures result.Success? ==>
              var fields := decoded.value.fields;
              var task := result.value;
              task.Keys == fields.Keys &&
              (forall key :: key in fields && key != "due_date" ==> task[key] == fields[key]) &&
              ("due_date" in fields ==> task["due_date"] == JString(CorrectDueDate(fields["due_date"].s, currentYear)))
  {
    if content == [] {
      return Failure(ValueError("Invalid response format from OpenAI"));
    }
    if decoded.None? {
      return Failure(ValueError("OpenAI returned an invalid JSON response"));
    }
    var parsedTask := decoded.value.fields;
    if "due_date" in parsedTask {
      parsedTask := parsedTask["due_date" := JString(CorrectDueDate(parsedTask["due_date"].s, currentYear))];
    }
    return Success(parsedTask);
  }
}
