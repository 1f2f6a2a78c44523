/**
  The checks `store_task` (`api/database.py`) makes before it builds a task
  row: the three required keys, and the coercion of `due_date` to a date or to
  nothing. The session calls that follow are not modelled.
*/
module Database {
  import opened Wrappers
  import opened Text
  import opened Calendar
  import opened Postprocess

  /** Python truthiness of a decoded JSON value. */
  predicate Truthy(v: Json) {
    match v
    case JNull => false
    case JBool(b) => b
    case JNumber(x) => x != 0.0
    case JString(s) => s != []
    case JArray(items) => items != []
    case JObject(fields) => fields != map[]
  }

  /** What the task row's `due_date` receives: no date, a parsed date, or a non-string value as it came. */
  datatype DueDate = NoDate | OnDate(date: Date) | AsGiven(value: Json)

  /** The task row `store_task` builds (lines 66-71), before the session takes it. */
  datatype Task = Task(name: Json, dueDate: DueDate, priority: Json, category: Json)

  /** Lines 58-62: `datetime.strptime(s, "%Y-%m-%d").date()`, or no date where that raises. */
  function StringDueDate(s: string): (r: DueDate)
    ensures r.NoDate? <==> ParseIso(s).None?
    ensures ParseIso(s).Some? ==> r == OnDate(ParseIso(s).value)
    ensures r.OnDate? ==> ValidDate(r.date)
  {
    match ParseIso(s)
    case Some(d) => OnDate(d)
    case None => NoDate
  }

  /**
    `store_task`, lines 53-71: a task lacking any of "name", "priority" and
    "category" is refused with `ValueError`; otherwise the row carries those
    three as given and the due date coerced: absent or falsy gives no date, a
    string gives its parsed date or no date, any other value passes through.
  */
  method StoreTask(parsedTask: map<string, Json>) returns (result: Result<Task, Error>)
    ensures !("name" in parsedTask && "priority" in parsedTask && "category" in parsedTask)
            <==> result == Failure(ValueError("Missing required task fields"))
    ensures result.Success? ==>
              result.value.name == parsedTask["name"] &&
              result.value.priority == parsedTask["priority"] &&
              result.value.category == parsedTask["category"]
    ensures result.Success? && ("due_date" !in parsedTask || !Truthy(parsedTask["due_date"])) ==>
              result.value.dueDate == NoDate
    ensures result.Success? && "due_date" in parsedTask && Truthy(parsedTask["due_date"]) ==>
              match parsedTask["due_date"]
              case JString(s) => result.value.dueDate == StringDueDate(s)
              case other => result.value.dueDate == AsGiven(other)
  {
    if !("name" in parsedTask && "priority" in parsedTask && "category" in parsedTask) {
      return Failure(ValueError("Missing required task fields"));
    }

    var dueDate := NoDate;
    if "due_date" in parsedTask && Truthy(parsedTask["due_date"]) {
      var given := parsedTask["due_date"];
      if given.JString? {
        var parsed := ParseIso(given.s);
        if parsed.Some? {
          dueDate := OnDate(parsed.value);
        } else {
          dueDate := NoDate;
        }
      } else {
        dueDate := AsGiven(given);
      }
    }

    return Success(Task(parsedTask["name"], dueDate, parsedTask["priority"], parsedTask["category"]));
  }

  /**
    From post-processing to storage: a due date the model wrote as a date
    survives correction and is stored as a date, in the current year when it
    lay in an earlier one (29 February into a common year excepted, which is
    kept as written); a tax-day name is stored as 15 April of the current year;
    any other text that does not parse is stored as no date.
  */
  lemma CorrectedDueDateStored(dueDate: string, currentYear: int)
    requires FourDigitYear(currentYear)
    ensures LowerStr(dueDate) in TaxDayNames ==>
              StringDueDate(CorrectDueDate(dueDate, currentYear)) == OnDate(Date(currentYear, 4, 15))
    ensures LowerStr(dueDate) !in TaxDayNames && ParseIso(dueDate).Some? ==>
              var d := ParseIso(dueDate).value;
              StringDueDate(CorrectDueDate(dueDate, currentYear)) ==
                (if d.year < currentYear && !(d.month == 2 && d.day == 29 && !IsLeap(currentYear))
                 then OnDate(Date(currentYear, d.month, d.day))
                 else OnDate(d))
    ensures LowerStr(dueDate) !in TaxDayNames && ParseIso(dueDate).None? ==>
              StringDueDate(CorrectDueDate(dueDate, currentYear)) == NoDate
  {
    if LowerStr(dueDate) in TaxDayNames {
      TaxDay(dueDate, currentYear);
    } else if ParseIso(dueDate).Some? {
      var d := ParseIso(dueDate).value;
      if d.year < currentYear && !(d.month == 2 && d.day == 29 && !IsLeap(currentYear)) {
        StaleDateMoved(dueDate, currentYear, d);
        ParseFormat(Date(currentYear, d.month, d.day));
      } else if d.year < currentYear {
        StaleLeapDayKept(dueDate, currentYear, d);
      } else {
        OtherwiseKept(dueDate, currentYear);
      }
    } else {
      OtherwiseKept(dueDate, currentYear);
    }
  }

  /** The "Unknown" that a failed holiday lookup yields passes correction unchanged and is stored as no date. */
  lemma UnknownStoredAsNoDate(currentYear: int)
    requires FourDigitYear(currentYear)
    ensures CorrectDueDate("Unknown", currentYear) == "Unknown"
    ensures StringDueDate(CorrectDueDate("Unknown", currentYear)) == NoDate
  {
    assert LowerStr("Unknown") == "unknown";
    assert !IsDigit("Unknown"[0]);
    OtherwiseKept("Unknown", currentYear);
  }
}
