/** The per-weekday availability settings. The session starts from a fixed
    default; on every rerun each day's stored "HH:MM" ends are parsed to seed
    the time pickers, and whatever the pickers hold is formatted and stored
    back. */
module Calendar {
  import opened Options
  import opened Clock

  /** The seven keys of the settings, in the order the sidebar lists them. */
  datatype Weekday = Monday | Tuesday | Wednesday | Thursday | Friday | Saturday | Sunday
  {
    /** The key the day is stored under. */
    function Name(): string
    {
      match this
      case Monday => "Monday"
      case Tuesday => "Tuesday"
      case Wednesday => "Wednesday"
      case Thursday => "Thursday"
      case Friday => "Friday"
      case Saturday => "Saturday"
      case Sunday => "Sunday"
    }

    predicate IsWeekend()
    {
      this == Saturday || this == Sunday
    }
  }

  const DefaultStart: string := "09:00"
  const DefaultEnd: string := "17:00"

  /** One day's entry: `{"enabled": ..., "start": "HH:MM", "end": "HH:MM"}`. */
  datatype DayHours = DayHours(enabled: bool, start: string, end: string)

  /** What the checkbox and the two time pickers of one day hold. */
  datatype DayEdit = DayEdit(enabled: bool, start: Time, end: Time)

  type Availability = map<Weekday, DayHours>

  predicate ValidEdit(e: DayEdit)
  {
    ValidTime(e.start) && ValidTime(e.end)
  }

  /** The calendar a new session starts with. */
  function DefaultHours(): (cal: Availability)
    ensures forall d: Weekday :: d in cal
    ensures forall d :: d in cal ==> (cal[d].enabled <==> !d.IsWeekend())
    ensures forall d :: d in cal ==> Parse(cal[d].start) == Some(Time(9, 0)) && Parse(cal[d].end) == Some(Time(17, 0))
  {
    DefaultTimes();
    map d: Weekday :: DayHours(!d.IsWeekend(), DefaultStart, DefaultEnd)
  }

  /** The default window ends are the canonical text of 09:00 and 17:00. */
  lemma DefaultTimes()
    ensures DefaultStart == Format(Time(9, 0)) && DefaultEnd == Format(Time(17, 0))
    ensures Parse(DefaultStart) == Some(Time(9, 0)) && Parse(DefaultEnd) == Some(Time(17, 0))
  {
    assert Format(Time(9, 0)) == DefaultStart;
    assert Format(Time(17, 0)) == DefaultEnd;
    ParseFormat(Time(9, 0));
    ParseFormat(Time(17, 0));
  }

  /** The default calendar is open on exactly the five days Monday to
      Friday, and every window, open or not, runs from "09:00" to "17:00". */
  lemma DefaultWeekdays()
    ensures (set d | d in DefaultHours() && DefaultHours()[d].enabled) == {Monday, Tuesday, Wednesday, Thursday, Friday}
    ensures forall d :: d in DefaultHours() ==> DefaultHours()[d].start == "09:00" && DefaultHours()[d].end == "17:00"
  {
    var cal := DefaultHours();
    assert cal == map d: Weekday :: DayHours(!d.IsWeekend(), DefaultStart, DefaultEnd);
  }

  /** A day's entry as the pickers are seeded from it: None when
      `strptime` raises on either end. */
  function LoadDay(h: DayHours): (r: Option<DayEdit>)
    ensures r.Some? <==> Parse(h.start).Some? && Parse(h.end).Some?
    ensures r.Some? ==> ValidEdit(r.value) && r.value.enabled == h.enabled
    ensures r.Some? ==> Parse(h.start) == Some(r.value.start) && Parse(h.end) == Some(r.value.end)
  {
    match (Parse(h.start), Parse(h.end))
    case (Some(s), Some(e)) => Some(DayEdit(h.enabled, s, e))
    case _ => None
  }

  /** A day's entry as stored back from the pickers. */
  function StoreDay(e: DayEdit): (h: DayHours)
    requires ValidEdit(e)
    ensures LoadDay(h) == Some(e)
    ensures |h.start| == 5 && |h.end| == 5
  {
    ParseFormat(e.start);
    ParseFormat(e.end);
    DayHours(e.enabled, Format(e.start), Format(e.end))
  }

  /** Loading a stored entry whose ends are five-character "HH:MM" text and
      storing it again gives back the same entry. */
  lemma StoreLoad(h: DayHours)
    requires |h.start| == 5 && |h.end| == 5 && LoadDay(h).Some?
    ensures StoreDay(LoadDay(h).value) == h
  {
    FormatParse(h.start);
    FormatParse(h.end);
  }

  /** Every day is present, both its ends are five-character "HH:MM" text,
      and `strptime` accepts them. */
  predicate Settled(cal: Availability)
  {
    forall d: Weekday :: d in cal && |cal[d].start| == 5 && |cal[d].end| == 5 && LoadDay(cal[d]).Some?
  }

  /** One rerun of the settings loop: every day is loaded, then stored from
      the user's edit for that day when there is one and from the loaded
      values otherwise. A stored end that `strptime` rejects, or a missing
      day, raises and stops the script; the model gives None there and drops
      the days the loop had already written back. That branch is never
      reached from the default calendar: see `SettledRefreshes`. */
  function Refresh(cal: Availability, edits: map<Weekday, DayEdit>): (r: Option<Availability>)
    requires forall d :: d in edits ==> ValidEdit(edits[d])
    ensures r.Some? <==> forall d: Weekday :: d in cal && LoadDay(cal[d]).Some?
    ensures r.Some? ==> Settled(r.value)
    ensures r.Some? ==> forall d :: d in edits ==> LoadDay(r.value[d]) == Some(edits[d])
    ensures r.Some? ==> forall d :: d !in edits ==> LoadDay(r.value[d]) == LoadDay(cal[d])
  {
    if forall d: Weekday :: d in cal && LoadDay(cal[d]).Some? then
      Some(map d: Weekday :: StoreDay(if d in edits then edits[d] else LoadDay(cal[d]).value))
    else
      None
  }

  /** A settled calendar is a fixed point of a rerun without edits: every
      day is stored back exactly as it was loaded. */
  lemma SettledIsFixed(cal: Availability)
    requires Settled(cal)
    ensures Refresh(cal, map[]) == Some(cal)
  {
    var r := Refresh(cal, map[]);
    assert r.Some?;
    forall d: Weekday ensures r.value[d] == cal[d] {
      SettledDayIsFixed(cal, d);
    }
    SameDays(r.value, cal);
  }

  /** Two calendars holding every day with the same entries are equal. */
  lemma SameDays(a: Availability, b: Availability)
    requires forall d: Weekday :: d in a && d in b && a[d] == b[d]
    ensures a == b
  {
    assert a.Keys == b.Keys;
  }

  lemma SettledDayIsFixed(cal: Availability, d: Weekday)
    requires Settled(cal)
    ensures Refresh(cal, map[]).Some? && Refresh(cal, map[]).value[d] == cal[d]
  {
    var c := Refresh(cal, map[]).value;
    assert c[d] == StoreDay(LoadDay(cal[d]).value);
    StoreLoad(cal[d]);
  }

  /** After one rerun the calendar is settled: a further rerun without edits
      stores exactly what it loaded. */
  lemma RefreshSettles(cal: Availability, edits: map<Weekday, DayEdit>)
    requires forall d :: d in edits ==> ValidEdit(edits[d])
    requires Refresh(cal, edits).Some?
    ensures Refresh(Refresh(cal, edits).value, map[]) == Refresh(cal, edits)
  {
    SettledIsFixed(Refresh(cal, edits).value);
  }

  /** A settled calendar always passes a rerun, whatever the edits, and is
      settled again afterwards. */
  lemma SettledRefreshes(cal: Availability, edits: map<Weekday, DayEdit>)
    requires forall d :: d in edits ==> ValidEdit(edits[d])
    requires Settled(cal)
    ensures Refresh(cal, edits).Some? && Settled(Refresh(cal, edits).value)
  {
  }

  /** The default calendar is settled, so no rerun reached from it ever
      fails. */
  lemma DefaultSettled()
    ensures Settled(DefaultHours())
  {
    DefaultWeekdays();
    DefaultTimes();
  }

  /** Distinct days are stored under distinct keys, so keying the settings
      by `Weekday` instead of by the day's name loses nothing. */
  lemma NamesDistinct(d: Weekday, e: Weekday)
    ensures d.Name() == e.Name() <==> d == e
  {
    if d != e {
      assert d.Name()[0] != e.Name()[0] || d.Name()[1] != e.Name()[1];
    }
  }

  /** The default calendar survives a rerun without edits unchanged. */
  lemma DefaultSurvivesRefresh()
    ensures Refresh(DefaultHours(), map[]) == Some(DefaultHours())
  {
    DefaultWeekdays();
    SettledIsFixed(DefaultHours());
  }
}
