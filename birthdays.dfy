/** The "birthdays" sub-shell (assistant/birthdays.py) and the rule that
    moves a congratulation off the weekend. */
module BirthdayCommands {
  import opened Outcomes
  import opened PyText
  import opened Calendar
  import opened Model
  import opened Repos
  import opened Shell

  /** `_get_congratulation_date(birthdate, year)`: the birthday's anniversary
      in `year`, moved to the following Monday when it falls on a weekend.
      Building the anniversary raises `ValueError` when the calendar has no
      such day (February 29 in a common year). */
  function CongratulationDate(birth: Birthday, year: int): (r: Result<Birthday, Exception>)
    ensures r.Failure? <==> !Date(year, birth.month, birth.day).Valid()
    ensures r.Failure? ==> r.error.ValueError?
  {
    var anniversary := Date(year, birth.month, birth.day);
    if !(MinYear <= year <= MaxYear) then
      Failure(ValueError("year " + IntText(year) + " is out of range"))
    else if !anniversary.Valid() then
      Failure(ValueError("day is out of range for month"))
    else
      if Weekday(anniversary) < 5 then Success(anniversary)
      else Success(NextMonday(anniversary))
  }

  /** `d + timedelta(days=7 - weekday)` for a Saturday or a Sunday `d`. */
  function NextMonday(d: Birthday): (monday: Birthday)
    requires Weekday(d) >= 5
  {
    WeekendShift(d);
    AddDays(d, 7 - Weekday(d))
  }

  /** The congratulation date is a weekday (Monday to Friday) at most two
      days after the anniversary: the anniversary itself on a weekday, the
      Monday after it on a weekend (two days after a Saturday, one after a
      Sunday). */
  lemma CongratulationOnWeekday(birth: Birthday, year: int)
    requires Date(year, birth.month, birth.day).Valid()
    ensures CongratulationDate(birth, year).Success?
    ensures var anniversary := Date(year, birth.month, birth.day);
      var on := CongratulationDate(birth, year).value;
      var shift := Ordinal(on) - Ordinal(anniversary);
      && Weekday(on) < 5
      && 0 <= shift <= 2
      && !Before(on, anniversary)
      && (Weekday(anniversary) < 5 ==> on == anniversary)
      && (Weekday(anniversary) == 5 ==> shift == 2 && Weekday(on) == 0)
      && (Weekday(anniversary) == 6 ==> shift == 1 && Weekday(on) == 0)
  {
    var anniversary := Date(year, birth.month, birth.day);
    if Weekday(anniversary) >= 5 {
      WeekendShift(anniversary);
    }
  }

  /** Moving a weekend day forward by `7 - weekday` days stays within the
      calendar and reaches the following Monday. */
  lemma WeekendShift(d: Date)
    requires d.Valid() && Weekday(d) >= 5
    ensures d != Date(MaxYear, 12, 31) && NextDay(d) != Date(MaxYear, 12, 31)
    ensures AddDays(d, 7 - Weekday(d)).Valid()
    ensures Ordinal(AddDays(d, 7 - Weekday(d))) == Ordinal(d) + 7 - Weekday(d)
    ensures Weekday(AddDays(d, 7 - Weekday(d))) == 0
    ensures Before(d, AddDays(d, 7 - Weekday(d)))
  {
    LastDaysAreWeekdays();
    assert d != Date(MaxYear, 12, 30) && d != Date(MaxYear, 12, 31);
    var n := 7 - Weekday(d);
    AddDaysOrdinal(d, n);
    WeekdayAfter(Ordinal(d), n);
  }

  /** Going forward `7 - w` days from weekday `w` reaches weekday 0. */
  lemma WeekdayAfter(ordinal: int, n: int)
    requires n == 7 - (ordinal + 6) % 7
    ensures (ordinal + n + 6) % 7 == 0
  {
    var q := (ordinal + 6) / 7;
    assert ordinal + n + 6 == 7 * (q + 1);
  }

  /** A Saturday anniversary at the end of the year moves into January. */
  lemma ShiftCrossesYearEnd()
    ensures CongratulationDate(Date(1990, 12, 31), 2022) == Success(Date(2023, 1, 2))
  {
    var anniversary := Date(2022, 12, 31);
    assert Weekday(anniversary) == 5;
    assert AddDays(anniversary, 2) == Date(2023, 1, 2);
  }

  /** February 29 has an anniversary only in leap years. */
  lemma LeapDayBirthday(year: int)
    requires MinYear <= year <= MaxYear
    ensures CongratulationDate(Date(2000, 2, 29), year).Failure? <==> !IsLeap(year)
  {
  }

  /** What `upcoming` prints, and the error it raises if it stops early. */
  datatype Report = Report(lines: seq<Line>, raised: Option<Exception>)

  /** What `upcoming` does with one stored item: nothing (no birthday, or a
      congratulation date before `today`), print a reminder, or stop with the
      error raised while building the anniversary. */
  datatype Visit = Skip | Remind(line: Line) | Stop(error: Exception)

  function VisitItem(name: string, record: Record, today: ValidDate): (v: Visit)
    ensures v.Stop? <==> Fails(record, today.year)
    ensures v.Stop? ==> v.error.ValueError?
    ensures (&& record.birthday.Some? && !Fails(record, today.year)
             && !Before(CongratulationDate(record.birthday.value, today.year).value, today)) ==>
      v == Remind(Reminder(name, record.birthday.value, CongratulationDate(record.birthday.value, today.year).value))
    ensures v.Remind? ==>
      (&& record.birthday.Some? && v.line.Reminder? && v.line.name == name
       && v.line.born == record.birthday.value
       && CongratulationDate(v.line.born, today.year) == Success(v.line.on)
       && !Before(v.line.on, today))
  {
    match record.birthday
    case None => Skip
    case Some(born) =>
      var congratulation := CongratulationDate(born, today.year);
      if congratulation.Failure? then Stop(congratulation.error)
      else if Before(congratulation.value, today) then Skip
      else Remind(Reminder(name, born, congratulation.value))
  }

  /** The record has a birthday with no anniversary in `year`. */
  predicate Fails(record: Record, year: int) {
    record.birthday.Some? && CongratulationDate(record.birthday.value, year).Failure?
  }

  /** `upcoming` over the store's items in order: records without a birthday
      and those whose congratulation date is before `today` are skipped; there
      is no upper limit; the first anniversary that cannot be built stops the
      listing with its error. */
  function UpcomingReport(items: seq<(string, Record)>, today: ValidDate): (report: Report) {
    ReportOf(Visits(items, today))
  }

  /** The visit of every item, in the store's order. */
  function Visits(items: seq<(string, Record)>, today: ValidDate): (vs: seq<Visit>)
    ensures |vs| == |items|
    ensures forall i :: 0 <= i < |items| ==> vs[i] == VisitItem(items[i].0, items[i].1, today)
  {
    seq(|items|, i requires 0 <= i < |items| => VisitItem(items[i].0, items[i].1, today))
  }

  /** The report of a walk made of the visits `vs`. */
  function ReportOf(vs: seq<Visit>): (report: Report)
    decreases |vs|
  {
    if vs == [] then Report([], None) else StepReport(vs[0], ReportOf(vs[1..]))
  }

  /** What one visit adds in front of `rest`, the report of the visits after it. */
  function StepReport(v: Visit, rest: Report): (report: Report) {
    match v
    case Skip => rest
    case Remind(line) => Prefixed([line], rest)
    case Stop(e) => Report([], Some(e))
  }

  /** `printed` followed by what `report` still adds. */
  function Prefixed(printed: seq<Line>, report: Report): (r: Report) {
    Report(printed + report.lines, report.raised)
  }

  lemma PrefixedTwice(printed: seq<Line>, line: Line, rest: Report)
    ensures Prefixed(printed, Prefixed([line], rest)) == Prefixed(printed + [line], rest)
  {
    assert printed + ([line] + rest.lines) == (printed + [line]) + rest.lines;
  }

  /** One step of the walk: the report from visit `i` on, in terms of visit
      `i` and the report from visit `i + 1` on. */
  lemma ReportStep(vs: seq<Visit>, i: nat)
    requires i < |vs|
    ensures ReportOf(vs[i..]) == StepReport(vs[i], ReportOf(vs[i + 1..]))
  {
    assert vs[i..][0] == vs[i] && vs[i..][1..] == vs[i + 1..];
  }

  /** Every printed line is the line of a reminding visit. */
  lemma {:induction false} ReportSound(vs: seq<Visit>, k: nat)
    requires k < |ReportOf(vs).lines|
    ensures exists i :: 0 <= i < |vs| && vs[i].Remind? && vs[i].line == ReportOf(vs).lines[k]
    decreases |vs|
  {
    var line := ReportOf(vs).lines[k];
    var tail := vs[1..];
    if vs[0].Remind? && k == 0 {
      assert vs[0].line == line;
    } else {
      var k' := if vs[0].Remind? then k - 1 else k;
      assert line == ReportOf(tail).lines[k'];
      ReportSound(tail, k');
      var i :| 0 <= i < |tail| && tail[i].Remind? && tail[i].line == line;
      assert vs[i + 1] == tail[i];
    }
  }

  /** A walk that raises nothing met no stopping visit and printed the line
      of every reminding visit. */
  lemma {:induction false} ReportComplete(vs: seq<Visit>, i: nat)
    requires ReportOf(vs).raised.None?
    requires i < |vs|
    ensures !vs[i].Stop?
    ensures vs[i].Remind? ==> vs[i].line in ReportOf(vs).lines
    decreases |vs|
  {
    if i > 0 {
      var tail := vs[1..];
      assert tail[i - 1] == vs[i];
      ReportComplete(tail, i - 1);
      assert ReportOf(tail).lines <= ReportOf(vs).lines || ReportOf(tail).lines == ReportOf(vs).lines[1..];
    }
  }

  /** Visit `f` is the first stopping visit of `vs`. */
  predicate FirstStop(vs: seq<Visit>, f: int) {
    0 <= f < |vs| && vs[f].Stop? && forall j :: 0 <= j < f ==> !vs[j].Stop?
  }

  /** A walk raises exactly when it meets a stopping visit, and what it
      raises is the error of the first one. */
  lemma {:induction false} ReportRaised(vs: seq<Visit>)
    ensures ReportOf(vs).raised.Some? <==> exists i :: 0 <= i < |vs| && vs[i].Stop?
    ensures ReportOf(vs).raised.Some? ==>
      exists f :: FirstStop(vs, f) && ReportOf(vs).raised.value == vs[f].error
    decreases |vs|
  {
    if vs != [] && vs[0].Stop? {
      assert FirstStop(vs, 0);
    } else if vs != [] {
      var tail := vs[1..];
      ReportRaised(tail);
      if exists i :: 0 <= i < |tail| && tail[i].Stop? {
        var f :| FirstStop(tail, f) && ReportOf(tail).raised.value == tail[f].error;
        assert vs[f + 1] == tail[f];
        forall j | 0 <= j < f + 1 ensures !vs[j].Stop? {
          if j > 0 {
            assert vs[j] == tail[j - 1];
          }
        }
        assert FirstStop(vs, f + 1);
      }
      if exists i :: 0 <= i < |vs| && vs[i].Stop? {
        var i :| 0 <= i < |vs| && vs[i].Stop?;
        assert tail[i - 1] == vs[i];
      }
    }
  }

  /** The lines of the reminding visits among `vs`, in order. */
  function RemindLines(vs: seq<Visit>): (lines: seq<Line>)
    ensures |lines| <= |vs|
  {
    if vs == [] then []
    else (if vs[0].Remind? then [vs[0].line] else []) + RemindLines(vs[1..])
  }

  /** A walk that meets no stopping visit prints the line of every
      reminding visit, in order, and raises nothing. */
  lemma {:induction false} ReportWithoutStop(vs: seq<Visit>)
    requires forall j :: 0 <= j < |vs| ==> !vs[j].Stop?
    ensures ReportOf(vs) == Report(RemindLines(vs), None)
    decreases |vs|
  {
    if vs != [] {
      var tail := vs[1..];
      forall j | 0 <= j < |tail| ensures !tail[j].Stop? {
        assert tail[j] == vs[j + 1];
      }
      ReportWithoutStop(tail);
    }
  }

  /** A walk ends at its first stopping visit: it prints the lines of the
      reminding visits before it, in order, nothing after it, and raises
      its error. */
  lemma {:induction false} ReportStopsAtFirst(vs: seq<Visit>, f: nat)
    requires FirstStop(vs, f)
    ensures ReportOf(vs) == Report(RemindLines(vs[..f]), Some(vs[f].error))
    decreases f
  {
    if f > 0 {
      var tail := vs[1..];
      assert tail[f - 1] == vs[f];
      forall j | 0 <= j < f - 1 ensures !tail[j].Stop? {
        assert tail[j] == vs[j + 1];
      }
      ReportStopsAtFirst(tail, f - 1);
      assert vs[..f][0] == vs[0];
      assert vs[..f][1..] == tail[..f - 1];
    }
  }

  /** Every reminder is for a stored record with a birthday, names the
      congratulation date the rule gives, and that date is not before today. */
  lemma UpcomingSound(items: seq<(string, Record)>, today: ValidDate, k: nat)
    requires k < |UpcomingReport(items, today).lines|
    ensures var line := UpcomingReport(items, today).lines[k];
      line.Reminder? && exists i :: (0 <= i < |items| && items[i].0 == line.name
        && items[i].1.birthday == Some(line.born)
        && CongratulationDate(line.born, today.year) == Success(line.on)
        && !Before(line.on, today))
  {
    var vs := Visits(items, today);
    ReportSound(vs, k);
    var i :| 0 <= i < |vs| && vs[i].Remind? && vs[i].line == ReportOf(vs).lines[k];
    assert vs[i] == VisitItem(items[i].0, items[i].1, today);
  }

  /** When nothing fails, every record with a birthday whose congratulation
      date is today or later gets its reminder, however far ahead the date is. */
  lemma UpcomingComplete(items: seq<(string, Record)>, today: ValidDate, i: nat)
    requires UpcomingReport(items, today).raised.None?
    requires i < |items| && items[i].1.birthday.Some?
    ensures !Fails(items[i].1, today.year)
    ensures !Before(CongratulationDate(items[i].1.birthday.value, today.year).value, today) ==>
      Reminder(items[i].0, items[i].1.birthday.value, CongratulationDate(items[i].1.birthday.value, today.year).value)
        in UpcomingReport(items, today).lines
  {
    var vs := Visits(items, today);
    ReportComplete(vs, i);
    assert vs[i] == VisitItem(items[i].0, items[i].1, today);
  }

  /** The listing stops with an error exactly when some record's birthday
      has no anniversary this year, and that error is a `ValueError`. */
  lemma UpcomingRaises(items: seq<(string, Record)>, today: ValidDate)
    ensures UpcomingReport(items, today).raised.Some? <==>
      exists i :: 0 <= i < |items| && Fails(items[i].1, today.year)
    ensures UpcomingReport(items, today).raised.Some? ==> UpcomingReport(items, today).raised.value.ValueError?
  {
    var vs := Visits(items, today);
    ReportRaised(vs);
    if exists i :: 0 <= i < |items| && Fails(items[i].1, today.year) {
      var i :| 0 <= i < |items| && Fails(items[i].1, today.year);
      assert vs[i].Stop?;
    }
    if ReportOf(vs).raised.Some? {
      var i :| FirstStop(vs, i) && ReportOf(vs).raised.value == vs[i].error;
      assert Fails(items[i].1, today.year);
    }
  }

  /** `upcoming` stops at the first record whose birthday has no
      anniversary this year: it prints exactly the reminders of the records
      before it, nothing for the records after it, and raises the error of
      building that anniversary. */
  lemma UpcomingStopsAtFirst(items: seq<(string, Record)>, today: ValidDate, f: nat)
    requires f < |items| && Fails(items[f].1, today.year)
    requires forall j :: 0 <= j < f ==> !Fails(items[j].1, today.year)
    ensures UpcomingReport(items[..f], today).raised.None?
    ensures UpcomingReport(items, today) ==
      Report(UpcomingReport(items[..f], today).lines,
             Some(CongratulationDate(items[f].1.birthday.value, today.year).error))
  {
    var vs := Visits(items, today);
    forall j | 0 <= j < f ensures !vs[j].Stop? {
      assert vs[j] == VisitItem(items[j].0, items[j].1, today);
    }
    assert vs[f] == VisitItem(items[f].0, items[f].1, today);
    assert FirstStop(vs, f);
    ReportStopsAtFirst(vs, f);
    var ws := Visits(items[..f], today);
    forall j | 0 <= j < f ensures ws[j] == vs[..f][j] {
      assert items[..f][j] == items[j];
    }
    assert ws == vs[..f];
    ReportWithoutStop(ws);
  }

  class Birthdays {
    const book: Repo<Record>
    const console: Console
    /** The session-wide "yes to all" flag. */
    const yes: bool
    var prompt: string

    /** Leaves without confirmation and without a goodbye. */
    const policy: Policy

    constructor (book: Repo<Record>, console: Console, yes: bool)
      ensures this.book == book && this.console == console && this.yes == yes
      ensures policy == SubShellPolicy
    {
      this.book, this.console, this.yes := book, console, yes;
      policy := SubShellPolicy;
      prompt := "(Cmd) ";
    }

    /** `set NAME BIRTHDAY`: a new name gets a record with no phones and this
        birthday; an existing record keeps its phones and only its birthday
        changes. */
    method Set(name: Name, birthday: Birthday)
      requires book.Valid()
      modifies book, console
      ensures book.Valid()
      ensures name !in old(book.values) ==>
        book.values == old(book.values)[name := Record(name, [], Some(birthday))]
      ensures name in old(book.values) ==>
        book.values == old(book.values)[name := old(book.values)[name].SetBirthday(birthday)]
      ensures book.keys == if name in old(book.values) then old(book.keys) else old(book.keys) + [name]
      ensures KeyedByName(old(book.values)) ==> KeyedByName(book.values)
      ensures console.out == old(console.out) + [Text("Birthday has been added to record " + name)]
      ensures console.input == old(console.input) && console.err == old(console.err)
    {
      var found := book.Get(name);
      var record := if found.Some? then found.value else Record(name, [], None);
      record := record.SetBirthday(birthday);
      book.Set(name, record);
      console.Print(Text("Birthday has been added to record " + name));
    }

    /** `show NAME`: the birthday, or a notice that there is none; a missing
        record is reported. */
    method Show(name: Name)
      requires book.Valid()
      modifies console
      ensures name !in book.values ==>
        console.err == old(console.err) + ["Record " + name + " does not exist"]
        && console.out == old(console.out)
      ensures name in book.values && book.values[name].birthday.None? ==>
        console.out == old(console.out) + [Text(name + " has no birthday")]
        && console.err == old(console.err)
      ensures name in book.values && book.values[name].birthday.Some? ==>
        console.out == old(console.out) + [BornOn(name, book.values[name].birthday.value)]
        && console.err == old(console.err)
      ensures console.input == old(console.input)
    {
      var found := book.Get(name);
      if found.None? {
        console.Error("Record " + name + " does not exist");
        return;
      }
      match found.value.birthday
      case None => console.Print(Text(name + " has no birthday"));
      case Some(born) => console.Print(BornOn(name, born));
    }

    /** `clear NAME`: a missing record is reported without asking; a declined
        confirmation changes nothing; otherwise the birthday becomes `None`
        and the phones stay. */
    method Clear(name: Name)
      requires book.Valid()
      modifies book, console
      ensures book.Valid()
      ensures name !in old(book.values) ==>
        && unchanged(book)
        && console.input == old(console.input)
        && console.err == old(console.err) + ["Record " + name + " does not exist"]
        && console.out == old(console.out)
      ensures name in old(book.values) ==>
        var confirmed := yes || Answer(old(console.input));
        && console.input == (if yes then old(console.input) else old(console.input)[AnswerLength(old(console.input))..])
        && console.err == old(console.err)
        && (!confirmed ==> unchanged(book) && console.out == old(console.out))
        && (confirmed ==>
             && book.values == old(book.values)[name := old(book.values)[name].ClearBirthday()]
             && book.keys == old(book.keys)
             && console.out == old(console.out) + [Text("Birthday has been cleared from record " + name)])
      ensures KeyedByName(old(book.values)) ==> KeyedByName(book.values)
    {
      var found := book.Get(name);
      if found.None? {
        console.Error("Record " + name + " does not exist");
        return;
      }
      if !yes {
        var confirmed := console.Confirm();
        if !confirmed {
          return;
        }
      }
      book.Set(name, found.value.ClearBirthday());
      console.Print(Text("Birthday has been cleared from record " + name));
    }

    /** `upcoming`: walks the store's items in order and prints a reminder
        for each congratulation date from `today` on; an anniversary that
        cannot be built raises `ValueError`, which ends the walk. */
    method Upcoming(today: ValidDate) returns (raised: Option<Exception>)
      requires book.Valid()
      modifies console
      ensures var report := UpcomingReport(book.Items(), today);
        console.out == old(console.out) + report.lines && raised == report.raised
      ensures console.input == old(console.input) && console.err == old(console.err)
    {
      raised := Walk(book.Items(), today);
    }

    /** The loop of `upcoming` over the items `items`. */
    method Walk(items: seq<(string, Record)>, today: ValidDate) returns (raised: Option<Exception>)
      modifies console
      ensures console.out == old(console.out) + UpcomingReport(items, today).lines
      ensures raised == UpcomingReport(items, today).raised
      ensures console.input == old(console.input) && console.err == old(console.err)
    {
      ghost var vs := Visits(items, today);
      ghost var printed: seq<Line> := [];
      assert vs[0..] == vs;
      for i := 0 to |items|
        invariant console.out == old(console.out) + printed
        invariant ReportOf(vs) == Prefixed(printed, ReportOf(vs[i..]))
        invariant console.input == old(console.input) && console.err == old(console.err)
      {
        var v := VisitItem(items[i].0, items[i].1, today);
        assert v == vs[i];
        ReportStep(vs, i);
        if v.Stop? {
          return Some(v.error);
        }
        if v.Remind? {
          console.Print(v.line);
          PrefixedTwice(printed, v.line, ReportOf(vs[i + 1..]));
          printed := printed + [v.line];
        }
      }
      assert vs[|items|..] == [];
      raised := None;
    }
  }
}
