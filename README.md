# Address-book assistant, modelled in Dafny

This project models the core of a small command-line address book written in
Python. The assistant keeps records in a persistent store; each record has a
name, an ordered list of typed phone numbers and an optional birthday. Three
command shells work on that store:

- the top-level shell (`list`, `wipe`, and entry into the sub-shells);
- the `phones` sub-shell (`add`, `edit`, `show`, `delete`);
- the `birthdays` sub-shell (`set`, `show`, `clear`, `upcoming`).

`upcoming` lists the congratulation date of each birthday this year. A
birthday that falls on a Saturday or Sunday moves to the next Monday. Every
destructive command asks the user to confirm, unless "yes to all" is on. The
repository also holds an older contacts application ("notes"). It maps names
to phone numbers written `XXX-XXX-XXXX`.

The model has one module per source file:

| file | module | source |
|---|---|---|
| `outcomes.dfy` | `Outcomes` | `Option` and `Result` |
| `pytext.dfy` | `PyText` | the Python string operations used: `strip`, `lower`, `\d`, `str(int)`, `join` |
| `calendar.dfy` | `Calendar` | the part of `datetime.date` used: validity, `toordinal`, `weekday`, `+ timedelta(days=n)` for one or two days (all the weekend shift adds), `<` |
| `model.dfy` | `Model` | `assistant/model.py` |
| `repos.dfy` | `Repos` | `assistant/repos.py` |
| `common.dfy` | `Shell` | `assistant/common.py` |
| `phones.dfy` | `PhoneCommands` | `assistant/phones.py` |
| `birthdays.dfy` | `BirthdayCommands` | `assistant/birthdays.py` |
| `app.dfy` | `Assistant` | `assistant/__init__.py` |
| `notes.dfy` | `Notes` | `notes/__init__.py` |

How the pieces are modelled:

- **Records are values.** Each `Record` mutator returns the updated record. Every command that changes a record writes it back with `set`, as the Python code does.
- **The store is a class.** `Repos.Repo` holds an insertion-ordered dict (`keys` plus `values`), and its methods change it in place.
- **Shells are classes too.** Each shell holds its prompt and shares the store and a `Shell.Console`.
- **The console stands in for the terminal.** `Shell.Console` holds:
  - `input`: the lines the user will type; once they run out, every read meets end of input;
  - `out` and `err`: what was written to standard output and to standard error.

  The user's answers are therefore an explicit input sequence.
- **Arguments arrive parsed.** Commands take already-validated arguments: `Name`, `PhoneNumber`, `Birthday`, `ContactPhone`. A failed argparse parse is the argument error that `Shell.OneCmd` handles for the address book and `Notes.HandleError` for the contacts commands. Before argparse runs, `shlex.split` tokenises the line; on an unbalanced quote it raises a plain `ValueError` ("No closing quotation"). `Shell.OneCmd` reports that message without help; `Notes.HandleError` lets it through.
- **Loops are proved against specifications.** Each loop the model covers is a `while`/`for` loop proved against a function:
  - `confirm` against `Shell.Answer`/`AnswerLength`;
  - `show` against `Listing`;
  - `list` against `RecordNames`/`ContactLines`;
  - `upcoming` against `UpcomingReport`.

Some behaviours the model keeps as the code has them:

- The address book's phone rule is `re.match(r"\d{10}", s)`. It is anchored only at the start, so `"1234567890x"` is a valid number. The contacts rule is anchored at both ends, but Python's `$` also lets one trailing newline through.
- A top-level shell whose input is closed (piped stdin, say) never ends on end of input. `do_EOF` asks for confirmation, `confirm` meets end of input and answers no, and the shell stays without printing or consuming anything, so `cmdloop` meets end of input again (`Shell.EndOfInputAtClosedInputStays`). The contacts application behaves the same.
- `do_delete` asks for confirmation *before* it checks the index. A confirmed delete with a bad index therefore still reports "out of range".
- `upcoming` stops at the first birthday whose anniversary does not exist this year (February 29 in a common year). `date(...)` raises `ValueError` there, and `onecmd` reports it. Records after that one get no reminder (`BirthdayCommands.UpcomingStopsAtFirst`).
- The contacts commands catch only argument errors (`handle_error`). The address book's `onecmd` also catches any other `ValueError`.
- `Birthday` parses `%Y.%m.%d`, but its error message says "Use DD.MM.YYYY". The model keeps the message as written. On the command line argparse replaces it with its own "invalid ... value" message, as it does for every validator's message (see "## Left out").

## Model

| member | source | states |
|---|---|---|
| PyText.StripIsTrimmedSlice | assistant/common.py:14 | `strip()` gives a slice of the input obtained by dropping only white space from both ends; a non-empty result neither starts nor ends with white space |
| PyText.BlankIffAllSpace | assistant/model.py:25 | `not s.strip()` holds exactly when every character of `s` is white space |
| PyText.LowerIsLetter | assistant/common.py:14 | the lower-cased text is the one letter `x` exactly when the text is `x` or its upper-case form |
| PyText.DigitsAtIff | assistant/model.py:32 | `\d{n}` matches at a position exactly when `n` characters remain there and all are decimal digits |
| Model.MakeName | assistant/model.py:23-27 | a name is rejected with "Name cannot be empty" exactly when it has no character other than white space; an accepted name is kept untrimmed |
| Model.MakePhoneNumber | assistant/model.py:30-34 | accepted exactly when the first ten characters are digits; the whole input is kept; otherwise `InvalidPhoneError("Invalid phone number format")` |
| Model.PhoneMatchIsUnanchoredAtEnd | assistant/model.py:32 | the match is anchored only at the start: "1234567890x" and 14 digits are accepted, 9 digits or a leading letter are rejected |
| Model.MakeBirthday | assistant/model.py:52-58 | a parsed date is accepted exactly when the calendar has it (year 1..9999, month 1..12, day within the month); otherwise `InvalidBirthdayError` |
| Model.ParsePhoneType | assistant/model.py:37-40 | a member found by a value has that value |
| Model.PhoneTypeRoundTrip | assistant/model.py:37-40 | each phone type is found by its own value and by no other text |
| Model.PhoneText | assistant/model.py:48-49 | `str(phone)` is the number followed by " (" type ")" |
| Model.ListPosition | assistant/model.py:76-80 | a Python list index denotes a position exactly when `-n <= i < n`, negative indices counting from the end |
| Model.Record.AddPhone | assistant/model.py:73-74 | one more phone, the new one last; earlier phones, name and birthday unchanged |
| Model.Record.EditPhone | assistant/model.py:76-77 | succeeds exactly for an index within the list; replaces that position only and keeps the length; otherwise `IndexError` |
| Model.Record.DeletePhone | assistant/model.py:79-80 | succeeds exactly for an index within the list; removes that position and shifts later phones down by one; otherwise `IndexError` |
| Model.Record.SetBirthday | assistant/model.py:82-83 | the birthday becomes the given one; name and phones unchanged |
| Model.Record.ClearBirthday | assistant/model.py:85-86 | the birthday becomes `None`; name and phones unchanged |
| Model.RecordText | assistant/model.py:70-71 | `str(record)` for a record with no phone and with one phone |
| Repos.Repo.constructor | assistant/repos.py:61-63 | a new store is empty |
| Repos.Repo.Enter | assistant/repos.py:66-72 | entering loads the saved map, or an empty map when there is no file |
| Repos.Repo.Exit | assistant/repos.py:74-76 | exiting writes the current map, keys in order, as the snapshot |
| Repos.ExitThenEnter | assistant/repos.py:66-76 | exit followed by enter restores the map and its order as they were at exit |
| Repos.Repo.Get | assistant/repos.py:78-79 | a present key gives its stored value; an absent key gives the default `None` |
| Repos.Repo.Set | assistant/repos.py:81-82 | the key now holds exactly the new value and every other key keeps its value; a new key goes last and an existing key keeps its place |
| Repos.Repo.Items | assistant/repos.py:84-85 | every stored pair exactly once, in insertion order |
| Repos.Repo.Clear | assistant/repos.py:87-88 | the store is empty afterwards |
| Shell.Console.ReadLine | assistant/common.py:13-16 | the next typed line, or end of input (`EOFError`) once the lines run out |
| Shell.Console.Error | assistant/common.py:7-8 | `error(msg)` adds one line to standard error and nothing else |
| Shell.Console.Confirm | assistant/common.py:11-18 | returns the answer of the first line that normalises to "y" or "n", consuming lines up to and including it; end of input answers no (the contacts application's copy, notes/__init__.py:19-26, is the same) |
| Shell.AnswerIsFirstDecision | assistant/common.py:11-18 | `confirm` is true exactly when some line normalises to "y" and no earlier line normalised to "y" or "n" |
| Shell.EndOfInputDeclines | assistant/common.py:13-16 | with no deciding line, `confirm` reads all input and returns false |
| Shell.NormalizedAnswers | assistant/common.py:14-17 | "y"/"Y" and "n"/"N" with surrounding white space decide; a blank line is no answer and `confirm` asks again |
| Shell.ParserError | assistant/common.py:27-29 | a parser error always raises `CmdArgumentError` carrying the message and the formatted help |
| Shell.OneCmd | assistant/common.py:67-74 | `CmdArgumentError` and `ValueError` never escape: the message is reported, plus the help for an argument error; other exceptions propagate |
| Shell.GoodbyeLine | assistant/common.py:76-80 | "Goodbye!" exactly when `say_goodbye`, otherwise an empty line |
| Shell.Exit | assistant/common.py:36-46 | without `confirm_exit` the shell always stops; with it, it stops exactly when the user confirms; a goodbye line is printed only on stopping (the contacts application's copy, notes/__init__.py:44-60, is the same) |
| Shell.EndOfInput | assistant/common.py:48-52 | `do_EOF` has exactly the effect of `do_exit` |
| Shell.EndOfInputAtClosedInputStays | assistant/common.py:36-52 | with `confirm_exit` on and no input left, `do_EOF` stays, prints nothing and leaves the state as it was, so end of input is met again forever |
| Shell.Interrupted | assistant/common.py:62-65 | after "^C" the loop is left only when the line buffer is empty and the user confirms; a non-empty buffer asks nothing |
| Shell.Dispatch | assistant/__init__.py:47-50 | a non-empty argument is one one-shot command, exactly that argument; an empty one enters the sub-shell's loop |
| Shell.NestedPrompt | assistant/__init__.py:46 | the sub-shell's prompt is the parent's prompt followed by the sub-shell's suffix |
| PhoneCommands.Listing | assistant/phones.py:112-113 | one line per phone, in order, numbered from 0 |
| PhoneCommands.Edited | assistant/phones.py:86-91 | the supplied number and type replace the old ones; fields not supplied stay |
| PhoneCommands.Phones.constructor | assistant/phones.py:16-28 | the sub-shell shares the store and the "yes to all" flag, and leaves without confirmation or goodbye (`SubShellPolicy`) |
| PhoneCommands.Phones.Add | assistant/phones.py:62-68 | a new name gets `Record(name)` holding just the new phone; an existing record gets it appended; type defaults to `MOBILE`; other records unchanged |
| PhoneCommands.Phones.Edit | assistant/phones.py:77-96 | a missing record or an index outside `0..n-1` (negatives included) is reported and nothing changes; otherwise only the supplied fields of that phone change; with none supplied nothing is written |
| PhoneCommands.Phones.Show | assistant/phones.py:105-113 | a missing record is reported; otherwise a notice when there are no phones, then the numbered listing |
| PhoneCommands.Phones.PrintListing | assistant/phones.py:112-113 | the `enumerate` loop prints exactly `Listing(phones, 0)` |
| PhoneCommands.Phones.Delete | assistant/phones.py:122-134 | a missing record is reported without asking; confirmation comes before the index check; a declined confirmation or a bad index changes nothing; otherwise exactly that phone is removed and the record stays stored, even with no phones |
| Calendar.Weekday | assistant/birthdays.py:111 | `weekday()` is between 0 (Monday) and 6 (Sunday) |
| Calendar.NextDayOrdinal | assistant/birthdays.py:114 | the day after a valid date (other than 9999-12-31) is valid, one ordinal later and later in date order |
| Calendar.AddDaysOrdinal | assistant/birthdays.py:114 | adding at most two days (all the weekend shift adds) moves the ordinal by exactly that many and, for one or two days, lands later |
| Calendar.LastDaysAreWeekdays | assistant/birthdays.py:114 | 9999-12-31 is a Friday and 9999-12-30 a Thursday, so the weekend shift never leaves the calendar |
| BirthdayCommands.CongratulationDate | assistant/birthdays.py:109-114 | fails, with `ValueError`, exactly when this year's anniversary is not a date |
| BirthdayCommands.CongratulationOnWeekday | assistant/birthdays.py:111-114 | the congratulation date is a weekday 0-2 days after the anniversary: the anniversary itself Monday to Friday, the Monday after it on a Saturday (+2) or a Sunday (+1) |
| BirthdayCommands.WeekendShift | assistant/birthdays.py:114 | `7 - weekday` days after a weekend day is a valid Monday, later than the day |
| BirthdayCommands.ShiftCrossesYearEnd | assistant/birthdays.py:114 | the shift can cross a year boundary: Saturday 2022-12-31 gives Monday 2023-01-02 |
| BirthdayCommands.LeapDayBirthday | assistant/birthdays.py:110 | a February 29 birthday has an anniversary exactly in leap years |
| BirthdayCommands.VisitItem | assistant/birthdays.py:99-106 | one item of `upcoming`: it stops exactly on a birthday with no anniversary, with a `ValueError`; it reminds with the congratulation date when that is not before today; otherwise it skips |
| BirthdayCommands.ReportSound | assistant/birthdays.py:98-106 | every printed line comes from a reminding item |
| BirthdayCommands.ReportComplete | assistant/birthdays.py:98-106 | a walk that raises nothing met no failing item and printed every reminder |
| BirthdayCommands.ReportRaised | assistant/birthdays.py:98-106 | the walk raises exactly when some item fails, and raises the error of the first failing item |
| BirthdayCommands.ReportWithoutStop | assistant/birthdays.py:98-106 | a walk with no failing item raises nothing and prints the line of every reminding item, in order |
| BirthdayCommands.ReportStopsAtFirst | assistant/birthdays.py:98-106 | a walk ends at its first failing item: it prints the reminders of the items before it, in order, nothing after it, and raises that item's error |
| BirthdayCommands.UpcomingSound | assistant/birthdays.py:98-106 | every reminder names a stored record with a birthday and its congratulation date, which is not before today |
| BirthdayCommands.UpcomingComplete | assistant/birthdays.py:98-106 | when nothing fails, every record with a birthday whose congratulation date is today or later gets its reminder, with no upper limit |
| BirthdayCommands.UpcomingStopsAtFirst | assistant/birthdays.py:98-106 | at the first record whose birthday has no anniversary this year, `upcoming` prints exactly what it prints for the records before it (which raise nothing), nothing for later records, and raises the error of building that anniversary |
| BirthdayCommands.UpcomingRaises | assistant/birthdays.py:98-106 | `upcoming` raises exactly when some stored birthday has no anniversary this year, and what it raises is a `ValueError` |
| BirthdayCommands.Birthdays.constructor | assistant/birthdays.py:16-26 | the sub-shell shares the store and the "yes to all" flag, and leaves without confirmation or goodbye (`SubShellPolicy`) |
| BirthdayCommands.Birthdays.Set | assistant/birthdays.py:46-52 | upsert: a new name gets a record with no phones and this birthday; an existing record keeps its phones and only its birthday changes |
| BirthdayCommands.Birthdays.Show | assistant/birthdays.py:61-70 | a missing record is reported; otherwise the birthday or "has no birthday" |
| BirthdayCommands.Birthdays.Clear | assistant/birthdays.py:79-88 | a missing record is reported without asking; a declined confirmation changes nothing; otherwise the birthday becomes `None` and the phones stay |
| BirthdayCommands.Birthdays.Upcoming | assistant/birthdays.py:97-106 | prints exactly the lines of `UpcomingReport` over the store's items in order, and returns the error that stops it, if any |
| BirthdayCommands.Birthdays.Walk | assistant/birthdays.py:98-106 | the loop prints each reminder in item order and stops at the first failing item |
| Assistant.RecordNames | assistant/__init__.py:39-40 | one line per item, its record's name, in order |
| Assistant.AssistantApp.constructor | assistant/__init__.py:16-27 | the application holds the store, both sub-shells and the "yes to all" flag, and keeps the default policy of assistant/common.py:33-34: ask before leaving and say goodbye (`DefaultPolicy`) |
| Assistant.AssistantApp.Hello | assistant/__init__.py:29-33 | prints "Hello!" |
| Assistant.AssistantApp.List | assistant/__init__.py:35-40 | one line per stored record, its name, in the store's order; in a store keyed by name these are the keys |
| Assistant.AssistantApp.PrintNames | assistant/__init__.py:39-40 | the loop prints exactly `RecordNames(items)` |
| Assistant.AssistantApp.DoPhones | assistant/__init__.py:42-50 | the phone sub-shell's prompt becomes the parent prompt plus "phones> ", then one-shot or loop by `Dispatch` |
| Assistant.AssistantApp.DoBirthdays | assistant/__init__.py:59-67 | the birthday sub-shell's prompt becomes the parent prompt plus "birthdays> ", then one-shot or loop by `Dispatch` |
| Assistant.AssistantApp.Wipe | assistant/__init__.py:76-83 | with "yes to all" the store is emptied without asking; otherwise only after confirmation, and a declined confirmation changes nothing |
| Notes.ValidateName | notes/__init__.py:82-85 | rejected with "Name cannot be empty" exactly when blank; otherwise returned unchanged |
| Notes.SameNameRule | notes/__init__.py:82-85 | the contacts name rule accepts exactly what the address book's `Name` accepts, with the same message |
| Notes.ValidatePhone | notes/__init__.py:88-93 | accepted exactly in the format; blank input gets "Phone number cannot be empty", other rejected input the format message; accepted input is kept |
| Notes.PhoneShapePositions | notes/__init__.py:91 | a well-formed number has twelve characters, dashes at positions 3 and 7 and digits elsewhere |
| Notes.PhoneFormatIsNotBlank | notes/__init__.py:89-91 | a formatted number is never blank, so the blank check never hides a valid number |
| Notes.PhoneIsAnchoredAtEnd | notes/__init__.py:91 | after a well-formed number only nothing or a single newline is accepted |
| Notes.HandleError | notes/__init__.py:96-104 | only an argument error is caught (message, then help); any other exception propagates |
| Notes.ParseFailureIsReported | assistant/common.py:67-74 | an argparse failure is reported as its message and then its help, and the session goes on, both under the address book's `onecmd` and under the contacts commands' `handle_error` (notes/__init__.py:96-104) |
| Notes.HandleErrorIsNarrower | notes/__init__.py:96-104 | agrees with the address book's `onecmd` except on a plain `ValueError`, which only the contacts commands let through |
| Notes.ContactLines | notes/__init__.py:197-198 | one "name: phone" line per contact met, in the order met |
| Notes.ContactsCmd.constructor | notes/__init__.py:107-118 | the command set holds the shelf, and leaves without confirmation or goodbye (`SubShellPolicy`) |
| Notes.ContactsCmd.Add | notes/__init__.py:151-156 | an existing name is reported and nothing changes; otherwise the name maps to the phone and no other contact changes |
| Notes.ContactsCmd.Edit | notes/__init__.py:166-171 | an absent name is reported and nothing changes; otherwise only that contact's phone is replaced |
| Notes.ContactsCmd.Delete | notes/__init__.py:181-188 | an absent name is reported without asking; without force a declined confirmation changes nothing; otherwise exactly that key is removed |
| Notes.ContactsCmd.Wipe | notes/__init__.py:205-209 | the shelf is emptied exactly when force is given or the user confirms |
| Notes.ContactsCmd.List | notes/__init__.py:193-198 | every contact printed exactly once, in some order of the shelf's keys |
| Notes.NotesApp.constructor | notes/__init__.py:216-221 | the application holds the contacts command set over the shelf and the console, and keeps the default policy of notes/__init__.py:41-42: ask before leaving and say goodbye (`DefaultPolicy`) |
| Notes.NotesApp.Hello | notes/__init__.py:223-227 | prints "Hello!" |
| Notes.NotesApp.DoContacts | notes/__init__.py:229-237 | the contacts prompt becomes the parent prompt plus "contacts> ", then one-shot or loop by `Dispatch`; the contacts are untouched |

## Left out

- Argument tokenising and parsing (`shlex`, `argparse`, help and usage text) are library calls. Commands take parsed arguments. An argparse failure is the abstract `CmdArgumentError` of `Shell.ParserError`. A `shlex.split` failure is the plain `ValueError` case of `Shell.Exception`, with the library's message. Every validator used as an argparse `type` raises a `ValueError`: the contacts validators and the address book's `Name`, `PhoneNumber` and `Birthday` (`InvalidNameError`, `InvalidPhoneError`, `InvalidBirthdayError`). Argparse catches each and reports its own "argument ...: invalid ... value" message instead, so the messages of `Model.MakeName`, `Model.MakePhoneNumber`, `Model.MakeBirthday`, `Notes.ValidateName` and `Notes.ValidatePhone` are not what the user sees from a command. That wording is not modelled.
- `Birthday` text parsing (`strptime` with `%Y.%m.%d`) is library code. `Model.MakeBirthday` takes the year, month and day the parser would produce.
- `strftime` output is not modelled. Lines carrying dates are `Shell.BornOn` and `Shell.Reminder`, which hold the dates themselves. The prompt text passed to `input()` by `confirm` is not modelled either.
- The `cmd.Cmd` loop and dispatch, `do_help`, tab completion, `readline` history and init files, `atexit` and both `main()` functions are I/O plumbing. The model keeps only the decision rules: `Shell.Exit`, `Shell.EndOfInput`, `Shell.Interrupted`, `Shell.OneCmd`, `Shell.Dispatch`. `Dispatch` returns the delegation; the nested command itself is not run.
- The environment (`USER`, the database directory) is not modelled. The top-level prompt that `main()` sets is an ordinary `prompt` field.
- `date.today()` is a clock read. `Birthdays.Upcoming` takes today's date as a parameter, a `Calendar.ValidDate`.
- `shelve` and `pickle` formats and per-key durability are not modelled. `ShelveRepo` has the same map contract as `PickleRepo`, so both are `Repos.Repo`. The order in which a shelve database enumerates its keys is modelled as insertion order. The pickle file is an abstract `Snapshot`.
- Store I/O failures are not modelled: a pickle file that exists but cannot be read or unpickled makes `PickleRepo.__enter__` raise (only a missing file starts empty), and a failed write in `__exit__` loses the data. `Repos.Repo.Enter` takes either a snapshot or no file; `Repos.Repo.Exit` always succeeds.
- Repos.Repo.Get: drops `get`'s `default` argument, which no caller passes; an absent key gives `None`, the default's default.
- Object aliasing between a `PickleRepo`'s dict and the records it hands out is not modelled. Records are values written back with `set`. Every mutating command calls `set` right after mutating, except when nothing changes. `do_edit` assigns the fields of the stored `Phone` object in place; the model replaces the phone at that index with the edited value.
- Python's `\d` also matches non-ASCII decimal digits. Both phone rules are modelled with ASCII digits only.
- `str.lower` is modelled on ASCII letters only. No other character lowers to "y" or "n", so `confirm` is unaffected.
- `Notes.ContactsCmd.List`: the shelf's iteration order is left open. The method chooses the next key arbitrarily, and its contract holds for any order.
- Model.RecordText: states the text only for records with no phone or one phone. The general case is `Join` of the phone texts with "; ".
- The contacts application's `confirm`, `error`, argument error and parser, and its `Cmd`'s `do_exit`, `do_EOF`, `cmdloop` and `goodbye`, are copies of the address book's. They are modelled once, in `Shell`.
- The contacts application's `Cmd` has no `onecmd` override, so `Shell.OneCmd` does not apply to it: `Notes.HandleError` is the only handler around a contacts command. Whatever it lets through, such as the plain `ValueError` of an unbalanced quote, passes `cmd.Cmd.onecmd` and `cmdloop` (which catches only `KeyboardInterrupt`) and ends the contacts application. The model states what `Notes.HandleError` propagates; the crash itself is not modelled.
- `main()` hands a raw `shelve.Shelf` to `Phones`, `Birthdays` and `AssistantApp`, not a `ShelveRepo` or `PickleRepo`. `Phones` and `Birthdays` declare `repos.Repo[Record]`, and the model follows that type. A `Shelf` has no `set` method, so with that wiring every phone or birthday command that stores a record raises `AttributeError`, which `onecmd` does not catch. `AssistantApp` declares `shelve.Shelf` itself; its `list` and `wipe` use only `items()` and `clear()`, which a `Shelf` has, so they work as wired. The model gives the app the same `Repos.Repo` as its sub-shells. The wiring itself is not modelled.
