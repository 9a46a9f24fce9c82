/** The address book's value types and the `Record` aggregate
    (assistant/model.py). Validating constructors become functions returning
    a `Result`; a `Record` is a value, and each of its mutators returns the
    updated record. */
module Model {
  import opened Outcomes
  import opened PyText
  import opened Calendar

  /** `ModelError` and its three subclasses, with their messages. */
  datatype ModelError =
    | InvalidName(message: string)
    | InvalidPhone(message: string)
    | InvalidBirthday(message: string)

  /** A list index out of range, as Python raises it on assignment or `del`. */
  datatype IndexError = IndexError(message: string)

  const ListIndexMessage := "list assignment index out of range"

  /** A validated name: text that is not blank. The text itself is kept as given. */
  type Name = s: string | !IsBlank(s) witness "?"

  /** Text accepted by `re.match(r"\d{10}", s)`: it starts with ten digits;
      whatever follows them is not looked at. */
  predicate StartsWithTenDigits(s: string) {
    DigitsAt(s, 0, 10)
  }

  /** A validated phone number (`PhoneValue`). */
  type PhoneNumber = s: string | StartsWithTenDigits(s) witness "0000000000"

  /** A validated birthday: a date Python can represent. */
  type Birthday = ValidDate

  /** `Name(s)`: rejects a string with no character other than white space,
      and otherwise keeps it exactly as given (untrimmed). */
  function MakeName(s: string): (r: Result<Name, ModelError>)
    ensures r.Success? <==> exists k :: 0 <= k < |s| && !IsSpace(s[k])
    ensures r.Success? ==> r.value == s
    ensures r.Failure? ==> r.error == InvalidName("Name cannot be empty")
  {
    BlankIffAllSpace(s);
    if IsBlank(s) then Failure(InvalidName("Name cannot be empty")) else Success(s)
  }

  /** `PhoneValue(s)`: accepts exactly the strings whose first ten characters
      are digits, and keeps the whole string, trailing characters included. */
  function MakePhoneNumber(s: string): (r: Result<PhoneNumber, ModelError>)
    ensures r.Success? <==> |s| >= 10 && forall k :: 0 <= k < 10 ==> IsDigit(s[k])
    ensures r.Success? ==> r.value == s
    ensures r.Failure? ==> r.error == InvalidPhone("Invalid phone number format")
  {
    DigitsAtIff(s, 0, 10);
    if StartsWithTenDigits(s) then Success(s) else Failure(InvalidPhone("Invalid phone number format"))
  }

  /** The anchoring is only at the start: a longer string that begins with
      ten digits is a valid phone number, a shorter one is not. */
  lemma PhoneMatchIsUnanchoredAtEnd()
    ensures MakePhoneNumber("1234567890x") == Success("1234567890x")
    ensures MakePhoneNumber("12345678901234") == Success("12345678901234")
    ensures MakePhoneNumber("123456789").Failure?
    ensures MakePhoneNumber("x1234567890").Failure?
  {
    assert !IsDigit('x');
  }

  /** `Birthday(text)`: the text is parsed by the library into year, month
      and day; the date is accepted when the calendar has it. */
  function MakeBirthday(year: int, month: int, day: int): (r: Result<Birthday, ModelError>)
    ensures r.Success? <==>
      (MinYear <= year <= MaxYear && 1 <= month <= 12 && 1 <= day <= DaysInMonth(year, month))
    ensures r.Success? ==> r.value == Date(year, month, day)
    ensures r.Failure? ==> r.error.InvalidBirthday?
  {
    var d := Date(year, month, day);
    if d.Valid() then Success(d) else Failure(InvalidBirthday("Invalid date format. Use DD.MM.YYYY"))
  }

  /** `PhoneType`, a string enumeration. */
  datatype PhoneType = Home | Mobile | Work {
    /** The enumeration value (`str(t)`). */
    function Text(): (text: string) {
      match this
      case Home => "home"
      case Mobile => "mobile"
      case Work => "work"
    }
  }

  /** `PhoneType(s)`: look a member up by its value. */
  function ParsePhoneType(s: string): (r: Option<PhoneType>)
    ensures r.Some? ==> r.value.Text() == s
  {
    if s == "home" then Some(Home)
    else if s == "mobile" then Some(Mobile)
    else if s == "work" then Some(Work)
    else None
  }

  /** Every member is found by its own value, and only by it. */
  lemma {:induction false} PhoneTypeRoundTrip(t: PhoneType, s: string)
    ensures ParsePhoneType(t.Text()) == Some(t)
    ensures ParsePhoneType(s) == Some(t) <==> s == t.Text()
  {
    match t
    case Home =>
    case Mobile =>
    case Work =>
  }

  /** A phone entry: its number and its type. */
  datatype Phone = Phone(number: PhoneNumber, kind: PhoneType)

  /** `str(phone)`: the number followed by the type in parentheses. */
  function PhoneText(p: Phone): (r: string)
    ensures |p.number| <= |r| && r[..|p.number|] == p.number
    ensures r[|p.number|..] == " (" + p.kind.Text() + ")"
  {
    p.number + " (" + p.kind.Text() + ")"
  }

  /** The position a Python list index denotes in a list of length `n`:
      negative indices count from the end; anything else is out of range. */
  function ListPosition(i: int, n: nat): (r: Option<nat>)
    ensures r.Some? <==> -(n as int) <= i < n
    ensures r.Some? ==> r.value < n && (r.value == i || r.value == i + n)
  {
    if 0 <= i < n then Some(i) else if -(n as int) <= i < 0 then Some(i + n) else None
  }

  /** A contact: its name, its phones in insertion order, and an optional
      birthday. `Record(name, [], None)` is `Record(name)`: no phones and no
      birthday. */
  datatype Record = Record(name: Name, phones: seq<Phone>, birthday: Option<Birthday>) {

    /** `add_phone`: the new phone goes at the end; the earlier ones keep
        their places and nothing else changes. */
    function AddPhone(p: Phone): (r: Record)
      ensures |r.phones| == |phones| + 1
      ensures r.phones[|phones|] == p
      ensures forall k :: 0 <= k < |phones| ==> r.phones[k] == phones[k]
      ensures r.name == name && r.birthday == birthday
    {
      this.(phones := phones + [p])
    }

    /** `edit_phone`: replaces the phone at index `i` and only it; an index
        outside the list raises `IndexError`. */
    function EditPhone(i: int, p: Phone): (r: Result<Record, IndexError>)
      ensures r.Success? <==> -|phones| <= i < |phones|
      ensures r.Failure? ==> r.error == IndexError(ListIndexMessage)
      ensures r.Success? ==>
        var pos := ListPosition(i, |phones|).value;
        && |r.value.phones| == |phones|
        && r.value.phones[pos] == p
        && (forall k :: 0 <= k < |phones| && k != pos ==> r.value.phones[k] == phones[k])
        && r.value.name == name && r.value.birthday == birthday
    {
      match ListPosition(i, |phones|)
      case None => Failure(IndexError(ListIndexMessage))
      case Some(pos) => Success(this.(phones := phones[pos := p]))
    }

    /** `delete_phone`: removes the phone at index `i`; the phones after it
        move down by one. An index outside the list raises `IndexError`. */
    function DeletePhone(i: int): (r: Result<Record, IndexError>)
      ensures r.Success? <==> -|phones| <= i < |phones|
      ensures r.Failure? ==> r.error == IndexError(ListIndexMessage)
      ensures r.Success? ==>
        var pos := ListPosition(i, |phones|).value;
        && |r.value.phones| == |phones| - 1
        && (forall k :: 0 <= k < pos ==> r.value.phones[k] == phones[k])
        && (forall k :: pos <= k < |phones| - 1 ==> r.value.phones[k] == phones[k + 1])
        && r.value.name == name && r.value.birthday == birthday
    {
      match ListPosition(i, |phones|)
      case None => Failure(IndexError(ListIndexMessage))
      case Some(pos) => Success(this.(phones := phones[..pos] + phones[pos + 1..]))
    }

    /** `set_birthday`: only the birthday changes. */
    function SetBirthday(b: Birthday): (r: Record)
      ensures r.birthday == Some(b)
      ensures r.name == name && r.phones == phones
    {
      this.(birthday := Some(b))
    }

    /** `clear_birthday`: the birthday becomes `None`; the phones stay. */
    function ClearBirthday(): (r: Record)
      ensures r.birthday.None?
      ensures r.name == name && r.phones == phones
    {
      this.(birthday := None)
    }
  }

  function PhoneTexts(ps: seq<Phone>): (r: seq<string>)
    ensures |r| == |ps| && forall k :: 0 <= k < |ps| ==> r[k] == PhoneText(ps[k])
  {
    if ps == [] then [] else [PhoneText(ps[0])] + PhoneTexts(ps[1..])
  }

  /** `str(record)`: the name, then the phones joined by "; ". */
  function RecordText(r: Record): (t: string)
    ensures |r.phones| == 1 ==> t == "Contact name: " + r.name + ", phones: " + PhoneText(r.phones[0])
    ensures r.phones == [] ==> t == "Contact name: " + r.name + ", phones: "
  {
    "Contact name: " + r.name + ", phones: " + Join("; ", PhoneTexts(r.phones))
  }

  /** The store's own invariant: every record is filed under its own name. */
  ghost predicate KeyedByName(book: map<string, Record>) {
    forall k :: k in book ==> book[k].name == k
  }
}
