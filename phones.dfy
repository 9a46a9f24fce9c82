/** The "phones" sub-shell (assistant/phones.py): each command reads a
    record from the shared store, changes it and stores it again. Commands
    take their arguments already parsed and validated; a failed parse is
    an argument error handled by `Shell.OneCmd`. */
module PhoneCommands {
  import opened Outcomes
  import opened PyText
  import opened Model
  import opened Repos
  import opened Shell

  /** The line `show` prints for the phone at index `i`. */
  function ShowLine(i: int, p: Phone): (line: Line) {
    Text(IntText(i) + ": " + PhoneText(p))
  }

  /** The lines `show` prints for `phones`, numbered from `first`. */
  function Listing(phones: seq<Phone>, first: nat): (lines: seq<Line>)
    ensures |lines| == |phones|
    ensures forall k :: 0 <= k < |phones| ==> lines[k] == ShowLine(first + k, phones[k])
  {
    if phones == [] then []
    else [ShowLine(first, phones[0])] + Listing(phones[1..], first + 1)
  }

  /** Listing one more phone adds one line, numbered after the others. */
  lemma ListingSnoc(phones: seq<Phone>, first: nat, p: Phone)
    ensures Listing(phones + [p], first) == Listing(phones, first) + [ShowLine(first + |phones|, p)]
  {
    var a, b := Listing(phones + [p], first), Listing(phones, first) + [ShowLine(first + |phones|, p)];
    assert |a| == |b|;
    forall k | 0 <= k < |a| ensures a[k] == b[k] {
      if k < |phones| {
        assert (phones + [p])[k] == phones[k];
      }
    }
  }

  /** The phone at an index after `edit`: the number and the type that were
      supplied replace the old ones; what was not supplied stays. */
  function Edited(p: Phone, number: Option<PhoneNumber>, kind: Option<PhoneType>): (q: Phone)
    ensures number.Some? ==> q.number == number.value
    ensures number.None? ==> q.number == p.number
    ensures kind.Some? ==> q.kind == kind.value
    ensures kind.None? ==> q.kind == p.kind
  {
    var withNumber := if number.Some? then p.(number := number.value) else p;
    if kind.Some? then withNumber.(kind := kind.value) else withNumber
  }

  /** The type `add` gives a phone when none is named. */
  const DefaultPhoneType := Mobile

  class Phones {
    const book: Repo<Record>
    const console: Console
    /** The session-wide "yes to all" flag. */
    const yes: bool
    var prompt: string
    /** Leaves without confirmation and without a goodbye. */
    const policy: Policy

    constructor (book: Repo<Record>, console: Console, yes: bool)
      ensures this.book == book && this.console == console && this.yes == yes
      ensures policy == SubShellPolicy
    {
      this.book, this.console, this.yes := book, console, yes;
      policy := SubShellPolicy;
      prompt := "(Cmd) ";
    }

    /** `add NAME PHONE [--type TYPE]`: a new name gets a record holding just
        this phone; an existing record gets it appended after its phones. */
    method Add(name: Name, number: PhoneNumber, kind: PhoneType := DefaultPhoneType)
      requires book.Valid()
      modifies book, console
      ensures book.Valid()
      ensures name !in old(book.values) ==>
        book.values == old(book.values)[name := Record(name, [Phone(number, kind)], None)]
      ensures name in old(book.values) ==>
        book.values == old(book.values)[name := old(book.values)[name].AddPhone(Phone(number, kind))]
      ensures book.keys == if name in old(book.values) then old(book.keys) else old(book.keys) + [name]
      ensures KeyedByName(old(book.values)) ==> KeyedByName(book.values)
      ensures console.out == old(console.out) + [Text("New phone number " + number + " has been added to " + name)]
      ensures console.input == old(console.input) && console.err == old(console.err)
    {
      var found := book.Get(name);
      var record := if found.Some? then found.value else Record(name, [], None);
      assert [] + [Phone(number, kind)] == [Phone(number, kind)];
      record := record.AddPhone(Phone(number, kind));
      book.Set(name, record);
      console.Print(Text("New phone number " + number + " has been added to " + name));
    }

    /** `edit NAME INDEX [--phone PHONE] [--type TYPE]`: a missing record or
        an index outside 0..n-1 (negative ones included) is reported and
        nothing changes; otherwise only the supplied fields of that phone
        change, and with none supplied nothing is written. */
    method Edit(name: Name, index: int, number: Option<PhoneNumber>, kind: Option<PhoneType>)
      requires book.Valid()
      modifies book, console
      ensures book.Valid()
      ensures name !in old(book.values) ==>
        && unchanged(book)
        && console.err == old(console.err) + ["Record " + name + " does not exist"]
        && console.out == old(console.out)
      ensures name in old(book.values) && !(0 <= index < |old(book.values)[name].phones|) ==>
        && unchanged(book)
        && console.err == old(console.err) + ["Phone number index " + IntText(index) + " out of range"]
        && console.out == old(console.out)
      ensures name in old(book.values) && 0 <= index < |old(book.values)[name].phones| ==>
        var record := old(book.values)[name];
        && console.err == old(console.err)
        && (number.None? && kind.None? ==>
             && unchanged(book)
             && console.out == old(console.out) + [Text("Nothing to update for " + name)])
        && (number.Some? || kind.Some? ==>
             && book.values == old(book.values)[name := record.EditPhone(index, Edited(record.phones[index], number, kind)).value]
             && book.keys == old(book.keys)
             && console.out == old(console.out) + [Text("Record " + name + " has been updated")])
      ensures KeyedByName(old(book.values)) ==> KeyedByName(book.values)
      ensures console.input == old(console.input)
    {
      var found := book.Get(name);
      if found.None? {
        console.Error("Record " + name + " does not exist");
        return;
      }
      var record := found.value;
      if !(0 <= index < |record.phones|) {
        console.Error("Phone number index " + IntText(index) + " out of range");
        return;
      }
      var phone := record.phones[index];
      var updated := false;
      if number.Some? {
        phone := phone.(number := number.value);
        updated := true;
      }
      if kind.Some? {
        phone := phone.(kind := kind.value);
        updated := true;
      }
      if updated {
        book.Set(name, record.EditPhone(index, phone).value);
        console.Print(Text("Record " + name + " has been updated"));
      } else {
        console.Print(Text("Nothing to update for " + name));
      }
    }

    /** `show NAME`: the phones in order, each with its index 0..n-1, after a
        notice when there are none; a missing record is reported. */
    method Show(name: Name)
      requires book.Valid()
      modifies console
      ensures name !in book.values ==>
        console.err == old(console.err) + ["Record " + name + " does not exist"]
        && console.out == old(console.out)
      ensures name in book.values ==>
        var phones := book.values[name].phones;
        && console.out == old(console.out)
             + (if phones == [] then [Text("No phone numbers found for " + name)] else [])
             + Listing(phones, 0)
        && console.err == old(console.err)
      ensures console.input == old(console.input)
    {
      var found := book.Get(name);
      if found.None? {
        console.Error("Record " + name + " does not exist");
        return;
      }
      var phones := found.value.phones;
      if phones == [] {
        console.Print(Text("No phone numbers found for " + name));
      }
      PrintListing(phones);
    }

    /** The `for i, phone in enumerate(record.phones)` loop of `show`. */
    method PrintListing(phones: seq<Phone>)
      modifies console
      ensures console.out == old(console.out) + Listing(phones, 0)
      ensures console.input == old(console.input) && console.err == old(console.err)
    {
      for i := 0 to |phones|
        invariant console.out == old(console.out) + Listing(phones[..i], 0)
        invariant console.input == old(console.input) && console.err == old(console.err)
      {
        console.Print(ShowLine(i, phones[i]));
        assert phones[..i + 1] == phones[..i] + [phones[i]];
        ListingSnoc(phones[..i], 0, phones[i]);
      }
      assert phones[..|phones|] == phones;
    }

    /** `delete NAME INDEX`: a missing record is reported without asking;
        otherwise, unless "yes to all" is on, the user is asked first, and
        only then is the index checked. A confirmed, valid delete removes
        exactly that phone and stores the record again, even with no phones
        left. */
    method Delete(name: Name, index: int)
      requires book.Valid()
      modifies book, console
      ensures book.Valid()
      ensures name !in old(book.values) ==>
        && unchanged(book)
        && console.input == old(console.input)
        && console.err == old(console.err) + ["Record " + name + " does not exist"]
        && console.out == old(console.out)
      ensures name in old(book.values) ==>
        var record := old(book.values)[name];
        var confirmed := yes || Answer(old(console.input));
        && console.input == (if yes then old(console.input) else old(console.input)[AnswerLength(old(console.input))..])
        && (!confirmed ==> unchanged(book) && console.out == old(console.out) && console.err == old(console.err))
        && (confirmed && !(0 <= index < |record.phones|) ==>
             && unchanged(book)
             && console.err == old(console.err) + ["Phone number index " + IntText(index) + " out of range"]
             && console.out == old(console.out))
        && (confirmed && 0 <= index < |record.phones| ==>
             && book.values == old(book.values)[name := record.DeletePhone(index).value]
             && book.keys == old(book.keys)
             && console.out == old(console.out) + [Text("Deleted " + name)]
             && console.err == old(console.err))
      ensures name in old(book.values) ==> name in book.values
      ensures KeyedByName(old(book.values)) ==> KeyedByName(book.values)
    {
      var found := book.Get(name);
      if found.None? {
        console.Error("Record " + name + " does not exist");
        return;
      }
      var record := found.value;
      if !yes {
        var confirmed := console.Confirm();
        if !confirmed {
          return;
        }
      }
      if !(0 <= index < |record.phones|) {
        console.Error("Phone number index " + IntText(index) + " out of range");
        return;
      }
      book.Set(name, record.DeletePhone(index).value);
      console.Print(Text("Deleted " + name));
    }
  }
}
