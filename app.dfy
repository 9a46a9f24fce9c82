/** The top-level assistant shell (assistant/__init__.py): greeting, listing
    the records, handing a command line to the phone or birthday sub-shell,
    and wiping the whole address book. */
module Assistant {
  import opened Model
  import opened Repos
  import opened Shell
  import opened PhoneCommands
  import opened BirthdayCommands

  /** The line `list` prints for each stored item, in the store's order. */
  function RecordNames(items: seq<(string, Record)>): (lines: seq<Line>)
    ensures |lines| == |items|
    ensures forall k :: 0 <= k < |items| ==> lines[k] == Text(items[k].1.name)
  {
    if items == [] then [] else [Text(items[0].1.name)] + RecordNames(items[1..])
  }

  /** Listing one more item adds its line at the end. */
  lemma {:induction false} RecordNamesSnoc(items: seq<(string, Record)>, i: nat)
    requires i < |items|
    ensures RecordNames(items[..i + 1]) == RecordNames(items[..i]) + [Text(items[i].1.name)]
  {
    var lines := RecordNames(items[..i + 1]);
    var expected := RecordNames(items[..i]) + [Text(items[i].1.name)];
    assert |lines| == |expected|;
    forall k | 0 <= k < |lines| ensures lines[k] == expected[k] {
      assert items[..i + 1][k] == items[k];
    }
  }

  class AssistantApp {
    const book: Repo<Record>
    const phones: Phones
    const birthdays: Birthdays
    const console: Console
    /** The session-wide "yes to all" flag. */
    const yes: bool
    var prompt: string
    /** Asks before leaving and says goodbye. */
    const policy: Policy

    constructor (book: Repo<Record>, phones: Phones, birthdays: Birthdays, console: Console, yes: bool)
      ensures this.book == book && this.phones == phones && this.birthdays == birthdays
      ensures this.console == console && this.yes == yes
      ensures policy == DefaultPolicy
    {
      this.book, this.phones, this.birthdays, this.console, this.yes := book, phones, birthdays, console, yes;
      policy := DefaultPolicy;
      prompt := "(Cmd) ";
    }

    /** `hello`. */
    method Hello()
      modifies console
      ensures console.out == old(console.out) + [Text("Hello!")]
      ensures console.input == old(console.input) && console.err == old(console.err)
    {
      console.Print(Text("Hello!"));
    }

    /** `list`: one line per stored record, its name, in the store's order;
        in a store keyed by name these are the keys themselves. */
    method List()
      requires book.Valid()
      modifies console
      ensures console.out == old(console.out) + RecordNames(book.Items())
      ensures KeyedByName(book.values) ==>
        forall k :: 0 <= k < |book.keys| ==> console.out[|old(console.out)| + k] == Text(book.keys[k])
      ensures console.input == old(console.input) && console.err == old(console.err)
    {
      PrintNames(book.Items());
    }

    /** The loop of `list` over the items `items`. */
    method PrintNames(items: seq<(string, Record)>)
      modifies console
      ensures console.out == old(console.out) + RecordNames(items)
      ensures console.input == old(console.input) && console.err == old(console.err)
    {
      for i := 0 to |items|
        invariant console.out == old(console.out) + RecordNames(items[..i])
        invariant console.input == old(console.input) && console.err == old(console.err)
      {
        RecordNamesSnoc(items, i);
        console.Print(Text(items[i].1.name));
      }
      assert items[..|items|] == items;
    }

    /** `phones [COMMAND]`: the phone sub-shell's prompt becomes this
        shell's prompt followed by "phones> ", then the argument runs as one
        command, or the sub-shell's loop starts when there is none. */
    method DoPhones(arg: string) returns (d: Delegation)
      modifies phones
      ensures phones.prompt == NestedPrompt(prompt, "phones> ")
      ensures d == Dispatch(arg)
    {
      phones.prompt := prompt + "phones> ";
      d := Dispatch(arg);
    }

    /** `birthdays [COMMAND]`: as `phones`, for the birthday sub-shell. */
    method DoBirthdays(arg: string) returns (d: Delegation)
      modifies birthdays
      ensures birthdays.prompt == NestedPrompt(prompt, "birthdays> ")
      ensures d == Dispatch(arg)
    {
      birthdays.prompt := prompt + "birthdays> ";
      d := Dispatch(arg);
    }

    /** `wipe`: with "yes to all" the store is emptied without asking;
        otherwise only after the user confirms, and a declined confirmation
        changes nothing. */
    method Wipe()
      requires book.Valid()
      modifies book, console
      ensures book.Valid()
      ensures var confirmed := yes || Answer(old(console.input));
        && console.input == (if yes then old(console.input) else old(console.input)[AnswerLength(old(console.input))..])
        && console.err == old(console.err)
        && (!confirmed ==> unchanged(book) && console.out == old(console.out))
        && (confirmed ==>
             && book.keys == [] && book.values == map[]
             && console.out == old(console.out) + [Text("All records have been deleted")])
    {
      if !yes {
        var confirmed := console.Confirm();
        if !confirmed {
          return;
        }
      }
      book.Clear();
      console.Print(Text("All records have been deleted"));
    }
  }
}
