/** The older contacts application (notes/__init__.py): a shelf mapping a
    contact's name to a phone number written XXX-XXX-XXXX, with add, edit,
    delete, wipe and list commands. */
module Notes {
  import opened Outcomes
  import opened PyText
  import opened Model
  import opened Repos
  import opened Shell

  /** `name(s)`: the argument type of every contact name. */
  function ValidateName(s: string): (r: Result<string, string>)
    ensures r.Success? <==> exists k :: 0 <= k < |s| && !IsSpace(s[k])
    ensures r.Success? ==> r.value == s
    ensures r.Failure? ==> r.error == "Name cannot be empty"
  {
    BlankIffAllSpace(s);
    if IsBlank(s) then Failure("Name cannot be empty") else Success(s)
  }

  /** The contacts application accepts exactly the names the address book
      accepts, so a contact name is a `Model.Name`. */
  lemma SameNameRule(s: string)
    ensures ValidateName(s).Success? <==> MakeName(s).Success?
    ensures ValidateName(s).Failure? ==> MakeName(s).error.message == ValidateName(s).error
  {
  }

  /** `\d{3}-\d{3}-\d{4}` matching the whole of `t`. */
  predicate PhoneShape(t: string) {
    && |t| == 12
    && DigitsAt(t, 0, 3) && t[3] == '-'
    && DigitsAt(t, 4, 3) && t[7] == '-'
    && DigitsAt(t, 8, 4)
  }

  /** `re.match(r"^\d{3}-\d{3}-\d{4}$", s)`: `$` also matches just before a
      newline that ends the string. */
  predicate PhoneFormat(s: string) {
    PhoneShape(s) || (|s| == 13 && s[12] == '\n' && PhoneShape(s[..12]))
  }

  /** A well-formed number: twelve characters, dashes at positions 3 and 7
      and ASCII digits everywhere else. */
  lemma PhoneShapePositions(t: string)
    ensures PhoneShape(t) <==>
      |t| == 12 && forall i :: 0 <= i < 12 ==> if i == 3 || i == 7 then t[i] == '-' else IsDigit(t[i])
  {
    if |t| == 12 {
      DigitsAtIff(t, 0, 3);
      DigitsAtIff(t, 4, 3);
      DigitsAtIff(t, 8, 4);
    }
  }

  /** `phone(s)`: blank input is refused first, then anything not in the
      format; an accepted number is kept as typed. */
  function ValidatePhone(s: string): (r: Result<string, string>)
    ensures r.Success? <==> PhoneFormat(s)
    ensures r.Success? ==> r.value == s
    ensures r.Failure? && IsBlank(s) ==> r.error == "Phone number cannot be empty"
    ensures r.Failure? && !IsBlank(s) ==> r.error == "Phone number must be in the format XXX-XXX-XXXX"
  {
    if IsBlank(s) then
      PhoneFormatIsNotBlank(s);
      Failure("Phone number cannot be empty")
    else if !PhoneFormat(s) then Failure("Phone number must be in the format XXX-XXX-XXXX")
    else Success(s)
  }

  /** A formatted number starts with a digit, so it is never blank. */
  lemma PhoneFormatIsNotBlank(s: string)
    ensures PhoneFormat(s) ==> !IsBlank(s)
  {
    if PhoneFormat(s) {
      assert IsDigit(s[0]);
      BlankIffAllSpace(s);
    }
  }

  /** Unlike the address book's phone rule, the match is anchored at the
      end: after a well-formed number only a single newline may follow. */
  lemma PhoneIsAnchoredAtEnd(t: string, rest: string)
    requires PhoneShape(t)
    ensures PhoneFormat(t + rest) <==> rest == "" || rest == "\n"
  {
    var s := t + rest;
    if rest == "\n" {
      assert s[..12] == t;
    }
    if rest == "" {
      assert s == t;
    }
  }

  /** A phone number the contacts application accepts. */
  type ContactPhone = s: string | PhoneFormat(s) witness "000-000-0000"

  /** `handle_error`: only an argument error is caught (its message, then
      the parser's help, on standard error); any other exception, a
      `ValueError` included, goes through. */
  function HandleError(o: Outcome): (h: Handled)
    ensures h.Propagated? <==> o.Raised? && !o.e.CmdArgumentError?
    ensures h.Propagated? ==> h.e == o.e
    ensures o.Returned? ==> h == Handled(o.stop, [])
    ensures o.Raised? && o.e.CmdArgumentError? ==> h == Handled(false, [o.e.message, o.e.help])
  {
    match o
    case Returned(stop) => Handled(stop, [])
    case Raised(CmdArgumentError(message, help)) => Handled(false, [message, help])
    case Raised(e) => Propagated(e)
  }

  /** The contacts commands handle errors as the address book's `onecmd`
      does, except that a plain `ValueError` escapes them. */
  lemma HandleErrorIsNarrower(o: Outcome)
    ensures !(o.Raised? && o.e.ValueError?) ==> HandleError(o) == OneCmd(o)
    ensures o.Raised? && o.e.ValueError? ==> HandleError(o).Propagated? && OneCmd(o).Handled?
  {
  }

  /** A parse failure is reported, message then help, and never ends the
      session, in the address book and in the contacts commands alike. */
  lemma ParseFailureIsReported(message: string, formattedHelp: string)
    ensures OneCmd(Raised(ParserError(message, formattedHelp))) == Handled(false, [message, formattedHelp])
    ensures HandleError(Raised(ParserError(message, formattedHelp))) == Handled(false, [message, formattedHelp])
  {
  }

  /** The line `list` prints for one contact. */
  function ContactLine(name: string, phone: string): (line: Line) {
    Text(name + ": " + phone)
  }

  /** The lines `list` prints when it meets the contacts in `order`. */
  function ContactLines(order: seq<string>, contacts: map<string, string>): (lines: seq<Line>)
    requires forall k :: k in order ==> k in contacts
    ensures |lines| == |order|
    ensures forall i :: 0 <= i < |order| ==> lines[i] == ContactLine(order[i], contacts[order[i]])
  {
    if order == [] then [] else [ContactLine(order[0], contacts[order[0]])] + ContactLines(order[1..], contacts)
  }

  /** Meeting one more contact adds its line at the end. */
  lemma {:induction false} ContactLinesSnoc(order: seq<string>, k: string, contacts: map<string, string>)
    requires forall j :: j in order ==> j in contacts
    requires k in contacts
    ensures ContactLines(order + [k], contacts) == ContactLines(order, contacts) + [ContactLine(k, contacts[k])]
  {
    var lines := ContactLines(order + [k], contacts);
    var expected := ContactLines(order, contacts) + [ContactLine(k, contacts[k])];
    forall i | 0 <= i < |lines| ensures lines[i] == expected[i] {
      assert (order + [k])[i] == if i < |order| then order[i] else k;
    }
  }

  class ContactsCmd {
    /** The shelf, a mapping held by the command set and changed in place. */
    var contacts: map<string, string>
    const console: Console
    var prompt: string

    /** Leaves without confirmation and without a goodbye. */
    const policy: Policy

    constructor (contacts: map<string, string>, console: Console)
      ensures this.contacts == contacts && this.console == console
      ensures policy == SubShellPolicy
    {
      this.contacts, this.console := contacts, console;
      policy := SubShellPolicy;
      prompt := "(Cmd) ";
    }

    /** `add NAME PHONE`: an existing contact is reported and kept;
        otherwise the name is mapped to the number. */
    method Add(name: Name, phone: ContactPhone)
      modifies this, console
      ensures name in old(contacts) ==>
        && contacts == old(contacts)
        && console.err == old(console.err) + ["Contact " + name + " already exists"]
        && console.out == old(console.out)
      ensures name !in old(contacts) ==>
        && contacts == old(contacts)[name := phone]
        && console.out == old(console.out) + [Text("Added " + name + " with phone number " + phone)]
        && console.err == old(console.err)
      ensures console.input == old(console.input) && prompt == old(prompt)
    {
      if name in contacts {
        console.Error("Contact " + name + " already exists");
        return;
      }
      contacts := contacts[name := phone];
      console.Print(Text("Added " + name + " with phone number " + phone));
    }

    /** `edit NAME PHONE`: a missing contact is reported; otherwise only
        that contact's number is replaced. */
    method Edit(name: Name, phone: ContactPhone)
      modifies this, console
      ensures name !in old(contacts) ==>
        && contacts == old(contacts)
        && console.err == old(console.err) + ["Contact " + name + " does not exist"]
        && console.out == old(console.out)
      ensures name in old(contacts) ==>
        && contacts == old(contacts)[name := phone]
        && console.out == old(console.out) + [Text("Updated " + name + " with phone number " + phone)]
        && console.err == old(console.err)
      ensures contacts.Keys == old(contacts).Keys
      ensures console.input == old(console.input) && prompt == old(prompt)
    {
      if name !in contacts {
        console.Error("Contact " + name + " does not exist");
        return;
      }
      contacts := contacts[name := phone];
      console.Print(Text("Updated " + name + " with phone number " + phone));
    }

    /** `delete NAME [--force]`: a missing contact is reported without
        asking; without `--force` the user must confirm; then exactly that
        contact is removed. */
    method Delete(name: Name, force: bool)
      modifies this, console
      ensures name !in old(contacts) ==>
        && contacts == old(contacts)
        && console.input == old(console.input)
        && console.err == old(console.err) + ["Contact " + name + " does not exist"]
        && console.out == old(console.out)
      ensures name in old(contacts) ==>
        var confirmed := force || Answer(old(console.input));
        && console.input == (if force then old(console.input) else old(console.input)[AnswerLength(old(console.input))..])
        && console.err == old(console.err)
        && (!confirmed ==> contacts == old(contacts) && console.out == old(console.out))
        && (confirmed ==>
             && contacts == old(contacts) - {name}
             && console.out == old(console.out) + [Text("Deleted " + name)])
      ensures prompt == old(prompt)
    {
      if name !in contacts {
        console.Error("Contact " + name + " does not exist");
        return;
      }
      if !force {
        var confirmed := console.Confirm();
        if !confirmed {
          return;
        }
      }
      contacts := contacts - {name};
      console.Print(Text("Deleted " + name));
    }

    /** `wipe [--force]`: the shelf is emptied exactly when `--force` is
        given or the user confirms. */
    method Wipe(force: bool)
      modifies this, console
      ensures var confirmed := force || Answer(old(console.input));
        && console.input == (if force then old(console.input) else old(console.input)[AnswerLength(old(console.input))..])
        && console.err == old(console.err)
        && (!confirmed ==> contacts == old(contacts) && console.out == old(console.out))
        && (confirmed ==>
             && contacts == map[]
             && console.out == old(console.out) + [Text("All contacts deleted")])
      ensures prompt == old(prompt)
    {
      if !force {
        var confirmed := console.Confirm();
        if !confirmed {
          return;
        }
      }
      contacts := map[];
      console.Print(Text("All contacts deleted"));
    }

    /** `list`: one "name: phone" line per contact, each contact once, in
        the shelf's own order, which is left open: `order` is the order the
        contacts were met in. */
    method List() returns (ghost order: seq<string>)
      modifies console
      ensures Distinct(order) && forall k :: k in order <==> k in contacts
      ensures console.out == old(console.out) + ContactLines(order, contacts)
      ensures console.input == old(console.input) && console.err == old(console.err)
    {
      var remaining := contacts.Keys;
      order := [];
      while remaining != {}
        invariant remaining <= contacts.Keys
        invariant forall k :: k in order <==> k in contacts && k !in remaining
        invariant Distinct(order)
        invariant console.out == old(console.out) + ContactLines(order, contacts)
        invariant console.input == old(console.input) && console.err == old(console.err)
        decreases |remaining|
      {
        var k :| k in remaining;
        ContactLinesSnoc(order, k, contacts);
        console.Print(ContactLine(k, contacts[k]));
        order := order + [k];
        remaining := remaining - {k};
      }
    }
  }

  class NotesApp {
    const contactsCmd: ContactsCmd
    const console: Console
    var prompt: string

    /** Asks before leaving and says goodbye. */
    const policy: Policy

    constructor (contactsCmd: ContactsCmd, console: Console)
      ensures this.contactsCmd == contactsCmd && this.console == console
      ensures policy == DefaultPolicy
    {
      this.contactsCmd, this.console := contactsCmd, console;
      policy := DefaultPolicy;
      prompt := "(Cmd) ";
    }

    /** `hello`. */
    method Hello()
      modifies console
      ensures console.out == old(console.out) + [Text("Hello!")]
      ensures console.input == old(console.input) && console.err == old(console.err)
    {
      console.Print(Text("Hello!"));
    }

    /** `contacts [COMMAND]`: the contacts prompt becomes this shell's
        prompt followed by "contacts> ", then the argument runs as one
        command, or the contacts loop starts when there is none. */
    method DoContacts(arg: string) returns (d: Delegation)
      modifies contactsCmd
      ensures contactsCmd.prompt == NestedPrompt(prompt, "contacts> ")
      ensures contactsCmd.contacts == old(contactsCmd.contacts)
      ensures d == Dispatch(arg)
    {
      contactsCmd.prompt := prompt + "contacts> ";
      d := Dispatch(arg);
    }
  }
}
