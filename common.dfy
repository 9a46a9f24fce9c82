/** The shell framework shared by every command set (assistant/common.py):
    the console the user types into, the yes/no confirmation, the exit
    policy, the interrupt rule and the error handling of one command. */
module Shell {
  import opened Outcomes
  import opened PyText
  import opened Calendar

  /** One line written to standard output. Lines that the program formats
      with `strftime` carry the dates themselves instead of their text. */
  datatype Line =
    | Text(text: string)
      /** "<name> was born on <born>" */
    | BornOn(name: string, born: Date)
      /** "<name> was born on <born>, congratulations on <on>" */
    | Reminder(name: string, born: Date, on: Date)

  /** The terminal: the lines the user will still type (once they run out,
      every read meets end of input), and what was written to standard
      output and to standard error. */
  class Console {
    var input: seq<string>
    var out: seq<Line>
    var err: seq<string>

    constructor (input: seq<string>)
      ensures this.input == input && out == [] && err == []
    {
      this.input, out, err := input, [], [];
    }

    /** `print(line)`. */
    method Print(line: Line)
      modifies this
      ensures out == old(out) + [line]
      ensures input == old(input) && err == old(err)
    {
      out := out + [line];
    }

    /** `error(msg)`: a line on standard error. */
    method Error(msg: string)
      modifies this
      ensures err == old(err) + [msg]
      ensures input == old(input) && out == old(out)
    {
      err := err + [msg];
    }

    /** `input()`: the next line, or `None` when `EOFError` is raised. */
    method ReadLine() returns (line: Option<string>)
      modifies this
      ensures old(input) == [] ==> line.None? && input == []
      ensures old(input) != [] ==> line == Some(old(input)[0]) && input == old(input)[1..]
      ensures out == old(out) && err == old(err)
    {
      if input == [] {
        line := None;
      } else {
        line := Some(input[0]);
        input := input[1..];
      }
    }

    /** `confirm(prompt)`: reads lines until one normalises to "y" or "n";
        end of input counts as "n". */
    method Confirm() returns (yes: bool)
      modifies this
      ensures yes == Answer(old(input))
      ensures input == old(input)[AnswerLength(old(input))..]
      ensures out == old(out) && err == old(err)
    {
      ghost var read: nat := 0;
      while true
        invariant read <= |old(input)| && input == old(input)[read..]
        invariant Answer(input) == Answer(old(input))
        invariant read + AnswerLength(input) == AnswerLength(old(input))
        invariant out == old(out) && err == old(err)
        decreases |input|
      {
        var line := ReadLine();
        var response := if line.None? then "n" else Normalize(line.value);
        if response == "y" || response == "n" {
          return response == "y";
        }
        read := read + 1;
      }
    }
  }

  /** A response as `confirm` compares it: `response.strip().lower()`. */
  function Normalize(response: string): (normal: string) {
    Lower(Strip(response))
  }

  /** A response that settles the question. */
  predicate IsAnswer(response: string) {
    Normalize(response) == "y" || Normalize(response) == "n"
  }

  /** What `confirm` returns when the user will type `input`. */
  function Answer(input: seq<string>): (yes: bool) {
    if input == [] then false
    else if Normalize(input[0]) == "y" then true
    else if Normalize(input[0]) == "n" then false
    else Answer(input[1..])
  }

  /** How many lines `confirm` reads from `input`. */
  function AnswerLength(input: seq<string>): (n: nat)
    ensures n <= |input|
  {
    if input == [] then 0
    else if IsAnswer(input[0]) then 1
    else 1 + AnswerLength(input[1..])
  }

  /** `confirm` says yes exactly when some line normalises to "y" and no
      earlier line normalised to "y" or "n". */
  lemma AnswerIsFirstDecision(input: seq<string>)
    ensures Answer(input) <==> exists i :: FirstDecision(input, i) && Normalize(input[i]) == "y"
  {
    if Answer(input) {
      YesIsDecided(input);
    }
    if exists i :: FirstDecision(input, i) && Normalize(input[i]) == "y" {
      var i :| FirstDecision(input, i) && Normalize(input[i]) == "y";
      DecidedIsYes(input, i);
    }
  }

  /** Line `i` is the first line of `input` that settles the question. */
  predicate FirstDecision(input: seq<string>, i: int) {
    0 <= i < |input| && IsAnswer(input[i]) && forall j :: 0 <= j < i ==> !IsAnswer(input[j])
  }

  lemma {:induction false} YesIsDecided(input: seq<string>)
    requires Answer(input)
    ensures exists i :: FirstDecision(input, i) && Normalize(input[i]) == "y"
  {
    if IsAnswer(input[0]) {
      assert FirstDecision(input, 0);
    } else {
      var tail := input[1..];
      YesIsDecided(tail);
      var i :| FirstDecision(tail, i) && Normalize(tail[i]) == "y";
      assert input[i + 1] == tail[i];
      forall j | 0 <= j < i + 1 ensures !IsAnswer(input[j]) {
        if j > 0 { assert input[j] == tail[j - 1]; }
      }
      assert FirstDecision(input, i + 1);
    }
  }

  lemma {:induction false} DecidedIsYes(input: seq<string>, i: int)
    requires FirstDecision(input, i) && Normalize(input[i]) == "y"
    ensures Answer(input)
  {
    if i > 0 {
      var tail := input[1..];
      assert !IsAnswer(input[0]);
      assert tail[i - 1] == input[i];
      forall j | 0 <= j < i - 1 ensures !IsAnswer(tail[j]) {
        assert tail[j] == input[j + 1];
      }
      DecidedIsYes(tail, i - 1);
    }
  }

  /** Without a deciding line, `confirm` reads all of the input, meets end
      of input and says no. */
  lemma {:induction false} EndOfInputDeclines(input: seq<string>)
    requires forall j :: 0 <= j < |input| ==> !IsAnswer(input[j])
    ensures !Answer(input) && AnswerLength(input) == |input|
  {
    if input != [] {
      assert forall j :: 0 <= j < |input[1..]| ==> !IsAnswer(input[1..][j]) by {
        forall j | 0 <= j < |input[1..]| ensures !IsAnswer(input[1..][j]) {
          assert input[1..][j] == input[j + 1];
        }
      }
      EndOfInputDeclines(input[1..]);
    }
  }

  /** "y", "Y", " y " and the like all mean yes; an empty line is no answer
      and `confirm` asks again. */
  lemma NormalizedAnswers(response: string, rest: seq<string>)
    ensures Normalize(response) == "y" <==> Strip(response) == "y" || Strip(response) == "Y"
    ensures Normalize(response) == "n" <==> Strip(response) == "n" || Strip(response) == "N"
    ensures IsBlank(response) ==>
      Answer([response] + rest) == Answer(rest) && AnswerLength([response] + rest) == 1 + AnswerLength(rest)
  {
    LowerIsLetter(Strip(response), 'y');
    LowerIsLetter(Strip(response), 'n');
    assert ([response] + rest)[1..] == rest;
  }

  /** `CmdArgumentError` (a `ValueError`), any other `ValueError`, and the
      exceptions that are neither. */
  datatype Exception =
    | CmdArgumentError(message: string, help: string)
    | ValueError(message: string)
    | OtherError(message: string)

  /** `CmdArgumentParser.error(message)`: it never returns; it raises an
      argument error carrying the message and the parser's formatted help. */
  function ParserError(message: string, formattedHelp: string): (e: Exception)
    ensures e.CmdArgumentError? && e.message == message && e.help == formattedHelp
  {
    CmdArgumentError(message, formattedHelp)
  }

  /** How one `do_*` method ended: it returned a stop flag (`None` is false)
      or it raised. */
  datatype Outcome = Returned(stop: bool) | Raised(e: Exception)

  /** What `onecmd` makes of that: the stop flag it returns and the lines
      it writes to standard error, or the exception it lets through. */
  datatype Handled = Handled(stop: bool, errLines: seq<string>) | Propagated(e: Exception)

  /** `Cmd.onecmd`: argument errors and value errors never escape; the
      message is reported, followed by the help for an argument error, and
      the shell goes on. */
  function OneCmd(o: Outcome): (h: Handled)
    ensures h.Propagated? <==> o.Raised? && o.e.OtherError?
    ensures h.Propagated? ==> h.e == o.e
    ensures o.Returned? ==> h == Handled(o.stop, [])
    ensures o.Raised? && o.e.CmdArgumentError? ==> h == Handled(false, [o.e.message, o.e.help])
    ensures o.Raised? && o.e.ValueError? ==> h == Handled(false, [o.e.message])
  {
    match o
    case Returned(stop) => Handled(stop, [])
    case Raised(CmdArgumentError(message, help)) => Handled(false, [message, help])
    case Raised(ValueError(message)) => Handled(false, [message])
    case Raised(e) => Propagated(e)
  }

  /** A shell's class-level policy flags `confirm_exit` and `say_goodbye`. */
  datatype Policy = Policy(confirmExit: bool, sayGoodbye: bool)

  /** The defaults of `Cmd`, which the top-level application keeps. */
  const DefaultPolicy := Policy(true, true)
  /** The sub-shells switch both off. */
  const SubShellPolicy := Policy(false, false)

  /** `goodbye()`: "Goodbye!" when the shell says goodbye, else an empty line. */
  function GoodbyeLine(sayGoodbye: bool): (line: string)
    ensures line == "Goodbye!" <==> sayGoodbye
    ensures !sayGoodbye ==> line == ""
  {
    if sayGoodbye then "Goodbye!" else ""
  }

  /** `do_exit`: without `confirm_exit` the shell always stops; with it, it
      stops only when the user confirms, and otherwise stays (`None`). On
      stopping it says goodbye. */
  method Exit(console: Console, policy: Policy) returns (stop: bool)
    modifies console
    ensures stop == (!policy.confirmExit || Answer(old(console.input)))
    ensures console.input ==
      if policy.confirmExit then old(console.input)[AnswerLength(old(console.input))..] else old(console.input)
    ensures console.out == old(console.out) + (if stop then [Text(GoodbyeLine(policy.sayGoodbye))] else [])
    ensures console.err == old(console.err)
  {
    if policy.confirmExit {
      var yes := console.Confirm();
      if yes {
        console.Print(Text(GoodbyeLine(policy.sayGoodbye)));
        return true;
      }
      return false;
    }
    console.Print(Text(GoodbyeLine(policy.sayGoodbye)));
    return true;
  }

  /** `do_EOF`: end of input is handled exactly as `exit`. */
  method EndOfInput(console: Console, policy: Policy) returns (stop: bool)
    modifies console
    ensures stop == (!policy.confirmExit || Answer(old(console.input)))
    ensures console.input ==
      if policy.confirmExit then old(console.input)[AnswerLength(old(console.input))..] else old(console.input)
    ensures console.out == old(console.out) + (if stop then [Text(GoodbyeLine(policy.sayGoodbye))] else [])
    ensures console.err == old(console.err)
  {
    stop := Exit(console, policy);
  }

  /** `do_EOF` of a top-level shell whose input is closed (piped stdin, say):
      `confirm` meets end of input and answers no, so the shell stays, prints
      nothing and consumes nothing. The state is as before, so `cmdloop`
      meets end of input again and the program never ends. */
  method EndOfInputAtClosedInputStays(console: Console) returns (stop: bool)
    requires console.input == []
    modifies console
    ensures !stop
    ensures console.input == [] && console.out == old(console.out) && console.err == old(console.err)
  {
    stop := EndOfInput(console, DefaultPolicy);
  }

  /** The `KeyboardInterrupt` branch of `cmdloop`: echo "^C"; leave the loop
      only when the line being typed is empty and the user confirms. With a
      non-empty line nothing is asked and the prompt comes back. */
  method Interrupted(console: Console, lineBuffer: string) returns (leave: bool)
    modifies console
    ensures leave == (lineBuffer == "" && Answer(old(console.input)))
    ensures lineBuffer != "" ==> console.input == old(console.input)
    ensures lineBuffer == "" ==> console.input == old(console.input)[AnswerLength(old(console.input))..]
    ensures console.out == old(console.out) + [Text("^C")] && console.err == old(console.err)
  {
    console.Print(Text("^C"));
    leave := false;
    if lineBuffer == "" {
      leave := console.Confirm();
    }
  }

  /** What a shell command that owns a sub-shell (`phones`, `birthdays`,
      `contacts`) does with it once its prompt is set: run the argument as
      one command, or enter its loop. */
  datatype Delegation = OneShot(command: string) | EnterLoop

  /** `if arg: child.onecmd(arg) else: child.cmdloop()`. */
  function Dispatch(arg: string): (d: Delegation)
    ensures d.OneShot? <==> arg != ""
    ensures d.OneShot? ==> d.command == arg
  {
    if arg != "" then OneShot(arg) else EnterLoop
  }

  /** The prompt of a sub-shell entered from a shell whose prompt is `parent`. */
  function NestedPrompt(parent: string, child: string): (p: string)
    ensures |p| == |parent| + |child|
    ensures p[..|parent|] == parent && p[|parent|..] == child
  {
    parent + child
  }
}
