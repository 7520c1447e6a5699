/**
 * The Debugger class of debug.py and its command handlers, updating the
 * cursor, the breakpoint list and the two flags in place. input() is the
 * list of lines still to be read and print() appends to `output`. Every
 * method is proved to leave the object in the state the matching function
 * of module Commands computes.
 */
module ReplayDebugger {
  import opened CTypes
  import opened PyStr
  import opened TraceParser
  import opened Commands

  class Debugger {
    const instructions: seq<Instruction>
    var current: nat
    var breakpoints: seq<int>
    var brk: bool
    var running: bool
    var input: seq<string>
    var output: seq<Event>

    function State(): Session
      reads this
    {
      Session(current, breakpoints, brk, running, input, output)
    }

    constructor(instructions: seq<Instruction>, input: seq<string>)
      ensures this.instructions == instructions && State() == Start(input)
    {
      this.instructions := instructions;
      current := 0;
      breakpoints := [];
      brk := false;
      running := true;
      this.input := input;
      output := [];
    }

    /** __get_command; None is the EOFError input() raises once the lines run out. */
    method GetCommand() returns (cmd: Option<seq<string>>)
      modifies this`input, this`output
      ensures match Commands.GetCommand(old(State()))
        case Got(c, t) => cmd == Some(c) && State() == t
        case Eof(t) => cmd == None && State() == t
    {
      if input == [] {
        return None;
      }
      var words := Split(input[0], ' ');
      input := input[1..];
      while words[0] !in COMMANDS
        invariant |words| > 0
        invariant Commands.GetCommand(old(State())) ==
          if words[0] in COMMANDS then Got(words, State())
          else Commands.GetCommand(Print(State(), [InvalidCommandMsg]))
        decreases |input|
      {
        output := output + [InvalidCommandMsg];
        if input == [] {
          return None;
        }
        words := Split(input[0], ' ');
        input := input[1..];
      }
      return Some(words);
    }

    /** __next_command: the handler's truthiness, or the exception that escapes it. */
    method NextCommand() returns (truthy: bool, failure: Option<Failure>)
      modifies this
      ensures var a := Commands.NextCommand(instructions, old(State()));
        && State() == a.session
        && (a.Done? ==> failure == None && truthy == a.truthy)
        && (a.Failed? ==> failure == Some(a.failure))
    {
      var cmd := GetCommand();
      if cmd.None? {
        return false, Some(EOFError);
      }
      var reply := Dispatch(this, cmd.value);
      match reply
      case Resume => return true, None;
      case Stay => return false, None;
      case Invalid =>
        output := output + [InvalidArgumentsMsg];
        return false, None;
      case Fatal(f) => return false, Some(f);
    }

    /** __break: the banner, up to PRINT_AHEAD records, then commands until one returns True. */
    method Break() returns (failure: Option<Failure>)
      modifies this
      ensures var a := Commands.Break(instructions, old(State()));
        State() == a.session && failure == (if a.Failed? then Some(a.failure) else None)
    {
      if current >= |instructions| {
        return Some(Failure.IndexError);
      }
      PrintBanner();
      failure := Pause();
    }

    /** The print and the `for` loop of __break: the address, then the current record and at most PRINT_AHEAD - 1 after it. */
    method PrintBanner()
      requires current < |instructions|
      modifies this`output
      ensures State() == Banner(instructions, old(State()))
    {
      var ahead := if PRINT_AHEAD < |instructions| - current then PRINT_AHEAD else |instructions| - current;
      var banner := [BreakAt(instructions[current].regs.pc)];
      ghost var listing := ListingEvents(instructions[current..current + ahead]);
      output := output + banner;
      PrintListing(this, instructions[current..current + ahead]);
      assert output == old(output) + (banner + listing);
    }

    /** `while not self.__next_command(): pass` */
    method Pause() returns (failure: Option<Failure>)
      modifies this
      ensures var a := PauseLoop(instructions, old(State()));
        State() == a.session && failure == (if a.Failed? then Some(a.failure) else None)
    {
      while true
        invariant PauseLoop(instructions, old(State())) == PauseLoop(instructions, State())
        decreases |input|
      {
        var truthy, f := NextCommand();
        if f.Some? {
          return f;
        }
        if truthy {
          return None;
        }
      }
    }

    /** run: the first pause at record 0, then the replay from record 1 on. */
    method Run() returns (exit: Exit)
      modifies this
      ensures var o := Commands.Run(instructions, old(State()));
        State() == o.session && exit == ExitOf(o)
    {
      var f := Break();
      if f.Some? {
        return Uncaught(f.value);
      }
      current := current + 1;
      exit := Replay();
    }

    /** The while loop of run: pause at breakpoints and after ni, until quit, an error record or the end. */
    method Replay() returns (exit: Exit)
      modifies this
      ensures var o := RunLoop(instructions, old(State()));
        State() == o.session && exit == ExitOf(o)
    {
      while running && current < |instructions|
        invariant RunLoop(instructions, old(State())) == RunLoop(instructions, State())
        decreases |instructions| - current
      {
        var stop := Visit();
        if stop.Some? {
          return stop.value;
        }
      }
      assert RunLoop(instructions, State()) == Finished(Print(State(), [EndOfProgram]));
      output := output + [EndOfProgram];
      return Normal;
    }

    /** One pass of run's loop body: raise at an error record, pause at a breakpoint or after ni, then advance. */
    method Visit() returns (stop: Option<Exit>)
      requires running && current < |instructions|
      modifies this
      ensures stop.None? ==>
        current == old(current) + 1 && RunLoop(instructions, old(State())) == RunLoop(instructions, State())
      ensures stop.Some? ==> var o := RunLoop(instructions, old(State()));
        State() == o.session && stop.value == ExitOf(o)
    {
      ghost var s := State();
      if Truthy(instructions[current].error) {
        assert RunLoop(instructions, s) == ProgramError(instructions[current].error.value, s);
        return Some(RuntimeError(instructions[current].error.value));
      }
      if instructions[current].regs.pc in breakpoints || brk {
        brk := false;
        assert State() == s.(brk := false);
        var f := Break();
        if f.Some? {
          assert RunLoop(instructions, s) == Crashed(f.value, State());
          return Some(Uncaught(f.value));
        }
        assert RunLoop(instructions, s) == RunLoop(instructions, State().(current := current + 1));
      } else {
        assert RunLoop(instructions, s) == RunLoop(instructions, s.(current := current + 1));
      }
      current := current + 1;
      return None;
    }
  }

  /** How Debugger.run returns: normally, with the RuntimeError it raises, or with an exception it lets through. */
  datatype Exit = Normal | RuntimeError(msg: string) | Uncaught(failure: Failure)

  function ExitOf(o: RunOutcome): Exit
  {
    match o
    case Finished(_) => Normal
    case ProgramError(msg, _) => RuntimeError(msg)
    case Crashed(f, _) => Uncaught(f)
  }

  // ---------- the command handlers ----------

  /** help */
  method Help(dbg: Debugger, args: seq<string>) returns (reply: Reply)
    modifies dbg`output
    ensures Step(reply, dbg.State()) == HelpCmd(old(dbg.State()))
  {
    var i := 0;
    while i < |COMMANDS|
      invariant 0 <= i <= |COMMANDS|
      invariant dbg.output == old(dbg.output) + HelpEvents()[..i]
    {
      assert HelpEvents()[..i + 1] == HelpEvents()[..i] + [HelpEntry(COMMANDS[i])];
      dbg.output := dbg.output + [HelpEntry(COMMANDS[i])];
      i := i + 1;
    }
    assert HelpEvents()[..i] == HelpEvents();
    return Stay;
  }

  /** c */
  method Continue(dbg: Debugger, args: seq<string>) returns (reply: Reply)
    ensures Step(reply, dbg.State()) == ContinueCmd(dbg.State())
  {
    return Resume;
  }

  /** b */
  method SetBreakpoint(dbg: Debugger, args: seq<string>) returns (reply: Reply)
    modifies dbg`breakpoints
    ensures Step(reply, dbg.State()) == BreakpointCmd(args, old(dbg.State()))
  {
    if |args| != 2 {
      return Invalid;
    }
    var address := ParseInt(args[1], 16);
    if address.None? {
      return Invalid;
    }
    dbg.breakpoints := dbg.breakpoints + [address.value];
    return Stay;
  }

  /** d */
  method DeleteBreakpoint(dbg: Debugger, args: seq<string>) returns (reply: Reply)
    modifies dbg`breakpoints
    ensures Step(reply, dbg.State()) == DeleteCmd(args, old(dbg.State()))
  {
    if |args| != 2 {
      return Invalid;
    }
    var index := ParseInt(args[1], 10);
    if index.None? || !(-|dbg.breakpoints| <= index.value < |dbg.breakpoints|) {
      return Invalid;
    }
    var k := if index.value < 0 then index.value + |dbg.breakpoints| else index.value;
    dbg.breakpoints := dbg.breakpoints[..k] + dbg.breakpoints[k + 1..];
    return Stay;
  }

  /** l */
  method ListBreakpoints(dbg: Debugger, args: seq<string>) returns (reply: Reply)
    modifies dbg`output
    ensures Step(reply, dbg.State()) == ListCmd(args, old(dbg.State()))
  {
    if |args| != 1 {
      return Invalid;
    }
    var i := 0;
    while i < |dbg.breakpoints|
      invariant 0 <= i <= |dbg.breakpoints|
      invariant dbg.output == old(dbg.output) + ListEvents(dbg.breakpoints)[..i]
    {
      assert ListEvents(dbg.breakpoints)[..i + 1] ==
        ListEvents(dbg.breakpoints)[..i] + [BreakpointEntry(i, dbg.breakpoints[i])];
      dbg.output := dbg.output + [BreakpointEntry(i, dbg.breakpoints[i])];
      i := i + 1;
    }
    assert ListEvents(dbg.breakpoints)[..i] == ListEvents(dbg.breakpoints);
    return Stay;
  }

  /** ni */
  method NextInstruction(dbg: Debugger, args: seq<string>) returns (reply: Reply)
    modifies dbg`brk
    ensures Step(reply, dbg.State()) == NextInstructionCmd(args, old(dbg.State()))
  {
    if |args| != 1 {
      return Invalid;
    }
    dbg.brk := true;
    return Resume;
  }

  /** r */
  method PrintRegister(dbg: Debugger, args: seq<string>) returns (reply: Reply)
    modifies dbg`output
    ensures Step(reply, dbg.State()) == RegisterCmd(dbg.instructions, args, old(dbg.State()))
  {
    if |args| != 2 || args[1] !in REGS {
      return Invalid;
    }
    if dbg.current >= |dbg.instructions| {
      return Fatal(Failure.IndexError);
    }
    dbg.output := dbg.output + [RegisterEntry(args[1], RegisterOf(dbg.instructions[dbg.current].regs, args[1]))];
    return Stay;
  }

  /** quit */
  method Quit(dbg: Debugger, args: seq<string>) returns (reply: Reply)
    modifies dbg`running
    ensures Step(reply, dbg.State()) == QuitCmd(old(dbg.State()))
  {
    dbg.running := false;
    return Resume;
  }

  /** asm */
  method Disassemble(dbg: Debugger, args: seq<string>) returns (reply: Reply)
    modifies dbg`output
    ensures Step(reply, dbg.State()) == AsmCmd(dbg.instructions, args, old(dbg.State()))
  {
    if |args| > 2 {
      return Invalid;
    }
    var count: int := PRINT_AHEAD;
    if |args| > 1 {
      var n := ParseInt(args[1], 10);
      if n.None? {
        return Fatal(ValueError);
      }
      count := n.value;
    }
    var stop := if |dbg.instructions| < dbg.current + count then |dbg.instructions| else dbg.current + count;
    PrintListing(dbg, PySlice(dbg.instructions, dbg.current, stop));
    return Stay;
  }

  /** Print each record's mnemonic on a line of its own, as __break and asm do. */
  method PrintListing(dbg: Debugger, shown: seq<Instruction>)
    modifies dbg`output
    ensures dbg.output == old(dbg.output) + ListingEvents(shown)
  {
    var i := 0;
    while i < |shown|
      invariant 0 <= i <= |shown|
      invariant dbg.output == old(dbg.output) + ListingEvents(shown[..i])
    {
      assert shown[..i + 1] == shown[..i] + [shown[i]];
      dbg.output := dbg.output + [Listing(shown[i].line)];
      i := i + 1;
    }
    assert shown[..i] == shown;
  }

  /** COMMAND_HANDLER_MAP[cmd[0]](dbg, cmd) */
  method Dispatch(dbg: Debugger, cmd: seq<string>) returns (reply: Reply)
    requires |cmd| > 0 && cmd[0] in COMMANDS
    modifies dbg
    ensures Step(reply, dbg.State()) == Handle(dbg.instructions, cmd, old(dbg.State()))
  {
    var name := cmd[0];
    if name == "help" {
      reply := Help(dbg, cmd);
    } else if name == "c" {
      reply := Continue(dbg, cmd);
    } else if name == "b" {
      reply := SetBreakpoint(dbg, cmd);
    } else if name == "d" {
      reply := DeleteBreakpoint(dbg, cmd);
    } else if name == "l" {
      reply := ListBreakpoints(dbg, cmd);
    } else if name == "ni" {
      reply := NextInstruction(dbg, cmd);
    } else if name == "r" {
      reply := PrintRegister(dbg, cmd);
    } else if name == "quit" {
      reply := Quit(dbg, cmd);
    } else {
      reply := Disassemble(dbg, cmd);
    }
  }
}
