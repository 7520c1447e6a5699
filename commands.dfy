/**
 * The replay debugger of debug.py, as functions on a Session value: the
 * cursor, the breakpoint list, the `brk` single-step flag, the `running`
 * flag, the input lines still to be read and the messages printed so far.
 * The nine command handlers come first, then __get_command,
 * __next_command, __break and run. The Debugger class that updates these
 * fields in place is specified by these functions.
 */
module Commands {
  import opened CTypes
  import opened PyStr
  import opened TraceParser

  const PRINT_AHEAD: nat := 5

  /** The keys of COMMAND_HANDLER_MAP, in registration order. */
  const COMMANDS: seq<string> := ["help", "c", "b", "d", "l", "ni", "r", "quit", "asm"]

  /** The register names r accepts. */
  const REGS: seq<string> := ["af", "bc", "de", "hl", "sp", "pc"]

  /** One printed message. */
  datatype Event =
    | InvalidCommandMsg                      // "Invalid command."
    | InvalidArgumentsMsg                    // a caught DebugError: "Invalid arguments."
    | HelpEntry(name: string)                // "{name}: {docstring}"
    | BreakpointEntry(index: int, address: int)  // "{index}: {address:04X}"
    | RegisterEntry(name: string, value: int)    // "{name} = 0x{value:04X}"
    | Listing(line: string)                  // "\t{instruction}"
    | BreakAt(pc: int)                       // "Break at address 0x{pc:04X}:"
    | EndOfProgram                           // "End of program."

  datatype Session = Session(
    current: nat,
    breakpoints: seq<int>,
    brk: bool,
    running: bool,
    input: seq<string>,
    output: seq<Event>)

  /** The start state of a Debugger reading `input`. */
  function Start(input: seq<string>): (s: Session)
    ensures s.current == 0 && s.breakpoints == [] && !s.brk && s.running && s.output == []
  {
    Session(0, [], false, true, input, [])
  }

  /** Exceptions that are not a DebugError and so end the program. */
  datatype Failure = EOFError | ValueError | IndexError

  /** What a handler does: return True, return False, raise InvalidArgumentsError, or raise another exception. */
  datatype Reply = Resume | Stay | Invalid | Fatal(failure: Failure)

  datatype Step = Step(reply: Reply, session: Session)

  function Print(s: Session, events: seq<Event>): Session
  {
    s.(output := s.output + events)
  }

  // ---------- the handlers ----------

  /** help: one line per command, in registration order. */
  function HelpEvents(): (r: seq<Event>)
    ensures |r| == |COMMANDS| && forall i :: 0 <= i < |r| ==> r[i] == HelpEntry(COMMANDS[i])
  {
    seq(|COMMANDS|, i requires 0 <= i < |COMMANDS| => HelpEntry(COMMANDS[i]))
  }

  function HelpCmd(s: Session): Step
  {
    Step(Stay, Print(s, HelpEvents()))
  }

  function ContinueCmd(s: Session): Step
  {
    Step(Resume, s)
  }

  /** b: exactly one argument, read as base-16 int(), appended to the breakpoints. */
  function BreakpointCmd(args: seq<string>, s: Session): Step
  {
    if |args| != 2 then Step(Invalid, s)
    else match ParseInt(args[1], 16)
      case None => Step(Invalid, s)
      case Some(v) => Step(Stay, s.(breakpoints := s.breakpoints + [v]))
  }

  /** Python's index of `del xs[n]` for -|xs| <= n < |xs|. */
  function PyIndex(n: int, len: nat): (k: nat)
    requires -(len as int) <= n < len
    ensures k < len && (k == n || k == n + len)
  {
    if n < 0 then n + len else n
  }

  function DeleteAt(xs: seq<int>, k: nat): (r: seq<int>)
    requires k < |xs|
    ensures |r| == |xs| - 1
    ensures forall j :: 0 <= j < k ==> r[j] == xs[j]
    ensures forall j :: k <= j < |r| ==> r[j] == xs[j + 1]
  {
    xs[..k] + xs[k + 1..]
  }

  /** d: exactly one argument, a base-10 int() that is a valid Python index. */
  function DeleteCmd(args: seq<string>, s: Session): Step
  {
    if |args| != 2 then Step(Invalid, s)
    else match ParseInt(args[1], 10)
      case None => Step(Invalid, s)
      case Some(n) =>
        if -|s.breakpoints| <= n < |s.breakpoints| then
          Step(Stay, s.(breakpoints := DeleteAt(s.breakpoints, PyIndex(n, |s.breakpoints|))))
        else Step(Invalid, s)
  }

  function ListEvents(bps: seq<int>): (r: seq<Event>)
    ensures |r| == |bps| && forall i :: 0 <= i < |r| ==> r[i] == BreakpointEntry(i, bps[i])
  {
    seq(|bps|, i requires 0 <= i < |bps| => BreakpointEntry(i, bps[i]))
  }

  /** l: no argument; one line per breakpoint. */
  function ListCmd(args: seq<string>, s: Session): Step
  {
    if |args| != 1 then Step(Invalid, s)
    else Step(Stay, Print(s, ListEvents(s.breakpoints)))
  }

  /** ni: no argument; sets brk and continues. */
  function NextInstructionCmd(args: seq<string>, s: Session): Step
  {
    if |args| != 1 then Step(Invalid, s)
    else Step(Resume, s.(brk := true))
  }

  /** Registers.__getitem__ for a name of REGS. */
  function RegisterOf(regs: Registers, name: string): int
    requires name in REGS
  {
    if name == "af" then regs.af
    else if name == "bc" then regs.bc
    else if name == "de" then regs.de
    else if name == "hl" then regs.hl
    else if name == "sp" then regs.sp
    else regs.pc
  }

  /** r: one register name; prints its value in the current record. */
  function RegisterCmd(instrs: seq<Instruction>, args: seq<string>, s: Session): Step
  {
    if |args| != 2 || args[1] !in REGS then Step(Invalid, s)
    else if s.current >= |instrs| then Step(Fatal(Failure.IndexError), s)
    else Step(Stay, Print(s, [RegisterEntry(args[1], RegisterOf(instrs[s.current].regs, args[1]))]))
  }

  function QuitCmd(s: Session): Step
  {
    Step(Resume, s.(running := false))
  }

  /** A bound of a Python slice xs[i:j] on a list of length len. */
  function SliceBound(i: int, len: nat): (k: nat)
    ensures k <= len
    ensures 0 <= i <= len ==> k == i
    ensures i > len ==> k == len
    ensures i < 0 ==> k == (if i + len < 0 then 0 else i + len)
  {
    if i < 0 then (if i + len < 0 then 0 else i + len)
    else if i > len then len
    else i
  }

  /** xs[i:j] with Python's treatment of negative and out-of-range bounds. */
  function PySlice<T>(xs: seq<T>, i: int, j: int): seq<T>
  {
    var lo := SliceBound(i, |xs|);
    var hi := SliceBound(j, |xs|);
    if lo < hi then xs[lo..hi] else []
  }

  function ListingEvents(instrs: seq<Instruction>): (r: seq<Event>)
    ensures |r| == |instrs| && forall i :: 0 <= i < |r| ==> r[i] == Listing(instrs[i].line)
  {
    seq(|instrs|, i requires 0 <= i < |instrs| => Listing(instrs[i].line))
  }

  /**
   * asm: at most one argument, a base-10 count that defaults to PRINT_AHEAD;
   * a count int() rejects raises ValueError, which no handler catches.
   */
  function AsmCmd(instrs: seq<Instruction>, args: seq<string>, s: Session): Step
  {
    if |args| > 2 then Step(Invalid, s)
    else
      var count := if |args| > 1 then ParseInt(args[1], 10) else Some(PRINT_AHEAD as int);
      match count
      case None => Step(Fatal(ValueError), s)
      case Some(n) =>
        var stop := if |instrs| < s.current + n then |instrs| else s.current + n;
        Step(Stay, Print(s, ListingEvents(PySlice(instrs, s.current, stop))))
  }

  /** COMMAND_HANDLER_MAP[cmd[0]](dbg, cmd) */
  function Handle(instrs: seq<Instruction>, cmd: seq<string>, s: Session): (r: Step)
    requires |cmd| > 0 && cmd[0] in COMMANDS
    ensures r.session.input == s.input && r.session.current == s.current
    ensures s.output <= r.session.output
  {
    match cmd[0]
    case "help" => HelpCmd(s)
    case "c" => ContinueCmd(s)
    case "b" => BreakpointCmd(cmd, s)
    case "d" => DeleteCmd(cmd, s)
    case "l" => ListCmd(cmd, s)
    case "ni" => NextInstructionCmd(cmd, s)
    case "r" => RegisterCmd(instrs, cmd, s)
    case "quit" => QuitCmd(s)
    case _ => AsmCmd(instrs, cmd, s)
  }

  // ---------- properties of the handlers ----------

  /** c, ni and quit are the commands that end a pause; help, b, d, l, r and asm never do. */
  lemma ResumingCommands(instrs: seq<Instruction>, cmd: seq<string>, s: Session)
    requires |cmd| > 0 && cmd[0] in COMMANDS
    ensures Handle(instrs, cmd, s).reply == Resume <==>
      cmd[0] == "c" || cmd[0] == "quit" || (cmd[0] == "ni" && |cmd| == 1)
    ensures Handle(instrs, cmd, s).reply.Fatal? ==> cmd[0] == "r" || cmd[0] == "asm"
  {
  }

  /** A handler that raises InvalidArgumentsError has changed nothing. */
  lemma InvalidChangesNothing(instrs: seq<Instruction>, cmd: seq<string>, s: Session)
    requires |cmd| > 0 && cmd[0] in COMMANDS
    requires Handle(instrs, cmd, s).reply == Invalid
    ensures Handle(instrs, cmd, s).session == s
  {
  }

  /** Only b and d touch the breakpoints; only ni sets brk and only quit clears running. */
  lemma HandlerFrame(instrs: seq<Instruction>, cmd: seq<string>, s: Session)
    requires |cmd| > 0 && cmd[0] in COMMANDS
    ensures var t := Handle(instrs, cmd, s).session;
      && (cmd[0] != "b" && cmd[0] != "d" ==> t.breakpoints == s.breakpoints)
      && (t.brk != s.brk ==> cmd[0] == "ni" && t.brk)
      && (t.running != s.running ==> cmd[0] == "quit" && !t.running)
  {
  }

  /** b with a base-16 address appends it at the end; any other b is rejected. */
  lemma BreakpointAppends(instrs: seq<Instruction>, cmd: seq<string>, s: Session)
    requires |cmd| > 0 && cmd[0] == "b"
    ensures var t := Handle(instrs, cmd, s);
      if |cmd| == 2 && ParseInt(cmd[1], 16).Some? then
        t == Step(Stay, s.(breakpoints := s.breakpoints + [ParseInt(cmd[1], 16).value]))
      else t == Step(Invalid, s)
  {
  }

  /**
   * d with a valid Python index removes exactly that entry, keeping the
   * others in order; any other d is rejected.
   */
  lemma DeleteRemoves(instrs: seq<Instruction>, cmd: seq<string>, s: Session)
    requires |cmd| > 0 && cmd[0] == "d"
    ensures var t := Handle(instrs, cmd, s);
      var bps := s.breakpoints;
      if |cmd| == 2 && ParseInt(cmd[1], 10).Some? && -|bps| <= ParseInt(cmd[1], 10).value < |bps| then
        var k := PyIndex(ParseInt(cmd[1], 10).value, |bps|);
        && t.reply == Stay
        && t.session == s.(breakpoints := t.session.breakpoints)
        && t.session.breakpoints + [bps[k]] == bps[..k] + bps[k + 1..] + [bps[k]]
        && multiset(t.session.breakpoints) + multiset{bps[k]} == multiset(bps)
      else t == Step(Invalid, s)
  {
    var bps := s.breakpoints;
    if |cmd| == 2 && ParseInt(cmd[1], 10).Some? && -|bps| <= ParseInt(cmd[1], 10).value < |bps| {
      var k := PyIndex(ParseInt(cmd[1], 10).value, |bps|);
      assert bps == bps[..k] + [bps[k]] + bps[k + 1..];
      calc {
        multiset(bps);
        multiset(bps[..k] + [bps[k]] + bps[k + 1..]);
        multiset(bps[..k]) + multiset{bps[k]} + multiset(bps[k + 1..]);
        multiset(bps[..k] + bps[k + 1..]) + multiset{bps[k]};
      }
    }
  }

  /** asm with no argument lists the current record and up to four after it. */
  lemma AsmDefault(instrs: seq<Instruction>, s: Session)
    requires s.current < |instrs|
    ensures var t := Handle(instrs, ["asm"], s);
      var stop := if |instrs| < s.current + PRINT_AHEAD then |instrs| else s.current + PRINT_AHEAD;
      t == Step(Stay, Print(s, ListingEvents(instrs[s.current..stop])))
  {
  }

  /** asm with a count int() cannot read is a fatal ValueError, not a caught DebugError. */
  lemma AsmBadCount(instrs: seq<Instruction>, arg: string, s: Session)
    requires ParseInt(arg, 10).None?
    ensures Handle(instrs, ["asm", arg], s) == Step(Fatal(ValueError), s)
  {
  }

  // ---------- reading commands ----------

  /** The outcome of __get_command: a known command line, or end of input (EOFError). */
  datatype Read = Got(cmd: seq<string>, session: Session) | Eof(session: Session)

  /** __get_command: read lines until the first token is a command, printing "Invalid command." for each other line. */
  function GetCommand(s: Session): (r: Read)
    decreases |s.input|
    ensures r.Got? ==> |r.cmd| > 0 && r.cmd[0] in COMMANDS && |r.session.input| < |s.input|
    ensures r.session.current == s.current && r.session.breakpoints == s.breakpoints
    ensures r.session.brk == s.brk && r.session.running == s.running
    ensures s.output <= r.session.output
  {
    if s.input == [] then Eof(s)
    else
      var cmd := Split(s.input[0], ' ');
      var t := s.(input := s.input[1..]);
      if cmd[0] in COMMANDS then Got(cmd, t)
      else GetCommand(Print(t, [InvalidCommandMsg]))
  }

  /** The number of lines __get_command read without finding a command. */
  function Skipped(s: Session, r: Read): int
  {
    |s.input| - |r.session.input| - (if r.Got? then 1 else 0)
  }

  /** __get_command skips only lines whose first token names no command. */
  lemma {:induction false} GetCommandSkips(s: Session)
    decreases |s.input|
    ensures var r := GetCommand(s);
      var skipped := Skipped(s, r);
      && 0 <= skipped <= |s.input|
      && (forall k :: 0 <= k < skipped ==> Split(s.input[k], ' ')[0] !in COMMANDS)
  {
    if s.input != [] {
      var t := s.(input := s.input[1..]);
      if Split(s.input[0], ' ')[0] !in COMMANDS {
        var u := Print(t, [InvalidCommandMsg]);
        GetCommandSkips(u);
        var r := GetCommand(u);
        assert GetCommand(s) == r;
        forall k | 0 <= k < Skipped(s, r)
          ensures Split(s.input[k], ' ')[0] !in COMMANDS
        {
          if k > 0 {
            assert s.input[k] == u.input[k - 1];
          }
        }
      }
    }
  }

  /**
   * ... returns the line after the skipped ones, split on spaces, and
   * reaches end of input only once every line is read.
   */
  lemma {:induction false} GetCommandLine(s: Session)
    decreases |s.input|
    ensures var r := GetCommand(s);
      var skipped := Skipped(s, r);
      && (r.Got? ==> 0 <= skipped < |s.input| && r.cmd == Split(s.input[skipped], ' '))
      && (r.Eof? ==> r.session.input == [])
  {
    if s.input != [] {
      var t := s.(input := s.input[1..]);
      if Split(s.input[0], ' ')[0] !in COMMANDS {
        var u := Print(t, [InvalidCommandMsg]);
        GetCommandLine(u);
        var r := GetCommand(u);
        assert GetCommand(s) == r;
        if r.Got? {
          var k := Skipped(u, r);
          assert u.input == s.input[1..];
          assert Skipped(s, r) == k + 1;
          assert s.input[k + 1] == u.input[k];
        }
      } else {
        assert GetCommand(s) == Got(Split(s.input[0], ' '), t);
      }
    }
  }

  /** ... and leaves the lines after that one to be read. */
  lemma {:induction false} GetCommandRest(s: Session)
    decreases |s.input|
    ensures var r := GetCommand(s);
      |r.session.input| <= |s.input| && r.session.input == s.input[|s.input| - |r.session.input|..]
  {
    if s.input != [] {
      var t := s.(input := s.input[1..]);
      if Split(s.input[0], ' ')[0] !in COMMANDS {
        var u := Print(t, [InvalidCommandMsg]);
        GetCommandRest(u);
        var rest := GetCommand(u).session.input;
        assert GetCommand(s).session.input == rest;
        assert u.input == s.input[1..];
        assert s.input[1..][|u.input| - |rest|..] == s.input[|s.input| - |rest|..];
      } else {
        assert GetCommand(s).session.input == s.input[1..];
      }
    }
  }

  /** ... and prints one "Invalid command." for each line it skipped. */
  lemma {:induction false} GetCommandComplains(s: Session)
    decreases |s.input|
    ensures var r := GetCommand(s);
      Skipped(s, r) >= 0 && r.session.output == s.output + seq(Skipped(s, r), k => InvalidCommandMsg)
  {
    if s.input != [] {
      var t := s.(input := s.input[1..]);
      if Split(s.input[0], ' ')[0] !in COMMANDS {
        var u := Print(t, [InvalidCommandMsg]);
        GetCommandComplains(u);
        var r := GetCommand(u);
        assert GetCommand(s) == r;
        var n := Skipped(u, r);
        assert Skipped(s, r) == n + 1;
        assert [InvalidCommandMsg] + seq(n, k => InvalidCommandMsg) == seq(n + 1, k => InvalidCommandMsg);
        assert s.output + [InvalidCommandMsg] + seq(n, k => InvalidCommandMsg) ==
          s.output + ([InvalidCommandMsg] + seq(n, k => InvalidCommandMsg));
      } else {
        assert seq(0, k => InvalidCommandMsg) == [];
      }
    } else {
      assert seq(0, k => InvalidCommandMsg) == [];
    }
  }

  /** The result of __next_command and __break: a truthy or falsy return, or an exception that ends the program. */
  datatype Answer = Done(truthy: bool, session: Session) | Failed(failure: Failure, session: Session)

  /** __next_command: read a command and run its handler, printing a caught DebugError. */
  function NextCommand(instrs: seq<Instruction>, s: Session): (r: Answer)
    ensures r.Done? ==> |r.session.input| < |s.input|
    ensures r.session.current == s.current
    ensures s.output <= r.session.output
  {
    match GetCommand(s)
    case Eof(t) => Failed(EOFError, t)
    case Got(cmd, t) =>
      var step := Handle(instrs, cmd, t);
      match step.reply
      case Resume => Done(true, step.session)
      case Stay => Done(false, step.session)
      case Invalid => Done(false, Print(step.session, [InvalidArgumentsMsg]))
      case Fatal(f) => Failed(f, step.session)
  }

  /** `while not self.__next_command(): pass` */
  function PauseLoop(instrs: seq<Instruction>, s: Session): (r: Answer)
    decreases |s.input|
    ensures r.Done? ==> r.truthy
    ensures r.session.current == s.current
    ensures s.output <= r.session.output
  {
    match NextCommand(instrs, s)
    case Failed(f, t) => Failed(f, t)
    case Done(truthy, t) => if truthy then Done(true, t) else PauseLoop(instrs, t)
  }

  /** The messages __break prints before it takes commands: the address and up to PRINT_AHEAD records. */
  function Banner(instrs: seq<Instruction>, s: Session): (t: Session)
    requires s.current < |instrs|
    ensures t == s.(output := t.output) && |t.output| > |s.output| && s.output <= t.output
    ensures t.output[|s.output|] == BreakAt(instrs[s.current].regs.pc)
  {
    var ahead := if PRINT_AHEAD < |instrs| - s.current then PRINT_AHEAD else |instrs| - s.current;
    Print(s, [BreakAt(instrs[s.current].regs.pc)] + ListingEvents(instrs[s.current..s.current + ahead]))
  }

  /** __break: print the banner, then take commands until one resumes. */
  function Break(instrs: seq<Instruction>, s: Session): (r: Answer)
    ensures r.session.current == s.current && s.output <= r.session.output
    ensures s.current >= |instrs| ==> r == Failed(Failure.IndexError, s)
    ensures s.current < |instrs| ==>
      |r.session.output| > |s.output| && r.session.output[|s.output|] == BreakAt(instrs[s.current].regs.pc)
  {
    if s.current >= |instrs| then Failed(Failure.IndexError, s)
    else PauseLoop(instrs, Banner(instrs, s))
  }

  /** How run ends: "End of program.", a RuntimeError, or an uncaught exception. */
  datatype RunOutcome =
    | Finished(session: Session)
    | ProgramError(msg: string, session: Session)
    | Crashed(failure: Failure, session: Session)

  /** What run needs of the pause it calls at a breakpoint: it keeps the cursor and only appends output. */
  ghost predicate KeepsCursor(pause: (seq<Instruction>, Session) -> Answer)
  {
    forall instrs, s :: pause(instrs, s).session.current == s.current && s.output <= pause(instrs, s).session.output
  }

  lemma BreakKeepsCursor()
    ensures KeepsCursor(Break)
  {
    forall instrs, s
      ensures Break(instrs, s).session.current == s.current && s.output <= Break(instrs, s).session.output
    {
    }
  }

  /**
   * The while loop of run, from record s.current on, for a given pause
   * function; run itself uses Break.
   */
  function ReplayWith(pause: (seq<Instruction>, Session) -> Answer, instrs: seq<Instruction>, s: Session): (r: RunOutcome)
    requires KeepsCursor(pause)
    decreases |instrs| - s.current
    ensures r.session.current >= s.current
    ensures s.output <= r.session.output
  {
    if !s.running || s.current >= |instrs| then Finished(Print(s, [EndOfProgram]))
    else if Truthy(instrs[s.current].error) then ProgramError(instrs[s.current].error.value, s)
    else if instrs[s.current].regs.pc in s.breakpoints || s.brk then
      match pause(instrs, s.(brk := false))
      case Failed(f, t) => Crashed(f, t)
      case Done(_, t) => ReplayWith(pause, instrs, t.(current := t.current + 1))
    else ReplayWith(pause, instrs, s.(current := s.current + 1))
  }

  /** The while loop of run, from record s.current on. */
  function RunLoop(instrs: seq<Instruction>, s: Session): (r: RunOutcome)
    ensures r.session.current >= s.current
    ensures s.output <= r.session.output
  {
    BreakKeepsCursor();
    ReplayWith(Break, instrs, s)
  }

  /**
   * The loop ends with "End of program." only once `running` is false or
   * the cursor has reached the end of the records.
   */
  lemma {:induction false} ReplayFinishes(pause: (seq<Instruction>, Session) -> Answer, instrs: seq<Instruction>, s: Session)
    requires KeepsCursor(pause) && s.current <= |instrs|
    decreases |instrs| - s.current
    ensures var r := ReplayWith(pause, instrs, s);
      r.Finished? ==>
        && (!r.session.running || r.session.current == |instrs|)
        && |r.session.output| > 0 && r.session.output[|r.session.output| - 1] == EndOfProgram
  {
    if s.running && s.current < |instrs| && !Truthy(instrs[s.current].error) {
      if instrs[s.current].regs.pc in s.breakpoints || s.brk {
        match pause(instrs, s.(brk := false))
        case Failed(f, t) =>
        case Done(_, t) => ReplayFinishes(pause, instrs, t.(current := t.current + 1));
      } else {
        ReplayFinishes(pause, instrs, s.(current := s.current + 1));
      }
    }
  }

  /** The loop raises a RuntimeError only at a record whose error is truthy, and carries that error. */
  lemma {:induction false} ReplayRaises(pause: (seq<Instruction>, Session) -> Answer, instrs: seq<Instruction>, s: Session)
    requires KeepsCursor(pause)
    decreases |instrs| - s.current
    ensures var r := ReplayWith(pause, instrs, s);
      r.ProgramError? ==>
        r.session.current < |instrs| && Truthy(instrs[r.session.current].error) &&
        r.msg == instrs[r.session.current].error.value
  {
    if s.running && s.current < |instrs| && !Truthy(instrs[s.current].error) {
      if instrs[s.current].regs.pc in s.breakpoints || s.brk {
        match pause(instrs, s.(brk := false))
        case Failed(f, t) =>
        case Done(_, t) => ReplayRaises(pause, instrs, t.(current := t.current + 1));
      } else {
        ReplayRaises(pause, instrs, s.(current := s.current + 1));
      }
    }
  }

  /** run's loop finishes only at quit or at the end of the records, printing "End of program." last. */
  lemma RunLoopFinishes(instrs: seq<Instruction>, s: Session)
    requires s.current <= |instrs|
    ensures var r := RunLoop(instrs, s);
      r.Finished? ==>
        && (!r.session.running || r.session.current == |instrs|)
        && |r.session.output| > 0 && r.session.output[|r.session.output| - 1] == EndOfProgram
  {
    BreakKeepsCursor();
    ReplayFinishes(Break, instrs, s);
  }

  /** run's loop raises RuntimeError only at a record with a truthy error, with that error as message. */
  lemma RunLoopRaises(instrs: seq<Instruction>, s: Session)
    ensures var r := RunLoop(instrs, s);
      r.ProgramError? ==>
        r.session.current < |instrs| && Truthy(instrs[r.session.current].error) &&
        r.msg == instrs[r.session.current].error.value
  {
    BreakKeepsCursor();
    ReplayRaises(Break, instrs, s);
  }

  /** run: pause on record 0, then replay from record 1. */
  function Run(instrs: seq<Instruction>, s: Session): RunOutcome
  {
    match Break(instrs, s)
    case Failed(f, t) => Crashed(f, t)
    case Done(_, t) => RunLoop(instrs, t.(current := t.current + 1))
  }

  // ---------- properties of the replay ----------

  /** The first pause is on record 0, and an empty log is an IndexError before anything is printed. */
  lemma FirstPause(instrs: seq<Instruction>, input: seq<string>)
    ensures instrs == [] ==> Run(instrs, Start(input)) == Crashed(Failure.IndexError, Start(input))
    ensures instrs != [] ==> var o := Run(instrs, Start(input)).session.output;
      |o| > 0 && o[0] == BreakAt(instrs[0].regs.pc)
  {
    if instrs != [] {
      var s := Start(input);
      match Break(instrs, s)
      case Failed(f, t) =>
      case Done(_, t) =>
        var r := RunLoop(instrs, t.(current := t.current + 1));
        assert t.output <= r.session.output;
    }
  }

  /** The index of the first record at or after `from` with a truthy error, or |instrs|. */
  function FirstError(instrs: seq<Instruction>, from: nat): (k: nat)
    decreases |instrs| - from
    ensures from <= |instrs| ==> from <= k <= |instrs|
    ensures k < |instrs| ==> Truthy(instrs[k].error)
    ensures forall j :: from <= j < k && j < |instrs| ==> !Truthy(instrs[j].error)
  {
    if from >= |instrs| then from
    else if Truthy(instrs[from].error) then from
    else FirstError(instrs, from + 1)
  }

  /**
   * With no breakpoints and brk clear the loop never pauses again: it ends
   * with the first truthy error at or after the cursor, or with
   * "End of program." once the records run out.
   */
  lemma {:induction false} ReplayWithoutBreakpoints(pause: (seq<Instruction>, Session) -> Answer, instrs: seq<Instruction>, s: Session)
    requires KeepsCursor(pause)
    requires s.breakpoints == [] && !s.brk && s.running && s.current <= |instrs|
    decreases |instrs| - s.current
    ensures var k := FirstError(instrs, s.current);
      ReplayWith(pause, instrs, s) ==
        if k < |instrs| then ProgramError(instrs[k].error.value, s.(current := k))
        else Finished(Print(s.(current := |instrs|), [EndOfProgram]))
  {
    if s.current < |instrs| && !Truthy(instrs[s.current].error) {
      ReplayWithoutBreakpoints(pause, instrs, s.(current := s.current + 1));
    }
  }

  /** run's loop without breakpoints or ni: the first truthy error from the cursor on, or "End of program.". */
  lemma RunWithoutBreakpoints(instrs: seq<Instruction>, s: Session)
    requires s.breakpoints == [] && !s.brk && s.running && s.current <= |instrs|
    ensures var k := FirstError(instrs, s.current);
      RunLoop(instrs, s) ==
        if k < |instrs| then ProgramError(instrs[k].error.value, s.(current := k))
        else Finished(Print(s.(current := |instrs|), [EndOfProgram]))
  {
    BreakKeepsCursor();
    ReplayWithoutBreakpoints(Break, instrs, s);
  }

  /**
   * Where run's loop stops next: the cursor itself when brk is set,
   * otherwise the first record at or after it whose error is truthy or whose
   * pc is a breakpoint, or the end of the records.
   */
  function NextStop(instrs: seq<Instruction>, s: Session): (k: nat)
    decreases |instrs| - s.current
    ensures s.current <= k && (s.current <= |instrs| ==> k <= |instrs|)
    ensures s.brk ==> k == s.current
    ensures k < |instrs| ==> Truthy(instrs[k].error) || instrs[k].regs.pc in s.breakpoints || s.brk
    ensures forall j :: s.current <= j < k && j < |instrs| ==>
      !s.brk && !Truthy(instrs[j].error) && instrs[j].regs.pc !in s.breakpoints
  {
    if s.brk || s.current >= |instrs| then s.current
    else if Truthy(instrs[s.current].error) || instrs[s.current].regs.pc in s.breakpoints then s.current
    else NextStop(instrs, s.(current := s.current + 1))
  }

  /**
   * The loop passes over every record before the next stop without a word;
   * there it finishes at the end of the records, raises at a record with a
   * truthy error (even when its pc is a breakpoint), and otherwise pauses
   * with brk cleared and replays on from the record after the pause.
   */
  lemma {:induction false} ReplayToNextStop(pause: (seq<Instruction>, Session) -> Answer, instrs: seq<Instruction>, s: Session)
    requires KeepsCursor(pause) && s.running
    decreases |instrs| - s.current
    ensures var k := NextStop(instrs, s);
      ReplayWith(pause, instrs, s) ==
        if k >= |instrs| then Finished(Print(s.(current := k), [EndOfProgram]))
        else if Truthy(instrs[k].error) then ProgramError(instrs[k].error.value, s.(current := k))
        else match pause(instrs, s.(current := k, brk := false))
          case Failed(f, t) => Crashed(f, t)
          case Done(_, t) => ReplayWith(pause, instrs, t.(current := k + 1))
  {
    if !s.brk && s.current < |instrs| && !Truthy(instrs[s.current].error) && instrs[s.current].regs.pc !in s.breakpoints {
      var u := s.(current := s.current + 1);
      ReplayToNextStop(pause, instrs, u);
      assert NextStop(instrs, s) == NextStop(instrs, u);
      assert u.(current := NextStop(instrs, u)) == s.(current := NextStop(instrs, s));
    } else {
      assert s.(current := NextStop(instrs, s)) == s;
    }
  }

  /** run's loop from any running session: silent up to the next stop, then what that stop calls for. */
  lemma RunToNextStop(instrs: seq<Instruction>, s: Session)
    requires s.running
    ensures var k := NextStop(instrs, s);
      RunLoop(instrs, s) ==
        if k >= |instrs| then Finished(Print(s.(current := k), [EndOfProgram]))
        else if Truthy(instrs[k].error) then ProgramError(instrs[k].error.value, s.(current := k))
        else match Break(instrs, s.(current := k, brk := false))
          case Failed(f, t) => Crashed(f, t)
          case Done(_, t) => RunLoop(instrs, t.(current := k + 1))
  {
    BreakKeepsCursor();
    ReplayToNextStop(Break, instrs, s);
  }

  /**
   * At a record without error whose pc is a breakpoint (listed once or more)
   * or with brk set, the loop pauses there: the next message is the break
   * banner for that record's pc.
   */
  lemma PauseAtBreakpoint(instrs: seq<Instruction>, s: Session)
    requires s.running && s.current < |instrs| && !Truthy(instrs[s.current].error)
    requires instrs[s.current].regs.pc in s.breakpoints || s.brk
    ensures var o := RunLoop(instrs, s).session.output;
      |o| > |s.output| && o[|s.output|] == BreakAt(instrs[s.current].regs.pc)
  {
    match Break(instrs, s.(brk := false))
    case Failed(f, t) =>
    case Done(_, t) =>
      var r := RunLoop(instrs, t.(current := t.current + 1));
      assert t.output <= r.session.output;
  }
}
