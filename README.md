# GBEMU core and its replay debugger, in Dafny

GBEMU is a Game Boy emulator written in C. This project models its core and
proves properties about it:

- the memory bus that routes an address to the device connected there;
- the word reads and writes built on top of the bus;
- the CPU register file;
- the first three opcodes and the opcode table;
- the interrupt controller (IF/IE registers, IME scheduling, dispatch);
- the hardware timer (DIV, TIMA, TMA, TAC and the delayed TIMA reload).

It also models `debug.py`, the Python replay debugger. That tool parses the
emulator's DEBUG/ERROR log into a list of instructions, then lets a user step
through them with breakpoints, register dumps and listings.

Each module follows one source file:

| file | module | models |
|---|---|---|
| ctypes.dfy | CTypes | `uint8_t`, `uint16_t`, C narrowing, undefined behaviour as an outcome |
| bits.dfy | Bits | C `>>`, `&`, `\|`, `^` on non-negative integers, and their bit-level laws |
| registers.dfy | CpuRegisters | `include/cpu/registers.h` |
| bus.dfy | Bus | `src/bus.c` |
| mem_utils.dfy | MemUtils | `src/mem_utils.c` |
| interrupts.dfy | Interrupts | `src/interrupts.c`, `include/cpu/interrupts.h` |
| timer.dfy | Timer | `src/timer.c`, `include/cpu/timer.h` |
| opcodes.dfy | Opcodes | `src/opcodes.c`, `include/cpu/opcodes.h` |
| pystr.dfy | PyStr | the Python built-ins `debug.py` relies on: `str.splitlines`, `str.find`, `str.split(' ')`, `int(s, base)` |
| trace_parser.dfy | TraceParser | `filter_logfile`, `parse_instruction`, `parse_logfile` and the three regular expressions |
| commands.dfy | Commands | the debugger's behaviour as functions over a `Session` value: command handlers, command reading, `__break`, `run` |
| debugger.dfy | ReplayDebugger | the `Debugger` object as a class whose methods update its fields, each proved equal to the function in Commands |

How the C side is modelled:

- Global state becomes a class:
  - the bus connection list is `Bus.Bus`;
  - `cpu.ime`, `cpu.if_flags` and `cpu.ie_flags` are `Interrupts.IrqRegs`;
  - `cpu.timer_regs` is `Timer.TimerRegs`.
- Functions that return an `int` status return that integer. Where the C code
  reaches undefined behaviour (a NULL dereference), they return
  `CTypes.Outcome.Undefined`.
- Every device on the bus is memory-backed: a map from device to cells.
- Each timer step is also a pure function (`Timer.Tick`). The method
  `TimerRegs.Update` is proved equal to it, and the lemmas are stated
  about the function.

How the debugger is modelled:

- Console input is a sequence of lines that is consumed as commands are read.
- Console output is a sequence of `Event` values, one per `print`.
- A raised exception that nothing catches ends the run as
  `Crashed(failure)` or `ProgramError(msg)`.

Behaviours the proofs expose (the model keeps the code as written):

- **The log filter keeps every row.** `row.find("DEBUG: ") or row.find("ERROR: ")`
  is falsy only when both calls return 0, which cannot happen
  (`TraceParser.AllKept`). The net effect is that the filter drops one
  trailing empty line (`TraceParser.FilteredLines`).
- **A successful parse ends on an error record.** `parse_logfile` calls
  `parse_instruction` on every even offset. A call with fewer than three lines
  left raises, so a successful parse always stops at a record whose
  error text is non-empty (`TraceParser.ParseLogfileShape`).
- **An empty error is falsy.** An `ERROR: ` line with nothing after it yields
  the error `""`. That is falsy, so it neither stops the parse nor makes
  `run` raise.
- **The IME delay can lock up.** In `set_ime`, a countdown that equals 1
  never advances: an enable countdown at 1 never sets IME and a disable
  countdown at 1 never clears it, each on its own
  (`Interrupts.EnableAtOneIsStuck`, `Interrupts.DisableAtOneIsStuck`).
- **The timer edge is rising, and one bit higher.** `(div >> bit) & (tac & 4)`
  tests DIV bit `FREQ_TO_DIV_BIT[tac & 3] + 2`, not the table's bit
  (`Timer.DivBit`). TIMA counts when that test goes from 0 to 4, a rising
  edge, although the comment in the source speaks of a falling edge.
- **A write of 0 to TIMA does not cancel a reload.** The comment at
  src/timer.c:82 says the test detects a write to TIMA, but it tests for a
  nonzero TIMA. During the delay TIMA is 0, so writing 0 to it goes unnoticed
  and the reload from TMA still happens (`Timer.ReloadCancelled`,
  `Timer.ZeroWriteUnnoticed`).
- **`irq_init` never returns 0.** The second `add_bus_connection`
  (IE at 0xFFFF, which lies after IF at 0xFF0F) appends at the end of the
  list. That path dereferences NULL at src/bus.c:73, so on an empty bus the
  call ends in undefined behaviour (`Interrupts.IrqRegs.Init`).
- **The IE register shares IF's handlers.** The IE connection is registered
  with IF's handlers, so in the C program an access to 0xFFFF would reach
  IF. The model registers both connections with the IF device identifier.
  The IE connection is never actually added, because its
  `add_bus_connection` hits the NULL dereference above. So `irq_init`
  never maps 0xFFFF on the bus.
- **`remove_bus_connection` has two undefined paths.** Removing the first
  connection frees the head but leaves the list pointing to it. An empty list
  is dereferenced. Both end in `Undefined` (`Bus.Bus.RemoveConnection`).

## Model

| member | source | states |
|---|---|---|
| CpuRegisters.ByteSplit | include/cpu/registers.h:34-35 | A 16-bit register equals its high byte times 256 plus its low byte, so the two byte views lose nothing |
| CpuRegisters.GetMsb | include/cpu/registers.h:34 | `GET_MSB`: the high byte. No contract of its own; see ByteSplit, ByteJoin and SetMsb |
| CpuRegisters.GetLsb | include/cpu/registers.h:35 | `GET_LSB`: the low byte. No contract of its own; see ByteSplit, ByteJoin and SetLsb |
| CpuRegisters.ByteJoin | include/cpu/registers.h:6-7 | Any high and low byte form a 16-bit value whose byte views give them back |
| CpuRegisters.SetMsb | include/cpu/registers.h:36 | Setting the high byte changes it to the given value and leaves the low byte as it was |
| CpuRegisters.SetLsb | include/cpu/registers.h:37 | Setting the low byte changes it to the given value and leaves the high byte as it was |
| CpuRegisters.SetBothBytes | include/cpu/registers.h:36-37 | Setting both bytes, in either order, gives `lo + hi*256` whatever the register held before |
| CpuRegisters.Registers.constructor | include/cpu/registers.h:17-32 | A new register file is all zero |
| CpuRegisters.Registers.A | include/cpu/registers.h:17-26 | A, the high byte of AF, as the union lays it out. No contract of its own; see ByteSplit and Registers.Init |
| CpuRegisters.Registers.F | include/cpu/registers.h:17-26 | F, the low byte of AF. No contract of its own; see ByteSplit and Registers.Init |
| CpuRegisters.Registers.B | include/cpu/registers.h:27 | B, the high byte of BC under `__REG(b, c)`. No contract of its own; see ByteSplit and Registers.Init |
| CpuRegisters.Registers.C | include/cpu/registers.h:27 | C, the low byte of BC. No contract of its own; see ByteSplit and Registers.Init |
| CpuRegisters.Registers.D | include/cpu/registers.h:28 | D, the high byte of DE. No contract of its own; see ByteSplit and Registers.Init |
| CpuRegisters.Registers.E | include/cpu/registers.h:28 | E, the low byte of DE. No contract of its own; see ByteSplit and Registers.Init |
| CpuRegisters.Registers.H | include/cpu/registers.h:29 | H, the high byte of HL. No contract of its own; see ByteSplit and Registers.Init |
| CpuRegisters.Registers.L | include/cpu/registers.h:29 | L, the low byte of HL. No contract of its own; see ByteSplit and Registers.Init |
| CpuRegisters.Registers.FlagZ | include/cpu/registers.h:9-15 | The z field, bit 7 of F. No contract of its own; see Registers.Init |
| CpuRegisters.Registers.FlagN | include/cpu/registers.h:9-15 | The n field, bit 6 of F. No contract of its own; see Registers.Init |
| CpuRegisters.Registers.FlagH | include/cpu/registers.h:9-15 | The h field, bit 5 of F. No contract of its own; see Registers.Init |
| CpuRegisters.Registers.FlagC | include/cpu/registers.h:9-15 | The c field, bit 4 of F. No contract of its own; see Registers.Init |
| CpuRegisters.Registers.Init | include/cpu/registers.h:39-52 | After reset: AF=0x01B0, BC=0x0013, DE=0x00D8, HL=0x014D, SP=0xFFFE, PC=0x0100; A=0x01; F=0xB0 with Z, H and C set and N clear; the other byte registers as implied |
| Bus.OverlapSymmetric | src/bus.c:6-10 | Overlap of two address ranges does not depend on which is taken first |
| Bus.CoverUnique | src/bus.c:30-82 | In a list kept ordered and free of overlaps, at most one connection covers an address |
| Bus.FirstCover | src/bus.c:12-27 | If the search finds a connection, it covers the address and no earlier one does. It finds none exactly when none covers the address |
| Bus.Route | src/bus.c:108-128 | An address has a target exactly when some connection covers it. The target is that connection's device, at the offset of the address from the start |
| Bus.LoadAfterStore | src/bus.c:108-128 | Reading a routed address after writing v to it gives v. A write leaves every address mapped to another target as it was |
| Bus.InsertionPoint | src/bus.c:58-70 | The insertion point comes after every connection starting at or below the new start, and before the first one starting above it |
| Bus.InsertOrdered | src/bus.c:47-70 | Inserting a non-overlapping connection at its insertion point keeps the list ordered by start and free of overlaps |
| Bus.RemoveOrdered | src/bus.c:95-105 | Unlinking any one connection keeps the list ordered and free of overlaps |
| Bus.MatchAfterHead | src/bus.c:95-105 | The removal walk finds the first connection after the head whose start matches, or reports that there is none |
| Bus.Bus.constructor | src/bus.c:4 | A new bus has no connections |
| Bus.Bus.FindConnection | src/bus.c:12-27 | Returns the first connection covering the address, or none exactly when no connection covers it |
| Bus.Bus.AddConnection | src/bus.c:30-82 | Into an empty list, the connection becomes the list and 0 is returned. An overlap returns -1 and changes nothing. Insertion at the end is undefined behaviour. Otherwise the connection goes in at its insertion point. The list stays ordered and free of overlaps |
| Bus.Bus.RemoveConnection | src/bus.c:84-106 | On an empty list, or when the head matches, the result is undefined behaviour. Otherwise the first later match is unlinked and 0 is returned, or -1 with the list unchanged when nothing matches. The list stays ordered |
| Bus.Bus.Read | src/bus.c:108-117 | Returns the routed device's cell and 0, or -1 when no connection covers the address |
| Bus.Bus.Write | src/bus.c:119-128 | Stores the byte in the routed device's cell and returns 0, or changes nothing and returns -1 when the address is not covered |
| MemUtils.WordAtBytes | src/mem_utils.c:4-20 | A word is read exactly when both bytes are routed. It is the low byte at the address plus 256 times the byte at the next address, which wraps at 0xFFFF |
| MemUtils.NextAddress | src/mem_utils.c:13 | `address + 1` as passed to `bus_read` and `bus_write` (lines 13 and 31), narrowed to 16 bits. No contract of its own; see WordAtBytes |
| MemUtils.WordAt | src/mem_utils.c:4-20 | The word `read_word` produces, or none when a byte read fails. No contract of its own; see WordAtBytes, WordRoundTrip and ReadWord |
| MemUtils.StoreWord | src/mem_utils.c:22-37 | An unrouted address stores nothing and gives -1. An unrouted second byte keeps the low byte written and gives -1. The code is 0 exactly when both bytes are routed, and then the low byte is stored at the address and the high byte at the next one |
| MemUtils.StoreWordFrame | src/mem_utils.c:22-37 | A word write leaves every address routed elsewhere than its two bytes reading as before |
| MemUtils.WordRoundTrip | src/mem_utils.c:4-37 | Writing a word to two distinct routed cells and reading it back gives the same word |
| MemUtils.ReadWord | src/mem_utils.c:4-20 | Returns the little-endian word at the address and 0, or -1 when either byte is unrouted |
| MemUtils.WriteWord | src/mem_utils.c:22-37 | The return code and the new device cells are those given by StoreWord |
| Interrupts.RaiseIrq | src/timer.c:92 | Raising interrupt i sets bit i of IF and leaves every other bit as it was |
| Interrupts.IrqAddress | include/cpu/interrupts.h:10-14 | Interrupt i vectors to 0x40 + 8i |
| Interrupts.PendingBit | src/interrupts.c:71 | An interrupt is pending in `IF & IE` exactly when it is both requested and enabled |
| Interrupts.Pending | src/interrupts.c:71 | `IF & IE & 0x1F`. No contract of its own; see PendingBit and LowestPending |
| Interrupts.LowestSetBit | src/interrupts.c:74-82 | Returns the lowest set bit among positions from..4, or 0xFF exactly when there is none |
| Interrupts.LowestPending | src/interrupts.c:67-85 | Returns the lowest interrupt that is both requested and enabled, or 0xFF exactly when there is none |
| Interrupts.SetIme | src/interrupts.c:89-116 | A counter at 2 or more clears to 0 and takes effect. Disable wins over enable. Counters below 2 are kept, as is IME when neither fires |
| Interrupts.EnableAtOneIsStuck | src/interrupts.c:91-102 | An enable countdown at 1 stays 1 over any number of steps, and IME keeps its value or is cleared, never set |
| Interrupts.DisableAtOneIsStuck | src/interrupts.c:104-115 | A disable countdown at 1 stays 1 over any number of steps, and IME keeps its value or is set, never cleared |
| Interrupts.CounterAtOneIsStuck | src/interrupts.c:91-115 | With both counters at 1, any number of scheduling steps leaves the IME state unchanged |
| Interrupts.IrqRegs.IfRead | src/interrupts.c:10-14 | Returns the IF byte and 0 |
| Interrupts.IrqRegs.IfWrite | src/interrupts.c:16-21 | The five interrupt bits of IF take the written value. The top three bits become 0b011. Returns 0 |
| Interrupts.IrqRegs.IeRead | src/interrupts.c:23-27 | Returns the IE byte and 0 |
| Interrupts.IrqRegs.IeWrite | src/interrupts.c:29-33 | IE becomes the written byte. Returns 0 |
| Interrupts.IrqRegs.constructor | include/cpu/interrupts.h:30-37 | IME, IF and IE start at 0, as the zero-initialised globals do, and the CPU is not halted |
| Interrupts.IrqRegs.Init | src/interrupts.c:35-56 | IME becomes 0, IF 0xE0 (no interrupt requested) and IE 0. The result is -1 with the bus unchanged exactly when the IF connection overlaps a neighbour at its insertion point, and undefined behaviour in every other case, an empty bus included |
| Interrupts.IrqRegs.End | src/interrupts.c:58-65 | Success removes two connections. When IF heads the list the result is undefined behaviour |
| Interrupts.IrqRegs.GetSetInterruptNo | src/interrupts.c:67-85 | Returns the lowest pending interrupt, or 0xFF |
| Interrupts.IrqRegs.UpdateIme | src/interrupts.c:89-116 | The new IME and counters are those given by SetIme |
| Interrupts.IrqRegs.HandleInterrupts | src/interrupts.c:118-157 | Applies SetIme. If IME is then set and an interrupt is pending: PC is pushed two bytes below SP, that IF bit is cleared, IME is cleared, PC jumps to the vector, the CPU leaves halt and the cycle count is 20 (24 from halt). A failed push returns -1 and leaves PC and IF alone. With IME clear, a halted CPU with anything pending wakes at a cost of 4 cycles. AF/BC/DE/HL and IE never change |
| Interrupts.IrqRegs.Service | src/interrupts.c:129-149 | SP drops by 2 and the old PC is written there as a word. On success PC jumps to the vector, only that IF bit is cleared, IME goes off, the CPU leaves halt, and 20 cycles are charged (24 from halt). A failed push returns -1 with PC, IF, IME, the state and the cycles unchanged |
| Interrupts.ClearedBit | src/interrupts.c:138 | XOR with a set bit clears that bit and keeps the others |
| Timer.TacEnable | include/cpu/timer.h:24 | The enable macro is 4 when TAC bit 2 is set and 0 otherwise |
| Timer.TacFreq | include/cpu/timer.h:25 | The frequency macro is TAC modulo 4 |
| Timer.DivBit | src/timer.c:97 | The sampled value is 0 or 4. It is 4 exactly when the timer is enabled and DIV bit `FREQ_TO_DIV_BIT[tac & 3] + 2` is set |
| Timer.ReadReg | src/timer.c:6-28 | Offsets 0-3 read the DIV high byte, TIMA, TMA and TAC & 7. Any other offset fails |
| Timer.WriteReg | src/timer.c:30-52 | A write at offset 0 resets DIV. Offsets 1-2 set TIMA or TMA. Offset 3 sets TAC to val & 7. Any other offset fails; nothing else changes |
| Timer.ReadAfterWrite | src/timer.c:6-52 | A read after a write gives what the write stored (0 for DIV, val & 7 for TAC). A write does not change what any other register reads |
| Timer.Tick | src/timer.c:74-107 | Every step advances DIV by one, modulo 2^16, and never changes TAC or TMA |
| Timer.ReachableKept | src/timer.c:54-107 | The reset state is reachable, and Tick and register writes keep the overflow counter and TAC within their ranges |
| Timer.ReloadCancelled | src/timer.c:80-86 | A nonzero TIMA during the reload delay cancels the reload: the counter resets and only DIV changes. Writing 0 to TIMA goes unnoticed |
| Timer.ZeroWriteUnnoticed | src/timer.c:80-94 | In the first two ticks of the delay, a TIMA write cancels the reload exactly when its value is nonzero. After a write of 0 the countdown advances as if nothing had been written |
| Timer.CountOnRisingEdge | src/timer.c:97-106 | Outside the reload delay, TIMA counts exactly on a 0-to-4 change of the sampled bit, and wraps to 0 from 0xFF. That wrap starts the delay |
| Timer.StoppedTimer | src/timer.c:97 | A disabled timer only advances DIV and records the sampled bit as 0 |
| Timer.DelayedReload | src/timer.c:80-95 | After TIMA overflows, two steps only count the delay. The third reloads TIMA from TMA and raises the timer interrupt in IF |
| Timer.TimerRegs.constructor | include/cpu/timer.h:6-14 | A new register block is all zero |
| Timer.TimerRegs.Read | src/timer.c:6-28 | Returns ReadReg of the current registers, with 0, or -1 for an unknown offset |
| Timer.TimerRegs.Write | src/timer.c:30-52 | The registers become WriteReg of the old ones and 0 is returned, or -1 with nothing changed |
| Timer.TimerRegs.Init | src/timer.c:54-64 | DIV becomes 0xABCC and every other field 0. The result is add_bus_connection's for the four timer addresses, case for case. An empty bus gets them as its only connection and 0. No later start is undefined behaviour. An overlap with a neighbour is -1 with the bus unchanged. Otherwise the connection is inserted at its insertion point and 0 is returned |
| Timer.TimerRegs.End | src/timer.c:66-69 | Success removes one connection. -1 changes nothing. When DIV heads the list the result is undefined behaviour |
| Timer.TimerRegs.Update | src/timer.c:74-107 | The new timer registers and IF are exactly one Tick of the old ones |
| Opcodes.Nop | src/opcodes.c:5-8 | Returns 0 and changes nothing |
| Opcodes.Ld1 | src/opcodes.c:10-29 | Succeeds exactly when the word after the opcode can be read, and BC then holds it. A failed low byte leaves BC alone; a failed high byte keeps the low byte stored |
| Opcodes.Ld2 | src/opcodes.c:31-34 | Stores A at the address in BC and returns the bus status |
| Opcodes.OpcodeTable.constructor | include/cpu/opcodes.h:6-16 | The table has 256 entries, all unset |
| Opcodes.OpcodeTable.AddOpcode | include/cpu/opcodes.h:19-21 | Sets one entry to the given handler, size and cycles and no other |
| Opcodes.OpcodeTable.RegisterOpcodes | src/opcodes.c:36-41 | Entries 0x00, 0x01 and 0x02 become NOP (1,1), LD BC,d16 (3,3) and LD (BC),A (1,2). Every other entry is unchanged |
| PyStr.FirstBoundary | debug.py:121 | Finds the first character that str.splitlines treats as a line boundary |
| PyStr.SplitLines | debug.py:121 | No line holds a boundary character. The empty string, and only it, gives no lines |
| PyStr.SplitLinesJoin | debug.py:146 | Splitting `'\n'.join(rows)` into lines gives back the rows, minus one trailing empty row |
| PyStr.FindFrom | debug.py:121 | Returns the first index at which the pattern occurs, or -1 exactly when it occurs nowhere |
| PyStr.FindZero | debug.py:121 | `find` returns 0 exactly when the string starts with the pattern |
| PyStr.Split | debug.py:79 | `split(' ')` returns at least one field and no field holds a space |
| PyStr.IndexOf | debug.py:79 | Returns the first position of the separator, or the length when there is none |
| PyStr.SplitJoin | debug.py:79 | Joining the fields of `split(' ')` with spaces gives back the input |
| PyStr.FormatValue | debug.py:140 | The digits of a number in base 10 or 16 denote that number |
| PyStr.ParseFormat | debug.py:140 | `int()` of a non-negative number's digits, in base 10 or 16, gives back the number |
| PyStr.ParseFormatNegative | debug.py:204 | `int()` of a minus sign followed by a number's digits gives the negated number |
| TraceParser.Search | debug.py:125-133 | `re.search` reports the leftmost position where the pattern matches, or none exactly when it matches nowhere |
| TraceParser.ErrorSearchIsFind | debug.py:16 | Searching for the error pattern is `str.find` of "ERROR: " |
| TraceParser.RestOfLine | debug.py:14-16 | The `(.*)` group runs to the line's end and holds no newline |
| TraceParser.HexField | debug.py:15 | Each named register group matched by the register pattern is four lowercase hex digits |
| TraceParser.HexValue | debug.py:140 | Four hex digits parse with `int(_, 16)` to a value below 2^16 |
| TraceParser.RegsOf | debug.py:140 | Every register parsed from a matched line is a 16-bit value |
| TraceParser.ParseInstruction | debug.py:124-141 | Success needs at least three lines and yields 16-bit registers |
| TraceParser.ParseInstructionContents | debug.py:124-141 | On success each register is `int(_, 16)` of the four digits after its name in the dump, SP's group before PC's. The mnemonic is the character after `DEBUG: ` (anything but 'A', even a newline), then the rest of that line |
| TraceParser.ParseInstructionOutcome | debug.py:124-141 | Success holds exactly when the first line matches the register pattern and the second the mnemonic pattern. Fewer lines than needed raise IndexError; a failed match raises ParsingError on that line. The error is the third line's `ERROR: ` text, or none |
| TraceParser.AllKept | debug.py:121 | The filter's condition holds for every row |
| TraceParser.FilterLogfile | debug.py:120-121 | `filter_logfile`. No contract of its own; see FilterKeepsAll and FilteredLines |
| TraceParser.FilterKeepsAll | debug.py:121 | The filter returns its rows unchanged |
| TraceParser.FilteredLines | debug.py:146 | The filtered log's lines are the log's lines minus one trailing empty line |
| TraceParser.ParseLogfile | debug.py:144-152 | The loop's result equals the recursive reading of records at every even offset, stopping after a record with a truthy error |
| TraceParser.ParseEach | debug.py:148-152 | The for loop of `parse_logfile` as a recursion over even offsets, for any record parser. No contract of its own; see ParseEachEnds and ParseEachRecords |
| TraceParser.ParseFrom | debug.py:148-152 | ParseEach with `parse_instruction`. No contract of its own; see ParseLogfile and ParseLogfileShape |
| TraceParser.ParseEachEnds | debug.py:148-152 | A successful parse is empty exactly when there are no lines. Its last record has a truthy error and no earlier one does |
| TraceParser.ParseEachRecords | debug.py:148-149 | Record k of a successful parse is the parse of the lines from offset 2k |
| TraceParser.ParseLogfileShape | debug.py:144-152 | A successful parse of a log is empty or ends with its only erroneous record. Record k is parsed from filtered line 2k |
| Commands.Start | debug.py:70-75 | A new session is at instruction 0, has no breakpoints, is not stepping, is running and has printed nothing |
| Commands.HelpEvents | debug.py:167-168 | Definition of what `help` prints: one entry per command, in registration order |
| Commands.HelpCmd | debug.py:162-169 | `help`: prints HelpEvents and returns False. No contract of its own; see ResumingCommands, HandlerFrame and Handle |
| Commands.ContinueCmd | debug.py:172-177 | `c`: returns True and changes nothing. No contract of its own; see ResumingCommands and HandlerFrame |
| Commands.BreakpointCmd | debug.py:180-192 | `b`. No contract of its own; see BreakpointAppends and InvalidChangesNothing |
| Commands.PyIndex | debug.py:204 | A Python index in range selects the element at n, or at n + len for a negative n |
| Commands.DeleteAt | debug.py:204 | Deleting element k keeps the elements before k and shifts the later ones down by one |
| Commands.DeleteCmd | debug.py:195-207 | `d`. No contract of its own; see DeleteRemoves and InvalidChangesNothing |
| Commands.ListEvents | debug.py:218-219 | Definition of what `l` prints: each breakpoint with its index |
| Commands.ListCmd | debug.py:210-220 | `l`: with no argument prints ListEvents, otherwise invalid. No contract of its own; see ResumingCommands, HandlerFrame and InvalidChangesNothing |
| Commands.NextInstructionCmd | debug.py:223-232 | `ni`: with no argument sets brk and returns True, otherwise invalid. No contract of its own; see ResumingCommands and HandlerFrame |
| Commands.RegisterOf | debug.py:55-56 | `Registers.__getitem__` for the six register names. No contract of its own; see RegisterCmd |
| Commands.RegisterCmd | debug.py:235-244 | `r`: prints the named register of the current record; IndexError past the end. No contract of its own; see ResumingCommands, HandlerFrame and InvalidChangesNothing |
| Commands.QuitCmd | debug.py:246-252 | `quit`: clears running and returns True. No contract of its own; see ResumingCommands and HandlerFrame |
| Commands.SliceBound | debug.py:265 | Definition of Python slice clamping: a slice bound clamps to the list: negative bounds count from the end, and bounds past either end are clipped |
| Commands.PySlice | debug.py:265 | `xs[i:j]` with Python's bounds. No contract of its own; see SliceBound and AsmDefault |
| Commands.ListingEvents | debug.py:265-266 | Definition of what `asm` prints: one line per instruction in the slice, each showing its mnemonic |
| Commands.AsmCmd | debug.py:254-267 | `asm`. No contract of its own; see AsmDefault, AsmBadCount and InvalidChangesNothing |
| Commands.Handle | debug.py:88 | No handler consumes input or moves the current instruction. Each only appends to the output |
| Commands.ResumingCommands | debug.py:162-267 | `c`, `quit` and `ni` with no argument end a pause. `help`, `b`, `d`, `l`, `r` and `asm` never do. Only `r` and `asm` can raise |
| Commands.InvalidChangesNothing | debug.py:180-244 | A command rejected with "Invalid arguments" leaves the session unchanged |
| Commands.HandlerFrame | debug.py:162-267 | Only `b` and `d` change breakpoints, only `ni` sets the step flag, and only `quit` stops the run |
| Commands.BreakpointAppends | debug.py:180-192 | `b ADDR` with a valid hex address appends it to the breakpoints and stays paused. Anything else is invalid and changes nothing |
| Commands.DeleteRemoves | debug.py:195-207 | `d N` with an index in range removes exactly one breakpoint, the N-th in Python indexing, keeping the rest as a multiset and in order. Otherwise it is invalid |
| Commands.AsmDefault | debug.py:254-267 | `asm` with no count lists the next five instructions (fewer at the end of the trace) |
| Commands.AsmBadCount | debug.py:259-263 | `asm` with a count that is not an integer raises ValueError and changes nothing |
| Commands.GetCommand | debug.py:77-83 | A command is returned only when it names a registered handler, and input is consumed. Breakpoints, step flag, running flag and position stay; output only grows |
| Commands.GetCommandSkips | debug.py:80-82 | Every line skipped before the command names no handler |
| Commands.GetCommandLine | debug.py:78-83 | The command returned is the `split(' ')` of the line after the skipped ones. Reaching end of input means all input was consumed |
| Commands.GetCommandRest | debug.py:78-83 | The remaining input is the input after the skipped lines and the accepted one |
| Commands.GetCommandComplains | debug.py:80-82 | One "Invalid command." is printed per skipped line, and nothing else |
| Commands.NextCommand | debug.py:85-90 | Handling one command consumes input, never moves the current instruction and only appends output |
| Commands.PauseLoop | debug.py:97-98 | The pause ends normally only on a command whose handler returns a truthy value |
| Commands.Banner | debug.py:93-96 | The banner appends "Break at" the current PC, then the listing ahead, and changes nothing else |
| Commands.Break | debug.py:92-98 | Past the last instruction it raises IndexError. Otherwise it prints the break banner at the current PC first and keeps the position, only appending output |
| Commands.BreakKeepsCursor | debug.py:92-98 | `__break` keeps the position and only appends output, which is all the replay loop relies on |
| Commands.ReplayWith | debug.py:110-117 | For any pause that keeps the position, the replay loop never moves backwards and only appends output |
| Commands.ReplayFinishes | debug.py:110-117 | For any such pause, finishing means quit or end of trace, and "End of program." is printed last |
| Commands.ReplayRaises | debug.py:110-112 | For any such pause, a program error is raised only at a record whose error is truthy, and carries that error as its message |
| Commands.ReplayWithoutBreakpoints | debug.py:110-117 | For any such pause, with no breakpoints and no stepping the loop never pauses: it stops at the first erroneous record, or runs to the end and prints "End of program." |
| Commands.RunLoop | debug.py:110-117 | The replay loop with `__break` as its pause never moves backwards and only appends output |
| Commands.RunLoopFinishes | debug.py:110-117 | Finishing means quit or end of trace, and "End of program." is printed last |
| Commands.RunLoopRaises | debug.py:110-112 | A program error is raised only at a record whose error is truthy, and carries that error as its message |
| Commands.FirstPause | debug.py:107-109 | An empty trace makes `run` raise IndexError at once. Otherwise the first thing printed is the break banner of instruction 0 |
| Commands.Run | debug.py:107-117 | `run`: break at record 0, then the loop from record 1. No contract of its own; see FirstPause and RunLoop |
| Commands.FirstError | debug.py:110-112 | Returns the first record with a truthy error from a position, or the end of the trace |
| Commands.RunWithoutBreakpoints | debug.py:110-117 | With no breakpoints and no stepping, a replay stops at the first erroneous record with its error, or runs to the end and prints "End of program." |
| Commands.NextStop | debug.py:110-117 | The next stop is the cursor when `ni` set brk. Otherwise it is the first record from the cursor on with a truthy error or a breakpoint pc, or the end. Every record before it has neither |
| Commands.ReplayToNextStop | debug.py:110-117 | For any pause that keeps the position, from any running session, the loop passes silently to the next stop. There it finishes at the end, raises at an error record even when its pc is a breakpoint, and otherwise pauses with brk cleared and goes on from the following record |
| Commands.RunToNextStop | debug.py:110-117 | The same for run's loop with `__break` as its pause |
| Commands.PauseAtBreakpoint | debug.py:113-115 | An instruction at a breakpoint address, or the one after `ni`, prints the break banner at its PC |
| ReplayDebugger.Debugger.constructor | debug.py:70-75 | A new debugger's state is Commands.Start of its input |
| ReplayDebugger.Debugger.GetCommand | debug.py:77-83 | Reads and complains exactly as Commands.GetCommand |
| ReplayDebugger.Debugger.NextCommand | debug.py:85-90 | Dispatches, prints "Invalid arguments" on rejection, and ends in Commands.NextCommand's state with its truthiness or failure |
| ReplayDebugger.Debugger.Break | debug.py:92-98 | Ends in Commands.Break's state, with its failure if any |
| ReplayDebugger.Debugger.PrintBanner | debug.py:93-96 | Prints "Break at" the current PC, then the next min(5, remaining) instructions, and changes nothing else: the state becomes Commands.Banner's |
| ReplayDebugger.PrintListing | debug.py:95-96 | Appends one listing line per given record, in order, and nothing else |
| ReplayDebugger.Debugger.Pause | debug.py:97-98 | Ends in Commands.PauseLoop's state |
| ReplayDebugger.Debugger.Run | debug.py:107-117 | Ends in the state and exit of Commands.Run |
| ReplayDebugger.Debugger.Replay | debug.py:110-117 | Ends in the state and exit of Commands.RunLoop |
| ReplayDebugger.Debugger.Visit | debug.py:111-116 | One pass of the while body. Either it moves on exactly one record and Commands.RunLoop from there has the same outcome as from where it started, or it stops in the state and with the exit of Commands.RunLoop |
| ReplayDebugger.Help | debug.py:162-169 | Matches Commands.HelpCmd |
| ReplayDebugger.Continue | debug.py:172-177 | Matches Commands.ContinueCmd |
| ReplayDebugger.SetBreakpoint | debug.py:180-192 | Matches Commands.BreakpointCmd |
| ReplayDebugger.DeleteBreakpoint | debug.py:195-207 | Matches Commands.DeleteCmd |
| ReplayDebugger.ListBreakpoints | debug.py:210-220 | Matches Commands.ListCmd |
| ReplayDebugger.NextInstruction | debug.py:223-232 | Matches Commands.NextInstructionCmd |
| ReplayDebugger.PrintRegister | debug.py:235-244 | Matches Commands.RegisterCmd |
| ReplayDebugger.Quit | debug.py:246-252 | Matches Commands.QuitCmd |
| ReplayDebugger.Disassemble | debug.py:254-267 | Matches Commands.AsmCmd |
| ReplayDebugger.Dispatch | debug.py:88 | Runs the handler the command names, matching Commands.Handle |

## Left out

- Console and file I/O: `input()`, `print` and the log file are sequences of lines and events. The prompt text, the exact printed formats and the help docstrings are not modelled. An event records what is printed, not how it is formatted.
- `parse_args` and `main` (debug.py:271-286): reading the log file and wiring the parser to the debugger are not modelled. `ParseLogfile` takes the log text and the `Debugger` constructor takes the instructions.
- The regular-expression engine: only the three fixed patterns of `debug.py` are modelled, each by a character-level predicate.
- `int()`: only ASCII digits and whitespace are modelled. Python also accepts other Unicode digits and spaces, which a debugger command line will not normally contain.
- `str.splitlines`: modelled over the full set of line-boundary characters it uses, with `\r\n` counted as one boundary. Only `SplitLinesJoin` relies on this, and only for rows that hold no boundary.
- `Debugger.__error` (debug.py:100-104) is never called and is not modelled.
- Exceptions other than EOFError, ValueError, IndexError and the debugger's own errors (for example KeyboardInterrupt) are not modelled.
- Function pointers on the bus become device identifiers, and every device is memory-backed. What the real handlers of other devices do is not part of this model. This includes the IF/IE and timer handlers: `Bus.Bus.Read` and `Bus.Bus.Write` treat their addresses as plain cells, so `Interrupts.IrqRegs` and `Timer.TimerRegs` are never reached through the bus. A bus write to 0xFF0F or 0xFF04-0xFF07 does not apply `irq_if_write`'s masking or `timer_write`'s DIV reset. This covers the PC push in `HandleInterrupts` and `Opcodes.Ld2`. The register handlers themselves are modelled as the methods of those two classes.
- Bus.Bus.Write: src/bus.c:119 defines `bus_write(void *result, uint16_t dst)` and passes that pointer on to a `uint8_t` handler. This conflicts with the prototype `bus_write(uint8_t src, uint16_t dst)` at include/bus.h:21, which bus.c includes. The model takes the header's byte signature, which is what every caller assumes (src/mem_utils.c:25,31; src/opcodes.c:33). What the definition as written would pass (a pointer converted to a byte) is not modelled.
- `malloc` failure in `add_bus_connection` is not modelled.
- Bitfields of `struct irq_register` and `flag_reg` are assumed to be laid out least significant bit first, as GCC does on x86.
- The logging in `irq_init` and the other `log` calls are not modelled.
- src/main.c, src/cpu.c, include/cpu/cpu.h and include/log.h are not part of this model, except for the globals this model turns into classes.
- The stale prototypes and the header-defined globals in include/cpu/interrupts.h are not modelled.
- Interrupts.IrqRegs.End: states only that success removes two connections, not which. Removal never succeeds through this path unless IF is not at the head, and the exact list is RemoveConnection's contract applied twice.
- Timer.TimerRegs.End: states only that success removes one connection and that -1 changes nothing. The exact list is RemoveConnection's contract.
