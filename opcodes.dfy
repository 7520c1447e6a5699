/**
 * The first three instructions of src/opcodes.c and the opcode table they
 * are registered in: NOP, LD BC,d16 (LD1), which loads the two bytes after
 * the opcode into BC low byte first, and LD (BC),A (LD2), which stores A at
 * the address in BC. No handler advances PC.
 */
module Opcodes {
  import opened CTypes
  import opened CpuRegisters
  import opened Bus
  import opened MemUtils

  const NUM_OPCODES: nat := 0x100

  /** The handler an entry of the table points to; Unset is the NULL of a zero-initialised entry. */
  datatype OpcodeFunc = Unset | NopFunc | Ld1Func | Ld2Func

  /** `struct opcode`. */
  datatype Opcode = Opcode(func: OpcodeFunc, size: byte, cycles: byte)

  /** NOP: does nothing and succeeds. */
  method Nop(regs: Registers) returns (code: int)
    ensures code == 0
  {
    return 0;
  }

  /**
   * LD1: BC's low byte is read at PC + 1 and stored, then its high byte at
   * PC + 2 (both addresses narrowed to 16 bits). A failing first read leaves
   * BC alone; a failing second read leaves the new low byte in place.
   */
  method Ld1(regs: Registers, bus: Bus) returns (code: int)
    modifies regs`bc
    ensures var lo := Load(bus.conns, bus.cells, ToU16(regs.pc + 1));
      var hi := Load(bus.conns, bus.cells, ToU16(regs.pc + 2));
      if lo.None? then code == -1 && regs.bc == old(regs.bc)
      else if hi.None? then
        code == -1 && GetLsb(regs.bc) == lo.value && GetMsb(regs.bc) == GetMsb(old(regs.bc))
      else code == 0 && regs.bc == lo.value + hi.value * 0x100
    ensures code == 0 <==> WordAt(bus.conns, bus.cells, ToU16(regs.pc + 1)).Some?
    ensures code == 0 ==> Some(regs.bc) == WordAt(bus.conns, bus.cells, ToU16(regs.pc + 1))
  {
    assert NextAddress(ToU16(regs.pc + 1)) == ToU16(regs.pc + 2);
    var c, arg := bus.Read(ToU16(regs.pc + 1));
    if c != 0 {
      return -1;
    }
    regs.bc := SetLsb(regs.bc, arg.value);
    c, arg := bus.Read(ToU16(regs.pc + 2));
    if c != 0 {
      return -1;
    }
    regs.bc := SetMsb(regs.bc, arg.value);
    ByteSplit(regs.bc);
    return 0;
  }

  /** LD2: A is written to the address in BC; the result is bus_write's. */
  method Ld2(regs: Registers, bus: Bus) returns (code: int)
    modifies bus`cells
    ensures bus.cells == Store(bus.conns, old(bus.cells), regs.bc, GetMsb(regs.af))
    ensures code == (if Route(bus.conns, regs.bc).Some? then 0 else -1)
  {
    code := bus.Write(GetMsb(regs.af), regs.bc);
  }

  /** The global `opcodes` array. */
  class OpcodeTable {
    const opcodes: array<Opcode>

    /** A zero-initialised static array: every entry has a NULL handler, size 0 and 0 cycles. */
    constructor ()
      ensures opcodes.Length == NUM_OPCODES && fresh(opcodes)
      ensures forall i :: 0 <= i < NUM_OPCODES ==> opcodes[i] == Opcode(Unset, 0, 0)
    {
      opcodes := new Opcode[NUM_OPCODES](_ => Opcode(Unset, 0, 0));
    }

    /** ADD_OPCODE: the three field assignments of one entry. */
    method AddOpcode(op: nat, size: byte, cycles: byte, func: OpcodeFunc)
      requires opcodes.Length == NUM_OPCODES && op < NUM_OPCODES
      modifies opcodes
      ensures opcodes[op] == Opcode(func, size, cycles)
      ensures forall i :: 0 <= i < NUM_OPCODES && i != op ==> opcodes[i] == old(opcodes[i])
    {
      opcodes[op] := opcodes[op].(func := func);
      opcodes[op] := opcodes[op].(size := size);
      opcodes[op] := opcodes[op].(cycles := cycles);
    }

    /** register_opcodes: entries 0x00, 0x01 and 0x02 are filled in; the others keep what they held. */
    method RegisterOpcodes()
      requires opcodes.Length == NUM_OPCODES
      modifies opcodes
      ensures opcodes[0x00] == Opcode(NopFunc, 1, 1)
      ensures opcodes[0x01] == Opcode(Ld1Func, 3, 3)
      ensures opcodes[0x02] == Opcode(Ld2Func, 1, 2)
      ensures forall i :: 3 <= i < NUM_OPCODES ==> opcodes[i] == old(opcodes[i])
    {
      AddOpcode(0x00, 1, 1, NopFunc);
      AddOpcode(0x01, 3, 3, Ld1Func);
      AddOpcode(0x02, 1, 2, Ld2Func);
    }
  }
}
