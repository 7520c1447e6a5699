/**
 * The interrupt controller of src/interrupts.c: the IF and IE registers as
 * bytes (the `struct irq_register` bitfields allocated LSB-first: bit 0 is
 * V-blank, 1 LCD STAT, 2 timer, 3 serial, 4 joypad, bits 5..7 the unused
 * field), their bus handlers, the lowest-bit priority choice among pending
 * enabled interrupts, the delayed change of IME and the dispatch that
 * pushes PC and jumps to the interrupt vector.
 */
module Interrupts {
  import opened CTypes
  import opened Bits
  import opened CpuRegisters
  import opened Bus
  import opened MemUtils

  const NUM_INTERRUPTS: nat := 5

  /** irq_addresses: VB_IRQ, LCD_IRQ, TIMER_IRQ, SERIAL_IRQ, JP_IRQ. */
  const IRQ_ADDRESSES: seq<u16> := [0x0040, 0x0048, 0x0050, 0x0058, 0x0060]

  const IF_FLAGS_ADDR: u16 := 0xFF0F
  const IE_FLAGS_ADDR: u16 := 0xFFFF

  /** The device behind irq_if_read / irq_if_write. */
  const IRQ_IF_DEVICE: DeviceId := 1

  /** Bit of the timer_irq field in IF. */
  const TIMER_IRQ_BIT: nat := 2

  /** The CPU states that interrupts.c distinguishes. */
  datatype CpuState = Normal | Halt

  /** `if_flags.<field i> = 1`: set bit i of IF, leaving the other bits as they are. */
  function RaiseIrq(ifFlags: byte, i: nat): (r: byte)
    requires i < NUM_INTERRUPTS
    ensures forall j :: Bit(r, j) <==> Bit(ifFlags, j) || j == i
  {
    Pow2Monotone(i, 8);
    assert Pow2(i) < Pow2(8) by { Pow2Monotone(i + 1, 8); }
    BitwiseBound(ifFlags, Pow2(i), 8);
    forall j
      ensures Bit(Or(ifFlags, Pow2(i)), j) <==> Bit(ifFlags, j) || j == i
    {
      BitOr(ifFlags, Pow2(i), j);
      BitPow2(i, j);
    }
    Or(ifFlags, Pow2(i))
  }

  /** The vector of interrupt i: 0x40, 0x48, 0x50, 0x58, 0x60. */
  function IrqAddress(i: nat): (a: u16)
    requires i < NUM_INTERRUPTS
    ensures a == 0x40 + 8 * i
  {
    IRQ_ADDRESSES[i]
  }

  /** `IF & IE & 0x1F`: the pending enabled interrupts. */
  function Pending(ifFlags: byte, ieFlags: byte): byte
  {
    And(And(ifFlags, ieFlags), 0x1F)
  }

  /** Interrupt i (i < 5) is pending and enabled iff its bit is set in both IF and IE. */
  lemma PendingBit(ifFlags: byte, ieFlags: byte, i: nat)
    requires i < NUM_INTERRUPTS
    ensures Bit(Pending(ifFlags, ieFlags), i) <==> Bit(ifFlags, i) && Bit(ieFlags, i)
  {
    BitAnd(And(ifFlags, ieFlags), 0x1F, i);
    BitAnd(ifFlags, ieFlags, i);
    if i == 0 {
      assert Bit(0x1F, 0);
    } else if i == 1 {
      assert Bit(0x1F, 1);
    } else if i == 2 {
      assert Bit(0x1F, 2);
    } else if i == 3 {
      assert Bit(0x1F, 3);
    } else {
      assert Bit(0x1F, 4);
    }
  }

  /** The lowest set bit of x among positions from..4, or 0xFF. */
  function LowestSetBit(x: nat, from: nat): (r: nat)
    requires from <= NUM_INTERRUPTS
    decreases NUM_INTERRUPTS - from
    ensures r == 0xFF || from <= r < NUM_INTERRUPTS
    ensures r < NUM_INTERRUPTS ==> Bit(x, r) && forall j :: from <= j < r ==> !Bit(x, j)
    ensures r == 0xFF <==> forall j :: from <= j < NUM_INTERRUPTS ==> !Bit(x, j)
  {
    if from == NUM_INTERRUPTS then 0xFF
    else if Bit(x, from) then from
    else LowestSetBit(x, from + 1)
  }

  /**
   * What get_set_interrupt_no returns: the smallest i < 5 whose bit is set
   * in both IF and IE, or 0xFF when there is none.
   */
  function LowestPending(ifFlags: byte, ieFlags: byte): (r: byte)
    ensures r == 0xFF || r < NUM_INTERRUPTS
    ensures r < NUM_INTERRUPTS ==> Bit(ifFlags, r) && Bit(ieFlags, r)
    ensures r < NUM_INTERRUPTS ==> forall j :: 0 <= j < r ==> !(Bit(ifFlags, j) && Bit(ieFlags, j))
    ensures r == 0xFF <==> forall j :: 0 <= j < NUM_INTERRUPTS ==> !(Bit(ifFlags, j) && Bit(ieFlags, j))
  {
    var r := LowestSetBit(Pending(ifFlags, ieFlags), 0);
    forall j | 0 <= j < NUM_INTERRUPTS
      ensures Bit(Pending(ifFlags, ieFlags), j) <==> Bit(ifFlags, j) && Bit(ieFlags, j)
    {
      PendingBit(ifFlags, ieFlags, j);
    }
    r
  }

  /** The enable/disable countdowns that handle_interrups receives by pointer, and IME. */
  datatype ImeState = ImeState(ime: byte, enableIrq: byte, disableIrq: byte)

  /**
   * set_ime. A counter of 2 or more takes effect and is reset; the disable
   * check runs second, so it wins when both do. A counter of 1 stays 1:
   * `*enable_irq++` advances the local pointer and leaves the value alone.
   */
  function SetIme(s: ImeState): (r: ImeState)
    ensures r.enableIrq == (if s.enableIrq >= 2 then 0 else s.enableIrq)
    ensures r.disableIrq == (if s.disableIrq >= 2 then 0 else s.disableIrq)
    ensures r.ime == (if s.disableIrq >= 2 then 0 else if s.enableIrq >= 2 then 1 else s.ime)
  {
    var afterEnable :=
      if s.enableIrq != 0 then
        if s.enableIrq >= 2 then s.(ime := 1, enableIrq := 0) else s
      else s;
    if afterEnable.disableIrq != 0 then
      if afterEnable.disableIrq >= 2 then afterEnable.(ime := 0, disableIrq := 0) else afterEnable
    else afterEnable
  }

  /**
   * An enable countdown armed at 1 stays 1 and never sets IME, however
   * often set_ime runs: IME keeps its value or is cleared by the disable
   * countdown.
   */
  lemma {:induction false} EnableAtOneIsStuck(s: ImeState, n: nat)
    requires s.enableIrq == 1
    ensures Iterate(SetIme, s, n).enableIrq == 1
    ensures Iterate(SetIme, s, n).ime == s.ime || Iterate(SetIme, s, n).ime == 0
  {
    if n > 0 { EnableAtOneIsStuck(s, n - 1); }
  }

  /**
   * A disable countdown armed at 1 stays 1 and never clears IME, however
   * often set_ime runs: IME keeps its value or is set by the enable
   * countdown.
   */
  lemma {:induction false} DisableAtOneIsStuck(s: ImeState, n: nat)
    requires s.disableIrq == 1
    ensures Iterate(SetIme, s, n).disableIrq == 1
    ensures Iterate(SetIme, s, n).ime == s.ime || Iterate(SetIme, s, n).ime == 1
  {
    if n > 0 { DisableAtOneIsStuck(s, n - 1); }
  }

  /** With both countdowns armed at 1, set_ime changes nothing however often it runs. */
  lemma {:induction false} CounterAtOneIsStuck(s: ImeState, n: nat)
    requires s.enableIrq == 1 && s.disableIrq == 1
    ensures Iterate(SetIme, s, n) == s
  {
    if n > 0 { CounterAtOneIsStuck(s, n - 1); }
  }

  function Iterate(f: ImeState -> ImeState, s: ImeState, n: nat): ImeState
  {
    if n == 0 then s else f(Iterate(f, s, n - 1))
  }

  /** The fields of the global `cpu` that interrupts.c reads and writes, besides the registers. */
  class IrqRegs {
    var ime: byte
    var ifFlags: byte
    var ieFlags: byte
    var state: CpuState

    constructor ()
      ensures ime == 0 && ifFlags == 0 && ieFlags == 0 && state == Normal
    {
      ime, ifFlags, ieFlags, state := 0, 0, 0, Normal;
    }

    /** irq_if_read: the IF byte, whatever the offset. */
    method IfRead(addr: u16) returns (code: int, result: byte)
      ensures code == 0 && result == ifFlags
    {
      return 0, ifFlags;
    }

    /** irq_if_write: the five flag fields come from val, the 3-bit unused field becomes 3. */
    method IfWrite(val: byte, addr: u16) returns (code: int)
      modifies this`ifFlags
      ensures code == 0
      ensures ifFlags % 0x20 == val % 0x20 && ifFlags / 0x20 == 3
    {
      ifFlags := val;
      ifFlags := ifFlags % 0x20 + 3 * 0x20;
      return 0;
    }

    /** irq_ie_read: the IE byte, whatever the offset. */
    method IeRead(addr: u16) returns (code: int, result: byte)
      ensures code == 0 && result == ieFlags
    {
      return 0, ieFlags;
    }

    /** irq_ie_write: the byte is stored verbatim. */
    method IeWrite(val: byte, addr: u16) returns (code: int)
      modifies this`ieFlags
      ensures code == 0 && ieFlags == val
    {
      ieFlags := val;
      return 0;
    }

    /**
     * irq_init: IME off, IF reads 0xE0 (unused bits set), IE 0, then IF and
     * IE are registered on the bus, both with the IF handlers. IE_FLAGS_ADDR
     * is the top address, so no connection can start after it and the second
     * add_bus_connection always reaches the NULL dereference of src/bus.c:73:
     * irq_init never returns 0.
     */
    method Init(bus: Bus) returns (r: Outcome)
      requires bus.Valid()
      modifies this`ime, this`ifFlags, this`ieFlags, bus`conns
      ensures bus.Valid()
      ensures ime == 0 && ifFlags == 0xE0 && ieFlags == 0
      ensures forall j :: 0 <= j < NUM_INTERRUPTS ==> !Bit(ifFlags, j)
      ensures var n := Connection(IF_FLAGS_ADDR, 1, IRQ_IF_DEVICE);
        var k := InsertionPoint(old(bus.conns), IF_FLAGS_ADDR);
        if old(bus.conns) != [] && k < |old(bus.conns)| &&
           ((k > 0 && DoesOverlap(n, old(bus.conns)[k - 1])) || DoesOverlap(n, old(bus.conns)[k]))
        then r == Returned(-1) && bus.conns == old(bus.conns)
        else r == Undefined
    {
      ime := 0;
      ifFlags := 0xE0;
      ieFlags := 0;
      forall j | 0 <= j < NUM_INTERRUPTS
        ensures !Bit(ifFlags, j)
      {
        assert !Bit(0xE0, 0) && !Bit(0xE0, 1) && !Bit(0xE0, 2) && !Bit(0xE0, 3) && !Bit(0xE0, 4);
      }
      r := bus.AddConnection(IF_FLAGS_ADDR, 1, IRQ_IF_DEVICE);
      if r != Returned(0) {
        return;
      }
      r := bus.AddConnection(IE_FLAGS_ADDR, 1, IRQ_IF_DEVICE);
      if r == Returned(-1) {
        // Unreachable: the failure path of src/interrupts.c:48-53, which
        // removes the IF connection again, needs this add to return -1.
        assert false;
      }
    }

    /**
     * irq_end: remove the IF connection, then the IE one; -1 as soon as one
     * is missing. A list headed by the IF connection reaches the use after
     * free of remove_bus_connection.
     */
    method End(bus: Bus) returns (r: Outcome)
      requires bus.Valid()
      modifies bus`conns
      ensures bus.Valid()
      ensures r == Returned(0) || r == Returned(-1) || r == Undefined
      ensures r == Returned(0) ==> |bus.conns| + 2 == |old(bus.conns)|
      ensures old(bus.conns) == [] || old(bus.conns)[0].start == IF_FLAGS_ADDR ==> r == Undefined
    {
      r := bus.RemoveConnection(IF_FLAGS_ADDR);
      if r != Returned(0) {
        return;
      }
      r := bus.RemoveConnection(IE_FLAGS_ADDR);
    }

    /** get_set_interrupt_no: shift the pending set right until its low bit is 1. */
    method GetSetInterruptNo() returns (r: byte)
      ensures r == LowestPending(ifFlags, ieFlags)
    {
      var pending := And(And(ifFlags, ieFlags), 0x1F);
      var setInterrupts: nat := pending;
      var interruptNo := 0;
      if setInterrupts != 0 {
        while interruptNo < NUM_INTERRUPTS
          invariant 0 <= interruptNo <= NUM_INTERRUPTS
          invariant setInterrupts == Shr(pending, interruptNo)
          invariant LowestSetBit(pending, 0) == LowestSetBit(pending, interruptNo)
        {
          if setInterrupts % 2 == 1 {
            return interruptNo;
          }
          setInterrupts := setInterrupts / 2;
          interruptNo := interruptNo + 1;
        }
      } else {
        forall j | 0 <= j < NUM_INTERRUPTS
          ensures !Bit(pending, j)
        {
          ShrZero(j);
        }
      }
      return 0xFF;
    }

    /** set_ime on the IME field and the two countdowns passed by pointer. */
    method UpdateIme(enableIrq: byte, disableIrq: byte) returns (enableIrq': byte, disableIrq': byte)
      modifies this`ime
      ensures ImeState(ime, enableIrq', disableIrq') == SetIme(ImeState(old(ime), enableIrq, disableIrq))
    {
      enableIrq', disableIrq' := enableIrq, disableIrq;
      if enableIrq' != 0 {
        if enableIrq' >= 2 {
          ime := 1;
          enableIrq' := 0;
        } else {
          // *enable_irq++: the pointer moves, the countdown keeps its value
        }
      }
      if disableIrq' != 0 {
        if disableIrq' >= 2 {
          ime := 0;
          disableIrq' := 0;
        } else {
          // *disable_irq++: likewise
        }
      }
    }

    /**
     * The dispatch of a pending interrupt irqNo in handle_interrups: SP drops
     * by 2 and the old PC is pushed there; when the push succeeds PC jumps to
     * the vector, the IF bit is cleared, IME goes off, the CPU leaves HALT and
     * the dispatch takes 20 cycles (24 from HALT). A failing push returns -1
     * with only SP and the cells already written changed.
     */
    method Service(regs: Registers, bus: Bus, irqNo: nat, cycles: byte) returns (code: int, cycles': byte)
      requires irqNo < NUM_INTERRUPTS && Bit(ifFlags, irqNo)
      modifies this`ifFlags, this`ime, this`state, regs`sp, regs`pc, bus`cells
      ensures var push := StoreWord(bus.conns, old(bus.cells), old(regs.pc), ToU16(old(regs.sp) - 2));
        && regs.sp == ToU16(old(regs.sp) - 2)
        && bus.cells == push.cells
        && (push.code != 0 ==>
              code == -1 && regs.pc == old(regs.pc) && ifFlags == old(ifFlags) && ime == old(ime)
              && cycles' == cycles && state == old(state))
        && (push.code == 0 ==>
              && code == 0
              && regs.pc == IrqAddress(irqNo)
              && (forall j :: Bit(ifFlags, j) <==> Bit(old(ifFlags), j) && j != irqNo)
              && ime == 0
              && cycles' == (if old(state) == Halt then 24 else 20)
              && state == Normal)
    {
      // Push PC to the stack.
      regs.sp := ToU16(regs.sp - 2);
      var written := WriteWord(bus, regs.pc, regs.sp);
      if written != 0 {
        return -1, cycles;
      }
      regs.pc := IRQ_ADDRESSES[irqNo];
      // Clear the request: IF ^= 1 << irq_no.
      ClearedBit(ifFlags, irqNo);
      ifFlags := Xor(ifFlags, Pow2(irqNo));
      ime := 0;
      cycles' := 20;
      if state == Halt {
        cycles' := cycles' + 4;
      }
      state := Normal;
      code := 0;
    }

    /**
     * handle_interrups. After set_ime, with IME on and an enabled interrupt
     * i pending: SP drops by 2, the old PC is pushed little-endian at SP,
     * PC jumps to the vector of i, IF bit i is cleared, IME goes off, the
     * dispatch takes 20 cycles (24 from HALT) and the CPU leaves HALT. A
     * failing push returns -1 with SP already moved. With IME off, a halted
     * CPU with a pending enabled interrupt wakes up in 4 cycles.
     */
    method HandleInterrupts(regs: Registers, bus: Bus, cycles: byte, enableIrq: byte, disableIrq: byte)
      returns (code: int, cycles': byte, enableIrq': byte, disableIrq': byte)
      modifies this, regs, bus`cells
      ensures var s := SetIme(ImeState(old(ime), enableIrq, disableIrq));
        enableIrq' == s.enableIrq && disableIrq' == s.disableIrq
      ensures ieFlags == old(ieFlags)
      ensures regs.af == old(regs.af) && regs.bc == old(regs.bc)
      ensures regs.de == old(regs.de) && regs.hl == old(regs.hl)
      ensures var s := SetIme(ImeState(old(ime), enableIrq, disableIrq));
        var i := LowestPending(old(ifFlags), old(ieFlags));
        if s.ime != 0 && i != 0xFF then
          var push := StoreWord(bus.conns, old(bus.cells), old(regs.pc), ToU16(old(regs.sp) - 2));
          && regs.sp == ToU16(old(regs.sp) - 2)
          && bus.cells == push.cells
          && (push.code != 0 ==>
                code == -1 && regs.pc == old(regs.pc) && ifFlags == old(ifFlags) && ime == s.ime
                && cycles' == cycles && state == old(state))
          && (push.code == 0 ==>
                && code == 0
                && regs.pc == IrqAddress(i)
                && (forall j :: Bit(ifFlags, j) <==> Bit(old(ifFlags), j) && j != i)
                && ime == 0
                && cycles' == (if old(state) == Halt then 24 else 20)
                && state == Normal)
        else
          && code == 0 && ime == s.ime
          && regs.pc == old(regs.pc) && regs.sp == old(regs.sp)
          && ifFlags == old(ifFlags) && bus.cells == old(bus.cells)
          && if s.ime == 0 && old(state) == Halt && Pending(old(ifFlags), old(ieFlags)) != 0 then
               state == Normal && cycles' == 4
             else
               state == old(state) && cycles' == cycles
    {
      cycles' := cycles;
      enableIrq', disableIrq' := UpdateIme(enableIrq, disableIrq);
      code := 0;
      if ime != 0 {
        var irqNo := GetSetInterruptNo();
        if irqNo < NUM_INTERRUPTS {
          code, cycles' := Service(regs, bus, irqNo, cycles');
        }
      } else if state == Halt && And(And(ifFlags, ieFlags), 0x1F) != 0 {
        state := Normal;
        cycles' := 4;
      }
    }
  }

  /** `x ^ (1 << i)` for a set bit i < 8 of a byte clears exactly that bit and stays a byte. */
  lemma ClearedBit(x: byte, i: nat)
    requires i < 8 && Bit(x, i)
    ensures Xor(x, Pow2(i)) < 0x100
    ensures forall j :: Bit(Xor(x, Pow2(i)), j) <==> Bit(x, j) && j != i
  {
    Pow2Monotone(i + 1, 8);
    BitwiseBound(x, Pow2(i), 8);
    forall j
      ensures Bit(Xor(x, Pow2(i)), j) <==> Bit(x, j) && j != i
    {
      BitXor(x, Pow2(i), j);
      BitPow2(i, j);
    }
  }
}
