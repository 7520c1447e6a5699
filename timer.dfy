/**
 * The timer of src/timer.c: the DIV/TIMA/TMA/TAC register file behind the
 * bus at 0xFF04..0xFF07 and the per-tick update, in which DIV counts up, a
 * rising edge of the DIV bit selected by TAC counts TIMA up, and an
 * overflow of TIMA reloads it from TMA and raises the timer interrupt a few
 * ticks later unless TIMA is written first.
 */
module Timer {
  import opened CTypes
  import opened Bits
  import opened Bus
  import opened Interrupts

  const DIV_ADDR: u16 := 0xFF04
  const TIMA_ADDR: u16 := 0xFF05
  const TMA_ADDR: u16 := 0xFF06
  const TAC_ADDR: u16 := 0xFF07

  /** The device behind timer_read / timer_write. */
  const TIMER_DEVICE: DeviceId := 2

  /** freq_to_div_bit: the shift applied to DIV for each value of TAC & 3. */
  const FREQ_TO_DIV_BIT: seq<nat> := [9, 3, 5, 7]

  /** `struct timer_regs`. */
  datatype TimerState = TimerState(div: u16, tac: byte, tima: byte, tma: byte, prevDivBit: byte, overflowCounter: byte)

  /** The timer registers together with the IF byte that an update may change. */
  datatype TimerStep = TimerStep(timer: TimerState, ifFlags: byte)

  /** TAC_ENABLE(tac): tac & 4. */
  function TacEnable(tac: byte): (r: byte)
    ensures r == (if Bit(tac, 2) then 4 else 0)
  {
    AndPow2(tac, 2);
    And(tac, 4)
  }

  /** TAC_FREQ(tac): tac & 3. */
  function TacFreq(tac: byte): (r: nat)
    ensures r == tac % 4
  {
    AndThree(tac);
    And(tac, 3)
  }

  /**
   * div_bit = (div >> freq_to_div_bit[tac & 3]) & (tac & 4). It is 0 or 4;
   * since the mask is 4, the DIV bit it tests is the table entry plus 2.
   */
  function DivBit(div: u16, tac: byte): (r: byte)
    ensures r == 0 || r == 4
    ensures r == 4 <==> Bit(tac, 2) && Bit(div, FREQ_TO_DIV_BIT[tac % 4] + 2)
  {
    var shifted := Shr(div, FREQ_TO_DIV_BIT[TacFreq(tac)]);
    AndPow2(shifted, 2);
    ShrShr(div, FREQ_TO_DIV_BIT[tac % 4], 2);
    And(shifted, TacEnable(tac))
  }

  /** timer_read at relative offset addr; None is the -1 return with *result untouched. */
  function ReadReg(s: TimerState, addr: u16): (r: Option<byte>)
    ensures r.Some? <==> addr < 4
    ensures addr == 0 ==> r == Some(s.div / 0x100)
    ensures addr == 1 ==> r == Some(s.tima)
    ensures addr == 2 ==> r == Some(s.tma)
    ensures addr == 3 ==> r == Some(s.tac % 8)
  {
    AndSeven(s.tac);
    var absAddr := ToU16(DIV_ADDR + addr);
    if absAddr == DIV_ADDR then Some(s.div / 0x100)
    else if absAddr == TIMA_ADDR then Some(s.tima)
    else if absAddr == TMA_ADDR then Some(s.tma)
    else if absAddr == TAC_ADDR then Some(And(s.tac, 7))
    else None
  }

  /** timer_write at relative offset addr; None is the -1 return with the registers untouched. */
  function WriteReg(s: TimerState, addr: u16, val: byte): (r: Option<TimerState>)
    ensures r.Some? <==> addr < 4
    ensures addr == 0 ==> r == Some(s.(div := 0))
    ensures addr == 1 ==> r == Some(s.(tima := val))
    ensures addr == 2 ==> r == Some(s.(tma := val))
    ensures addr == 3 ==> r == Some(s.(tac := val % 8))
  {
    AndSeven(val);
    var absAddr := ToU16(DIV_ADDR + addr);
    if absAddr == DIV_ADDR then Some(s.(div := 0))
    else if absAddr == TIMA_ADDR then Some(s.(tima := val))
    else if absAddr == TMA_ADDR then Some(s.(tma := val))
    else if absAddr == TAC_ADDR then Some(s.(tac := And(val, 7)))
    else None
  }

  /** Reading a register just written gives the value (0 for DIV, the low 3 bits for TAC); the others read as before. */
  lemma ReadAfterWrite(s: TimerState, addr: u16, val: byte, other: u16)
    requires addr < 4
    ensures ReadReg(WriteReg(s, addr, val).value, addr) ==
      Some(if addr == 0 then 0 else if addr == 3 then val % 8 else val)
    ensures other != addr ==> ReadReg(WriteReg(s, addr, val).value, other) == ReadReg(s, other)
  {
  }

  /** timer_update as a function of the timer registers and IF. */
  function Tick(s: TimerState, ifFlags: byte): (r: TimerStep)
    ensures r.timer.div == (s.div + 1) % 0x1_0000
    ensures r.timer.tac == s.tac && r.timer.tma == s.tma
  {
    var div := ToU16(s.div + 1);
    if s.overflowCounter > 0 then
      if s.tima != 0 then
        // A nonzero TIMA cancels the pending reload (the source's comment
        // reads this as "TIMA has been written to"; a write of 0 is not seen).
        TimerStep(s.(div := div, overflowCounter := 0), ifFlags)
      else
        var counter := ToByte(s.overflowCounter + 1);
        if counter >= 4 then
          TimerStep(s.(div := div, overflowCounter := 0, tima := s.tma), RaiseIrq(ifFlags, TIMER_IRQ_BIT))
        else
          TimerStep(s.(div := div, overflowCounter := counter), ifFlags)
    else
      var divBit := DivBit(div, s.tac);
      if divBit != 0 && s.prevDivBit == 0 then
        var tima := ToByte(s.tima + 1);
        var counter := if tima == 0 then s.overflowCounter + 1 else s.overflowCounter;
        TimerStep(s.(div := div, tima := tima, overflowCounter := counter, prevDivBit := divBit), ifFlags)
      else
        TimerStep(s.(div := div, prevDivBit := divBit), ifFlags)
  }

  /** n successive calls of timer_update. */
  function Ticks(s: TimerState, ifFlags: byte, n: nat): TimerStep
  {
    if n == 0 then TimerStep(s, ifFlags)
    else
      var t := Ticks(s, ifFlags, n - 1);
      Tick(t.timer, t.ifFlags)
  }

  /** The values every reachable timer state has: 3 TAC bits, a delay count below 4, an edge bit of 0 or 4. */
  ghost predicate Reachable(s: TimerState)
  {
    s.tac < 8 && s.overflowCounter < 4 && (s.prevDivBit == 0 || s.prevDivBit == 4)
  }

  /** timer_init's state is reachable; updates and register writes keep it so. */
  lemma ReachableKept(s: TimerState, ifFlags: byte, addr: u16, val: byte)
    ensures Reachable(TimerState(0xABCC, 0, 0, 0, 0, 0))
    ensures Reachable(s) ==> Reachable(Tick(s, ifFlags).timer)
    ensures Reachable(s) && addr < 4 ==> Reachable(WriteReg(s, addr, val).value)
  {
  }

  /** While a reload is pending, a nonzero TIMA (a write since the overflow) cancels it and changes nothing else. */
  lemma ReloadCancelled(s: TimerState, ifFlags: byte)
    requires s.overflowCounter > 0 && s.tima != 0
    ensures Tick(s, ifFlags) == TimerStep(s.(div := ToU16(s.div + 1), overflowCounter := 0), ifFlags)
  {
  }

  /**
   * During the first two ticks of the delay, a write to TIMA cancels the
   * reload exactly when the value written is nonzero: a write of 0 goes
   * unnoticed and the countdown goes on.
   */
  lemma ZeroWriteUnnoticed(s: TimerState, ifFlags: byte, val: byte)
    requires 0 < s.overflowCounter < 3
    ensures var r := Tick(WriteReg(s, 1, val).value, ifFlags);
      && (r.timer.overflowCounter == 0 <==> val != 0)
      && (val == 0 ==> r.timer.overflowCounter == s.overflowCounter + 1 && r.timer.tima == 0)
  {
  }

  /**
   * With a zero delay count, TIMA counts up (mod 256) exactly on a rising
   * edge of the selected DIV bit, a wrap to 0 starts the delay, and the
   * edge bit is remembered; IF does not change.
   */
  lemma CountOnRisingEdge(s: TimerState, ifFlags: byte)
    requires s.overflowCounter == 0
    ensures var r := Tick(s, ifFlags);
      var divBit := DivBit(ToU16(s.div + 1), s.tac);
      var rising := divBit == 4 && s.prevDivBit == 0;
      && r.timer.tima == (if rising then (s.tima + 1) % 0x100 else s.tima)
      && r.timer.overflowCounter == (if rising && s.tima == 0xFF then 1 else 0)
      && r.timer.prevDivBit == divBit
      && r.ifFlags == ifFlags
  {
  }

  /** With TAC bit 2 clear the timer is stopped: TIMA, the delay count and IF never change. */
  lemma StoppedTimer(s: TimerState, ifFlags: byte)
    requires s.overflowCounter == 0 && !Bit(s.tac, 2)
    ensures var r := Tick(s, ifFlags);
      r.timer.tima == s.tima && r.timer.overflowCounter == 0 && r.timer.prevDivBit == 0 && r.ifFlags == ifFlags
  {
  }

  /**
   * Three ticks after the tick on which TIMA wrapped, if TIMA stays 0, TIMA
   * is reloaded from TMA and the timer interrupt is requested; the two ticks
   * in between only advance the delay count.
   */
  lemma {:induction false} DelayedReload(s: TimerState, ifFlags: byte)
    requires s.overflowCounter == 1 && s.tima == 0
    ensures Ticks(s, ifFlags, 1) == TimerStep(s.(div := ToU16(s.div + 1), overflowCounter := 2), ifFlags)
    ensures Ticks(s, ifFlags, 2) == TimerStep(s.(div := ToU16(s.div + 2), overflowCounter := 3), ifFlags)
    ensures var r := Ticks(s, ifFlags, 3);
      && r.timer == s.(div := ToU16(s.div + 3), overflowCounter := 0, tima := s.tma)
      && forall j :: Bit(r.ifFlags, j) <==> Bit(ifFlags, j) || j == TIMER_IRQ_BIT
  {
    assert Ticks(s, ifFlags, 0) == TimerStep(s, ifFlags);
    assert Ticks(s, ifFlags, 1) == Tick(s, ifFlags);
    assert Ticks(s, ifFlags, 2) == Tick(Ticks(s, ifFlags, 1).timer, ifFlags);
    assert Ticks(s, ifFlags, 3) == Tick(Ticks(s, ifFlags, 2).timer, ifFlags);
  }

  /** `cpu.timer_regs`: the registers that timer.c updates in place. */
  class TimerRegs {
    var div: u16
    var tac: byte
    var tima: byte
    var tma: byte
    var prevDivBit: byte
    var overflowCounter: byte

    function State(): TimerState
      reads this
    {
      TimerState(div, tac, tima, tma, prevDivBit, overflowCounter)
    }

    constructor ()
      ensures State() == TimerState(0, 0, 0, 0, 0, 0)
    {
      div, tac, tima, tma, prevDivBit, overflowCounter := 0, 0, 0, 0, 0, 0;
    }

    /** timer_read. */
    method Read(addr: u16) returns (code: int, result: Option<byte>)
      ensures result == ReadReg(State(), addr)
      ensures code == (if result.Some? then 0 else -1)
    {
      var absAddr := ToU16(DIV_ADDR + addr);
      if absAddr == DIV_ADDR {
        result := Some(div / 0x100);
      } else if absAddr == TIMA_ADDR {
        result := Some(tima);
      } else if absAddr == TMA_ADDR {
        result := Some(tma);
      } else if absAddr == TAC_ADDR {
        result := Some(And(tac, 7));
      } else {
        return -1, None;
      }
      return 0, result;
    }

    /** timer_write. */
    method Write(val: byte, addr: u16) returns (code: int)
      modifies this
      ensures match WriteReg(old(State()), addr, val)
        case Some(t) => code == 0 && State() == t
        case None => code == -1 && State() == old(State())
    {
      var absAddr := ToU16(DIV_ADDR + addr);
      if absAddr == DIV_ADDR {
        div := 0;
      } else if absAddr == TIMA_ADDR {
        tima := val;
      } else if absAddr == TMA_ADDR {
        tma := val;
      } else if absAddr == TAC_ADDR {
        tac := And(val, 7);
      } else {
        return -1;
      }
      return 0;
    }

    /**
     * timer_init: DIV starts at 0xABCC and the rest at 0, then the four
     * registers are connected to the bus at DIV_ADDR; the result is
     * add_bus_connection's, case for case.
     */
    method Init(bus: Bus) returns (r: Outcome)
      requires bus.Valid()
      modifies this, bus`conns
      ensures bus.Valid()
      ensures State() == TimerState(0xABCC, 0, 0, 0, 0, 0)
      ensures var n := Connection(DIV_ADDR, 4, TIMER_DEVICE);
        var k := InsertionPoint(old(bus.conns), DIV_ADDR);
        if old(bus.conns) == [] then r == Returned(0) && bus.conns == [n]
        else if k == |old(bus.conns)| then r == Undefined && bus.conns == old(bus.conns)
        else if (k > 0 && DoesOverlap(n, old(bus.conns)[k - 1])) || DoesOverlap(n, old(bus.conns)[k]) then
          r == Returned(-1) && bus.conns == old(bus.conns)
        else r == Returned(0) && bus.conns == old(bus.conns)[..k] + [n] + old(bus.conns)[k..]
    {
      div := 0xABCC;
      tima := 0;
      tma := 0;
      tac := 0;
      overflowCounter := 0;
      prevDivBit := 0;
      r := bus.AddConnection(DIV_ADDR, 4, TIMER_DEVICE);
    }

    /** timer_end: disconnect the registers from the bus. */
    method End(bus: Bus) returns (r: Outcome)
      requires bus.Valid()
      modifies bus`conns
      ensures bus.Valid()
      ensures r == Returned(0) ==> |bus.conns| + 1 == |old(bus.conns)|
      ensures r == Returned(-1) ==> bus.conns == old(bus.conns)
      ensures old(bus.conns) == [] || old(bus.conns)[0].start == DIV_ADDR ==> r == Undefined
    {
      r := bus.RemoveConnection(DIV_ADDR);
    }

    /** timer_update: one tick of the timer, which may raise the timer interrupt in IF. */
    method Update(irq: IrqRegs)
      modifies this, irq`ifFlags
      ensures TimerStep(State(), irq.ifFlags) == Tick(old(State()), old(irq.ifFlags))
    {
      div := ToU16(div + 1);

      if overflowCounter > 0 {
        if tima != 0 {
          // TIMA has been written to.
          overflowCounter := 0;
          return;
        }
        overflowCounter := ToByte(overflowCounter + 1);
        if overflowCounter >= 4 {
          overflowCounter := 0;
          tima := tma;
          irq.ifFlags := RaiseIrq(irq.ifFlags, TIMER_IRQ_BIT);
        }
        return;
      }

      var divBit := And(Shr(div, FREQ_TO_DIV_BIT[TacFreq(tac)]), TacEnable(tac));
      assert divBit == DivBit(div, tac);
      if divBit != 0 && prevDivBit == 0 {
        tima := ToByte(tima + 1);
        if tima == 0 {
          // Timer overflow.
          overflowCounter := overflowCounter + 1;
        }
      }
      prevDivBit := divBit;
    }
  }
}
