/**
 * The CPU register file of include/cpu/registers.h: six 16-bit registers,
 * the byte views that the `__REG` unions overlay on them (little-endian
 * host: the second-named byte is the low byte), the GET/SET byte macros and
 * the power-on values written by init_registers.
 */
module CpuRegisters {
  import opened CTypes
  import opened Bits

  /** GET_MSB(reg): the high byte. */
  function GetMsb(r: u16): byte
  {
    r / 0x100
  }

  /** GET_LSB(reg): the low byte. */
  function GetLsb(r: u16): byte
  {
    r % 0x100
  }

  /** The two byte views together determine the register. */
  lemma ByteSplit(r: u16)
    ensures r == GetMsb(r) * 0x100 + GetLsb(r)
  {
  }

  /**
   * The union overlay read the other way: the word made of a high byte hi
   * and a low byte lo has exactly those byte views.
   */
  lemma ByteJoin(hi: byte, lo: byte)
    ensures 0 <= hi * 0x100 + lo < 0x1_0000
    ensures GetMsb(hi * 0x100 + lo) == hi && GetLsb(hi * 0x100 + lo) == lo
  {
  }

  /**
   * SET_MSB(reg, val): `reg = (reg & 0x00ff) + (val << 8)`; only the high
   * byte changes and it becomes val.
   */
  function SetMsb(r: u16, val: byte): (r': u16)
    ensures GetMsb(r') == val
    ensures GetLsb(r') == GetLsb(r)
  {
    r % 0x100 + val * 0x100
  }

  /**
   * SET_LSB(reg, val): `reg = (reg & 0xff00) + val`; only the low byte
   * changes and it becomes val.
   */
  function SetLsb(r: u16, val: byte): (r': u16)
    ensures GetLsb(r') == val
    ensures GetMsb(r') == GetMsb(r)
  {
    (r / 0x100) * 0x100 + val
  }

  /** Setting both bytes builds the little-endian word hi:lo whatever r was. */
  lemma SetBothBytes(r: u16, lo: byte, hi: byte)
    ensures SetMsb(SetLsb(r, lo), hi) == lo + hi * 0x100
    ensures SetLsb(SetMsb(r, hi), lo) == lo + hi * 0x100
  {
  }

  /** Bit positions of the flag fields of `struct flag_reg` in F (LSB-first). */
  const FLAG_C: nat := 4
  const FLAG_H: nat := 5
  const FLAG_N: nat := 6
  const FLAG_Z: nat := 7

  /** `struct registers`: af (a high, f low), bc, de, hl, sp, pc. */
  class Registers {
    var af: u16
    var bc: u16
    var de: u16
    var hl: u16
    var sp: u16
    var pc: u16

    constructor ()
      ensures af == 0 && bc == 0 && de == 0 && hl == 0 && sp == 0 && pc == 0
    {
      af, bc, de, hl, sp, pc := 0, 0, 0, 0, 0, 0;
    }

    /** The byte fields of the unions: a/f overlay af, b/c bc, d/e de, h/l hl. */
    function A(): byte reads this { GetMsb(af) }
    function F(): byte reads this { GetLsb(af) }
    function B(): byte reads this { GetMsb(bc) }
    function C(): byte reads this { GetLsb(bc) }
    function D(): byte reads this { GetMsb(de) }
    function E(): byte reads this { GetLsb(de) }
    function H(): byte reads this { GetMsb(hl) }
    function L(): byte reads this { GetLsb(hl) }

    /** Flag bitfields of f. */
    predicate FlagZ() reads this { Bit(F(), FLAG_Z) }
    predicate FlagN() reads this { Bit(F(), FLAG_N) }
    predicate FlagH() reads this { Bit(F(), FLAG_H) }
    predicate FlagC() reads this { Bit(F(), FLAG_C) }

    /**
     * init_registers: the flag fields are cleared first (which zeroes f),
     * then every register receives its power-on value, so the flag writes
     * are overwritten by the assignment to af.
     */
    method Init()
      modifies this
      ensures af == 0x01B0 && bc == 0x0013 && de == 0x00D8
      ensures hl == 0x014D && sp == 0xFFFE && pc == 0x0100
      ensures A() == 0x01 && F() == 0xB0
      ensures B() == 0x00 && C() == 0x13 && D() == 0x00 && E() == 0xD8
      ensures H() == 0x01 && L() == 0x4D
      ensures FlagZ() && !FlagN() && FlagH() && FlagC()
    {
      af := SetLsb(af, 0);
      af := 0x01B0;
      bc := 0x0013;
      de := 0x00D8;
      hl := 0x014D;
      sp := 0xFFFE;
      pc := 0x0100;
    }
  }
}
