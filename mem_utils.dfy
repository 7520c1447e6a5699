/**
 * Little-endian 16-bit access over the bus (src/mem_utils.c): read_word
 * reads the low byte at address and the high byte at address + 1 (narrowed
 * to 16 bits, so 0xFFFF is followed by 0x0000); write_word writes them in
 * the same order and stops at the first failing bus access.
 */
module MemUtils {
  import opened CTypes
  import opened Bus
  import opened CpuRegisters

  /** The address of the high byte: `address + 1` passed as a uint16_t. */
  function NextAddress(address: u16): u16
  {
    ToU16(address + 1)
  }

  /** The word read_word stores in *out when it returns 0; None when it returns -1. */
  function WordAt(s: seq<Connection>, cells: Cells, address: u16): Option<u16>
  {
    match (Load(s, cells, address), Load(s, cells, NextAddress(address)))
    case (Some(lsb), Some(msb)) => var w: u16 := lsb as int + msb as int * 0x100; Some(w)
    case _ => None
  }

  /** The word is little-endian: its low byte is at address, its high byte at address + 1. */
  lemma WordAtBytes(s: seq<Connection>, cells: Cells, address: u16)
    ensures WordAt(s, cells, address).Some? <==>
      Load(s, cells, address).Some? && Load(s, cells, NextAddress(address)).Some?
    ensures WordAt(s, cells, address).Some? ==>
      Some(GetLsb(WordAt(s, cells, address).value)) == Load(s, cells, address) &&
      Some(GetMsb(WordAt(s, cells, address).value)) == Load(s, cells, NextAddress(address))
  {
  }

  /** Status and device storage after write_word(value, address). */
  datatype WordWrite = WordWrite(code: int, cells: Cells)

  function StoreWord(s: seq<Connection>, cells: Cells, value: u16, address: u16): (w: WordWrite)
    ensures Route(s, address).None? ==> w == WordWrite(-1, cells)
    ensures Route(s, address).Some? && Route(s, NextAddress(address)).None? ==>
      w == WordWrite(-1, Store(s, cells, address, GetLsb(value)))
    ensures w.code == 0 <==> Route(s, address).Some? && Route(s, NextAddress(address)).Some?
    ensures w.code == 0 ==>
      w.cells == Store(s, Store(s, cells, address, GetLsb(value)), NextAddress(address), GetMsb(value))
  {
    if Route(s, address).None? then WordWrite(-1, cells)
    else
      var lowWritten := Store(s, cells, address, value % 0x100);
      if Route(s, NextAddress(address)).None? then WordWrite(-1, lowWritten)
      else WordWrite(0, Store(s, lowWritten, NextAddress(address), value / 0x100))
  }

  /** write_word touches only the cells behind address and address + 1: every other address reads as before. */
  lemma StoreWordFrame(s: seq<Connection>, cells: Cells, value: u16, address: u16, b: u16)
    requires Route(s, b) != Route(s, address) && Route(s, b) != Route(s, NextAddress(address))
    ensures Load(s, StoreWord(s, cells, value, address).cells, b) == Load(s, cells, b)
  {
    var c1 := Store(s, cells, address, GetLsb(value));
    if Route(s, address).Some? {
      LoadAfterStore(s, cells, address, GetLsb(value), b);
      if Route(s, NextAddress(address)).Some? {
        LoadAfterStore(s, c1, NextAddress(address), GetMsb(value), b);
      }
    }
  }

  /**
   * On memory-backed devices, reading back a word that was written
   * successfully yields it, provided its two bytes land in different cells.
   */
  lemma WordRoundTrip(s: seq<Connection>, cells: Cells, value: u16, address: u16)
    requires Route(s, address).Some? && Route(s, NextAddress(address)).Some?
    requires Route(s, address) != Route(s, NextAddress(address))
    ensures StoreWord(s, cells, value, address).code == 0
    ensures WordAt(s, StoreWord(s, cells, value, address).cells, address) == Some(value)
  {
    var a, b := address, NextAddress(address);
    var c1 := Store(s, cells, a, value % 0x100);
    var c2 := Store(s, c1, b, value / 0x100);
    LoadAfterStore(s, cells, a, value % 0x100, a);
    LoadAfterStore(s, c1, b, value / 0x100, b);
    LoadAfterStore(s, c1, b, value / 0x100, a);
    assert Load(s, c2, a) == Some(value % 0x100);
    assert Load(s, c2, b) == Some(value / 0x100);
  }

  /** read_word */
  method ReadWord(bus: Bus, address: u16) returns (code: int, out: Option<u16>)
    ensures out == WordAt(bus.conns, bus.cells, address)
    ensures code == (if out.Some? then 0 else -1)
  {
    var c, lsb := bus.Read(address);
    if c != 0 {
      return -1, None;
    }
    var msb;
    c, msb := bus.Read(NextAddress(address));
    if c != 0 {
      return -1, None;
    }
    var w: u16 := lsb.value as int + msb.value as int * 0x100;
    out := Some(w);
    code := 0;
  }

  /** write_word */
  method WriteWord(bus: Bus, value: u16, address: u16) returns (code: int)
    modifies bus`cells
    ensures WordWrite(code, bus.cells) == StoreWord(bus.conns, old(bus.cells), value, address)
  {
    code := bus.Write(value % 0x100, address);
    if code != 0 {
      return -1;
    }
    code := bus.Write(value / 0x100, NextAddress(address));
    if code != 0 {
      return -1;
    }
    return 0;
  }
}
