/**
 * The memory bus of src/bus.c: a list of connections, each mapping the
 * address range [start, start + size) to a device, kept sorted by start
 * address, with overlap-checked insertion, removal by start address,
 * first-match lookup and dispatch of byte reads and writes to the device
 * with the address made relative to the connection's start.
 *
 * The read and write function pointers of a connection are modelled by an
 * abstract device identifier; every device is memory-backed: its handlers
 * return 0, a write stores the byte at the given offset of that device and
 * a read returns the byte last stored there (0 if none was).
 */
module Bus {
  import opened CTypes

  type DeviceId = nat

  /** `struct bus_connection` without its `next` link: a list element. */
  datatype Connection = Connection(start: u16, size: u16, device: DeviceId)

  /** Where a bus access lands: a device and the offset inside its range. */
  datatype Target = Target(device: DeviceId, offset: u16)

  /** The half-open range of c contains addr (the sum is a C int: no wrap). */
  predicate Covers(c: Connection, addr: int)
  {
    c.start <= addr < c.start + c.size
  }

  /** does_overlap (src/bus.c:6-10). */
  predicate DoesOverlap(first: Connection, second: Connection)
  {
    Covers(second, first.start) || Covers(first, second.start)
  }

  lemma OverlapSymmetric(a: Connection, b: Connection)
    ensures DoesOverlap(a, b) <==> DoesOverlap(b, a)
  {
  }

  /** a may precede b in the list: not after it and not overlapping it. */
  predicate Before(a: Connection, b: Connection)
  {
    a.start <= b.start && !DoesOverlap(a, b)
  }

  lemma BeforeTransitive(a: Connection, b: Connection, c: Connection)
    requires Before(a, b) && Before(b, c)
    ensures Before(a, c)
  {
  }

  /** The list invariant: sorted by start address and pairwise disjoint. */
  ghost predicate Ordered(s: seq<Connection>)
  {
    forall i, j :: 0 <= i < j < |s| ==> Before(s[i], s[j])
  }

  /** In an ordered list at most one connection covers any address. */
  lemma CoverUnique(s: seq<Connection>, addr: int, i: nat, j: nat)
    requires Ordered(s) && i < |s| && j < |s|
    requires Covers(s[i], addr) && Covers(s[j], addr)
    ensures i == j
  {
  }

  /** find_connection's answer: the index of the first covering connection. */
  function FirstCover(s: seq<Connection>, addr: int): (r: Option<nat>)
    ensures r.Some? ==> r.value < |s| && Covers(s[r.value], addr)
    ensures r.Some? ==> forall i :: 0 <= i < r.value ==> !Covers(s[i], addr)
    ensures r.None? <==> forall i :: 0 <= i < |s| ==> !Covers(s[i], addr)
  {
    if s == [] then None
    else if Covers(s[0], addr) then Some(0)
    else match FirstCover(s[1..], addr)
      case None => None
      case Some(k) => Some(k + 1)
  }

  /** What bus_read and bus_write dispatch to for an address. */
  function Route(s: seq<Connection>, addr: u16): (r: Option<Target>)
    ensures r.None? <==> forall i :: 0 <= i < |s| ==> !Covers(s[i], addr)
    ensures r.Some? ==> exists i :: 0 <= i < |s| && Covers(s[i], addr) &&
                          r.value == Target(s[i].device, addr - s[i].start) && r.value.offset < s[i].size
  {
    match FirstCover(s, addr)
    case None => None
    case Some(k) => Some(Target(s[k].device, addr - s[k].start))
  }

  /** The storage behind the memory-backed devices. */
  type Cells = map<DeviceId, map<u16, byte>>

  function CellValue(cells: Cells, t: Target): byte
  {
    if t.device in cells && t.offset in cells[t.device] then cells[t.device][t.offset] else 0
  }

  function StoreCell(cells: Cells, t: Target, v: byte): Cells
  {
    var old_ := if t.device in cells then cells[t.device] else map[];
    cells[t.device := old_[t.offset := v]]
  }

  /** A successful bus_read of addr yields this byte; None when it returns -1. */
  function Load(s: seq<Connection>, cells: Cells, addr: u16): Option<byte>
  {
    match Route(s, addr)
    case None => None
    case Some(t) => Some(CellValue(cells, t))
  }

  /** The device storage after bus_write of v to addr (unchanged when unmapped). */
  function Store(s: seq<Connection>, cells: Cells, addr: u16, v: byte): Cells
  {
    match Route(s, addr)
    case None => cells
    case Some(t) => StoreCell(cells, t, v)
  }

  /**
   * Memory behind the bus reads back what was written: a load after a store
   * to a mapped address yields the stored byte, and any address whose route
   * differs from the written one is unaffected.
   */
  lemma LoadAfterStore(s: seq<Connection>, cells: Cells, a: u16, v: byte, b: u16)
    requires Route(s, a).Some?
    ensures Load(s, Store(s, cells, a, v), a) == Some(v)
    ensures Route(s, b) != Route(s, a) ==> Load(s, Store(s, cells, a, v), b) == Load(s, cells, b)
  {
  }

  /** Index at which add_bus_connection links a node with this start: the first later start. */
  function InsertionPoint(s: seq<Connection>, start: int): (k: nat)
    ensures k <= |s|
    ensures forall j :: 0 <= j < k ==> s[j].start <= start
    ensures k < |s| ==> s[k].start > start
  {
    if s == [] || s[0].start > start then 0 else 1 + InsertionPoint(s[1..], start)
  }

  /** Inserting at the insertion point, clear of both neighbours, keeps the invariant. */
  lemma {:induction false} InsertOrdered(s: seq<Connection>, n: Connection)
    requires Ordered(s)
    requires var k := InsertionPoint(s, n.start);
      (k > 0 ==> !DoesOverlap(n, s[k - 1])) && (k < |s| ==> !DoesOverlap(n, s[k]))
    ensures var k := InsertionPoint(s, n.start); Ordered(s[..k] + [n] + s[k..])
  {
    var k := InsertionPoint(s, n.start);
    var t := s[..k] + [n] + s[k..];
    NodeFits(s, n, k);
    forall i, j | 0 <= i < j < |t|
      ensures Before(t[i], t[j])
    {
      var x := if i < k then s[i] else if i == k then n else s[i - 1];
      var y := if j < k then s[j] else if j == k then n else s[j - 1];
      assert t[i] == x && t[j] == y;
    }
  }

  /** A node clear of its neighbours at its insertion point may follow everything before it and precede everything after. */
  lemma NodeFits(s: seq<Connection>, n: Connection, k: nat)
    requires Ordered(s) && k == InsertionPoint(s, n.start)
    requires (k > 0 ==> !DoesOverlap(n, s[k - 1])) && (k < |s| ==> !DoesOverlap(n, s[k]))
    ensures forall i :: 0 <= i < k ==> Before(s[i], n)
    ensures forall i :: k <= i < |s| ==> Before(n, s[i])
  {
    forall i | 0 <= i < k
      ensures Before(s[i], n)
    {
      assert Before(s[k - 1], n);
      if i < k - 1 { BeforeTransitive(s[i], s[k - 1], n); }
    }
    forall i | k <= i < |s|
      ensures Before(n, s[i])
    {
      assert Before(n, s[k]);
      if i > k { BeforeTransitive(n, s[k], s[i]); }
    }
  }

  /** Unlinking one element keeps the invariant. */
  lemma RemoveOrdered(s: seq<Connection>, j: nat)
    requires Ordered(s) && j < |s|
    ensures Ordered(s[..j] + s[j + 1..])
  {
    var t := s[..j] + s[j + 1..];
    forall a, b | 0 <= a < b < |t|
      ensures Before(t[a], t[b])
    {
      var a' := if a < j then a else a + 1;
      var b' := if b < j then b else b + 1;
      assert t[a] == s[a'] && t[b] == s[b'];
    }
  }

  /** The first element after the head whose start matches: what remove_bus_connection unlinks. */
  function MatchAfterHead(s: seq<Connection>, start: int): (r: Option<nat>)
    ensures r.Some? ==> 1 <= r.value < |s| && s[r.value].start == start
    ensures r.Some? ==> forall i :: 1 <= i < r.value ==> s[i].start != start
    ensures r.None? <==> forall i :: 1 <= i < |s| ==> s[i].start != start
  {
    if |s| <= 1 then None
    else if s[1].start == start then Some(1)
    else match MatchAfterHead(s[1..], start)
      case None => None
      case Some(k) => Some(k + 1)
  }

  /** The global bus_list and the storage of the devices connected to it. */
  class Bus {
    var conns: seq<Connection>
    var cells: Cells

    ghost predicate Valid()
      reads this
    {
      Ordered(conns)
    }

    constructor ()
      ensures Valid() && conns == [] && cells == map[]
    {
      conns := [];
      cells := map[];
    }

    /** find_connection: walk the list and return the first node whose range holds addr. */
    method FindConnection(addr: u16) returns (k: Option<nat>)
      ensures k.Some? ==> k.value < |conns| && Covers(conns[k.value], addr)
      ensures k.Some? ==> forall i :: 0 <= i < k.value ==> !Covers(conns[i], addr)
      ensures k.None? <==> forall i :: 0 <= i < |conns| ==> !Covers(conns[i], addr)
    {
      var i := 0;
      while i < |conns|
        invariant 0 <= i <= |conns|
        invariant forall j :: 0 <= j < i ==> !Covers(conns[j], addr)
      {
        if addr >= conns[i].start && addr < conns[i].start + conns[i].size {
          return Some(i);
        }
        i := i + 1;
      }
      return None;
    }

    /**
     * add_bus_connection. An empty list takes the node as its only element.
     * A node starting before the head becomes the head unless it overlaps
     * it. Otherwise the node goes after the first node whose successor
     * starts later, unless it overlaps either of the two. When no such node
     * exists the C code dereferences the NULL successor of the last node.
     */
    method AddConnection(start: u16, size: u16, device: DeviceId) returns (r: Outcome)
      requires Valid()
      modifies this`conns
      ensures Valid()
      ensures var n := Connection(start, size, device);
        var k := InsertionPoint(old(conns), start);
        if old(conns) == [] then r == Returned(0) && conns == [n]
        else if k == |old(conns)| then r == Undefined && conns == old(conns)
        else if (k > 0 && DoesOverlap(n, old(conns)[k - 1])) || DoesOverlap(n, old(conns)[k]) then
          r == Returned(-1) && conns == old(conns)
        else r == Returned(0) && conns == old(conns)[..k] + [n] + old(conns)[k..]
    {
      var n := Connection(start, size, device);
      if conns == [] {
        conns := [n];
        return Returned(0);
      }
      if conns[0].start > n.start {
        if DoesOverlap(n, conns[0]) {
          return Returned(-1);
        }
        InsertOrdered(conns, n);
        assert conns[..0] + [n] + conns[0..] == [n] + conns;
        conns := [n] + conns;
        return Returned(0);
      }
      var i := 0;
      while i + 1 < |conns|
        invariant 0 <= i < |conns|
        invariant forall j :: 0 <= j <= i ==> conns[j].start <= start
        invariant conns == old(conns)
      {
        if conns[i + 1].start > n.start {
          assert InsertionPoint(conns, start) == i + 1;
          if DoesOverlap(n, conns[i]) || DoesOverlap(n, conns[i + 1]) {
            return Returned(-1);
          }
          InsertOrdered(conns, n);
          conns := conns[..i + 1] + [n] + conns[i + 1..];
          return Returned(0);
        }
        i := i + 1;
      }
      // current->next is NULL here: src/bus.c:73 dereferences it.
      return Undefined;
    }

    /**
     * remove_bus_connection. An empty list is a NULL dereference; a match at
     * the head frees the head and then reads its `next` field (use after
     * free). Otherwise the first later node with that start is unlinked.
     */
    method RemoveConnection(start: u16) returns (r: Outcome)
      requires Valid()
      modifies this`conns
      ensures Valid()
      ensures old(conns) == [] || old(conns)[0].start == start ==> r == Undefined && conns == old(conns)
      ensures old(conns) != [] && old(conns)[0].start != start ==>
        match MatchAfterHead(old(conns), start)
        case None => r == Returned(-1) && conns == old(conns)
        case Some(j) => r == Returned(0) && conns == old(conns)[..j] + old(conns)[j + 1..]
    {
      if conns == [] {
        return Undefined;
      }
      if conns[0].start == start {
        return Undefined;
      }
      var i := 0;
      while i + 1 < |conns|
        invariant 0 <= i < |conns|
        invariant forall j :: 1 <= j <= i ==> conns[j].start != start
        invariant conns == old(conns)
      {
        if conns[i + 1].start == start {
          assert MatchAfterHead(conns, start) == Some(i + 1);
          RemoveOrdered(conns, i + 1);
          conns := conns[..i + 1] + conns[i + 2..];
          return Returned(0);
        }
        i := i + 1;
      }
      return Returned(-1);
    }

    /** bus_read: -1 when no connection covers src, else the device's byte at src - start. */
    method Read(src: u16) returns (code: int, result: Option<byte>)
      ensures result == Load(conns, cells, src)
      ensures code == (if result.Some? then 0 else -1)
    {
      var k := FindConnection(src);
      if k.None? {
        return -1, None;
      }
      var c := conns[k.value];
      result := Some(CellValue(cells, Target(c.device, src - c.start)));
      code := 0;
    }

    /** bus_write: -1 when no connection covers dst, else store val at dst - start in that device. */
    method Write(val: byte, dst: u16) returns (code: int)
      modifies this`cells
      ensures cells == Store(conns, old(cells), dst, val)
      ensures code == (if Route(conns, dst).Some? then 0 else -1)
    {
      var k := FindConnection(dst);
      if k.None? {
        return -1;
      }
      var c := conns[k.value];
      cells := StoreCell(cells, Target(c.device, dst - c.start), val);
      code := 0;
    }
  }
}
