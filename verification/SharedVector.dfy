/**
 Copy-on-write vectors: VectorImpl objects that share reference-counted SharedBuffers.

 A buffer's storage is a sequence of item-sized cells; its size field counts bytes, and a
 vector recovers its capacity by division.  Memory allocation succeeds or fails as the
 Memory argument says.  A LOG_ALWAYS_FATAL ends the process; the model returns Aborted
 instead and has then changed nothing.
 */
module SharedVector {
  import opened Basics

  const MIN_VECTOR_CAPACITY: nat := 4
  const SIZE_MAX: nat := 0xFFFF_FFFF
  /** sizeof(SharedBuffer): four 32-bit words. */
  const HEADER: nat := 16

  /** A cell holds an item, or bytes that are not an item (never written, or destroyed). */
  datatype Cell<T> = Raw | Item(value: T)

  datatype Memory = Memory(reallocOk: bool, allocOk: bool)

  datatype Flags = Flags(trivialCtor: bool, trivialDtor: bool, trivialCopy: bool)

  /** Undefined: the code reads or writes memory that holds no item for it. */
  datatype Status = Done(index: nat) | BadIndex | BadValue | NoMemory | Aborted | Undefined

  /** What replaceAt copies from: nothing, an item elsewhere, or the very item it replaces. */
  datatype Prototype<T> = Default | Given(value: T) | InPlace

  /** What SharedBuffer::alloc refuses. */
  predicate TooLarge(bytes: nat) { bytes >= SIZE_MAX - HEADER }

  /** n * itemSize, by repeated addition. */
  ghost function Bytes(n: nat, itemSize: nat): nat { if n == 0 then 0 else itemSize + Bytes(n - 1, itemSize) }

  /** SharedBuffer::alloc accepts n cells. */
  ghost predicate Fits(n: nat, itemSize: nat) { !TooLarge(Bytes(n, itemSize)) }

  function Max(a: nat, b: nat): nat { if a > b then a else b }

  function Min(a: nat, b: nat): nat { if a < b then a else b }

  function RawCells<T>(n: nat): seq<Cell<T>> { seq(n, _ => Raw) }

  /** realloc or memcpy into n cells. */
  function Resized<T>(data: seq<Cell<T>>, n: nat): (r: seq<Cell<T>>)
    ensures |r| == n && forall i :: 0 <= i < Min(n, |data|) ==> r[i] == data[i]
  {
    if n <= |data| then data[..n] else data + RawCells(n - |data|)
  }

  /** memmove of n cells. */
  function Blit<T>(dest: seq<Cell<T>>, to: nat, src: seq<Cell<T>>, from: nat, n: nat): (r: seq<Cell<T>>)
    requires to + n <= |dest| && from + n <= |src|
    ensures |r| == |dest|
    ensures forall i :: 0 <= i < |dest| ==> r[i] == if to <= i < to + n then src[from + i - to] else dest[i]
  {
    dest[..to] + src[from..from + n] + dest[to + n..]
  }

  function GrownCapacity(newSize: nat): nat { Max(MIN_VECTOR_CAPACITY, newSize + newSize / 2 + 1) }

  function RoomAfter(room: nat, newSize: nat): nat { if room < newSize then GrownCapacity(newSize) else room }

  /** The capacities that _grow and _shrink choose, in numbers. */
  lemma CapacityRules(room: nat, n: nat)
    ensures RoomAfter(room, n) == if n <= room then room else if n <= 2 then 4 else n + n / 2 + 1
    ensures ShrunkRoom(room, n) == if n >= room / 2 then room else if n <= 2 then 4 else 2 * n
    ensures n <= RoomAfter(room, n) && (n <= room ==> n <= ShrunkRoom(room, n))
  {
  }

  /** SharedBuffer::alloc accepts the grown buffer. */
  ghost predicate Affordable(newSize: nat, itemSize: nat) { Fits(GrownCapacity(newSize), itemSize) }

  lemma AffordableLess(n: nat, m: nat, itemSize: nat)
    requires n <= m
    ensures Affordable(m, itemSize) ==> Affordable(n, itemSize)
  {
    BytesMono(GrownCapacity(n), GrownCapacity(m), itemSize);
  }

  /** The checked arithmetic of _grow: the new capacity, unless some sum or product exceeds
      size_t or the limit of SharedBuffer::alloc. */
  function CheckedCapacity(newSize: nat, itemSize: nat): (c: Option<nat>)
    requires itemSize > 0
    ensures c == if Affordable(newSize, itemSize) then Some(GrownCapacity(newSize)) else None
  {
    BytesAtLeast(GrownCapacity(newSize), itemSize);
    if newSize + newSize / 2 > SIZE_MAX || newSize + newSize / 2 + 1 > SIZE_MAX then None
    else
      var newCapacity := Max(MIN_VECTOR_CAPACITY, newSize + newSize / 2 + 1);
      var bytes := ByteCount(newCapacity, itemSize);
      if bytes > SIZE_MAX || TooLarge(bytes) then None else Some(newCapacity)
  }

  /** s' is s with a gap of `amount` cells opened at `where`. */
  ghost predicate Opened<T>(s: seq<Cell<T>>, s': seq<Cell<T>>, where: nat, amount: nat) {
    where <= |s| && |s'| == |s| + amount && s'[..where] == s[..where] && s'[where + amount..] == s[where..]
  }

  function Cut<T>(s: seq<Cell<T>>, where: nat, amount: nat): seq<Cell<T>>
    requires where + amount <= |s|
  {
    s[..where] + s[where + amount..]
  }

  function ShrunkRoom(room: nat, newSize: nat): nat {
    if newSize < room / 2 then Max(MIN_VECTOR_CAPACITY, newSize * 2) else room
  }

  lemma ResizeCuts<T>(data: seq<Cell<T>>, count: nat, amount: nat, n: nat)
    requires amount <= count <= |data| && count - amount <= n
    ensures Resized(data, n)[..count - amount] == Cut(data[..count], count - amount, amount)
  {
  }

  /** Two copies into a fresh buffer, or one move within the buffer, make the same cut. */
  lemma BlitCuts<T>(dest: seq<Cell<T>>, data: seq<Cell<T>>, count: nat, where: nat, amount: nat)
    requires where + amount <= count <= |data| && count - amount <= |dest| && dest[..where] == data[..where]
    ensures Blit(dest, where, data, where + amount, count - amount - where)[..count - amount] ==
            Cut(data[..count], where, amount)
  {
    var r := Blit(dest, where, data, where + amount, count - amount - where);
    assert forall i :: 0 <= i < where ==> r[i] == dest[..where][i] == data[..where][i];
  }

  /** Destroy `amount` cells and move the rest back over them. */
  function CloseGap<T>(data: seq<Cell<T>>, count: nat, where: nat, amount: nat, destroys: bool): (r: seq<Cell<T>>)
    requires where + amount <= count <= |data|
    ensures |r| == |data| && r[..count - amount] == Cut(data[..count], where, amount)
  {
    var hole := if destroys then Blit(data, where, RawCells(amount), 0, amount) else data;
    BlitCuts(hole, data, count, where, amount);
    if where == count - amount then hole
    else
      assert hole[where + amount..count] == data[where + amount..count];
      Blit(hole, where, hole, where + amount, count - amount - where)
  }

  lemma ResizeOpens<T>(data: seq<Cell<T>>, count: nat, amount: nat, n: nat)
    requires count <= |data| <= n && count + amount <= n
    ensures Opened(data[..count], Resized(data, n)[..count + amount], count, amount)
  {
  }

  /** Two copies into a fresh buffer, or one move within the buffer, open the same gap. */
  lemma BlitOpens<T>(dest: seq<Cell<T>>, data: seq<Cell<T>>, count: nat, where: nat, amount: nat)
    requires where <= count <= |data| && count + amount <= |dest| && dest[..where] == data[..where]
    ensures Opened(data[..count], Blit(dest, where + amount, data, where, count - where)[..count + amount], where, amount)
  {
    var r := Blit(dest, where + amount, data, where, count - where)[..count + amount];
    assert forall i :: 0 <= i < where ==> r[i] == dest[..where][i];
    assert r[..where] == data[..count][..where];
    assert r[where + amount..] == data[..count][where..];
  }

  function Splice<T>(s: seq<Cell<T>>, where: nat, items: seq<Cell<T>>): seq<Cell<T>>
    requires where <= |s|
  {
    s[..where] + items + s[where..]
  }

  lemma SpliceOpens<T>(s: seq<Cell<T>>, where: nat, items: seq<Cell<T>>)
    requires where <= |s|
    ensures Opened(s, Splice(s, where, items), where, |items|)
  {
  }

  function Cells<T>(items: seq<T>): seq<Cell<T>> { seq(|items|, i requires 0 <= i < |items| => Item(items[i])) }

  function Copies<T>(item: T, n: nat): seq<Cell<T>> { seq(n, _ => Item(item)) }

  lemma FillSplices<T>(data: seq<Cell<T>>, count: nat, before: seq<Cell<T>>, where: nat, items: seq<Cell<T>>)
    requires count <= |data| && Opened(before, data[..count], where, |items|)
    ensures Blit(data, where, items, 0, |items|)[..count] == Splice(before, where, items)
  {
    var r := Blit(data, where, items, 0, |items|)[..count];
    var n := |items|;
    assert r[..where] == data[..count][..where];
    assert r[where..where + n] == items;
    assert r[where + n..] == data[..count][where + n..];
    assert r == r[..where] + r[where..where + n] + r[where + n..];
  }

  lemma AtEnd<T>(s: seq<Cell<T>>, n: nat, items: seq<Cell<T>>)
    requires n <= |s|
    ensures Cut(s, n, |s| - n) == s[..n] && Splice(s, |s|, items) == s + items
  {
  }

  lemma UpdatePrefix<T>(data: seq<T>, count: nat, index: nat, x: T)
    requires index < count <= |data|
    ensures data[index := x][..count] == data[..count][index := x]
  {
  }

  lemma {:induction false} BytesIsProduct(n: nat, itemSize: nat)
    ensures Bytes(n, itemSize) == n * itemSize
  {
    if n > 0 {
      BytesIsProduct(n - 1, itemSize);
      assert (n - 1) * itemSize + itemSize == n * itemSize;
    }
  }

  lemma {:induction false} BytesMono(a: nat, b: nat, itemSize: nat)
    requires a <= b
    ensures Bytes(a, itemSize) <= Bytes(b, itemSize)
    ensures itemSize > 0 && a < b ==> Bytes(a, itemSize) < Bytes(b, itemSize)
  {
    if a < b { BytesMono(a, b - 1, itemSize); }
  }

  lemma {:induction false} BytesAtLeast(n: nat, itemSize: nat)
    requires itemSize > 0
    ensures Bytes(n, itemSize) >= n
  {
    if n > 0 { BytesAtLeast(n - 1, itemSize); }
  }

  function ByteCount(n: nat, itemSize: nat): (bytes: nat)
    ensures bytes == Bytes(n, itemSize)
  {
    BytesIsProduct(n, itemSize);
    n * itemSize
  }

  /** bytes / itemSize, by repeated subtraction. */
  function Divide(bytes: nat, itemSize: nat): nat
    requires itemSize > 0
  {
    if bytes < itemSize then 0 else 1 + Divide(bytes - itemSize, itemSize)
  }

  lemma {:induction false} DivideBounds(bytes: nat, itemSize: nat)
    requires itemSize > 0
    ensures Bytes(Divide(bytes, itemSize), itemSize) <= bytes < Bytes(Divide(bytes, itemSize), itemSize) + itemSize
  {
    if bytes >= itemSize { DivideBounds(bytes - itemSize, itemSize); }
  }

  lemma MulAtLeast(d: int, n: nat)
    requires d >= 1
    ensures d * n >= n
  {
  }

  lemma QuotientIs(q: nat, d: nat, n: nat)
    requires d > 0 && q * d <= n < q * d + d
    ensures n / d == q
  {
    var p, r := n / d, n % d;
    assert (q - p) * d == q * d - p * d && (p - q) * d == p * d - q * d && n == p * d + r;
    if p < q {
      MulAtLeast(q - p, d);
    } else if q < p {
      MulAtLeast(p - q, d);
    }
  }

  lemma DivideIsQuotient(bytes: nat, itemSize: nat)
    requires itemSize > 0
    ensures Divide(bytes, itemSize) == bytes / itemSize
  {
    DivideBounds(bytes, itemSize);
    BytesIsProduct(Divide(bytes, itemSize), itemSize);
    QuotientIs(Divide(bytes, itemSize), itemSize, bytes);
  }

  lemma {:induction false} DivideBytes(n: nat, itemSize: nat)
    requires itemSize > 0
    ensures Divide(Bytes(n, itemSize), itemSize) == n
  {
    if n > 0 { DivideBytes(n - 1, itemSize); }
  }

  /** A stored byte size divides back to exactly the capacity it was made for. */
  lemma DivideBack(capacity: nat, itemSize: nat)
    requires itemSize > 0
    ensures Bytes(capacity, itemSize) / itemSize == capacity
  {
    DivideBytes(capacity, itemSize);
    DivideIsQuotient(Bytes(capacity, itemSize), itemSize);
  }

  class SharedBuffer<T> {
    var refs: int
    var size: nat
    var data: seq<Cell<T>>
    var freed: bool

    /** alloc, with the cells the caller then copies in. */
    constructor (data: seq<Cell<T>>, itemSize: nat)
      ensures refs == 1 && size == Bytes(|data|, itemSize) && this.data == data && !freed
    {
      BytesIsProduct(|data|, itemSize);
      refs, size, freed := 1, |data| * itemSize, false;
      this.data := data;
    }

    ghost predicate Ok(itemSize: nat)
      reads this
    {
      !freed && size == Bytes(|data|, itemSize) && Fits(|data|, itemSize)
    }

    method Acquire()
      requires !freed
      modifies this`refs
      ensures refs == old(refs) + 1
    {
      refs := refs + 1;
    }

    /** release(eKeepStorage): the count before, and zero left of it by the last owner. */
    method ReleaseKeep() returns (prev: int)
      requires !freed && refs >= 1
      modifies this`refs
      ensures prev == old(refs) && refs == old(refs) - 1
    {
      if refs == 1 {
        prev, refs := 1, 0;
      } else {
        prev, refs := refs, refs - 1;
      }
    }

    /** The same cells in a buffer of newCapacity cells, for the caller alone: this buffer
        if it had no other owner and could be resized, else a copy, this buffer losing one
        owner.  Null, and nothing changed, if there is no memory for it. */
    method EditResize(newCapacity: nat, itemSize: nat, mem: Memory) returns (sb: SharedBuffer?<T>, ghost moved: nat)
      requires itemSize > 0 && Ok(itemSize) && refs >= 1 && Fits(newCapacity, itemSize)
      modifies this
      ensures sb == null <==>
                !mem.allocOk && !(old(refs) == 1 && (old(|data|) == newCapacity || mem.reallocOk))
      ensures sb == null ==> unchanged(this)
      ensures sb == this ==> old(refs) == 1
      ensures sb != null && sb != this ==>
                fresh(sb) && data == old(data) && size == old(size) && refs == old(refs) - 1 &&
                (freed <==> old(refs) == 1)
      ensures sb != null ==>
                sb.Ok(itemSize) && sb.refs == 1 && sb.data == Resized(old(data), newCapacity)
      ensures sb != null ==>
                moved == if old(refs) == 1 && old(|data|) == newCapacity then 0 else Min(newCapacity, old(|data|))
    {
      moved := 0;
      if refs == 1 {
        var newSize := ByteCount(newCapacity, itemSize);
        if size == newSize {
          BytesMono(Min(newCapacity, |data|), Max(newCapacity, |data|), itemSize);
          return this, 0;
        }
        if mem.reallocOk {
          moved := Min(newCapacity, |data|);
          data, size := Resized(data, newCapacity), newSize;
          return this, moved;
        }
      }
      if !mem.allocOk { return null, 0; }
      moved := Min(newCapacity, |data|);
      sb := new SharedBuffer(Resized(data, newCapacity), itemSize);
      var prev := ReleaseKeep();
      if prev == 1 { Dealloc(); }
    }

    method Dealloc()
      requires !freed && refs == 0
      modifies this`freed
      ensures freed
    {
      freed := true;
    }
  }

  class VectorImpl<T> {
    var storage: SharedBuffer?<T>
    var count: nat
    const flags: Flags
    const itemSize: nat

    constructor (itemSize: nat, flags: Flags)
      ensures storage == null && count == 0 && this.itemSize == itemSize && this.flags == flags
    {
      storage, count := null, 0;
      this.itemSize, this.flags := itemSize, flags;
    }

    ghost function Contents(): seq<Cell<T>>
      reads this, storage
    {
      if storage == null || count > |storage.data| then [] else storage.data[..count]
    }

    /** The byte size of the buffer, divided by the item size. */
    function Capacity(): (n: nat)
      requires itemSize > 0 && (storage == null || storage.Ok(itemSize))
      reads this, storage
      ensures n == Room()
    {
      if storage == null then 0
      else
        DivideBytes(|storage.data|, itemSize);
        Divide(storage.size, itemSize)
    }

    /** itemLocation finds the place in the buffer. */
    predicate HasLocation(index: nat)
      requires itemSize > 0 && (storage == null || storage.Ok(itemSize))
      reads this, storage
      ensures HasLocation(index) <==> index < Room()
    {
      index < Capacity()
    }

    /** The vector lets go of its buffer, which is freed if nobody else owns it.  The
        vector itself is left pointing at it, so only the others are a family now. */
    method ReleaseStorage(ghost fam: set<VectorImpl<T>>)
      requires this in fam && Family(fam, itemSize)
      modifies storage
      ensures Family(fam - {this}, itemSize)
      ensures storage != null ==>
                storage.data == old(storage.data) && storage.refs == old(storage.refs) - 1 &&
                (storage.freed <==> old(storage.refs) == 1)
    {
      if storage != null {
        assert MemberOk(fam, this, itemSize);
        assert this in Owners(fam, storage);
        if storage.refs == 1 { Sole(fam, this, itemSize); }
        var prev := storage.ReleaseKeep();
        if prev == 1 { storage.Dealloc(); }
      }
      forall w | w in fam && w != this ensures MemberOk(fam - {this}, w, itemSize) {
        assert old(MemberOk(fam, w, itemSize));
        if w.storage != null { OwnersWithout(fam, this, w.storage); }
      }
    }

    /** release_storage() and adoption of a buffer nobody owns yet, with its item count. */
    method SwapStorage(sb: SharedBuffer<T>, newCount: nat, ghost fam: set<VectorImpl<T>>)
      requires this in fam && Family(fam, itemSize) && itemSize > 0
      requires sb.Ok(itemSize) && sb.refs == 1 && newCount <= |sb.data|
      requires forall w :: w in fam ==> w.storage != sb
      modifies this, storage
      ensures storage == sb && count == newCount && Family(fam, itemSize)
      ensures sb.data == old(sb.data) && sb.refs == 1
      ensures old(storage) != null ==>
                old(storage).data == old(storage.data) && (old(storage).freed <==> old(storage.refs) == 1)
      ensures OthersKept(fam)
    {
      ReleaseStorage(fam);
      storage, count := sb, newCount;
      Join(fam, this, itemSize);
    }

    /** The vector has its buffer, its length and its items. */
    twostate predicate Kept()
      reads this, storage
    {
      storage == old(storage) && count == old(count) && Contents() == old(Contents())
    }

    twostate predicate OthersKept(fam: set<VectorImpl<T>>)
      reads this, fam, Buffers(fam)
    {
      forall w :: w in fam && w != this ==> w.Kept()
    }

    /** The vector's buffer is the one it had, with the same owners, or a new one.  A buffer
        it gave up keeps its items, and is freed if nobody else owns it. */
    twostate predicate GaveUp(b: SharedBuffer?<T>)
      reads this, b
    {
      if storage == old(storage) then b != null ==> b.refs == old(b.refs)
      else fresh(storage) && (b != null ==> b.data == old(b.data) && (b.freed <==> old(b.refs) == 1))
    }

    /** editArrayImpl: make the vector the only owner of its buffer. */
    method EditArray(mem: Memory, ghost fam: set<VectorImpl<T>>) returns (ok: bool, ghost moved: nat)
      requires this in fam && Family(fam, itemSize)
      modifies this, storage
      ensures Family(fam, itemSize) && count == old(count) && Contents() == old(Contents()) && Room() == old(Room())
      ensures OthersKept(fam)
      ensures storage == null <==> old(storage) == null
      ensures GaveUp(old(storage))
      ensures !ok <==> old(storage) != null && old(storage.refs) > 1 && !mem.allocOk
      ensures !ok ==> storage == old(storage) && storage.refs == old(storage.refs)
      ensures ok ==> moved == if old(storage) != null && old(storage.refs) > 1 then count else 0
      ensures ok && storage != null ==> storage.refs == 1 && |storage.data| == |old(storage.data)|
      ensures old(storage) != null && old(storage.refs) == 1 ==> storage == old(storage)
    {
      ok, moved := true, 0;
      if storage != null {
        assert MemberOk(fam, this, itemSize);
        assert this in Owners(fam, storage);
        if storage.refs != 1 {
          if !mem.allocOk { return false, 0; }
          var editable := new SharedBuffer(storage.data[..count] + RawCells(|storage.data| - count), itemSize);
          moved := count;
          SwapStorage(editable, count, fam);
        }
      }
    }

    /** editResize of the vector's buffer.  The vector is left pointing at the old one, so
        only the others are a family now. */
    method ResizeBuffer(newCapacity: nat, mem: Memory, ghost fam: set<VectorImpl<T>>)
      returns (sb: SharedBuffer?<T>, ghost moved: nat)
      requires this in fam && Family(fam, itemSize) && storage != null && itemSize > 0 && Fits(newCapacity, itemSize)
      modifies storage
      ensures sb == null <==>
                !mem.allocOk && !(old(storage.refs) == 1 && (|old(storage.data)| == newCapacity || mem.reallocOk))
      ensures sb == null ==> unchanged(storage)
      ensures sb != null ==>
                Family(fam - {this}, itemSize) && OthersKept(fam) && forall w :: w in fam && w != this ==> w.storage != sb
      ensures sb != null ==> sb.Ok(itemSize) && sb.refs == 1 && sb.data == Resized(old(storage.data), newCapacity)
      ensures sb == storage ==> old(storage.refs) == 1
      ensures sb != null && sb != storage ==>
                fresh(sb) && storage.data == old(storage.data) && (storage.freed <==> old(storage.refs) == 1)
      ensures sb != null && old(Room()) < newCapacity ==> moved == old(Room())
    {
      assert MemberOk(fam, this, itemSize);
      assert this in Owners(fam, storage);
      if storage.refs == 1 { Sole(fam, this, itemSize); }
      sb, moved := storage.EditResize(newCapacity, itemSize, mem);
      if sb != null {
        forall w | w in fam && w != this ensures MemberOk(fam - {this}, w, itemSize) {
          assert old(MemberOk(fam, w, itemSize));
          if w.storage != null { OwnersWithout(fam, this, w.storage); }
        }
      }
    }

    /** The editResize path of _grow and _shrink. */
    method ResizeTo(newCapacity: nat, newCount: nat, mem: Memory, ghost fam: set<VectorImpl<T>>)
      returns (ok: bool, ghost moved: nat)
      requires this in fam && Family(fam, itemSize) && storage != null
      requires newCount <= newCapacity && itemSize > 0 && Fits(newCapacity, itemSize)
      modifies this, storage
      ensures Family(fam, itemSize) && OthersKept(fam)
      ensures GaveUp(old(storage))
      ensures ok <==> mem.allocOk || (old(storage.refs) == 1 && (|old(storage.data)| == newCapacity || mem.reallocOk))
      ensures ok ==> storage != null && storage.refs == 1 && count == newCount &&
                     storage.data == Resized(old(storage.data), newCapacity)
      ensures ok && old(Room()) < newCapacity ==> moved == old(Room())
      ensures !ok ==> storage == old(storage) && count == old(count) && Contents() == old(Contents()) && Room() == old(Room())
    {
      var sb;
      sb, moved := ResizeBuffer(newCapacity, mem, fam);
      if sb == null { return false, 0; }
      storage, count := sb, newCount;
      Join(fam, this, itemSize);
      ok := true;
    }

    /** The existing items (for a resized buffer, cells) that _grow moves or copies: all of
        them into another buffer, those behind the gap within the buffer. */
    ghost function GrowMoves(where: nat, amount: nat): nat
      requires where <= count
      reads this, storage
    {
      if Room() < count + amount then
        if storage != null && count == where && flags.trivialCopy && flags.trivialDtor then Room() else count
      else (if storage != null && storage.refs > 1 then count else 0) + (count - where)
    }

    /** _grow ends the process: the larger buffer is too large for SharedBuffer::alloc, or a
        shared one with room enough cannot be copied. */
    ghost predicate GrowFatal(amount: nat, mem: Memory)
      reads this, storage
    {
      if Room() < count + amount then !Affordable(count + amount, itemSize)
      else storage != null && storage.refs > 1 && !mem.allocOk
    }

    /** _grow wants a larger buffer and neither resizes the one it has nor gets another. */
    ghost predicate GrowStarves(where: nat, amount: nat, mem: Memory)
      reads this, storage
    {
      Room() < count + amount && !mem.allocOk &&
      !(storage != null && where == count && flags.trivialCopy && flags.trivialDtor && storage.refs == 1 && mem.reallocOk)
    }

    /** _grow gives back no place: an empty gap at the end of the buffer has none. */
    ghost predicate GrowFails(where: nat, amount: nat, mem: Memory)
      reads this, storage
    {
      GrowFatal(amount, mem) || GrowStarves(where, amount, mem) || (amount == 0 && where == Room())
    }

    /** When _grow succeeds: it has a place to give back, and room in a buffer of its own, or
        the memory to copy that, or memory for a larger one that is not too large, or a way
        to resize the one it has. */
    lemma GrowSucceedsIff(where: nat, amount: nat, mem: Memory)
      requires where <= count <= Room() && (storage != null ==> storage.refs >= 1)
      ensures !GrowFails(where, amount, mem) <==>
              (amount > 0 || where < Room()) &&
              if count + amount <= Room() then storage == null || storage.refs == 1 || mem.allocOk
              else !TooLarge(Bytes(Max(4, (count + amount) + (count + amount) / 2 + 1), itemSize)) &&
                   (mem.allocOk || (where == count && storage != null && storage.refs == 1 && mem.reallocOk &&
                                    flags.trivialCopy && flags.trivialDtor))
      ensures GrowFatal(amount, mem) ==> GrowFails(where, amount, mem)
    {
    }

    method GrowByCopy(where: nat, amount: nat, newCapacity: nat, mem: Memory, ghost fam: set<VectorImpl<T>>)
      returns (ok: bool, ghost moved: nat)
      requires this in fam && Family(fam, itemSize) && where <= count && count + amount <= newCapacity
      requires itemSize > 0 && Fits(newCapacity, itemSize)
      modifies this, storage
      ensures Family(fam, itemSize) && OthersKept(fam)
      ensures GaveUp(old(storage))
      ensures ok <==> mem.allocOk
      ensures ok ==> storage != null && storage.refs == 1 && |storage.data| == newCapacity && moved == old(count) &&
                     count == old(count) + amount && Opened(old(Contents()), Contents(), where, amount)
      ensures !ok ==> storage == old(storage) && count == old(count) && Contents() == old(Contents()) && Room() == old(Room())
    {
      assert MemberOk(fam, this, itemSize);
      if !mem.allocOk { return false, 0; }
      var data := RawCells(newCapacity);
      moved := 0;
      if where != 0 {
        data, moved := Blit(data, 0, storage.data, 0, where), where;
      }
      if storage != null { BlitOpens(data, storage.data, count, where, amount); }
      if where != count {
        data, moved := Blit(data, where + amount, storage.data, where, count - where), moved + (count - where);
      }
      var sb := new SharedBuffer(data, itemSize);
      SwapStorage(sb, count + amount, fam);
      ok := true;
    }

    method GrowInPlace(where: nat, amount: nat, mem: Memory, ghost fam: set<VectorImpl<T>>)
      returns (ok: bool, ghost moved: nat)
      requires this in fam && Family(fam, itemSize) && where <= count
      requires count + amount <= if storage == null then 0 else |storage.data|
      modifies this, storage
      ensures Family(fam, itemSize) && OthersKept(fam)
      ensures GaveUp(old(storage))
      ensures storage == null <==> old(storage) == null
      ensures !ok <==> old(storage) != null && old(storage.refs) > 1 && !mem.allocOk
      ensures old(storage) != null && old(storage.refs) == 1 ==> storage == old(storage)
      ensures ok ==> count == old(count) + amount && Opened(old(Contents()), Contents(), where, amount)
      ensures ok ==> moved == old(GrowMoves(where, amount))
      ensures ok && storage != null ==> storage.refs == 1 && |storage.data| == |old(storage.data)|
      ensures !ok ==> storage == old(storage) && count == old(count) && Contents() == old(Contents()) && Room() == old(Room())
    {
      assert MemberOk(fam, this, itemSize);
      ok, moved := EditArray(mem, fam);
      if !ok { return; }
      assert MemberOk(fam, this, itemSize);
      if where != count {
        moved := moved + (count - where);
        BlitOpens(storage.data, storage.data, count, where, amount);
        WriteOwn(Blit(storage.data, where + amount, storage.data, where, count - where), count + amount, fam);
      } else if storage != null {
        WriteOwn(storage.data, count + amount, fam);
      }
    }

    /** _grow's choice when the buffer is too small. */
    method Relocate(where: nat, amount: nat, newCapacity: nat, mem: Memory, ghost fam: set<VectorImpl<T>>)
      returns (ok: bool, ghost moved: nat)
      requires this in fam && Family(fam, itemSize) && where <= count
      requires Room() < count + amount && Room() < newCapacity && count + amount <= newCapacity &&
               itemSize > 0 && Fits(newCapacity, itemSize)
      modifies this, storage
      ensures Family(fam, itemSize) && OthersKept(fam)
      ensures GaveUp(old(storage))
      ensures ok <==> !old(GrowStarves(where, amount, mem))
      ensures ok ==> moved == old(GrowMoves(where, amount))
      ensures ok ==> storage != null && storage.refs == 1 && |storage.data| == newCapacity &&
                     count == old(count) + amount && Opened(old(Contents()), Contents(), where, amount)
      ensures !ok ==> storage == old(storage) && count == old(count) && Contents() == old(Contents()) && Room() == old(Room())
    {
      assert MemberOk(fam, this, itemSize);
      if storage != null && count == where && flags.trivialCopy && flags.trivialDtor {
        ResizeOpens(storage.data, count, amount, newCapacity);
        ok, moved := ResizeTo(newCapacity, count + amount, mem, fam);
      } else {
        ok, moved := GrowByCopy(where, amount, newCapacity, mem, fam);
      }
    }

    /** _grow up to the new count. */
    method OpenGap(where: nat, amount: nat, mem: Memory, ghost fam: set<VectorImpl<T>>)
      returns (r: Status, ghost moved: nat)
      requires this in fam && Family(fam, itemSize) && where <= count
      modifies this, storage
      ensures Family(fam, itemSize) && OthersKept(fam)
      ensures GaveUp(old(storage))
      ensures r == Done(where) || r.NoMemory? || r.Aborted?
      ensures r.Done? ==>
                count == old(count) + amount && Opened(old(Contents()), Contents(), where, amount) &&
                Room() == RoomAfter(old(Room()), count) && (storage != null ==> storage.refs == 1) &&
                moved == old(GrowMoves(where, amount))
      ensures old(storage) != null && old(storage.refs) == 1 && old(count) + amount <= old(Room()) ==>
                storage == old(storage)
      ensures !r.Done? ==>
                storage == old(storage) && count == old(count) && Contents() == old(Contents()) && Room() == old(Room())
      ensures r.Aborted? <==> old(GrowFatal(amount, mem))
      ensures r.NoMemory? <==> old(GrowStarves(where, amount, mem) && !GrowFatal(amount, mem))
    {
      assert MemberOk(fam, this, itemSize);
      var capacity := Capacity();
      if capacity < count + amount {
        var newCapacity := CheckedCapacity(count + amount, itemSize);
        if newCapacity.None? { return Aborted, 0; }
        var ok;
        ok, moved := Relocate(where, amount, newCapacity.value, mem, fam);
        r := if ok then Done(where) else NoMemory;
      } else {
        var ok;
        ok, moved := GrowInPlace(where, amount, mem, fam);
        r := if ok then Done(where) else Aborted;
      }
    }

    /** _grow: open a gap of `amount` cells at `where`. */
    method Grow(where: nat, amount: nat, mem: Memory, ghost fam: set<VectorImpl<T>>)
      returns (r: Status, ghost moved: nat)
      requires this in fam && Family(fam, itemSize) && where <= count
      modifies this, storage
      ensures Family(fam, itemSize) && OthersKept(fam)
      ensures GaveUp(old(storage))
      ensures r == Done(where) || r.NoMemory? || r.Aborted?
      ensures r.Done? ==>
                storage != null && storage.refs == 1 && where < |storage.data| &&
                count == old(count) + amount && Opened(old(Contents()), Contents(), where, amount)
      ensures r.Done? ==> Room() == RoomAfter(old(Room()), count)
      ensures r.Done? ==> moved == old(GrowMoves(where, amount))
      ensures old(storage) != null && old(storage.refs) == 1 && old(count) + amount <= old(Room()) ==>
                storage == old(storage)
      ensures !r.Done? ==> count == old(count) && Contents() == old(Contents()) && Room() == old(Room())
      ensures !r.Done? && amount > 0 ==> storage == old(storage)
      ensures (r.Aborted? <==> old(GrowFatal(amount, mem))) && (r.Done? <==> !old(GrowFails(where, amount, mem)))
    {
      r, moved := OpenGap(where, amount, mem, fam);
      if r.Done? {
        assert MemberOk(fam, this, itemSize);
        if !HasLocation(where) { r := NoMemory; }
      }
    }

    method ShrinkByCopy(where: nat, amount: nat, newCapacity: nat, mem: Memory, ghost fam: set<VectorImpl<T>>)
      returns (ok: bool)
      requires this in fam && Family(fam, itemSize) && storage != null && where + amount <= count
      requires count - amount <= newCapacity && itemSize > 0 && Fits(newCapacity, itemSize)
      modifies this, storage
      ensures Family(fam, itemSize) && OthersKept(fam)
      ensures GaveUp(old(storage))
      ensures ok <==> mem.allocOk
      ensures ok ==> storage != null && |storage.data| == newCapacity && storage.refs == 1 &&
                     Contents() == Cut(old(Contents()), where, amount)
      ensures !ok ==> storage == old(storage) && count == old(count) && Contents() == old(Contents()) && Room() == old(Room())
    {
      assert MemberOk(fam, this, itemSize);
      if !mem.allocOk { return false; }
      var data := RawCells(newCapacity);
      if where != 0 { data := Blit(data, 0, storage.data, 0, where); }
      BlitCuts(data, storage.data, count, where, amount);
      if where != count - amount {
        data := Blit(data, where, storage.data, where + amount, count - amount - where);
      }
      var sb := new SharedBuffer(data, itemSize);
      SwapStorage(sb, count - amount, fam);
      ok := true;
    }

    method ShrinkInPlace(where: nat, amount: nat, mem: Memory, ghost fam: set<VectorImpl<T>>) returns (ok: bool)
      requires this in fam && Family(fam, itemSize) && storage != null && where + amount <= count
      modifies this, storage
      ensures Family(fam, itemSize) && OthersKept(fam)
      ensures GaveUp(old(storage))
      ensures !ok <==> old(storage.refs) > 1 && !mem.allocOk
      ensures ok ==> storage != null && |storage.data| == |old(storage.data)| && storage.refs == 1 &&
                     Contents() == Cut(old(Contents()), where, amount)
      ensures !ok ==> storage == old(storage) && count == old(count) && Contents() == old(Contents()) && Room() == old(Room())
    {
      assert MemberOk(fam, this, itemSize);
      ghost var moved;
      ok, moved := EditArray(mem, fam);
      if !ok { return; }
      assert MemberOk(fam, this, itemSize);
      WriteOwn(CloseGap(storage.data, count, where, amount, !flags.trivialDtor), count - amount, fam);
    }

    /** _shrink ends the process: a smaller buffer is too large for SharedBuffer::alloc, or a
        shared one cannot be copied. */
    ghost predicate ShrinkFatal(amount: nat, mem: Memory)
      requires amount <= count
      reads this, storage
    {
      storage != null &&
      if count - amount < Room() / 2 then !Fits(ShrunkRoom(Room(), count - amount), itemSize)
      else storage.refs > 1 && !mem.allocOk
    }

    /** _shrink wants a smaller buffer and neither resizes the one it has nor gets another. */
    ghost predicate ShrinkStarves(where: nat, amount: nat, mem: Memory)
      requires amount <= count
      reads this, storage
    {
      storage != null && count - amount < Room() / 2 && !mem.allocOk &&
      !(where == count - amount && flags.trivialCopy && flags.trivialDtor && storage.refs == 1 &&
        (Room() == ShrunkRoom(Room(), count - amount) || mem.reallocOk))
    }

    /** _shrink.  Where the code gives up silently for lack of memory the model says
        NoMemory; its callers do not see the difference. */
    method Shrink(where: nat, amount: nat, mem: Memory, ghost fam: set<VectorImpl<T>>) returns (r: Status)
      requires this in fam && Family(fam, itemSize) && where + amount <= count
      modifies this, storage
      ensures Family(fam, itemSize) && OthersKept(fam)
      ensures GaveUp(old(storage))
      ensures r == Done(where) || r.NoMemory? || r.Aborted?
      ensures r.Done? ==> Contents() == Cut(old(Contents()), where, amount) && count == old(count) - amount
      ensures r.Done? ==> Room() == ShrunkRoom(old(Room()), count)
      ensures !r.Done? ==> count == old(count) && Contents() == old(Contents()) && Room() == old(Room())
      ensures r.Aborted? <==>
                old(storage) != null &&
                if old(count) - amount >= old(Room()) / 2 then old(storage.refs) > 1 && !mem.allocOk
                else !Fits(ShrunkRoom(old(Room()), old(count) - amount), itemSize)
      ensures r.NoMemory? <==>
                !r.Aborted? && old(storage) != null && old(count) - amount < old(Room()) / 2 && !mem.allocOk &&
                !(where == old(count) - amount && flags.trivialCopy && flags.trivialDtor && old(storage.refs) == 1 &&
                  (old(Room()) == ShrunkRoom(old(Room()), old(count) - amount) || mem.reallocOk))
    {
      if storage == null { return Done(where); }
      assert MemberOk(fam, this, itemSize);
      var newSize := count - amount;
      var capacity := Capacity();
      var ok;
      if newSize < capacity / 2 {
        var newCapacity := Max(MIN_VECTOR_CAPACITY, newSize * 2);
        var bytes := ByteCount(newCapacity, itemSize);
        if TooLarge(bytes) { return Aborted; }
        if where == newSize && flags.trivialCopy && flags.trivialDtor {
          ResizeCuts(storage.data, count, amount, newCapacity);
          ghost var moved;
          ok, moved := ResizeTo(newCapacity, newSize, mem, fam);
        } else {
          ok := ShrinkByCopy(where, amount, newCapacity, mem, fam);
        }
        r := if ok then Done(where) else NoMemory;
      } else {
        ok := ShrinkInPlace(where, amount, mem, fam);
        r := if ok then Done(where) else Aborted;
      }
    }

    // ---------- the vector's interface ----------

    /** The copy constructor: the new vector shares the buffer, empty or not. */
    constructor Copy(rhs: VectorImpl<T>, ghost fam: set<VectorImpl<T>>)
      requires rhs in fam && Family(fam, rhs.itemSize)
      modifies rhs.storage
      ensures rhs.storage != null ==> rhs.storage.data == old(rhs.storage.data)
      ensures itemSize == rhs.itemSize && flags == rhs.flags && Family(fam + {this}, itemSize)
      ensures storage == rhs.storage && Contents() == old(rhs.Contents()) && count == rhs.count
      ensures forall w :: w in fam ==> w.Contents() == old(w.Contents())
    {
      storage, count, flags, itemSize := rhs.storage, rhs.count, rhs.flags, rhs.itemSize;
      new;
      assert MemberOk(fam, rhs, itemSize);
      if storage != null { storage.Acquire(); }
      forall w | w in fam + {this} ensures MemberOk(fam + {this}, w, itemSize) {
        assert w != this ==> old(MemberOk(fam, w, rhs.itemSize));
        assert fam + {this} - {this} == fam;
        if w.storage != null { OwnersWithout(fam + {this}, this, w.storage); }
      }
    }

    /** A vector outside the family comes back without a buffer. */
    method DropStorage(ghost fam: set<VectorImpl<T>>)
      requires this in fam && Family(fam - {this}, itemSize) && itemSize > 0
      modifies this
      ensures storage == null && count == 0 && Family(fam, itemSize)
    {
      storage, count := null, 0;
      forall w | w in fam ensures MemberOk(fam, w, itemSize) {
        assert w != this ==> old(MemberOk(fam - {this}, w, itemSize));
        if w.storage != null { OwnersWithout(fam, this, w.storage); }
      }
    }

    /** A vector outside the family comes back as one more owner of rhs's buffer. */
    method ShareStorage(rhs: VectorImpl<T>, ghost fam: set<VectorImpl<T>>)
      requires this in fam && rhs in fam && rhs != this && rhs.storage != null
      requires Family(fam - {this}, itemSize) && itemSize > 0
      modifies this, rhs.storage`refs
      ensures storage == rhs.storage && count == rhs.count && Family(fam, itemSize)
    {
      assert MemberOk(fam - {this}, rhs, itemSize);
      storage, count := rhs.storage, rhs.count;
      storage.Acquire();
      forall w | w in fam ensures MemberOk(fam, w, itemSize) {
        assert w != this ==> old(MemberOk(fam - {this}, w, itemSize));
        if w.storage != null {
          var b: SharedBuffer<T> := w.storage;
          OwnersWithout(fam, this, b);
          assert Owners(fam - {this}, b) == old(Owners(fam - {this}, b));
        }
      }
    }

    /** operator=, where the right-hand side may be the vector itself. */
    method Assign(rhs: VectorImpl<T>, ghost fam: set<VectorImpl<T>>)
      requires this in fam && rhs in fam && Family(fam, itemSize)
      modifies this, storage, rhs.storage
      ensures Family(fam, itemSize) && OthersKept(fam)
      ensures Contents() == old(rhs.Contents()) && count == old(rhs.count)
      ensures this != rhs ==> storage == if rhs.count > 0 then rhs.storage else null
    {
      assert MemberOk(fam, rhs, itemSize);
      if this != rhs {
        assert rhs.storage != null ==> rhs in Owners(fam, rhs.storage);
        ReleaseStorage(fam);
        assert MemberOk(fam - {this}, rhs, itemSize);
        if rhs.count != 0 {
          ShareStorage(rhs, fam);
        } else {
          DropStorage(fam);
        }
      }
    }

    /** finish_vector: the last owner frees the buffer. */
    method FinishVector(ghost fam: set<VectorImpl<T>>)
      requires this in fam && Family(fam, itemSize)
      modifies this, storage
      ensures storage == null && count == 0 && Family(fam, itemSize) && OthersKept(fam)
      ensures old(storage) != null ==> (old(storage).freed <==> old(storage.refs) == 1)
    {
      assert MemberOk(fam, this, itemSize);
      ReleaseStorage(fam);
      DropStorage(fam);
    }

    /** Fill the gap that Grow opened. */
    method FillGap(where: nat, items: seq<Cell<T>>, ghost before: seq<Cell<T>>, ghost fam: set<VectorImpl<T>>)
      requires this in fam && Family(fam, itemSize) && storage != null && storage.refs == 1
      requires Opened(before, Contents(), where, |items|)
      modifies this`count, storage`data
      ensures Family(fam, itemSize) && OthersKept(fam)
      ensures Contents() == Splice(before, where, items) && count == old(count) && Room() == old(Room())
    {
      assert MemberOk(fam, this, itemSize);
      FillSplices(storage.data, count, before, where, items);
      WriteOwn(Blit(storage.data, where, items, 0, |items|), count, fam);
    }

    /** A gap for some cells and, if they are to be written, the cells in it. */
    method InsertCells(cells: seq<Cell<T>>, fill: bool, index: nat, mem: Memory, ghost fam: set<VectorImpl<T>>)
      returns (r: Status, ghost moved: nat)
      requires this in fam && Family(fam, itemSize)
      modifies this, storage
      ensures Family(fam, itemSize) && OthersKept(fam)
      ensures GaveUp(old(storage))
      ensures r.BadIndex? <==> index > old(count)
      ensures r.BadIndex? || r == Done(index) || r.NoMemory? || r.Aborted?
      ensures r.Done? ==> Opened(old(Contents()), Contents(), index, |cells|) &&
                          Room() == RoomAfter(old(Room()), old(count) + |cells|) && storage != null && storage.refs == 1 &&
                          moved == old(GrowMoves(index, |cells|))
      ensures r.Done? && fill ==> Contents() == Splice(old(Contents()), index, cells)
      ensures !r.Done? ==> Contents() == old(Contents()) && Room() == old(Room())
      ensures !r.Done? && cells != [] ==> storage == old(storage) && count == old(count)
      ensures index <= old(count) ==>
                (r.Aborted? <==> old(GrowFatal(|cells|, mem))) && (r.Done? <==> !old(GrowFails(index, |cells|, mem)))
    {
      if index > count { return BadIndex, 0; }
      r, moved := Grow(index, |cells|, mem, fam);
      if r.Done? && fill {
        FillGap(index, cells, old(Contents()), fam);
        SpliceOpens(old(Contents()), index, cells);
      }
    }

    /** insertArrayAt, insertVectorAt, appendArray and appendVector.  The items may be those
        of another vector of the family, even one that shares this vector's buffer. */
    method InsertArrayAt(items: seq<Cell<T>>, index: nat, mem: Memory, ghost fam: set<VectorImpl<T>>) returns (r: Status)
      requires this in fam && Family(fam, itemSize)
      modifies this, storage
      ensures Family(fam, itemSize) && OthersKept(fam)
      ensures GaveUp(old(storage))
      ensures !r.Undefined? && (r.BadIndex? <==> index > old(count))
      ensures r.Done? ==> r.index == index && Contents() == Splice(old(Contents()), index, items) &&
                          Room() == RoomAfter(old(Room()), old(count) + |items|)
      ensures !r.Done? ==> Contents() == old(Contents())
      ensures index <= old(count) ==>
                (r.Aborted? <==> old(GrowFatal(|items|, mem))) && (r.Done? <==> !old(GrowFails(index, |items|, mem)))
      ensures r.BadIndex? || r.Aborted? || r.NoMemory? || r.Done?
    {
      ghost var moved;
      r, moved := InsertCells(items, true, index, mem, fam);
    }

    /** A vector's own items are still there, and out of the way, when it inserts them into
        itself: another vector owns the buffer too, or they go behind themselves in it. */
    ghost predicate SelfInsertSound(index: nat)
      reads this, storage
    {
      count == 0 || storage == null || storage.refs > 1 || (2 * count <= Room() && index == count)
    }

    /** _grow by the vector's own length, and its items as they are then read through the
        pointer taken before: from a buffer that may have been freed or resized, or from
        cells that are moved away and written over. */
    method GrowBySelf(index: nat, mem: Memory, ghost fam: set<VectorImpl<T>>)
      returns (r: Status, own: Option<seq<Cell<T>>>)
      requires this in fam && Family(fam, itemSize) && index <= count
      modifies this, storage
      ensures Family(fam, itemSize) && OthersKept(fam)
      ensures GaveUp(old(storage))
      ensures r == Done(index) || r.NoMemory? || r.Aborted?
      ensures r.Done? ==> storage != null && storage.refs == 1 &&
                          Opened(old(Contents()), Contents(), index, |old(Contents())|)
      ensures r.Done? ==> own == if old(SelfInsertSound(index)) then Some(old(Contents())) else None
      ensures !r.Done? ==> Contents() == old(Contents())
      ensures (r.Aborted? <==> old(GrowFatal(count, mem))) && (r.Done? <==> !old(GrowFails(index, count, mem)))
    {
      assert MemberOk(fam, this, itemSize);
      if storage != null { assert this in Owners(fam, storage); }
      var source, n := storage, count;
      var capacity := Capacity();
      ghost var moved;
      own := None;
      r, moved := Grow(index, n, mem, fam);
      if r.Done? {
        assert MemberOk(fam, this, itemSize);
        var newCapacity := Capacity();
        if n == 0 {
          own := Some([]);
          assert old(Contents()) == [];
        } else if !source.freed && (source == storage ==> newCapacity == capacity && index == n) {
          own := Some(source.data[..n]);
          assert source == storage ==> own.value == Contents()[..n] == old(Contents())[..n];
          assert own.value == old(Contents());
        }
      }
    }

    /** insertVectorAt and appendVector of the vector itself. */
    method InsertSelfAt(index: nat, mem: Memory, ghost fam: set<VectorImpl<T>>) returns (r: Status)
      requires this in fam && Family(fam, itemSize)
      modifies this, storage
      ensures Family(fam, itemSize) && OthersKept(fam)
      ensures GaveUp(old(storage))
      ensures r.BadIndex? <==> index > old(count)
      ensures r.Done? ==> r.index == index && Contents() == Splice(old(Contents()), index, old(Contents()))
      ensures !r.Done? && !r.Undefined? ==> Contents() == old(Contents())
      ensures index <= old(count) ==>
                (r.Aborted? <==> old(GrowFatal(count, mem))) &&
                (r.Done? || r.Undefined? <==> !old(GrowFails(index, count, mem)))
      ensures index <= old(count) && !old(GrowFails(index, count, mem)) ==>
                (r.Done? <==> old(count) == 0 || old(storage.refs) > 1 || (2 * old(count) <= old(Room()) && index == old(count)))
    {
      assert MemberOk(fam, this, itemSize);
      if index > count { return BadIndex; }
      var own;
      r, own := GrowBySelf(index, mem, fam);
      if r.Done? {
        if own.None? {
          r := Undefined;
        } else {
          FillGap(index, own.value, old(Contents()), fam);
        }
      }
    }

    /** insertAt, add and push of n copies of an item; of n default items if none is given,
        or of whatever the cells hold if the type's constructor is trivial. */
    method InsertAt(item: Option<T>, default: T, index: nat, n: nat, mem: Memory, ghost fam: set<VectorImpl<T>>)
      returns (r: Status, ghost moved: nat)
      requires this in fam && Family(fam, itemSize)
      modifies this, storage
      ensures Family(fam, itemSize) && OthersKept(fam)
      ensures GaveUp(old(storage))
      ensures !r.Undefined? && (r.BadIndex? <==> index > old(count))
      ensures r.Done? ==> r.index == index && Opened(old(Contents()), Contents(), index, n) &&
                          Room() == RoomAfter(old(Room()), old(count) + n) && storage != null && storage.refs == 1 &&
                          moved == old(GrowMoves(index, n))
      ensures r.Done? && (item.Some? || !flags.trivialCtor) ==>
                Contents() == Splice(old(Contents()), index, Copies(if item.Some? then item.value else default, n))
      ensures !r.Done? ==> Contents() == old(Contents())
      ensures !r.Done? && n > 0 ==> storage == old(storage) && count == old(count) && Room() == old(Room())
      ensures index <= old(count) ==>
                (r.Aborted? <==> old(GrowFatal(n, mem))) && (r.Done? <==> !old(GrowFails(index, n, mem)))
      ensures r.BadIndex? || r.Aborted? || r.NoMemory? || r.Done?
    {
      var cells := Copies(if item.Some? then item.value else default, n);
      r, moved := InsertCells(cells, item.Some? || !flags.trivialCtor, index, mem, fam);
    }

    /** removeItemsAt, pop and clear.  Lack of memory is not reported: the index comes back
        although nothing was removed. */
    method RemoveItemsAt(index: nat, n: nat, mem: Memory, ghost fam: set<VectorImpl<T>>) returns (r: Status)
      requires this in fam && Family(fam, itemSize) && index + n <= SIZE_MAX
      modifies this, storage
      ensures Family(fam, itemSize) && OthersKept(fam)
      ensures GaveUp(old(storage))
      ensures r.BadValue? <==> index + n > old(count)
      ensures r.Aborted? <==> index + n <= old(count) && old(ShrinkFatal(n, mem))
      ensures r.BadValue? || r.Aborted? || r == Done(index)
      ensures r.Done? ==>
                Contents() == if old(ShrinkStarves(index, n, mem)) then old(Contents()) else Cut(old(Contents()), index, n)
      ensures !r.Done? ==> Contents() == old(Contents())
      ensures mem.allocOk && index + n <= old(count) && MIN_VECTOR_CAPACITY <= old(Room()) ==> r.Done?
    {
      assert MemberOk(fam, this, itemSize);
      if index + n > count { return BadValue; }
      BytesMono(Min(Room(), ShrunkRoom(Room(), count - n)), Room(), itemSize);
      r := Shrink(index, n, mem, fam);
      if r.NoMemory? { r := Done(index); }
    }

    /** replaceAt.  A prototype in place is read from the buffer the vector had, which is
        the one written to unless it was shared; then it still has an owner. */
    method ReplaceAt(prototype: Prototype<T>, default: T, index: nat, mem: Memory, ghost fam: set<VectorImpl<T>>)
      returns (r: Status)
      requires this in fam && Family(fam, itemSize)
      modifies this, storage
      ensures Family(fam, itemSize) && OthersKept(fam)
      ensures GaveUp(old(storage))
      ensures r.BadIndex? <==> index >= old(count)
      ensures r.Done? ==> index < |old(Contents())| && r.index == index
      ensures r.Done? && prototype.Given? ==> Contents() == old(Contents())[index := Item(prototype.value)]
      ensures r.Done? && prototype.InPlace? ==> Contents() == old(Contents())
      ensures r.Done? && prototype.Default? && !flags.trivialCtor ==> Contents() == old(Contents())[index := Item(default)]
      ensures r.Done? && prototype.Default? && flags.trivialCtor ==>
                Contents() == if flags.trivialDtor then old(Contents()) else old(Contents())[index := Raw]
      ensures !r.Done? ==> Contents() == old(Contents())
      ensures index < old(count) ==> (r.Done? <==> mem.allocOk || old(storage.refs) == 1)
      ensures !r.Undefined? && (old(storage) != null && old(storage.refs) == 1 ==> storage == old(storage))
      ensures if r.Done? then storage != null && storage.refs == 1 else storage == old(storage)
      ensures r.BadIndex? || r.Aborted? || r.Done?
      ensures count == old(count) && Room() == old(Room())
    {
      assert MemberOk(fam, this, itemSize);
      if index >= count { return BadIndex; }
      assert this in Owners(fam, storage);
      var source := storage;
      ghost var moved;
      var ok;
      ok, moved := EditArray(mem, fam);
      if !ok { return Aborted; }
      assert MemberOk(fam, this, itemSize);
      if !(prototype.InPlace? && source == storage) {
        assert !source.freed && storage.data[..count][index] == source.data[..count][index];
        var hole := if flags.trivialDtor then storage.data[index] else Raw;
        var cell := match prototype
          case Given(item) => Item(item)
          case InPlace => source.data[index]
          case Default => if flags.trivialCtor then hole else Item(default);
        UpdatePrefix(storage.data, count, index, cell);
        WriteOwn(storage.data[index := cell], count, fam);
      }
      r := Done(index);
    }

    method SetCapacity(newCapacity: nat, mem: Memory, ghost fam: set<VectorImpl<T>>) returns (r: Status)
      requires this in fam && Family(fam, itemSize)
      modifies this, storage
      ensures Family(fam, itemSize) && OthersKept(fam)
      ensures GaveUp(old(storage))
      ensures Contents() == old(Contents()) && count == old(count)
      ensures r.Done? ==> r.index == Room() == if newCapacity <= count then old(Room()) else newCapacity
      ensures !r.Done? ==> storage == old(storage)
      ensures r.Aborted? <==> newCapacity > old(count) && !Fits(newCapacity, itemSize)
      ensures r.NoMemory? <==> newCapacity > old(count) && Fits(newCapacity, itemSize) && !mem.allocOk
      ensures r.Aborted? || r.NoMemory? || r.Done?
    {
      assert MemberOk(fam, this, itemSize);
      if newCapacity <= count {
        var capacity := Capacity();
        return Done(capacity);
      }
      var bytes := ByteCount(newCapacity, itemSize);
      if TooLarge(bytes) { return Aborted; }
      if !mem.allocOk { return NoMemory; }
      var data := RawCells(newCapacity);
      if storage != null {
        data := Blit(data, 0, storage.data, 0, count);
        assert data[..count] == storage.data[..count];
      }
      var sb := new SharedBuffer(data, itemSize);
      SwapStorage(sb, count, fam);
      r := Done(newCapacity);
    }

    method Resize(newSize: nat, default: T, mem: Memory, ghost fam: set<VectorImpl<T>>) returns (r: Status)
      requires this in fam && Family(fam, itemSize)
      modifies this, storage
      ensures Family(fam, itemSize) && OthersKept(fam)
      ensures r.Done? ==> r.index == newSize
      ensures r.Done? && newSize > old(count) ==>
                Opened(old(Contents()), Contents(), old(count), newSize - old(count)) &&
                (!flags.trivialCtor ==> Contents() == old(Contents()) + Copies(default, newSize - old(count)))
      ensures r.Done? && newSize <= old(count) ==>
                Contents() == if newSize < old(count) && old(ShrinkStarves(newSize, count - newSize, mem))
                              then old(Contents()) else old(Contents())[..newSize]
      ensures !r.Done? ==> Contents() == old(Contents())
      ensures r.Done? <==>
                if newSize > old(count) then !old(GrowFails(count, newSize - count, mem))
                else newSize == old(count) || !old(ShrinkFatal(count - newSize, mem))
    {
      assert MemberOk(fam, this, itemSize);
      AtEnd(Contents(), Min(newSize, count), Copies(default, if newSize > count then newSize - count else 0));
      if newSize > count {
        ghost var moved;
        r, moved := InsertAt(None, default, count, newSize - count, mem, fam);
        if r.Done? { r := Done(newSize); }
      } else if newSize < count {
        BytesAtLeast(Room(), itemSize);
        r := RemoveItemsAt(newSize, count - newSize, mem, fam);
      } else {
        r := Done(newSize);
      }
    }

    /** push, with the number of existing items it moved. */
    method Push(item: T, mem: Memory, ghost fam: set<VectorImpl<T>>) returns (r: Status, ghost moved: nat)
      requires this in fam && Family(fam, itemSize)
      modifies this, storage
      ensures Family(fam, itemSize) && OthersKept(fam)
      ensures GaveUp(old(storage))
      ensures r.Done? ==>
                Contents() == old(Contents()) + [Item(item)] && count == old(count) + 1 &&
                storage != null && storage.refs == 1 && Room() == RoomAfter(old(Room()), count)
      ensures r.Done? ==>
                moved == if old(Room()) == old(count) || old(storage.refs) > 1 then old(count) else 0
      ensures !r.Done? ==> Contents() == old(Contents())
      ensures r.Done? <==> !old(GrowFails(count, 1, mem))
    {
      assert MemberOk(fam, this, itemSize);
      r, moved := InsertAt(Some(item), item, count, 1, mem, fam);
    }

    /** Single-item pushes onto an empty vector move at most three existing items for each
        item pushed. */
    method PushAll(items: seq<T>, mem: Memory, ghost fam: set<VectorImpl<T>>) returns (r: Status, ghost copied: nat)
      requires this in fam && Family(fam, itemSize) && storage == null
      modifies this
      ensures Family(fam, itemSize) && OthersKept(fam)
      ensures r.Done? ==> Contents() == Cells(items) && count == |items| && copied <= 3 * |items|
      ensures r.Done? ==> if items == [] then storage == null else storage != null && storage.refs == 1 && fresh(storage)
      ensures mem.allocOk && itemSize > 0 && Affordable(|items|, itemSize) ==> r.Done?
    {
      r, copied := Done(0), 0;
      var i := 0;
      assert MemberOk(fam, this, itemSize);
      while i < |items|
        invariant 0 <= i <= |items| && Family(fam, itemSize) && OthersKept(fam)
        invariant if i == 0 then storage == null else storage != null && fresh(storage) && storage.refs == 1
        invariant r.Done? && Contents() == Cells(items[..i]) && count == i <= Room()
        invariant copied <= 3 * i && copied <= 2 * Room()
      {
        assert Cells(items[..i + 1]) == Cells(items[..i]) + [Item(items[i])];
        ghost var moved;
        AffordableLess(i + 1, |items|, itemSize);
        r, moved := Push(items[i], mem, fam);
        if !r.Done? { return; }
        copied, i := copied + moved, i + 1;
      }
      assert items[..i] == items;
    }

    ghost function Room(): nat
      reads this, storage
    {
      if storage == null then 0 else |storage.data|
    }

    /** The only owner of a buffer writes to it in place. */
    method WriteOwn(data: seq<Cell<T>>, newCount: nat, ghost fam: set<VectorImpl<T>>)
      requires this in fam && Family(fam, itemSize) && storage != null && storage.refs == 1
      requires |data| == |storage.data| && newCount <= |data|
      modifies this`count, storage`data
      ensures Family(fam, itemSize) && OthersKept(fam)
      ensures storage.data == data && count == newCount
    {
      Sole(fam, this, itemSize);
      assert MemberOk(fam, this, itemSize);
      storage.data, count := data, newCount;
      forall w | w in fam ensures MemberOk(fam, w, itemSize) {
        assert old(MemberOk(fam, w, itemSize));
        assert w.storage != null ==> Owners(fam, w.storage) == old(Owners(fam, w.storage));
      }
    }
  }

  ghost function Owners<T>(fam: set<VectorImpl<T>>, b: SharedBuffer<T>): set<VectorImpl<T>>
    reads fam
  {
    set v | v in fam && v.storage == b
  }

  ghost function Buffers<T>(fam: set<VectorImpl<T>>): set<SharedBuffer<T>>
    reads fam
  {
    set v | v in fam && v.storage != null :: v.storage
  }

  ghost predicate MemberOk<T>(fam: set<VectorImpl<T>>, v: VectorImpl<T>, itemSize: nat)
    reads fam, v, v.storage
  {
    v.itemSize == itemSize > 0 &&
    if v.storage == null then v.count == 0
    else v.storage.Ok(itemSize) && v.count <= |v.storage.data| && v.storage.refs == |Owners(fam, v.storage)|
  }

  /** Vectors of one item type: every buffer in use is live and counts its owners. */
  ghost predicate Family<T>(fam: set<VectorImpl<T>>, itemSize: nat)
    reads fam, Buffers(fam)
  {
    forall v :: v in fam ==> MemberOk(fam, v, itemSize)
  }

  lemma OwnersWithout<T>(fam: set<VectorImpl<T>>, v: VectorImpl<T>, b: SharedBuffer<T>)
    requires v in fam
    ensures |Owners(fam - {v}, b)| == |Owners(fam, b)| - if v.storage == b then 1 else 0
  {
    if v.storage == b {
      assert Owners(fam, b) == Owners(fam - {v}, b) + {v};
    } else {
      assert Owners(fam, b) == Owners(fam - {v}, b);
    }
  }

  /** A vector that holds a buffer of its own joins a family. */
  lemma Join<T>(fam: set<VectorImpl<T>>, v: VectorImpl<T>, itemSize: nat)
    requires v in fam && Family(fam - {v}, itemSize) && v.itemSize == itemSize > 0
    requires v.storage != null && v.storage.Ok(itemSize) && v.storage.refs == 1 && v.count <= |v.storage.data|
    requires forall w :: w in fam && w != v ==> w.storage != v.storage
    ensures Family(fam, itemSize)
  {
    assert Owners(fam, v.storage) == {v};
    forall w | w in fam && w != v ensures MemberOk(fam, w, itemSize) {
      assert MemberOk(fam - {v}, w, itemSize);
      if w.storage != null { OwnersWithout(fam, v, w.storage); }
    }
  }

  /** The only owner shares with nobody. */
  lemma Sole<T>(fam: set<VectorImpl<T>>, v: VectorImpl<T>, itemSize: nat)
    requires Family(fam, itemSize) && v in fam && v.storage != null && v.storage.refs == 1
    ensures forall w :: w in fam && w != v ==> w.storage != v.storage
  {
    assert MemberOk(fam, v, itemSize);
    OwnersWithout(fam, v, v.storage);
    assert Owners(fam - {v}, v.storage) == {};
    forall w | w in fam && w != v ensures w.storage != v.storage {
      assert w !in Owners(fam - {v}, v.storage);
    }
  }

  // ---------- three calls that do not do what they report ----------

  /** A vector of one item in a buffer it fills. */
  method OneItem() returns (v: VectorImpl<int>)
    ensures fresh(v) && fresh(v.storage) && Family({v}, 1) && v.itemSize == 1 && v.flags == Flags(false, false, false)
    ensures v.storage != null && v.storage.refs == 1 && v.Contents() == [Item(7)] && v.count == v.Room() == 1
  {
    v := new VectorImpl(1, Flags(false, false, false));
    assert MemberOk({v}, v, 1);
    BytesIsProduct(1, 1);
    BytesIsProduct(4, 1);
    var r := v.SetCapacity(1, Memory(true, true), {v});
    ghost var moved;
    r, moved := v.Push(7, Memory(true, true), {v});
  }

  /** With no memory for a smaller buffer, a removal reports its index and removes nothing. */
  method SilentRemoval() returns (v: VectorImpl<int>, r: Status)
    ensures r == Done(0) && v.count == 1 && v.Contents() == [Item(7)]
  {
    v := new VectorImpl(1, Flags(false, false, false));
    assert MemberOk({v}, v, 1);
    BytesIsProduct(4, 1);
    ghost var moved;
    r, moved := v.Push(7, Memory(true, true), {v});
    r := v.RemoveItemsAt(0, 1, Memory(false, false), {v});
    assert MemberOk({v}, v, 1);
  }

  /** With memory at hand, inserting nothing reports NO_MEMORY at the end of a full buffer,
      an empty vector's included, and succeeds elsewhere. */
  method EmptyInsertion() returns (empty: Status, end: Status, front: Status)
    ensures empty.NoMemory? && end.NoMemory? && front == Done(0)
  {
    var v := new VectorImpl<int>(1, Flags(false, false, false));
    assert MemberOk({v}, v, 1);
    BytesIsProduct(4, 1);
    empty := v.InsertArrayAt([], 0, Memory(true, true), {v});
    var w := OneItem();
    end := w.InsertArrayAt([], 1, Memory(true, true), {w});
    assert MemberOk({w}, w, 1);
    front := w.InsertArrayAt([], 0, Memory(true, true), {w});
  }

  /** Appending a vector to itself reads a freed buffer. */
  method SelfAppend() returns (r: Status)
    ensures r.Undefined?
  {
    BytesIsProduct(4, 1);
    var v := OneItem();
    r := v.InsertSelfAt(1, Memory(true, true), {v});
  }

  /** A vector of one item and a copy of it. */
  method OneItemTwice() returns (v: VectorImpl<int>, w: VectorImpl<int>)
    ensures fresh(v) && fresh(v.storage) && Family({v, w}, 1) && v.itemSize == 1
    ensures v.storage != null && v.storage.refs == 2 && v.count == v.Room() == 1
  {
    v := OneItem();
    w := new VectorImpl<int>.Copy(v, {v});
    assert {v} + {w} == {v, w} && MemberOk({v, w}, v, 1);
    assert Owners({v, w}, v.storage) == {v, w};
  }

  /** Unless another vector shares it. */
  method SharedAppend() returns (r: Status)
    ensures r == Done(1)
  {
    BytesIsProduct(4, 1);
    var v, w := OneItemTwice();
    r := v.InsertSelfAt(1, Memory(true, true), {v, w});
  }
}
