/**
 Bus master block transfers (src/dma.c, dma_bm_read and dma_bm_write): a fast
 helper that copies some prefix, then the rest in units of the transfer size,
 the last one partial. On plain memory both are a byte-by-byte copy.
 */
module BusMaster {

  const SPACE: int := 0x1_0000_0000

  /** The address k bytes after `addr`. */
  function At(addr: int, k: int): (r: int)
    ensures 0 <= r < SPACE
  {
    (addr + k) % SPACE
  }

  /** How far address a is after `addr`. */
  function Off(addr: int, a: int): (r: int)
    ensures 0 <= r < SPACE
  {
    (a - addr) % SPACE
  }

  lemma OffAt(addr: int, k: int)
    requires 0 <= k < SPACE
    ensures Off(addr, At(addr, k)) == k
  {
  }

  lemma AtOff(addr: int, a: int)
    requires 0 <= a < SPACE
    ensures At(addr, Off(addr, a)) == a
  {
  }

  lemma Shift(addr: int, d: int, a: int)
    requires 0 <= d < SPACE
    ensures Off(addr + d, a) == if Off(addr, a) >= d then Off(addr, a) - d else Off(addr, a) - d + SPACE
  {
  }

  lemma UnitFits(i: nat, n: nat, size: nat)
    requires size == 1 || size == 2 || size == 4
    requires i < n && i % size == 0 && n % size == 0
    ensures i + size <= n && (i + size) % size == 0
  {
    if size == 2 { } else if size == 4 { } else { }
  }

  lemma Halves(x: nat)
    ensures (x - x % 2) % 2 == 0 && 0 <= x % 2 <= x
  {
    var q := x / 2;
    assert x == 2 * q + x % 2;
  }

  lemma Quarters(x: nat)
    ensures (x - x % 4) % 4 == 0 && 0 <= x % 4 <= x
  {
    var q := x / 4;
    assert x == 4 * q + x % 4;
  }

  lemma Multiple(x: nat, size: nat)
    requires size == 1 || size == 2 || size == 4
    ensures (x - x % size) % size == 0 && 0 <= x % size <= x && x % size < size
  {
    if size == 2 { Halves(x); } else if size == 4 { Quarters(x); } else { }
  }

  /** Where the slow part starts and how it splits into units and a tail. */
  lemma Split(total: nat, fast: nat, size: nat)
    requires size == 1 || size == 2 || size == 4
    requires fast < total
    ensures var skip := fast - fast % size;
            var rest := total - skip;
            0 <= skip <= fast && 0 < rest && 0 <= rest % size < size && (rest - rest % size) % size == 0
                && rest % size <= rest
  {
    Multiple(fast, size);
    Multiple(total - (fast - fast % size), size);
  }

  class Bus {
    /** Guest memory, one byte for each 32-bit address. */
    const mem: array<bv8>

    ghost predicate Valid() {
      mem.Length == SPACE
    }

    constructor (mem: array<bv8>)
      requires mem.Length == SPACE
      ensures Valid() && this.mem == mem
    {
      this.mem := mem;
    }

    /** Bytes [at, at + len) of dest from the same offsets after addr: one
        mem_read_phys access, or the run mem_read_phys_block copies. */
    method ReadRun(dest: array<bv8>, at: nat, addr: int, len: nat)
      requires Valid() && dest != mem && at + len <= dest.Length
      modifies dest
      ensures forall k :: at <= k < at + len ==> dest[k] == mem[At(addr, k)]
      ensures forall k :: 0 <= k < dest.Length && !(at <= k < at + len) ==> dest[k] == old(dest[k])
    {
      hide At;
      var i := at;
      while i < at + len
        invariant at <= i <= at + len
        invariant forall k :: at <= k < i ==> dest[k] == mem[At(addr, k)]
        invariant forall k :: 0 <= k < dest.Length && !(at <= k < i) ==> dest[k] == old(dest[k])
      {
        dest[i] := mem[At(addr, i)];
        i := i + 1;
      }
    }

    /** dma_bm_read. `fast` is how many bytes the block helper copied: it
        depends on the mappings, so it can be any number up to the total. */
    method Read(addr: int, dest: array<bv8>, total: nat, size: nat, fast: nat)
      requires Valid() && dest != mem && total <= dest.Length
      requires size == 1 || size == 2 || size == 4
      requires fast <= total
      modifies dest
      ensures forall k :: 0 <= k < total ==> dest[k] == mem[At(addr, k)]
      ensures forall k :: total <= k < dest.Length ==> dest[k] == old(dest[k])
    {
      hide At;
      ReadRun(dest, 0, addr, fast);
      if fast == total {
        return;
      }
      Split(total, fast, size);
      var skip := fast - fast % size;
      var rest := total - skip;
      var n := rest - rest % size;
      var i := 0;
      while i < n
        invariant 0 <= i <= n && i % size == 0
        invariant forall k :: 0 <= k < skip + i ==> dest[k] == mem[At(addr, k)]
        invariant forall k :: total <= k < dest.Length ==> dest[k] == old(dest[k])
      {
        UnitFits(i, n, size);
        ReadRun(dest, skip + i, addr, size);
        i := i + size;
      }
      if n < rest {
        ReadTail(addr, dest, skip + n, total, size);
      }
    }

    /** The last, partial unit: read whole, copied in part. */
    method ReadTail(addr: int, dest: array<bv8>, at: nat, total: nat, size: nat)
      requires Valid() && dest != mem && at < total <= dest.Length && total - at <= size <= 4
      modifies dest
      ensures forall k :: at <= k < total ==> dest[k] == mem[At(addr, k)]
      ensures forall k :: 0 <= k < dest.Length && !(at <= k < total) ==> dest[k] == old(dest[k])
    {
      var bytes := new bv8[4](_ => 0);
      ReadRun(bytes, 0, addr + at, size);
      var i := at;
      while i < total
        invariant at <= i <= total
        invariant forall k :: at <= k < i ==> dest[k] == mem[At(addr, k)]
        invariant forall k :: 0 <= k < dest.Length && !(at <= k < i) ==> dest[k] == old(dest[k])
        invariant forall k :: 0 <= k < size ==> bytes[k] == mem[At(addr + at, k)]
      {
        assert At(addr + at, i - at) == At(addr, i);
        dest[i] := bytes[i - at];
        i := i + 1;
      }
    }

    /** Memory holds the first `done` of `data` from addr on, and elsewhere
        what it held before. */
    ghost predicate Written(before: seq<bv8>, addr: int, data: seq<bv8>, done: int)
      requires Valid() && |before| == SPACE && 0 <= done <= |data|
      reads mem
    {
      forall a :: 0 <= a < SPACE ==> mem[a] == if Off(addr, a) < done then data[Off(addr, a)] else before[a]
    }

    /** Bytes [at, at + len) of src to the same offsets after addr. */
    method WriteRun(src: array<bv8>, at: nat, addr: int, len: nat)
      requires Valid() && src != mem && at + len <= src.Length && at + len < SPACE
      modifies mem
      ensures forall a :: 0 <= a < SPACE ==>
                mem[a] == if at <= Off(addr, a) < at + len then src[Off(addr, a)] else old(mem[a])
    {
      hide At, Off;
      var i := at;
      while i < at + len
        invariant at <= i <= at + len
        invariant forall a :: 0 <= a < SPACE ==>
                    mem[a] == if at <= Off(addr, a) < i then src[Off(addr, a)] else old(mem[a])
      {
        OffAt(addr, i);
        forall a | 0 <= a < SPACE ensures Off(addr, a) == i ==> a == At(addr, i) { AtOff(addr, a); }
        mem[At(addr, i)] := src[i];
        i := i + 1;
      }
    }

    /** dma_bm_write: the block helper, then units, then a last unit read,
        changed and written back. Memory outside the range is untouched. */
    method Write(addr: int, data: array<bv8>, total: nat, size: nat, fast: nat)
      requires Valid() && data != mem && total <= data.Length && total < SPACE
      requires size == 1 || size == 2 || size == 4
      requires fast <= total
      modifies mem
      ensures Written(old(mem[..]), addr, data[..], total)
    {
      hide Written;
      ghost var before := mem[..];
      NothingWritten(addr, data[..]);
      ghost var done := WriteUnit(before, addr, data, 0, 0, fast);
      if fast == total {
        return;
      }
      Split(total, fast, size);
      var skip := fast - fast % size;
      var rest := total - skip;
      var n := rest - rest % size;
      var i := 0;
      while i < n
        invariant 0 <= i <= n && i % size == 0
        invariant skip + i <= done <= total
        invariant Written(before, addr, data[..], done)
      {
        UnitFits(i, n, size);
        done := WriteUnit(before, addr, data, skip + i, done, size);
        i := i + size;
      }
      if n < rest {
        WriteTail(before, addr, data, skip + n, done, total, size);
      }
    }

    lemma NothingWritten(addr: int, data: seq<bv8>)
      requires Valid()
      ensures Written(mem[..], addr, data, 0)
    {
    }

    /** A run written where a prefix is done extends the prefix. */
    method WriteUnit(ghost before: seq<bv8>, addr: int, data: array<bv8>, at: nat, ghost done: nat, len: nat)
        returns (ghost more: nat)
      requires Valid() && data != mem && |before| == SPACE && at <= done <= data.Length
      requires at + len <= data.Length && at + len < SPACE
      requires Written(before, addr, data[..], done)
      modifies mem
      ensures more == (if done < at + len then at + len else done) && Written(before, addr, data[..], more)
    {
      hide At, Off;
      WriteRun(data, at, addr, len);
      more := if done < at + len then at + len else done;
    }

    /** The first n of `bytes` become those of data from `at` on. */
    method Patch(bytes: array<bv8>, data: array<bv8>, at: nat, n: nat)
      requires bytes != data && n <= bytes.Length && at + n <= data.Length
      modifies bytes
      ensures forall k :: 0 <= k < bytes.Length ==> bytes[k] == if k < n then data[at + k] else old(bytes[k])
    {
      var i := 0;
      while i < n
        invariant 0 <= i <= n
        invariant forall k :: 0 <= k < bytes.Length ==> bytes[k] == if k < i then data[at + k] else old(bytes[k])
      {
        bytes[i] := data[at + i];
        i := i + 1;
      }
    }

    /** The read-modify-write tail changes only bytes of the range. */
    method WriteTail(ghost before: seq<bv8>, addr: int, data: array<bv8>, at: nat, ghost done: nat, total: nat,
        size: nat)
      requires Valid() && data != mem && |before| == SPACE && total <= data.Length && total < SPACE
      requires at <= done <= total && 0 < total - at < size <= 4
      requires Written(before, addr, data[..], done)
      modifies mem
      ensures Written(before, addr, data[..], total)
    {
      hide At, Off;
      var bytes := new bv8[4](_ => 0);
      ghost var prev := mem[..];
      ReadRun(bytes, 0, addr + at, size);
      Patch(bytes, data, at, total - at);
      WriteRun(bytes, 0, addr + at, size);
      forall a | 0 <= a < SPACE
        ensures mem[a] == if Off(addr, a) < total then data[Off(addr, a)] else before[a]
      {
        Shift(addr, at, a);
        AtOff(addr + at, a);
      }
    }
  }
}
