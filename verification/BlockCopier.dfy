/**
 The block copier of cifsdd: one buffer is filled by reads of `ibs` bytes, drained by
 writes of `obs` bytes, and the remainder is moved back to the head of the buffer.
 */
module BlockCopier {
  import opened Common

  const IOERROR_EXIT_CODE := 11

  /** dd_stats: full blocks, partial blocks and bytes in each direction. */
  class Stats {
    var inFull: nat
    var inPartial: nat
    var inBytes: nat
    var outFull: nat
    var outPartial: nat
    var outBytes: nat

    constructor ()
      ensures inFull == inPartial == inBytes == outFull == outPartial == outBytes == 0
    {
      inFull, inPartial, inBytes, outFull, outPartial, outBytes := 0, 0, 0, 0, 0, 0;
    }
  }

  /** The input handle: the device holds `content`, of which `pos` bytes are delivered. `received` logs
      the size of every successful read. A read
      may be short or fail; a device with `fullReads` is short only when it has no more. */
  class Input {
    var eof: bool
    var pos: nat
    const content: seq<byte>
    const fullReads: bool
    ghost var faults: nat
    ghost var received: seq<nat>

    ghost predicate Valid()
      reads this
    {
      pos <= |content|
    }

    constructor (content: seq<byte>, fullReads: bool)
      ensures Valid() && !eof && pos == 0 && faults == 0 && received == []
      ensures this.content == content && this.fullReads == fullReads
    {
      this.content, this.fullReads := content, fullReads;
      eof, pos, faults, received := false, 0, 0, [];
    }

    method Read(buf: array<byte>, offset: nat, wanted: nat) returns (ok: bool, actual: nat)
      requires Valid() && offset + wanted <= buf.Length
      modifies this`pos, this`faults, this`received, buf
      ensures Valid() && actual <= wanted && pos == old(pos) + actual
      ensures buf[..offset] == old(buf[..offset])
      ensures buf[offset..offset + actual] == content[old(pos)..pos]
      ensures !ok ==> actual == 0
      ensures faults == if ok then old(faults) else old(faults) + 1
      ensures received == if ok then old(received) + [actual] else old(received)
      ensures ok && fullReads ==> actual == Min(wanted, |content| - old(pos))
    {
      ok := *;
      actual := 0;
      if ok {
        actual := Min(wanted, |content| - pos);
        if !fullReads {
          actual :| 0 <= actual <= Min(wanted, |content| - pos);
        }
        forall i | 0 <= i < actual {
          buf[offset + i] := content[pos + i];
        }
        pos, received := pos + actual, received + [actual];
      } else {
        faults := faults + 1;
      }
    }
  }

  /** The output handle. `records` logs the size of every successful write; a write of nothing
      is a fault too. */
  class Output {
    var written: seq<byte>
    ghost var records: seq<nat>
    const fullWrites: bool
    ghost var faults: nat

    constructor (fullWrites: bool)
      ensures written == [] && records == [] && faults == 0 && this.fullWrites == fullWrites
    {
      this.fullWrites := fullWrites;
      written, records, faults := [], [], 0;
    }

    method Write(buf: array<byte>, offset: nat, wanted: nat) returns (ok: bool, actual: nat)
      requires offset + wanted <= buf.Length
      modifies this
      ensures actual <= wanted
      ensures ok ==> written == old(written) + buf[offset..offset + actual] && records == old(records) + [actual]
      ensures !ok ==> written == old(written) && records == old(records)
      ensures faults == if ok && actual > 0 then old(faults) else old(faults) + 1
      ensures ok && fullWrites ==> actual == wanted
    {
      ok := *;
      actual := wanted;
      if ok {
        if !fullWrites {
          actual :| 0 <= actual <= wanted;
        }
        written, records := written + buf[offset..offset + actual], records + [actual];
      }
      if !ok || actual == 0 {
        faults := faults + 1;
      }
    }
  }

  /** How many of the sizes are whole blocks. */
  ghost function Whole(sizes: seq<nat>, block: nat): nat {
    if sizes == [] then 0
    else Whole(sizes[..|sizes| - 1], block) + if sizes[|sizes| - 1] == block then 1 else 0
  }

  /** How many of the sizes are part of a block. */
  ghost function Part(sizes: seq<nat>, block: nat): nat {
    if sizes == [] then 0
    else Part(sizes[..|sizes| - 1], block) + if 0 < sizes[|sizes| - 1] < block then 1 else 0
  }

  lemma TallySnoc(sizes: seq<nat>, n: nat, block: nat)
    ensures Whole(sizes + [n], block) == Whole(sizes, block) + if n == block then 1 else 0
    ensures Part(sizes + [n], block) == Part(sizes, block) + if 0 < n < block then 1 else 0
  {
    assert (sizes + [n])[..|sizes + [n]| - 1] == sizes;
  }

  /** The block counts of the statistics are those of the reads. */
  ghost predicate ReadsTallied(i: Input, ibs: nat, stats: Stats)
    reads i, stats
  {
    stats.inFull == Whole(i.received, ibs) && stats.inPartial == Part(i.received, ibs)
  }

  /** And those of the writes. */
  ghost predicate WritesTallied(o: Output, obs: nat, stats: Stats)
    reads o, stats
  {
    stats.outFull == Whole(o.records, obs) && stats.outPartial == Part(o.records, obs)
  }

  /** The size of `n` blocks. */
  ghost function Total(n: nat, block: nat): (r: nat)
    ensures n > 0 ==> r >= block
  {
    if n == 0 then 0 else Total(n - 1, block) + block
  }

  lemma FilledOn(b: seq<byte>, i: nat, j: nat, head: seq<byte>, content: seq<byte>, p: nat, q: nat, r: nat)
    requires i <= j <= |b| && p <= q <= r <= |content|
    requires b[..i] == head + content[p..q] && b[i..j] == content[q..r]
    ensures b[..j] == head + content[p..r]
  {
    assert b[..j] == b[..i] + b[i..j];
    assert content[p..r] == content[p..q] + content[q..r];
  }

  /** dd_fill_block. `lastStart` is how much was buffered when the last read that delivered
      something was issued, after `steps` earlier ones. */
  method FillBlock(h: Input, buf: array<byte>, bufSize: nat, need: nat, block: nat, stats: Stats)
    returns (ok: bool, size: nat, ghost lastStart: nat, ghost steps: nat)
    requires block > 0 && h.Valid() && need + block <= buf.Length
    requires bufSize < need || bufSize == need == 0
    modifies h, buf, stats`inFull, stats`inPartial, stats`inBytes
    ensures h.Valid() && bufSize <= size < need + block && h.pos == old(h.pos) + (size - bufSize)
    ensures buf[..size] == old(buf[..bufSize]) + h.content[old(h.pos)..h.pos]
    ensures stats.inBytes == old(stats.inBytes) + (size - bufSize)
    ensures ok <==> h.faults == old(h.faults)
    ensures need == 0 ==> ok && size == 0 && unchanged(h)
    ensures old(ReadsTallied(h, block, stats)) ==> ReadsTallied(h, block, stats)
    ensures ok ==> (h.eof <==> old(h.eof) || size < need)
    ensures ok && size < need && h.fullReads ==> h.pos == |h.content|
    ensures size > bufSize ==> bufSize <= lastStart < need && lastStart < size <= lastStart + block
    ensures size > bufSize && h.fullReads ==>
              && lastStart == bufSize + Total(steps, block)
              && (h.pos < |h.content| ==> size == lastStart + block)
  {
    size, lastStart, steps := bufSize, bufSize, 0;
    ok := true;
    while size < need
      invariant h.Valid() && bufSize <= size < need + block && h.pos == old(h.pos) + (size - bufSize)
      invariant buf[..size] == old(buf[..bufSize]) + h.content[old(h.pos)..h.pos]
      invariant stats.inBytes == old(stats.inBytes) + (size - bufSize)
      invariant need == 0 ==> unchanged(h)
      invariant old(ReadsTallied(h, block, stats)) ==> ReadsTallied(h, block, stats)
      invariant h.eof == old(h.eof) && h.faults == old(h.faults)
      invariant size > bufSize ==> bufSize <= lastStart < need && lastStart < size <= lastStart + block
      invariant size > bufSize && h.fullReads ==>
                  && lastStart == bufSize + Total(steps, block)
                  && (h.pos < |h.content| ==> size == lastStart + block)
      decreases |h.content| - h.pos
    {
      ghost var p, sizes := h.pos, h.received;
      var readOk, readSize := h.Read(buf, size, block);
      FilledOn(buf[..], size, size + readSize, old(buf[..bufSize]), h.content, old(h.pos), p, h.pos);
      if !readOk {
        ok := false;
        return;
      }
      TallySnoc(sizes, readSize, block);
      if readSize == 0 {
        h.eof := true;
        return;
      }
      steps := if size > bufSize then steps + 1 else 0;
      lastStart, size := size, size + readSize;
      stats.inBytes := stats.inBytes + readSize;
      if readSize == block {
        stats.inFull := stats.inFull + 1;
      } else {
        stats.inPartial := stats.inPartial + 1;
      }
    }
  }

  /** memmove(buf, buf + from, count) */
  method MoveToHead(buf: array<byte>, from: nat, count: nat)
    requires from + count <= buf.Length
    modifies buf
    ensures buf[..count] == old(buf[from..from + count])
  {
    forall i | 0 <= i < count {
      buf[i] := buf[from + i];
    }
  }

  /** `n` records of `block` bytes. */
  ghost function Blocks(n: nat, block: nat): (r: seq<nat>) {
    seq(n, _ => block)
  }

  lemma WrittenOn(w: seq<byte>, b: seq<byte>, i: nat, j: nat, k: nat)
    requires i <= j <= k <= |b|
    ensures (w + b[i..j]) + b[j..k] == w + b[i..k]
  {
    assert b[i..j] + b[j..k] == b[i..k];
  }

  /** The full-block loop of dd_flush_block, after `done` bytes of the buffer went out. */
  method WriteBlocks(h: Output, buf: array<byte>, bufSize: nat, done: nat, block: nat, stats: Stats)
    returns (ok: bool, total: nat, ghost whole: nat)
    requires block > 0 && done <= bufSize <= buf.Length
    modifies h, stats`outFull, stats`outPartial, stats`outBytes
    ensures done <= total <= bufSize && h.written == old(h.written) + buf[done..total]
    ensures ok ==> bufSize - total < block && (bufSize - done >= block ==> total > done)
    ensures ok <==> h.faults == old(h.faults)
    ensures old(WritesTallied(h, block, stats)) ==> WritesTallied(h, block, stats)
    ensures bufSize - done < block ==> ok && total == done && unchanged(h) && unchanged(stats)
    ensures stats.outBytes == old(stats.outBytes) + (total - done)
    ensures h.fullWrites ==>
              && total == done + Total(whole, block) && h.records == old(h.records) + Blocks(whole, block)
              && stats.outFull == old(stats.outFull) + whole && stats.outPartial == old(stats.outPartial)
  {
    ok, total, whole := true, done, 0;
    while bufSize - total >= block
      invariant done <= total <= bufSize && h.written == old(h.written) + buf[done..total]
      invariant bufSize - done < block ==> unchanged(h) && unchanged(stats)
      invariant h.faults == old(h.faults)
      invariant old(WritesTallied(h, block, stats)) ==> WritesTallied(h, block, stats)
      invariant bufSize - total < block && bufSize - done >= block ==> total > done
      invariant stats.outBytes == old(stats.outBytes) + (total - done)
      invariant h.fullWrites ==>
                  && total == done + Total(whole, block) && h.records == old(h.records) + Blocks(whole, block)
                  && stats.outFull == old(stats.outFull) + whole && stats.outPartial == old(stats.outPartial)
      decreases bufSize - total
    {
      ghost var sizes := h.records;
      var writeOk, writeSize := h.Write(buf, total, block);
      TallySnoc(sizes, writeSize, block);
      if !writeOk || writeSize == 0 {
        ok := false;
        return;
      }
      if writeSize == block {
        stats.outFull := stats.outFull + 1;
      } else {
        stats.outPartial := stats.outPartial + 1;
      }
      WrittenOn(old(h.written), buf[..], done, total, total + writeSize);
      whole, total := whole + 1, total + writeSize;
      stats.outBytes := stats.outBytes + writeSize;
    }
  }

  lemma SplitFlush<T>(w: seq<T>, b: seq<T>, n: nat)
    requires n <= |b|
    ensures (w + b[..n]) + b[n..] == w + b
    ensures w <= w + b[..n] <= w + b
  {
    assert b[..n] + b[n..] == b;
  }

  /** dd_flush_block. With full writes every record is a whole block, unless the buffer held
      less than a block, which then goes out as one partial record. */
  method FlushBlock(h: Output, buf: array<byte>, bufSize: nat, block: nat, stats: Stats)
    returns (ok: bool, size: nat, ghost whole: nat)
    requires block > 0 && 0 < bufSize <= buf.Length
    modifies h, buf, stats`outFull, stats`outPartial, stats`outBytes
    ensures size <= bufSize && (ok ==> size < bufSize && size < block)
    ensures old(WritesTallied(h, block, stats)) ==> WritesTallied(h, block, stats)
    ensures ok <==> h.faults == old(h.faults)
    ensures ok ==> h.written + buf[..size] == old(h.written + buf[..bufSize])
    ensures old(h.written) <= h.written <= old(h.written + buf[..bufSize])
    ensures stats.outBytes == old(stats.outBytes) + |h.written| - |old(h.written)|
    ensures ok && h.fullWrites && bufSize < block ==>
              && size == 0 && h.records == old(h.records) + [bufSize]
              && stats.outFull == old(stats.outFull) && stats.outPartial == old(stats.outPartial) + 1
    ensures ok && h.fullWrites && bufSize >= block ==>
              && bufSize == size + Total(whole, block) && h.records == old(h.records) + Blocks(whole, block)
              && stats.outFull == old(stats.outFull) + whole && stats.outPartial == old(stats.outPartial)
  {
    var total, writeSize := 0, 0;
    size, whole := bufSize, 0;
    ghost var w, b := h.written, buf[..bufSize];
    // Explicitly asked to write a partial block.
    if bufSize < block {
      ghost var sizes := h.records;
      ok, writeSize := h.Write(buf, 0, bufSize);
      TallySnoc(sizes, writeSize, block);
      if !ok {
        return;
      }
      total := writeSize;
      assert h.written == w + b[..total];
      SplitFlush(w, b, total);
      if writeSize == 0 {
        ok := false;
        return;
      }
      stats.outBytes := stats.outBytes + writeSize;
      stats.outPartial := stats.outPartial + 1;
    }
    ghost var first := total;
    ok, total, whole := WriteBlocks(h, buf, bufSize, total, block, stats);
    assert b[..total] == b[..first] + buf[first..total];
    assert h.written == w + b[..total];
    SplitFlush(w, b, total);
    if !ok {
      return;
    }
    assert total > 0;
    size := bufSize - total;
    if size > 0 {
      MoveToHead(buf, total, size);
    }
    assert buf[..size] == b[total..];
  }

  /** The number of input bytes after which copy_files stops reading, in 64-bit arithmetic. */
  function Limit(ibs: nat, count: nat): nat {
    (ibs * count) % TWO_TO_THE_64
  }

  /** How many whole blocks of `block` bytes fit in `bytes`. */
  function WholeBlocks(bytes: nat, block: nat): (r: nat)
    requires block > 0
  {
    if bytes < block then 0 else 1 + WholeBlocks(bytes - block, block)
  }

  /** Input block number `count` completes an output block. */
  ghost predicate Crosses(ibs: nat, obs: nat, count: nat)
    requires obs > 0
  {
    count > 0 && WholeBlocks(Total(count - 1, ibs), obs) < WholeBlocks(Total(count, ibs), obs)
  }

  /** Block number `n` is the first from `count` on that completes an output block. */
  ghost predicate IsStop(ibs: nat, obs: nat, count: nat, n: nat)
    requires obs > 0
  {
    n >= count && Crosses(ibs, obs, n) && forall j :: count <= j < n ==> !Crosses(ibs, obs, j)
  }

  /** What a copy with full reads and writes takes: the input through that block. */
  ghost predicate Copied(copied: nat, available: nat, ibs: nat, obs: nat, count: nat)
    requires obs > 0
  {
    forall n: nat :: IsStop(ibs, obs, count, n) ==> copied == Min(Total(n, ibs), available)
  }

  /** `copied` is what the documented `count=COUNT` option promises: COUNT input blocks. */
  ghost predicate HonoursCount(copied: nat, available: nat, ibs: nat, count: nat) {
    copied == Min(Total(count, ibs), available)
  }

  /** Every record is a whole block, except that the last one may be shorter. */
  ghost predicate WholeRecords(records: seq<nat>, block: nat) {
    && (forall i :: 0 <= i < |records| - 1 ==> records[i] == block)
    && (records != [] ==> 0 < records[|records| - 1] <= block)
  }

  lemma {:induction false} TotalIsProduct(n: nat, block: nat)
    ensures Total(n, block) == n * block
  {
    if n > 0 {
      TotalIsProduct(n - 1, block);
      assert (n - 1) * block + block == n * block;
    }
  }

  lemma {:induction false} TotalMonotone(a: nat, b: nat, block: nat)
    requires a <= b
    ensures Total(a, block) <= Total(b, block)
  {
    if a < b {
      TotalMonotone(a, b - 1, block);
    }
  }

  lemma {:induction false} TotalAdds(a: nat, b: nat, block: nat)
    ensures Total(a + b, block) == Total(a, block) + Total(b, block)
  {
    if b > 0 {
      TotalAdds(a, b - 1, block);
    }
  }

  /** WholeBlocks is the quotient. */
  lemma {:induction false} WholeBlocksIs(bytes: nat, block: nat, q: nat)
    requires block > 0 && Total(q, block) <= bytes < Total(q, block) + block
    ensures WholeBlocks(bytes, block) == q
  {
    if q > 0 {
      WholeBlocksIs(bytes - block, block, q - 1);
    }
  }

  lemma {:induction false} WholeBlocksMonotone(a: nat, b: nat, block: nat)
    requires block > 0 && a <= b
    ensures WholeBlocks(a, block) <= WholeBlocks(b, block)
  {
    if a >= block {
      WholeBlocksMonotone(a - block, b - block, block);
    }
  }

  lemma {:induction false} WholeBlocksSplit(bytes: nat, block: nat)
    requires block > 0
    ensures Total(WholeBlocks(bytes, block), block) <= bytes < Total(WholeBlocks(bytes, block), block) + block
  {
    if bytes >= block {
      WholeBlocksSplit(bytes - block, block);
    }
  }

  /** The read that completes output block `q` ends exactly at input block `count`. */
  lemma LimitHit(ibs: nat, obs: nat, count: nat, q: nat)
    requires ibs > 0 && obs > 0 && count > 0
    requires Total(q, obs) <= Total(count - 1, ibs) < Total(q, obs) + obs <= Total(count, ibs)
    ensures Crosses(ibs, obs, count)
  {
    WholeBlocksIs(Total(count - 1, ibs), obs, q);
    WholeBlocksIs(Total(q + 1, obs), obs, q + 1);
    WholeBlocksMonotone(Total(q + 1, obs), Total(count, ibs), obs);
  }

  /** Input block `count` ends inside output block `q`. */
  lemma LimitMissed(ibs: nat, obs: nat, count: nat, q: nat)
    requires ibs > 0 && obs > 0 && count > 0
    requires Total(q, obs) <= Total(count - 1, ibs) && Total(count, ibs) < Total(q, obs) + obs
    ensures !Crosses(ibs, obs, count)
  {
    WholeBlocksIs(Total(count - 1, ibs), obs, q);
    WholeBlocksIs(Total(count, ibs), obs, q);
  }

  lemma TotalStrict(a: nat, b: nat, block: nat)
    requires block > 0
    ensures Total(a, block) < Total(b, block) <==> a < b
  {
    if a < b {
      TotalMonotone(a, b - 1, block);
    } else {
      TotalMonotone(b, a, block);
    }
  }

  /** No block completes an output block between `k` and the block that ends before `end`. */
  lemma {:induction false} NoStopBefore(ibs: nat, obs: nat, count: nat, k: nat, q: nat, n: nat)
    requires ibs > 0 && obs > 0 && (k == 0 || k < count) && IsStop(ibs, obs, count, n)
    requires Total(q, obs) <= Total(k, ibs)
    ensures Total(n, ibs) >= Total(q, obs) + obs
  {
    if Total(n, ibs) < Total(q, obs) + obs {
      TotalMonotone(k, n - 1, ibs);
      LimitMissed(ibs, obs, n, q);
    }
  }

  /** A fill that began with `k` blocks read and `q` blocks written ended at or past block
      `count`: its last read began at block `j`, and the output block boundary lies between. */
  lemma {:induction false} LimitReached(ibs: nat, obs: nat, count: nat, k: nat, j: nat, q: nat, pos: nat, available: nat)
    requires ibs > 0 && obs > 0 && (k == 0 || k < count) && k <= j
    requires Total(q, obs) <= Total(k, ibs) && Total(j, ibs) < Total(q, obs) + obs <= pos
    requires Total(j, ibs) < pos <= Total(j + 1, ibs) && pos <= available && (pos < available ==> pos == Total(j + 1, ibs))
    requires pos >= Total(count, ibs)
    ensures Copied(pos, available, ibs, obs, count)
  {
    TotalMonotone(k, j, ibs);
    LimitHit(ibs, obs, j + 1, q);
    TotalStrict(j + 1, count, ibs);
    forall n: nat | IsStop(ibs, obs, count, n) ensures pos == Min(Total(n, ibs), available) {
      NoStopBefore(ibs, obs, count, k, q, n);
      TotalStrict(j, n, ibs);
      TotalMonotone(j + 1, n, ibs);
      assert pos < available ==> n <= j + 1;
    }
  }

  /** The input ended inside a fill. */
  lemma InputEnded(ibs: nat, obs: nat, count: nat, k: nat, q: nat, available: nat)
    requires ibs > 0 && obs > 0 && (k == 0 || k < count)
    requires Total(q, obs) <= Total(k, ibs) <= available < Total(q, obs) + obs
    ensures Copied(available, available, ibs, obs, count)
  {
    forall n: nat | IsStop(ibs, obs, count, n) ensures available == Min(Total(n, ibs), available) {
      NoStopBefore(ibs, obs, count, k, q, n);
    }
  }

  /** There is such a block, whatever the sizes. */
  lemma {:induction false} FindStop(ibs: nat, obs: nat, count: nat, j: nat) returns (n: nat)
    requires ibs > 0 && obs > 0 && j >= count && j > 0
    requires forall i :: count <= i < j ==> !Crosses(ibs, obs, i)
    ensures IsStop(ibs, obs, count, n)
    decreases Total(WholeBlocks(Total(j - 1, ibs), obs), obs) + obs - Total(j - 1, ibs)
  {
    n := j;
    if !Crosses(ibs, obs, j) {
      WholeBlocksMonotone(Total(j - 1, ibs), Total(j, ibs), obs);
      WholeBlocksSplit(Total(j, ibs), obs);
      n := FindStop(ibs, obs, count, j + 1);
    }
  }

  /** So `count` is honoured if and only if block `count` completes an output block, or the input
      is no longer than that. */
  lemma HonouredIff(copied: nat, available: nat, ibs: nat, obs: nat, count: nat)
    requires ibs > 0 && obs > 0 && Copied(copied, available, ibs, obs, count)
    ensures HonoursCount(copied, available, ibs, count) <==> available <= Total(count, ibs) || Crosses(ibs, obs, count)
  {
    var n := FindStop(ibs, obs, count, if count > 0 then count else 1);
    TotalStrict(count, n, ibs);
  }

  /** With an output block no larger than an input block, `count` is always honoured. */
  lemma SmallOutputBlocksCross(ibs: nat, obs: nat, count: nat)
    requires 0 < obs <= ibs && count > 0
    ensures Crosses(ibs, obs, count)
  {
    WholeBlocksSplit(Total(count - 1, ibs), obs);
    LimitHit(ibs, obs, count, WholeBlocks(Total(count - 1, ibs), obs));
  }

  /** The default count of 2^64 - 1 blocks wraps to a limit just below 2^64 bytes. */
  lemma DefaultLimit(ibs: nat)
    requires 0 < ibs < TWO_TO_THE_64
    ensures Limit(ibs, TWO_TO_THE_64 - 1) == TWO_TO_THE_64 - ibs
  {
    var rest := TWO_TO_THE_64 - ibs;
    assert ibs * (TWO_TO_THE_64 - 1) == TWO_TO_THE_64 * (ibs - 1) + rest;
  }

  /** `count=1 ibs=1 obs=4` copies four bytes of an input of eight, not one. */
  lemma CountNotHonouredExample(copied: nat)
    requires Copied(copied, 8, 1, 4, 1)
    ensures copied == 4 && !HonoursCount(copied, 8, 1, 1)
  {
    TotalIsProduct(1, 1);
    TotalIsProduct(2, 1);
    TotalIsProduct(3, 1);
    TotalIsProduct(4, 1);
    assert WholeBlocks(3, 4) == 0 && WholeBlocks(4, 4) == 1;
    assert IsStop(1, 4, 1, 4);
  }

  /** What the copy loop keeps: the bytes written, followed by the buffered ones, are the bytes
      read; and the statistics agree. */
  ghost predicate Conserved(i: Input, o: Output, buf: array<byte>, size: nat, stats: Stats)
    reads i, o, buf, stats
  {
    && i.Valid() && size <= buf.Length
    && o.written + buf[..size] == i.content[..i.pos]
    && stats.inBytes == i.pos && stats.outBytes == |o.written|
  }

  /** The records so far, when writes are full: whole blocks, until the last buffered bytes go out. */
  ghost predicate Shaped(o: Output, size: nat, obs: nat, stats: Stats)
    reads o, stats
  {
    if stats.outPartial == 0 then size < obs && o.records == Blocks(|o.records|, obs)
    else stats.outPartial == 1 && size == 0 && WholeRecords(o.records, obs)
  }

  /** How far the copy has read: not past the limit before the end-of-file flag is set. */
  ghost predicate Bounded(i: Input, ibs: nat, obs: nat, limit: nat)
    reads i
  {
    && (!i.eof ==> i.pos < limit || i.pos == 0)
    && i.pos < limit + obs + ibs
    && (i.eof && i.fullReads && |i.content| <= limit ==> i.pos == |i.content|)
  }

  /** With full reads and writes: `k` blocks read and `q` blocks written, and once the
      end-of-file flag is set it is settled how much was copied. */
  ghost predicate Counted(i: Input, size: nat, ibs: nat, obs: nat, count: nat, k: nat, q: nat)
    requires obs > 0
    reads i
  {
    if i.eof then Copied(i.pos, |i.content|, ibs, obs, count)
    else
      && i.pos == Total(q, obs) + size
      && (i.pos == |i.content| || (i.pos == Total(k, ibs) && (k == 0 || k < count)))
  }

  /** With full reads and input blocks no smaller than output blocks, whatever the writes do: `k`
      blocks were read, and once the end-of-file flag is set exactly `count`, or all there is. */
  ghost predicate Honoured(i: Input, ibs: nat, count: nat, k: nat)
    reads i
  {
    if i.eof then i.pos == Min(Total(count, ibs), |i.content|)
    else i.pos <= |i.content| && (i.pos == |i.content| || (i.pos == Total(k, ibs) && k < count))
  }

  /** One fill, when one read of a whole block suffices for it. */
  lemma {:induction false} SmallFill(all: nat, p: nat, p': nat, size: nat, size': nat, lastStart: nat, steps: nat,
                  ibs: nat, obs: nat, count: nat, k: nat)
    requires 0 < obs <= ibs && size < obs && p <= p' <= all && p' - p == size' - size
    requires p < Total(count, ibs) || p == 0
    requires p == all || (p == Total(k, ibs) && k < count)
    requires size' > size ==>
               && lastStart == size + Total(steps, ibs) && lastStart < obs && size' <= lastStart + ibs
               && (p' < all ==> size' == lastStart + ibs)
    requires size' < obs ==> p' == all
    ensures size' < obs || p' >= Total(count, ibs) ==> p' == Min(Total(count, ibs), all)
    ensures size' >= obs && p' < Total(count, ibs) ==> p' == all || (p' == Total(k + steps + 1, ibs) && k + steps + 1 < count)
  {
    if p < all {
      assert size' > size && steps == 0;
      TotalMonotone(k + 1, count, ibs);
      if p' < Total(count, ibs) && p' < all {
        TotalStrict(k + 1, count, ibs);
      }
    }
  }

  /** What one fill does to the block counts, and what is settled when reading stops. */
  lemma FillCounts(all: nat, p: nat, p': nat, size: nat, size': nat, lastStart: nat, steps: nat,
                   ibs: nat, obs: nat, count: nat, k: nat, q: nat)
    requires 0 < ibs && 0 < obs && size < obs && p <= p' <= all && p' - p == size' - size
    requires p == Total(q, obs) + size && (p < Total(count, ibs) || p == 0)
    requires p == all || (p == Total(k, ibs) && (k == 0 || k < count))
    requires size' > size ==>
               && lastStart == size + Total(steps, ibs) && size <= lastStart < obs && lastStart < size' <= lastStart + ibs
               && (p' < all ==> size' == lastStart + ibs)
    requires size' < obs ==> p' == all
    ensures size' < obs || p' >= Total(count, ibs) ==> Copied(p', all, ibs, obs, count)
    ensures size' >= obs && p' < Total(count, ibs) ==>
              p' == all || (p' == Total(k + steps + 1, ibs) && k + steps + 1 < count)
  {
    if p < all {
      if size' < obs {
        InputEnded(ibs, obs, count, k, q, all);
      } else {
        var j := k + steps;
        TotalAdds(k, steps, ibs);
        if p' >= Total(count, ibs) {
          LimitReached(ibs, obs, count, k, j, q, p', all);
        } else if p' < all && j + 1 >= count {
          TotalMonotone(count, j + 1, ibs);
          assert false;
        }
      }
    } else {
      forall n: nat | IsStop(ibs, obs, count, n) ensures p' == Min(Total(n, ibs), all) {
        TotalMonotone(count, n, ibs);
      }
    }
  }

  lemma ConservedFill(w: seq<byte>, b: seq<byte>, content: seq<byte>, p: nat, p': nat)
    requires p <= p' <= |content| && w + b == content[..p]
    ensures w + (b + content[p..p']) == content[..p']
  {
    assert w + (b + content[p..p']) == (w + b) + content[p..p'];
  }

  /** The first half of a pass of the copy loop: fill, then check the limit. `exact` stands for
      full reads and writes, `small` for full reads and `obs <= ibs`, both with a limit that did not wrap. */
  method FillRound(ifile: Input, ofile: Output, iobuf: array<byte>, dataSize: nat, ibs: nat, obs: nat, limit: nat,
                   stats: Stats, ghost exact: bool, ghost small: bool, ghost count: nat, ghost k: nat, ghost q: nat)
    returns (ok: bool, size: nat, ghost k': nat)
    requires 0 < ibs && 0 < obs && obs + ibs <= iobuf.Length
    requires exact || small ==> ifile.fullReads && limit == Total(count, ibs)
    requires small ==> obs <= ibs && Honoured(ifile, ibs, count, k)
    requires !ifile.eof && dataSize < obs
    requires Conserved(ifile, ofile, iobuf, dataSize, stats)
    requires Bounded(ifile, ibs, obs, limit)
    requires exact ==> Counted(ifile, dataSize, ibs, obs, count, k, q)
    modifies ifile, iobuf, stats`inFull, stats`inPartial, stats`inBytes
    ensures ifile.Valid() && ifile.pos >= old(ifile.pos) && stats.inBytes == ifile.pos
    ensures Conserved(ifile, ofile, iobuf, size, stats) && ifile.pos < limit + obs + ibs
    ensures ok <==> ifile.faults == old(ifile.faults)
    ensures old(ReadsTallied(ifile, ibs, stats)) ==> ReadsTallied(ifile, ibs, stats)
    ensures ok ==> ifile.eof || (ifile.pos > old(ifile.pos) && size >= obs)
    ensures ok ==> Bounded(ifile, ibs, obs, limit)
    ensures ok && exact ==> Counted(ifile, size, ibs, obs, count, k', q)
    ensures ok && small ==> Honoured(ifile, ibs, count, k')
  {
    ghost var p, w, b := ifile.pos, ofile.written, iobuf[..dataSize];
    ghost var lastStart, steps;
    ok, size, lastStart, steps := FillBlock(ifile, iobuf, dataSize, obs, ibs, stats);
    k' := k + steps + 1;
    ConservedFill(w, b, ifile.content, p, ifile.pos);
    if !ok {
      return;
    }
    if size == 0 {
      assert ifile.eof;
    }
    if exact {
      FillCounts(|ifile.content|, p, ifile.pos, dataSize, size, lastStart, steps, ibs, obs, count, k, q);
    }
    if small {
      SmallFill(|ifile.content|, p, ifile.pos, dataSize, size, lastStart, steps, ibs, obs, count, k);
    }
    if stats.inBytes >= limit {
      ifile.eof := true;
    }
  }

  /** One pass of the copy loop: fill, check the limit, flush. */
  method CopyRound(ifile: Input, ofile: Output, iobuf: array<byte>, dataSize: nat, ibs: nat, obs: nat, limit: nat,
                   stats: Stats, ghost exact: bool, ghost small: bool, ghost count: nat, ghost k: nat, ghost q: nat)
    returns (ok: bool, size: nat, ghost k': nat, ghost q': nat)
    requires 0 < ibs && 0 < obs && obs + ibs <= iobuf.Length
    requires exact || small ==> ifile.fullReads && limit == Total(count, ibs)
    requires exact ==> ofile.fullWrites
    requires small ==> obs <= ibs && Honoured(ifile, ibs, count, k)
    requires !ifile.eof && dataSize < obs
    requires Conserved(ifile, ofile, iobuf, dataSize, stats)
    requires Bounded(ifile, ibs, obs, limit)
    requires ofile.fullWrites ==> Shaped(ofile, dataSize, obs, stats) && stats.outPartial == 0
    requires exact ==> Counted(ifile, dataSize, ibs, obs, count, k, q)
    modifies ifile, ofile, iobuf, stats
    ensures ifile.Valid() && ofile.written <= ifile.content[..ifile.pos]
    ensures stats.inBytes == ifile.pos && stats.outBytes == |ofile.written|
    ensures ifile.pos < limit + obs + ibs
    ensures ok <==> ifile.faults == old(ifile.faults) && ofile.faults == old(ofile.faults)
    ensures old(ReadsTallied(ifile, ibs, stats)) ==> ReadsTallied(ifile, ibs, stats)
    ensures old(WritesTallied(ofile, obs, stats)) ==> WritesTallied(ofile, obs, stats)
    ensures ok ==> Conserved(ifile, ofile, iobuf, size, stats) && size < obs
    ensures ifile.pos >= old(ifile.pos) && (ok ==> ifile.eof || ifile.pos > old(ifile.pos))
    ensures ok ==> Bounded(ifile, ibs, obs, limit)
    ensures ok && ofile.fullWrites ==> Shaped(ofile, size, obs, stats) && (!ifile.eof ==> stats.outPartial == 0)
    ensures ok && exact ==> Counted(ifile, size, ibs, obs, count, k', q')
    ensures ok && small ==> Honoured(ifile, ibs, count, k')
  {
    q' := q;
    ok, size, k' := FillRound(ifile, ofile, iobuf, dataSize, ibs, obs, limit, stats, exact, small, count, k, q);
    if ok && size > 0 {
      ghost var whole;
      ok, size, whole := FlushBlock(ofile, iobuf, size, obs, stats);
      q' := q + whole;
      TotalAdds(q, whole, obs);
    }
  }

  /** The final flushes, after the end-of-file flag is set. */
  method Drain(ifile: Input, ofile: Output, iobuf: array<byte>, dataSize: nat, obs: nat, stats: Stats, ghost ibs: nat)
    returns (ok: bool)
    requires 0 < obs && Conserved(ifile, ofile, iobuf, dataSize, stats)
    requires ofile.fullWrites ==> Shaped(ofile, dataSize, obs, stats)
    modifies ofile, iobuf, stats
    ensures ofile.written <= ifile.content[..ifile.pos]
    ensures stats.inBytes == ifile.pos && stats.outBytes == |ofile.written|
    ensures ok <==> ofile.faults == old(ofile.faults)
    ensures old(WritesTallied(ofile, obs, stats)) ==> WritesTallied(ofile, obs, stats)
    ensures old(ReadsTallied(ifile, ibs, stats)) ==> ReadsTallied(ifile, ibs, stats)
    ensures ok ==> Conserved(ifile, ofile, iobuf, 0, stats)
    ensures ok && ofile.fullWrites ==> Shaped(ofile, 0, obs, stats)
  {
    var size := dataSize;
    ok := true;
    while size > 0
      invariant Conserved(ifile, ofile, iobuf, size, stats) && ofile.faults == old(ofile.faults)
      invariant old(WritesTallied(ofile, obs, stats)) ==> WritesTallied(ofile, obs, stats)
      invariant old(ReadsTallied(ifile, ibs, stats)) ==> ReadsTallied(ifile, ibs, stats)
      invariant ofile.fullWrites ==> Shaped(ofile, size, obs, stats)
      decreases size
    {
      ghost var whole;
      ok, size, whole := FlushBlock(ofile, iobuf, size, obs, stats);
      if !ok {
        return;
      }
    }
  }

  lemma LimitIsTotal(ibs: nat, count: nat)
    requires Total(count, ibs) < TWO_TO_THE_64
    ensures Limit(ibs, count) == Total(count, ibs)
  {
    TotalIsProduct(count, ibs);
  }

  /** The copy loop, over a buffer with room for `obs + ibs` bytes. */
  method CopyLoop(ifile: Input, ofile: Output, iobuf: array<byte>, ibs: nat, obs: nat, limit: nat,
                  stats: Stats, ghost exact: bool, ghost small: bool, ghost count: nat)
    returns (ok: bool, interrupted: bool)
    requires 0 < ibs && 0 < obs && obs + ibs <= iobuf.Length
    requires exact || small ==> ifile.fullReads && limit == Total(count, ibs)
    requires exact ==> ofile.fullWrites
    requires small ==> obs <= ibs && count >= 1
    requires ifile.Valid() && ifile.pos == 0 && !ifile.eof && ofile.written == [] && ofile.records == []
    requires stats.inBytes == stats.outFull == stats.outPartial == stats.outBytes == 0
    requires ifile.received == [] && stats.inFull == stats.inPartial == 0
    modifies ifile, ofile, iobuf, stats
    ensures ReadsTallied(ifile, ibs, stats) && WritesTallied(ofile, obs, stats)
    ensures ifile.Valid() && ofile.written <= ifile.content[..ifile.pos]
    ensures ok <==> ifile.faults == old(ifile.faults) && ofile.faults == old(ofile.faults)
    ensures ok && !interrupted ==> ofile.written == ifile.content[..ifile.pos]
    ensures stats.inBytes == ifile.pos && stats.outBytes == |ofile.written|
    ensures ifile.pos < limit + obs + ibs
    ensures ok && !interrupted && ifile.fullReads && |ifile.content| <= limit ==> ifile.pos == |ifile.content|
    ensures ok && !interrupted && exact ==> Copied(ifile.pos, |ifile.content|, ibs, obs, count)
    ensures ok && !interrupted && small ==> ifile.pos == Min(Total(count, ibs), |ifile.content|)
    ensures ok && ofile.fullWrites ==> WholeRecords(ofile.records, obs) && stats.outPartial <= 1
  {
    var dataSize: nat := 0;
    ok, interrupted := true, false;
    ghost var k, q := 0, 0;
    while true
      invariant Conserved(ifile, ofile, iobuf, dataSize, stats) && (!ifile.eof ==> dataSize < obs)
      invariant Bounded(ifile, ibs, obs, limit)
      invariant ifile.faults == old(ifile.faults) && ofile.faults == old(ofile.faults)
      invariant ReadsTallied(ifile, ibs, stats) && WritesTallied(ofile, obs, stats)
      invariant ofile.fullWrites ==> Shaped(ofile, dataSize, obs, stats) && (!ifile.eof ==> stats.outPartial == 0)
      invariant exact ==> Counted(ifile, dataSize, ibs, obs, count, k, q)
      invariant small ==> Honoured(ifile, ibs, count, k)
      decreases |ifile.content| - ifile.pos, if ifile.eof then 0 else 1
    {
      interrupted := *;
      if interrupted {
        return true, true;
      }
      if ifile.eof {
        ok := Drain(ifile, ofile, iobuf, dataSize, obs, stats, ibs);
        return ok, false;
      }
      ok, dataSize, k, q := CopyRound(ifile, ofile, iobuf, dataSize, ibs, obs, limit, stats, exact, small, count, k, q);
      if !ok {
        return false, false;
      }
    }
  }

  /** copy_files. The result code is 0 or IOERROR_EXIT_CODE; `interrupted` is a SIGINT. */
  method CopyFiles(ifile: Input, ofile: Output, ibs: nat, obs: nat, count: nat, stats: Stats)
    returns (code: int, interrupted: bool)
    requires 0 < ibs && 0 < obs && 2 * Max(ibs, obs) < TWO_TO_THE_64
    requires ifile.Valid() && ifile.pos == 0 && !ifile.eof && |ifile.content| < TWO_TO_THE_64
    requires ofile.written == [] && ofile.records == []
    requires stats.inBytes == stats.outFull == stats.outPartial == stats.outBytes == 0
    requires ifile.received == [] && stats.inFull == stats.inPartial == 0
    modifies ifile, ofile, stats
    ensures code == if ifile.faults == old(ifile.faults) && ofile.faults == old(ofile.faults) then 0 else IOERROR_EXIT_CODE
    // Conservation: nothing invented, reordered or dropped, whatever the outcome.
    ensures ifile.Valid() && ofile.written <= ifile.content[..ifile.pos]
    ensures code == 0 && !interrupted ==> ofile.written == ifile.content[..ifile.pos]
    ensures stats.inBytes == ifile.pos && stats.outBytes == |ofile.written|
    ensures ReadsTallied(ifile, ibs, stats) && WritesTallied(ofile, obs, stats)
    // How far the copy reads.
    ensures ifile.pos < Limit(ibs, count) + obs + ibs
    ensures code == 0 && !interrupted && ifile.fullReads && |ifile.content| <= Limit(ibs, count) ==>
              ifile.pos == |ifile.content|
    ensures code == 0 && !interrupted && ifile.fullReads && ofile.fullWrites && Total(count, ibs) < TWO_TO_THE_64 ==>
              && Copied(ifile.pos, |ifile.content|, ibs, obs, count)
              && (HonoursCount(ifile.pos, |ifile.content|, ibs, count) <==>
                  |ifile.content| <= Total(count, ibs) || Crosses(ibs, obs, count))
    ensures code == 0 && !interrupted && ifile.fullReads && obs <= ibs && count >= 1 && Total(count, ibs) < TWO_TO_THE_64 ==>
              ifile.pos == Min(Total(count, ibs), |ifile.content|)
    // The shape of the output.
    ensures code == 0 && ofile.fullWrites ==> WholeRecords(ofile.records, obs) && stats.outPartial <= 1
  {
    var iobuf := new byte[2 * Max(ibs, obs)];
    ghost var exact := ifile.fullReads && ofile.fullWrites && Total(count, ibs) < TWO_TO_THE_64;
    ghost var small := ifile.fullReads && obs <= ibs && count >= 1 && Total(count, ibs) < TWO_TO_THE_64;
    if exact || small {
      LimitIsTotal(ibs, count);
    }
    var ok;
    ok, interrupted := CopyLoop(ifile, ofile, iobuf, ibs, obs, Limit(ibs, count), stats, exact, small, count);
    code := if ok then 0 else IOERROR_EXIT_CODE;
    if ok && !interrupted && exact {
      HonouredIff(ifile.pos, |ifile.content|, ibs, obs, count);
    }
  }

  /** The check of the block sizes in cifsdd's main: one size is looked at twice. */
  function SizesChecked(ibs: nat, obs: nat): bool {
    !(ibs == 0 || ibs == 0)
  }

  /** An output block size of 0 passes the check; then the first fill reads nothing and does not set
      the end-of-file flag, whatever the input holds, and the assertion that comes next fails. */
  method ZeroOutputBlock(ifile: Input, ibs: nat, stats: Stats) returns (ok: bool, dataSize: nat)
    requires ibs > 0 && ifile.Valid() && !ifile.eof
    modifies ifile, stats
    ensures SizesChecked(ibs, 0)
    ensures ok && dataSize == 0 && !ifile.eof && ifile.pos == old(ifile.pos)
  {
    var iobuf := new byte[2 * Max(ibs, 0)];
    ghost var lastStart, steps;
    ok, dataSize, lastStart, steps := FillBlock(ifile, iobuf, 0, 0, ibs, stats);
  }
}
