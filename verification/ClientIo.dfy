/**
 Reading and writing a file over SMB: the request is cut into blocks of the size that the
 server takes, and carried on from where each reply says it got to.
 */
module ClientIo {
  import opened Common

  const MIN_SMB_SIZE := 35
  const TWO_TO_THE_31: nat := 0x8000_0000
  const TWO_TO_THE_32: nat := 0x1_0000_0000

  /** One request, and how much of it the server did. */
  datatype Request = Request(offset: nat, count: nat, done: nat)

  /** The file on the server. Its replies can be short and requests can fail; with `fullReads` a
      read is short only at the end of the file. */
  class RemoteFile {
    var content: seq<byte>
    const fullReads: bool
    ghost var requests: seq<Request>
    ghost var faults: nat

    constructor (content: seq<byte>, fullReads: bool)
      ensures this.content == content && this.fullReads == fullReads && requests == [] && faults == 0
    {
      this.content, this.fullReads := content, fullReads;
      requests, faults := [], 0;
    }

    method Read(buf: array<byte>, at: nat, offset: nat, count: nat) returns (ok: bool, nread: nat)
      requires at + count <= buf.Length
      modifies this`requests, this`faults, buf
      ensures nread <= count && offset + nread <= Max(offset, |content|)
      ensures forall i :: 0 <= i < at || at + nread <= i < buf.Length ==> buf[i] == old(buf[i])
      ensures forall i :: at <= i < at + nread ==> offset + (i - at) < |content| && buf[i] == content[offset + (i - at)]
      ensures !ok ==> nread == 0 && requests == old(requests) && faults == old(faults) + 1
      ensures ok ==> requests == old(requests) + [Request(offset, count, nread)] && faults == old(faults)
      ensures ok && fullReads ==> nread == Min(count, Max(|content| - offset, 0))
    {
      ok := *;
      nread := 0;
      if ok {
        var most := Min(count, Max(|content| - offset, 0));
        nread := most;
        if !fullReads {
          nread :| 0 <= nread <= most;
        }
        forall i | 0 <= i < nread {
          buf[at + i] := content[offset + i];
        }
        requests := requests + [Request(offset, count, nread)];
      } else {
        faults := faults + 1;
      }
    }

    /** A write takes at least one byte, if it is offered any. */
    method Write(data: seq<byte>, offset: nat) returns (ok: bool, nwritten: nat)
      modifies this
      ensures !ok ==> nwritten == 0 && content == old(content) && requests == old(requests) && faults == old(faults) + 1
      ensures ok ==> nwritten <= |data| && (data != [] ==> nwritten > 0) && content == Updated(old(content), offset, data[..nwritten])
      ensures ok ==> requests == old(requests) + [Request(offset, |data|, nwritten)] && faults == old(faults)
    {
      ok := *;
      nwritten := 0;
      if ok {
        if data != [] {
          nwritten :| 0 < nwritten <= |data|;
        }
        content := Updated(content, offset, data[..nwritten]);
        requests := requests + [Request(offset, |data|, nwritten)];
      } else {
        faults := faults + 1;
      }
    }
  }

  function ByteAt(file: seq<byte>, offset: nat, data: seq<byte>, i: nat): byte {
    if offset <= i < offset + |data| then data[i - offset] else if i < |file| then file[i] else 0
  }

  /** A file after `data` was written at `offset`: a gap before it is filled with zeros, and
      writing nothing does nothing. */
  function Updated(file: seq<byte>, offset: nat, data: seq<byte>): (r: seq<byte>)
    ensures |r| == if data == [] then |file| else Max(|file|, offset + |data|)
  {
    if data == [] then file
    else seq(Max(|file|, offset + |data|), i requires 0 <= i => ByteAt(file, offset, data, i))
  }

  lemma UpdatedAt(file: seq<byte>, offset: nat, data: seq<byte>, i: nat)
    requires i < |Updated(file, offset, data)|
    ensures Updated(file, offset, data)[i] == ByteAt(file, offset, data, i)
  {
  }

  /** Writing on from where a write ended is one write of everything. */
  lemma UpdatedTwice(file: seq<byte>, offset: nat, a: seq<byte>, b: seq<byte>)
    ensures Updated(Updated(file, offset, a), offset + |a|, b) == Updated(file, offset, a + b)
  {
    var once, twice := Updated(file, offset, a + b), Updated(Updated(file, offset, a), offset + |a|, b);
    if b == [] {
      assert a + b == a;
    } else {
      forall i | 0 <= i < |twice| ensures twice[i] == once[i] {
        ByteTwice(file, offset, a, b, i);
      }
    }
  }

  lemma ByteTwice(file: seq<byte>, offset: nat, a: seq<byte>, b: seq<byte>, i: nat)
    requires b != [] && i < |Updated(Updated(file, offset, a), offset + |a|, b)|
    ensures Updated(Updated(file, offset, a), offset + |a|, b)[i] == Updated(file, offset, a + b)[i]
  {
    UpdatedAt(Updated(file, offset, a), offset + |a|, b, i);
    UpdatedAt(file, offset, a + b, i);
    if i < |Updated(file, offset, a)| {
      UpdatedAt(file, offset, a, i);
    }
  }

  /** What was written is read back, and nothing before or after it changed. */
  lemma UpdatedReadsBack(file: seq<byte>, offset: nat, data: seq<byte>)
    requires data != []
    ensures var r := Updated(file, offset, data);
      && |r| == Max(|file|, offset + |data|) && r[offset..offset + |data|] == data
      && (forall i :: 0 <= i < |file| && !(offset <= i < offset + |data|) ==> r[i] == file[i])
      && (forall i :: |file| <= i < offset ==> r[i] == 0)
  {
  }

  /** Writing at the end of a file appends. */
  lemma UpdatedAtEnd(file: seq<byte>, data: seq<byte>)
    ensures Updated(file, |file|, data) == file + data
  {
    var r := Updated(file, |file|, data);
    forall i | 0 <= i < |r| ensures r[i] == (file + data)[i] {
      UpdatedAt(file, |file|, data, i);
    }
  }

  // ---------- Block sizes ----------

  /** A 32-bit unsigned value as an int. */
  function ToInt(x: int): int {
    var u := x % TWO_TO_THE_32;
    if u < TWO_TO_THE_31 then u else u - TWO_TO_THE_32
  }

  /** The largest block. The subtraction is unsigned, so that it is negative as an int when the
      server's limit is smaller than the headers. */
  function Limit(maxXmit: nat): int {
    Min(ToInt(maxXmit - (MIN_SMB_SIZE + 32)), 0xFFFF)
  }

  lemma LimitIs(maxXmit: nat)
    requires 67 <= maxXmit < TWO_TO_THE_31
    ensures Limit(maxXmit) == if maxXmit <= 65602 then maxXmit - 67 else 65535
  {
  }

  /** MIN(block, rest) as the 32 bits that are sent. The comparison is unsigned: a negative block
      is no limit. */
  function Asked(block: int, rest: nat): (count: nat)
    ensures count <= rest && count < TWO_TO_THE_32
  {
    if block < 0 then rest % TWO_TO_THE_32 else if block < rest then block % TWO_TO_THE_32 else rest % TWO_TO_THE_32
  }

  /** The limits and sizes for which every request asks for something. */
  predicate Usable(maxXmit: nat, size: nat) {
    Limit(maxXmit) > 0 || (Limit(maxXmit) < 0 && size < TWO_TO_THE_31)
  }

  /** Of the limits only 67 leaves nothing to ask for. */
  lemma UsableIff(maxXmit: nat, size: nat)
    requires maxXmit < TWO_TO_THE_32 && size < TWO_TO_THE_31
    ensures Usable(maxXmit, size) <==> maxXmit != 67
    ensures Limit(maxXmit) == 0 <==> maxXmit == 67
  {
  }

  /** While something can be asked for, it is. */
  lemma UsableAsks(maxXmit: nat, size: nat, block: int, rest: nat)
    requires 0 < rest <= size && (0 < block < TWO_TO_THE_31 || (block < 0 && size < TWO_TO_THE_31))
    ensures Asked(block, rest) > 0 && 0 < ToInt(Asked(block, rest)) < TWO_TO_THE_31
  {
  }

  /** The requests go on from each other, from `offset` to `end`. */
  predicate Chained(requests: seq<Request>, offset: nat, end: nat) {
    if requests == [] then offset == end
    else
      var last := requests[|requests| - 1];
      Chained(requests[..|requests| - 1], offset, last.offset) && last.offset + last.done == end
  }

  lemma ChainedOn(requests: seq<Request>, offset: nat, end: nat, r: Request)
    requires Chained(requests, offset, end) && r.offset == end
    ensures Chained(requests + [r], offset, end + r.done)
  {
    assert (requests + [r])[..|requests|] == requests;
  }

  /** No request but the last was answered with less than was asked. */
  predicate FullButLast(requests: seq<Request>) {
    forall i :: 0 <= i < |requests| - 1 ==> requests[i].done == requests[i].count
  }

  predicate AllFull(requests: seq<Request>) {
    forall i :: 0 <= i < |requests| ==> requests[i].done == requests[i].count
  }

  predicate EndsShort(requests: seq<Request>) {
    requests != [] && requests[|requests| - 1].done < requests[|requests| - 1].count
  }

  lemma SameSlices<T>(a: seq<T>, b: seq<T>, offset: nat, n: nat)
    requires n <= |a| && (n > 0 ==> offset + n <= |b|)
    requires forall i :: 0 <= i < n ==> a[i] == b[offset + i]
    ensures n > 0 ==> a[..n] == b[offset..offset + n]
  {
  }

  /** One pass of the loop of smbcli_read. */
  method ReadPass(file: RemoteFile, block: int, buf: array<byte>, at: nat, offset: nat, rest: nat)
    returns (ok: bool, count: nat, block': int, nread: nat)
    requires at + rest <= buf.Length
    modifies file`requests, file`faults, buf
    ensures count == Asked(block, rest) && block' == ToInt(count)
    ensures nread <= count && offset + nread <= Max(offset, |file.content|)
    ensures forall i :: 0 <= i < at || at + nread <= i < buf.Length ==> buf[i] == old(buf[i])
    ensures forall i :: at <= i < at + nread ==> offset + (i - at) < |file.content| && buf[i] == file.content[offset + (i - at)]
    ensures !ok ==> file.requests == old(file.requests) && file.faults == old(file.faults) + 1
    ensures ok ==> file.requests == old(file.requests) + [Request(offset, count, nread)] && file.faults == old(file.faults)
    ensures ok && file.fullReads ==> nread == Min(count, Max(|file.content| - offset, 0))
  {
    count := Asked(block, rest);
    block' := ToInt(count);
    ok, nread := file.Read(buf, at, offset, count);
  }

  /** One pass of the loop of smbcli_write. */
  method WritePass(file: RemoteFile, block: int, rest: seq<byte>, offset: nat)
    returns (ok: bool, count: nat, block': int, nwritten: nat)
    modifies file
    ensures count == Asked(block, |rest|) && block' == ToInt(count)
    ensures nwritten <= count && (ok && count > 0 ==> nwritten > 0)
    ensures file.content == Updated(old(file.content), offset, rest[..nwritten])
    ensures !ok ==> nwritten == 0 && file.requests == old(file.requests) && file.faults == old(file.faults) + 1
    ensures ok ==> file.requests == old(file.requests) + [Request(offset, count, nwritten)] && file.faults == old(file.faults)
  {
    count := Asked(block, |rest|);
    block' := ToInt(count);
    var data := rest[..count];
    ok, nwritten := file.Write(data, offset);
    assert data[..nwritten] == rest[..nwritten];
  }

  /** Once a pass of smbcli_read asks for nothing, the loop stands still: however many passes
      follow, as long as none fails they ask for nothing at the same place, and leave the buffer,
      the file, the block and so the whole state of the loop as they were. */
  method ReadStandsStill(file: RemoteFile, block: int, buf: array<byte>, at: nat, offset: nat, rest: nat, passes: nat)
    returns (ok: bool)
    requires at + rest <= buf.Length && Asked(block, rest) == 0
    modifies file`requests, file`faults, buf
    ensures buf[..] == old(buf[..])
    ensures ok ==> file.requests == old(file.requests) + Nothing(offset, passes)
    ensures passes > 0 && ok ==> ToInt(Asked(block, rest)) == 0
  {
    var b := block;
    ok := true;
    for i := 0 to passes
      invariant Asked(b, rest) == 0 && (i > 0 ==> b == 0) && buf[..] == old(buf[..])
      invariant file.requests == old(file.requests) + Nothing(offset, i)
    {
      var count, nread;
      ok, count, b, nread := ReadPass(file, b, buf, at, offset, rest);
      if !ok {
        return;
      }
      NothingMore(offset, i);
      SnocOn(old(file.requests), Nothing(offset, i), Request(offset, 0, 0));
    }
  }

  /** The same of smbcli_write. */
  method WriteStandsStill(file: RemoteFile, block: int, rest: seq<byte>, offset: nat, passes: nat) returns (ok: bool)
    requires Asked(block, |rest|) == 0
    modifies file
    ensures file.content == old(file.content)
    ensures ok ==> file.requests == old(file.requests) + Nothing(offset, passes)
  {
    var b := block;
    ok := true;
    for i := 0 to passes
      invariant Asked(b, |rest|) == 0 && (i > 0 ==> b == 0) && file.content == old(file.content)
      invariant file.requests == old(file.requests) + Nothing(offset, i)
    {
      var count, nwritten;
      ok, count, b, nwritten := WritePass(file, b, rest, offset);
      if !ok {
        return;
      }
      NothingMore(offset, i);
      SnocOn(old(file.requests), Nothing(offset, i), Request(offset, 0, 0));
    }
  }

  /** `n` requests that ask for nothing. */
  ghost function Nothing(offset: nat, n: nat): seq<Request> {
    seq(n, _ => Request(offset, 0, 0))
  }

  lemma NothingMore(offset: nat, n: nat)
    ensures Nothing(offset, n + 1) == Nothing(offset, n) + [Request(offset, 0, 0)]
  {
  }

  /** When a transfer of `size` bytes comes to stand still: never with a usable limit, always with
      an empty block, and where a size of whole multiples of 2^32 meets a negative one. */
  ghost predicate MaySpin(maxXmit: nat, size: nat, spins: bool, failed: bool) {
    && (spins ==> !Usable(maxXmit, size) && size > 0 && !failed)
    && (size > 0 && (Limit(maxXmit) == 0 || (Limit(maxXmit) < 0 && size % TWO_TO_THE_32 == 0)) ==> spins || failed)
  }

  /** The block size in the course of a transfer of which `total` bytes are done. */
  ghost predicate Paced(maxXmit: nat, size: nat, block: int, total: nat) {
    && block < TWO_TO_THE_31 && (Usable(maxXmit, size) ==> block > 0 || (block < 0 && size < TWO_TO_THE_31))
    && (if total == 0 then block == Limit(maxXmit) else Asked(Limit(maxXmit), size) > 0)
    && (Limit(maxXmit) > 0 ==> 0 < block <= Limit(maxXmit) && (block == Limit(maxXmit) || size - total <= block))
  }

  /** Every request asks for as much as the limit allows. */
  ghost predicate Ample(asked: seq<Request>, maxXmit: nat, offset: nat, size: nat) {
    asked == [] ||
    (var last := asked[|asked| - 1];
     && Ample(asked[..|asked| - 1], maxXmit, offset, size)
     && (Limit(maxXmit) > 0 ==> last.count == Min(Limit(maxXmit), offset + size - last.offset)))
  }

  /** What one more request keeps. */
  lemma PassOn(maxXmit: nat, size: nat, block: int, total: nat, asked: seq<Request>, offset: nat, q: Request)
    requires Paced(maxXmit, size, block, total) && total < size
    requires q.offset == offset + total && q.count == Asked(block, size - total) && q.done <= q.count
    requires Chained(asked, offset, offset + total) && Ample(asked, maxXmit, offset, size)
    ensures Chained(asked + [q], offset, offset + (total + q.done)) && Ample(asked + [q], maxXmit, offset, size)
    ensures q.done > 0 ==> Paced(maxXmit, size, ToInt(q.count), total + q.done)
    ensures if q.count > 0 then Asked(Limit(maxXmit), size) > 0 else MaySpin(maxXmit, size, true, false)
  {
    PacedOn(maxXmit, size, block, total, q.done);
    ChainedOn(asked, offset, offset + total, q);
    assert (asked + [q])[..|asked|] == asked;
  }

  lemma PacedStart(maxXmit: nat, size: nat)
    ensures Paced(maxXmit, size, Limit(maxXmit), 0)
  {
  }

  lemma PacedOn(maxXmit: nat, size: nat, block: int, total: nat, n: nat)
    requires Paced(maxXmit, size, block, total) && total < size && n <= Asked(block, size - total)
    ensures n > 0 ==> Paced(maxXmit, size, ToInt(Asked(block, size - total)), total + n)
    ensures if Asked(block, size - total) > 0 then Asked(Limit(maxXmit), size) > 0 else MaySpin(maxXmit, size, true, false)
    ensures Limit(maxXmit) > 0 ==> Asked(block, size - total) == Min(Limit(maxXmit), size - total)
  {
    if Usable(maxXmit, size) {
      UsableAsks(maxXmit, size, block, size - total);
    }
  }

  lemma NoSpin(maxXmit: nat, size: nat)
    requires Asked(Limit(maxXmit), size) > 0
    ensures MaySpin(maxXmit, size, false, false)
  {
  }

  /** One pass of the loop of smbcli_read, when `total` bytes are read. */
  method ReadRound(file: RemoteFile, maxXmit: nat, block: int, buf: array<byte>, total: nat, offset: nat, size: nat,
                   ghost before: seq<Request>, ghost asked: seq<Request>)
    returns (ok: bool, count: nat, block': int, nread: nat, ghost asked': seq<Request>)
    requires total < size <= buf.Length && Paced(maxXmit, size, block, total)
    requires Going(asked, offset, offset + total) && Ample(asked, maxXmit, offset, size)
    requires file.requests == before + asked
    modifies file`requests, file`faults, buf
    ensures nread <= count <= size - total && offset + total + nread <= Max(offset + total, |file.content|)
    ensures forall i :: 0 <= i < total || total + nread <= i < buf.Length ==> buf[i] == old(buf[i])
    ensures forall i :: total <= i < total + nread ==> offset + i < |file.content| && buf[i] == file.content[offset + i]
    ensures !ok ==> asked' == asked && file.faults == old(file.faults) + 1
    ensures ok ==> file.faults == old(file.faults) && asked' == asked + [Request(offset + total, count, nread)]
    ensures ok && count == 0 ==> MaySpin(maxXmit, size, true, false)
    ensures ok && count > 0 ==> Asked(Limit(maxXmit), size) > 0 && (nread > 0 ==> Paced(maxXmit, size, block', total + nread))
    ensures ok ==> Ended(asked', offset, offset + (total + nread), nread < count)
    ensures ok && nread == count ==> Going(asked', offset, offset + (total + nread))
    ensures ok && file.fullReads ==> nread == Min(count, Max(|file.content| - (offset + total), 0))
    ensures Ample(asked', maxXmit, offset, size) && file.requests == before + asked'
  {
    ok, count, block', nread := ReadPass(file, block, buf, total, offset + total, size - total);
    asked' := asked;
    if ok {
      ghost var request := Request(offset + total, count, nread);
      PassOn(maxXmit, size, block, total, asked, offset, request);
      GoingOn(asked, offset, offset + total, request);
      SnocOn(before, asked, request);
      asked' := asked + [request];
    }
  }

  /** smbcli_read. Where the loop would go on for ever without moving, `spins`. */
  method Read(file: RemoteFile, maxXmit: nat, buf: array<byte>, offset: nat, size: nat)
    returns (r: int, spins: bool, ghost asked: seq<Request>)
    requires size <= buf.Length
    modifies file`requests, file`faults, buf
    ensures file.requests == old(file.requests) + asked
    ensures -1 <= r <= size
    ensures r == -1 <==> file.faults != old(file.faults)
    ensures MaySpin(maxXmit, size, spins, r == -1) && Ample(asked, maxXmit, offset, size)
    ensures r >= 0 ==> forall i :: r <= i < buf.Length ==> buf[i] == old(buf[i])
    ensures r > 0 ==> offset + r <= |file.content| && buf[..r] == file.content[offset..offset + r]
    ensures r >= 0 && !spins ==> Ended(asked, offset, offset + r, r < size)
    ensures r >= 0 && !spins && file.fullReads ==> r == Min(size, Max(|file.content| - offset, 0))
  {
    asked, spins := [], false;
    var total := 0;
    if size == 0 {
      return 0, false, [];
    }
    var readsize := Limit(maxXmit);
    PacedStart(maxXmit, size);
    while total < size
      invariant 0 <= total <= size && (total == 0 || offset + total <= |file.content|)
      invariant Paced(maxXmit, size, readsize, total)
      invariant forall i :: 0 <= i < total ==> buf[i] == file.content[offset + i]
      invariant forall i :: total <= i < buf.Length ==> buf[i] == old(buf[i])
      invariant file.requests == old(file.requests) + asked
      invariant file.faults == old(file.faults)
      invariant Going(asked, offset, offset + total) && Ample(asked, maxXmit, offset, size)
      decreases size - total
    {
      var ok, count, block, nread;
      ok, count, block, nread, asked := ReadRound(file, maxXmit, readsize, buf, total, offset, size, old(file.requests), asked);
      if !ok {
        return -1, false, asked;
      }
      readsize, total := block, total + nread;
      if nread < count {
        break;
      }
      if count == 0 {
        spins := true;
        break;
      }
    }
    r := total;
    if !spins {
      NoSpin(maxXmit, size);
    }
    SameSlices(buf[..], file.content, offset, total);
  }

  /** The requests went on from each other, and none was answered short. */
  predicate Going(requests: seq<Request>, offset: nat, end: nat) {
    Chained(requests, offset, end) && AllFull(requests)
  }

  /** The requests went on from each other, and only the last may have been answered short. */
  predicate Ended(requests: seq<Request>, offset: nat, end: nat, short: bool) {
    Chained(requests, offset, end) && FullButLast(requests) && (short <==> EndsShort(requests))
  }

  lemma GoingOn(requests: seq<Request>, offset: nat, end: nat, r: Request)
    requires Going(requests, offset, end) && r.offset == end && r.done <= r.count
    ensures r.done == r.count ==> Going(requests + [r], offset, end + r.done)
    ensures Ended(requests + [r], offset, end + r.done, r.done < r.count)
  {
    ChainedOn(requests, offset, end, r);
    FullOn(requests, r);
  }

  lemma FullOn(requests: seq<Request>, r: Request)
    requires AllFull(requests)
    ensures FullButLast(requests + [r]) && (EndsShort(requests + [r]) <==> r.done < r.count)
    ensures r.done == r.count ==> AllFull(requests + [r])
  {
  }

  /** What one acknowledged write adds to what was written before. */
  lemma UpdatedOn(file: seq<byte>, before: seq<byte>, after: seq<byte>, offset: nat, buf: seq<byte>, done: nat, n: nat)
    requires done + n <= |buf| && before == Updated(file, offset, buf[..done])
    requires after == Updated(before, offset + done, buf[done..][..n])
    ensures after == Updated(file, offset, buf[..done + n])
  {
    SliceOfSlice(buf, done, n);
    WrittenAfter(file, before, after, offset, buf[..done], buf[done..][..n], buf[..done + n]);
  }

  lemma WrittenAfter(file: seq<byte>, before: seq<byte>, after: seq<byte>, offset: nat, a: seq<byte>, b: seq<byte>, ab: seq<byte>)
    requires before == Updated(file, offset, a) && after == Updated(before, offset + |a|, b) && ab == a + b
    ensures after == Updated(file, offset, ab)
  {
    UpdatedTwice(file, offset, a, b);
  }

  /** One pass of the loop of smbcli_write, when `done` bytes of the buffer are written. */
  method WriteRound(file: RemoteFile, maxXmit: nat, block: int, buf: seq<byte>, done: nat, offset: nat,
                    ghost was: seq<byte>, ghost before: seq<Request>, ghost asked: seq<Request>)
    returns (ok: bool, count: nat, block': int, nwritten: nat, ghost asked': seq<Request>)
    requires done < |buf| && Paced(maxXmit, |buf|, block, done)
    requires Chained(asked, offset, offset + done) && Ample(asked, maxXmit, offset, |buf|)
    requires file.content == Updated(was, offset, buf[..done]) && file.requests == before + asked
    modifies file
    ensures !ok ==> asked' == asked && nwritten == 0 && file.faults == old(file.faults) + 1
    ensures ok ==> file.faults == old(file.faults) && asked' == asked + [Request(offset + done, count, nwritten)]
    ensures ok && count == 0 ==> nwritten == 0 && MaySpin(maxXmit, |buf|, true, false)
    ensures ok && count > 0 ==> nwritten > 0 && Paced(maxXmit, |buf|, block', done + nwritten) && Asked(Limit(maxXmit), |buf|) > 0
    ensures done + nwritten <= |buf| && file.content == Updated(was, offset, buf[..done + nwritten])
    ensures Chained(asked', offset, offset + (done + nwritten)) && Ample(asked', maxXmit, offset, |buf|)
    ensures file.requests == before + asked'
  {
    ghost var content := file.content;
    ok, count, block', nwritten := WritePass(file, block, buf[done..], offset + done);
    UpdatedOn(was, content, file.content, offset, buf, done, nwritten);
    asked' := asked;
    if ok {
      ghost var request := Request(offset + done, count, nwritten);
      PassOn(maxXmit, |buf|, block, done, asked, offset, request);
      SnocOn(before, asked, request);
      asked' := asked + [request];
    }
  }

  /** smbcli_write: one update of the file. A write that fails leaves a part of it behind. */
  method Write(file: RemoteFile, maxXmit: nat, buf: seq<byte>, offset: nat)
    returns (r: int, spins: bool, ghost asked: seq<Request>, ghost total: nat)
    modifies file
    ensures file.requests == old(file.requests) + asked
    ensures r == -1 || r == |buf| || spins
    ensures r == -1 <==> file.faults != old(file.faults)
    ensures MaySpin(maxXmit, |buf|, spins, r == -1) && Ample(asked, maxXmit, offset, |buf|)
    ensures total <= |buf| && (r == |buf| <==> total == |buf|) && (spins ==> total < |buf|)
    ensures file.content == Updated(old(file.content), offset, buf[..total])
    ensures r == |buf| ==> file.content == Updated(old(file.content), offset, buf)
    ensures Chained(asked, offset, offset + total)
  {
    asked, total, spins := [], 0, false;
    var done := 0;
    if buf == [] {
      return 0, false, [], 0;
    }
    var block := Limit(maxXmit);
    PacedStart(maxXmit, |buf|);
    while done < |buf|
      invariant 0 <= done <= |buf|
      invariant Paced(maxXmit, |buf|, block, done)
      invariant file.content == Updated(old(file.content), offset, buf[..done])
      invariant file.requests == old(file.requests) + asked
      invariant Chained(asked, offset, offset + done) && file.faults == old(file.faults)
      invariant Ample(asked, maxXmit, offset, |buf|)
      decreases |buf| - done
    {
      var ok, count, next, nwritten;
      ok, count, next, nwritten, asked := WriteRound(file, maxXmit, block, buf, done, offset, old(file.content), old(file.requests), asked);
      if !ok {
        return -1, false, asked, done;
      }
      block, done := next, done + nwritten;
      if count == 0 {
        return done, true, asked, done;
      }
    }
    NoSpin(maxXmit, |buf|);
    assert buf[..done] == buf;
    r, total := done, done;
  }

  lemma SnocOn<T>(a: seq<T>, b: seq<T>, x: T)
    ensures a + b + [x] == a + (b + [x])
  {
  }

  lemma SliceOfSlice<T>(s: seq<T>, i: nat, n: nat)
    requires i + n <= |s|
    ensures s[..i] + s[i..][..n] == s[..i + n]
  {
  }
}
