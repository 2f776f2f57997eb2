/**
 The LF to CRLF translation of smbclient: readfile encodes a local file chunk by chunk for
 `put`, writefile decodes the chunks that `get` receives.
 */
module TextTranslation {
  import opened Common
  import opened ClientIo

  const LF: byte := 10
  const CR: byte := 13

  function Encode(s: seq<byte>): (r: seq<byte>) {
    if s == [] then [] else (if s[0] == LF then [CR, LF] else [s[0]]) + Encode(s[1..])
  }

  function Decode(s: seq<byte>): (r: seq<byte>)
    ensures |r| <= |s|
  {
    if s == [] then []
    else if |s| >= 2 && s[0] == CR && s[1] == LF then [LF] + Decode(s[2..])
    else [s[0]] + Decode(s[1..])
  }

  function Concat(chunks: seq<seq<byte>>): (r: seq<byte>) {
    if chunks == [] then [] else chunks[0] + Concat(chunks[1..])
  }

  /** writefile on each chunk in turn. */
  function DecodeChunks(chunks: seq<seq<byte>>): (r: seq<byte>) {
    if chunks == [] then [] else Decode(chunks[0]) + DecodeChunks(chunks[1..])
  }

  /** A CR at the end of `a` is separated from the LF at the start of `b`. */
  predicate Splits(a: seq<byte>, b: seq<byte>) {
    a != [] && b != [] && a[|a| - 1] == CR && b[0] == LF
  }

  /** Some chunk boundary separates a CR from its LF. */
  predicate SplitsPair(chunks: seq<seq<byte>>) {
    chunks != [] && (Splits(chunks[0], Concat(chunks[1..])) || SplitsPair(chunks[1..]))
  }

  // ---------- The functions ----------

  /** Decoding undoes encoding, whatever CR or CRLF the original already contains. */
  lemma {:induction false} RoundTrip(s: seq<byte>)
    ensures Decode(Encode(s)) == s
  {
    if s != [] {
      var t := Encode(s[1..]);
      RoundTrip(s[1..]);
      EncodeHead(s[1..]);
      if s[0] == LF {
        assert Encode(s) == [CR, LF] + t && Encode(s)[2..] == t;
      } else {
        assert Encode(s) == [s[0]] + t && Encode(s)[1..] == t;
      }
    }
  }

  /** In an encoding no LF (10) stands without a CR (13) before it, and it is longer by the number
      of LFs. */
  lemma {:induction false} EncodeShape(s: seq<byte>)
    ensures |Encode(s)| == |s| + multiset(s)[10]
    ensures forall i :: 0 <= i < |Encode(s)| && Encode(s)[i] == 10 ==> i > 0 && Encode(s)[i - 1] == 13
  {
    if s != [] {
      EncodeShape(s[1..]);
      assert s == [s[0]] + s[1..];
      var t, unit := Encode(s[1..]), if s[0] == LF then [CR, LF] else [s[0]];
      assert Encode(s) == unit + t;
      forall i | 0 <= i < |Encode(s)| && Encode(s)[i] == 10 ensures i > 0 && Encode(s)[i - 1] == 13 {
        if i >= |unit| {
          assert t[i - |unit|] == 10 && t[i - |unit| - 1] == 13;
        }
      }
    }
  }

  /** An encoding never starts with a bare LF. */
  lemma EncodeHead(s: seq<byte>)
    ensures Encode(s) != [] ==> Encode(s)[0] != LF
    ensures Encode(s) == [] <==> s == []
  {
  }

  lemma {:induction false} EncodeAppend(a: seq<byte>, b: seq<byte>)
    ensures Encode(a + b) == Encode(a) + Encode(b)
  {
    if a == [] {
      assert a + b == b;
    } else {
      assert (a + b)[1..] == a[1..] + b;
      EncodeAppend(a[1..], b);
    }
  }

  predicate PairAhead(s: seq<byte>) {
    |s| >= 2 && s[0] == CR && s[1] == LF
  }

  /** Decoding distributes over a cut that splits no CRLF. */
  lemma {:induction false} DecodeAppend(a: seq<byte>, b: seq<byte>)
    requires !Splits(a, b)
    ensures Decode(a + b) == Decode(a) + Decode(b)
    decreases |a|
  {
    var s := a + b;
    if a == [] {
      assert s == b;
    } else {
      assert PairAhead(s) <==> PairAhead(a);
      var n := if PairAhead(a) then 2 else 1;
      assert s[n..] == a[n..] + b;
      DecodeAppend(a[n..], b);
    }
  }

  /** The two sides of a split CRLF decode to one byte more than the whole. */
  lemma {:induction false} DecodeSplit(a: seq<byte>, b: seq<byte>)
    requires Splits(a, b)
    ensures |Decode(a)| + |Decode(b)| == |Decode(a + b)| + 1
    decreases |a|
  {
    var s := a + b;
    if |a| == 1 {
      assert PairAhead(s) && s[2..] == b[1..] && a[1..] == [];
    } else {
      assert PairAhead(s) <==> PairAhead(a);
      var n := if PairAhead(a) then 2 else 1;
      assert s[n..] == a[n..] + b;
      DecodeSplit(a[n..], b);
    }
  }

  lemma {:induction false} ChunksLength(chunks: seq<seq<byte>>)
    ensures |DecodeChunks(chunks)| >= |Decode(Concat(chunks))|
    ensures SplitsPair(chunks) ==> |DecodeChunks(chunks)| > |Decode(Concat(chunks))|
    ensures !SplitsPair(chunks) ==> DecodeChunks(chunks) == Decode(Concat(chunks))
  {
    if chunks != [] {
      ChunksLength(chunks[1..]);
      if Splits(chunks[0], Concat(chunks[1..])) {
        DecodeSplit(chunks[0], Concat(chunks[1..]));
      } else {
        DecodeAppend(chunks[0], Concat(chunks[1..]));
      }
    }
  }

  /** Decoding chunk by chunk is decoding the whole, if and only if no boundary splits a CRLF. */
  lemma DecodeChunksIff(chunks: seq<seq<byte>>)
    ensures DecodeChunks(chunks) == Decode(Concat(chunks)) <==> !SplitsPair(chunks)
  {
    ChunksLength(chunks);
  }

  /** `put` and then `get`: the original comes back from any re-chunking of the encoded file,
      if and only if that chunking splits no CRLF. */
  lemma PutGet(original: seq<byte>, chunks: seq<seq<byte>>)
    requires Concat(chunks) == Encode(original)
    ensures DecodeChunks(chunks) == original <==> !SplitsPair(chunks)
  {
    DecodeChunksIff(chunks);
    RoundTrip(original);
  }

  /** Chunks that encode pieces of a file never split a CRLF. */
  lemma {:induction false} EncodedChunksAreWhole(pieces: seq<seq<byte>>, chunks: seq<seq<byte>>)
    requires |pieces| == |chunks| && forall i :: 0 <= i < |pieces| ==> chunks[i] == Encode(pieces[i])
    ensures Concat(chunks) == Encode(Concat(pieces)) && !SplitsPair(chunks)
  {
    if pieces != [] {
      EncodedChunksAreWhole(pieces[1..], chunks[1..]);
      EncodeAppend(pieces[0], Concat(pieces[1..]));
      EncodeHead(Concat(pieces[1..]));
    }
  }

  // ---------- The loops ----------

  /** A local file opened for reading. */
  class XFile {
    const data: seq<byte>
    var pos: nat
    var eof: bool

    ghost predicate Valid()
      reads this
    {
      pos <= |data| && (eof ==> pos == |data|)
    }

    constructor (data: seq<byte>)
      ensures Valid() && this.data == data && pos == 0 && !eof
    {
      this.data := data;
      pos, eof := 0, false;
    }

    /** x_getc */
    method GetC() returns (c: Option<byte>)
      requires Valid()
      modifies this
      ensures Valid()
      ensures old(pos) < |data| ==> c == Some(data[old(pos)]) && pos == old(pos) + 1 && eof == old(eof)
      ensures old(pos) == |data| ==> c == None && pos == old(pos) && eof
    {
      if pos < |data| {
        c := Some(data[pos]);
        pos := pos + 1;
      } else {
        c, eof := None, true;
      }
    }

    /** x_fread */
    method Read(b: array<byte>, n: nat) returns (count: nat)
      requires Valid() && n <= b.Length
      modifies this, b
      ensures Valid() && count == Min(n, |data| - old(pos)) && pos == old(pos) + count
      ensures b[..count] == data[old(pos)..pos] && (count < n ==> eof)
    {
      count := Min(n, |data| - pos);
      forall i | 0 <= i < count {
        b[i] := data[pos + i];
      }
      pos := pos + count;
      if count < n {
        eof := true;
      }
    }
  }

  /** readfile: it reads "approx n bytes"; with translation every chunk is the encoding of the
      piece of the file it consumed, and fits in `n` bytes. */
  method ReadFile(b: array<byte>, n: nat, f: XFile, translation: bool) returns (i: nat)
    requires f.Valid() && n <= b.Length
    modifies f, b
    ensures f.Valid() && i <= n && old(f.pos) <= f.pos
    ensures b[..i] == if translation then Encode(f.data[old(f.pos)..f.pos]) else f.data[old(f.pos)..f.pos]
    ensures f.eof || i + 1 >= n
    ensures n >= 2 && !old(f.eof) ==> f.eof || f.pos > old(f.pos)
  {
    if !translation {
      i := f.Read(b, n);
      return;
    }
    i := 0;
    ghost var from := f.pos;
    assert f.data[from..from] == [];
    while i + 1 < n
      invariant f.Valid() && from <= f.pos && i <= n && f.eof == old(f.eof)
      invariant b[..i] == Encode(f.data[from..f.pos])
      invariant i > 0 ==> f.pos > from
      decreases |f.data| - f.pos
    {
      ghost var before, chunk := f.pos, b[..i];
      var c := f.GetC();
      if c.None? {
        break;
      }
      EncodeAppend(f.data[from..before], [c.value]);
      assert f.data[from..before] + [c.value] == f.data[from..f.pos];
      if c.value == LF {
        b[i] := CR;
        i := i + 1;
      }
      b[i] := c.value;
      i := i + 1;
      assert Encode([c.value]) == if c.value == LF then [CR, LF] else [c.value];
      assert b[..i] == chunk + Encode([c.value]);
    }
  }

  /** The local file that writefile writes to; a write of one byte may fail. */
  class OutFile {
    var contents: seq<byte>
    ghost var faults: nat

    constructor ()
      ensures contents == [] && faults == 0
    {
      contents, faults := [], 0;
    }

    method Write(s: seq<byte>) returns (count: nat)
      modifies this
      ensures count <= |s| && contents == old(contents) + s[..count]
      ensures faults == if count < |s| then old(faults) + 1 else old(faults)
    {
      count :| 0 <= count <= |s|;
      contents := contents + s[..count];
      if count < |s| {
        faults := faults + 1;
      }
    }
  }

  /** writefile: a result of |b| means that everything was written. A write that fails after a
      CR was skipped has still counted the CR. */
  method WriteFile(f: OutFile, b: seq<byte>, translation: bool) returns (i: nat, ghost done: nat)
    modifies f
    ensures done <= i <= |b| && i <= done + 1 && (i == |b| <==> f.faults == old(f.faults))
    ensures f.faults >= old(f.faults)
    ensures !translation ==> f.contents == old(f.contents) + b[..i]
    ensures translation ==> f.contents == old(f.contents) + Decode(b[..done])
    ensures translation && i == |b| ==> f.contents == old(f.contents) + Decode(b)
  {
    done := 0;
    if !translation {
      i := f.Write(b);
      done := i;
      return;
    }
    i := 0;
    assert b[..0] == [] && b[0..] == b;
    while i < |b|
      invariant done == i <= |b| && !Splits(b[..i], b[i..])
      invariant f.contents == old(f.contents) + Decode(b[..i])
      invariant f.faults == old(f.faults)
    {
      if b[i] == CR && i < |b| - 1 && b[i + 1] == LF {
        i := i + 1;
      }
      DecodeStep(b, done, i + 1);
      var count := f.Write([b[i]]);
      if count != 1 {
        return;
      }
      i := i + 1;
      done := i;
    }
    assert b[..i] == b;
  }

  /** One step of the decoder, at a position that splits no CRLF. */
  lemma DecodeStep(b: seq<byte>, i: nat, j: nat)
    requires i < j <= |b| && !Splits(b[..i], b[i..])
    requires j == if b[i] == CR && i < |b| - 1 && b[i + 1] == LF then i + 2 else i + 1
    ensures Decode(b[..j]) == Decode(b[..i]) + [b[j - 1]]
    ensures !Splits(b[..j], b[j..])
  {
    var unit := b[i..j];
    assert b[..j] == b[..i] + unit;
    DecodeAppend(b[..i], unit);
    assert unit[|unit|..] == [];
  }

  lemma {:induction false} ConcatAppend(chunks: seq<seq<byte>>, c: seq<byte>)
    ensures Concat(chunks + [c]) == Concat(chunks) + c
  {
    if chunks == [] {
      assert [c][1..] == [];
    } else {
      assert (chunks + [c])[1..] == chunks[1..] + [c];
      ConcatAppend(chunks[1..], c);
      Associates(chunks[0], Concat(chunks[1..]), c);
    }
  }

  lemma {:induction false} DecodeChunksAppend(chunks: seq<seq<byte>>, c: seq<byte>)
    ensures DecodeChunks(chunks + [c]) == DecodeChunks(chunks) + Decode(c)
  {
    if chunks == [] {
      assert [c][1..] == [];
    } else {
      assert (chunks + [c])[1..] == chunks[1..] + [c];
      DecodeChunksAppend(chunks[1..], c);
      Associates(Decode(chunks[0]), DecodeChunks(chunks[1..]), Decode(c));
    }
  }

  lemma SliceThen(s: seq<byte>, i: nat, j: nat)
    requires i <= j <= |s|
    ensures s[..j] == s[..i] + s[i..j]
  {
  }

  /** One chunk of do_put: the piece of the local file from `from` on is written behind what the
      server has, all of it or a part. */
  method PutChunk(f: XFile, ghost from: nat, chunk: seq<byte>, remote: RemoteFile, maxXmit: nat)
    returns (ret: int, spins: bool)
    requires f.Valid() && from <= f.pos && chunk == Encode(f.data[from..f.pos])
    requires remote.content == Encode(f.data[..from])
    modifies remote
    ensures remote.content <= Encode(f.data[..f.pos])
    ensures ret == |chunk| ==> remote.content == Encode(f.data[..f.pos])
    ensures ret == -1 <==> remote.faults != old(remote.faults)
    ensures ret == -1 || ret == |chunk| || spins
    ensures MaySpin(maxXmit, |chunk|, spins, ret == -1) && (spins ==> ret != |chunk|)
  {
    ghost var asked, total;
    ghost var before := remote.content;
    ret, spins, asked, total := ClientIo.Write(remote, maxXmit, chunk, |remote.content|);
    UpdatedAtEnd(before, chunk[..total]);
    SliceThen(f.data, from, f.pos);
    EncodeAppend(f.data[..from], f.data[from..f.pos]);
    assert chunk[..total] <= chunk;
    if ret == |chunk| {
      assert chunk[..total] == chunk;
    }
  }

  /** The transfer loop of do_put, into a file that was truncated, over a server that may write
      less than it is asked to, or fail. A `maxwrite` of one byte cannot make progress. */
  method PutFile(f: XFile, maxwrite: nat, remote: RemoteFile, maxXmit: nat) returns (rc: int, spins: bool)
    requires f.Valid() && f.pos == 0 && !f.eof && maxwrite > 0 && remote.content == []
    modifies f, remote
    ensures remote.content <= Encode(f.data)
    ensures rc == 0 && !spins ==> remote.content == Encode(f.data)
    ensures maxwrite >= 2 && !spins ==> (rc == 0 <==> remote.faults == old(remote.faults))
    ensures spins ==> !Usable(maxXmit, maxwrite)
  {
    var buf := new byte[maxwrite];
    rc, spins := 0, false;
    assert f.data[..0] == [];
    while !f.eof
      invariant f.Valid() && remote.content == Encode(f.data[..f.pos]) && remote.faults == old(remote.faults)
      decreases |f.data| - f.pos, !f.eof
    {
      ghost var from := f.pos;
      var n := ReadFile(buf, maxwrite, f, true);
      SliceThen(f.data, from, f.pos);
      EncodeAppend(f.data[..from], f.data[from..f.pos]);
      EncodeHead(f.data[from..f.pos]);
      if n < 1 {
        PrefixOfWhole(f.data, f.pos);
        if n == 0 && f.eof {
          break;
        }
        return 1, false;
      }
      var ret;
      ret, spins := PutChunk(f, from, buf[..n], remote, maxXmit);
      PrefixOfWhole(f.data, f.pos);
      if spins {
        UsableLess(maxXmit, n, maxwrite);
        return 1, true;
      }
      if n != ret {
        return 1, false;
      }
    }
    assert f.data[..f.pos] == f.data;
  }

  lemma PrefixOfWhole(s: seq<byte>, n: nat)
    requires n <= |s|
    ensures Encode(s[..n]) <= Encode(s)
  {
    assert s == s[..n] + s[n..];
    EncodeAppend(s[..n], s[n..]);
  }

  lemma UsableLess(maxXmit: nat, n: nat, size: nat)
    requires n <= size && !Usable(maxXmit, n)
    ensures !Usable(maxXmit, size)
  {
  }

  /** No chunk is empty or too long; from a server that reads in full, all but the last are as long
      as they may be. */
  ghost predicate Sized(chunks: seq<seq<byte>>, readSize: nat, full: bool) {
    && (forall i :: 0 <= i < |chunks| ==> 0 < |chunks[i]| <= readSize)
    && (full ==> forall i :: 0 <= i < |chunks| - 1 ==> |chunks[i]| == readSize)
  }

  predicate Multiple(i: nat, n: nat)
    requires n > 0
  {
    i == 0 || (i >= n && Multiple(i - n, n))
  }

  lemma {:induction false} MultipleTimes(k: nat, n: nat)
    requires n > 0
    ensures Multiple(k * n, n)
  {
    if k > 0 {
      MultipleTimes(k - 1, n);
      assert (k - 1) * n + n == k * n;
    }
  }

  lemma {:induction false} MultipleIs(i: nat, n: nat) returns (k: nat)
    requires n > 0 && Multiple(i, n)
    ensures i == k * n
  {
    if i == 0 {
      k := 0;
    } else {
      k := MultipleIs(i - n, n);
      assert k * n + n == (k + 1) * n;
      k := k + 1;
    }
  }

  /** A CR and its LF stand on the two sides of a multiple of `n`. */
  predicate Straddles(s: seq<byte>, n: nat)
    requires n > 0
  {
    exists i :: 0 < i < |s| && Multiple(i, n) && s[i - 1] == CR && s[i] == LF
  }

  lemma StraddlesStep(s: seq<byte>, n: nat)
    requires n > 0
    ensures Straddles(s, n) <==> |s| > n && ((s[n - 1] == CR && s[n] == LF) || Straddles(s[n..], n))
  {
    if Straddles(s, n) {
      var i :| 0 < i < |s| && Multiple(i, n) && s[i - 1] == CR && s[i] == LF;
      if i > n {
        assert s[n..][i - n - 1] == CR && s[n..][i - n] == LF && Multiple(i - n, n);
      }
    }
    if |s| > n && s[n - 1] == CR && s[n] == LF {
      assert Multiple(n, n);
    }
    if |s| > n && Straddles(s[n..], n) {
      var i :| 0 < i < |s[n..]| && Multiple(i, n) && s[n..][i - 1] == CR && s[n..][i] == LF;
      assert s[i + n - 1] == CR && s[i + n] == LF && Multiple(i + n, n);
    }
  }

  /** Read in full chunks, a file has a pair split exactly if one straddles a chunk boundary. */
  lemma {:induction false} SizedStraddles(chunks: seq<seq<byte>>, n: nat)
    requires n > 0 && Sized(chunks, n, true)
    ensures SplitsPair(chunks) <==> Straddles(Concat(chunks), n)
  {
    StraddlesStep(Concat(chunks), n);
    if |chunks| > 1 {
      var rest := Concat(chunks[1..]);
      SizedStraddles(chunks[1..], n);
      assert |chunks[1..][0]| > 0;
      assert Concat(chunks)[n..] == rest && Concat(chunks)[n - 1] == chunks[0][n - 1] && Concat(chunks)[n] == rest[0];
    } else if |chunks| == 1 {
      assert chunks[1..] == [] && Concat(chunks) == chunks[0] + [];
    }
  }

  lemma ChunksOn(chunks: seq<seq<byte>>, chunk: seq<byte>, whole: seq<byte>, i: nat, n: nat)
    requires i + n <= |whole| && Concat(chunks) == whole[..i] && chunk == whole[i..i + n]
    ensures Concat(chunks + [chunk]) == whole[..i + n]
    ensures DecodeChunks(chunks + [chunk]) == DecodeChunks(chunks) + Decode(chunk)
  {
    ConcatAppend(chunks, chunk);
    DecodeChunksAppend(chunks, chunk);
    SliceThen(whole, i, i + n);
  }

  /** The transfer loop of do_get, from a file of the size that the server reported, over a server
      that may deliver less than it is asked for, or fail: `chunks` are the pieces that were read
      and written out. */
  method GetFile(remote: RemoteFile, maxXmit: nat, readSize: nat, f: OutFile)
    returns (rc: int, spins: bool, ghost chunks: seq<seq<byte>>)
    requires readSize > 0 && f.contents == []
    modifies remote`requests, remote`faults, f
    ensures Concat(chunks) <= remote.content
    ensures rc == 0 && !spins ==> f.contents == DecodeChunks(chunks)
    ensures !spins ==> (rc == 0 <==> Concat(chunks) == remote.content && f.faults == old(f.faults))
    ensures !spins && remote.fullReads && remote.faults == old(remote.faults) && f.faults == old(f.faults) ==> rc == 0
    ensures spins ==> !Usable(maxXmit, readSize)
    ensures Sized(chunks, readSize, remote.fullReads)
    // When the local file is the decoding of the remote one.
    ensures rc == 0 && !spins ==> (f.contents == Decode(remote.content) <==> !SplitsPair(chunks))
    ensures rc == 0 && !spins && remote.fullReads ==>
              (f.contents == Decode(remote.content) <==> !Straddles(remote.content, readSize))
  {
    rc, spins, chunks := 0, false, [];
    var size, nread := |remote.content|, 0;
    var data := new byte[readSize];
    while true
      invariant 0 <= nread <= size && Concat(chunks) == remote.content[..nread]
      invariant f.contents == DecodeChunks(chunks) && f.faults == old(f.faults) && remote.faults == old(remote.faults)
      invariant Sized(chunks, readSize, remote.fullReads)
      invariant remote.fullReads && chunks != [] ==> |chunks[|chunks| - 1]| == readSize || nread == size
      decreases size - nread
    {
      var n;
      ghost var asked;
      n, spins, asked := ClientIo.Read(remote, maxXmit, data, nread, readSize);
      if spins {
        return 1, true, chunks;
      }
      if n <= 0 {
        break;
      }
      var chunk := data[..n];
      var written, done := WriteFile(f, chunk, true);
      if written != n {
        rc := 1;
        break;
      }
      ChunksOn(chunks, chunk, remote.content, nread, n);
      chunks, nread := chunks + [chunk], nread + n;
    }
    assert remote.content[..nread] <= remote.content;
    if nread < size {
      rc := 1;
    }
    if nread == size {
      assert remote.content[..nread] == remote.content;
      DecodeChunksIff(chunks);
      if remote.fullReads {
        SizedStraddles(chunks, readSize);
      }
    }
  }

  /** A put of a file and then a get of what it made, from a server that reads in full: the file
      comes back exactly if no pair of its encoding straddles a multiple of the buffer's size. */
  method PutThenGet(f: XFile, remote: RemoteFile, maxXmit: nat, bufSize: nat, g: OutFile) returns (ok: bool)
    requires f.Valid() && f.pos == 0 && !f.eof && remote.content == [] && g.contents == []
    requires bufSize >= 2 && Usable(maxXmit, bufSize) && remote.fullReads
    modifies f, remote, g
    ensures ok ==> (g.contents == f.data <==> !Straddles(Encode(f.data), bufSize))
    ensures remote.faults == old(remote.faults) && g.faults == old(g.faults) ==> ok
  {
    var rc, spins := PutFile(f, bufSize, remote, maxXmit);
    if rc != 0 {
      return false;
    }
    ghost var chunks;
    rc, spins, chunks := GetFile(remote, maxXmit, bufSize, g);
    ok := rc == 0;
    RoundTrip(f.data);
  }

  /** With a buffer of two bytes, `A` and LF come back as `A`, CR and LF. */
  lemma StraddlesExample()
    ensures Straddles(Encode([65, LF]), 2) && DecodeChunks([[65, CR], [LF]]) == [65, CR, LF]
  {
    var s: seq<byte> := [65, LF];
    assert s[1..] == [LF] && s[1..][1..] == [];
    assert Encode(s[1..]) == [CR, LF] + Encode([]);
    assert Encode(s) == [65] + Encode(s[1..]) == [65, CR, LF];
    assert Multiple(2, 2) && Encode(s)[1] == CR && Encode(s)[2] == LF;
    var a, b: seq<byte> := [65, CR], [LF];
    assert a[1..] == [CR] && a[1..][1..] == [] && b[1..] == [];
    assert Decode(a[1..]) == [CR] + Decode([]) && Decode(b) == [LF] + Decode([]);
    assert Decode(a) == [65] + Decode(a[1..]);
    assert [a, b][1..] == [b] && [b][1..] == [];
    assert DecodeChunks([a, b]) == Decode(a) + (Decode(b) + DecodeChunks([]));
  }
}
