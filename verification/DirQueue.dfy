/**
 The directory queue of smbclient: a FIFO of NUL-terminated strings packed into one char
 buffer, which doubles when it overflows and slides back when its start passes the middle.
 */
module DirQueue {
  import opened Common

  const INITIAL_SIZE := 1024

  ghost function Pack(entries: seq<string>): (packed: string)
    ensures entries == [] <==> packed == []
  {
    if entries == [] then [] else entries[0] + [NUL] + Pack(entries[1..])
  }

  lemma {:induction false} PackAppend(entries: seq<string>, e: string)
    ensures Pack(entries + [e]) == Pack(entries) + e + [NUL]
  {
    if entries == [] {
      assert Pack([e]) == e + [NUL] + Pack([]);
    } else {
      PackAppend(entries[1..], e);
      assert (entries + [e])[1..] == entries[1..] + [e];
    }
  }

  /** The packed bytes determine the entries: reading is the inverse of packing. */
  lemma {:induction false} PackInjective(a: seq<string>, b: seq<string>)
    requires forall e :: e in a || e in b ==> IsCString(e)
    requires Pack(a) == Pack(b)
    ensures a == b
  {
    if a != [] {
      HeadLength(a, |b[0]|);
      HeadLength(b, |a[0]|);
      assert a[0] == Pack(a)[..|a[0]|] == Pack(b)[..|b[0]|] == b[0];
      assert Pack(a)[|a[0]| + 1..] == Pack(a[1..]);
      assert Pack(b)[|b[0]| + 1..] == Pack(b[1..]);
      PackInjective(a[1..], b[1..]);
    }
  }

  /** The first NUL of the packed bytes ends the first entry. */
  lemma HeadLength(entries: seq<string>, k: nat)
    requires entries != [] && IsCString(entries[0])
    ensures |entries[0]| < |Pack(entries)| && Pack(entries)[|entries[0]|] == NUL
    ensures Pack(entries)[..|entries[0]|] == entries[0]
    ensures k < |Pack(entries)| && Pack(entries)[k] == NUL ==> k >= |entries[0]|
  {
    var p := Pack(entries);
    assert p == entries[0] + ([NUL] + Pack(entries[1..]));
    if k < |entries[0]| {
      assert p[k] == entries[0][k];
    }
  }

  class Queue {
    var buf: array<char>
    var size: nat
    var start: nat
    var end: nat
    ghost var contents: seq<string>

    ghost predicate Valid()
      reads this, buf
    {
      && 0 < size == buf.Length
      && start <= end <= size && (start == end ==> end == 0)
      && (forall e :: e in contents ==> IsCString(e))
      && buf[start..end] == Pack(contents)
    }

    /** The first byte of the buffer tells emptiness. */
    ghost predicate Right()
      reads this, buf
      requires Valid()
    {
      contents == [] <==> buf[0] == NUL
    }

    /** No entry is the empty string; then the first byte tells emptiness for ever. */
    ghost predicate Clean()
      reads this, buf
    {
      Valid() && "" !in contents && Right()
    }

    /** init_do_list_queue */
    constructor ()
      ensures Clean() && contents == [] && fresh(buf) && size == INITIAL_SIZE
    {
      size := INITIAL_SIZE;
      buf := new char[INITIAL_SIZE](_ => NUL);
      start, end, contents := 0, 0, [];
    }

    /** One doubling of add_to_do_list_queue: realloc, and clear the new half. */
    method Grow()
      requires Valid()
      modifies this`buf, this`size
      ensures Valid() && fresh(buf) && size == 2 * old(size)
      ensures buf[0] == old(buf[0])
    {
      var old_buf, n := buf, size;
      size := size * 2;
      buf := new char[size](i requires 0 <= i reads this, old_buf => if i < old_buf.Length then old_buf[i] else NUL);
      assert buf[start..end] == old_buf[start..end];
    }

    /** add_to_do_list_queue */
    method Add(entry: string)
      requires Valid() && IsCString(entry)
      modifies this, buf
      ensures Valid() && (buf == old(buf) || fresh(buf))
      ensures contents == old(contents) + [entry]
      ensures size == old(size) || end > size / 2
      ensures Right() <==> if old(contents) == [] then entry != "" else old(Right())
      ensures old(Clean()) && entry != "" ==> Clean()
    {
      var newEnd := end + |entry| + 1;
      while newEnd > size
        invariant Valid() && (buf == old(buf) || fresh(buf))
        invariant size == old(size) || newEnd > size / 2
        invariant end == old(end) && start == old(start) && contents == old(contents) && buf[0] == old(buf[0])
        decreases newEnd - size
      {
        Grow();
      }
      Append(entry);
    }

    /** The part of add_to_do_list_queue that stores the entry. */
    method Append(entry: string)
      requires Valid() && IsCString(entry) && end + |entry| + 1 <= size
      modifies this`end, this`contents, buf
      ensures Valid() && contents == old(contents) + [entry] && end == old(end) + |entry| + 1
      ensures buf[0] == if old(end) > 0 then old(buf[0]) else if entry == "" then NUL else entry[0]
    {
      ghost var packed := buf[start..end];
      CopyIn(end, entry);
      end := end + |entry| + 1;
      PackAppend(contents, entry);
      contents := contents + [entry];
      assert buf[start..end] == packed + entry + [NUL];
      if old(end) > 0 {
        assert buf[0] == buf[..old(end)][0];
      } else if entry != "" {
        assert buf[0] == buf[0..|entry|][0];
      }
    }

    /** safe_strcpy: the entry and its terminating NUL, at `at`. */
    method CopyIn(at: nat, entry: string)
      requires at + |entry| + 1 <= buf.Length
      modifies buf
      ensures buf[..at] == old(buf[..at])
      ensures buf[at..at + |entry|] == entry && buf[at + |entry|] == NUL
    {
      forall i | 0 <= i < |entry| {
        buf[at + i] := entry[i];
      }
      buf[at + |entry|] := NUL;
    }

    /** strlen(do_list_queue_head()) */
    method HeadLen() returns (n: nat)
      requires Valid() && contents != []
      ensures n == |contents[0]| && start + n < end
    {
      HeadLength(contents, 0);
      ghost var p := Pack(contents);
      assert forall i :: 0 <= i < end - start ==> buf[start + i] == p[i];
      n := 0;
      while buf[start + n] != NUL
        invariant n <= |contents[0]| && start + n < end
        decreases |contents[0]| - n
      {
        n := n + 1;
      }
      HeadLength(contents, n);
    }

    /** do_list_queue_head */
    method Head() returns (head: string)
      requires Valid() && contents != []
      ensures head == contents[0]
    {
      var n := HeadLen();
      HeadLength(contents, n);
      head := buf[start..start + n];
      assert head == buf[start..end][..n];
    }

    /** remove_do_list_queue_head */
    method Remove()
      requires Valid()
      modifies this, buf
      ensures Valid() && buf == old(buf)
      ensures contents == if old(contents) == [] then [] else old(contents)[1..]
      ensures old(contents) != [] ==> start <= size / 2
      ensures old(contents) == [] ==> (Right() <==> old(Right()))
      ensures old(contents) != [] ==>
        (Right() <==>
          contents == [] || if old(start + |contents[0]| + 1) > size / 2 then contents[0] != "" else old(Right()))
      ensures old(Clean()) ==> Clean()
    {
      if end > start {
        var n := HeadLen();
        ghost var packed := buf[start..end];
        start := start + n + 1;
        assert buf[start..end] == packed[n + 1..] == Pack(contents[1..]);
        contents := contents[1..];
        Adjust();
      }
    }

    /** adjust_do_list_queue */
    method Adjust()
      requires 0 < size == buf.Length && start <= end <= size
      requires (forall e :: e in contents ==> IsCString(e)) && buf[start..end] == Pack(contents)
      modifies this`start, this`end, buf
      ensures Valid() && start <= size / 2
      ensures Right() <==>
        contents == [] || if old(start) > size / 2 then contents[0] != "" else old(buf[0]) != NUL
    {
      if start == end {
        start, end := 0, 0;
        buf[0] := NUL;
      } else {
        FirstByte(contents);
        if start > size / 2 {
          ghost var packed := buf[start..end];
          forall i | 0 <= i < end - start {
            buf[i] := buf[start + i];
          }
          end := end - start;
          start := 0;
          assert buf[start..end] == packed;
        }
      }
    }

    /** do_list_queue_empty: it looks at the first byte of the buffer, not at `start`. */
    method IsEmpty() returns (empty: bool)
      requires Valid()
      ensures Right() <==> (empty <==> contents == [])
    {
      empty := buf[0] == NUL;
    }
  }

  lemma FirstByte(entries: seq<string>)
    requires entries != [] && IsCString(entries[0])
    ensures Pack(entries)[0] == NUL <==> entries[0] == ""
  {
    if entries[0] != "" {
      assert entries[0][0] in entries[0];
    }
  }

  /** An empty entry in an empty queue is there, and the queue claims to be empty. */
  method EmptyEntryExample() returns (q: Queue, empty: bool)
    ensures fresh(q) && q.Valid() && q.contents == [""] && empty
  {
    q := new Queue();
    q.Add("");
    empty := q.IsEmpty();
  }
}
