/**
 Paged directory listings: the client asks for page after page, each time from the last entry
 it has, and hands the entries to its caller when it has them all.
 */
module DirListing {
  import opened Common

  const MAX_MATCHES := 512
  const NUM_ASKED := 500

  /** An entry as a server sends it. The id is its resume information for old-style searches. */
  datatype Entry = Entry(name: string, shortName: string, size: nat, writeTime: nat, attrib: nat, id: nat)

  /** clilist_file_info */
  datatype FileInfo = FileInfo(name: string, shortName: string, size: nat, mtime: nat, attrib: nat)

  datatype Level = Generic | Standard | BothDirectoryInfo | Search

  /** The levels of the newer searches. */
  type LongLevel = l: Level | l != Search witness Generic

  const ZERO_INFO := FileInfo("", "", 0, 0, 0)

  /** interpret_long_filename and interpret_short_filename: only one level has short names. */
  function Interpret(level: Level, e: Entry): FileInfo {
    FileInfo(e.name, if level == BothDirectoryInfo then e.shortName else e.name, e.size, e.writeTime, e.attrib)
  }

  function Infos(level: Level, entries: seq<Entry>): (r: seq<FileInfo>)
    ensures |r| == |entries|
    ensures forall i :: 0 <= i < |r| ==> r[i] == Interpret(level, entries[i])
  {
    seq(|entries|, i requires 0 <= i < |entries| => Interpret(level, entries[i]))
  }

  // ---------- The server ----------

  datatype Page = Page(entries: seq<Entry>, end: bool) | NoMoreFiles | Failure

  /** A search over the entries that the mask selects. Pages have any size up to what is asked,
      and any request can fail; a server that is `exhaustive` ends the search, by its end flag,
      by an empty page or by the status for it, only when there is nothing left. */
  class Server {
    const entries: seq<Entry>
    const exhaustive: bool
    ghost var faults: nat

    /** Entries differ by name, and by resume id. */
    ghost predicate Valid() {
      && (forall i, j :: 0 <= i < j < |entries| ==> entries[i].name != entries[j].name)
      && (forall i, j :: 0 <= i < j < |entries| ==> entries[i].id != entries[j].id)
    }

    /** `page` is an answer to a request for up to `max` entries from `from` on. */
    ghost predicate Answer(page: Page, from: nat, max: nat) {
      match page
      case Page(list, end) =>
        && |list| <= max && from + |list| <= |entries| && list == entries[from..from + |list|]
        && (exhaustive && (end || list == []) ==> from + |list| == |entries|)
      case NoMoreFiles => exhaustive ==> from == |entries|
      case Failure => true
    }

    method Give(from: nat, max: nat) returns (page: Page)
      requires from <= |entries| && max > 0
      modifies this
      ensures Answer(page, from, max) && faults == old(faults) + if page == Failure then 1 else 0
    {
      var ok: bool := *;
      if !ok {
        faults := faults + 1;
        return Failure;
      }
      var end: bool := *;
      if end && (from == |entries| || !exhaustive) {
        return NoMoreFiles;
      }
      var most := Min(max, |entries| - from);
      var n: nat :| n <= most && (exhaustive && n == 0 ==> most == 0);
      var last: bool := *;
      return Page(entries[from..from + n], last && (!exhaustive || from + n == |entries|));
    }

    method SearchFirst(max: nat) returns (page: Page)
      requires max > 0
      modifies this
      ensures Answer(page, 0, max) && faults == old(faults) + if page == Failure then 1 else 0
    {
      page := Give(0, max);
    }

    /** The search goes on after the entry with that name. */
    method SearchNextByName(lastName: string, max: nat, ghost at: nat) returns (page: Page)
      requires Valid() && max > 0 && at < |entries| && entries[at].name == lastName
      modifies this
      ensures Answer(page, at + 1, max) && faults == old(faults) + if page == Failure then 1 else 0
    {
      var i := 0;
      while entries[i].name != lastName
        invariant 0 <= i <= at
        decreases at - i
      {
        i := i + 1;
      }
      page := Give(i + 1, max);
    }

    /** The search goes on after the entry with that id. */
    method SearchNextById(id: nat, max: nat, ghost at: nat) returns (page: Page)
      requires Valid() && max > 0 && at < |entries| && entries[at].id == id
      modifies this
      ensures Answer(page, at + 1, max) && faults == old(faults) + if page == Failure then 1 else 0
    {
      var i := 0;
      while entries[i].id != id
        invariant 0 <= i <= at
        decreases at - i
      {
        i := i + 1;
      }
      page := Give(i + 1, max);
    }
  }

  // ---------- The client ----------

  /** search_private */
  class SearchState {
    const level: Level
    var dirlist: seq<FileInfo>
    var dirlistLen: nat
    var totalReceived: nat
    var ffSearchcount: nat
    var lastName: string
    var id: nat

    /** The list is exactly as long as what was received. */
    ghost predicate Valid()
      reads this
    {
      dirlistLen == totalReceived == |dirlist|
    }

    /** The first `n` entries were received, and the search goes on after the last of them. */
    ghost predicate Holds(entries: seq<Entry>, n: nat)
      reads this
      requires n <= |entries|
    {
      && Valid() && dirlist == Infos(level, entries[..n])
      && (n > 0 ==> lastName == entries[n - 1].name && id == entries[n - 1].id)
    }

    constructor (level: Level)
      ensures this.level == level && dirlist == [] && Valid()
    {
      this.level := level;
      dirlist, dirlistLen, totalReceived, ffSearchcount, lastName, id := [], 0, 0, 0, "", 0;
    }

    /** smbcli_list_new_callback and smbcli_list_old_callback */
    method Callback(file: Entry)
      requires Valid()
      modifies this
      ensures Valid() && dirlist == old(dirlist) + [Interpret(level, file)]
      ensures lastName == file.name && id == file.id && ffSearchcount == old(ffSearchcount) + 1
    {
      dirlist := dirlist + [ZERO_INFO];
      dirlistLen := dirlistLen + 1;
      dirlist := dirlist[totalReceived := Interpret(level, file)];
      lastName := dirlist[totalReceived].name;
      id := file.id;
      totalReceived := totalReceived + 1;
      ffSearchcount := ffSearchcount + 1;
    }

    /** The callback on every entry of a page. */
    method Take(page: seq<Entry>, ghost entries: seq<Entry>, ghost from: nat)
      requires from + |page| <= |entries| && page == entries[from..from + |page|] && Holds(entries, from)
      modifies this
      ensures Holds(entries, from + |page|)
    {
      ffSearchcount := 0;
      var i := 0;
      while i < |page|
        invariant 0 <= i <= |page| && Holds(entries, from + i)
      {
        Callback(page[i]);
        InfosAppend(level, entries, from + i);
        i := i + 1;
      }
    }
  }

  lemma InfosAppend(level: Level, entries: seq<Entry>, n: nat)
    requires n < |entries|
    ensures Infos(level, entries[..n + 1]) == Infos(level, entries[..n]) + [Interpret(level, entries[n])]
  {
  }

  /** The caller's function, which notes what it is called with. */
  class Caller {
    var calls: seq<(FileInfo, string)>

    constructor ()
      ensures calls == []
    {
      calls := [];
    }

    method Fn(info: FileInfo, mask: string)
      modifies this
      ensures calls == old(calls) + [(info, mask)]
    {
      calls := calls + [(info, mask)];
    }
  }

  function Calls(infos: seq<FileInfo>, mask: string): seq<(FileInfo, string)> {
    seq(|infos|, i requires 0 <= i < |infos| => (infos[i], mask))
  }

  /** The loop at the end: one call for each entry received. */
  method CallAll(state: SearchState, mask: string, caller: Caller)
    requires state.Valid()
    modifies caller
    ensures caller.calls == old(caller.calls) + Calls(state.dirlist, mask)
  {
    for i := 0 to state.totalReceived
      invariant caller.calls == old(caller.calls) + Calls(state.dirlist[..i], mask)
    {
      caller.Fn(state.dirlist[i], mask);
      assert Calls(state.dirlist[..i + 1], mask) == Calls(state.dirlist[..i], mask) + [(state.dirlist[i], mask)];
    }
    assert state.dirlist[..state.totalReceived] == state.dirlist;
  }

  /** The first `r` entries were handed over, in order, each with its own fields; the short name is
      the name itself where the level has none. */
  ghost predicate Handed(entries: seq<Entry>, level: Level, mask: string, r: nat, before: seq<(FileInfo, string)>,
                         after: seq<(FileInfo, string)>)
    requires r <= |entries|
  {
    && before <= after && |after| == |before| + r
    && forall i :: 0 <= i < r ==>
         var (info, m), e := after[|before| + i], entries[i];
         && m == mask && info.name == e.name && info.size == e.size && info.mtime == e.writeTime && info.attrib == e.attrib
         && info.shortName == if level == BothDirectoryInfo then e.shortName else e.name
  }

  lemma CallsHand(entries: seq<Entry>, level: Level, mask: string, r: nat, before: seq<(FileInfo, string)>)
    requires r <= |entries|
    ensures Handed(entries, level, mask, r, before, before + Calls(Infos(level, entries[..r]), mask))
  {
    var calls := Calls(Infos(level, entries[..r]), mask);
    forall i | 0 <= i < r ensures (before + calls)[|before| + i] == (Interpret(level, entries[i]), mask) {
      assert (before + calls)[|before| + i] == calls[i];
    }
  }

  /** What a listing has done when it returned `r`: the first `r` entries were handed over in the
      server's order, all of them if the server ends only when it is exhausted; or it failed
      before any call. */
  ghost predicate Listed(server: Server, level: Level, mask: string, r: int, before: seq<(FileInfo, string)>,
                         after: seq<(FileInfo, string)>) {
    if r < 0 then r == -1 && after == before
    else r <= |server.entries| && Handed(server.entries, level, mask, r, before, after)
         && (server.exhaustive ==> r == |server.entries|)
  }

  /** smbcli_list_new. The status for no more files is an error to it. */
  method ListNew(server: Server, mask: string, level: LongLevel, ntSmbs: bool, caller: Caller)
    returns (r: int, ghost page: Page)
    requires server.Valid()
    modifies server, caller
    ensures r == -1 <==> !page.Page?
    ensures page == Failure <==> server.faults != old(server.faults)
    ensures Listed(server, if level == Generic then (if ntSmbs then BothDirectoryInfo else Standard) else level,
                   mask, r, old(caller.calls), caller.calls)
  {
    var ownLevel := if level == Generic then (if ntSmbs then BothDirectoryInfo else Standard) else level;
    var state := new SearchState(ownLevel);
    ghost var n := 0;
    var first := true;
    while true
      invariant fresh(state) && n <= |server.entries| && state.Holds(server.entries, n)
      invariant first <==> n == 0
      invariant caller.calls == old(caller.calls) && server.faults == old(server.faults)
      decreases |server.entries| - n
    {
      var answer;
      if first {
        answer := server.SearchFirst(MAX_MATCHES);
      } else {
        answer := server.SearchNextByName(state.lastName, MAX_MATCHES, n - 1);
      }
      page := answer;
      if !answer.Page? {
        return -1, page;
      }
      state.Take(answer.entries, server.entries, n);
      n := n + |answer.entries|;
      if answer.entries == [] || answer.end {
        break;
      }
      first := false;
    }
    CallAll(state, mask, caller);
    CallsHand(server.entries, state.level, mask, n, old(caller.calls));
    r := state.totalReceived;
  }

  /** smbcli_list_old: the status for no more files ends the search, but not on the first page. */
  method ListOld(server: Server, mask: string, caller: Caller) returns (r: int, ghost firstPage: Page)
    requires server.Valid()
    modifies server, caller
    ensures r == -1 <==> firstPage == NoMoreFiles || server.faults != old(server.faults)
    ensures Listed(server, Search, mask, r, old(caller.calls), caller.calls)
  {
    firstPage := Failure;
    var state := new SearchState(Search);
    ghost var n := 0;
    var first := true;
    while true
      invariant fresh(state) && n <= |server.entries| && state.Holds(server.entries, n) && state.level == Search
      invariant first <==> n == 0
      invariant caller.calls == old(caller.calls) && server.faults == old(server.faults)
      invariant !first ==> firstPage != NoMoreFiles
      decreases |server.entries| - n
    {
      var page;
      if first {
        page := server.SearchFirst(NUM_ASKED);
        firstPage := page;
      } else {
        page := server.SearchNextById(state.id, NUM_ASKED, n - 1);
        if page.NoMoreFiles? {
          break;
        }
      }
      if !page.Page? {
        return -1, firstPage;
      }
      state.Take(page.entries, server.entries, n);
      n := n + |page.entries|;
      if page.entries == [] {
        break;
      }
      first := false;
    }
    CallAll(state, mask, caller);
    CallsHand(server.entries, state.level, mask, n, old(caller.calls));
    r := state.totalReceived;
  }

  /** smbcli_list: either form, by the protocol. */
  method List(server: Server, mask: string, oldProtocol: bool, ntSmbs: bool, caller: Caller) returns (r: int)
    requires server.Valid()
    modifies server, caller
    ensures Listed(server, if oldProtocol then Search else if ntSmbs then BothDirectoryInfo else Standard,
                   mask, r, old(caller.calls), caller.calls)
  {
    if oldProtocol {
      ghost var first;
      r, first := ListOld(server, mask, caller);
    } else {
      ghost var last;
      r, last := ListNew(server, mask, Generic, ntSmbs, caller);
    }
  }
}
