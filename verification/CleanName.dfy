/**
 dos_clean_name of smbclient: an in-place rewriting of a path that squeezes doubled
 separators, cancels `..` components and drops `.` components.
 */
module CleanName {
  import opened Common

  const SEP := '\\'

  predicate OccursAt(s: string, pat: string, i: int) {
    0 <= i <= |s| - |pat| && s[i..i + |pat|] == pat
  }

  /** strstr */
  function First(s: string, pat: string): (r: Option<nat>)
    ensures r.Some? ==> r.value + |pat| <= |s|
  {
    if |s| < |pat| then None
    else if s[..|pat|] == pat then Some(0)
    else Later(First(s[1..], pat), 1)
  }

  /** A position, seen from `n` characters earlier. */
  function Later(k: Option<nat>, n: nat): Option<nat> {
    match k case None => None case Some(i) => Some(i + n)
  }

  /** It is the first occurrence. */
  lemma {:induction false} FirstIsFirst(s: string, pat: string, i: nat)
    ensures First(s, pat).Some? ==> OccursAt(s, pat, First(s, pat).value)
    ensures OccursAt(s, pat, i) ==> First(s, pat).Some? && First(s, pat).value <= i
  {
    if |s| >= |pat| && s[..|pat|] != pat {
      FirstIsFirst(s[1..], pat, if i > 0 then i - 1 else 0);
      if i > 0 {
        OccursInSuffix(s, pat, 1, i - 1);
      }
      var r := First(s[1..], pat);
      if r.Some? {
        OccursInSuffix(s, pat, 1, r.value);
      }
    }
  }

  lemma OccursInSuffix(s: string, pat: string, from: nat, i: int)
    requires from <= |s| && i >= 0
    ensures OccursAt(s[from..], pat, i) <==> OccursAt(s, pat, from + i)
  {
    if i + |pat| <= |s| - from {
      assert s[from..][i..i + |pat|] == s[from + i..from + i + |pat|];
    }
  }

  predicate Contains(s: string, pat: string) {
    First(s, pat).Some?
  }

  /** strrchr */
  function Last(s: string, c: char): (r: Option<nat>)
    ensures r.Some? ==> r.value < |s|
  {
    if s == "" then None
    else if s[|s| - 1] == c then Some(|s| - 1)
    else Last(s[..|s| - 1], c)
  }

  function Sub(s: string, pat: string, ins: string): (r: string)
    requires 0 < |pat|
    ensures |ins| <= |pat| ==> |r| <= |s|
  {
    if |s| < |pat| then s
    else if s[..|pat|] == pat then ins + Sub(s[|pat|..], pat, ins)
    else [s[0]] + Sub(s[1..], pat, ins)
  }

  /** The loop that cancels `\name\..\`, and truncates when there is nothing to cancel. */
  function CancelDotDot(s: string): (r: string)
    ensures |r| <= |s|
    decreases |s|
  {
    match First(s, "\\..\\")
    case None => s
    case Some(p) =>
      match Last(s[..p], SEP)
      case None => s[..p]
      case Some(r) => CancelDotDot(s[..r] + s[p + 3..])
  }

  /** trim_string at the back. */
  function TrimBack(s: string, pat: string): (r: string)
    requires 0 < |pat|
    ensures r <= s
  {
    if |s| >= |pat| && s[|s| - |pat|..] == pat then TrimBack(s[..|s| - |pat|], pat) else s
  }

  /** dos_clean_name */
  function Clean(s: string): (r: string) {
    var squeezed := Sub(s, "\\\\", "\\");
    var cancelled := CancelDotDot(squeezed);
    var trimmed := TrimBack(cancelled, "\\..");
    Sub(trimmed, "\\.\\", "\\")
  }

  // ---------- The in-place code ----------

  /** The C string held in `a` is `s`. */
  ghost predicate Holds(a: array<char>, s: string)
    reads a
  {
    IsCString(s) && |s| < a.Length && a[..|s|] == s && a[|s|] == NUL
  }

  /** strlen(a + from), where the string found there is `s`. */
  method StrLen(a: array<char>, from: nat, ghost s: string) returns (n: nat)
    requires IsCString(s) && from + |s| < a.Length && a[from..from + |s|] == s && a[from + |s|] == NUL
    ensures n == |s|
  {
    n := 0;
    while a[from + n] != NUL
      invariant n <= |s|
      decreases |s| - n
    {
      n := n + 1;
    }
  }

  /** strncmp(&a[i], pat, strlen(pat)) == 0 */
  method MatchAt(a: array<char>, i: nat, pat: string, ghost s: string) returns (here: bool)
    requires Holds(a, s) && i + |pat| <= |s|
    ensures here == (s[i..i + |pat|] == pat)
  {
    SliceOf(a[..], s, i, |pat|);
    here := a[i..i + |pat|] == pat;
  }

  method StrStr(a: array<char>, from: nat, pat: string, ghost s: string) returns (r: Option<nat>)
    requires Holds(a, s) && from <= |s| && pat != ""
    ensures r.Some? ==> r.value >= from
    ensures (if r.Some? then Some(r.value - from) else None) == First(s[from..], pat)
  {
    var n: nat := StrLen(a, 0, s);
    var i: nat := from;
    while i + |pat| <= n
      invariant from <= i <= n
      invariant First(s[from..], pat) == Later(First(s[i..], pat), i - from)
    {
      FirstFrom(s, i, pat);
      var here := MatchAt(a, i, pat, s);
      if here {
        return Some(i);
      }
      i := i + 1;
    }
    FirstTooLate(s, i, pat);
    r := None;
  }

  lemma FirstFrom(s: string, i: nat, pat: string)
    requires pat != "" && i + |pat| <= |s|
    ensures First(s[i..], pat) == if s[i..i + |pat|] == pat then Some(0) else Later(First(s[i + 1..], pat), 1)
  {
    assert s[i..][..|pat|] == s[i..i + |pat|] && s[i..][1..] == s[i + 1..];
  }

  lemma FirstTooLate(s: string, i: nat, pat: string)
    requires i <= |s| < i + |pat|
    ensures First(s[i..], pat) == None
  {
  }

  lemma Around(b: string, s: string, i: nat, n: nat)
    requires s <= b && i + n <= |s|
    ensures b[..i] == s[..i] && b[i + n..|s|] == s[i + n..]
    ensures IsCString(s) ==> IsCString(s[..i]) && IsCString(s[i + n..])
  {
  }

  lemma SliceOf(b: string, s: string, i: nat, n: nat)
    requires s <= b && i + n <= |s|
    ensures b[i..i + n] == s[i..][..n] == s[i..i + n]
  {
  }

  method StrRChr(a: array<char>, c: char, ghost s: string) returns (r: Option<nat>)
    requires Holds(a, s) && c != NUL
    ensures r == Last(s, c)
  {
    var n: nat := StrLen(a, 0, s);
    assert s[..|s|] == s;
    while n > 0
      invariant n <= |s| && Last(s, c) == Last(s[..n], c)
    {
      assert s[..n][..n - 1] == s[..n - 1];
      assert a[n - 1] == s[n - 1];
      if a[n - 1] == c {
        return Some(n - 1);
      }
      n := n - 1;
    }
    r := None;
  }

  /** memmove(a + to, a + from, count) */
  method MemMove(a: array<char>, to: nat, from: nat, count: nat)
    requires to <= from && from + count <= a.Length
    modifies a
    ensures a[..to] == old(a[..to]) && a[to..to + count] == old(a[from..from + count])
  {
    forall i | 0 <= i < count {
      a[to + i] := a[from + i];
    }
  }

  /** Pulling the C string found at `from` forward to `to`, where `head` ends. */
  method Splice(a: array<char>, to: nat, from: nat, ghost head: string, ghost tail: string)
    requires IsCString(head) && IsCString(tail) && to == |head| <= from
    requires from + |tail| < a.Length && a[..to] == head && a[from..from + |tail|] == tail && a[from + |tail|] == NUL
    modifies a
    ensures Holds(a, head + tail)
  {
    assert a[from..from + |tail| + 1] == tail + [NUL];
    var n: nat := StrLen(a, from, tail);
    MemMove(a, to, from, n + 1);
    AtCut(a[..to + n + 1], head, tail);
  }

  lemma AtCut(b: string, head: string, tail: string)
    requires |b| == |head| + |tail| + 1 && b[..|head|] == head && b[|head|..] == tail + [NUL]
    ensures b[..|head| + |tail|] == head + tail && b[|head| + |tail|] == NUL
  {
    assert b == head + (tail + [NUL]);
  }

  lemma Reassociate(a: string, b: string, c: string, d: string)
    ensures a + (b + c + d) == (a + b + c) + d
  {
  }

  /** memcpy(a + at, ins) */
  method WriteAt(a: array<char>, ins: string, ghost head: string, at: nat, ghost gap: string, ghost tail: string)
    requires IsCString(ins) && |gap| == |ins| && at == |head| && Holds(a, head + gap + tail)
    modifies a
    ensures Holds(a, head + ins + tail)
  {
    ghost var s, n := head + gap + tail, |ins|;
    assert a[..at] == a[..|s|][..at] == head;
    assert a[at + n..|s|] == a[..|s|][at + n..] == tail;
    forall i | 0 <= i < |ins| {
      a[at + i] := ins[i];
    }
    assert a[at..at + n] == ins;
    assert a[..|s|] == a[..at] + a[at..at + n] + a[at + n..|s|];
  }

  lemma NotInPrefix(s: string, pat: string, n: nat)
    requires First(s, pat) == Some(n) && pat != ""
    ensures First(s[..n], pat) == None
  {
    var f := First(s[..n], pat);
    if f.Some? {
      FirstIsFirst(s[..n], pat, f.value);
      assert s[..n][f.value..f.value + |pat|] == s[f.value..f.value + |pat|];
      FirstIsFirst(s, pat, f.value);
      assert false;
    }
  }

  lemma {:induction false} SubNothing(s: string, pat: string, ins: string)
    requires 0 < |pat| && !Contains(s, pat)
    ensures Sub(s, pat, ins) == s
  {
    if |s| >= |pat| {
      SubNothing(s[1..], pat, ins);
    }
  }

  lemma Glue(s: string, k: nat, ins: string, rest: string)
    requires 0 < k <= |s|
    ensures [s[0]] + (s[1..][..k - 1] + ins + rest) == s[..k] + ins + rest
  {
    assert [s[0]] + s[1..][..k - 1] == s[..k];
  }

  lemma SkipOne(s: string, i: nat)
    requires 0 < i <= |s|
    ensures s[1..][i - 1..] == s[i..]
  {
  }

  lemma SubStep(s: string, pat: string, ins: string)
    requires 0 < |pat| && First(s, pat).Some? && First(s, pat).value > 0
    ensures Sub(s, pat, ins) == [s[0]] + Sub(s[1..], pat, ins)
    ensures First(s[1..], pat) == Some(First(s, pat).value - 1)
  {
  }

  lemma {:induction false} SubFirst(s: string, pat: string, ins: string, k: nat)
    requires 0 < |pat| && First(s, pat) == Some(k)
    ensures Sub(s, pat, ins) == s[..k] + ins + Sub(s[k + |pat|..], pat, ins)
  {
    if k == 0 {
      SubHere(s, pat, ins);
    } else {
      LaterByOne(s, pat, k);
      SubFirst(s[1..], pat, ins, k - 1);
      SubOn(s, pat, ins, k);
    }
  }

  lemma SubHere(s: string, pat: string, ins: string)
    requires 0 < |pat| && First(s, pat) == Some(0)
    ensures Sub(s, pat, ins) == s[..0] + ins + Sub(s[|pat|..], pat, ins)
  {
    assert s[..0] + ins == ins;
  }

  lemma LaterByOne(s: string, pat: string, k: nat)
    requires 0 < |pat| && First(s, pat) == Some(k) && k > 0
    ensures s != "" && First(s[1..], pat) == Some(k - 1)
  {
  }

  lemma SubOn(s: string, pat: string, ins: string, k: nat)
    requires 0 < |pat| && First(s, pat) == Some(k) && k > 0
    requires Sub(s[1..], pat, ins) == s[1..][..k - 1] + ins + Sub(s[1..][k - 1 + |pat|..], pat, ins)
    ensures Sub(s, pat, ins) == s[..k] + ins + Sub(s[k + |pat|..], pat, ins)
  {
    SubStep(s, pat, ins);
    SkipOne(s, k + |pat|);
    Glue(s, k, ins, Sub(s[k + |pat|..], pat, ins));
  }

  lemma CutPieces(b: string, done: string, rest: string, k: nat, gap: nat, cut: nat)
    requires b == done + rest && gap <= cut && k + cut <= |rest|
    ensures var at := |done| + k;
      && b[..at] == done + rest[..k] && b[at..at + gap] == rest[k..k + gap]
      && b[..at + gap] == done + rest[..k] + rest[k..k + gap] && b[at + cut..] == rest[k + cut..]
  {
  }

  /** all_string_sub without a limit of its own: a replacement longer than the pattern would not
      fit and is not made. */
  function SubFitting(s: string, pat: string, ins: string): string {
    if pat == "" || |ins| > |pat| then s else Sub(s, pat, ins)
  }

  /** strstr in what is left to do. */
  method NextMatch(a: array<char>, from: nat, pat: string, ghost done: string, ghost rest: string) returns (p: Option<nat>)
    requires Holds(a, done + rest) && from == |done| && pat != ""
    ensures p.Some? ==> p.value >= from
    ensures First(rest, pat) == match p { case None => None case Some(i) => Some(i - from) }
  {
    assert (done + rest)[from..] == rest;
    p := StrStr(a, from, pat, done + rest);
  }

  /** What all_string_sub has done so far: `done` is final, `rest` is left to do. */
  ghost predicate Underway(s: string, pat: string, ins: string, done: string, rest: string) {
    pat != "" && if |ins| > |pat| then done + rest == s else done + Sub(rest, pat, ins) == Sub(s, pat, ins)
  }

  lemma UnderwayEnds(s: string, pat: string, ins: string, done: string, rest: string)
    requires Underway(s, pat, ins, done, rest) && (First(rest, pat) == None || |ins| > |pat|)
    ensures done + rest == SubFitting(s, pat, ins)
  {
    if |ins| <= |pat| {
      SubNothing(rest, pat, ins);
    }
  }

  /** One turn of the loop of all_string_sub. */
  method SubRound(a: array<char>, len: nat, from: nat, ls: nat, pat: string, ins: string, ghost s: string,
                  ghost done: string, ghost rest: string)
    returns (more: bool, from': nat, ls': nat, ghost done': string, ghost rest': string)
    requires IsCString(ins) && Holds(a, done + rest) && Underway(s, pat, ins, done, rest)
    requires from == |done| && ls == |done| + |rest| < len && (|ins| > |pat| ==> ls + 1 == len)
    modifies a
    ensures Holds(a, done' + rest') && Underway(s, pat, ins, done', rest')
    ensures !more ==> done' + rest' == SubFitting(s, pat, ins)
    ensures more ==> |ins| <= |pat| && from' == |done'| && ls' == |done'| + |rest'| < len && |rest'| < |rest|
  {
    more, from', ls', done', rest' := false, from, ls, done, rest;
    var p := NextMatch(a, from, pat, done, rest);
    if p.None? || ls + |ins| - |pat| >= len {
      UnderwayEnds(s, pat, ins, done, rest);
      return;
    }
    done', rest' := ReplaceAt(a, p.value, pat, ins, done, rest);
    more, from', ls' := true, p.value + |ins|, ls + |ins| - |pat|;
  }

  /** all_string_sub with a length of 0. */
  method AllStringSub(a: array<char>, pat: string, ins: string, ghost s: string)
    requires Holds(a, s) && IsCString(ins)
    modifies a
    ensures Holds(a, SubFitting(s, pat, ins))
  {
    var ls := StrLen(a, 0, s);
    if pat == "" {
      return;
    }
    var len, from, more := ls + 1, 0, true;
    ghost var done, rest := "", s;
    assert done + rest == s;
    while more && |pat| <= ls
      invariant Holds(a, done + rest) && Underway(s, pat, ins, done, rest)
      invariant !more ==> done + rest == SubFitting(s, pat, ins)
      invariant more ==> from == |done| && ls == |done| + |rest| < len && (|ins| > |pat| ==> ls + 1 == len)
      decreases more, |rest|
    {
      more, from, ls, done, rest := SubRound(a, len, from, ls, pat, ins, s, done, rest);
    }
    if more {
      UnderwayEnds(s, pat, ins, done, rest);
    }
  }

  /** One replacement of all_string_sub. */
  method ReplaceAt(a: array<char>, at: nat, pat: string, ins: string, ghost done: string, ghost rest: string)
    returns (ghost done': string, ghost rest': string)
    requires Holds(a, done + rest) && IsCString(ins) && 0 < |pat| && |ins| <= |pat|
    requires at >= |done| && First(rest, pat) == Some(at - |done|)
    modifies a
    ensures Holds(a, done' + rest') && |done'| == at + |ins| && |rest'| < |rest|
    ensures |done'| + |rest'| == |done| + |rest| + |ins| - |pat|
    ensures done' + Sub(rest', pat, ins) == done + Sub(rest, pat, ins)
  {
    ghost var k: nat := at - |done|;
    ghost var s := done + rest;
    ghost var head, gap := done + rest[..k], rest[k..k + |ins|];
    rest' := rest[k + |pat|..];
    CutPieces(s, done, rest, k, |ins|, |pat|);
    assert a[..at + |ins|] == s[..at + |ins|] && a[at + |pat|..|s|] == s[at + |pat|..];
    Splice(a, at + |ins|, at + |pat|, head + gap, rest');
    WriteAt(a, ins, head, at, gap, rest');
    done' := head + ins;
    SubFirst(rest, pat, ins, k);
    Reassociate(done, rest[..k], ins, Sub(rest', pat, ins));
  }

  /** strncmp(a + len - |pat|, pat, |pat|) == 0, where the string has length `len`. */
  method EndsWith(a: array<char>, len: nat, pat: string, ghost s: string) returns (r: bool)
    requires Holds(a, s) && len == |s|
    ensures r == (|s| >= |pat| && s[|s| - |pat|..] == pat)
  {
    r := len >= |pat| && a[len - |pat|..len] == pat;
    if len >= |pat| {
      SliceOf(a[..], s, len - |pat|, |pat|);
    }
  }

  method CutAt(a: array<char>, len: nat, ghost s: string)
    requires Holds(a, s) && len <= |s|
    modifies a
    ensures Holds(a, s[..len])
  {
    assert s[..len] == a[..|s|][..len];
    a[len] := NUL;
  }

  /** trim_string at the back. */
  method TrimString(a: array<char>, pat: string, ghost s: string)
    requires Holds(a, s) && 0 < |pat|
    modifies a
    ensures Holds(a, TrimBack(s, pat))
  {
    var len: nat := StrLen(a, 0, s);
    ghost var now := s;
    var more := EndsWith(a, len, pat, now);
    while more
      invariant len == |now| && Holds(a, now) && TrimBack(now, pat) == TrimBack(s, pat)
      invariant more == (|now| >= |pat| && now[|now| - |pat|..] == pat)
      decreases len
    {
      len := len - |pat|;
      CutAt(a, len, now);
      now := now[..len];
      more := EndsWith(a, len, pat, now);
    }
  }

  /** One pass of the `..` loop, at the occurrence `at`. */
  method CancelAt(a: array<char>, at: nat, ghost s: string) returns (ghost next: string)
    requires Holds(a, s) && First(s, "\\..\\") == Some(at)
    modifies a
    ensures Holds(a, next) && |next| < |s| && CancelDotDot(next) == CancelDotDot(s)
  {
    ghost var tail := s[at + 3..];
    Around(a[..], s, at, 3);
    a[at] := NUL;
    var r := StrRChr(a, SEP, s[..at]);
    if r.Some? {
      next := s[..r.value] + tail;
      assert a[..r.value] == a[..at][..r.value] == s[..r.value];
      Splice(a, r.value, at + 3, s[..r.value], tail);
    } else {
      next := s[..at];
      NotInPrefix(s, "\\..\\", at);
    }
  }

  method DosCleanName(a: array<char>, ghost s: string)
    requires Holds(a, s)
    modifies a
    ensures Holds(a, Clean(s))
  {
    AllStringSub(a, "\\\\", "\\", s);
    ghost var squeezed := Sub(s, "\\\\", "\\");
    ghost var now := squeezed;
    assert now[0..] == now;
    var p := StrStr(a, 0, "\\..\\", now);
    while p.Some?
      invariant Holds(a, now) && CancelDotDot(now) == CancelDotDot(squeezed)
      invariant p == First(now, "\\..\\")
      decreases |now|
    {
      now := CancelAt(a, p.value, now);
      assert now[0..] == now;
      p := StrStr(a, 0, "\\..\\", now);
    }
    TrimString(a, "\\..", now);
    AllStringSub(a, "\\.\\", "\\", TrimBack(now, "\\.."));
  }
}
