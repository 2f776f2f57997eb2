/**
 What dos_clean_name means on paths, on every path, and exactly when that is the component-stack
 resolution.
 */
module PathResolution {
  import opened Common
  import opened CleanName

  const DOTDOT := "\\..\\"
  const DOT := "\\.\\"

  predicate IsName(c: string) {
    c != "" && SEP !in c
  }

  predicate AllNames(cs: seq<string>) {
    forall c :: c in cs ==> IsName(c)
  }

  /** What stands between separators, be it nothing. */
  predicate AllParts(cs: seq<string>) {
    forall c :: c in cs ==> SEP !in c
  }

  /** An absolute path, every component followed by a separator. */
  function Render(cs: seq<string>): (s: string)
    ensures s != "" && s[0] == SEP && s[|s| - 1] == SEP
  {
    if cs == [] then [SEP] else [SEP] + cs[0] + Render(cs[1..])
  }

  function Push(cs: seq<string>, c: string): seq<string> {
    if c == "" then cs else cs + [c]
  }

  /** The non-empty pieces of `s` between separators, after the unfinished piece `cur`. */
  function Pieces(s: string, cur: string): seq<string> {
    if s == "" then Push([], cur)
    else if s[0] == SEP then Push([], cur) + Pieces(s[1..], "")
    else Pieces(s[1..], cur + [s[0]])
  }

  function Components(s: string): seq<string> {
    Pieces(s, "")
  }

  /** Everything between separators, empty or not, after the unfinished part `cur`. */
  function Split(s: string, cur: string): seq<string> {
    if s == "" then []
    else if s[0] == SEP then [cur] + Split(s[1..], "")
    else Split(s[1..], cur + [s[0]])
  }

  /** The parts of a path. */
  function Parts(s: string): seq<string>
    requires s != ""
  {
    Split(s[1..], "")
  }

  /** Parts that go nowhere. */
  predicate Stays(c: string) {
    c == "" || c == "."
  }

  /** The usual meaning of a path: `.` stays, `..` pops, and at the root it stays. */
  function Resolve(cs: seq<string>, stack: seq<string>): seq<string> {
    if cs == [] then stack
    else if Stays(cs[0]) then Resolve(cs[1..], stack)
    else if cs[0] == ".." then Resolve(cs[1..], if stack == [] then [] else stack[..|stack| - 1])
    else Resolve(cs[1..], stack + [cs[0]])
  }

  /** How many `..` find that stack empty. */
  function Climbs(cs: seq<string>, depth: nat): nat {
    if cs == [] then 0
    else if Stays(cs[0]) then Climbs(cs[1..], depth)
    else if cs[0] != ".." then Climbs(cs[1..], depth + 1)
    else if depth > 0 then Climbs(cs[1..], depth - 1)
    else 1 + Climbs(cs[1..], 0)
  }

  predicate NeverClimbs(cs: seq<string>, depth: nat) {
    cs == []
    || (if cs[0] == ".." then depth > 0 && NeverClimbs(cs[1..], depth - 1)
        else NeverClimbs(cs[1..], if Stays(cs[0]) then depth else depth + 1))
  }

  lemma {:induction false} NeverClimbsIff(cs: seq<string>, depth: nat)
    ensures NeverClimbs(cs, depth) <==> Climbs(cs, depth) == 0
  {
    if cs != [] {
      if cs[0] != ".." {
        NeverClimbsIff(cs[1..], if Stays(cs[0]) then depth else depth + 1);
      } else if depth > 0 {
        NeverClimbsIff(cs[1..], depth - 1);
      }
    }
  }

  /** What the `..` loop takes a path to mean: every other component is a name, `.` too. */
  function Cancel(cs: seq<string>, stack: seq<string>): seq<string> {
    if cs == [] then stack
    else if cs[0] == ".." then Cancel(cs[1..], if stack == [] then [] else stack[..|stack| - 1])
    else Cancel(cs[1..], stack + [cs[0]])
  }

  /** No `..` finds the stack of that meaning empty. */
  predicate Balanced(cs: seq<string>, depth: nat) {
    cs == [] || (if cs[0] == ".." then depth > 0 && Balanced(cs[1..], depth - 1) else Balanced(cs[1..], depth + 1))
  }

  /** How many `..` find `.` or an empty part on top of that stack, and cancel it. */
  function Pops(cs: seq<string>, stack: seq<string>): nat {
    if cs == [] then 0
    else if cs[0] != ".." then Pops(cs[1..], stack + [cs[0]])
    else if stack == [] then Pops(cs[1..], [])
    else (if Stays(stack[|stack| - 1]) then 1 else 0) + Pops(cs[1..], stack[..|stack| - 1])
  }

  /** Without parts that stay it is the usual meaning. */
  lemma {:induction false} CancelIsResolve(cs: seq<string>, stack: seq<string>)
    requires "." !in cs && "" !in cs
    ensures Cancel(cs, stack) == Resolve(cs, stack)
    ensures Balanced(cs, |stack|) <==> NeverClimbs(cs, |stack|)
  {
    if cs != [] {
      assert cs[0] in cs;
      if cs[0] != ".." {
        CancelIsResolve(cs[1..], stack + [cs[0]]);
      } else {
        CancelIsResolve(cs[1..], if stack == [] then [] else stack[..|stack| - 1]);
      }
    }
  }

  // ---------- Separators ----------

  /** Two separators in a row. */
  predicate Doubled(s: string) {
    |s| >= 2 && ((s[0] == SEP && s[1] == SEP) || Doubled(s[1..]))
  }

  /** Three separators in a row. */
  predicate Tripled(s: string) {
    |s| >= 3 && ((s[0] == SEP && s[1] == SEP && s[2] == SEP) || Tripled(s[1..]))
  }

  /** all_string_sub(s, "\\\\", "\\") */
  function Squeeze(s: string): string {
    Sub(s, "\\\\", "\\")
  }

  lemma SqueezeStep(s: string)
    requires |s| >= 2
    ensures Squeeze(s) == if s[0] == SEP && s[1] == SEP then [SEP] + Squeeze(s[2..]) else [s[0]] + Squeeze(s[1..])
  {
    assert s[..2] == [s[0], s[1]];
  }

  /** Squeezing keeps the first and the last byte. */
  lemma {:induction false} SqueezeEnds(s: string)
    ensures var t := Squeeze(s);
      (t == "" <==> s == "") && (s != "" ==> t[0] == s[0] && t[|t| - 1] == s[|s| - 1])
  {
    if |s| >= 2 {
      SqueezeStep(s);
      SqueezeEnds(if s[0] == SEP && s[1] == SEP then s[2..] else s[1..]);
    }
  }

  lemma {:induction false} SqueezeKeepsPieces(s: string, cur: string)
    ensures Pieces(Squeeze(s), cur) == Pieces(s, cur)
  {
    if |s| >= 2 {
      SqueezeStep(s);
      if s[0] == SEP && s[1] == SEP {
        SqueezeKeepsPieces(s[2..], "");
        assert Pieces(s[1..], "") == [] + Pieces(s[1..][1..], "") && s[1..][1..] == s[2..];
      } else {
        SqueezeKeepsPieces(s[1..], if s[0] == SEP then "" else cur + [s[0]]);
      }
    }
  }

  /** The pass that removes doubled separators does so exactly when no three are in a row. */
  lemma {:induction false} SqueezeRemovesDoubles(s: string)
    ensures Doubled(Squeeze(s)) <==> Tripled(s)
  {
    if |s| >= 2 {
      SqueezeStep(s);
      var pair := s[0] == SEP && s[1] == SEP;
      var rest := if pair then s[2..] else s[1..];
      SqueezeRemovesDoubles(rest);
      SqueezeEnds(rest);
      assert Squeeze(s)[1..] == Squeeze(rest);
      if pair {
        assert s[1..][1..] == rest;
        assert |s| >= 4 ==> s[1..][0] == SEP && s[1..][1] == s[2] && s[1..][2] == s[3];
      }
    }
  }

  /** A path without doubled separators is the rendering of its components. */
  lemma PiecesAfterSeparator(s: string, cur: string)
    requires cur != "" && |s| > 1 && s[0] == SEP && s[1] != SEP
    ensures Pieces(s, cur) == [cur] + Pieces(s[2..], [s[1]])
  {
    assert s[1..][1..] == s[2..] && "" + [s[1]] == [s[1]];
  }

  lemma {:induction false} RenderPieces(s: string, cur: string)
    requires IsName(cur) && s != "" && s[|s| - 1] == SEP && !Doubled(s)
    ensures Render(Pieces(s, cur)) == [SEP] + cur + s && AllNames(Pieces(s, cur))
  {
    if s[0] != SEP {
      RenderPieces(s[1..], cur + [s[0]]);
      MoveOne(SEP, cur, s);
    } else if |s| == 1 {
      assert s == [SEP] && Pieces(s, cur) == [cur];
      assert Render([cur]) == [SEP] + cur + Render([]);
    } else {
      RenderPieces(s[2..], [s[1]]);
      PiecesAfterSeparator(s, cur);
      TwoAndRest(s);
      RenderCons(cur, Pieces(s[2..], [s[1]]));
    }
  }

  lemma MoveOne(x: char, cur: string, s: string)
    requires s != ""
    ensures [x] + (cur + [s[0]]) + s[1..] == [x] + cur + s
  {
  }

  lemma TwoAndRest(s: string)
    requires |s| > 1
    ensures [s[0]] + [s[1]] + s[2..] == s
  {
  }

  lemma RenderCons(c: string, cs: seq<string>)
    ensures Render([c] + cs) == [SEP] + c + Render(cs)
  {
    assert ([c] + cs)[1..] == cs;
  }

  /** A path that starts and ends with a separator, as do_cd builds it. */
  predicate IsPath(s: string) {
    s != "" && s[0] == SEP && s[|s| - 1] == SEP
  }

  lemma RenderComponents(s: string)
    requires IsPath(s) && !Doubled(s)
    ensures Render(Components(s)) == s && AllNames(Components(s))
  {
    if |s| == 1 {
      assert s == [SEP] && Pieces(s[1..], "") == [];
    } else {
      var u, t := s[1..], s[2..];
      assert u[0] == s[1] != SEP && u[1..] == t && "" + [s[1]] == [s[1]];
      assert !Doubled(u) && !Doubled(t);
      RenderPieces(t, [s[1]]);
      assert Pieces(u, "") == Pieces(t, [s[1]]);
      assert Pieces(s, "") == [] + Pieces(u, "") == Pieces(u, "");
      assert s == [SEP] + [s[1]] + t;
    }
  }

  // ---------- Cancelling `..` ----------

  lemma {:induction false} RenderConcat(a: seq<string>, b: seq<string>)
    ensures Render(a + b) == Render(a)[..|Render(a)| - 1] + Render(b)
  {
    if a == [] {
      assert a + b == b;
    } else {
      assert (a + b)[1..] == a[1..] + b && (a + b)[0] == a[0];
      assert Render(a + b) == [SEP] + a[0] + Render(a[1..] + b);
      RenderConcat(a[1..], b);
      WithoutLast(SEP, a[0], Render(a[1..]), Render(b));
    }
  }

  lemma WithoutLast(x: char, c: string, r: string, rb: string)
    requires r != ""
    ensures var s := [x] + c + r; s[..|s| - 1] + rb == [x] + c + (r[..|r| - 1] + rb)
  {
  }

  lemma FirstTooShort(s: string, pat: string)
    requires |s| < |pat|
    ensures First(s, pat) == None
  {
  }

  lemma FirstStep(s: string, pat: string)
    requires s != "" && pat != ""
    ensures First(s, pat) == if pat <= s then Some(0) else Later(First(s[1..], pat), 1)
  {
    if |s| >= |pat| {
      assert pat <= s <==> s[..|pat|] == pat;
    }
  }

  /** A pattern that starts with a separator does not start inside a name. */
  lemma {:induction false} FirstSkipsName(c: string, t: string, pat: string)
    requires SEP !in c && pat != "" && pat[0] == SEP
    ensures First(c + t, pat) == Later(First(t, pat), |c|)
  {
    if c == "" {
      assert c + t == t;
    } else {
      FirstStep(c + t, pat);
      assert (c + t)[0] == c[0] && (c + t)[1..] == c[1..] + t;
      FirstSkipsName(c[1..], t, pat);
    }
  }

  /** `\name\` with a dot pattern in the place of the name. */
  lemma DotAtStart(c: string, r: string, dots: string)
    requires SEP !in c && r != "" && r[0] == SEP && SEP !in dots
    ensures [SEP] + dots + [SEP] <= [SEP] + c + r <==> c == dots
  {
    var s, pat := [SEP] + c + r, [SEP] + dots + [SEP];
    assert pat[1..1 + |dots|] == dots && s[1..1 + |c|] == c;
    if |c| < |dots| {
      assert s[1 + |c|] == SEP && pat[1 + |c|] == dots[|c|] && dots[|c|] in dots;
    } else if |c| > |dots| {
      assert s[1 + |dots|] == c[|dots|] && c[|dots|] in c && pat[1 + |dots|] == SEP;
    } else if c != dots {
      var k :| 0 <= k < |c| && c[k] != dots[k];
      assert s[1 + k] == c[k] && pat[1 + k] == dots[k];
    }
  }

  function IndexOf(cs: seq<string>, c: string): (i: nat)
    ensures i <= |cs| && (i < |cs| ==> cs[i] == c)
  {
    if cs == [] || cs[0] == c then 0 else IndexOf(cs[1..], c) + 1
  }

  lemma {:induction false} IndexIsFirst(cs: seq<string>, c: string)
    ensures c !in cs[..IndexOf(cs, c)]
  {
    if cs != [] && cs[0] != c {
      IndexIsFirst(cs[1..], c);
      assert cs[..IndexOf(cs, c)] == [cs[0]] + cs[1..][..IndexOf(cs[1..], c)];
    }
  }

  lemma RenderStep(cs: seq<string>)
    requires cs != []
    ensures Render(cs) == [SEP] + cs[0] + Render(cs[1..]) && Render(cs)[1..] == cs[0] + Render(cs[1..])
    ensures |Render(cs)| == 1 + |cs[0]| + |Render(cs[1..])|
  {
    TailOfThree(SEP, cs[0], Render(cs[1..]));
  }

  lemma TailOfThree(a: char, b: string, c: string)
    ensures ([a] + b + c)[1..] == b + c
  {
  }

  /** The `..` pattern is not found at or inside a component that is not `..`. */
  lemma DotDotSkips(cs: seq<string>)
    requires cs != [] && SEP !in cs[0]
    ensures First(Render(cs), DOTDOT) ==
            if cs[0] == ".." then Some(0) else Later(First(Render(cs[1..]), DOTDOT), |cs[0]| + 1)
  {
    RenderStep(cs);
    DotDotInFront(cs[0], Render(cs[1..]));
  }

  lemma DotDotInFront(c: string, r: string)
    requires SEP !in c && r != "" && r[0] == SEP
    ensures First([SEP] + c + r, DOTDOT) == if c == ".." then Some(0) else Later(First(r, DOTDOT), |c| + 1)
  {
    DotAtStart(c, r, "..");
    assert DOTDOT == [SEP] + ".." + [SEP];
    FirstAfter(c, r, DOTDOT);
  }

  /** Where a pattern is found that starts with a separator: here, or after the part. */
  lemma FirstAfter(c: string, r: string, pat: string)
    requires SEP !in c && pat != "" && pat[0] == SEP
    ensures First([SEP] + c + r, pat) == if pat <= [SEP] + c + r then Some(0) else Later(First(r, pat), |c| + 1)
  {
    FirstStep([SEP] + c + r, pat);
    TailOfThree(SEP, c, r);
    FirstSkipsName(c, r, pat);
  }

  lemma RenderPrefix(cs: seq<string>, i: nat)
    requires 0 < i <= |cs|
    ensures |Render(cs[..i])| == 1 + |cs[0]| + |Render(cs[1..][..i - 1])|
  {
    RenderStep(cs[..i]);
    assert cs[..i][1..] == cs[1..][..i - 1];
  }

  /** Where the first `\..\` is: at the end of what precedes the first `..` component. */
  lemma {:induction false} FirstDotDot(cs: seq<string>)
    requires AllParts(cs)
    ensures var i := IndexOf(cs, "..");
      First(Render(cs), DOTDOT) == if i == |cs| then None else Some(|Render(cs[..i])| - 1)
  {
    var i := IndexOf(cs, "..");
    if cs == [] {
      FirstTooShort([SEP], DOTDOT);
    } else {
      assert cs[0] in cs;
      if cs[0] == ".." {
        DotDotSkips(cs);
        assert cs[..i] == [];
      } else {
        FirstDotDot(cs[1..]);
        FirstDotDotLater(cs, i);
      }
    }
  }

  lemma FirstDotDotLater(cs: seq<string>, i: nat)
    requires cs != [] && SEP !in cs[0] && cs[0] != ".." && 0 < i <= |cs|
    requires First(Render(cs[1..]), DOTDOT) == if i == |cs| then None else Some(|Render(cs[1..][..i - 1])| - 1)
    ensures First(Render(cs), DOTDOT) == if i == |cs| then None else Some(|Render(cs[..i])| - 1)
  {
    DotDotSkips(cs);
    RenderPrefix(cs, i);
  }

  lemma {:induction false} LastInName(a: string, c: string)
    requires SEP !in c && a != "" && a[|a| - 1] == SEP
    ensures Last(a + c, SEP) == Some(|a| - 1)
  {
    if c == "" {
      assert a + c == a;
    } else {
      var s := a + c;
      assert s[|s| - 1] == c[|c| - 1] && c[|c| - 1] in c;
      assert s[..|s| - 1] == a + c[..|c| - 1];
      LastInName(a, c[..|c| - 1]);
    }
  }

  /** The string at a `..`: what precedes it, and the name it cancels. */
  lemma RenderAround(cs: seq<string>, i: nat)
    requires 0 < i < |cs| && cs[i] == ".."
    ensures Render(cs) == (Render(cs[..i - 1]) + cs[i - 1]) + ([SEP] + ".." + Render(cs[i + 1..]))
    ensures |Render(cs[..i])| == |Render(cs[..i - 1])| + |cs[i - 1]| + 1
  {
    var before, name, rest := cs[..i - 1], cs[i - 1], cs[i..];
    assert cs[..i] == before + [name] && cs == cs[..i] + rest;
    RenderConcat(before, [name]);
    assert Render([name]) == [SEP] + name + [SEP];
    RenderConcat(cs[..i], rest);
    RenderStep(rest);
    assert rest[1..] == cs[i + 1..];
    var rb := Render(before);
    assert Render(cs[..i]) == rb + name + [SEP];
    assert Render(cs[..i])[..|rb| + |name|] == rb + name;
  }

  lemma CancelParts(s: string, before: string, name: string, after: string)
    requires s == (before + name) + ([SEP] + ".." + after)
    requires before != "" && before[|before| - 1] == SEP && SEP !in name
    requires First(s, DOTDOT) == Some(|before| + |name|)
    ensures CancelDotDot(s) == CancelDotDot(before[..|before| - 1] + after)
  {
    var p := |before| + |name|;
    assert s[..p] == before + name && s[p + 3..] == after;
    LastInName(before, name);
    assert s[..|before| - 1] == before[..|before| - 1];
  }

  /** One round of the `..` loop, on components: it cancels `..` and the one before it. */
  lemma CancelRound(cs: seq<string>, i: nat)
    requires AllParts(cs) && i == IndexOf(cs, "..") && 0 < i < |cs|
    ensures CancelDotDot(Render(cs)) == CancelDotDot(Render(cs[..i - 1] + cs[i + 1..]))
  {
    CancelRendered(cs, i);
    RenderConcat(cs[..i - 1], cs[i + 1..]);
  }

  lemma CancelRendered(cs: seq<string>, i: nat)
    requires AllParts(cs) && i == IndexOf(cs, "..") && 0 < i < |cs|
    ensures var before := Render(cs[..i - 1]);
      CancelDotDot(Render(cs)) == CancelDotDot(before[..|before| - 1] + Render(cs[i + 1..]))
  {
    FirstDotDotAt(cs, i);
    RenderAround(cs, i);
    CancelParts(Render(cs), Render(cs[..i - 1]), cs[i - 1], Render(cs[i + 1..]));
  }

  lemma FirstDotDotAt(cs: seq<string>, i: nat)
    requires AllParts(cs) && i == IndexOf(cs, "..") && 0 < i < |cs|
    ensures First(Render(cs), DOTDOT) == Some(|Render(cs[..i - 1])| + |cs[i - 1]|) && SEP !in cs[i - 1]
  {
    FirstDotDot(cs);
    RenderAround(cs, i);
    assert cs[i - 1] in cs;
  }

  lemma {:induction false} CancelWithout(cs: seq<string>, i: nat, stack: seq<string>)
    requires 0 < i < |cs| && cs[i] == ".." && ".." !in cs[..i]
    ensures Cancel(cs, stack) == Cancel(cs[..i - 1] + cs[i + 1..], stack)
    ensures Balanced(cs, |stack|) <==> Balanced(cs[..i - 1] + cs[i + 1..], |stack|)
  {
    assert cs[0] == cs[..i][0] && cs[0] in cs[..i];
    var next := stack + [cs[0]];
    if i == 1 {
      assert cs[..0] + cs[2..] == cs[2..] && cs[1..][1..] == cs[2..];
      assert next[..|next| - 1] == stack;
    } else {
      WithoutTail(cs, i);
      CancelWithout(cs[1..], i - 1, next);
    }
  }

  lemma WithoutTail(cs: seq<string>, i: nat)
    requires 1 < i < |cs|
    ensures cs[1..][..i - 1] == cs[..i][1..] && cs[1..][i - 1] == cs[i]
    ensures var ds := cs[..i - 1] + cs[i + 1..];
      ds != [] && ds[0] == cs[0] && ds[1..] == cs[1..][..i - 1 - 1] + cs[1..][i - 1 + 1..]
  {
  }

  lemma {:induction false} CancelPlain(cs: seq<string>, stack: seq<string>)
    requires ".." !in cs
    ensures Cancel(cs, stack) == stack + cs && Balanced(cs, |stack|)
  {
    if cs != [] {
      CancelPlain(cs[1..], stack + [cs[0]]);
      assert stack + [cs[0]] + cs[1..] == stack + cs;
    }
  }

  lemma {:induction false} CancelKeepsParts(cs: seq<string>, stack: seq<string>)
    requires AllParts(cs) && AllParts(stack)
    ensures AllParts(Cancel(cs, stack))
  {
    if cs != [] {
      CancelKeepsParts(cs[1..], if cs[0] == ".." then (if stack == [] then [] else stack[..|stack| - 1]) else stack + [cs[0]]);
    }
  }

  lemma {:induction false} ResolveNames(cs: seq<string>, stack: seq<string>)
    requires AllNames(cs) && AllNames(stack)
    ensures AllNames(Resolve(cs, stack)) && ("." !in stack && ".." !in stack ==>
      "." !in Resolve(cs, stack) && ".." !in Resolve(cs, stack))
  {
    if cs != [] {
      ResolveNames(cs[1..], if Stays(cs[0]) then stack
        else if cs[0] == ".." then (if stack == [] then [] else stack[..|stack| - 1])
        else stack + [cs[0]]);
    }
  }

  /** The whole `..` loop, on every path: each `..` cancels the part before it, or nothing at
      all is left when a `..` meets the root. */
  lemma {:induction false} CancelLoop(cs: seq<string>)
    requires AllParts(cs)
    ensures CancelDotDot(Render(cs)) == if Balanced(cs, 0) then Render(Cancel(cs, [])) else ""
    decreases |cs|
  {
    var i := IndexOf(cs, "..");
    FirstDotDot(cs);
    IndexIsFirst(cs, "..");
    if i == |cs| {
      assert cs[..i] == cs;
      CancelPlain(cs, []);
      assert [] + cs == cs;
    } else if i == 0 {
      assert cs[..0] == [] && Render(cs)[..0] == "";
    } else {
      CancelRound(cs, i);
      CancelWithout(cs, i, []);
      CancelLoop(cs[..i - 1] + cs[i + 1..]);
    }
  }

  // ---------- Dropping `.` and doubled separators ----------

  /** What one left-to-right pass leaves that cuts parts `d`: the part after one that was cut is not
      examined. With `.` it is the last pass of dos_clean_name, with the empty part the first. */
  function Drop(cs: seq<string>, d: string): seq<string> {
    if cs == [] then []
    else if cs[0] != d then [cs[0]] + Drop(cs[1..], d)
    else if |cs| == 1 then []
    else [cs[1]] + Drop(cs[2..], d)
  }

  function Without(cs: seq<string>, d: string): seq<string> {
    if cs == [] then [] else if cs[0] == d then Without(cs[1..], d) else [cs[0]] + Without(cs[1..], d)
  }

  predicate Adjacent(cs: seq<string>, d: string) {
    exists i :: 0 <= i < |cs| - 1 && cs[i] == d && cs[i + 1] == d
  }

  lemma {:induction false} SubSkipsName(c: string, t: string, pat: string, ins: string)
    requires SEP !in c && pat != "" && pat[0] == SEP
    ensures Sub(c + t, pat, ins) == c + Sub(t, pat, ins)
  {
    if c == "" {
      assert c + t == t;
    } else {
      var s := c + t;
      assert s[0] == c[0] && c[0] in c && s[1..] == c[1..] + t;
      SubSkipsName(c[1..], t, pat, ins);
      if |s| >= |pat| {
        assert s[..|pat|][0] == c[0];
        assert [c[0]] + (c[1..] + Sub(t, pat, ins)) == c + Sub(t, pat, ins);
      } else {
        assert Sub(t, pat, ins) == t;
      }
    }
  }

  lemma SubUnfolds(s: string, pat: string, ins: string)
    requires s != "" && pat != ""
    ensures Sub(s, pat, ins) == if pat <= s then ins + Sub(s[|pat|..], pat, ins)
                                else if |s| < |pat| then s else [s[0]] + Sub(s[1..], pat, ins)
  {
    if |s| >= |pat| {
      assert pat <= s <==> s[..|pat|] == pat;
    }
  }

  /** The pattern that cuts a part. */
  function Cut(d: string): string {
    [SEP] + d + [SEP]
  }

  lemma {:induction false} SubDrops(cs: seq<string>, d: string)
    requires AllParts(cs) && SEP !in d
    ensures Sub(Render(cs), Cut(d), "\\") == Render(Drop(cs, d))
    decreases |cs|
  {
    if cs == [] {
      assert |Cut(d)| >= 2;
    } else {
      assert cs[0] in cs;
      DotAtStart(cs[0], Render(cs[1..]), d);
      RenderStep(cs);
      SubUnfolds(Render(cs), Cut(d), "\\");
      if cs[0] != d {
        SubDrops(cs[1..], d);
        SubSkipsName(cs[0], Render(cs[1..]), Cut(d), "\\");
        DropOne(cs[0], Drop(cs[1..], d));
      } else if |cs| == 1 {
        assert Render(cs) == Cut(d);
      } else {
        assert cs[1] in cs;
        SubDrops(cs[2..], d);
        CutSecond(cs, d);
        SubSkipsName(cs[1], Render(cs[2..]), Cut(d), "\\");
        DropOne(cs[1], Drop(cs[2..], d));
      }
    }
  }

  lemma CutSecond(cs: seq<string>, d: string)
    requires |cs| > 1 && cs[0] == d
    ensures Render(cs)[|Cut(d)|..] == cs[1] + Render(cs[2..])
  {
    RenderStep(cs);
    RenderStep(cs[1..]);
    assert cs[1..][1..] == cs[2..] && cs[1..][0] == cs[1];
    AfterCut(d, cs[1], Render(cs[2..]));
  }

  lemma AfterCut(d: string, c: string, r: string)
    ensures ([SEP] + d + ([SEP] + c + r))[|Cut(d)|..] == c + r
  {
    assert [SEP] + d + ([SEP] + c + r) == Cut(d) + (c + r);
  }

  lemma DropOne(c: string, cs: seq<string>)
    ensures Render([c] + cs) == [SEP] + (c + Render(cs))
  {
    RenderStep([c] + cs);
    assert ([c] + cs)[1..] == cs;
  }

  lemma {:induction false} DropLength(cs: seq<string>, d: string)
    ensures |Drop(cs, d)| >= |Without(cs, d)|
    ensures Drop(cs, d) == Without(cs, d) <==> !Adjacent(cs, d)
    ensures |Drop(cs, d)| == |Without(cs, d)| ==> Drop(cs, d) == Without(cs, d)
    decreases |cs|
  {
    if |cs| >= 1 {
      AdjacentStep(cs, d);
      if cs[0] != d {
        DropLength(cs[1..], d);
        assert Drop(cs, d)[1..] == Drop(cs[1..], d) && Without(cs, d)[1..] == Without(cs[1..], d);
      } else if |cs| >= 2 {
        AdjacentStep(cs[1..], d);
        assert cs[1..][1..] == cs[2..] && cs[1..][0] == cs[1];
        DropLength(cs[2..], d);
        assert Drop(cs, d)[1..] == Drop(cs[2..], d);
        assert cs[1] != d ==> Without(cs[1..], d)[1..] == Without(cs[2..], d);
      }
    }
  }

  lemma AdjacentStep(cs: seq<string>, d: string)
    requires cs != []
    ensures Adjacent(cs, d) <==> (|cs| >= 2 && cs[0] == d && cs[1] == d) || Adjacent(cs[1..], d)
  {
    if Adjacent(cs, d) {
      var i :| 0 <= i < |cs| - 1 && cs[i] == d && cs[i + 1] == d;
      if i > 0 {
        assert cs[1..][i - 1] == d && cs[1..][i - 1 + 1] == d;
      }
    }
    if Adjacent(cs[1..], d) {
      var i :| 0 <= i < |cs[1..]| - 1 && cs[1..][i] == d && cs[1..][i + 1] == d;
      assert cs[i + 1] == d && cs[i + 1 + 1] == d;
    }
  }

  lemma {:induction false} WithoutLength(cs: seq<string>, d: string)
    ensures |Without(cs, d)| <= |cs| && d !in Without(cs, d)
    ensures d !in cs <==> |Without(cs, d)| == |cs|
    ensures d !in cs ==> Without(cs, d) == cs
  {
    if cs != [] {
      WithoutLength(cs[1..], d);
      assert cs == [cs[0]] + cs[1..];
    }
  }

  lemma {:induction false} WithoutMembers(cs: seq<string>, d: string)
    ensures forall c :: c in Without(cs, d) <==> c in cs && c != d
  {
    if cs != [] {
      WithoutMembers(cs[1..], d);
      assert cs == [cs[0]] + cs[1..];
    }
  }

  lemma {:induction false} WithoutAppend(a: seq<string>, b: seq<string>, d: string)
    ensures Without(a + b, d) == Without(a, d) + Without(b, d)
  {
    if a == [] {
      assert a + b == b;
    } else {
      assert (a + b)[1..] == a[1..] + b;
      WithoutAppend(a[1..], b, d);
      if a[0] != d {
        assert [a[0]] + (Without(a[1..], d) + Without(b, d)) == Without(a, d) + Without(b, d);
      }
    }
  }

  lemma {:induction false} DropMembers(cs: seq<string>, d: string)
    ensures forall c :: c in Drop(cs, d) ==> c in cs
    decreases |cs|
  {
    if cs != [] {
      assert cs == [cs[0]] + cs[1..];
      DropMembers(cs[1..], d);
      if |cs| > 1 {
        DropMembers(cs[2..], d);
        assert cs[1..] == [cs[1]] + cs[2..];
      }
    }
  }

  // ---------- Parts ----------

  lemma {:induction false} SplitRenders(s: string, cur: string)
    requires SEP !in cur && (if s == "" then cur == "" else s[|s| - 1] == SEP)
    ensures AllParts(Split(s, cur)) && Render(Split(s, cur)) == [SEP] + cur + s
    ensures Without(Split(s, cur), "") == Pieces(s, cur)
  {
    if s != "" {
      if s[0] == SEP {
        SplitRenders(s[1..], "");
        RenderCons(cur, Split(s[1..], ""));
        SameStart(s, cur);
        assert ([cur] + Split(s[1..], ""))[1..] == Split(s[1..], "");
      } else {
        SplitRenders(s[1..], cur + [s[0]]);
        MoveOne(SEP, cur, s);
      }
    }
  }

  lemma SameStart(s: string, cur: string)
    requires s != "" && s[0] == SEP
    ensures [SEP] + cur + ([SEP] + "" + s[1..]) == [SEP] + cur + s
  {
  }

  /** A path is the rendering of its parts; its components are those that are not empty. */
  lemma PartsRender(s: string)
    requires IsPath(s)
    ensures Render(Parts(s)) == s && AllParts(Parts(s)) && Without(Parts(s), "") == Components(s)
  {
    SplitRenders(s[1..], "");
    assert [SEP] + "" + s[1..] == s;
    assert Pieces(s, "") == [] + Pieces(s[1..], "") == Pieces(s[1..], "");
  }

  lemma {:induction false} SplitOfPart(c: string, t: string, cur: string)
    requires SEP !in c
    ensures Split(c + t, cur) == Split(t, cur + c)
  {
    if c == "" {
      assert c + t == t && cur + c == cur;
    } else {
      assert (c + t)[0] == c[0] && c[0] in c && (c + t)[1..] == c[1..] + t;
      SplitOfPart(c[1..], t, cur + [c[0]]);
      assert cur + [c[0]] + c[1..] == cur + c;
    }
  }

  /** Taking a path apart is the inverse of rendering, on all parts. */
  lemma {:induction false} PartsOfRender(cs: seq<string>)
    requires AllParts(cs)
    ensures Parts(Render(cs)) == cs
  {
    if cs != [] {
      assert cs[0] in cs;
      RenderStep(cs);
      SplitOfPart(cs[0], Render(cs[1..]), "");
      assert "" + cs[0] == cs[0];
      PartsOfRender(cs[1..]);
      assert [cs[0]] + cs[1..] == cs;
    }
  }

  lemma {:induction false} SplitAppend(a: string, b: string, cur: string)
    requires a != "" && a[|a| - 1] == SEP
    ensures Split(a + b, cur) == Split(a, cur) + Split(b, "")
  {
    assert (a + b)[0] == a[0] && (a + b)[1..] == a[1..] + b;
    if |a| == 1 {
      assert a[1..] + b == b;
    } else {
      SplitAppend(a[1..], b, if a[0] == SEP then "" else cur + [a[0]]);
    }
  }

  // ---------- The two meanings ----------

  /** The parts that go somewhere. */
  function Solid(cs: seq<string>): seq<string> {
    Without(Without(cs, "."), "")
  }

  lemma SolidSnoc(cs: seq<string>, x: string)
    ensures Solid(cs + [x]) == Solid(cs) + if Stays(x) then [] else [x]
  {
    assert [x][1..] == [];
    WithoutAppend(cs, [x], ".");
    WithoutAppend(Without(cs, "."), Without([x], "."), "");
  }

  /** The solid parts of one stack are the other plus one for each `..` that cancelled nothing
      solid, minus one for each that climbed; and where these are equally many, the same. */
  lemma {:induction false} Meanings(cs: seq<string>, c: seq<string>, r: seq<string>)
    requires Balanced(cs, |c|) && |Solid(c)| >= |r| && (|Solid(c)| == |r| ==> Solid(c) == r)
    ensures var left, right := Solid(Cancel(cs, c)), Resolve(cs, r);
      && |left| - |right| == |Solid(c)| - |r| + Pops(cs, c) - Climbs(cs, |r|)
      && |left| >= |right| && (|left| == |right| ==> left == right)
  {
    if cs != [] {
      var x, rest := cs[0], cs[1..];
      if x != ".." {
        SolidSnoc(c, x);
        Meanings(rest, c + [x], if Stays(x) then r else r + [x]);
      } else {
        var c', top := c[..|c| - 1], c[|c| - 1];
        assert c == c' + [top];
        SolidSnoc(c', top);
        var r' := if r == [] then [] else r[..|r| - 1];
        if !Stays(top) && |Solid(c)| == |r| {
          assert Solid(c)[..|Solid(c)| - 1] == Solid(c');
        }
        Meanings(rest, c', r');
      }
    }
  }

  /** What the last pass leaves is solid exactly if nothing else was there but single `.`. */
  lemma DropSolid(cs: seq<string>)
    ensures |Drop(cs, ".")| >= |Solid(cs)|
    ensures Drop(cs, ".") == Solid(cs) <==> !Adjacent(cs, ".") && "" !in cs
    ensures |Drop(cs, ".")| == |Solid(cs)| ==> Drop(cs, ".") == Solid(cs)
  {
    DropLength(cs, ".");
    WithoutLength(Without(cs, "."), "");
    WithoutMembers(cs, ".");
  }

  lemma {:induction false} ResolveSolid(cs: seq<string>, stack: seq<string>)
    requires "" !in stack && "." !in stack
    ensures "" !in Resolve(cs, stack) && "." !in Resolve(cs, stack)
  {
    if cs != [] {
      ResolveSolid(cs[1..], if Stays(cs[0]) then stack
        else if cs[0] == ".." then (if stack == [] then [] else stack[..|stack| - 1])
        else stack + [cs[0]]);
    }
  }

  /** Empty parts mean nothing. */
  lemma {:induction false} ResolveWithout(cs: seq<string>, stack: seq<string>)
    ensures Resolve(Without(cs, ""), stack) == Resolve(cs, stack)
    ensures Climbs(Without(cs, ""), |stack|) == Climbs(cs, |stack|)
  {
    if cs != [] {
      if Stays(cs[0]) {
        ResolveWithout(cs[1..], stack);
      } else if cs[0] == ".." {
        ResolveWithout(cs[1..], if stack == [] then [] else stack[..|stack| - 1]);
      } else {
        ResolveWithout(cs[1..], stack + [cs[0]]);
      }
      assert cs[0] != "" ==> Without(cs, "")[1..] == Without(cs[1..], "");
    }
  }

  /** When the two meanings come to the same from the stack `cs` on: no `..` meets the root, as many
      `..` cancel nothing solid as climb, and nothing but single `.` is left over. */
  predicate Agree(ds: seq<string>, cs: seq<string>) {
    && Balanced(ds, |cs|) && Pops(ds, cs) == Climbs(ds, |cs|)
    && !Adjacent(Cancel(ds, cs), ".") && "" !in Cancel(ds, cs)
  }

  lemma {:induction false} AgreeIff(ds: seq<string>, cs: seq<string>)
    requires Solid(cs) == cs
    ensures Agree(ds, cs) <==> Balanced(ds, |cs|) && Drop(Cancel(ds, cs), ".") == Resolve(ds, cs)
  {
    if Balanced(ds, |cs|) {
      Meanings(ds, cs, cs);
      DropSolid(Cancel(ds, cs));
    }
  }

  // ---------- Main results ----------

  /** The first pass, on parts: of a run of separators it leaves every second one. */
  function Squeezed(s: string): seq<string>
    requires s != ""
  {
    Drop(Parts(s), "")
  }

  lemma {:induction false} SqueezeDrops(s: string)
    requires IsPath(s)
    ensures Squeeze(s) == Render(Squeezed(s)) && AllParts(Squeezed(s))
    ensures Without(Squeezed(s), "") == Components(s)
  {
    var cs := Squeezed(s);
    PartsRender(s);
    SubDrops(Parts(s), "");
    assert Cut("") == "\\\\";
    DropMembers(Parts(s), "");
    PartsRender(Render(cs));
    PartsOfRender(cs);
    SqueezeKeepsPieces(s, "");
  }

  /** Without three separators in a row these are the components. */
  lemma {:induction false} UntripledParts(s: string)
    requires IsPath(s) && !Tripled(s)
    ensures Squeezed(s) == Components(s) && AllNames(Components(s))
  {
    SqueezeDrops(s);
    SqueezeEnds(s);
    SqueezeRemovesDoubles(s);
    SqueezeKeepsPieces(s, "");
    RenderComponents(Squeeze(s));
    PartsOfRender(Squeezed(s));
    PartsOfRender(Components(s));
  }

  lemma TrimKeepsPath(s: string)
    requires s == "" || s[|s| - 1] == SEP
    ensures TrimBack(s, "\\..") == s
  {
    if |s| >= 3 {
      assert s[|s| - 3..][2] == SEP;
    }
  }

  /** What dos_clean_name yields, on every path: the first pass thins out runs of separators; then
      `..` cancels the part before it, be it `.` or empty; then one pass drops `.` components. When
      a `..` meets the root, what is left is the empty string. */
  lemma {:induction false} CleanIs(s: string)
    requires IsPath(s)
    ensures var cs := Squeezed(s);
      Clean(s) == if Balanced(cs, 0) then Render(Drop(Cancel(cs, []), ".")) else ""
  {
    var cs := Squeezed(s);
    SqueezeDrops(s);
    CancelLoop(cs);
    if Balanced(cs, 0) {
      CancelKeepsParts(cs, []);
      LastPasses(Cancel(cs, []));
    } else {
      TrimKeepsPath("");
    }
  }

  /** Nothing is left to trim, and then `.` components are dropped. */
  lemma LastPasses(cs: seq<string>)
    requires AllParts(cs)
    ensures Sub(TrimBack(Render(cs), "\\.."), DOT, "\\") == Render(Drop(cs, "."))
  {
    assert Cut(".") == DOT;
    TrimKeepsPath(Render(cs));
    SubDrops(cs, ".");
  }

  /** It is the usual resolution of the path's components exactly if no `..` meets the root, as many
      `..` cancel a `.` or an empty part as find the usual stack empty, and neither two `.` in a row
      nor an empty part is left over. */
  lemma {:induction false} CleanResolvesIff(s: string)
    requires IsPath(s)
    ensures Clean(s) == Render(Resolve(Components(s), [])) <==> Agree(Squeezed(s), [])
  {
    var cs := Squeezed(s);
    CleanIs(s);
    SqueezeDrops(s);
    ResolveWithout(cs, []);
    AgreeIff(cs, []);
    if Balanced(cs, 0) {
      RendersSame(cs, []);
    }
  }

  lemma RendersSame(ds: seq<string>, cs: seq<string>)
    requires AllParts(ds) && AllParts(cs)
    ensures Render(Drop(Cancel(ds, cs), ".")) == Render(Resolve(ds, cs)) <==> Drop(Cancel(ds, cs), ".") == Resolve(ds, cs)
  {
    CancelKeepsParts(ds, cs);
    DropMembers(Cancel(ds, cs), ".");
    ResolveKeepsParts(ds, cs);
    if Render(Drop(Cancel(ds, cs), ".")) == Render(Resolve(ds, cs)) {
      RenderInjective(Drop(Cancel(ds, cs), "."), Resolve(ds, cs));
    }
  }

  lemma {:induction false} ResolveKeepsParts(cs: seq<string>, stack: seq<string>)
    requires AllParts(cs) && AllParts(stack)
    ensures AllParts(Resolve(cs, stack))
  {
    if cs != [] {
      ResolveKeepsParts(cs[1..], if Stays(cs[0]) then stack
        else if cs[0] == ".." then (if stack == [] then [] else stack[..|stack| - 1])
        else stack + [cs[0]]);
    }
  }

  /** For a path with no three separators in a row and no `.` component, dos_clean_name yields
      the resolution of the path if and only if no `..` climbs above the root. When one does,
      what is left is the empty string. */
  lemma CleanResolves(s: string)
    requires IsPath(s) && !Tripled(s) && "." !in Components(s)
    ensures Clean(s) == Render(Resolve(Components(s), [])) <==> NeverClimbs(Components(s), 0)
    ensures !NeverClimbs(Components(s), 0) ==> Clean(s) == ""
  {
    var cs := Components(s);
    CleanIs(s);
    UntripledParts(s);
    WithoutLength(Parts(s), "");
    PartsRender(s);
    CancelIsResolve(cs, []);
    ResolveSolid(cs, []);
    DropNothing(Resolve(cs, []), ".");
  }

  lemma DropNothing(cs: seq<string>, d: string)
    requires d !in cs
    ensures Drop(cs, d) == cs
  {
    WithoutLength(cs, d);
    DropLength(cs, d);
  }

  /** The two meanings differ: `\a\.\..\` is cleaned to `\a\`, and its resolution is the root. */
  lemma DotCancelledExample()
    ensures var s := "\\a\\.\\..\\";
      Components(s) == ["a", ".", ".."] && Clean(s) == "\\a\\" && Resolve(Components(s), []) == []
  {
    var cs := ["a", ".", ".."];
    ExampleRendered();
    ComponentsOfRender(cs);
    ExampleUntripled();
    UntripledParts(Render(cs));
    CleanIs(Render(cs));
    ExampleMeanings(cs);
    RenderStep(["a"]);
  }

  lemma ExampleRendered()
    ensures Render(["a", ".", ".."]) == "\\a\\.\\..\\" && Render(["a"]) == "\\a\\"
  {
    RenderCons("a", [".", ".."]);
    RenderCons(".", [".."]);
    RenderCons("..", []);
    RenderCons("a", []);
    assert ["a", ".", ".."] == ["a"] + [".", ".."] && [".", ".."] == ["."] + [".."];
    assert [".."] == [".."] + [] && ["a"] == ["a"] + [];
  }

  lemma ExampleMeanings(cs: seq<string>)
    requires cs == ["a", ".", ".."]
    ensures Balanced(cs, 0) && Drop(Cancel(cs, []), ".") == ["a"] && Resolve(cs, []) == []
  {
    assert cs[1..] == [".", ".."] && cs[1..][1..] == [".."] && cs[1..][1..][1..] == [];
    assert [] + ["a"] == ["a"] && ["a"] + ["."] == ["a", "."] && ["a", "."][..1] == ["a"];
    assert Cancel([".."], ["a", "."]) == Cancel([], ["a"]);
    assert Cancel([".", ".."], ["a"]) == ["a"];
    assert Resolve([".."], ["a"]) == Resolve([], []);
    assert Drop(["a"], ".") == ["a"] + Drop([], ".");
  }

  /** Of three separators in a row two are left, and a `..` cancels the empty part between them: what
      is left of `a`, three separators and `..` is `a`, and the resolution is the root. */
  lemma EmptyCancelledExample()
    ensures var s := Render(["a", "", "", ".."]);
      IsPath(s) && Clean(s) == Render(["a"]) && Resolve(Components(s), []) == []
  {
    var ps, cs := ["a", "", "", ".."], ["a", "", ".."];
    PartsOfRender(ps);
    assert ps[1..] == ["", "", ".."] && ps[1..][2..] == [".."] && [".."][1..] == [];
    assert Drop([".."], "") == [".."] + Drop([], "");
    assert Drop(ps[1..], "") == [""] + Drop([".."], "") && Drop(ps, "") == cs;
    CleanIs(Render(ps));
    EmptyMeanings(cs);
    SqueezeDrops(Render(ps));
    ResolveWithout(cs, []);
  }

  lemma EmptyMeanings(cs: seq<string>)
    requires cs == ["a", "", ".."]
    ensures Balanced(cs, 0) && Drop(Cancel(cs, []), ".") == ["a"] && Resolve(cs, []) == []
  {
    assert cs[1..] == ["", ".."] && cs[1..][1..] == [".."] && cs[1..][1..][1..] == [];
    assert [] + ["a"] == ["a"] && ["a"] + [""] == ["a", ""] && ["a", ""][..1] == ["a"];
    assert Cancel([".."], ["a", ""]) == Cancel([], ["a"]);
    assert Cancel(["", ".."], ["a"]) == ["a"];
    assert Resolve([".."], ["a"]) == Resolve([], []);
    assert Drop(["a"], ".") == ["a"] + Drop([], ".");
  }

  lemma {:induction false} TripledAt(s: string) returns (i: nat)
    requires Tripled(s)
    ensures i + 2 < |s| && s[i] == SEP && s[i + 1] == SEP && s[i + 2] == SEP
  {
    if s[0] == SEP && s[1] == SEP && s[2] == SEP {
      i := 0;
    } else {
      i := TripledAt(s[1..]);
      i := i + 1;
    }
  }

  lemma ExampleUntripled()
    ensures !Tripled("\\a\\.\\..\\")
  {
    if Tripled("\\a\\.\\..\\") {
      var i := TripledAt("\\a\\.\\..\\");
      assert false;
    }
  }

  lemma RenderInjective(a: seq<string>, b: seq<string>)
    requires AllParts(a) && AllParts(b) && Render(a) == Render(b)
    ensures a == b
  {
    PartsOfRender(a);
    PartsOfRender(b);
  }

  lemma {:induction false} PiecesOfName(c: string, t: string, cur: string)
    requires SEP !in c
    ensures Pieces(c + t, cur) == Pieces(t, cur + c)
  {
    if c == "" {
      assert c + t == t && cur + c == cur;
    } else {
      assert (c + t)[0] == c[0] && c[0] in c && (c + t)[1..] == c[1..] + t;
      PiecesOfName(c[1..], t, cur + [c[0]]);
      assert cur + [c[0]] + c[1..] == cur + c;
    }
  }

  lemma {:induction false} PiecesOfRender(cs: seq<string>, cur: string)
    requires AllNames(cs)
    ensures Pieces(Render(cs), cur) == Push([], cur) + cs
  {
    var s := Render(cs);
    if cs != [] {
      assert cs[0] in cs;
      RenderStep(cs);
      PiecesOfName(cs[0], Render(cs[1..]), "");
      assert "" + cs[0] == cs[0];
      PiecesOfRender(cs[1..], cs[0]);
      assert Pieces(s, cur) == Push([], cur) + Pieces(s[1..], "");
      assert [cs[0]] + cs[1..] == cs;
    }
  }

  /** Splitting is the inverse of rendering. */
  lemma ComponentsOfRender(cs: seq<string>)
    requires AllNames(cs)
    ensures Components(Render(cs)) == cs
  {
    PiecesOfRender(cs, "");
  }

  /** For a path with no three separators in a row and no `..`, the pass that drops `.`
      components drops them all if and only if no two are adjacent. */
  lemma CleanDropsDots(s: string)
    requires IsPath(s) && !Tripled(s) && ".." !in Components(s)
    ensures Clean(s) == Render(Without(Components(s), ".")) <==> !Adjacent(Components(s), ".")
  {
    var cs := Components(s);
    CleanIs(s);
    UntripledParts(s);
    CancelPlain(cs, []);
    assert [] + cs == cs;
    DropLength(cs, ".");
    DropMembers(cs, ".");
    WithoutMembers(cs, ".");
    if Render(Drop(cs, ".")) == Render(Without(cs, ".")) {
      RenderInjective(Drop(cs, "."), Without(cs, "."));
    }
  }

  // ---------- cd ----------

  /** dos_format */
  function DosFormat(s: string): (r: string)
    ensures |r| == |s| && '/' !in r
  {
    if s == "" then "" else [if s[0] == '/' then SEP else s[0]] + DosFormat(s[1..])
  }

  /** dos_format takes every `/` for a separator and changes nothing else. */
  lemma {:induction false} DosFormatIs(s: string, i: nat)
    requires i < |s|
    ensures DosFormat(s)[i] == if s[i] == '/' then '\\' else s[i]
  {
    if i > 0 {
      DosFormatIs(s[1..], i - 1);
    }
  }

  lemma {:induction false} DosFormatAppend(a: string, b: string)
    ensures DosFormat(a + b) == DosFormat(a) + DosFormat(b)
  {
    if a == "" {
      assert a + b == b;
    } else {
      assert (a + b)[1..] == a[1..] + b;
      DosFormatAppend(a[1..], b);
    }
  }

  lemma {:induction false} DosFormatKeeps(s: string)
    ensures DosFormat(s) == s <==> '/' !in s
  {
    if s != "" {
      DosFormatKeeps(s[1..]);
      assert s == [s[0]] + s[1..];
    }
  }

  /** The path that do_cd cleans: `newdir` after the current directory, unless it is absolute, with
      every `/` taken for a separator. */
  function CdPath(cur: string, newdir: string): string {
    var d := DosFormat(if newdir != "" && newdir[0] == SEP then newdir else cur + [SEP] + newdir);
    if d[|d| - 1] == SEP then d else d + [SEP]
  }

  lemma {:induction false} PiecesAppend(a: string, b: string, cur: string)
    requires a != "" && a[|a| - 1] == SEP
    ensures Pieces(a + b, cur) == Pieces(a, cur) + Pieces(b, "")
  {
    assert (a + b)[0] == a[0] && (a + b)[1..] == a[1..] + b;
    if |a| == 1 {
      assert a[1..] + b == b;
    } else {
      PiecesAppend(a[1..], b, if a[0] == SEP then "" else cur + [a[0]]);
    }
  }

  lemma {:induction false} PiecesOfTerminated(b: string, cur: string)
    requires b != "" && b[|b| - 1] != SEP
    ensures Pieces(b + [SEP], cur) == Pieces(b, cur)
  {
    assert (b + [SEP])[0] == b[0] && (b + [SEP])[1..] == b[1..] + [SEP];
    if |b| == 1 {
      assert b[1..] + [SEP] == [SEP] && Pieces([SEP], cur + [b[0]]) == [cur + [b[0]]] + [];
    } else {
      PiecesOfTerminated(b[1..], if b[0] == SEP then "" else cur + [b[0]]);
    }
  }

  lemma CdPathIs(cur: string, newdir: string)
    requires '/' !in cur && (newdir == "" || newdir[0] != SEP)
    ensures var d := cur + [SEP] + DosFormat(newdir);
      CdPath(cur, newdir) == if d[|d| - 1] == SEP then d else d + [SEP]
  {
    DosFormatAppend(cur + [SEP], newdir);
    DosFormatKeeps(cur + [SEP]);
  }

  /** `cd` to a relative name resolves the name's components from those of the current directory. */
  lemma {:induction false} CdComponents(cs: seq<string>, newdir: string)
    requires AllNames(cs) && '/' !in Render(cs) && (newdir == "" || newdir[0] != SEP)
    ensures Components(CdPath(Render(cs), newdir)) == cs + Components(DosFormat(newdir))
    ensures IsPath(CdPath(Render(cs), newdir))
  {
    CdPathIs(Render(cs), newdir);
    SumComponents(cs, DosFormat(newdir));
    Terminated(Render(cs) + [SEP] + DosFormat(newdir));
  }

  lemma SumComponents(cs: seq<string>, n: string)
    requires AllNames(cs)
    ensures Components(Render(cs) + [SEP] + n) == cs + Components(n) && (Render(cs) + [SEP] + n)[0] == SEP
  {
    RenderSeparated(cs);
    PiecesAppend(Render(cs) + [SEP], n, "");
  }

  lemma RenderSeparated(cs: seq<string>)
    requires AllNames(cs)
    ensures Components(Render(cs) + [SEP]) == cs
  {
    PiecesAppend(Render(cs), [SEP], "");
    ComponentsOfRender(cs);
    assert Pieces([SEP], "") == [];
    assert cs + [] == cs;
  }

  lemma Terminated(d: string)
    requires d != ""
    ensures var e := if d[|d| - 1] == SEP then d else d + [SEP];
      Components(e) == Components(d) && e[0] == d[0] && e[|e| - 1] == SEP
  {
    if d[|d| - 1] != SEP {
      PiecesOfTerminated(d, "");
    }
  }

  lemma {:induction false} CancelAppend(a: seq<string>, b: seq<string>, stack: seq<string>)
    requires ".." !in a
    ensures Cancel(a + b, stack) == Cancel(b, stack + a)
    ensures Balanced(a + b, |stack|) <==> Balanced(b, |stack| + |a|)
  {
    if a == [] {
      assert a + b == b && stack + a == stack;
    } else {
      assert (a + b)[1..] == a[1..] + b;
      CancelAppend(a[1..], b, stack + [a[0]]);
      assert stack + [a[0]] + a[1..] == stack + a;
    }
  }

  lemma CancelBelow(a: seq<string>, b: seq<string>)
    requires ".." !in a
    ensures Cancel(a + b, []) == Cancel(b, a) && (Balanced(a + b, 0) <==> Balanced(b, |a|))
  {
    CancelAppend(a, b, []);
    assert [] + a == a;
  }

  /** A name with a separator at its end. */
  function Ended(n: string): string {
    if n == "" || n[|n| - 1] == SEP then n else n + [SEP]
  }

  /** What the first pass leaves of what is typed after the current directory: the separator
      between the two makes an empty part, which is cut, and spares the part after it. */
  function Typed(newdir: string): seq<string> {
    var n := DosFormat(newdir);
    Drop([""] + Split(Ended(n), ""), "")
  }

  lemma {:induction false} DropAppend(a: seq<string>, b: seq<string>, d: string)
    requires d !in a
    ensures Drop(a + b, d) == a + Drop(b, d)
  {
    if a == [] {
      assert a + b == b;
    } else {
      assert (a + b)[1..] == a[1..] + b;
      DropAppend(a[1..], b, d);
    }
  }

  /** The parts of the path that `cd` cleans. */
  lemma {:induction false} CdParts(cs: seq<string>, newdir: string)
    requires AllNames(cs) && '/' !in Render(cs) && (newdir == "" || newdir[0] != SEP)
    ensures IsPath(CdPath(Render(cs), newdir)) && Squeezed(CdPath(Render(cs), newdir)) == cs + Typed(newdir)
  {
    var r, n := Render(cs), DosFormat(newdir);
    var e := Ended(n);
    CdComponents(cs, newdir);
    CdPathIs(r, newdir);
    Appended(r, n);
    PartsOfSum(cs, e);
    DropAppend(cs, [""] + Split(e, ""), "");
  }

  lemma Appended(r: string, n: string)
    ensures var d, e := r + [SEP] + n, Ended(n);
      (if d[|d| - 1] == SEP then d else d + [SEP]) == r + ([SEP] + e)
  {
    if n != "" {
      assert (r + [SEP] + n)[|r| + |n|] == n[|n| - 1];
    }
  }

  lemma PartsOfSum(cs: seq<string>, e: string)
    requires AllNames(cs)
    ensures Parts(Render(cs) + ([SEP] + e)) == cs + ([""] + Split(e, ""))
  {
    var r, u := Render(cs), [SEP] + e;
    PartsOfRender(cs);
    TailOfSum(r, u);
    SplitSeparated(e);
    if cs == [] {
      assert r[1..] + u == u;
      assert [] + Split(u, "") == Split(u, "");
    } else {
      RenderStep(cs);
      SplitAppend(r[1..], u, "");
    }
  }

  lemma TailOfSum(r: string, u: string)
    requires r != ""
    ensures (r + u)[1..] == r[1..] + u
    ensures |r| > 1 ==> r[1..][|r[1..]| - 1] == r[|r| - 1]
  {
  }

  lemma SplitSeparated(e: string)
    ensures Split([SEP] + e, "") == [""] + Split(e, "")
  {
    assert ([SEP] + e)[1..] == e;
  }

  /** What `cd newdir` makes of the directory `cs`, for every relative name. */
  lemma {:induction false} CdIs(cs: seq<string>, newdir: string)
    requires AllNames(cs) && '/' !in Render(cs) && ".." !in cs && (newdir == "" || newdir[0] != SEP)
    ensures var ds := Typed(newdir);
      Clean(CdPath(Render(cs), newdir)) == if Balanced(ds, |cs|) then Render(Drop(Cancel(ds, cs), ".")) else ""
  {
    CdParts(cs, newdir);
    CancelBelow(cs, Typed(newdir));
    CleanIs(CdPath(Render(cs), newdir));
  }

  /** The components of what is typed are those of its parts that are not empty. */
  lemma {:induction false} TypedComponents(cs: seq<string>, newdir: string)
    requires AllNames(cs) && '/' !in Render(cs) && (newdir == "" || newdir[0] != SEP)
    ensures Without(Typed(newdir), "") == Components(DosFormat(newdir)) && AllParts(Typed(newdir))
    ensures !Tripled(CdPath(Render(cs), newdir)) ==> Typed(newdir) == Components(DosFormat(newdir))
  {
    var s, ds := CdPath(Render(cs), newdir), Typed(newdir);
    CdParts(cs, newdir);
    CdComponents(cs, newdir);
    SqueezeDrops(s);
    WithoutAppend(cs, ds, "");
    WithoutLength(cs, "");
    TailsEqual(cs, Without(ds, ""), Components(DosFormat(newdir)));
    forall c | c in ds ensures SEP !in c {
      assert c in cs + ds;
    }
    if !Tripled(s) {
      UntripledParts(s);
      TailsEqual(cs, ds, Components(DosFormat(newdir)));
    }
  }

  lemma TailsEqual<T>(a: seq<T>, b: seq<T>, c: seq<T>)
    ensures a + b == a + c ==> b == c
  {
    if a + b == a + c {
      assert (a + b)[|a|..] == b && (a + c)[|a|..] == c;
    }
  }

  lemma SolidNames(cs: seq<string>)
    requires AllNames(cs) && "." !in cs
    ensures Solid(cs) == cs
  {
    WithoutLength(cs, ".");
    WithoutLength(cs, "");
  }

  /** `cd newdir` from the directory `cs`, for every relative name: the new path is the resolution of
      the name there, exactly when the two meanings agree from `cs` on. */
  lemma {:induction false} CdResolves(cs: seq<string>, newdir: string)
    requires AllNames(cs) && '/' !in Render(cs) && "." !in cs && ".." !in cs && (newdir == "" || newdir[0] != SEP)
    ensures Clean(CdPath(Render(cs), newdir)) == Render(Resolve(Components(DosFormat(newdir)), cs))
            <==> Agree(Typed(newdir), cs)
  {
    var ds := Typed(newdir);
    CdIs(cs, newdir);
    TypedComponents(cs, newdir);
    ResolveWithout(ds, cs);
    SolidNames(cs);
    AgreeIff(ds, cs);
    RendersSame(ds, cs);
  }

  /** For a name without `.` components that yields no three separators in a row, that is exactly
      when the name does not climb higher than `cs` is deep. */
  lemma {:induction false} CdResolvesNames(cs: seq<string>, newdir: string)
    requires AllNames(cs) && '/' !in Render(cs) && "." !in cs && ".." !in cs && (newdir == "" || newdir[0] != SEP)
    requires "." !in Components(DosFormat(newdir)) && !Tripled(CdPath(Render(cs), newdir))
    ensures Clean(CdPath(Render(cs), newdir)) == Render(Resolve(Components(DosFormat(newdir)), cs))
            <==> NeverClimbs(Components(DosFormat(newdir)), |cs|)
  {
    var ds := Components(DosFormat(newdir));
    CdIs(cs, newdir);
    TypedComponents(cs, newdir);
    WithoutLength(Typed(newdir), "");
    CancelIsResolve(ds, cs);
    ResolveSolid(ds, cs);
    DropNothing(Resolve(ds, cs), ".");
  }

  /** `cd` to a name that starts with a separator leaves the current directory out of it: the path
      is the name's own, and its components are the name's. */
  lemma CdAbsolute(cur: string, newdir: string)
    requires newdir != "" && newdir[0] == SEP
    ensures CdPath(cur, newdir) == Ended(DosFormat(newdir)) && IsPath(CdPath(cur, newdir))
    ensures Components(CdPath(cur, newdir)) == Components(DosFormat(newdir))
  {
    assert DosFormat(newdir)[0] == SEP;
    Terminated(DosFormat(newdir));
  }

  /** What `cd` makes of such a name, and when that is the resolution of the name from the root. */
  lemma {:induction false} CdAbsoluteIs(cur: string, newdir: string)
    requires newdir != "" && newdir[0] == SEP
    ensures IsPath(Ended(DosFormat(newdir)))
    ensures var cs := Squeezed(Ended(DosFormat(newdir)));
      Clean(CdPath(cur, newdir)) == if Balanced(cs, 0) then Render(Drop(Cancel(cs, []), ".")) else ""
    ensures Clean(CdPath(cur, newdir)) == Render(Resolve(Components(DosFormat(newdir)), []))
            <==> Agree(Squeezed(Ended(DosFormat(newdir))), [])
  {
    CdAbsolute(cur, newdir);
    CleanIs(CdPath(cur, newdir));
    CleanResolvesIff(CdPath(cur, newdir));
  }

  // ---------- Names that end without a separator ----------

  lemma {:induction false} FirstTail(t: string, f: string, pat: string)
    requires SEP !in f && pat != "" && pat[|pat| - 1] == SEP
    ensures First(t + f, pat) == First(t, pat)
  {
    NoneInTail(t, f, pat);
    if t == "" {
      assert t + f == f;
      NotInTail(f, pat);
    } else {
      assert (t + f)[1..] == t[1..] + f;
      FirstTail(t[1..], f, pat);
      FirstStep(t + f, pat);
      FirstStep(t, pat);
    }
  }

  /** A pattern that ends with a separator does not end in the tail. */
  lemma NoneInTail(t: string, f: string, pat: string)
    requires SEP !in f && pat != "" && pat[|pat| - 1] == SEP
    ensures pat <= t + f <==> pat <= t
  {
    if |t| < |pat| <= |t + f| {
      assert (t + f)[|pat| - 1] == f[|pat| - 1 - |t|] != SEP;
    }
  }

  lemma {:induction false} NotInTail(f: string, pat: string)
    requires SEP !in f && pat != "" && pat[|pat| - 1] == SEP
    ensures First(f, pat) == None
  {
    if |pat| <= |f| {
      assert f[..|pat|][|pat| - 1] == f[|pat| - 1] != SEP;
      NotInTail(f[1..], pat);
    }
  }

  lemma {:induction false} SubTail(t: string, f: string, pat: string, ins: string)
    requires SEP !in f && pat != "" && pat[|pat| - 1] == SEP
    ensures Sub(t + f, pat, ins) == Sub(t, pat, ins) + f
    decreases |t|
  {
    FirstTail(t, f, pat);
    var k := First(t, pat);
    if k.None? {
      SubNothing(t, pat, ins);
      SubNothing(t + f, pat, ins);
    } else {
      SubTail(t[k.value + |pat|..], f, pat, ins);
      SubTailStep(t, f, pat, ins, k.value);
    }
  }

  lemma {:induction false} SubTailStep(t: string, f: string, pat: string, ins: string, k: nat)
    requires pat != "" && First(t, pat) == Some(k) && First(t + f, pat) == Some(k)
    requires Sub(t[k + |pat|..] + f, pat, ins) == Sub(t[k + |pat|..], pat, ins) + f
    ensures Sub(t + f, pat, ins) == Sub(t, pat, ins) + f
  {
    var rest := Sub(t[k + |pat|..], pat, ins);
    assert Sub(t, pat, ins) == t[..k] + ins + rest by {
      SubFirst(t, pat, ins, k);
    }
    assert Sub(t + f, pat, ins) == t[..k] + ins + (rest + f) by {
      SubFirst(t + f, pat, ins, k);
      TailPieces(t, f, k, |pat|);
    }
    Associates(t[..k] + ins, rest, f);
  }

  lemma TailPieces(t: string, f: string, k: nat, n: nat)
    requires k + n <= |t|
    ensures (t + f)[..k] == t[..k] && (t + f)[k + n..] == t[k + n..] + f
  {
  }

  lemma {:induction false} LastIsSome(s: string)
    requires s != "" && s[0] == SEP
    ensures Last(s, SEP).Some? && s[Last(s, SEP).value] == SEP
  {
    if s[|s| - 1] != SEP {
      LastIsSome(s[..|s| - 1]);
    }
  }

  /** The `..` loop leaves a tail without separators alone, unless nothing is left before it. */
  lemma {:induction false} CancelTail(t: string, f: string)
    requires IsPath(t) && SEP !in f
    ensures CancelDotDot(t) == "" || IsPath(CancelDotDot(t))
    ensures CancelDotDot(t + f) == if CancelDotDot(t) == "" then "" else CancelDotDot(t) + f
    decreases |t|
  {
    FirstTail(t, f, DOTDOT);
    var p := First(t, DOTDOT);
    if p.Some? {
      assert (t + f)[..p.value] == t[..p.value];
      if p.value > 0 {
        LastIsSome(t[..p.value]);
        var r := Last(t[..p.value], SEP).value;
        FirstIsFirst(t, DOTDOT, p.value);
        CancelNext(t, f, p.value, r);
        CancelTail(t[..r] + t[p.value + 3..], f);
      }
    }
  }

  lemma CancelNext(t: string, f: string, p: nat, r: nat)
    requires IsPath(t) && r < p && p + 4 <= |t| && t[p..p + 4] == DOTDOT && t[r] == SEP
    ensures IsPath(t[..r] + t[p + 3..])
    ensures (t + f)[..r] + (t + f)[p + 3..] == (t[..r] + t[p + 3..]) + f
  {
    assert t[p + 3] == t[p..p + 4][3] == SEP;
  }

  lemma TrimTail(u: string, f: string)
    requires u != "" && u[|u| - 1] == SEP && SEP !in f && f != ".."
    ensures TrimBack(u + f, "\\..") == u + f
  {
    var s := u + f;
    if |s| >= 3 {
      var end := s[|s| - 3..];
      if |f| >= 3 {
        assert end[0] == f[|f| - 3] != SEP;
      } else if |f| == 2 {
        assert end[1..] == f && "\\.."[1..] == "..";
      } else {
        assert end[2 - |f|] == SEP;
      }
    }
  }

  lemma {:induction false} CancelNoDotDot(cs: seq<string>, stack: seq<string>)
    requires ".." !in stack
    ensures ".." !in Cancel(cs, stack)
  {
    if cs != [] {
      CancelNoDotDot(cs[1..], if cs[0] == ".." then (if stack == [] then [] else stack[..|stack| - 1]) else stack + [cs[0]]);
    }
  }

  lemma RenderWithoutEnd(cs: seq<string>, x: string)
    ensures var r := Render(cs + [x]); r[..|r| - 1] == Render(cs) + x
  {
    RenderConcat(cs, [x]);
    RenderCons(x, []);
    assert [x] + [] == [x];
    var u := Render(cs);
    assert Render(cs + [x]) == u[..|u| - 1] + ([SEP] + x + [SEP]);
    assert u[..|u| - 1] + [SEP] == u;
  }

  lemma TrimOnce(u: string)
    requires u != "" && u[|u| - 1] == SEP
    ensures TrimBack(u + "..", "\\..") == TrimBack(u[..|u| - 1], "\\..")
  {
    var s := u + "..";
    assert s[|s| - 3..] == "\\.." && s[..|s| - 3] == u[..|u| - 1];
  }

  /** What is trimmed after a `..` at the end: it, the separator before it, and nothing else. */
  lemma TrimDotDot(cs: seq<string>, x: string)
    requires SEP !in x && x != ".."
    ensures TrimBack(Render(cs + [x]) + "..", "\\..") == Render(cs) + x
  {
    TrimOnce(Render(cs + [x]));
    RenderWithoutEnd(cs, x);
    TrimTail(Render(cs), x);
  }

  lemma TrimRoot()
    ensures TrimBack(Render([]) + "..", "\\..") == ""
  {
    TrimOnce(Render([]));
    assert Render([])[..0] == "";
  }

  /** What dos_clean_name yields on a path with a name `f` behind its last separator: that stays,
      `.` too; but `..` takes the part before it with it, and its separator. */
  lemma {:induction false} CleanFile(t: string, f: string)
    requires IsPath(t) && SEP !in f
    ensures var cs := Squeezed(t);
      var c := Cancel(cs, []);
      Clean(t + f) ==
        if !Balanced(cs, 0) then ""
        else if f != ".." then Render(Drop(c, ".")) + f
        else if c == [] then ""
        else Render(Drop(c[..|c| - 1], ".")) + c[|c| - 1]
  {
    var cs := Squeezed(t);
    FileCancelled(t, f);
    if Balanced(cs, 0) {
      SqueezeDrops(t);
      CancelKeepsParts(cs, []);
      CancelNoDotDot(cs, []);
      FileTrimmed(Cancel(cs, []), f);
    } else {
      TrimKeepsPath("");
    }
  }

  lemma {:induction false} FileCancelled(t: string, f: string)
    requires IsPath(t) && SEP !in f
    ensures var cs := Squeezed(t);
      CancelDotDot(Squeeze(t + f)) == if Balanced(cs, 0) then Render(Cancel(cs, [])) + f else ""
  {
    SubTail(t, f, "\\\\", "\\");
    SqueezeDrops(t);
    CancelTail(Render(Squeezed(t)), f);
    CancelLoop(Squeezed(t));
  }

  lemma {:induction false} FileTrimmed(c: seq<string>, f: string)
    requires AllParts(c) && ".." !in c && SEP !in f
    ensures Sub(TrimBack(Render(c) + f, "\\.."), DOT, "\\") ==
      if f != ".." then Render(Drop(c, ".")) + f
      else if c == [] then ""
      else Render(Drop(c[..|c| - 1], ".")) + c[|c| - 1]
  {
    if f != ".." {
      FileKept(c, f);
    } else if c == [] {
      TrimRoot();
    } else {
      var k := |c| - 1;
      assert c[k] in c && c == c[..k] + [c[k]];
      TrimDotDot(c[..k], c[k]);
      DropsBefore(c[..k], c[k]);
    }
  }

  lemma FileKept(c: seq<string>, f: string)
    requires AllParts(c) && SEP !in f && f != ".."
    ensures Sub(TrimBack(Render(c) + f, "\\.."), DOT, "\\") == Render(Drop(c, ".")) + f
  {
    TrimTail(Render(c), f);
    DropsBefore(c, f);
  }

  lemma DropsBefore(c: seq<string>, f: string)
    requires AllParts(c) && SEP !in f
    ensures Sub(Render(c) + f, DOT, "\\") == Render(Drop(c, ".")) + f
  {
    SubTail(Render(c), f, DOT, "\\");
    SubDrops(c, ".");
    assert Cut(".") == DOT;
  }

  /** Every string that starts with a separator is such a path and name. */
  lemma PathAndFile(s: string) returns (t: string, f: string)
    requires s != "" && s[0] == SEP
    ensures s == t + f && IsPath(t) && SEP !in f
  {
    LastIsSome(s);
    var k := Last(s, SEP).value;
    t, f := s[..k + 1], s[k + 1..];
    NothingAfterLast(s);
  }

  lemma {:induction false} NothingAfterLast(s: string)
    requires s != "" && s[0] == SEP
    ensures Last(s, SEP).Some? && SEP !in s[Last(s, SEP).value + 1..]
  {
    if s[|s| - 1] != SEP {
      var b := s[..|s| - 1];
      NothingAfterLast(b);
      var k := Last(b, SEP).value;
      assert s[k + 1..] == b[k + 1..] + [s[|s| - 1]];
    }
  }

  // ---------- No `/` comes back ----------

  lemma {:induction false} SubFormatted(s: string, pat: string, ins: string)
    requires 0 < |pat| && '/' !in s && '/' !in ins
    ensures '/' !in Sub(s, pat, ins)
  {
    if |s| >= |pat| {
      if s[..|pat|] == pat {
        SubFormatted(s[|pat|..], pat, ins);
      } else {
        SubFormatted(s[1..], pat, ins);
        assert s[0] in s;
      }
    }
  }

  lemma {:induction false} CancelFormatted(s: string)
    requires '/' !in s
    ensures '/' !in CancelDotDot(s)
    decreases |s|
  {
    var p := First(s, DOTDOT);
    if p.Some? {
      var r := Last(s[..p.value], SEP);
      if r.Some? {
        CancelFormatted(s[..r.value] + s[p.value + 3..]);
      }
    }
  }

  /** Whatever is typed, the directory that `cd` goes to contains no `/`, as the next `cd` needs. */
  lemma CdFormatted(cur: string, newdir: string)
    ensures '/' !in Clean(CdPath(cur, newdir))
  {
    var s := CdPath(cur, newdir);
    SubFormatted(s, "\\\\", "\\");
    CancelFormatted(Sub(s, "\\\\", "\\"));
    SubFormatted(TrimBack(CancelDotDot(Sub(s, "\\\\", "\\")), "\\.."), DOT, "\\");
  }
}
