/**
 The recursive directory listing of smbclient: do_list drives smbcli_list over a queue of
 masks, and do_list_helper adds one mask for every directory that it is shown.
 */
module DirWalk {
  import opened Common
  import opened CleanName
  import opened PathResolution
  import opened DirQueue

  // ---------- What is listed ----------

  datatype Entry = Entry(name: string, dir: bool, archive: bool, mtime: int)

  /** A directory tree. Listing an unreadable directory fails. */
  datatype Node = File(entry: Entry) | Dir(entry: Entry, readable: bool, children: seq<Node>)

  const DOT_ENTRY := Entry(".", true, false, 0)
  const DOTDOT_ENTRY := Entry("..", true, false, 0)

  predicate WellFormed(n: Node) {
    && IsName(n.entry.name) && NUL !in n.entry.name && n.entry.name != "." && n.entry.name != ".."
    && n.entry.dir == n.Dir?
    && (n.Dir? ==>
      && (forall c :: c in n.children ==> WellFormed(c))
      && (forall i, j :: 0 <= i < j < |n.children| ==> n.children[i].entry.name != n.children[j].entry.name))
  }

  /** The children that a listing of the directory shows. */
  function Shown(n: Node): seq<Node> {
    if n.Dir? && n.readable then n.children else []
  }

  function Entries(ns: seq<Node>): (es: seq<Entry>)
    ensures |es| == |ns|
  {
    if ns == [] then [] else [ns[0].entry] + Entries(ns[1..])
  }

  function Child(ns: seq<Node>, name: string): Option<Node> {
    if ns == [] then None else if ns[0].entry.name == name then Some(ns[0]) else Child(ns[1..], name)
  }

  function Find(n: Node, path: seq<string>): Option<Node>
    decreases path
  {
    if path == [] then Some(n)
    else match Child(Shown(n), path[0]) case None => None case Some(c) => Find(c, path[1..])
  }

  /** The mask that lists the directory at `path`. */
  function DirMask(path: seq<string>): string {
    Render(path) + "*"
  }

  /** The server's answer to a listing of `mask`: it finds the directory by the mask's own
      components, and shows `.`, `..` and the children. None is the result -1. */
  function List(root: Node, mask: string): Option<seq<Entry>> {
    var cs := Components(mask);
    if cs == [] || cs[|cs| - 1] != "*" then None
    else match Find(root, cs[..|cs| - 1])
      case None => None
      case Some(n) => if n.Dir? && n.readable then Some([DOT_ENTRY, DOTDOT_ENTRY] + Entries(n.children)) else None
  }

  // ---------- What is done with an entry ----------

  /** The selection of do_this_one: a name filter, a date and the archive level. */
  datatype Selection = Selection(matches: Option<string -> bool>, newerThan: int, archiveLevel: int)

  predicate ThisOne(sel: Selection, e: Entry) {
    e.dir
    || ((sel.matches.Some? ==> sel.matches.value(e.name))
        && (sel.newerThan != 0 ==> e.mtime >= sel.newerThan)
        && (sel.archiveLevel == 1 || sel.archiveLevel == 2 ==> e.archive))
  }

  predicate Called(sel: Selection, dirs: bool, e: Entry) {
    (e.dir ==> dirs) && ThisOne(sel, e)
  }

  /** The mask that do_list_helper adds for a directory: everything up to the last separator
      of the mask it was shown under, then the name. */
  function AddedMask(mask: string, recurse: bool, e: Entry): Option<string> {
    if e.dir && recurse && e.name != "." && e.name != ".." then
      match Last(mask, SEP) case None => None case Some(p) => Some(mask[..p + 1] + e.name + "\\*")
    else None
  }

  /** A call of `fn`: the mask under which the entry was found, and the entry. */
  datatype Call = Call(mask: string, entry: Entry)

  function CallsOf(sel: Selection, dirs: bool, mask: string, es: seq<Entry>): seq<Call> {
    if es == [] then []
    else CallsOf(sel, dirs, mask, es[..|es| - 1])
         + (if Called(sel, dirs, es[|es| - 1]) then [Call(mask, es[|es| - 1])] else [])
  }

  function AddedMasks(mask: string, recurse: bool, es: seq<Entry>): seq<string> {
    if es == [] then []
    else
      var m := AddedMask(mask, recurse, es[|es| - 1]);
      AddedMasks(mask, recurse, es[..|es| - 1]) + (if m.Some? then [m.value] else [])
  }

  /** A mask whose C strings are sound: the entry names contain no NUL. */
  predicate PlainEntries(es: seq<Entry>) {
    forall e :: e in es ==> NUL !in e.name
  }

  /** do_list_helper on every entry of one listing. */
  method DoListHelper(q: Queue, es: seq<Entry>, mask: string, sel: Selection, recurse: bool, dirs: bool)
    returns (calls: seq<Call>)
    requires q.Clean() && NUL !in mask && PlainEntries(es)
    modifies q, q.buf
    ensures q.Clean() && (q.buf == old(q.buf) || fresh(q.buf))
    ensures q.contents == old(q.contents) + AddedMasks(mask, recurse, es)
    ensures calls == CallsOf(sel, dirs, mask, es)
  {
    calls := [];
    for i := 0 to |es|
      invariant q.Clean() && (q.buf == old(q.buf) || fresh(q.buf))
      invariant q.contents == old(q.contents) + AddedMasks(mask, recurse, es[..i])
      invariant calls == CallsOf(sel, dirs, mask, es[..i])
    {
      var f := es[i];
      assert f in es && es[..i + 1][..i] == es[..i];
      if f.dir {
        if dirs && ThisOne(sel, f) {
          calls := calls + [Call(mask, f)];
        }
        if recurse && f.name != "." && f.name != ".." {
          var p := Last(mask, SEP);
          if p.Some? {
            q.Add(mask[..p.value + 1] + f.name + "\\*");
          }
        }
      } else if ThisOne(sel, f) {
        calls := calls + [Call(mask, f)];
      }
    }
    assert es[..|es|] == es;
  }

  // ---------- The order of the walk ----------

  /** A directory and where it is. */
  datatype Item = Item(path: seq<string>, node: Node)

  function SubDirs(path: seq<string>, ns: seq<Node>): seq<Item> {
    if ns == [] then []
    else SubDirs(path, ns[..|ns| - 1])
         + (if ns[|ns| - 1].Dir? then [Item(path + [ns[|ns| - 1].entry.name], ns[|ns| - 1])] else [])
  }

  function Below(x: Item): seq<Item> {
    SubDirs(x.path, Shown(x.node))
  }

  /** How many directories there are in a forest, counted with what is below them. */
  function Size(n: Node): nat {
    if n.File? then 1 else 1 + Sizes(n.children)
  }

  function Sizes(ns: seq<Node>): nat {
    if ns == [] then 0 else Size(ns[0]) + Sizes(ns[1..])
  }

  function Weight(xs: seq<Item>): nat {
    if xs == [] then 0 else Size(xs[0].node) + Weight(xs[1..])
  }

  lemma {:induction false} SizesAppend(a: seq<Node>, b: seq<Node>)
    ensures Sizes(a + b) == Sizes(a) + Sizes(b)
  {
    if a == [] {
      assert a + b == b;
    } else {
      assert (a + b)[1..] == a[1..] + b;
      SizesAppend(a[1..], b);
    }
  }

  lemma {:induction false} WeightAppend(a: seq<Item>, b: seq<Item>)
    ensures Weight(a + b) == Weight(a) + Weight(b)
  {
    if a == [] {
      assert a + b == b;
    } else {
      assert (a + b)[1..] == a[1..] + b;
      WeightAppend(a[1..], b);
    }
  }

  lemma {:induction false} SubDirsWeight(path: seq<string>, ns: seq<Node>)
    ensures Weight(SubDirs(path, ns)) <= Sizes(ns)
  {
    if ns != [] {
      var k := |ns| - 1;
      SubDirsWeight(path, ns[..k]);
      assert ns == ns[..k] + [ns[k]];
      SizesAppend(ns[..k], [ns[k]]);
      var x := Item(path + [ns[k].entry.name], ns[k]);
      if ns[k].Dir? {
        WeightAppend(SubDirs(path, ns[..k]), [x]);
        assert [x][1..] == [];
      } else {
        assert SubDirs(path, ns) == SubDirs(path, ns[..k]);
      }
      assert [ns[k]][1..] == [];
    }
  }

  /** The queue discipline: take the head, append what is below it. */
  ghost function Visit(xs: seq<Item>): seq<Item>
    decreases Weight(xs)
  {
    if xs == [] then [] else
      Shrinks(xs);
      [xs[0]] + Visit(xs[1..] + Below(xs[0]))
  }

  lemma Shrinks(xs: seq<Item>)
    requires xs != []
    ensures Weight(xs[1..] + Below(xs[0])) < Weight(xs)
  {
    WeightAppend(xs[1..], Below(xs[0]));
    SubDirsWeight(xs[0].path, Shown(xs[0].node));
  }

  /** The next level of the tree. */
  function NextLevel(xs: seq<Item>): seq<Item> {
    if xs == [] then [] else Below(xs[0]) + NextLevel(xs[1..])
  }

  /** Breadth-first order: level after level. */
  ghost function Levels(level: seq<Item>): seq<Item>
    decreases Weight(level)
  {
    if level == [] then [] else
      LevelShrinks(level);
      level + Levels(NextLevel(level))
  }

  lemma {:induction false} LevelShrinks(level: seq<Item>)
    ensures Weight(NextLevel(level)) + |level| <= Weight(level)
  {
    if level != [] {
      LevelShrinks(level[1..]);
      WeightAppend(Below(level[0]), NextLevel(level[1..]));
      SubDirsWeight(level[0].path, Shown(level[0].node));
    }
  }

  /** Every directory of the tree under `x`, depth first: the reference enumeration. */
  function AllDirs(x: Item): seq<Item>
    decreases x.node, 1
  {
    [x] + (if x.node.Dir? && x.node.readable then AllBelow(x.path, x.node.children) else [])
  }

  function AllBelow(path: seq<string>, ns: seq<Node>): seq<Item>
    decreases ns, 0
  {
    if ns == [] then []
    else (if ns[0].Dir? then AllDirs(Item(path + [ns[0].entry.name], ns[0])) else []) + AllBelow(path, ns[1..])
  }

  // ---------- The queue discipline is breadth-first ----------

  lemma {:induction false} NextLevelAppend(a: seq<Item>, b: seq<Item>)
    ensures NextLevel(a + b) == NextLevel(a) + NextLevel(b)
  {
    if a == [] {
      assert a + b == b;
    } else {
      assert (a + b)[1..] == a[1..] + b;
      NextLevelAppend(a[1..], b);
    }
  }

  lemma NextLevelSnoc(done: seq<Item>, x: Item)
    ensures NextLevel(done + [x]) == NextLevel(done) + Below(x)
  {
    NextLevelAppend(done, [x]);
    assert [x][1..] == [] && Below(x) + NextLevel([]) == Below(x);
  }

  lemma HeadTail<T>(a: seq<T>, rest: seq<T>, done: seq<T>)
    requires a != []
    ensures [a[0]] + (a[1..] + rest) == a + rest
    ensures done + [a[0]] + a[1..] == done + a
  {
  }

  lemma TailShift<T>(a: seq<T>, n: seq<T>, b: seq<T>)
    requires a != []
    ensures (a + n)[0] == a[0] && (a + n)[1..] + b == a[1..] + (n + b)
  {
  }

  lemma TailAppend<T>(a: seq<T>, b: seq<T>)
    requires a != []
    ensures (a + b)[0] == a[0] && (a + b)[1..] == a[1..] + b
  {
  }

  lemma EmptyUnit<T>(n: seq<T>)
    ensures [] + n == n && n + [] == n
  {
  }

  lemma VisitStep(a: seq<Item>, n: seq<Item>)
    requires a != []
    ensures Visit(a + n) == [a[0]] + Visit(a[1..] + (n + Below(a[0])))
  {
    TailShift(a, n, Below(a[0]));
  }

  /** With `a` left of the current level and `done` behind it, the queue finishes `a` first. */
  lemma {:induction false} VisitLevel(a: seq<Item>, done: seq<Item>)
    ensures Visit(a + NextLevel(done)) == a + Visit(NextLevel(done + a))
    decreases |a|
  {
    if a == [] {
      EmptyUnit(NextLevel(done));
      EmptyUnit(Visit(NextLevel(done)));
      EmptyUnit(done);
    } else {
      NextLevelSnoc(done, a[0]);
      VisitStep(a, NextLevel(done));
      VisitLevel(a[1..], done + [a[0]]);
      HeadTail(a, Visit(NextLevel(done + a)), done);
    }
  }

  lemma {:induction false} VisitIsLevels(level: seq<Item>)
    ensures Visit(level) == Levels(level)
    decreases Weight(level)
  {
    if level != [] {
      LevelShrinks(level);
      VisitLevel(level, []);
      assert NextLevel([]) == [] && level + [] == level && [] + level == level;
      VisitIsLevels(NextLevel(level));
    }
  }

  // ---------- Every directory exactly once ----------

  function Enumerate(xs: seq<Item>): seq<Item> {
    if xs == [] then [] else AllDirs(xs[0]) + Enumerate(xs[1..])
  }

  lemma {:induction false} EnumerateAppend(a: seq<Item>, b: seq<Item>)
    ensures Enumerate(a + b) == Enumerate(a) + Enumerate(b)
  {
    if a == [] {
      assert a + b == b;
    } else {
      assert (a + b)[1..] == a[1..] + b;
      EnumerateAppend(a[1..], b);
    }
  }

  lemma {:induction false} AllBelowAppend(path: seq<string>, a: seq<Node>, b: seq<Node>)
    ensures AllBelow(path, a + b) == AllBelow(path, a) + AllBelow(path, b)
  {
    if a == [] {
      assert a + b == b;
    } else {
      AllBelowAppend(path, a[1..], b);
      assert (a + b)[1..] == a[1..] + b;
      var first := if a[0].Dir? then AllDirs(Item(path + [a[0].entry.name], a[0])) else [];
      Associates(first, AllBelow(path, a[1..]), AllBelow(path, b));
    }
  }

  lemma {:induction false} EnumerateSubDirs(path: seq<string>, ns: seq<Node>)
    ensures Enumerate(SubDirs(path, ns)) == AllBelow(path, ns)
  {
    if ns != [] {
      var k := |ns| - 1;
      var last := ns[k];
      EnumerateSubDirs(path, ns[..k]);
      assert ns == ns[..k] + [last];
      AllBelowAppend(path, ns[..k], [last]);
      assert [last][1..] == [];
      if last.Dir? {
        var x := Item(path + [last.entry.name], last);
        EnumerateAppend(SubDirs(path, ns[..k]), [x]);
        assert [x][1..] == [] && Enumerate([x]) == AllDirs(x) + [];
        assert AllBelow(path, [last]) == AllDirs(x) + [];
      } else {
        assert AllBelow(path, [last]) == [];
        assert SubDirs(path, ns) == SubDirs(path, ns[..k]);
      }
    }
  }

  lemma AllDirsStep(x: Item)
    ensures AllDirs(x) == [x] + Enumerate(Below(x))
  {
    EnumerateSubDirs(x.path, Shown(x.node));
  }

  /** The walk visits exactly the directories of the reference enumeration. */
  lemma {:induction false} VisitIsComplete(xs: seq<Item>)
    ensures multiset(Visit(xs)) == multiset(Enumerate(xs))
    decreases Weight(xs)
  {
    if xs != [] {
      var x := xs[0];
      Shrinks(xs);
      VisitIsComplete(xs[1..] + Below(x));
      EnumerateAppend(xs[1..], Below(x));
      AllDirsStep(x);
      assert multiset(Visit(xs)) == multiset{x} + multiset(Visit(xs[1..] + Below(x)));
      assert multiset(Enumerate(xs)) == multiset{x} + multiset(Enumerate(Below(x))) + multiset(Enumerate(xs[1..]));
    }
  }

  predicate Distinct(xs: seq<Item>) {
    forall i, j :: 0 <= i < j < |xs| ==> xs[i].path != xs[j].path
  }

  /** Every item lies under `path`, in one of the children `ns`. */
  predicate Under(xs: seq<Item>, path: seq<string>, ns: seq<Node>) {
    forall x :: x in xs ==>
      path < x.path && exists n :: n in ns && n.entry.name == x.path[|path|]
  }

  lemma {:induction false} AllDirsDistinct(x: Item)
    requires WellFormed(x.node)
    ensures Distinct(AllDirs(x)) && forall y :: y in AllDirs(x) ==> x.path <= y.path
    decreases x.node, 1
  {
    if x.node.Dir? && x.node.readable {
      AllBelowDistinct(x.path, x.node.children);
    }
  }

  lemma {:induction false} AllBelowDistinct(path: seq<string>, ns: seq<Node>)
    requires forall n :: n in ns ==> WellFormed(n)
    requires forall i, j :: 0 <= i < j < |ns| ==> ns[i].entry.name != ns[j].entry.name
    ensures Distinct(AllBelow(path, ns)) && Under(AllBelow(path, ns), path, ns)
    decreases ns, 0
  {
    if ns != [] {
      AllBelowDistinct(path, ns[1..]);
      var rest := AllBelow(path, ns[1..]);
      if ns[0].Dir? {
        var p := path + [ns[0].entry.name];
        AllDirsDistinct(Item(p, ns[0]));
        var first := AllDirs(Item(p, ns[0]));
        forall y, z | y in first && z in rest ensures y.path != z.path {
          var n :| n in ns[1..] && n.entry.name == z.path[|path|];
          assert y.path[|path|] == p[|path|] == ns[0].entry.name;
        }
        forall y | y in first ensures path < y.path && y.path[|path|] == ns[0].entry.name {
          assert y.path[|path|] == p[|path|];
        }
        assert AllBelow(path, ns) == first + rest;
      }
    }
  }

  lemma {:induction false} DistinctCount(xs: seq<Item>, x: Item)
    requires Distinct(xs)
    ensures multiset(xs)[x] <= 1
  {
    if xs != [] {
      assert xs == [xs[0]] + xs[1..];
      DistinctCount(xs[1..], x);
      if x == xs[0] {
        assert forall i :: 0 <= i < |xs[1..]| ==> xs[1..][i] == xs[i + 1] && xs[i + 1].path != x.path;
        assert x !in xs[1..];
      }
    }
  }

  lemma OnePerPath(xs: seq<Item>, ys: seq<Item>)
    requires Distinct(xs) && multiset(ys) == multiset(xs)
    ensures forall y :: multiset(ys)[y] <= 1
    ensures forall y, z :: y in ys && z in ys && y.path == z.path ==> y == z
  {
    forall y ensures multiset(ys)[y] <= 1 {
      DistinctCount(xs, y);
    }
    forall y, z | y in ys && z in ys && y.path == z.path ensures y == z {
      assert y in multiset(ys) && z in multiset(ys);
      assert y in xs && z in xs;
    }
  }

  /** The walk of a tree: breadth-first, over exactly the directories of the tree, each of them
      once and under a path of its own. */
  lemma WalkOrder(x: Item)
    requires WellFormed(x.node)
    ensures Visit([x]) == Levels([x])
    ensures multiset(Visit([x])) == multiset(AllDirs(x))
    ensures forall y :: multiset(Visit([x]))[y] <= 1
    ensures forall y, z :: y in Visit([x]) && z in Visit([x]) && y.path == z.path ==> y == z
  {
    VisitIsLevels([x]);
    VisitIsComplete([x]);
    EnumerateOne(x);
    AllDirsDistinct(x);
    OnePerPath(AllDirs(x), Visit([x]));
  }

  lemma EnumerateOne(x: Item)
    ensures Enumerate([x]) == AllDirs(x)
  {
    assert [x][1..] == [];
    EmptyUnit(AllDirs(x));
  }

  // ---------- The masks lead to the directories ----------

  lemma LastMask(path: seq<string>)
    ensures Last(DirMask(path), SEP) == Some(|Render(path)| - 1)
    ensures DirMask(path)[..|Render(path)|] == Render(path)
  {
    LastInName(Render(path), "*");
  }

  /** Cutting a mask at its last separator and appending a name is the mask of the child. */
  lemma ChildMask(path: seq<string>, e: Entry, recurse: bool)
    ensures AddedMask(DirMask(path), recurse, e) ==
            if e.dir && recurse && e.name != "." && e.name != ".." then Some(DirMask(path + [e.name])) else None
  {
    LastMask(path);
    RenderConcat(path, [e.name]);
    RenderStep([e.name]);
    var r := Render(path);
    assert [e.name][1..] == [] && Render([e.name]) == [SEP] + e.name + [SEP];
    assert Render(path + [e.name]) == r + e.name + [SEP];
    assert r + e.name + "\\*" == (r + e.name + [SEP]) + "*";
  }

  lemma MaskComponents(path: seq<string>)
    requires AllNames(path)
    ensures Components(DirMask(path)) == path + ["*"]
  {
    PiecesAppend(Render(path), "*", "");
    ComponentsOfRender(path);
    assert "*"[1..] == "" && "" + ['*'] == "*";
  }

  function Listing(n: Node): seq<Entry> {
    if n.Dir? && n.readable then [DOT_ENTRY, DOTDOT_ENTRY] + Entries(n.children) else []
  }

  lemma ListDir(root: Node, path: seq<string>)
    requires AllNames(path)
    ensures var f := Find(root, path);
      List(root, DirMask(path)) ==
        if f.Some? && f.value.Dir? && f.value.readable then Some(Listing(f.value)) else None
  {
    MaskComponents(path);
    assert (path + ["*"])[..|path|] == path;
  }

  function Masks(xs: seq<Item>): (ms: seq<string>)
    ensures |ms| == |xs|
    ensures forall i :: 0 <= i < |xs| ==> ms[i] == DirMask(xs[i].path)
  {
    if xs == [] then [] else Masks(xs[..|xs| - 1]) + [DirMask(xs[|xs| - 1].path)]
  }

  lemma {:induction false} AddedMasksAppend(mask: string, a: seq<Entry>, b: seq<Entry>)
    ensures AddedMasks(mask, true, a + b) == AddedMasks(mask, true, a) + AddedMasks(mask, true, b)
  {
    if b == [] {
      assert a + b == a;
    } else {
      assert (a + b)[..|a + b| - 1] == a + b[..|b| - 1];
      AddedMasksAppend(mask, a, b[..|b| - 1]);
    }
  }

  lemma {:induction false} EntriesAppend(a: seq<Node>, b: seq<Node>)
    ensures Entries(a + b) == Entries(a) + Entries(b)
  {
    if a == [] {
      assert a + b == b;
    } else {
      assert (a + b)[1..] == a[1..] + b;
      EntriesAppend(a[1..], b);
    }
  }

  lemma AddedOne(mask: string, e: Entry)
    ensures var m := AddedMask(mask, true, e);
      AddedMasks(mask, true, [e]) == if m.Some? then [m.value] else []
  {
    assert [e][..0] == [];
  }

  /** The masks added for the children are the masks of the directories below. */
  lemma {:induction false} ChildMasks(path: seq<string>, ns: seq<Node>)
    requires forall n :: n in ns ==> WellFormed(n)
    ensures AddedMasks(DirMask(path), true, Entries(ns)) == Masks(SubDirs(path, ns))
  {
    if ns != [] {
      var k := |ns| - 1;
      var last := ns[k];
      ChildMasks(path, ns[..k]);
      EntriesAppend(ns[..k], [last]);
      assert ns == ns[..k] + [last] && [last][1..] == [];
      assert Entries([last]) == [last.entry];
      AddedMasksAppend(DirMask(path), Entries(ns[..k]), [last.entry]);
      ChildMask(path, last.entry, true);
      assert last in ns;
      var added := AddedMasks(DirMask(path), true, [last.entry]);
      AddedOne(DirMask(path), last.entry);
      if last.Dir? {
        assert added == [DirMask(path + [last.entry.name])];
        var xs := SubDirs(path, ns);
        assert xs[..|xs| - 1] == SubDirs(path, ns[..k]);
      } else {
        assert added == [];
        EmptyUnit(SubDirs(path, ns[..k]));
      }
    }
  }

  lemma ListedMasks(x: Item)
    requires WellFormed(x.node) || x.node == NOTHING
    ensures AddedMasks(DirMask(x.path), true, Listing(x.node)) == Masks(Below(x))
  {
    if x.node.Dir? && x.node.readable {
      var m, dots := DirMask(x.path), [DOT_ENTRY, DOTDOT_ENTRY];
      AddedMasksAppend(m, dots, Entries(x.node.children));
      assert dots[..1] == [DOT_ENTRY];
      AddedOne(m, DOT_ENTRY);
      assert AddedMasks(m, true, dots) == [];
      EmptyUnit(Masks(Below(x)));
      ChildMasks(x.path, x.node.children);
    }
  }

  lemma {:induction false} FindAppend(n: Node, a: seq<string>, b: seq<string>)
    ensures Find(n, a + b) == match Find(n, a) case None => None case Some(m) => Find(m, b)
    decreases a
  {
    if a == [] {
      assert a + b == b;
    } else {
      assert (a + b)[1..] == a[1..] + b;
      var c := Child(Shown(n), a[0]);
      if c.Some? {
        FindAppend(c.value, a[1..], b);
      }
    }
  }

  lemma {:induction false} ChildFound(ns: seq<Node>, k: nat)
    requires k < |ns| && forall i, j :: 0 <= i < j < |ns| ==> ns[i].entry.name != ns[j].entry.name
    ensures Child(ns, ns[k].entry.name) == Some(ns[k])
  {
    if k > 0 {
      assert ns[0].entry.name != ns[k].entry.name;
      ChildFound(ns[1..], k - 1);
    }
  }

  /** What a mask that leads to no directory stands for: it can be listed only in vain. */
  const NOTHING := Dir(DOT_ENTRY, false, [])

  /** What a walk from `path` starts with. */
  function Start(root: Node, path: seq<string>): Item {
    var f := Find(root, path);
    Item(path, if f.Some? && f.value.Dir? then f.value else NOTHING)
  }

  /** The item is what its path leads to, and its mask is a C string. */
  ghost predicate Located(root: Node, x: Item) {
    && x == Start(root, x.path) && (x.node == NOTHING || WellFormed(x.node))
    && AllNames(x.path) && NUL !in DirMask(x.path)
  }

  lemma MaskIsCString(path: seq<string>, name: string)
    requires NUL !in DirMask(path) && NUL !in name
    ensures NUL !in DirMask(path + [name])
  {
    ChildMask(path, Entry(name, true, false, 0), true);
    RenderConcat(path, [name]);
    var r := Render(path);
    assert forall i :: 0 <= i < |r| ==> r[i] == DirMask(path)[i];
    assert [name][1..] == [] && Render([name]) == [SEP] + name + [SEP];
    assert DirMask(path + [name]) == r[..|r| - 1] + ([SEP] + name + [SEP]) + "*";
  }

  lemma {:induction false} SubDirsMembers(path: seq<string>, ns: seq<Node>, y: Item) returns (k: nat)
    requires y in SubDirs(path, ns)
    ensures k < |ns| && y == Item(path + [ns[k].entry.name], ns[k]) && ns[k].Dir?
  {
    k := |ns| - 1;
    if y in SubDirs(path, ns[..k]) {
      var j := SubDirsMembers(path, ns[..k], y);
      k := j;
    }
  }

  lemma BelowLocated(root: Node, x: Item)
    requires Located(root, x)
    ensures forall y :: y in Below(x) ==> Located(root, y)
  {
    forall y | y in Below(x) ensures Located(root, y) {
      var ns := Shown(x.node);
      var k := SubDirsMembers(x.path, ns, y);
      assert ns[k] in x.node.children && WellFormed(ns[k]);
      FindAppend(root, x.path, [ns[k].entry.name]);
      ChildFound(ns, k);
      assert [ns[k].entry.name][1..] == [];
      MaskIsCString(x.path, ns[k].entry.name);
    }
  }

  // ---------- do_list ----------

  function ItemCalls(sel: Selection, dirs: bool, x: Item): seq<Call> {
    CallsOf(sel, dirs, DirMask(x.path), Listing(x.node))
  }

  function AllCalls(sel: Selection, dirs: bool, xs: seq<Item>): seq<Call> {
    if xs == [] then [] else ItemCalls(sel, dirs, xs[0]) + AllCalls(sel, dirs, xs[1..])
  }

  lemma {:induction false} AllCallsAppend(sel: Selection, dirs: bool, a: seq<Item>, b: seq<Item>)
    ensures AllCalls(sel, dirs, a + b) == AllCalls(sel, dirs, a) + AllCalls(sel, dirs, b)
  {
    if a == [] {
      EmptyUnit(b);
      EmptyUnit(AllCalls(sel, dirs, b));
    } else {
      TailAppend(a, b);
      AllCallsAppend(sel, dirs, a[1..], b);
      Associates(ItemCalls(sel, dirs, a[0]), AllCalls(sel, dirs, a[1..]), AllCalls(sel, dirs, b));
    }
  }

  /** `fn` is called for every selected entry of every directory of the tree, equally often in
      the walk and in the reference enumeration. */
  lemma {:induction false} CallsComplete(sel: Selection, dirs: bool, xs: seq<Item>)
    ensures multiset(AllCalls(sel, dirs, Visit(xs))) == multiset(AllCalls(sel, dirs, Enumerate(xs)))
    decreases Weight(xs)
  {
    if xs != [] {
      var x, rest := xs[0], xs[1..];
      Shrinks(xs);
      CallsComplete(sel, dirs, rest + Below(x));
      EnumerateAppend(rest, Below(x));
      AllCallsAppend(sel, dirs, Enumerate(rest), Enumerate(Below(x)));
      AllDirsStep(x);
      CallsStep(sel, dirs, x, Enumerate(Below(x)), Enumerate(rest));
      CallsStep(sel, dirs, x, Visit(rest + Below(x)), []);
      EmptyUnit([x] + Visit(rest + Below(x)));
    }
  }

  lemma CallsStep(sel: Selection, dirs: bool, x: Item, a: seq<Item>, b: seq<Item>)
    ensures multiset(AllCalls(sel, dirs, ([x] + a) + b)) ==
            multiset(ItemCalls(sel, dirs, x)) + multiset(AllCalls(sel, dirs, a)) + multiset(AllCalls(sel, dirs, b))
  {
    AllCallsAppend(sel, dirs, [x] + a, b);
    assert ([x] + a)[1..] == a;
  }

  /** Counted with multiplicity, `fn` is called in a whole walk exactly as the reference
      enumeration of the directories says. */
  lemma WalkCalls(sel: Selection, dirs: bool, x: Item)
    ensures multiset(AllCalls(sel, dirs, Visit([x]))) == multiset(AllCalls(sel, dirs, AllDirs(x)))
  {
    CallsComplete(sel, dirs, [x]);
    EnumerateOne(x);
  }

  /** In one listing `fn` is called once for every shown entry that is selected. */
  lemma {:induction false} CallsCount(sel: Selection, dirs: bool, mask: string, es: seq<Entry>, e: Entry)
    ensures multiset(CallsOf(sel, dirs, mask, es))[Call(mask, e)] ==
            if Called(sel, dirs, e) then multiset(es)[e] else 0
  {
    if es != [] {
      var k := |es| - 1;
      CallsCount(sel, dirs, mask, es[..k], e);
      assert es == es[..k] + [es[k]];
    }
  }

  // ---------- Every selected entry once ----------

  /** A mask tells its directory. */
  lemma {:induction false} MaskInjective(a: seq<string>, b: seq<string>)
    requires AllNames(a) && AllNames(b) && DirMask(a) == DirMask(b)
    ensures a == b
  {
    MaskComponents(a);
    MaskComponents(b);
    assert (a + ["*"])[..|a|] == a && (b + ["*"])[..|b|] == b;
  }

  /** Every call of a listing is of one of its entries, selected, under its mask. */
  lemma {:induction false} CallsAreOf(sel: Selection, dirs: bool, mask: string, es: seq<Entry>, c: Call)
    requires c in CallsOf(sel, dirs, mask, es)
    ensures c.mask == mask && c.entry in es && Called(sel, dirs, c.entry)
  {
    var k := |es| - 1;
    if c != Call(mask, es[k]) || !Called(sel, dirs, es[k]) {
      CallsAreOf(sel, dirs, mask, es[..k], c);
    }
  }

  /** Every call of a walk comes from one of its directories. */
  lemma {:induction false} AllCallsAreOf(sel: Selection, dirs: bool, xs: seq<Item>, c: Call) returns (y: Item)
    requires c in AllCalls(sel, dirs, xs)
    ensures y in xs && c.mask == DirMask(y.path) && c.entry in Listing(y.node) && Called(sel, dirs, c.entry)
  {
    if c in ItemCalls(sel, dirs, xs[0]) {
      y := xs[0];
      CallsAreOf(sel, dirs, DirMask(y.path), Listing(y.node), c);
    } else {
      y := AllCallsAreOf(sel, dirs, xs[1..], c);
    }
  }

  /** The directories of a tree are well formed and their paths consist of names. */
  lemma {:induction false} AllDirsNamed(x: Item, y: Item)
    requires WellFormed(x.node) && AllNames(x.path) && y in AllDirs(x)
    ensures WellFormed(y.node) && AllNames(y.path)
    decreases x.node, 1
  {
    if y != x {
      AllBelowNamed(x.path, Shown(x.node), y);
    }
  }

  lemma {:induction false} AllBelowNamed(path: seq<string>, ns: seq<Node>, y: Item)
    requires (forall n :: n in ns ==> WellFormed(n)) && AllNames(path) && y in AllBelow(path, ns)
    ensures WellFormed(y.node) && AllNames(y.path)
    decreases ns, 0
  {
    if ns[0].Dir? && y in AllDirs(Item(path + [ns[0].entry.name], ns[0])) {
      assert ns[0] in ns;
      AllDirsNamed(Item(path + [ns[0].entry.name], ns[0]), y);
    } else {
      AllBelowNamed(path, ns[1..], y);
    }
  }

  /** Where directories have paths of their own, the calls under one mask are those of one listing. */
  lemma {:induction false} CallsUnder(sel: Selection, dirs: bool, xs: seq<Item>, y: Item, e: Entry)
    requires Distinct(xs) && (forall x :: x in xs ==> AllNames(x.path)) && AllNames(y.path)
    requires forall x :: x in xs && x.path == y.path ==> x == y
    ensures multiset(AllCalls(sel, dirs, xs))[Call(DirMask(y.path), e)] ==
            if y in xs then multiset(ItemCalls(sel, dirs, y))[Call(DirMask(y.path), e)] else 0
  {
    if xs != [] {
      var x, rest, c := xs[0], xs[1..], Call(DirMask(y.path), e);
      CallsUnder(sel, dirs, rest, y, e);
      assert x in xs;
      if x == y {
        forall z | z in rest ensures z != y {
          var i :| 0 <= i < |rest| && rest[i] == z;
          assert xs[i + 1] == z;
        }
      } else if c in ItemCalls(sel, dirs, x) {
        CallsAreOf(sel, dirs, DirMask(x.path), Listing(x.node), c);
        MaskInjective(x.path, y.path);
        assert false;
      }
    }
  }

  lemma {:induction false} EntriesOnce(ns: seq<Node>, e: Entry)
    requires forall i, j :: 0 <= i < j < |ns| ==> ns[i].entry.name != ns[j].entry.name
    ensures multiset(Entries(ns))[e] <= 1
    ensures e in Entries(ns) ==> exists n :: n in ns && n.entry == e
  {
    if ns != [] {
      EntriesOnce(ns[1..], e);
      assert ns[0] in ns;
      forall n | n in ns[1..] ensures n.entry.name != ns[0].entry.name {
        var i :| 0 <= i < |ns[1..]| && ns[1..][i] == n;
        assert ns[i + 1] == n;
      }
    }
  }

  /** A listing shows every entry once. */
  lemma {:induction false} ListingOnce(n: Node, e: Entry)
    requires WellFormed(n) && e in Listing(n)
    ensures multiset(Listing(n))[e] == 1
  {
    EntriesOnce(n.children, e);
    if e in Entries(n.children) {
      var c :| c in n.children && c.entry == e;
      assert WellFormed(c);
    }
    ThreeParts(DOT_ENTRY, DOTDOT_ENTRY, Entries(n.children), e);
  }

  lemma ThreeParts(a: Entry, b: Entry, es: seq<Entry>, e: Entry)
    ensures multiset([a, b] + es)[e] == (if e == a then 1 else 0) + (if e == b then 1 else 0) + multiset(es)[e]
  {
    assert [a, b] + es == [a] + ([b] + es);
  }

  lemma {:induction false} AllNamed(x: Item)
    requires WellFormed(x.node) && AllNames(x.path)
    ensures forall z :: z in AllDirs(x) ==> AllNames(z.path)
  {
    forall z | z in AllDirs(x) ensures AllNames(z.path) {
      AllDirsNamed(x, z);
    }
  }

  lemma {:induction false} OneOfPath(x: Item, y: Item)
    requires WellFormed(x.node) && y in AllDirs(x)
    ensures forall z :: z in AllDirs(x) && z.path == y.path ==> z == y
  {
    AllDirsDistinct(x);
    OnePerPath(AllDirs(x), AllDirs(x));
  }

  lemma {:induction false} SelectedOnce(sel: Selection, dirs: bool, x: Item, y: Item, e: Entry)
    requires WellFormed(x.node) && AllNames(x.path) && y in AllDirs(x) && e in Listing(y.node)
    ensures multiset(AllCalls(sel, dirs, Visit([x])))[Call(DirMask(y.path), e)] == if Called(sel, dirs, e) then 1 else 0
  {
    WalkCalls(sel, dirs, x);
    AllDirsDistinct(x);
    AllNamed(x);
    AllDirsNamed(x, y);
    OneOfPath(x, y);
    CallsUnder(sel, dirs, AllDirs(x), y, e);
    CallsCount(sel, dirs, DirMask(y.path), Listing(y.node), e);
    ListingOnce(y.node, e);
  }

  /** How often `fn` is called, in a whole walk, on an entry of a directory of the tree, under that
      directory's mask: on a directory once if directories are asked for; on a file once, unless its
      name does not match the filter, it is older than the date, or the archive level asks for a bit
      that it does not have. */
  lemma {:induction false} EachOnce(sel: Selection, dirs: bool, x: Item, y: Item, e: Entry)
    requires WellFormed(x.node) && AllNames(x.path) && y in AllDirs(x) && e in Listing(y.node)
    ensures var calls := multiset(AllCalls(sel, dirs, Visit([x])))[Call(DirMask(y.path), e)];
      && (e.dir ==> calls == if dirs then 1 else 0)
      && (!e.dir && sel.matches.Some? && !sel.matches.value(e.name) ==> calls == 0)
      && (!e.dir && sel.newerThan != 0 && e.mtime < sel.newerThan ==> calls == 0)
      && (!e.dir && sel.archiveLevel == 1 && !e.archive ==> calls == 0)
      && (!e.dir && sel.archiveLevel == 2 && !e.archive ==> calls == 0)
      && ((!e.dir && (sel.matches == None || sel.matches.value(e.name))
           && (sel.newerThan == 0 || e.mtime >= sel.newerThan)
           && (e.archive || (sel.archiveLevel != 1 && sel.archiveLevel != 2))) ==> calls == 1)
  {
    SelectedOnce(sel, dirs, x, y, e);
  }

  /** What a listing shows: nothing of a file or an unreadable directory, else the two entries that
      every directory has, and the children. */
  lemma {:induction false} ListingIs(n: Node, e: Entry)
    ensures e in Listing(n) <==>
      && n.Dir? && n.readable
      && (e == Entry(".", true, false, 0) || e == Entry("..", true, false, 0) || exists c :: c in n.children && c.entry == e)
  {
    if n.Dir? && n.readable {
      EntriesAre(n.children, e);
      assert Listing(n) == [DOT_ENTRY] + ([DOTDOT_ENTRY] + Entries(n.children));
    }
  }

  lemma {:induction false} EntriesAre(ns: seq<Node>, e: Entry)
    ensures e in Entries(ns) <==> exists c :: c in ns && c.entry == e
  {
    if ns != [] {
      EntriesAre(ns[1..], e);
      assert ns == [ns[0]] + ns[1..];
      if ns[0].entry == e {
        assert ns[0] in ns;
      }
    }
  }

  /** `m` is found by following `path` from `n`, through readable directories. */
  predicate Reaches(n: Node, path: seq<string>, m: Node)
    decreases path
  {
    if path == [] then m == n
    else n.Dir? && n.readable && exists c :: c in n.children && c.entry.name == path[0] && Reaches(c, path[1..], m)
  }

  /** The directories of a tree, as the walk visits them, are those that can be reached. */
  lemma {:induction false} AllDirsIs(x: Item, y: Item)
    requires x.node.Dir?
    ensures y in AllDirs(x) <==>
      y.node.Dir? && x.path <= y.path && Reaches(x.node, y.path[|x.path|..], y.node)
    decreases x.node, 1
  {
    if y.path == x.path {
      assert y.path[|x.path|..] == [];
      if x.node.readable {
        forall z | z in AllBelow(x.path, x.node.children) ensures z.path != x.path {
          BelowDeeper(x.path, x.node.children, z);
        }
      }
    } else if x.node.readable {
      AllBelowIs(x.path, x.node.children, y);
      if x.path < y.path {
        assert y.path[|x.path|..][1..] == y.path[|x.path| + 1..];
      }
    }
  }

  lemma {:induction false} BelowDeeper(path: seq<string>, ns: seq<Node>, y: Item)
    requires y in AllBelow(path, ns)
    ensures path < y.path
    decreases ns, 0
  {
    var x := Item(path + [ns[0].entry.name], ns[0]);
    if ns[0].Dir? && y in AllDirs(x) {
      DirsDeeper(x, y);
    } else {
      BelowDeeper(path, ns[1..], y);
    }
  }

  lemma {:induction false} DirsDeeper(x: Item, y: Item)
    requires y in AllDirs(x)
    ensures x.path <= y.path
    decreases x.node, 1
  {
    if y != x {
      BelowDeeper(x.path, Shown(x.node), y);
    }
  }

  lemma {:induction false} AllBelowIs(path: seq<string>, ns: seq<Node>, y: Item)
    ensures y in AllBelow(path, ns) <==>
      && y.node.Dir? && path < y.path
      && exists c :: c in ns && c.entry.name == y.path[|path|] && Reaches(c, y.path[|path| + 1..], y.node)
    decreases ns, 0
  {
    if ns != [] {
      AllBelowIs(path, ns[1..], y);
      assert ns == [ns[0]] + ns[1..];
      FirstBelow(path, ns[0], y);
    }
  }

  lemma {:induction false} FirstBelow(path: seq<string>, n: Node, y: Item)
    ensures n.Dir? && y in AllDirs(Item(path + [n.entry.name], n)) <==>
      y.node.Dir? && path < y.path && n.entry.name == y.path[|path|] && Reaches(n, y.path[|path| + 1..], y.node)
    decreases n, 2
  {
    var p := path + [n.entry.name];
    if n.Dir? {
      AllDirsIs(Item(p, n), y);
      assert p <= y.path <==> path < y.path && n.entry.name == y.path[|path|];
    }
  }

  /** And on nothing else. */
  lemma {:induction false} NothingElse(sel: Selection, dirs: bool, x: Item, c: Call) returns (y: Item)
    requires c in AllCalls(sel, dirs, Visit([x]))
    ensures y in AllDirs(x) && c.mask == DirMask(y.path) && c.entry in Listing(y.node)
    ensures c.entry.dir ==> dirs
    ensures !c.entry.dir ==>
      && (sel.matches == None || sel.matches.value(c.entry.name))
      && (sel.newerThan == 0 || c.entry.mtime >= sel.newerThan)
      && (c.entry.archive || (sel.archiveLevel != 1 && sel.archiveLevel != 2))
  {
    WalkCalls(sel, dirs, x);
    assert c in multiset(AllCalls(sel, dirs, Visit([x])));
    y := AllCallsAreOf(sel, dirs, AllDirs(x), c);
  }

  lemma {:induction false} PlainListing(ns: seq<Node>)
    requires forall n :: n in ns ==> WellFormed(n)
    ensures PlainEntries(Entries(ns))
  {
    if ns != [] {
      PlainListing(ns[1..]);
      assert ns[0] in ns;
    }
  }

  /** One turn of the loop of do_list: list the head of the queue, then remove it. */
  method ListHead(root: Node, q: Queue, sel: Selection, dirs: bool, ghost todo: seq<Item>)
    returns (head: string, calls: seq<Call>)
    requires q.Clean() && todo != [] && q.contents == Masks(todo)
    requires forall x :: x in todo ==> Located(root, x)
    modifies q, q.buf
    ensures q.Clean() && (q.buf == old(q.buf) || fresh(q.buf))
    ensures head == DirMask(todo[0].path) && calls == ItemCalls(sel, dirs, todo[0])
    ensures q.contents == Masks(todo[1..] + Below(todo[0]))
    ensures forall x :: x in todo[1..] + Below(todo[0]) ==> Located(root, x)
  {
    ghost var x := todo[0];
    assert Located(root, x);
    head := q.Head();
    var es := List(root, head);
    ListDir(root, x.path);
    ListedMasks(x);
    BelowLocated(root, x);
    EmptyUnit(Masks(todo));
    calls := [];
    if es.Some? {
      PlainListing(x.node.children);
      calls := DoListHelper(q, es.value, head, sel, true, dirs);
    }
    q.Remove();
    MasksAfter(todo, Below(x));
  }

  lemma MasksAfter(todo: seq<Item>, below: seq<Item>)
    requires todo != []
    ensures (Masks(todo) + Masks(below))[1..] == Masks(todo[1..] + below)
  {
    MasksAppend(todo, below);
    MasksTail(todo + below);
    TailAppend(todo, below);
  }

  lemma {:induction false} MasksAppend(a: seq<Item>, b: seq<Item>)
    ensures Masks(a + b) == Masks(a) + Masks(b)
  {
  }

  lemma MasksTail(xs: seq<Item>)
    requires xs != []
    ensures Masks(xs)[1..] == Masks(xs[1..])
  {
  }

  /** do_list with the recursive flag, from the directory at `path`. A start that cannot be
      listed is tried once; the result of smbcli_list is not looked at. */
  method DoListRecursive(root: Node, path: seq<string>, sel: Selection, dirs: bool)
    returns (calls: seq<Call>, listed: seq<string>)
    requires AllNames(path) && NUL !in DirMask(path)
    requires Find(root, path).Some? ==> WellFormed(Find(root, path).value)
    ensures listed == Masks(Visit([Start(root, path)]))
    ensures calls == AllCalls(sel, dirs, Visit([Start(root, path)]))
  {
    var q := new Queue();
    q.Add(DirMask(path));
    calls, listed := [], [];
    ghost var start := [Start(root, path)];
    ghost var todo, done := start, [];
    OneItem(sel, dirs, start[0]);
    EmptyUnit(Visit(start));
    var empty := q.IsEmpty();
    while !empty
      invariant q.Clean() && fresh(q) && fresh(q.buf) && (empty <==> todo == [])
      invariant q.contents == Masks(todo) && forall x :: x in todo ==> Located(root, x)
      invariant done + Visit(todo) == Visit(start)
      invariant listed == Masks(done) && calls == AllCalls(sel, dirs, done)
      decreases Weight(todo)
    {
      var head, more := ListHead(root, q, sel, dirs, todo);
      ghost var x := todo[0];
      Shrinks(todo);
      AllCallsAppend(sel, dirs, done, [x]);
      OneItem(sel, dirs, x);
      MasksAppend(done, [x]);
      VisitHead(done, todo);
      todo, done := todo[1..] + Below(x), done + [x];
      calls, listed := calls + more, listed + [head];
      empty := q.IsEmpty();
    }
    EmptyUnit(done);
  }

  lemma OneItem(sel: Selection, dirs: bool, x: Item)
    ensures AllCalls(sel, dirs, [x]) == ItemCalls(sel, dirs, x) && Masks([x]) == [DirMask(x.path)]
  {
    assert [x][1..] == [] && [x][..0] == [];
    EmptyUnit(ItemCalls(sel, dirs, x));
  }

  lemma VisitHead(done: seq<Item>, todo: seq<Item>)
    requires todo != []
    ensures done + Visit(todo) == (done + [todo[0]]) + Visit(todo[1..] + Below(todo[0]))
  {
    Associates(done, [todo[0]], Visit(todo[1..] + Below(todo[0])));
  }

  /** do_list without the recursive flag: one listing; a failure is reported as `ok == false`. */
  method DoListOnce(root: Node, mask: string, sel: Selection, dirs: bool) returns (calls: seq<Call>, ok: bool)
    requires NUL !in mask && (List(root, mask).Some? ==> PlainEntries(List(root, mask).value))
    ensures ok <==> List(root, mask).Some?
    ensures calls == if ok then CallsOf(sel, dirs, mask, List(root, mask).value) else []
  {
    var es := List(root, mask);
    ok, calls := es.Some?, [];
    if es.Some? {
      var q := new Queue();
      calls := DoListHelper(q, es.value, mask, sel, false, dirs);
    }
  }
}
