/** Listing the documents of a folder for extraction: breadth first, to a bounded depth, and one
    document past the cap so that cutting short can be told. */
module FolderWalk {
  import opened Wrappers

  const MAX_DEPTH: nat := 12

  datatype Entry = Entry(uid: string, name: string, container: bool)
  datatype Target = Target(uid: string, name: string, version: string)

  /** What the core answers: a folder's entries in order of their names, or an error; and the target an
      entry makes when it matches, is readable and can be looked up. */
  datatype World = World(dir: string -> Option<seq<Entry>>, take: Entry -> Option<Target>, recursive: bool)

  datatype Node = Node(uid: string, depth: nat)

  function Docs(w: World, es: seq<Entry>): seq<Target> {
    if es == [] then []
    else if !es[0].container && w.take(es[0]).Some? then [w.take(es[0]).value] + Docs(w, es[1..])
    else Docs(w, es[1..])
  }

  function Subs(w: World, es: seq<Entry>, depth: nat): (r: seq<Node>)
    ensures forall n :: n in r ==> n.depth == depth + 1 <= MAX_DEPTH
  {
    if es == [] then []
    else if es[0].container && w.recursive && depth < MAX_DEPTH then [Node(es[0].uid, depth + 1)] + Subs(w, es[1..], depth)
    else Subs(w, es[1..], depth)
  }

  function Files(w: World, n: Node): seq<Target> {
    var es := w.dir(n.uid);
    if es.None? then [] else Docs(w, es.value)
  }

  function Kids(w: World, n: Node): (r: seq<Node>)
    ensures forall m :: m in r ==> m.depth == n.depth + 1 <= MAX_DEPTH
  {
    var es := w.dir(n.uid);
    if es.None? then [] else Subs(w, es.value, n.depth)
  }

  predicate InDepth(ns: seq<Node>) {
    forall n :: n in ns ==> n.depth <= MAX_DEPTH
  }

  // ---------------------------------------------------------------- the listing, level by level

  function FilesOf(w: World, level: seq<Node>): seq<Target> {
    if level == [] then [] else Files(w, level[0]) + FilesOf(w, level[1..])
  }

  function KidsOf(w: World, level: seq<Node>): (r: seq<Node>)
    ensures forall n :: n in r ==> n.depth <= MAX_DEPTH
  {
    if level == [] then [] else Kids(w, level[0]) + KidsOf(w, level[1..])
  }

  /** The documents of a level, then of the level below, and so on. */
  function ByLevel(w: World, level: seq<Node>, depth: nat): seq<Target>
    requires depth <= MAX_DEPTH + 1
    decreases MAX_DEPTH + 1 - depth
  {
    if level == [] || depth > MAX_DEPTH then [] else FilesOf(w, level) + ByLevel(w, KidsOf(w, level), depth + 1)
  }

  // ---------------------------------------------------------------- the queue

  function Size(w: World, n: Node): (s: nat)
    requires n.depth <= MAX_DEPTH
    ensures s >= 1
    decreases MAX_DEPTH - n.depth, 1, 0
  {
    1 + SizeBelow(w, Kids(w, n), n.depth)
  }

  /** How many folders are still to be read under these, all deeper than `depth`. */
  function SizeBelow(w: World, ns: seq<Node>, depth: nat): nat
    requires depth <= MAX_DEPTH && forall n :: n in ns ==> depth < n.depth <= MAX_DEPTH
    decreases MAX_DEPTH - depth, 0, |ns|
  {
    if ns == [] then 0 else Size(w, ns[0]) + SizeBelow(w, ns[1..], depth)
  }

  function Left(w: World, queue: seq<Node>): nat
    requires InDepth(queue)
  {
    if queue == [] then 0 else Size(w, queue[0]) + Left(w, queue[1..])
  }

  lemma LeftAppend(w: World, a: seq<Node>, b: seq<Node>)
    requires InDepth(a) && InDepth(b)
    ensures InDepth(a + b) && Left(w, a + b) == Left(w, a) + Left(w, b)
  {
    if a == [] {
      assert a + b == b;
    } else {
      assert (a + b)[1..] == a[1..] + b;
      LeftAppend(w, a[1..], b);
    }
  }

  lemma LeftIsBelow(w: World, ns: seq<Node>, depth: nat)
    requires depth <= MAX_DEPTH && forall n :: n in ns ==> depth < n.depth <= MAX_DEPTH
    ensures InDepth(ns) && Left(w, ns) == SizeBelow(w, ns, depth)
  {
    if ns != [] {
      LeftIsBelow(w, ns[1..], depth);
    }
  }

  lemma PopShrinks(w: World, queue: seq<Node>)
    requires queue != [] && InDepth(queue)
    ensures InDepth(queue[1..] + Kids(w, queue[0]))
    ensures Left(w, queue[1..] + Kids(w, queue[0])) == Left(w, queue) - 1
  {
    LeftAppend(w, queue[1..], Kids(w, queue[0]));
    LeftIsBelow(w, Kids(w, queue[0]), queue[0].depth);
  }

  /** What a queue yields: the documents of its first folder, then what is left with its subfolders last. */
  function Walk(w: World, queue: seq<Node>): seq<Target>
    requires InDepth(queue)
    decreases Left(w, queue)
  {
    if queue == [] then []
    else
      PopShrinks(w, queue);
      Files(w, queue[0]) + Walk(w, queue[1..] + Kids(w, queue[0]))
  }

  /** A queue that holds the rest of a level and the next one's beginning yields the rest of the level first. */
  lemma {:induction false} WalkLevel(w: World, level: seq<Node>, next: seq<Node>)
    requires InDepth(level) && InDepth(next)
    ensures InDepth(level + next) && InDepth(next + KidsOf(w, level))
    ensures Walk(w, level + next) == FilesOf(w, level) + Walk(w, next + KidsOf(w, level))
    decreases |level|
  {
    hide Files, Kids, Left;
    if level == [] {
      assert level + next == next && next + [] == next;
    } else {
      var n := level[0];
      PopShrinks(w, level + next);
      assert (level + next)[1..] + Kids(w, n) == level[1..] + (next + Kids(w, n));
      WalkLevel(w, level[1..], next + Kids(w, n));
      assert (next + Kids(w, n)) + KidsOf(w, level[1..]) == next + KidsOf(w, level);
      assert Files(w, n) + (FilesOf(w, level[1..]) + Walk(w, next + KidsOf(w, level))) == FilesOf(w, level) + Walk(w, next + KidsOf(w, level));
    }
  }

  lemma KidsDeeper(w: World, level: seq<Node>, depth: nat)
    requires forall n :: n in level ==> n.depth == depth
    ensures forall n :: n in KidsOf(w, level) ==> n.depth == depth + 1 <= MAX_DEPTH
  {
  }

  /** The queue is a level-order listing. */
  lemma {:induction false} WalkIsByLevel(w: World, level: seq<Node>, depth: nat)
    requires depth <= MAX_DEPTH + 1 && forall n :: n in level ==> n.depth == depth <= MAX_DEPTH
    ensures Walk(w, level) == ByLevel(w, level, depth)
    decreases MAX_DEPTH + 1 - depth
  {
    hide FilesOf, KidsOf, Left;
    if level != [] {
      assert level[0].depth == depth;
      WalkLevel(w, level, []);
      assert level + [] == level && [] + KidsOf(w, level) == KidsOf(w, level);
      KidsDeeper(w, level, depth);
      WalkIsByLevel(w, KidsOf(w, level), depth + 1);
    }
  }

  // ---------------------------------------------------------------- what is listed

  predicate Holds(w: World, p: string, e: Entry) {
    w.dir(p).Some? && e in w.dir(p).value
  }

  /** A folder `k` steps below the root; in a listing that does not recurse, there is the root alone. */
  ghost predicate ReachedIn(w: World, root: string, k: nat, u: string) {
    if k == 0 then u == root
    else w.recursive && exists p, e :: ReachedIn(w, root, k - 1, p) && Holds(w, p, e) && e.container && e.uid == u
  }

  lemma InDocs(w: World, es: seq<Entry>, t: Target)
    ensures t in Docs(w, es) <==> exists e :: e in es && !e.container && w.take(e) == Some(t)
  {
    if es != [] {
      InDocs(w, es[1..], t);
      assert forall e :: e in es <==> e == es[0] || e in es[1..];
    }
  }

  lemma InSubs(w: World, es: seq<Entry>, depth: nat, n: Node)
    ensures n in Subs(w, es, depth) <==>
              n.depth == depth + 1 <= 12 && w.recursive && exists e :: e in es && e.container && e.uid == n.uid
  {
    if es != [] {
      InSubs(w, es[1..], depth, n);
      assert forall e :: e in es <==> e == es[0] || e in es[1..];
    }
  }

  lemma InFilesOf(w: World, level: seq<Node>, t: Target)
    ensures t in FilesOf(w, level) <==> exists n :: n in level && t in Files(w, n)
  {
    hide Files;
    if level != [] {
      InFilesOf(w, level[1..], t);
      assert forall n :: n in level <==> n == level[0] || n in level[1..];
    }
  }

  lemma InKidsOf(w: World, level: seq<Node>, m: Node)
    ensures m in KidsOf(w, level) <==> exists n :: n in level && m in Kids(w, n)
  {
    hide Kids;
    if level != [] {
      InKidsOf(w, level[1..], m);
      assert forall n :: n in level <==> n == level[0] || n in level[1..];
    }
  }

  /** The folders `k` levels further down. */
  function Level(w: World, level: seq<Node>, k: nat): seq<Node> {
    if k == 0 then level else KidsOf(w, Level(w, level, k - 1))
  }

  lemma {:induction false} LevelBelow(w: World, level: seq<Node>, k: nat)
    ensures Level(w, KidsOf(w, level), k) == Level(w, level, k + 1)
  {
    hide KidsOf;
    if k > 0 {
      LevelBelow(w, level, k - 1);
    }
  }

  ghost predicate FoundAt(w: World, level: seq<Node>, depth: nat, t: Target) {
    exists k: nat :: depth + k <= 12 && t in FilesOf(w, Level(w, level, k))
  }

  lemma {:induction false} InByLevel(w: World, level: seq<Node>, depth: nat, t: Target)
    requires depth <= MAX_DEPTH + 1
    ensures t in ByLevel(w, level, depth) <==> FoundAt(w, level, depth, t)
    decreases MAX_DEPTH + 1 - depth
  {
    hide FilesOf, KidsOf;
    if level == [] {
      NoLevels(w, level, depth, t);
    } else if depth <= MAX_DEPTH {
      var kids := KidsOf(w, level);
      InByLevel(w, kids, depth + 1, t);
      if FoundAt(w, kids, depth + 1, t) {
        var k: nat :| depth + 1 + k <= 12 && t in FilesOf(w, Level(w, kids, k));
        LevelBelow(w, level, k);
        assert t in FilesOf(w, Level(w, level, k + 1));
      }
      if FoundAt(w, level, depth, t) {
        var k: nat :| depth + k <= 12 && t in FilesOf(w, Level(w, level, k));
        if k > 0 {
          LevelBelow(w, level, k - 1);
          assert t in FilesOf(w, Level(w, kids, k - 1));
        }
      }
      assert Level(w, level, 0) == level;
    }
  }

  lemma NoLevels(w: World, level: seq<Node>, depth: nat, t: Target)
    requires level == []
    ensures !FoundAt(w, level, depth, t)
  {
    forall k: nat ensures Level(w, level, k) == [] {
      EmptyLevel(w, level, k);
    }
  }

  lemma {:induction false} EmptyLevel(w: World, level: seq<Node>, k: nat)
    requires level == []
    ensures Level(w, level, k) == []
  {
    if k > 0 {
      EmptyLevel(w, level, k - 1);
    }
  }

  lemma InKids(w: World, p: Node, n: Node)
    ensures n in Kids(w, p) <==>
              n.depth == p.depth + 1 <= 12 && w.recursive && exists e :: Holds(w, p.uid, e) && e.container && e.uid == n.uid
  {
    hide Subs;
    if w.dir(p.uid).Some? {
      InSubs(w, w.dir(p.uid).value, p.depth, n);
      assert forall e :: e in w.dir(p.uid).value <==> Holds(w, p.uid, e);
    }
  }

  lemma {:induction false} LevelIsReached(w: World, root: string, k: nat, n: Node)
    requires k <= 12
    ensures n in Level(w, [Node(root, 0)], k) <==> n.depth == k && ReachedIn(w, root, k, n.uid)
    decreases k, 1
  {
    hide KidsOf, Kids, Holds, ReachedIn;
    if k == 0 {
      ReachedAtRoot(w, root, n.uid);
    } else {
      if n in Level(w, [Node(root, 0)], k) {
        LevelReaches(w, root, k, n);
      }
      if n.depth == k && ReachedIn(w, root, k, n.uid) {
        ReachedListed(w, root, k, n);
      }
    }
  }

  lemma ReachedAtRoot(w: World, root: string, u: string)
    ensures ReachedIn(w, root, 0, u) <==> u == root
  {
  }

  lemma {:induction false} LevelReaches(w: World, root: string, k: nat, n: Node)
    requires 0 < k <= 12 && n in Level(w, [Node(root, 0)], k)
    ensures n.depth == k && ReachedIn(w, root, k, n.uid)
    decreases k, 0
  {
    hide KidsOf, Kids, Holds;
    var above := Level(w, [Node(root, 0)], k - 1);
    InKidsOf(w, above, n);
    var p :| p in above && n in Kids(w, p);
    LevelIsReached(w, root, k - 1, p);
    InKids(w, p, n);
    var e :| Holds(w, p.uid, e) && e.container && e.uid == n.uid;
    assert ReachedIn(w, root, k - 1, p.uid) && Holds(w, p.uid, e);
  }

  lemma {:induction false} ReachedListed(w: World, root: string, k: nat, n: Node)
    requires 0 < k <= 12 && n.depth == k && ReachedIn(w, root, k, n.uid)
    ensures n in Level(w, [Node(root, 0)], k)
    decreases k, 0
  {
    hide KidsOf, Kids, Holds;
    var p, e :| ReachedIn(w, root, k - 1, p) && Holds(w, p, e) && e.container && e.uid == n.uid;
    var above := Node(p, k - 1);
    LevelIsReached(w, root, k - 1, above);
    assert above.uid == p;
    InKids(w, above, n);
    InKidsOf(w, Level(w, [Node(root, 0)], k - 1), n);
  }

  /** What a folder's listing holds: every document that is wanted in a folder at most twelve steps below, or, in a
      listing that does not recurse, in the folder itself; and nothing else. */
  lemma ListedIff(w: World, root: string, t: Target)
    ensures t in ByLevel(w, [Node(root, 0)], 0) <==>
              exists k: nat, u, e :: k <= 12 && ReachedIn(w, root, k, u) && Holds(w, u, e) && !e.container && w.take(e) == Some(t)
  {
    hide ByLevel, FilesOf, Level, Docs, ReachedIn;
    InByLevel(w, [Node(root, 0)], 0, t);
    if FoundAt(w, [Node(root, 0)], 0, t) {
      var k: nat :| 0 + k <= 12 && t in FilesOf(w, Level(w, [Node(root, 0)], k));
      InFilesOf(w, Level(w, [Node(root, 0)], k), t);
      var n :| n in Level(w, [Node(root, 0)], k) && t in Files(w, n);
      LevelIsReached(w, root, k, n);
      InDocs(w, w.dir(n.uid).value, t);
      var e :| e in w.dir(n.uid).value && !e.container && w.take(e) == Some(t);
      assert ReachedIn(w, root, k, n.uid) && Holds(w, n.uid, e);
    }
    if exists k: nat, u, e :: k <= 12 && ReachedIn(w, root, k, u) && Holds(w, u, e) && !e.container && w.take(e) == Some(t) {
      var k: nat, u, e :| k <= 12 && ReachedIn(w, root, k, u) && Holds(w, u, e) && !e.container && w.take(e) == Some(t);
      LevelIsReached(w, root, k, Node(u, k));
      InDocs(w, w.dir(u).value, t);
      assert t in Files(w, Node(u, k));
      InFilesOf(w, Level(w, [Node(root, 0)], k), t);
      assert t in FilesOf(w, Level(w, [Node(root, 0)], k));
    }
  }

  /** A folder's documents stand in the order of its entries, and a level's in the order of its folders. */
  lemma {:induction false} DocsInOrder(w: World, a: seq<Entry>, e: Entry, b: seq<Entry>)
    ensures Docs(w, a + [e] + b) == Docs(w, a) + (if e.container || w.take(e).None? then [] else [w.take(e).value]) + Docs(w, b)
  {
    if a == [] {
      assert a + [e] + b == [e] + b;
    } else {
      assert (a + [e] + b)[1..] == a[1..] + [e] + b;
      DocsInOrder(w, a[1..], e, b);
    }
  }

  lemma {:induction false} FilesInOrder(w: World, a: seq<Node>, b: seq<Node>)
    ensures FilesOf(w, a + b) == FilesOf(w, a) + FilesOf(w, b)
  {
    hide Files;
    if a == [] {
      assert a + b == b;
    } else {
      assert (a + b)[1..] == a[1..] + b;
      FilesInOrder(w, a[1..], b);
    }
  }

  // ---------------------------------------------------------------- the walk

  /** The documents a run reads, and whether the folder holds more. */
  datatype Found = Found(targets: seq<Target>, truncated: bool) | Unreadable

  function Take(s: seq<Target>, cap: int): seq<Target> {
    if cap < 0 then [] else if |s| <= cap then s else s[..cap]
  }

  /** Read one folder's entries: its documents go to the list, its subfolders to the end of the queue; stop
      one document past the cap. */
  method ReadFolder(w: World, es: seq<Entry>, depth: nat, found: seq<Target>, queued: seq<Node>, cap: int)
    returns (out: seq<Target>, queue: seq<Node>)
    requires |found| <= cap && InDepth(queued)
    ensures InDepth(queue)
    ensures |found + Docs(w, es)| <= cap ==> out == found + Docs(w, es) && queue == queued + Subs(w, es, depth)
    ensures |found + Docs(w, es)| > cap ==> out == (found + Docs(w, es))[..cap + 1]
  {
    hide Docs, Subs;
    out, queue := found, queued;
    var i := 0;
    assert es[0..] == es;
    while i < |es|
      invariant i <= |es| && InDepth(queue) && |out| <= cap
      invariant out + Docs(w, es[i..]) == found + Docs(w, es)
      invariant queue + Subs(w, es[i..], depth) == queued + Subs(w, es, depth)
    {
      var e := es[i];
      EntryStep(w, es, i, depth);
      var more, subs := Docs(w, es[i + 1..]), Subs(w, es[i + 1..], depth);
      i := i + 1;
      if e.container {
        if w.recursive && depth < MAX_DEPTH {
          assert queue + ([Node(e.uid, depth + 1)] + subs) == (queue + [Node(e.uid, depth + 1)]) + subs;
          queue := queue + [Node(e.uid, depth + 1)];
        }
        continue;
      }
      var t := w.take(e);
      if t.None? {
        continue;
      }
      assert out + ([t.value] + more) == (out + [t.value]) + more;
      out := out + [t.value];
      if |out| > cap {
        assert (out + more)[..cap + 1] == out;
        return;
      }
    }
    NoEntries(w, es[i..], depth);
    assert out + [] == out && queue + [] == queue;
  }

  lemma NoEntries(w: World, es: seq<Entry>, depth: nat)
    requires es == []
    ensures Docs(w, es) == [] && Subs(w, es, depth) == []
  {
  }

  lemma EntryStep(w: World, es: seq<Entry>, i: nat, depth: nat)
    requires i < |es|
    ensures Docs(w, es[i..]) == if !es[i].container && w.take(es[i]).Some? then [w.take(es[i]).value] + Docs(w, es[i + 1..]) else Docs(w, es[i + 1..])
    ensures Subs(w, es[i..], depth) ==
            if es[i].container && w.recursive && depth < MAX_DEPTH then [Node(es[i].uid, depth + 1)] + Subs(w, es[i + 1..], depth)
            else Subs(w, es[i + 1..], depth)
  {
    assert es[i..][1..] == es[i + 1..];
  }

  lemma WalkPop(w: World, queue: seq<Node>)
    requires queue != [] && InDepth(queue)
    ensures InDepth(queue[1..] + Kids(w, queue[0]))
    ensures Walk(w, queue) == Files(w, queue[0]) + Walk(w, queue[1..] + Kids(w, queue[0]))
  {
    PopShrinks(w, queue);
  }

  lemma WalkNone(w: World)
    ensures Walk(w, []) == []
  {
  }

  /** `_folder`: the first `cap` documents of the level-order listing, and whether there are more. */
  method Folder(w: World, root: string, cap: int) returns (r: Found)
    ensures cap >= 0 && w.dir(root).None? ==> r == Unreadable
    ensures cap >= 0 && w.dir(root).Some? ==>
              var full := ByLevel(w, [Node(root, 0)], 0);
              r == if |full| <= cap then Found(full, false) else Found(full[..cap], true)
    ensures cap < 0 ==> r == Found([], true)
  {
    hide ByLevel, Left, Walk, Docs, Subs;
    var out: seq<Target> := [];
    var queue := [Node(root, 0)];
    WalkIsByLevel(w, queue, 0);
    ghost var full := ByLevel(w, queue, 0);
    assert [] + full == full;
    while queue != [] && |out| <= cap
      invariant InDepth(queue)
      invariant queue == [Node(root, 0)] || (w.dir(root).Some? && forall n :: n in queue ==> n.depth > 0) || |out| > cap
      invariant |out| <= cap ==> out + Walk(w, queue) == full
      invariant |out| > cap >= 0 ==> w.dir(root).Some? && |out| == cap + 1 && out <= full
      invariant cap < 0 ==> out == []
      decreases if |out| <= cap then Left(w, queue) + 1 else 0
    {
      var n := queue[0];
      PopShrinks(w, queue);
      WalkPop(w, queue);
      ghost var rest := Walk(w, queue[1..] + Kids(w, n));
      var es := w.dir(n.uid);
      if es.None? {
        if n.depth == 0 {
          return Unreadable;
        }
        assert queue[1..] + [] == queue[1..] && [] + rest == rest;
        queue := queue[1..];
        continue;
      }
      assert (out + Docs(w, es.value)) + rest == out + (Docs(w, es.value) + rest);
      out, queue := ReadFolder(w, es.value, n.depth, out, queue[1..], cap);
    }
    if queue == [] {
      WalkNone(w);
      assert |out| <= cap ==> out + [] == out;
    }
    r := Found(Take(out, cap), |out| > cap);
  }
}
