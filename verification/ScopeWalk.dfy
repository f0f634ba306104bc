/** Expanding selected folders to the documents below them: a depth-first walk over readable
    listings that survives cycles and stops at a cap on folders. */
module ScopeWalk {
  import opened Wrappers

  datatype Entry = Entry(uid: string, container: bool)

  /** What the core lists for a folder, to this caller; `None` when it is missing or unreadable. */
  type Dir = string -> Option<seq<Entry>>

  predicate Subfolder(dir: Dir, p: string, u: string) {
    dir(p).Some? && Entry(u, true) in dir(p).value
  }

  predicate FileOf(dir: Dir, p: string, f: string) {
    dir(p).Some? && Entry(f, false) in dir(p).value && f != ""
  }

  /** A folder `k` steps below a selected one. */
  ghost predicate ReachedIn(dir: Dir, roots: seq<string>, k: nat, u: string) {
    if k == 0 then u in roots && u != "" else exists p :: ReachedIn(dir, roots, k - 1, p) && Subfolder(dir, p, u)
  }

  ghost predicate Reachable(dir: Dir, roots: seq<string>, u: string) {
    exists k: nat :: ReachedIn(dir, roots, k, u)
  }

  ghost predicate InScope(dir: Dir, roots: seq<string>, f: string) {
    exists p :: Reachable(dir, roots, p) && FileOf(dir, p, f)
  }

  ghost predicate AllReachable(dir: Dir, roots: seq<string>, us: set<string>) {
    forall u :: u in us ==> Reachable(dir, roots, u)
  }

  ghost predicate FilesAre(dir: Dir, seen: set<string>, files: set<string>) {
    forall f :: f in files <==> exists p :: p in seen && FileOf(dir, p, f)
  }

  /** More folders can be reached than the cap allows to read. */
  ghost predicate OverCap(dir: Dir, roots: seq<string>, cap: int) {
    exists us :: AllReachable(dir, roots, us) && |us| > cap
  }

  /** What is reached from a seen folder is seen, or waits on the stack. */
  ghost predicate Frontier(dir: Dir, roots: seq<string>, seen: set<string>, stack: seq<string>) {
    && (forall u :: u in roots && u != "" ==> u in seen || u in stack)
    && (forall p, u :: p in seen && Subfolder(dir, p, u) ==> u in seen || u in stack)
  }

  lemma {:induction false} ClosedHoldsAll(dir: Dir, roots: seq<string>, seen: set<string>, stack: seq<string>, k: nat,
      u: string)
    requires Frontier(dir, roots, seen, stack) && (forall v :: v in stack ==> v in seen) && ReachedIn(dir, roots, k, u)
    ensures u in seen
  {
    if k > 0 {
      var p :| ReachedIn(dir, roots, k - 1, p) && Subfolder(dir, p, u);
      ClosedHoldsAll(dir, roots, seen, stack, k - 1, p);
    }
  }

  lemma BelowIsReachable(dir: Dir, roots: seq<string>, p: string, u: string)
    requires Reachable(dir, roots, p) && Subfolder(dir, p, u)
    ensures Reachable(dir, roots, u)
  {
    var k: nat :| ReachedIn(dir, roots, k, p);
    assert ReachedIn(dir, roots, k + 1, u);
  }

  function NonEmpty(us: seq<string>): (r: seq<string>)
    ensures forall u :: u in r <==> u in us && u != ""
  {
    if us == [] then [] else if us[0] != "" then [us[0]] + NonEmpty(us[1..]) else NonEmpty(us[1..])
  }

  /** `resolve_scope_file_uids`: the documents of the folders it read, all of them reachable; and that is the
      whole scope, unless more folders are reachable than the cap. */
  method ResolveScopeFileUids(dir: Dir, folders: seq<string>, cap: int) returns (files: set<string>,
      ghost seen: set<string>)
    ensures AllReachable(dir, folders, seen) && FilesAre(dir, seen, files) && (seen == {} || |seen| <= cap)
    ensures forall f :: f in files ==> InScope(dir, folders, f)
    ensures !OverCap(dir, folders, cap) ==> forall f :: f in files <==> InScope(dir, folders, f)
    ensures !OverCap(dir, folders, cap) ==> forall u :: u in seen <==> Reachable(dir, folders, u)
  {
    hide InScope, OverCap;
    files := {};
    var visited: set<string> := {};
    var stack := NonEmpty(folders);
    forall u | u in stack ensures Reachable(dir, folders, u) {
      assert ReachedIn(dir, folders, 0, u);
    }
    while stack != [] && |visited| < cap
      invariant AllReachable(dir, folders, visited) && (forall u :: u in stack ==> Reachable(dir, folders, u))
      invariant Frontier(dir, folders, visited, stack) && FilesAre(dir, visited, files)
      invariant visited == {} || |visited| <= cap
      decreases cap - |visited|, |stack|
    {
      hide Reachable, AllReachable, Frontier, FilesAre;
      var fuid := stack[|stack| - 1];
      ghost var before := stack;
      stack := stack[..|stack| - 1];
      if fuid in visited {
        PopSeen(dir, folders, visited, before);
        continue;
      }
      Visit(dir, folders, visited, fuid);
      var entries := dir(fuid);
      if entries.None? {
        ReadNothing(dir, folders, visited, before, files, fuid);
        visited := visited + {fuid};
        continue;
      }
      ghost var found := files;
      files, stack := ReadEntries(entries.value, visited + {fuid}, files, stack);
      ReadFolder(dir, folders, visited, before, found, fuid, stack, files);
      visited := visited + {fuid};
    }
    seen := visited;
    Conclude(dir, folders, cap, seen, stack, files);
  }

  method ReadEntries(entries: seq<Entry>, seen: set<string>, found: set<string>, waiting: seq<string>)
    returns (files: set<string>, stack: seq<string>)
    ensures waiting <= stack
    ensures forall u :: u in stack ==> u in waiting || Entry(u, true) in entries
    ensures forall u :: Entry(u, true) in entries ==> u in seen || u in stack
    ensures forall f :: f in files <==> f in found || (Entry(f, false) in entries && f != "")
  {
    files, stack := found, waiting;
    var i := 0;
    while i < |entries|
      invariant i <= |entries| && waiting <= stack
      invariant forall u :: u in stack ==> u in waiting || Entry(u, true) in entries[..i]
      invariant forall u :: Entry(u, true) in entries[..i] ==> u in seen || u in stack
      invariant forall f :: f in files <==> f in found || (Entry(f, false) in entries[..i] && f != "")
    {
      var e := entries[i];
      assert entries[..i + 1] == entries[..i] + [e];
      if e.container {
        if e.uid !in seen {
          stack := stack + [e.uid];
        }
      } else if e.uid != "" {
        files := files + {e.uid};
      }
      i := i + 1;
    }
    assert entries[..i] == entries;
  }

  lemma PopSeen(dir: Dir, roots: seq<string>, seen: set<string>, stack: seq<string>)
    requires stack != [] && stack[|stack| - 1] in seen && Frontier(dir, roots, seen, stack)
    requires forall u :: u in stack ==> Reachable(dir, roots, u)
    ensures Frontier(dir, roots, seen, stack[..|stack| - 1])
    ensures forall u :: u in stack[..|stack| - 1] ==> Reachable(dir, roots, u)
  {
  }

  lemma Visit(dir: Dir, roots: seq<string>, seen: set<string>, u: string)
    requires AllReachable(dir, roots, seen) && Reachable(dir, roots, u)
    ensures AllReachable(dir, roots, seen + {u})
  {
  }

  lemma ReadNothing(dir: Dir, roots: seq<string>, seen: set<string>, stack: seq<string>, files: set<string>, u: string)
    requires stack != [] && u == stack[|stack| - 1] && dir(u).None? && Frontier(dir, roots, seen, stack) && FilesAre(dir, seen, files)
    requires forall v :: v in stack ==> Reachable(dir, roots, v)
    ensures Frontier(dir, roots, seen + {u}, stack[..|stack| - 1]) && FilesAre(dir, seen + {u}, files)
    ensures forall v :: v in stack[..|stack| - 1] ==> Reachable(dir, roots, v)
  {
  }

  lemma ReadFolder(dir: Dir, roots: seq<string>, seen: set<string>, stack: seq<string>, files: set<string>, u: string,
                   newStack: seq<string>, newFiles: set<string>)
    requires stack != [] && u == stack[|stack| - 1] && dir(u).Some? && Frontier(dir, roots, seen, stack) && FilesAre(dir, seen, files)
    requires forall v :: v in stack ==> Reachable(dir, roots, v)
    requires stack[..|stack| - 1] <= newStack
    requires forall v :: v in newStack ==> v in stack[..|stack| - 1] || Entry(v, true) in dir(u).value
    requires forall v :: Entry(v, true) in dir(u).value ==> v in seen + {u} || v in newStack
    requires forall f :: f in newFiles <==> f in files || (Entry(f, false) in dir(u).value && f != "")
    ensures Frontier(dir, roots, seen + {u}, newStack) && FilesAre(dir, seen + {u}, newFiles)
    ensures forall v :: v in newStack ==> Reachable(dir, roots, v)
  {
    forall v | v in newStack ensures Reachable(dir, roots, v) {
      if v !in stack[..|stack| - 1] {
        BelowIsReachable(dir, roots, u, v);
      }
    }
    forall v | v in stack ensures v == u || v in newStack {
      var i :| 0 <= i < |stack| && stack[i] == v;
      if i < |stack| - 1 {
        assert newStack[i] == v;
      }
    }
    assert FileOf(dir, u, "") == false;
    forall f ensures f in newFiles <==> exists p :: p in seen + {u} && FileOf(dir, p, f) {
      if f in newFiles && f !in files {
        assert FileOf(dir, u, f);
      }
    }
  }

  lemma Conclude(dir: Dir, roots: seq<string>, cap: int, seen: set<string>, stack: seq<string>, files: set<string>)
    requires stack == [] || |seen| >= cap
    requires AllReachable(dir, roots, seen) && (forall u :: u in stack ==> Reachable(dir, roots, u))
    requires Frontier(dir, roots, seen, stack) && FilesAre(dir, seen, files)
    ensures forall f :: f in files ==> InScope(dir, roots, f)
    ensures !OverCap(dir, roots, cap) ==> forall u :: u in seen <==> Reachable(dir, roots, u)
    ensures !OverCap(dir, roots, cap) ==> forall f :: f in files <==> InScope(dir, roots, f)
  {
    if forall u :: u in stack ==> u in seen {
      forall u | Reachable(dir, roots, u) ensures u in seen {
        var k: nat :| ReachedIn(dir, roots, k, u);
        ClosedHoldsAll(dir, roots, seen, stack, k, u);
      }
    } else {
      var u :| u in stack && u !in seen;
      assert AllReachable(dir, roots, seen + {u}) && |seen + {u}| > cap;
    }
  }
}
