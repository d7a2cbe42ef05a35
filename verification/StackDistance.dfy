/** The stack-distance theorem for reads through the cache over a fixed file system
    (src/file_manager.cpp:9-34, src/lru_cache.cpp:3-36). */
module StackDistance {
  import opened LruCache
  import opened Sequences

  /** The cache of the given capacity after reading these paths in order. */
  function CacheAfter(capacity: nat, files: Files, trace: seq<string>): seq<Entry> {
    if trace == [] then []
    else AfterRead(CacheAfter(capacity, files, trace[..|trace| - 1]), capacity, files, trace[|trace| - 1])
  }

  function Hits(capacity: nat, files: Files, trace: seq<string>): nat {
    if trace == [] then 0
    else
      var front, path := trace[..|trace| - 1], trace[|trace| - 1];
      Hits(capacity, files, front) + if Has(CacheAfter(capacity, files, front), path) then 1 else 0
  }

  // ---- the reference: an unbounded recency stack ------------------------------------

  /** Readable paths by most recent read, no capacity involved. */
  function Stack(files: Files, trace: seq<string>): (r: seq<string>)
    ensures forall q :: q in r <==> q in trace && q in files
  {
    if trace == [] then []
    else
      var front, path := trace[..|trace| - 1], trace[|trace| - 1];
      assert forall q :: q in trace <==> q in front || q == path;
      if path in files then [path] + Minus(Stack(files, front), path) else Stack(files, front)
  }

  lemma {:induction false} StackDistinct(files: Files, trace: seq<string>)
    ensures Distinct(Stack(files, trace))
  {
    if trace != [] {
      var front, path := trace[..|trace| - 1], trace[|trace| - 1];
      StackDistinct(files, front);
      MinusDistinct(Stack(files, front), path);
      if path in files {
        ConsDistinct(path, Minus(Stack(files, front), path));
      }
    }
  }

  // ---- the cache is the top of the stack --------------------------------------------

  function Top(stack: seq<string>, n: nat): seq<string> { if |stack| > n then stack[..n] else stack }

  /** The entries cached for these paths. */
  function Cached(files: Files, paths: seq<string>): seq<Entry>
    requires forall q :: q in paths ==> q in files
  {
    seq(|paths|, i requires 0 <= i < |paths| => (paths[i], files[paths[i]]))
  }

  lemma CachedHas(files: Files, paths: seq<string>, path: string)
    requires forall q :: q in paths ==> q in files
    ensures Has(Cached(files, paths), path) <==> path in paths
    ensures path in paths ==> ValueOf(Cached(files, paths), path) == files[path]
    decreases |paths|
  {
    var es := Cached(files, paths);
    assert forall i :: 0 <= i < |paths| ==> es[i].0 == paths[i];
    if path in paths {
      var i :| 0 <= i < |paths| && paths[i] == path;
      assert es[i].0 == path;
      if paths[0] != path {
        assert paths[1..][i - 1] == path;
        CachedHas(files, paths[1..], path);
        assert es[1..] == Cached(files, paths[1..]);
      }
    }
  }

  lemma {:induction false} CachedMinus(files: Files, paths: seq<string>, path: string)
    requires forall q :: q in paths ==> q in files
    ensures Without(Cached(files, paths), path) == Cached(files, Minus(paths, path))
  {
    if paths != [] {
      CachedMinus(files, paths[1..], path);
      assert Cached(files, paths)[1..] == Cached(files, paths[1..]);
    }
  }

  lemma {:induction false} MinusAbsent(stack: seq<string>, path: string)
    requires path !in stack
    ensures Minus(stack, path) == stack
  {
    if stack != [] {
      MinusAbsent(stack[1..], path);
    }
  }

  lemma MinusCons(x: string, xs: seq<string>, path: string)
    ensures Minus([x] + xs, path) == (if x == path then [] else [x]) + Minus(xs, path)
  {
    assert ([x] + xs)[1..] == xs;
  }

  lemma {:induction false} MinusJoin(a: seq<string>, b: seq<string>, path: string)
    ensures Minus(a + b, path) == Minus(a, path) + Minus(b, path)
  {
    if a == [] {
      assert a + b == b;
    } else {
      hide Minus;
      var x, rest := a[0], a[1..];
      assert a == [x] + rest && a + b == [x] + (rest + b);
      MinusJoin(rest, b, path);
      MinusCons(x, rest, path);
      MinusCons(x, rest + b, path);
      AppendAssociates(if x == path then [] else [x], Minus(rest, path), Minus(b, path));
    }
  }

  lemma AppendAssociates(a: seq<string>, b: seq<string>, c: seq<string>)
    ensures a + (b + c) == (a + b) + c
  {
  }

  /** Removing a path closes the gap. */
  lemma {:induction false} MinusAt(stack: seq<string>, i: nat)
    requires Distinct(stack) && i < |stack|
    ensures Minus(stack, stack[i]) == stack[..i] + stack[i + 1..]
  {
    var rest := stack[1..];
    if i == 0 {
      MinusAbsent(rest, stack[0]);
    } else {
      MinusAt(rest, i - 1);
      assert rest[i - 1] == stack[i];
      assert [stack[0]] + rest[..i - 1] == stack[..i] && rest[i..] == stack[i + 1..];
    }
  }

  /** Reading a path moves it to the top of the stack and of the cache alike. */
  lemma TopAfterRead(stack: seq<string>, path: string, capacity: nat)
    requires Distinct(stack) && 1 <= capacity
    ensures var top := Top(stack, capacity);
            Top([path] + Minus(stack, path), capacity) ==
              if path in top then [path] + Minus(top, path)
              else if |top| + 1 > capacity then [path] + top[..|top| - 1] else [path] + top
  {
    hide Minus, Distinct;
    if path in stack {
      var i :| 0 <= i < |stack| && stack[i] == path;
      MinusAt(stack, i);
      if path in Top(stack, capacity) {
        TopHolds(stack, i, capacity);
        TopDistinct(stack, capacity);
        MinusAt(Top(stack, capacity), i);
        TopWithin(stack, path, i, capacity);
      } else {
        TopBelow(stack, path, i, capacity);
      }
    } else {
      MinusAbsent(stack, path);
    }
  }

  lemma TopDistinct(stack: seq<string>, capacity: nat)
    requires Distinct(stack)
    ensures Distinct(Top(stack, capacity))
  {
  }

  /** The path was in the cache. */
  lemma TopWithin(stack: seq<string>, path: string, i: nat, capacity: nat)
    requires i < |Top(stack, capacity)|
    ensures var top := Top(stack, capacity);
            Top([path] + (stack[..i] + stack[i + 1..]), capacity) == [path] + (top[..i] + top[i + 1..])
  {
  }

  /** The path was on the stack but not in the cache, which is then full. */
  lemma TopBelow(stack: seq<string>, path: string, i: nat, capacity: nat)
    requires 1 <= capacity && i < |stack| && stack[i] == path && path !in Top(stack, capacity)
    ensures |Top(stack, capacity)| == capacity
    ensures Top([path] + (stack[..i] + stack[i + 1..]), capacity) == [path] + stack[..capacity - 1]
  {
    var top := Top(stack, capacity);
    assert forall j :: 0 <= j < |top| ==> top[j] == stack[j] && top[j] != path;
  }

  lemma TopHolds(stack: seq<string>, i: nat, capacity: nat)
    requires Distinct(stack) && i < |stack| && stack[i] in Top(stack, capacity)
    ensures i < |Top(stack, capacity)| && Top(stack, capacity)[i] == stack[i]
  {
    var top := Top(stack, capacity);
    var j :| 0 <= j < |top| && top[j] == stack[i];
    assert stack[j] == stack[i];
  }

  /** The cache always holds the top of the recency stack, with the files' contents. */
  lemma {:induction false} CacheIsTopOfStack(capacity: nat, files: Files, trace: seq<string>)
    requires 1 <= capacity
    ensures var top := Top(Stack(files, trace), capacity);
            && (forall q :: q in top ==> q in files)
            && CacheAfter(capacity, files, trace) == Cached(files, top)
  {
    if trace != [] {
      var front, path := trace[..|trace| - 1], trace[|trace| - 1];
      CacheIsTopOfStack(capacity, files, front);
      StackDistinct(files, front);
      var stack := Stack(files, front);
      CachedHas(files, Top(stack, capacity), path);
      if path in files {
        TopAfterRead(stack, path, capacity);
        ReadKeepsTop(capacity, files, Top(stack, capacity), path);
      }
    }
  }

  lemma ReadKeepsTop(capacity: nat, files: Files, top: seq<string>, path: string)
    requires 1 <= capacity && path in files && |top| <= capacity && forall q :: q in top ==> q in files
    ensures var es := Cached(files, top);
            && (forall q :: q in Minus(top, path) ==> q in files)
            && AfterRead(es, capacity, files, path) ==
              Cached(files, if path in top then [path] + Minus(top, path)
                            else if |top| + 1 > capacity then [path] + top[..|top| - 1] else [path] + top)
  {
    CachedHas(files, top, path);
    CachedMinus(files, top, path);
    var es := Cached(files, top);
    assert Cached(files, [path] + Minus(top, path)) == [(path, files[path])] + Cached(files, Minus(top, path));
    assert Cached(files, [path] + top) == [(path, files[path])] + es;
    if |top| + 1 > capacity {
      assert [path] + top[..|top| - 1] == ([path] + top)[..|top|];
      assert Cached(files, [path] + top[..|top| - 1]) == Cached(files, [path] + top)[..|top|];
    }
  }

  // ---- distance ------------------------------------------------------------------------

  /** Where a path was last read. */
  function LastRead(trace: seq<string>, path: string): (i: nat)
    requires path in trace
    ensures i < |trace| && trace[i] == path && path !in trace[i + 1..]
  {
    if trace[|trace| - 1] == path then |trace| - 1
    else
      assert path in trace[..|trace| - 1] by {
        var j :| 0 <= j < |trace| && trace[j] == path;
        assert trace[..|trace| - 1][j] == path;
      }
      var i := LastRead(trace[..|trace| - 1], path);
      assert trace[i + 1..] == trace[..|trace| - 1][i + 1..] + [trace[|trace| - 1]];
      i
  }

  /** The distinct other readable paths read since. */
  function OthersSince(files: Files, trace: seq<string>, path: string): set<string>
    requires path in trace
  {
    set q | q in trace[LastRead(trace, path) + 1..] && q in files
  }

  function Position(stack: seq<string>, path: string): (i: nat)
    requires path in stack
    ensures i < |stack| && stack[i] == path && path !in stack[..i]
  {
    if stack[0] == path then 0
    else
      var i := Position(stack[1..], path);
      assert stack[..i + 1] == [stack[0]] + stack[1..][..i];
      i + 1
  }

  /** What lies above a path on the stack is exactly what was read since. */
  lemma {:induction false} AboveIsSince(files: Files, trace: seq<string>, path: string)
    requires path in trace && path in files
    ensures var stack := Stack(files, trace);
            path in stack &&
            (set q | q in stack[..Position(stack, path)]) == OthersSince(files, trace, path)
  {
    var front, last := trace[..|trace| - 1], trace[|trace| - 1];
    var stack := Stack(files, trace);
    assert path in stack;
    if last == path {
      assert trace[|trace|..] == [];
      assert OthersSince(files, trace, path) == {};
      assert stack[0] == path && Position(stack, path) == 0;
    } else {
      assert trace == front + [last];
      AboveIsSince(files, front, path);
      SinceGrows(files, front, last, path);
      if last in files {
        AboveGrows(Stack(files, front), last, path);
      }
    }
  }

  lemma LastReadStays(front: seq<string>, last: string, path: string)
    requires path in front && last != path
    ensures LastRead(front + [last], path) == LastRead(front, path)
  {
    var trace := front + [last];
    assert trace[..|trace| - 1] == front;
  }

  lemma ReadableGrows(files: Files, paths: seq<string>, last: string)
    ensures (set q | q in paths + [last] && q in files) ==
            (set q | q in paths && q in files) + if last in files then {last} else {}
  {
  }

  lemma SinceGrows(files: Files, front: seq<string>, last: string, path: string)
    requires path in front && last != path
    ensures OthersSince(files, front + [last], path) ==
              OthersSince(files, front, path) + if last in files then {last} else {}
  {
    hide LastRead;
    var i := LastRead(front, path);
    LastReadStays(front, last, path);
    assert (front + [last])[i + 1..] == front[i + 1..] + [last];
    ReadableGrows(files, front[i + 1..], last);
  }

  lemma AboveGrows(stack: seq<string>, last: string, path: string)
    requires path in stack && last != path
    ensures var moved := [last] + Minus(stack, last);
            (set q | q in moved[..Position(moved, path)]) ==
            (set q | q in stack[..Position(stack, path)]) + {last}
  {
    hide Minus, Position;
    var i := Position(stack, path);
    MovedAbove(stack, last, path, i);
    MovedSet(stack[..i], last);
  }

  lemma MovedSet(paths: seq<string>, last: string)
    ensures (set q | q in [last] + Minus(paths, last)) == (set q | q in paths) + {last}
  {
    hide Minus;
    assert forall q :: q in [last] + Minus(paths, last) <==> q == last || q in paths;
  }

  lemma MovedAbove(stack: seq<string>, last: string, path: string, i: nat)
    requires last != path && i < |stack| && stack[i] == path && path !in stack[..i]
    ensures var moved := [last] + Minus(stack, last);
            path in moved && moved[..Position(moved, path)] == [last] + Minus(stack[..i], last)
  {
    hide Minus, Position;
    var above, below := Minus(stack[..i], last), Minus(stack[i..], last);
    assert stack == stack[..i] + stack[i..];
    MinusJoin(stack[..i], stack[i..], last);
    MinusKeepsFirst(stack[i..], last);
    assert path !in [last] + above;
    PositionAfter([last] + above, below, path);
    assert [last] + (above + below) == ([last] + above) + below;
    assert (([last] + above) + below)[..|[last] + above|] == [last] + above;
  }

  lemma MinusKeepsFirst(stack: seq<string>, last: string)
    requires stack != [] && stack[0] != last
    ensures Minus(stack, last) != [] && Minus(stack, last)[0] == stack[0]
  {
  }

  lemma {:induction false} PositionAfter(a: seq<string>, b: seq<string>, path: string)
    requires path !in a && b != [] && b[0] == path
    ensures path in a + b && Position(a + b, path) == |a|
  {
    assert (a + b)[|a|] == path;
    if a == [] {
      assert a + b == b;
    } else {
      PositionAfter(a[1..], b, path);
      assert (a + b)[1..] == a[1..] + b;
    }
  }

  lemma {:induction false} PrefixSize(xs: seq<string>)
    requires Distinct(xs)
    ensures |set q | q in xs| == |xs|
  {
    if xs == [] {
      assert (set q | q in xs) == {};
    } else {
      PrefixSize(xs[1..]);
      assert (set q | q in xs) == {xs[0]} + set q | q in xs[1..];
      assert xs[0] !in xs[1..];
    }
  }

  /** The stack-distance theorem: a readable path hits exactly when it was read before and
      fewer than `capacity` distinct other readable paths were read since; a hit returns what
      the file holds. A path that cannot be read never hits. */
  lemma HitsByDistance(capacity: nat, files: Files, trace: seq<string>, path: string)
    requires 1 <= capacity
    ensures Has(CacheAfter(capacity, files, trace), path) <==>
              path in files && path in trace && |OthersSince(files, trace, path)| < capacity
    ensures Has(CacheAfter(capacity, files, trace), path) ==>
              ValueOf(CacheAfter(capacity, files, trace), path) == files[path]
  {
    var stack := Stack(files, trace);
    CacheIsTopOfStack(capacity, files, trace);
    CachedHas(files, Top(stack, capacity), path);
    if path in files && path in trace {
      AboveIsSince(files, trace, path);
      StackDistinct(files, trace);
      var i := Position(stack, path);
      PrefixSize(stack[..i]);
      InTopIff(stack, i, capacity);
    }
  }

  lemma InTopIff(stack: seq<string>, i: nat, capacity: nat)
    requires Distinct(stack) && i < |stack|
    ensures stack[i] in Top(stack, capacity) <==> i < capacity
  {
    var top := Top(stack, capacity);
    if i < capacity {
      assert top[i] == stack[i];
    } else {
      assert forall j :: 0 <= j < |top| ==> top[j] == stack[j] && top[j] != stack[i];
    }
  }

  /** Inclusion: a larger cache holds everything a smaller one does. */
  lemma LargerCacheIncludes(small: nat, large: nat, files: Files, trace: seq<string>, path: string)
    requires 1 <= small <= large
    ensures Has(CacheAfter(small, files, trace), path) ==> Has(CacheAfter(large, files, trace), path)
  {
    HitsByDistance(small, files, trace, path);
    HitsByDistance(large, files, trace, path);
  }

  /** So hits never fall as the capacity grows. */
  lemma {:induction false} HitsMonotone(small: nat, large: nat, files: Files, trace: seq<string>)
    requires 1 <= small <= large
    ensures Hits(small, files, trace) <= Hits(large, files, trace)
  {
    if trace != [] {
      var front := trace[..|trace| - 1];
      HitsMonotone(small, large, files, front);
      LargerCacheIncludes(small, large, files, front, trace[|trace| - 1]);
    }
  }

  /** A whole session of the file manager is what the theorem speaks of. */
  method ReadAll(manager: FileManager, trace: seq<string>)
    requires manager.cache.Valid() && manager.cache.Contents() == []
    modifies manager.cache
    ensures manager.cache.Valid()
    ensures var cache, hits := manager.cache, Hits(manager.cache.capacity, manager.files, trace);
            && cache.Contents() == CacheAfter(cache.capacity, manager.files, trace)
            && cache.hitCount == old(cache.hitCount) + hits
            && cache.missCount == old(cache.missCount) + |trace| - hits
  {
    hide Linked, Listed, Has, AfterRead, ValueOf;
    var cache, files := manager.cache, manager.files;
    ghost var hits, misses := cache.hitCount, cache.missCount;
    for i := 0 to |trace|
      invariant cache.Valid() && cache.Contents() == CacheAfter(cache.capacity, files, trace[..i])
      invariant cache.hitCount == hits + Hits(cache.capacity, files, trace[..i])
      invariant cache.hitCount + cache.missCount == hits + misses + i
    {
      var _, _ := manager.ReadFile(trace[i]);
      assert trace[..i + 1][..i] == trace[..i];
    }
    assert trace[..|trace|] == trace;
  }
}
