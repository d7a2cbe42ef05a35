/** The LRU cache and the file manager above it (src/lru_cache.cpp, src/file_manager.cpp). */
module LruCache {
  import opened Sequences

  type Entry = (string, string)

  // ---- the recency order it refines, most recent first ---------------------------

  predicate Has(es: seq<Entry>, key: string) { exists i :: 0 <= i < |es| && es[i].0 == key }

  predicate UniqueKeys(es: seq<Entry>) { forall i, j :: 0 <= i < j < |es| ==> es[i].0 != es[j].0 }

  function ValueOf(es: seq<Entry>, key: string): (v: string)
    requires Has(es, key)
    ensures UniqueKeys(es) ==> forall i :: 0 <= i < |es| && es[i].0 == key ==> es[i].1 == v
  {
    if es[0].0 == key then es[0].1 else ValueOf(es[1..], key)
  }

  function Without(es: seq<Entry>, key: string): seq<Entry> {
    if es == [] then []
    else (if es[0].0 == key then [] else [es[0]]) + Without(es[1..], key)
  }

  function Touched(es: seq<Entry>, key: string, value: string): seq<Entry> {
    [(key, value)] + Without(es, key)
  }

  /** What `get` does to the order. */
  function AfterGet(es: seq<Entry>, key: string): seq<Entry> {
    if Has(es, key) then Touched(es, key, ValueOf(es, key)) else es
  }

  /** What `put` does: a new key may push out the least recent entry. */
  function AfterPut(es: seq<Entry>, capacity: nat, key: string, value: string): seq<Entry> {
    if Has(es, key) then Touched(es, key, value)
    else
      var all := [(key, value)] + es;
      if |all| > capacity then all[..|all| - 1] else all
  }

  // ---- the list and its index ------------------------------------------------------

  /** A list node; `std::list` keeps iterators valid while nodes are spliced about. */
  type Node = nat

  function Entries(nodes: map<Node, Entry>, order: seq<Node>): seq<Entry>
    requires forall n :: n in order ==> n in nodes
  {
    seq(|order|, i requires 0 <= i < |order| => nodes[order[i]])
  }

  lemma {:induction false} MinusIsWithout(nodes: map<Node, Entry>, order: seq<Node>, n: Node)
    requires n in nodes && forall m :: m in order ==> m in nodes
    requires forall m :: m in order && nodes[m].0 == nodes[n].0 ==> m == n
    ensures Entries(nodes, Minus(order, n)) == Without(Entries(nodes, order), nodes[n].0)
  {
    if order != [] {
      MinusIsWithout(nodes, order[1..], n);
      assert Entries(nodes, order)[1..] == Entries(nodes, order[1..]);
    }
  }

  /** The fields of the cache that `splice`, `emplace_front` and `pop_back` touch. */
  datatype Links = Links(nodes: map<Node, Entry>, order: seq<Node>, index: map<string, Node>, next: Node)

  /** Each node is linked once. */
  ghost predicate Chained(l: Links) {
    Distinct(l.order) && (forall n :: n in l.order <==> n in l.nodes) && forall n :: n in l.nodes ==> n < l.next
  }

  /** Each node is indexed under its own key, and nothing else is. */
  ghost predicate Indexed(l: Links) {
    && |l.index| == |l.order|
    && (forall n :: n in l.nodes ==> l.nodes[n].0 in l.index && l.index[l.nodes[n].0] == n)
    && (forall k :: k in l.index ==> l.index[k] in l.nodes && l.nodes[l.index[k]].0 == k)
  }

  ghost predicate Linked(l: Links) { Chained(l) && Indexed(l) }

  ghost function Listed(l: Links): seq<Entry>
    requires Linked(l)
  {
    Entries(l.nodes, l.order)
  }

  lemma ListedUnique(l: Links)
    requires Linked(l)
    ensures UniqueKeys(Listed(l))
  {
    var es := Listed(l);
    forall i, j | 0 <= i < j < |es| ensures es[i].0 != es[j].0 {
      assert es[i] == l.nodes[l.order[i]] && es[j] == l.nodes[l.order[j]];
    }
  }

  lemma IndexFinds(l: Links, key: string)
    requires Linked(l)
    ensures key in l.index <==> Has(Listed(l), key)
    ensures key in l.index ==> ValueOf(Listed(l), key) == l.nodes[l.index[key]].1
  {
    hide UniqueKeys;
    var es := Listed(l);
    ListedUnique(l);
    if key in l.index {
      var i :| 0 <= i < |l.order| && l.order[i] == l.index[key];
      assert es[i] == l.nodes[l.index[key]];
    } else {
      assert forall i :: 0 <= i < |es| ==> es[i].0 == l.nodes[l.order[i]].0;
    }
  }

  /** Overwrite a node's value and move it to the front; a hit keeps the value it has. */
  function Promoted(l: Links, n: Node, value: string): Links
    requires n in l.nodes
  {
    l.(nodes := l.nodes[n := (l.nodes[n].0, value)], order := [n] + Minus(l.order, n))
  }

  predicate AgreeOn(m: map<Node, Entry>, n: map<Node, Entry>, order: seq<Node>) {
    forall x :: x in order ==> x in m && x in n && m[x] == n[x]
  }

  lemma EntriesCons(m: map<Node, Entry>, n: map<Node, Entry>, first: Node, order: seq<Node>)
    requires first in m && AgreeOn(m, n, order)
    ensures forall x :: x in [first] + order ==> x in m
    ensures Entries(m, [first] + order) == [m[first]] + Entries(n, order)
  {
  }

  lemma EntriesTake(m: map<Node, Entry>, n: map<Node, Entry>, order: seq<Node>, k: nat)
    requires k <= |order| && AgreeOn(m, n, order[..k]) && forall x :: x in order ==> x in n
    ensures Entries(m, order[..k]) == Entries(n, order)[..k]
  {
    assert forall i :: 0 <= i < k ==> order[..k][i] == order[i];
  }

  lemma PromotedStays(l: Links, n: Node, value: string)
    requires Linked(l) && n in l.nodes
    ensures Linked(Promoted(l, n, value))
    ensures |Promoted(l, n, value).order| == |l.order|
  {
    MinusDistinct(l.order, n);
    ConsDistinct(n, Minus(l.order, n));
  }

  lemma PromotedLinked(l: Links, n: Node, value: string)
    requires Linked(l) && n in l.nodes
    ensures Linked(Promoted(l, n, value))
    ensures Listed(Promoted(l, n, value)) == Touched(Listed(l), l.nodes[n].0, value)
    ensures |Promoted(l, n, value).order| == |l.order|
  {
    PromotedStays(l, n, value);
    MinusIsWithout(l.nodes, l.order, n);
    EntriesCons(Promoted(l, n, value).nodes, l.nodes, n, Minus(l.order, n));
  }

  function Pushed(l: Links, key: string, value: string): Links {
    Links(l.nodes[l.next := (key, value)], [l.next] + l.order, l.index[key := l.next], l.next + 1)
  }

  lemma PushedChained(l: Links, key: string, value: string)
    requires Chained(l)
    ensures Chained(Pushed(l, key, value))
  {
    ConsDistinct(l.next, l.order);
    assert forall n :: n in [l.next] + l.order <==> n == l.next || n in l.order;
  }

  lemma PushedIndexed(l: Links, key: string, value: string)
    requires Indexed(l) && key !in l.index && l.next !in l.nodes
    ensures Indexed(Pushed(l, key, value))
  {
  }

  lemma PushedStays(l: Links, key: string, value: string)
    requires Linked(l) && key !in l.index
    ensures Linked(Pushed(l, key, value))
  {
    PushedChained(l, key, value);
    PushedIndexed(l, key, value);
  }

  lemma PushedLinked(l: Links, key: string, value: string)
    requires Linked(l) && key !in l.index
    ensures Linked(Pushed(l, key, value))
    ensures Listed(Pushed(l, key, value)) == [(key, value)] + Listed(l)
  {
    PushedStays(l, key, value);
    EntriesCons(Pushed(l, key, value).nodes, l.nodes, l.next, l.order);
  }

  function Popped(l: Links): Links
    requires l.order != [] && l.order[|l.order| - 1] in l.nodes
  {
    var back := l.order[|l.order| - 1];
    Links(l.nodes - {back}, l.order[..|l.order| - 1], l.index - {l.nodes[back].0}, l.next)
  }

  lemma BackIsLast(order: seq<Node>)
    requires Distinct(order) && order != []
    ensures var back, front := order[|order| - 1], order[..|order| - 1];
            && Distinct(front) && back !in front
            && forall n :: n in order <==> n in front || n == back
  {
    assert order == order[..|order| - 1] + [order[|order| - 1]];
  }

  lemma PoppedIndexed(l: Links)
    requires Indexed(l) && l.order != [] && l.order[|l.order| - 1] in l.nodes
    ensures Indexed(Popped(l))
  {
    var back, r := l.order[|l.order| - 1], Popped(l);
    assert r.index[l.nodes[back].0 := back] == l.index;
  }

  lemma PoppedStays(l: Links)
    requires Linked(l) && l.order != [] && l.order[|l.order| - 1] in l.nodes
    ensures Linked(Popped(l))
  {
    hide Distinct, Indexed;
    BackIsLast(l.order);
    PoppedIndexed(l);
  }

  lemma PoppedLinked(l: Links)
    requires Linked(l) && l.order != []
    ensures l.order[|l.order| - 1] in l.nodes
    ensures Linked(Popped(l))
    ensures Listed(Popped(l)) == Listed(l)[..|l.order| - 1]
  {
    hide Distinct;
    BackIsLast(l.order);
    PoppedStays(l);
    PoppedLists(l);
  }

  lemma PoppedLists(l: Links)
    requires Linked(l) && l.order != [] && l.order[|l.order| - 1] in l.nodes && Linked(Popped(l))
    ensures Listed(Popped(l)) == Listed(l)[..|l.order| - 1]
  {
    EntriesTake(Popped(l).nodes, l.nodes, l.order, |l.order| - 1);
  }

  class LRUCache {
    const capacity: nat
    var nodes: map<Node, Entry>
    var order: seq<Node>                 // entries, front first
    var index: map<string, Node>
    var next: Node
    var hitCount: nat
    var missCount: nat

    ghost function View(): Links
      reads this
    {
      Links(nodes, order, index, next)
    }

    ghost predicate Valid()
      reads this
    {
      1 <= capacity && |order| <= capacity && Linked(View())
    }

    ghost function Contents(): seq<Entry>
      requires Valid()
      reads this
    {
      Listed(View())
    }

    constructor (capacity: nat)
      ensures Valid() && Contents() == [] && hitCount == 0 && missCount == 0
      ensures this.capacity == if capacity == 0 then 1 else capacity
    {
      this.capacity := if capacity == 0 then 1 else capacity;
      nodes, order, index, next := map[], [], map[], 0;
      hitCount, missCount := 0, 0;
    }

    method Get(key: string) returns (hit: bool, value: string)
      requires Valid()
      modifies this
      ensures Valid() && Contents() == AfterGet(old(Contents()), key)
      ensures hit == Has(old(Contents()), key)
      ensures hit ==> value == ValueOf(old(Contents()), key)
      ensures hitCount == old(hitCount) + (if hit then 1 else 0)
      ensures missCount == old(missCount) + (if hit then 0 else 1)
    {
      hide Linked, Listed, Has, ValueOf, Touched;
      IndexFinds(View(), key);
      if key !in index {
        missCount := missCount + 1;
        return false, "";
      }
      var n := IndexedNode(key);
      PromotedLinked(View(), n, nodes[n].1);
      order := [n] + Minus(order, n);
      assert View() == Promoted(old(View()), n, nodes[n].1);
      hitCount := hitCount + 1;
      return true, nodes[n].1;
    }

    /** The iterator the index holds for a cached key. */
    method IndexedNode(key: string) returns (n: Node)
      requires Linked(View()) && key in index
      ensures n == index[key] && n in nodes && nodes[n].0 == key && nodes[n := nodes[n]] == nodes
    {
      n := index[key];
    }

    method Put(key: string, value: string)
      requires Valid()
      modifies this
      ensures Valid() && Contents() == AfterPut(old(Contents()), capacity, key, value)
      ensures hitCount == old(hitCount) && missCount == old(missCount)
    {
      hide Linked, Listed, Has, Touched;
      IndexFinds(View(), key);
      if key in index {
        var n := IndexedNode(key);
        PromotedLinked(View(), n, value);
        nodes := nodes[n := (nodes[n].0, value)];
        order := [n] + Minus(order, n);
        assert View() == Promoted(old(View()), n, value);
        return;
      }

      PushFront(key, value);
      if |index| > capacity {
        PopBack();
      }
    }

    /** `emplace_front`, and index the new node. */
    method PushFront(key: string, value: string)
      requires Linked(View()) && key !in index
      modifies this`nodes, this`order, this`index, this`next
      ensures Linked(View()) && Listed(View()) == [(key, value)] + old(Listed(View()))
      ensures |index| == |order| == |old(order)| + 1 == |Listed(View())|
    {
      hide Linked, Listed;
      PushedLinked(View(), key, value);
      nodes, order, index, next := nodes[next := (key, value)], [next] + order, index[key := next], next + 1;
      assert View() == Pushed(old(View()), key, value);
      ListedSize(View());
    }

    /** Unindex the least recent entry and drop it. */
    method PopBack()
      requires Linked(View()) && order != []
      modifies this`nodes, this`order, this`index
      ensures Linked(View()) && |order| == |old(order)| - 1
      ensures |old(Listed(View()))| == |old(order)|
      ensures Listed(View()) == old(Listed(View()))[..|old(order)| - 1]
    {
      hide Linked, Listed;
      ListedSize(View());
      PoppedLinked(View());
      var back := order[|order| - 1];
      index := index - {nodes[back].0};
      nodes := nodes - {back};
      order := order[..|order| - 1];
      assert View() == Popped(old(View()));
    }
  }

  lemma ListedSize(l: Links)
    requires Linked(l)
    ensures |Listed(l)| == |l.order| == |l.index|
  {
  }

  // ---- reading files through the cache ------------------------------------------------

  /** A fixed file system: the paths that can be read, and what they hold. */
  type Files = map<string, string>

  /** What `readFile` does to the order. */
  function AfterRead(es: seq<Entry>, capacity: nat, files: Files, path: string): seq<Entry> {
    if Has(es, path) then AfterGet(es, path)
    else if path in files then AfterPut(es, capacity, path, files[path])
    else es
  }

  class FileManager {
    const cache: LRUCache
    const files: Files

    constructor (cacheCapacity: nat, files: Files)
      ensures fresh(cache) && cache.Valid() && cache.Contents() == [] && this.files == files
      ensures cache.capacity == if cacheCapacity == 0 then 1 else cacheCapacity
      ensures cache.hitCount == 0
    {
      cache := new LRUCache(cacheCapacity);
      this.files := files;
    }

    method ReadFile(path: string) returns (content: string, found: bool)
      requires cache.Valid()
      modifies cache
      ensures cache.Valid()
      ensures cache.Contents() == AfterRead(old(cache.Contents()), cache.capacity, files, path)
      ensures found == (Has(old(cache.Contents()), path) || path in files)
      ensures Has(old(cache.Contents()), path) ==> content == ValueOf(old(cache.Contents()), path)
      ensures !Has(old(cache.Contents()), path) ==> content == if path in files then files[path] else ""
      ensures cache.hitCount == old(cache.hitCount) + (if Has(old(cache.Contents()), path) then 1 else 0)
      ensures cache.hitCount + cache.missCount == old(cache.hitCount + cache.missCount) + 1
    {
      var hit, cached := cache.Get(path);
      if hit {
        return cached, true;
      }
      if path !in files {
        return "", false;
      }
      cache.Put(path, files[path]);
      return files[path], true;
    }
  }
}
