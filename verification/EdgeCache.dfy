/** The byte-bounded LRU cache of the edge: a recency list, a map into it and a byte counter. */
module EdgeCache {
  import opened Decimal

  datatype Entry = Entry(body: seq<bv8>, contentType: string, etag: string)

  datatype Item = Item(key: string, entry: Entry)

  /** Most recently used first. */
  type Recency = seq<Item>

  /** A uint64 counter, which wraps around. */
  type Counter = x: int | 0 <= x < 0x1_0000_0000_0000_0000

  function Bump(n: Counter): Counter {
    if n == 0xffff_ffff_ffff_ffff then 0 else n + 1
  }

  function Size(i: Item): nat { |i.entry.body| }

  function Total(l: Recency): nat {
    if l == [] then 0 else Size(l[0]) + Total(l[1..])
  }

  predicate Has(l: Recency, key: string) {
    exists i :: 0 <= i < |l| && l[i].key == key
  }

  predicate KeysDistinct(l: Recency) {
    forall i, j :: 0 <= i < j < |l| ==> l[i].key != l[j].key
  }

  function Without(l: Recency, key: string): Recency {
    if l == [] then [] else if l[0].key == key then Without(l[1..], key) else [l[0]] + Without(l[1..], key)
  }

  /** The prefix that fits a budget of bytes, taken greedily from the most recent end. */
  function Fit(l: Recency, budget: int): Recency {
    if l == [] || Size(l[0]) > budget then [] else [l[0]] + Fit(l[1..], budget - Size(l[0]))
  }

  function Find(l: Recency, key: string): Entry
    requires Has(l, key)
  {
    if l[0].key == key then l[0].entry else assert Has(l[1..], key) by { HasTail(l, key); } Find(l[1..], key)
  }

  lemma HasTail(l: Recency, key: string)
    requires Has(l, key) && l[0].key != key
    ensures Has(l[1..], key)
  {
    var i :| 0 <= i < |l| && l[i].key == key;
    assert l[1..][i - 1] == l[i];
  }

  // ----- the operations on the list

  /** A hit moves the item to the front; a miss changes nothing. */
  function GetList(l: Recency, key: string): Recency {
    if Has(l, key) then [Item(key, Find(l, key))] + Without(l, key) else l
  }

  predicate Admissible(entry: Entry, maxBytes: int, maxEntry: int) {
    |entry.body| <= maxEntry && |entry.body| <= maxBytes
  }

  /** The new item, then as many of the others as still fit, most recent first. */
  function PutList(l: Recency, key: string, entry: Entry, maxBytes: int, maxEntry: int): Recency {
    if Admissible(entry, maxBytes, maxEntry) then
      [Item(key, entry)] + Fit(Without(l, key), maxBytes - |entry.body|)
    else l
  }

  // ----- lemmas on the list

  lemma {:induction false} WithoutLacks(l: Recency, key: string)
    ensures !Has(Without(l, key), key)
    ensures forall k :: k != key ==> (Has(Without(l, key), k) <==> Has(l, k))
    ensures forall i :: i in Without(l, key) <==> i in l && i.key != key
    ensures KeysDistinct(l) ==> KeysDistinct(Without(l, key))
  {
    if l != [] {
      WithoutLacks(l[1..], key);
      var t := Without(l[1..], key);
      assert l == [l[0]] + l[1..];
      forall i ensures i in Without(l, key) <==> i in l && i.key != key {
      }
      HasIffMember(l);
      HasIffMember(Without(l, key));
      if KeysDistinct(l) && l[0].key != key {
        forall j | 0 <= j < |t| ensures t[j].key != l[0].key {
          assert t[j] in t;
        }
      }
    }
  }

  lemma HasIffMember(l: Recency)
    ensures forall k :: Has(l, k) <==> exists i :: i in l && i.key == k
  {
    forall k ensures Has(l, k) <==> exists i :: i in l && i.key == k {
      if i :| i in l && i.key == k {
        var j :| 0 <= j < |l| && l[j] == i;
      }
    }
  }

  lemma {:induction false} WithoutAbsent(l: Recency, key: string)
    requires !Has(l, key)
    ensures Without(l, key) == l
  {
    if l != [] {
      assert l[0].key != key;
      assert forall i :: 0 <= i < |l[1..]| ==> l[1..][i] == l[i + 1];
      WithoutAbsent(l[1..], key);
    }
  }

  lemma {:induction false} TotalWithout(l: Recency, key: string)
    requires KeysDistinct(l) && Has(l, key)
    ensures Total(l) == Total(Without(l, key)) + |Find(l, key).body|
    ensures Item(key, Find(l, key)) in l
  {
    if l[0].key == key {
      assert !Has(l[1..], key);
      WithoutAbsent(l[1..], key);
    } else {
      HasTail(l, key);
      TotalWithout(l[1..], key);
    }
  }

  lemma {:induction false} TotalFront(l: Recency)
    requires l != []
    ensures Total(l) == Total(l[..|l| - 1]) + Size(l[|l| - 1])
  {
    if |l| > 1 {
      TotalFront(l[1..]);
      assert l[1..][..|l| - 2] == l[..|l| - 1][1..];
    }
  }

  /** Fit is the longest prefix within the budget. */
  lemma {:induction false} FitLongest(l: Recency, budget: int)
    ensures Fit(l, budget) <= l
    ensures budget >= 0 ==> Total(Fit(l, budget)) <= budget
    ensures forall n :: 0 <= n <= |l| && Total(l[..n]) <= budget ==> n <= |Fit(l, budget)|
  {
    if l != [] {
      forall n | 1 <= n <= |l| ensures Total(l[..n]) == Size(l[0]) + Total(l[1..][..n - 1]) {
        assert l[..n][1..] == l[1..][..n - 1];
      }
      if Size(l[0]) <= budget {
        FitLongest(l[1..], budget - Size(l[0]));
      }
    }
  }

  /**
   A put refuses, and changes nothing, over either cap. Otherwise the new item is first and the longest
   prefix of the other items that leaves the whole within maxBytes follows.
   */
  lemma PutDoes(l: Recency, key: string, entry: Entry, maxBytes: int, maxEntry: int)
    ensures var m := PutList(l, key, entry, maxBytes, maxEntry);
      if |entry.body| > maxEntry || |entry.body| > maxBytes then m == l
      else
        && m != [] && m[0] == Item(key, entry) && Total(m) <= maxBytes
        && m[1..] <= Without(l, key)
        && forall n :: 0 <= n <= |Without(l, key)| && |entry.body| + Total(Without(l, key)[..n]) <= maxBytes ==> n <= |m| - 1
  {
    FitLongest(Without(l, key), maxBytes - |entry.body|);
  }

  /** What is left without a key is the others, in their order. */
  lemma {:induction false} WithoutIsOthers(a: Recency, x: Item, b: Recency)
    requires KeysDistinct(a + [x] + b)
    ensures Without(a + [x] + b, x.key) == a + b
  {
    var l := a + [x] + b;
    if a == [] {
      assert l[1..] == b;
      forall i | 0 <= i < |b| ensures b[i].key != x.key {
        assert l[i + 1] == b[i] && l[0] == x;
      }
      WithoutAbsent(b, x.key);
    } else {
      assert l[0] == a[0] && l[|a|] == x;
      assert l[1..] == a[1..] + [x] + b;
      WithoutIsOthers(a[1..], x, b);
    }
  }

  lemma {:induction false} FitAll(l: Recency, budget: int)
    requires Total(l) <= budget
    ensures Fit(l, budget) == l
  {
    if l != [] {
      FitAll(l[1..], budget - Size(l[0]));
    }
  }

  /** Dropping the least recently used item of a list over budget does not change what fits. */
  lemma {:induction false} FitDropLast(l: Recency, budget: int)
    requires l != [] && Total(l) > budget
    ensures Fit(l[..|l| - 1], budget) == Fit(l, budget)
  {
    if |l| == 1 {
      assert l[..0] == [];
    } else if Size(l[0]) <= budget {
      FitDropLast(l[1..], budget - Size(l[0]));
      assert l[1..][..|l| - 2] == l[..|l| - 1][1..];
    }
  }

  lemma {:induction false} FitIdempotent(l: Recency, budget: int)
    ensures Fit(Fit(l, budget), budget) == Fit(l, budget)
  {
    if l != [] && Size(l[0]) <= budget {
      FitIdempotent(l[1..], budget - Size(l[0]));
    }
  }

  // ----- a bounded cache is the recency stack of everything ever stored, cut to what fits

  datatype Op = Get(key: string) | Put(key: string, entry: Entry)

  function Apply(l: Recency, op: Op, maxBytes: int, maxEntry: int): Recency {
    match op
    case Get(key) => GetList(l, key)
    case Put(key, entry) => PutList(l, key, entry, maxBytes, maxEntry)
  }

  function Run(ops: seq<Op>, maxBytes: int, maxEntry: int): Recency {
    if ops == [] then []
    else Apply(Run(ops[..|ops| - 1], maxBytes, maxEntry), ops[|ops| - 1], maxBytes, maxEntry)
  }

  function MoveToFront(stack: Recency, item: Item): Recency {
    [item] + Without(stack, item.key)
  }

  /** Every item ever admitted, most recently stored or hit first; nothing is ever evicted. */
  function Stack(ops: seq<Op>, maxBytes: int, maxEntry: int): Recency {
    if ops == [] then []
    else
      var stack := Stack(ops[..|ops| - 1], maxBytes, maxEntry);
      match ops[|ops| - 1]
      case Get(key) =>
        var cached := Fit(stack, maxBytes);
        if Has(cached, key) then MoveToFront(stack, Item(key, Find(cached, key))) else stack
      case Put(key, entry) =>
        if Admissible(entry, maxBytes, maxEntry) then MoveToFront(stack, Item(key, entry)) else stack
  }

  /** Content-addressed keys: whatever is stored under a key has one size. */
  ghost predicate ContentAddressed(ops: seq<Op>) {
    forall i, j :: 0 <= i < |ops| && 0 <= j < |ops| && ops[i].Put? && ops[j].Put? && ops[i].key == ops[j].key ==>
      |ops[i].entry.body| == |ops[j].entry.body|
  }

  lemma {:induction false} FitWithout(l: Recency, budget: int, key: string, size: nat)
    requires KeysDistinct(l) && size <= budget
    requires forall i :: 0 <= i < |l| && l[i].key == key ==> Size(l[i]) == size
    ensures Fit(Without(Fit(l, budget), key), budget - size) == Fit(Without(l, key), budget - size)
  {
    if l != [] {
      assert l[0].key == key ==> Size(l[0]) == size;
      if Size(l[0]) <= budget {
        if l[0].key == key {
          assert !Has(l[1..], key);
          WithoutAbsent(l[1..], key);
          FitPrefixLacks(l[1..], budget - size, key);
          WithoutAbsent(Fit(l[1..], budget - size), key);
          FitIdempotent(l[1..], budget - size);
        } else if Size(l[0]) + size <= budget {
          FitWithout(l[1..], budget - Size(l[0]), key, size);
        }
      }
    }
  }

  lemma FitPrefixLacks(l: Recency, budget: int, key: string)
    requires !Has(l, key)
    ensures !Has(Fit(l, budget), key)
  {
    FitLongest(l, budget);
    var p := Fit(l, budget);
    assert forall i :: 0 <= i < |p| ==> p[i] == l[i];
  }

  lemma FitDistinct(l: Recency, budget: int)
    requires KeysDistinct(l)
    ensures KeysDistinct(Fit(l, budget))
  {
    FitLongest(l, budget);
    var p := Fit(l, budget);
    forall i, j | 0 <= i < j < |p| ensures p[i].key != p[j].key {
      assert p[i] == l[i] && p[j] == l[j];
    }
  }

  /** What the stack holds was put there, and no key twice. */
  lemma {:induction false} StackFromPuts(ops: seq<Op>, maxBytes: int, maxEntry: int)
    ensures KeysDistinct(Stack(ops, maxBytes, maxEntry))
    ensures forall x :: x in Stack(ops, maxBytes, maxEntry) ==>
              Size(x) <= maxBytes && exists i :: 0 <= i < |ops| && ops[i] == Put(x.key, x.entry)
  {
    if ops != [] {
      var front, last := ops[..|ops| - 1], ops[|ops| - 1];
      var stack := Stack(front, maxBytes, maxEntry);
      StackFromPuts(front, maxBytes, maxEntry);
      WithoutLacks(stack, last.key);
      forall x | x in stack ensures exists i :: 0 <= i < |ops| && ops[i] == Put(x.key, x.entry) {
        var i :| 0 <= i < |front| && front[i] == Put(x.key, x.entry);
        assert ops[i] == front[i];
      }
      if last.Get? && Has(Fit(stack, maxBytes), last.key) {
        FoundInStack(stack, maxBytes, last.key);
      }
    }
  }

  lemma FoundInStack(stack: Recency, budget: int, key: string)
    requires KeysDistinct(stack) && Has(Fit(stack, budget), key)
    ensures Item(key, Find(Fit(stack, budget), key)) in stack
  {
    FitLongest(stack, budget);
    FitDistinct(stack, budget);
    TotalWithout(Fit(stack, budget), key);
    assert forall x :: x in Fit(stack, budget) ==> x in stack;
  }

  /**
   For content-addressed keys the cache is, after every run, exactly the longest prefix of the
   recency stack that fits: evicting early never costs a hit that cutting late would have had.
   */
  lemma {:induction false} CacheIsRecencyPrefix(ops: seq<Op>, maxBytes: int, maxEntry: int)
    requires ContentAddressed(ops)
    ensures Run(ops, maxBytes, maxEntry) == Fit(Stack(ops, maxBytes, maxEntry), maxBytes)
  {
    if ops != [] {
      var front, last := ops[..|ops| - 1], ops[|ops| - 1];
      CacheIsRecencyPrefix(front, maxBytes, maxEntry);
      StackFromPuts(front, maxBytes, maxEntry);
      var stack := Stack(front, maxBytes, maxEntry);
      var cached := Fit(stack, maxBytes);
      match last
      case Put(key, entry) =>
        if Admissible(entry, maxBytes, maxEntry) {
          forall i | 0 <= i < |stack| && stack[i].key == key ensures Size(stack[i]) == |entry.body| {
            assert stack[i] in stack;
            var j :| 0 <= j < |front| && front[j] == Put(stack[i].key, stack[i].entry);
            assert ops[j] == front[j] && ops[|ops| - 1] == last;
          }
          FitWithout(stack, maxBytes, key, |entry.body|);
          FitFront(Item(key, entry), Without(stack, key), maxBytes);
        }
      case Get(key) =>
        if Has(cached, key) {
          HitKeepsPrefix(stack, maxBytes, key);
        }
    }
  }

  lemma FitFront(x: Item, l: Recency, budget: int)
    requires Size(x) <= budget
    ensures Fit([x] + l, budget) == [x] + Fit(l, budget - Size(x))
  {
    assert ([x] + l)[1..] == l;
  }

  lemma HitKeepsPrefix(stack: Recency, budget: int, key: string)
    requires KeysDistinct(stack) && Has(Fit(stack, budget), key)
    ensures GetList(Fit(stack, budget), key)
         == Fit(MoveToFront(stack, Item(key, Find(Fit(stack, budget), key))), budget)
  {
    var cached := Fit(stack, budget);
    var x := Item(key, Find(cached, key));
    FitLongest(stack, budget);
    FitDistinct(stack, budget);
    TotalWithout(cached, key);
    FoundInStack(stack, budget, key);
    assert cached != [] && budget >= 0;
    forall i | 0 <= i < |stack| && stack[i].key == key ensures Size(stack[i]) == Size(x) {
      var j :| 0 <= j < |stack| && stack[j] == x;
    }
    FitWithout(stack, budget, key, Size(x));
    FitAll(Without(cached, key), budget - Size(x));
    FitFront(x, Without(stack, key), budget);
  }

  /** List and map hold the same keys, each once. */
  ghost predicate Linked(order: Recency, items: map<string, Item>) {
    && KeysDistinct(order)
    && (forall k :: k in items <==> Has(order, k))
    && (forall k :: k in items ==> items[k] in order && items[k].key == k)
  }

  /** Moving a linked item to the front keeps list, map and byte count as they were. */
  lemma LinkedMove(order: Recency, items: map<string, Item>, key: string)
    requires Linked(order, items) && key in items
    ensures items[key] == Item(key, Find(order, key))
    ensures Linked(GetList(order, key), items)
    ensures Total(GetList(order, key)) == Total(order)
  {
    var x := items[key];
    FindIs(order, x);
    WithoutLacks(order, key);
    TotalWithout(order, key);
    FrontDistinct(x, Without(order, key));
    var l := [x] + Without(order, key);
    forall k ensures Has(l, k) <==> Has(order, k) {
      HasFront(x, Without(order, key), k);
    }
  }

  lemma LinkedPush(order: Recency, items: map<string, Item>, x: Item)
    requires Linked(order, items) && x.key !in items
    ensures Linked([x] + order, items[x.key := x])
    ensures Total([x] + order) == Size(x) + Total(order)
  {
    FrontDistinct(x, order);
    forall k ensures Has([x] + order, k) <==> k == x.key || Has(order, k) {
      HasFront(x, order, k);
    }
  }

  lemma HasFront(x: Item, l: Recency, k: string)
    ensures Has([x] + l, k) <==> k == x.key || Has(l, k)
  {
    if Has(l, k) {
      var i :| 0 <= i < |l| && l[i].key == k;
      assert ([x] + l)[i + 1].key == k;
    }
    assert ([x] + l)[0] == x;
  }

  class Cache {
    const maxBytes: int
    const maxEntry: int
    var used: int
    var order: Recency
    var items: map<string, Item>
    var hits: Counter
    var misses: Counter

    /** List and map hold the same distinct keys; the counter is the sum of the bodies and is bounded. */
    ghost predicate Valid()
      reads this
    {
      && Linked(order, items)
      && used == Total(order)
      && (used <= maxBytes || order == [])
    }

    constructor (maxBytes: int, maxEntry: int)
      ensures Valid() && order == [] && hits == 0 && misses == 0
      ensures this.maxBytes == maxBytes && this.maxEntry == maxEntry
    {
      this.maxBytes := maxBytes;
      this.maxEntry := maxEntry;
      used, order, items, hits, misses := 0, [], map[], 0, 0;
    }

    method Get(key: string) returns (r: Option<Entry>)
      requires Valid()
      modifies this
      ensures Valid()
      ensures order == GetList(old(order), key) && used == old(used)
      ensures r == if Has(old(order), key) then Some(Find(old(order), key)) else None
      ensures hits == if r.None? then old(hits) else if old(hits) == 0xffff_ffff_ffff_ffff then 0 else old(hits) + 1
      ensures misses == if r.Some? then old(misses) else if old(misses) == 0xffff_ffff_ffff_ffff then 0 else old(misses) + 1
    {
      assert key in items <==> Has(order, key);
      if key !in items {
        misses := Bump(misses);
        return None;
      }
      var element := items[key];
      LinkedMove(order, items, key);
      assert [element] + Without(order, key) == GetList(order, key);
      order := [element] + Without(order, key);
      hits := Bump(hits);
      r := Some(element.entry);
    }

    /** Drops the least recently used item. */
    method Evict()
      requires Valid() && order != []
      modifies this`used, this`order, this`items
      ensures Valid() && order == old(order)[..|old(order)| - 1]
    {
      var oldest := order[|order| - 1];
      ghost var was := order;
      TotalFront(order);
      used := used - Size(oldest);
      order := order[..|order| - 1];
      items := items - {oldest.key};
      forall k ensures k in items <==> Has(order, k) {
        if Has(was, k) && k != oldest.key {
          var i :| 0 <= i < |was| && was[i].key == k;
          assert order[i].key == k;
        }
      }
      forall k | k in items ensures items[k] in order {
        var i :| 0 <= i < |was| && was[i] == items[k];
      }
    }

    /**
     Refuses, and changes nothing, over the caps. Otherwise the new entry is first and the
     longest most-recent prefix of the others that fits follows it.
     */
    method Put(key: string, entry: Entry) returns (stored: bool)
      requires Valid()
      modifies this
      ensures Valid() && hits == old(hits) && misses == old(misses)
      ensures stored <==> |entry.body| <= maxEntry && |entry.body| <= maxBytes
      ensures order == PutList(old(order), key, entry, maxBytes, maxEntry)
    {
      var size := |entry.body|;
      if size > maxEntry || size > maxBytes {
        return false;
      }
      if key in items {
        Detach(key);
      } else {
        WithoutAbsent(order, key);
      }
      FitPrefixLacks(order, maxBytes - size, key);
      MakeRoom(size);
      var element := Item(key, entry);
      LinkedPush(order, items, element);
      order := [element] + order;
      items := items[key := element];
      used := used + size;
      stored := true;
    }

    /** Evicts from the cold end until size more bytes fit; what is left is the prefix that fits. */
    method MakeRoom(size: nat)
      requires Valid() && size <= maxBytes
      modifies this`used, this`order, this`items
      ensures Valid() && order == Fit(old(order), maxBytes - size) && used + size <= maxBytes
    {
      while used + size > maxBytes
        invariant Valid()
        invariant Fit(order, maxBytes - size) == Fit(old(order), maxBytes - size)
        invariant used + size <= 2 * maxBytes
        decreases |order|
      {
        // The list cannot be empty here: size alone fits.
        assert order != [];
        FitDropLast(order, maxBytes - size);
        Evict();
      }
      FitAll(order, maxBytes - size);
    }

    /** Removes a key that is being replaced. */
    method Detach(key: string)
      requires Valid() && key in items
      modifies this`used, this`order, this`items
      ensures Valid() && order == Without(old(order), key) && !Has(order, key)
    {
      FindIs(order, items[key]);
      TotalWithout(order, key);
      WithoutLacks(order, key);
      used := used - Size(items[key]);
      order := Without(order, key);
      items := items - {key};
    }
  }

  lemma FindIs(l: Recency, x: Item)
    requires KeysDistinct(l) && x in l
    ensures Has(l, x.key) && Find(l, x.key) == x.entry
  {
    var i :| 0 <= i < |l| && l[i] == x;
    TotalWithout(l, x.key);
    var j :| 0 <= j < |l| && l[j] == Item(x.key, Find(l, x.key));
  }

  lemma FrontDistinct(x: Item, l: Recency)
    requires KeysDistinct(l) && !Has(l, x.key)
    ensures KeysDistinct([x] + l)
    ensures Total([x] + l) == Size(x) + Total(l)
  {
    assert ([x] + l)[1..] == l;
  }
}
