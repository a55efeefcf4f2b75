/**
 The consistent-hash ring: every instance owns many points on the 64-bit circle, and a
 key belongs to the first point at or after its hash, wrapping past the end. The hash of
 a string is a parameter; an instance is its host.
 */
module Ring {
  import opened Decimal
  import opened Sorting
  import opened Mix64

  const VIRTUAL_NODES: nat := 150

  datatype Point = Point(hash: Word, host: string)

  /** The base hash of a label, FNV-1a in the source, before the finalizer. */
  type BaseHash = string -> Word

  function HashKey(base: BaseHash, key: string): Word {
    Mix(base(key))
  }

  /** The label "<host>#<i>" of a virtual node. */
  function Label(host: string, i: nat): string {
    host + ['#'] + FormatInt(i)
  }

  function PointOf(base: BaseHash, host: string, i: nat): Point {
    Point(HashKey(base, Label(host, i)), host)
  }

  /** All points of a set of hosts. */
  ghost predicate OnRing(base: BaseHash, hosts: set<string>, p: Point) {
    p.host in hosts && exists i: nat :: i < VIRTUAL_NODES && p == PointOf(base, p.host, i)
  }

  /** Distinct virtual nodes have distinct base hashes. */
  ghost predicate NoCollisions(base: BaseHash, hosts: set<string>) {
    forall h1, i1: nat, h2, i2: nat | h1 in hosts && h2 in hosts && i1 < VIRTUAL_NODES && i2 < VIRTUAL_NODES ::
      base(Label(h1, i1)) == base(Label(h2, i2)) ==> h1 == h2 && i1 == i2
  }

  /** The finalizer adds no collision to those of the base hash. */
  lemma MixAddsNoCollision(base: BaseHash, a: string, b: string)
    ensures HashKey(base, a) == HashKey(base, b) <==> base(a) == base(b)
    ensures Unmix(HashKey(base, a)) == base(a)
  {
    MixBijective(base(a), base(a));
    MixBijective(base(b), base(b));
  }

  /** No two virtual nodes share a label, whatever the hosts are called. */
  lemma LabelsDistinct(h1: string, i1: nat, h2: string, i2: nat)
    requires i1 < VIRTUAL_NODES && i2 < VIRTUAL_NODES && Label(h1, i1) == Label(h2, i2)
    ensures h1 == h2 && i1 == i2
  {
    FormatParse(i1);
    FormatParse(i2);
    var l := Label(h1, i1);
    assert l[|h1|] == '#' && l[|h2|] == '#';
    assert l[|h1| + 1..] == FormatInt(i1) && l[|h2| + 1..] == FormatInt(i2);
    forall k | |h1| < k < |l| ensures l[k] != '#' {
      assert l[k] == FormatInt(i1)[k - |h1| - 1];
    }
    forall k | |h2| < k < |l| ensures l[k] != '#' {
      assert l[k] == FormatInt(i2)[k - |h2| - 1];
    }
    assert |h1| == |h2|;
    assert l[..|h1|] == h1 && l[..|h2|] == h2;
  }

  // ----- specification: least clockwise distance

  /** How far clockwise from a to b, around the 64-bit circle. */
  function Clockwise(a: Word, b: Word): int {
    (b - a) % WORD_SIZE
  }

  /** The host owns the hash: one of its points is clockwise-nearest among all points. */
  ghost predicate Owns(base: BaseHash, hosts: set<string>, h: Word, host: string) {
    exists p: Point :: p.host == host && Nearest(base, hosts, h, p)
  }

  ghost predicate Nearest(base: BaseHash, hosts: set<string>, h: Word, p: Point) {
    && OnRing(base, hosts, p)
    && forall q :: OnRing(base, hosts, q) ==> Clockwise(h, p.hash) <= Clockwise(h, q.hash)
  }

  lemma ClockwiseInjective(h: Word, a: Word, b: Word)
    requires Clockwise(h, a) == Clockwise(h, b)
    ensures a == b
  {
    assert (a - h) % WORD_SIZE == if a >= h then a - h else a - h + WORD_SIZE;
    assert (b - h) % WORD_SIZE == if b >= h then b - h else b - h + WORD_SIZE;
  }

  lemma PointsDistinct(base: BaseHash, hosts: set<string>, p: Point, q: Point)
    requires NoCollisions(base, hosts) && OnRing(base, hosts, p) && OnRing(base, hosts, q) && p.hash == q.hash
    ensures p == q
  {
    var i: nat :| i < VIRTUAL_NODES && p == PointOf(base, p.host, i);
    var j: nat :| j < VIRTUAL_NODES && q == PointOf(base, q.host, j);
    MixAddsNoCollision(base, Label(p.host, i), Label(q.host, j));
  }

  /** A hash has one owner. */
  lemma OwnerUnique(base: BaseHash, hosts: set<string>, h: Word, a: string, b: string)
    requires NoCollisions(base, hosts) && Owns(base, hosts, h, a) && Owns(base, hosts, h, b)
    ensures a == b
  {
    var p: Point :| p.host == a && Nearest(base, hosts, h, p);
    var q: Point :| q.host == b && Nearest(base, hosts, h, q);
    ClockwiseInjective(h, p.hash, q.hash);
    PointsDistinct(base, hosts, p, q);
  }

  /**
   Minimal movement. Adding hosts moves a key only to an added host; read from right to left,
   removing hosts moves only the keys the removed hosts owned.
   */
  lemma MinimalMovement(base: BaseHash, hosts: set<string>, added: set<string>, h: Word, before: string, after: string)
    requires NoCollisions(base, hosts + added)
    requires Owns(base, hosts, h, before) && Owns(base, hosts + added, h, after)
    ensures after == before || after in added - hosts
  {
    if after in hosts {
      var q: Point :| q.host == after && Nearest(base, hosts + added, h, q);
      assert OnRing(base, hosts, q);
      forall p | OnRing(base, hosts, p) ensures Clockwise(h, q.hash) <= Clockwise(h, p.hash) {
        assert OnRing(base, hosts + added, p);
      }
      assert Nearest(base, hosts, h, q);
      OwnerUnique(base, hosts, h, before, after);
    }
  }

  // ----- the ring as built and searched

  predicate ByHash(a: Point, b: Point) { a.hash <= b.hash }

  function HostSet(backends: seq<string>): set<string> {
    set b | b in backends
  }

  /** The ring holds exactly the points of the hosts, in hash order. */
  ghost predicate IsRing(ring: seq<Point>, base: BaseHash, hosts: set<string>) {
    && Sorted(ring, ByHash)
    && forall p :: p in ring <==> OnRing(base, hosts, p)
  }

  /** Appends every virtual node of every backend, then sorts by hash. */
  method BuildRing(base: BaseHash, backends: seq<string>) returns (ring: seq<Point>)
    ensures IsRing(ring, base, HostSet(backends))
    ensures |ring| == 150 * |backends|
  {
    ring := [];
    for k := 0 to |backends|
      invariant |ring| == 150 * k
      invariant forall p :: p in ring <==> OnRing(base, HostSet(backends[..k]), p)
    {
      var b := backends[k];
      ghost var before := ring;
      for i := 0 to VIRTUAL_NODES
        invariant |ring| == |before| + i
        invariant forall p :: p in ring <==>
                    p in before || exists j: nat :: j < i && p == PointOf(base, b, j)
      {
        ring := ring + [PointOf(base, b, i)];
      }
      assert backends[..k + 1] == backends[..k] + [b];
      forall p ensures p in ring <==> OnRing(base, HostSet(backends[..k + 1]), p) {
      }
    }
    assert backends[..|backends|] == backends;
    SortSorts(ring, ByHash);
    forall p ensures p in Sort(ring, ByHash) <==> p in ring {
      assert p in multiset(Sort(ring, ByHash)) <==> p in multiset(ring);
    }
    assert |multiset(Sort(ring, ByHash))| == |multiset(ring)|;
    ring := Sort(ring, ByHash);
  }

  /** Where a linear walk first meets a point at or after h; the length if it never does. */
  function FirstAtOrAfter(ring: seq<Point>, h: Word): nat {
    if ring == [] || ring[0].hash >= h then 0 else 1 + FirstAtOrAfter(ring[1..], h)
  }

  lemma {:induction false} FirstIs(ring: seq<Point>, h: Word, index: nat)
    requires index <= |ring| && (forall i :: 0 <= i < index ==> ring[i].hash < h)
    requires index < |ring| ==> ring[index].hash >= h
    ensures FirstAtOrAfter(ring, h) == index
  {
    if index > 0 {
      FirstIs(ring[1..], h, index - 1);
    }
  }

  lemma {:induction false} FirstBounds(ring: seq<Point>, h: Word)
    ensures var index := FirstAtOrAfter(ring, h);
      && index <= |ring| && (forall i :: 0 <= i < index ==> ring[i].hash < h)
      && (index < |ring| ==> ring[index].hash >= h)
  {
    if ring != [] && ring[0].hash < h {
      FirstBounds(ring[1..], h);
    }
  }

  /** What the gateway's lookup answers: a function of the ring, which is built once, and the key. */
  function LookupOn(ring: seq<Point>, base: BaseHash, key: string): string
    requires ring != []
  {
    FirstBounds(ring, HashKey(base, key));
    var index := FirstAtOrAfter(ring, HashKey(base, key));
    ring[if index == |ring| then 0 else index].host
  }

  /** sort.Search: the first index whose point is at or after h. */
  method Search(ring: seq<Point>, h: Word) returns (index: nat)
    requires Sorted(ring, ByHash)
    ensures index <= |ring|
    ensures forall i :: 0 <= i < index ==> ring[i].hash < h
    ensures forall i :: index <= i < |ring| ==> ring[i].hash >= h
    ensures index == FirstAtOrAfter(ring, h)
  {
    var lo, hi := 0, |ring|;
    while lo < hi
      invariant 0 <= lo <= hi <= |ring|
      invariant forall i :: 0 <= i < lo ==> ring[i].hash < h
      invariant forall i :: hi <= i < |ring| ==> ring[i].hash >= h
    {
      var mid := (lo + hi) / 2;
      if ring[mid].hash >= h {
        hi := mid;
        assert forall i :: mid < i < |ring| ==> ByHash(ring[mid], ring[i]);
      } else {
        lo := mid + 1;
        assert forall i :: 0 <= i < mid ==> ByHash(ring[i], ring[mid]);
      }
    }
    index := lo;
    FirstIs(ring, h, index);
  }

  /** Binary search with wrap-around. */
  method Lookup(ring: seq<Point>, base: BaseHash, key: string) returns (host: string)
    requires Sorted(ring, ByHash) && ring != []
    ensures host == LookupOn(ring, base, key)
  {
    var index := Search(ring, HashKey(base, key));
    if index == |ring| {
      index := 0;
    }
    host := ring[index].host;
  }

  /** The lookup finds the owner of the key: the host of the clockwise-nearest point. */
  lemma LookupOwns(ring: seq<Point>, base: BaseHash, hosts: set<string>, key: string)
    requires IsRing(ring, base, hosts) && ring != []
    ensures LookupOn(ring, base, key) in hosts
    ensures Owns(base, hosts, HashKey(base, key), LookupOn(ring, base, key))
  {
    var h := HashKey(base, key);
    FirstBounds(ring, h);
    var first := FirstAtOrAfter(ring, h);
    var index := if first == |ring| then 0 else first;
    SuccessorNearest(ring, h, index);
    assert Nearest(base, hosts, h, ring[index]);
  }

  /**
   The mapping depends only on the set of configured hosts: two rings over the same hosts, in
   whatever order they were configured and sorted, answer every key alike.
   */
  lemma LookupIgnoresOrder(ra: seq<Point>, rb: seq<Point>, base: BaseHash, hosts: set<string>, key: string)
    requires IsRing(ra, base, hosts) && IsRing(rb, base, hosts) && ra != [] && rb != []
    requires NoCollisions(base, hosts)
    ensures LookupOn(ra, base, key) == LookupOn(rb, base, key)
  {
    LookupOwns(ra, base, hosts, key);
    LookupOwns(rb, base, hosts, key);
    OwnerUnique(base, hosts, HashKey(base, key), LookupOn(ra, base, key), LookupOn(rb, base, key));
  }

  /**
   Minimal movement, of the lookups themselves: after backends are added a key answers as before or
   an added backend; read from right to left, a removal moves only the removed backends' keys.
   */
  lemma LookupMovesMinimally(ra: seq<Point>, rb: seq<Point>, base: BaseHash, hosts: set<string>, added: set<string>, key: string)
    requires IsRing(ra, base, hosts) && IsRing(rb, base, hosts + added) && ra != [] && rb != []
    requires NoCollisions(base, hosts + added)
    ensures LookupOn(rb, base, key) == LookupOn(ra, base, key) || LookupOn(rb, base, key) in added - hosts
  {
    LookupOwns(ra, base, hosts, key);
    LookupOwns(rb, base, hosts + added, key);
    MinimalMovement(base, hosts, added, HashKey(base, key), LookupOn(ra, base, key), LookupOn(rb, base, key));
  }

  /** The clockwise successor in hash order is at the least clockwise distance. */
  lemma SuccessorNearest(ring: seq<Point>, h: Word, index: nat)
    requires Sorted(ring, ByHash) && index < |ring|
    requires || (ring[index].hash >= h && forall i :: 0 <= i < index ==> ring[i].hash < h)
             || (index == 0 && forall i :: 0 <= i < |ring| ==> ring[i].hash < h)
    ensures ring[index] in ring
    ensures forall q :: q in ring ==> Clockwise(h, ring[index].hash) <= Clockwise(h, q.hash)
  {
    forall i | 0 <= i < |ring| ensures Clockwise(h, ring[index].hash) <= Clockwise(h, ring[i].hash) {
      if i > index {
        assert ByHash(ring[index], ring[i]);
      } else if i < index {
        assert ring[i].hash < h;
      }
      ClockwiseCases(h, ring[index].hash);
      ClockwiseCases(h, ring[i].hash);
    }
  }

  lemma ClockwiseCases(h: Word, a: Word)
    ensures Clockwise(h, a) == if a >= h then a - h else a - h + WORD_SIZE
  {
  }

  // ----- the gateway's choice

  /** An omitted or empty room means "general". */
  function RoomKey(param: string): string {
    if param == "" then "general" else param
  }

  datatype PickResult = Picked(host: string) | BackendDown(key: string, host: string)

  /** The owner of the room's key if it is healthy; nobody else ever takes its place. */
  method Pick(ring: seq<Point>, base: BaseHash, healthy: set<string>, param: string) returns (r: PickResult)
    requires Sorted(ring, ByHash) && ring != []
    ensures r.host == LookupOn(ring, base, RoomKey(param))
    ensures r.Picked? <==> r.host in healthy
    ensures r.BackendDown? ==> r.key == if param == "" then "general" else param
  {
    var b := Lookup(ring, base, RoomKey(param));
    if b !in healthy {
      return BackendDown(RoomKey(param), b);
    }
    r := Picked(b);
  }

  datatype PoolError = NoUrls | BadUrl(url: string) | MissingHost(url: string) | DuplicateHost(url: string)

  datatype PoolResult = Pool(backends: seq<string>) | Refused(error: PoolError)

  /**
   The pool is accepted exactly when it is non-empty, every URL parses to a host and no host
   occurs twice; it then keeps the hosts in configuration order. parse stands for url.Parse.
   */
  method NewPool(parse: string -> Option<string>, rawURLs: seq<string>) returns (r: PoolResult)
    ensures r.Pool? <==> (
              && rawURLs != []
              && (forall i :: 0 <= i < |rawURLs| ==> parse(rawURLs[i]).Some? && parse(rawURLs[i]).value != "")
              && (forall i, j :: 0 <= i < j < |rawURLs| ==> parse(rawURLs[i]) != parse(rawURLs[j])))
    ensures r.Pool? ==> (
              && |r.backends| == |rawURLs| && Distinct(r.backends)
              && forall i :: 0 <= i < |rawURLs| ==> Some(r.backends[i]) == parse(rawURLs[i]))
  {
    if rawURLs == [] {
      return Refused(NoUrls);
    }
    var backends: seq<string> := [];
    var seen: set<string> := {};
    for k := 0 to |rawURLs|
      invariant |backends| == k
      invariant forall i :: 0 <= i < k ==> parse(rawURLs[i]) == Some(backends[i]) && backends[i] != ""
      invariant forall b :: b in seen <==> b in backends
      invariant Distinct(backends)
    {
      match parse(rawURLs[k])
      case None => return Refused(BadUrl(rawURLs[k]));
      case Some(host) =>
        if host == "" {
          return Refused(MissingHost(rawURLs[k]));
        }
        if host in seen {
          ghost var i :| 0 <= i < k && backends[i] == host;
          assert parse(rawURLs[i]) == parse(rawURLs[k]);
          return Refused(DuplicateHost(rawURLs[k]));
        }
        seen := seen + {host};
        backends := backends + [host];
    }
    r := Pool(backends);
  }
}
