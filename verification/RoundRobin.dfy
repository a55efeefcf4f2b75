/**
 Round-robin over the healthy instances: an atomic 64-bit counter, taken modulo the length of the
 healthy list. Every pick takes its own counter value, so concurrent picks are consecutive ones.
 */
module RoundRobin {
  import opened Decimal
  import opened Mix64

  /** The counter i picks after it was at next; it wraps around. */
  function Advance(next: Word, i: nat): Word {
    (next + i) % WORD_SIZE
  }

  /** The position in a healthy list of n that the i-th pick from next on lands on. */
  function Turn(next: Word, n: nat, i: nat): nat
    requires n > 0
  {
    Advance(next, i) % n
  }

  function Turns(next: Word, n: nat, m: nat): seq<nat>
    requires n > 0
  {
    seq(m, i requires 0 <= i < m => Turn(next, n, i))
  }

  function Count(s: seq<nat>, b: nat): nat {
    if s == [] then 0 else Count(s[..|s| - 1], b) + if s[|s| - 1] == b then 1 else 0
  }

  // ----- remainders

  lemma {:induction false} ModMultiple(q: nat, n: nat, r: nat)
    requires n > 0
    ensures (q * n + r) % n == r % n
  {
    if q > 0 {
      ModMultiple(q - 1, n, r);
      ModPlus((q - 1) * n + r, n);
      assert (q - 1) * n + r + n == q * n + r;
    }
  }

  lemma ModPlus(x: nat, n: nat)
    requires n > 0
    ensures (x + n) % n == x % n
  {
    QuotientUnique(x + n, n, x / n + 1, x % n);
    DivMod(x, n);
    DivMod(x + n, n);
  }

  lemma SmallMod(x: nat, n: nat)
    requires x < n
    ensures x % n == x
  {
  }

  lemma DivMod(x: nat, n: nat)
    requires n > 0
    ensures x == n * (x / n) + x % n && 0 <= x % n < n
  {
  }

  /** Where the length divides 2^64, the wrap-around is not felt. */
  lemma WrapUnfelt(x: nat, n: nat)
    requires n > 0 && WORD_SIZE % n == 0
    ensures x % WORD_SIZE % n == x % n
  {
    var q, m := x / WORD_SIZE, WORD_SIZE / n;
    DivMod(WORD_SIZE, n);
    DivMod(x, WORD_SIZE);
    assert x == q * m * n + x % WORD_SIZE by {
      assert WORD_SIZE == n * m;
      assert WORD_SIZE * q == q * m * n;
    }
    ModMultiple(q * m, n, x % WORD_SIZE);
  }

  // ----- any n consecutive numbers have each remainder once

  function Window(start: nat, n: nat, m: nat): seq<nat>
    requires n > 0
  {
    seq(m, i requires 0 <= i < m => (start + i) % n)
  }

  lemma {:induction false} CountConcat(s: seq<nat>, t: seq<nat>, b: nat)
    ensures Count(s + t, b) == Count(s, b) + Count(t, b)
  {
    if t == [] {
      assert s + t == s;
    } else {
      CountConcat(s, t[..|t| - 1], b);
      assert (s + t)[..|s + t| - 1] == s + t[..|t| - 1];
    }
  }

  lemma {:induction false} CountPrefix(n: nat, m: nat, b: nat)
    requires n > 0 && m <= n
    ensures Count(Window(0, n, m), b) == if b < m then 1 else 0
  {
    if m > 0 {
      CountPrefix(n, m - 1, b);
      assert Window(0, n, m)[..m - 1] == Window(0, n, m - 1);
      SmallMod(m - 1, n);
    }
  }

  /** Moving a window on by one drops a remainder in front and adds the same one behind. */
  lemma {:induction false} CountWindow(start: nat, n: nat, b: nat)
    requires b < n
    ensures Count(Window(start, n, n), b) == 1
  {
    if start == 0 {
      CountPrefix(n, n, b);
    } else {
      CountWindow(start - 1, n, b);
      var common := Window(start, n, n - 1);
      var x := (start - 1) % n;
      ModPlus(start - 1, n);
      assert Window(start - 1, n, n) == [x] + common;
      assert Window(start, n, n) == common + [x];
      CountConcat([x], common, b);
      CountConcat(common, [x], b);
    }
  }

  lemma {:induction false} CountRounds(start: nat, n: nat, k: nat, b: nat)
    requires b < n
    ensures Count(Window(start, n, k * n), b) == k
  {
    if k > 0 {
      CountRounds(start, n, k - 1, b);
      var done := (k - 1) * n;
      assert done + n == k * n;
      assert Window(start, n, k * n) == Window(start, n, done) + Window(start + done, n, n);
      CountConcat(Window(start, n, done), Window(start + done, n, n), b);
      CountWindow(start + done, n, b);
    }
  }

  // ----- fairness

  /** The wrap-around does not come within the picks, or is not felt. */
  ghost predicate Smooth(next: Word, n: nat, m: nat)
    requires n > 0
  {
    next + m <= WORD_SIZE || WORD_SIZE % n == 0
  }

  lemma SmoothTurns(next: Word, n: nat, m: nat)
    requires n > 0 && Smooth(next, n, m)
    ensures Turns(next, n, m) == Window(next, n, m)
  {
    forall i | 0 <= i < m ensures Turn(next, n, i) == (next + i) % n {
      if WORD_SIZE % n == 0 {
        WrapUnfelt(next + i, n);
      } else {
        SmallMod(next + i, WORD_SIZE);
      }
    }
  }

  /**
   Fairness: over a constant healthy list of n, any k * n consecutive picks land on every instance
   exactly k times, unless the counter wraps around on the way and n does not divide 2^64.
   */
  lemma FairRounds(next: Word, n: nat, k: nat, b: nat)
    requires b < n && Smooth(next, n, k * n)
    ensures Count(Turns(next, n, k * n), b) == k
  {
    SmoothTurns(next, n, k * n);
    CountRounds(next, n, k, b);
  }

  ghost predicate FairFrom(next: Word, n: nat)
    requires n > 0
  {
    forall b :: 0 <= b < n ==> Count(Turns(next, n, n), b) == 1
  }

  lemma {:induction false} CountTwice(s: seq<nat>, b: nat, i: nat, j: nat)
    requires i < j < |s| && s[i] == b && s[j] == b
    ensures Count(s, b) >= 2
  {
    var k := |s| - 1;
    if j < k {
      CountTwice(s[..k], b, i, j);
    } else {
      CountOnce(s[..k], b, i);
    }
  }

  lemma {:induction false} CountOnce(s: seq<nat>, b: nat, i: nat)
    requires i < |s| && s[i] == b
    ensures Count(s, b) >= 1
  {
    if i < |s| - 1 {
      CountOnce(s[..|s| - 1], b, i);
    }
  }

  /** The wrap-around is felt exactly when the number of healthy instances does not divide 2^64. */
  lemma FairIffDividesWordSize(n: nat)
    requires 0 < n < WORD_SIZE
    ensures (forall next: Word :: FairFrom(next, n)) <==> WORD_SIZE % n == 0
  {
    if WORD_SIZE % n == 0 {
      forall next: Word ensures FairFrom(next, n) {
        forall b | 0 <= b < n ensures Count(Turns(next, n, n), b) == 1 {
          FairRounds(next, n, 1, b);
        }
      }
    } else {
      LastPickTwice(n);
    }
  }

  lemma LastRemainder(n: nat)
    requires 0 < n && WORD_SIZE % n != 0
    ensures (WORD_SIZE - 1) % n < n - 1
  {
    var q := (WORD_SIZE - 1) / n;
    DivMod(WORD_SIZE - 1, n);
    SmallMod(0, n);
    ModMultiple(q + 1, n, 0);
    assert (q + 1) * n == n * q + n;
  }

  lemma TurnAfterWrap(n: nat, r: nat)
    requires r < n < WORD_SIZE
    ensures Turn(WORD_SIZE - 1, n, r + 1) == r
  {
    ModPlus(r, WORD_SIZE);
    SmallMod(r, WORD_SIZE);
    SmallMod(r, n);
  }

  /** From the last counter value on, the first instance picked comes again within the round. */
  lemma LastPickTwice(n: nat)
    requires 0 < n < WORD_SIZE && WORD_SIZE % n != 0
    ensures !FairFrom(WORD_SIZE - 1, n)
  {
    var r := (WORD_SIZE - 1) % n;
    LastRemainder(n);
    TurnAfterWrap(n, r);
    SmallMod(WORD_SIZE - 1, WORD_SIZE);
    var turns := Turns(WORD_SIZE - 1, n, n);
    assert turns[0] == r && turns[r + 1] == r;
    CountTwice(turns, r, 0, r + 1);
  }

  /** The healthy instances, in configuration order. */
  function Filter(backends: seq<string>, up: set<string>): seq<string> {
    if backends == [] then []
    else Filter(backends[..|backends| - 1], up)
         + if backends[|backends| - 1] in up then [backends[|backends| - 1]] else []
  }

  /** Filtering keeps the order: part by part, a healthy backend is kept and another dropped. */
  lemma {:induction false} FilterConcat(a: seq<string>, b: seq<string>, up: set<string>)
    ensures Filter(a + b, up) == Filter(a, up) + Filter(b, up)
  {
    if b == [] {
      assert a + b == a;
    } else {
      FilterConcat(a, b[..|b| - 1], up);
      assert (a + b)[..|a + b| - 1] == a + b[..|b| - 1];
    }
  }

  method Healthy(backends: seq<string>, up: set<string>) returns (healthy: seq<string>)
    ensures healthy == Filter(backends, up)
    ensures forall b :: b in healthy <==> b in backends && b in up
  {
    healthy := [];
    for i := 0 to |backends|
      invariant healthy == Filter(backends[..i], up)
      invariant forall b :: b in healthy <==> b in backends[..i] && b in up
    {
      assert backends[..i + 1][..i] == backends[..i];
      assert backends[..i + 1] == backends[..i] + [backends[i]];
      if backends[i] in up {
        healthy := healthy + [backends[i]];
      }
    }
    assert backends[..|backends|] == backends;
  }

  lemma BackOne(next: Word)
    ensures (Advance(next, 1) - 1) % WORD_SIZE == next && Advance(next, 0) == next
  {
  }

  class Balancer {
    const backends: seq<string>
    var next: Word

    constructor (backends: seq<string>)
      ensures this.backends == backends && next == 0
    {
      this.backends := backends;
      next := 0;
    }

    /** An error, and no turn used up, when nobody is healthy; otherwise the counter's turn. */
    method Pick(up: set<string>) returns (r: Option<string>)
      modifies this
      ensures var healthy := Filter(backends, up);
        if healthy == [] then r == None && next == old(next)
        else r == Some(healthy[Turn(old(next), |healthy|, 0)]) && next == Advance(old(next), 1)
      ensures r.Some? ==> r.value in backends && r.value in up
    {
      var healthy := Healthy(backends, up);
      if healthy == [] {
        return None;
      }
      // Add returns the new value; one less is the value taken, also across the wrap-around.
      BackOne(next);
      next := Advance(next, 1);
      var taken := (next - 1) % WORD_SIZE;
      var index := taken % |healthy|;
      r := Some(healthy[index]);
    }
  }
}
