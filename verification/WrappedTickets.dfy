/** The uint64 arithmetic of tickets, slot indices and turns, and how it mirrors unbounded tickets. */
module WrappedTickets {
  import opened QueueMachine

  const TWO_63: nat := 0x8000_0000_0000_0000
  const TWO_64: nat := 0x1_0000_0000_0000_0000

  newtype uint64 = x: int | 0 <= x < 0x1_0000_0000_0000_0000

  function Wrap(n: nat): uint64
  {
    (n % TWO_64) as uint64
  }

  function Add(a: uint64, b: nat): uint64
  {
    Wrap(a as nat + b)
  }

  // ---------------------------------------------------------------- powers of two and masks

  function Pow2(k: nat): (r: nat)
    ensures r > 0
  {
    if k == 0 then 1 else 2 * Pow2(k - 1)
  }

  /** Bitwise and of two naturals. */
  function And(x: nat, y: nat): nat
    decreases x
  {
    if x == 0 then 0 else 2 * And(x / 2, y / 2) + (if x % 2 == 1 && y % 2 == 1 then 1 else 0)
  }

  lemma {:induction false} AndSelf(x: nat)
    ensures And(x, x) == x
  {
    if x > 0 {
      AndSelf(x / 2);
    }
  }

  ghost predicate IsPow2(c: nat)
  {
    c == 1 || (c > 0 && c % 2 == 0 && IsPow2(c / 2))
  }

  lemma {:induction false} Exponent(c: nat) returns (k: nat)
    requires IsPow2(c)
    ensures c == Pow2(k)
  {
    if c == 1 {
      k := 0;
    } else {
      k := Exponent(c / 2);
      k := k + 1;
    }
  }

  /** The constructor's assertion lets exactly the powers of two through, and zero. */
  lemma {:induction false} CapacityAssertion(c: nat)
    requires c > 0
    ensures And(c, c - 1) == 0 <==> IsPow2(c)
  {
    if c % 2 == 1 {
      AndSelf(c / 2);
      assert (c - 1) / 2 == c / 2 && (c - 1) % 2 == 0;
      assert And(c, c - 1) == 2 * (c / 2);
    } else {
      CapacityAssertion(c / 2);
      assert (c - 1) / 2 == c / 2 - 1;
    }
  }

  /** i & mask is i modulo the capacity. */
  lemma {:induction false} MaskIsRemainder(i: nat, c: nat)
    requires IsPow2(c)
    ensures And(i, c - 1) == i % c
    decreases c
  {
    if c == 1 {
      AndZero(i);
      Quotient(i, 1, i, 0);
    } else if i > 0 {
      var h := c / 2;
      MaskIsRemainder(i / 2, h);
      HalfRemainder(i, h);
      assert (c - 1) / 2 == h - 1 && (c - 1) % 2 == 1;
    } else {
      Quotient(0, c, 0, 0);
    }
  }

  lemma {:induction false} AndZero(i: nat)
    ensures And(i, 0) == 0
  {
    if i > 0 {
      AndZero(i / 2);
    }
  }

  lemma HalfRemainder(i: nat, h: nat)
    requires h > 0
    ensures i % (2 * h) == 2 * ((i / 2) % h) + i % 2
  {
    var q, r := (i / 2) / h, (i / 2) % h;
    assert i / 2 == q * h + r;
    assert i == q * (2 * h) + (2 * r + i % 2);
    Quotient(i, 2 * h, q, 2 * r + i % 2);
  }

  lemma TimesGrows(a: nat, b: nat, d: nat)
    requires a <= b
    ensures a * d <= b * d
  {
  }

  lemma Quotient(n: nat, d: nat, q: nat, r: nat)
    requires d > 0 && n == q * d + r && r < d
    ensures n / d == q && n % d == r
  {
    var q', r' := n / d, n % d;
    assert n == q' * d + r';
    if q' < q {
      TimesGrows(q' + 1, q, d);
    } else if q' > q {
      TimesGrows(q + 1, q', d);
    }
  }

  lemma {:induction false} Pow2Grows(j: nat, k: nat)
    requires j < k
    ensures Pow2(j) < Pow2(k)
    decreases k
  {
    if j < k - 1 {
      Pow2Grows(j, k - 1);
    }
  }

  lemma {:induction false} Pow2Sum(j: nat, k: nat)
    ensures Pow2(j) * Pow2(k) == Pow2(j + k)
  {
    if j > 0 {
      Pow2Sum(j - 1, k);
      assert Pow2(j) * Pow2(k) == 2 * (Pow2(j - 1) * Pow2(k));
    }
  }

  lemma Product(j: nat, a: nat, k: nat, b: nat)
    requires Pow2(j) == a && Pow2(k) == b
    ensures Pow2(j + k) == a * b
  {
    Pow2Sum(j, k);
  }

  lemma Pow2Of63()
    ensures Pow2(63) == TWO_63
  {
    Product(7, 128, 7, 128);
    Product(14, 0x4000, 14, 0x4000);
    Product(28, 0x1000_0000, 28, 0x1000_0000);
    Product(56, 0x100_0000_0000_0000, 7, 128);
  }

  /** Every capacity the queue is used with divides 2^63, and masking a ticket takes its remainder. */
  lemma CapacityDivides(c: nat) returns (h: nat)
    requires 0 < c < TWO_64 && And(c, c - 1) == 0
    ensures h * c == TWO_63
    ensures forall i: nat :: And(i, c - 1) == i % c
  {
    CapacityAssertion(c);
    var k := Exponent(c);
    Pow2Of63();
    if k > 63 {
      TooLarge(k);
    }
    h := Pow2(63 - k);
    Pow2Sum(63 - k, k);
    forall i: nat ensures And(i, c - 1) == i % c {
      MaskIsRemainder(i, c);
    }
  }

  lemma TooLarge(k: nat)
    requires k > 63
    ensures Pow2(k) >= TWO_64
  {
    Pow2Of63();
    assert Pow2(64) == 2 * Pow2(63);
    if k > 64 {
      Pow2Grows(64, k);
    }
  }

  // ---------------------------------------------------------------- laps

  /** Lap and Ix are the quotient and the remainder of the ticket by the capacity. */
  lemma {:induction false} LapIsQuotient(t: nat, c: nat)
    requires c > 0
    ensures Lap(t, c) == t / c && Ix(t, c) == t % c
    decreases t
  {
    if t >= c {
      LapIsQuotient(t - c, c);
      Quotient(t, c, (t - c) / c + 1, (t - c) % c);
    } else {
      Quotient(t, c, 0, t);
    }
  }

  // ---------------------------------------------------------------- turns

  const MAX_64: uint64 := 0xFFFF_FFFF_FFFF_FFFF

  function Index(i: uint64, c: uint64): nat
    requires c > 0
  {
    And(i as nat, c as nat - 1)
  }

  function TurnOf(i: uint64, c: uint64): uint64
    requires c > 0
  {
    ((i as nat) / (c as nat)) as uint64
  }

  /** The turn the producer of ticket i waits for. */
  function FreeTurn(i: uint64, c: uint64): uint64
    requires c > 0
  {
    Wrap(TurnOf(i, c) as nat * 2)
  }

  /** The turn the producer of ticket i stores and its consumer waits for. */
  function FilledTurn(i: uint64, c: uint64): uint64
    requires c > 0
  {
    Wrap(TurnOf(i, c) as nat * 2 + 1)
  }

  /** The turn the consumer of ticket i stores: forced back to zero after the last lap. */
  function NextTurn(i: uint64, c: uint64): uint64
    requires c > 0
  {
    if TurnOf(i, c) == TurnOf(MAX_64, c) then 0 else Wrap(TurnOf(i, c) as nat * 2 + 2)
  }

  /** Stored turns repeat with this period. */
  function Period(c: nat): (r: nat)
    requires 0 < c <= TWO_64
    ensures r > 0
  {
    if c == 1 then TWO_64 else 2 * (TWO_64 / c)
  }

  /** How an unbounded turn is stored. */
  function WrapTurn(v: nat, c: nat): uint64
    requires 0 < c <= TWO_64
  {
    Wrap(v % Period(c))
  }

  lemma ModShift(q: nat, m: nat, r: nat)
    requires m > 0
    ensures (q * m + r) % m == r % m
  {
    Quotient(r, m, r / m, r % m);
    assert q * m + r == (q + r / m) * m + r % m;
    Quotient(q * m + r, m, q + r / m, r % m);
  }

  lemma SmallMod(r: nat, m: nat)
    requires r < m
    ensures r % m == r
  {
  }

  lemma Regroup(n: nat, h: nat, q: nat, k: nat, x: nat)
    requires h * n == TWO_63
    ensures q * TWO_64 + (k * n + x) == (q * (2 * h) + k) * n + x
  {
  }

  lemma LapInRange(n: nat, h: nat, k: nat, x: nat)
    requires h * n == TWO_63 && k * n + x < TWO_64
    ensures k < 2 * h
  {
  }

  lemma Division(r: nat, n: nat) returns (k: nat, x: nat)
    requires n > 0
    ensures r == k * n + x && x < n && k == r / n && x == r % n
  {
    k, x := r / n, r % n;
  }

  lemma LapsPerRound(n: nat, h: nat)
    requires h * n == TWO_63 && n > 0
    ensures TWO_64 / n == 2 * h
  {
  }

  /** A ticket's lap, read from the wrapped ticket, is its lap modulo the number of laps in 2^64 tickets. */
  lemma WrappedLap(t: nat, c: uint64, h: nat) returns (q: nat, k: nat)
    requires c > 0 && h * (c as nat) == TWO_63
    ensures Lap(t, c as nat) == q * (2 * h) + k && k < 2 * h
    ensures TurnOf(Wrap(t), c) as nat == k
    ensures (t % TWO_64) % (c as nat) == Ix(t, c as nat)
  {
    var n := c as nat;
    var r, x;
    q, r := Division(t, TWO_64);
    k, x := Division(r, n);
    LapInRange(n, h, k, x);
    Regroup(n, h, q, k, x);
    Quotient(t, n, q * (2 * h) + k, x);
    LapIsQuotient(t, n);
  }

  /** The slot index the code computes is the slot that serves the ticket. */
  lemma IndexAgrees(t: nat, c: uint64)
    requires c > 0 && And(c as nat, c as nat - 1) == 0
    ensures Index(Wrap(t), c) == Ix(t, c as nat)
  {
    var h := CapacityDivides(c as nat);
    var q, k := WrappedLap(t, c, h);
  }

  lemma PeriodIs(c: uint64, h: nat)
    requires c > 0 && h * (c as nat) == TWO_63
    ensures Period(c as nat) == (if c == 1 then TWO_64 else 4 * h)
    ensures Period(c as nat) <= TWO_64
  {
    LapsPerRound(c as nat, h);
    if c > 1 {
      FewLaps(c, h);
    }
  }

  /** Twice a lap plus a bit, reduced by whole rounds. */
  lemma StoredTurn(q: nat, h: nat, k: nat, b: nat, c: uint64)
    requires c > 0 && h * (c as nat) == TWO_63 && k < 2 * h && b <= 2
    ensures WrapTurn(2 * (q * (2 * h) + k) + b, c as nat)
         == if b == 2 && k == 2 * h - 1 then 0 else Wrap(2 * k + b)
  {
    var m := Period(c as nat);
    PeriodIs(c, h);
    var rounds := if c == 1 then 2 * q else q;
    assert 2 * (q * (2 * h) + k) + b == rounds * m + (2 * k + b);
    ModShift(rounds, m, 2 * k + b);
    if 2 * k + b < m {
      SmallMod(2 * k + b, m);
    } else if c > 1 {
      Quotient(2 * k + b, m, 1, 0);
    }
  }

  /** Every turn the code computes from a wrapped ticket is the stored form of the turn the unbounded
      ticket calls for, including the reset after the last lap. */
  lemma TurnsAgree(t: nat, c: uint64)
    requires c > 0 && And(c as nat, c as nat - 1) == 0
    ensures FreeTurn(Wrap(t), c) == WrapTurn(2 * Lap(t, c as nat), c as nat)
    ensures FilledTurn(Wrap(t), c) == WrapTurn(2 * Lap(t, c as nat) + 1, c as nat)
    ensures NextTurn(Wrap(t), c) == WrapTurn(2 * Lap(t, c as nat) + 2, c as nat)
  {
    var h := CapacityDivides(c as nat);
    var q, k := WrappedLap(t, c, h);
    LastLap(c, h);
    StoredTurn(q, h, k, 0, c);
    StoredTurn(q, h, k, 1, c);
    StoredTurn(q, h, k, 2, c);
  }

  lemma FewLaps(c: uint64, h: nat)
    requires c > 1 && h * (c as nat) == TWO_63
    ensures 4 * h <= TWO_64
  {
  }

  lemma LastLap(c: uint64, h: nat)
    requires c > 0 && h * (c as nat) == TWO_63
    ensures TurnOf(MAX_64, c) as nat == 2 * h - 1
  {
  }

  lemma SameRemainder(a: nat, b: nat, m: nat, qa: nat, qb: nat, r: nat)
    requires a == qa * m + r && b == qb * m + r
    requires a < b + m && b < a + m
    ensures a == b
  {
    if qa < qb {
      TimesGrows(qa + 1, qb, m);
    } else if qb < qa {
      TimesGrows(qb + 1, qa, m);
    }
  }

  /** Turns less than a period apart are told apart by their stored form. */
  lemma TurnsToldApart(a: nat, b: nat, c: uint64)
    requires c > 0 && And(c as nat, c as nat - 1) == 0
    requires a < b + Period(c as nat) && b < a + Period(c as nat)
    ensures WrapTurn(a, c as nat) == WrapTurn(b, c as nat) <==> a == b
  {
    var h := CapacityDivides(c as nat);
    PeriodIs(c, h);
    var m := Period(c as nat);
    var qa, ra := Division(a, m);
    var qb, rb := Division(b, m);
    SmallMod(ra, TWO_64);
    SmallMod(rb, TWO_64);
    if ra == rb {
      SameRemainder(a, b, m, qa, qb, ra);
    }
  }

  lemma TicketsToldApart(a: nat, b: nat)
    requires a < b + TWO_64 && b < a + TWO_64
    ensures Wrap(a) == Wrap(b) <==> a == b
  {
  }

  /** Subtraction of uint64. */
  function Minus(a: uint64, b: uint64): uint64
  {
    Wrap(a as nat + TWO_64 - b as nat)
  }

  /** size() of two counters less than 2^64 apart is their distance exactly if tail is not ahead of head;
      empty() is whether they are equal, which is not whether anything is left once tail is ahead. */
  lemma SizeExactly(head: nat, tail: nat)
    requires head < tail + TWO_64 && tail < head + TWO_64
    ensures Minus(Wrap(head), Wrap(tail)) as int == head - tail <==> tail <= head
    ensures Minus(Wrap(head), Wrap(tail)) == 0 <==> head == tail
    ensures (Minus(Wrap(head), Wrap(tail)) == 0 <==> head <= tail) <==> tail <= head
  {
  }

  /** One pop of an empty queue, still waiting: empty() is false and size() is the greatest uint64. */
  lemma WaitingPopCounted(cap: nat)
    requires cap > 0
    ensures var s := Step(Init<int>(cap, 1), 0, Pop);
            s.issued == [] && s.pcs[0] == PopWait(0) && Minus(Wrap(s.head), Wrap(s.tail)) as int == TWO_64 - 1
  {
    var s := Step(Init<int>(cap, 1), 0, Pop);
    assert s.head == 0 && s.tail == 1;
    assert Wrap(0) == 0 && Wrap(1) == 1;
  }
}
