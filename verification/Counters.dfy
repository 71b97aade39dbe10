/** The free-running 32-bit ring counters (`cur_*`, `dirty_*`) and the slots they select. */
module Counters {

  const U32: nat := 0x1_0000_0000

  /** NUM_TX_DESC and NUM_RX_DESC. */
  const N: nat := 1024

  /** A uint32_t. */
  type Word32 = x: int | 0 <= x < U32

  /** Addition and subtraction wrap around, as they do on C's unsigned int. */
  function Add(a: Word32, k: nat): Word32 {
    (a + k) % U32
  }

  function Sub(a: Word32, b: Word32): Word32 {
    (a - b) % U32
  }

  /** The slot that lies k places after counter value c. */
  function Slot(c: int, k: int): (i: nat)
    ensures i < N
  {
    (c + k) % N
  }

  /** The place of slot i in the walk that starts at counter value c. */
  function Offset(c: int, i: nat): (k: nat)
    ensures k < N
  {
    (i - c) % N
  }

  lemma ModShift(x: int, q: int)
    ensures (x + N * q) % N == x % N
  {
  }

  /** The walk k -> Slot(c, k) and the map back are inverse to each other, so the walk
      visits each slot exactly once, wherever it starts. */
  lemma WalkIsBijection(c: int, i: nat, k: nat)
    requires i < N && k < N
    ensures Slot(c, Offset(c, i)) == i
    ensures Offset(c, Slot(c, k)) == k
  {
    ModShift(i, -((i - c) / N));
    assert c + Offset(c, i) == i + N * -((i - c) / N);
    ModShift(k, -((c + k) / N));
    assert Slot(c, k) - c == k + N * -((c + k) / N);
  }

  lemma WalkIsInjective(c: int, j: int, k: int)
    requires Slot(c, j) == Slot(c, k) && j < k + N && k < j + N
    ensures j == k
  {
  }

  /** Distinct places of the walk are distinct slots. */
  lemma SlotsDiffer(c: int, n: nat)
    requires n < N
    ensures forall j :: 0 <= j < N && j != n ==> Slot(c, j) != Slot(c, n)
  {
    forall j | 0 <= j < N && j != n ensures Slot(c, j) != Slot(c, n) {
      if Slot(c, j) == Slot(c, n) { WalkIsInjective(c, j, n); }
    }
  }

  /** Because N divides 2^32, a counter that wraps still selects the next slot. */
  lemma AddMovesWindow(c: Word32, j: nat, k: int)
    ensures Slot(Add(c, j), k) == Slot(c, j + k)
  {
    var q := (c + j) / U32;
    assert c + j == Add(c, j) + U32 * q;
    assert U32 == N * 4194304;
    assert c + j + k == Add(c, j) + k + N * (4194304 * q);
    ModShift(Add(c, j) + k, 4194304 * q);
  }

  lemma TimesAtLeast(n: nat, k: nat)
    requires k >= 1
    ensures n * k >= n
  {
  }

  lemma RemainderIsUnique(n: nat, d: int, r: nat, d': int, r': nat)
    requires r < n && r' < n && n * d + r == n * d' + r'
    ensures r == r'
  {
    assert n * (d - d') == r' - r && n * (d' - d) == r - r';
    if d > d' { TimesAtLeast(n, d - d'); }
    if d < d' { TimesAtLeast(n, d' - d); }
  }

  lemma ModOfMultiple(x: nat, q: nat, n: nat)
    requires n > 0
    ensures (x + n * q) % n == x % n
  {
    var y := x + n * q;
    assert n * (x / n + q) == n * (x / n) + n * q;
    RemainderIsUnique(n, y / n, y % n, x / n + q, x % n);
  }

  lemma Regroup(a: int, b: int, c: int)
    ensures a * b * c == a * (b * c)
  {
  }

  /** That N is 1024 does not matter: for a ring of n slots, stepping a 32-bit counter and stepping
      the slot agree at every counter value if and only if n divides 2^32. */
  lemma WrapKeepsSlotIff(n: nat)
    requires n > 0
    ensures (forall c: Word32, j: nat :: Add(c, j) % n == (c + j) % n) <==> U32 % n == 0
  {
    if U32 % n == 0 {
      forall c: Word32, j: nat ensures Add(c, j) % n == (c + j) % n {
        ModOfMultiple(Add(c, j), U32 / n * ((c + j) / U32), n);
        assert U32 == n * (U32 / n);
        assert c + j == Add(c, j) + U32 * ((c + j) / U32);
        Regroup(n, U32 / n, (c + j) / U32);
      }
    } else {
      assert Add(U32 - 1, 1) == 0;
      ModOfMultiple(0, 0, n);
    }
  }

  lemma AddMovesWalk(c: Word32, j: nat)
    ensures forall k: int {:trigger Slot(Add(c, j), k)} :: Slot(Add(c, j), k) == Slot(c, j + k)
  {
    forall k: int ensures Slot(Add(c, j), k) == Slot(c, j + k) {
      AddMovesWindow(c, j, k);
    }
  }

  lemma AddSub(a: Word32, b: Word32)
    ensures Add(b, Sub(a, b)) == a
  {
  }

  /** The window [b, b + N) seen from a: the place N - (a - b) after a is b itself. */
  lemma FarEndIsStart(a: Word32, b: Word32)
    requires Sub(a, b) <= N
    ensures Slot(a, N - Sub(a, b)) == Slot(b, 0)
  {
    AddSub(a, b);
    AddMovesWindow(b, Sub(a, b), N - Sub(a, b));
    ModShift(b, 1);
  }

  lemma AddThenSub(a: Word32, b: Word32, k: nat)
    requires Sub(a, b) + k < U32
    ensures Sub(Add(a, k), b) == Sub(a, b) + k
  {
  }

  lemma SubAfterAdd(a: Word32, b: Word32, k: nat)
    requires k <= Sub(a, b)
    ensures Sub(a, Add(b, k)) == Sub(a, b) - k
  {
  }

  lemma RoomIsRest(a: Word32, b: Word32)
    requires Sub(a, b) <= N
    ensures (N + b - a) % U32 == N - Sub(a, b)
  {
  }

  lemma AddAdd(a: Word32, j: nat, k: nat)
    ensures Add(Add(a, j), k) == Add(a, j + k)
  {
  }
}
