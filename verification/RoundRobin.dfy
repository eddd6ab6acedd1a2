/** How `spawn` spreads tasks over the cores, and how task ids are numbered
    (`src/multicore.rs`, `src/cpu.rs`, `src/waker.rs`). */
module RoundRobin {
  import opened Division

  // ----- Tickets -----

  /** How many of `k` consecutive tickets from `a` on, taken from a counter of `w` values, go to core
      `c` of `n`. */
  function Share(w: nat, n: nat, a: nat, k: nat, c: nat): (s: nat)
    requires w > 0 && n > 0
  {
    if k == 0 then 0
    else Share(w, n, a, k - 1, c) + if (a + k - 1) % w % n == c then 1 else 0
  }

  /** The tickets below `x` that go to core `c`. */
  function Below(n: nat, x: nat, c: nat): (s: nat)
    requires n > 0
  {
    x / n + if x % n > c then 1 else 0
  }

  lemma BelowNext(n: nat, x: nat, c: nat)
    requires c < n
    ensures Below(n, x + 1, c) == Below(n, x, c) + if x % n == c then 1 else 0
  {
    NextTicketOf(n, x, x / n, x % n);
  }

  lemma NextTicketOf(n: nat, x: nat, q: nat, r: nat)
    requires x == n * q + r && r < n
    ensures if r == n - 1 then (x + 1) / n == q + 1 && (x + 1) % n == 0
            else (x + 1) / n == q && (x + 1) % n == r + 1
  {
    if r == n - 1 {
      assert n * (q + 1) == n * q + n;
      DivUnique(x + 1, n, q + 1, 0);
    } else {
      DivUnique(x + 1, n, q, r + 1);
    }
  }

  lemma {:induction false} ShareIsBelow(w: nat, n: nat, a: nat, k: nat, c: nat)
    requires c < n && w > 0 && a + k <= w
    ensures Share(w, n, a, k, c) == Below(n, a + k, c) - Below(n, a, c)
    decreases k
  {
    if k > 0 {
      ShareIsBelow(w, n, a, k - 1, c);
      BelowNext(n, a + k - 1, c);
      DivUnique(a + k - 1, w, 0, a + k - 1);
    }
  }

  function Ceil(k: nat, n: nat): (r: nat)
    requires n > 0
  {
    if k % n == 0 then k / n else k / n + 1
  }

  lemma QuotientOfDifference(n: nat, k: nat, q: nat, r: nat, p: nat, s: nat)
    requires n * q + r + k == n * p + s && r < n && s < n
    ensures if s >= r then k / n == p - q && k % n == s - r
            else k / n == p - q - 1 && k % n == n + s - r
  {
    assert n * (p + 1) == n * p + n;
    MulLess(n, q, p + 1);
    if s >= r {
      assert n * (p - q) == n * p - n * q;
      DivUnique(k, n, p - q, s - r);
    } else {
      MulLess(n, q, p);
      assert n * (p - q - 1) == n * p - n * q - n;
      DivUnique(k, n, p - q - 1, n + s - r);
    }
  }

  lemma WindowQuotient(n: nat, a: nat, k: nat)
    requires n > 0
    ensures var d := (a + k) / n - a / n;
            var r, s := a % n, (a + k) % n;
            if s >= r then k / n == d && k % n == s - r else k / n == d - 1 && k % n == n + s - r
  {
    QuotientOfDifference(n, k, a / n, a % n, (a + k) / n, (a + k) % n);
  }

  /** Until the counter wraps, any `k` consecutive tickets give every core its fair share. */
  lemma FairShare(w: nat, n: nat, a: nat, k: nat, c: nat)
    requires c < n && w > 0 && a + k <= w
    ensures k / n <= Share(w, n, a, k, c) <= Ceil(k, n) <= k / n + 1
  {
    ShareIsBelow(w, n, a, k, c);
    WindowQuotient(n, a, k);
  }

  /** Across the wrap the two parts are shared out separately. */
  lemma {:induction false} ShareWraps(w: nat, n: nat, a: nat, k: nat, c: nat)
    requires c < n && a < w && w <= a + k <= 2 * w
    ensures Share(w, n, a, k, c) == Share(w, n, a, w - a, c) + Share(w, n, 0, a + k - w, c)
    decreases k
  {
    if a + k > w {
      ShareWraps(w, n, a, k - 1, c);
      var j := a + k - 1 - w;
      DivUnique(a + k - 1, w, 1, j);
      DivUnique(j, w, 0, j);
    }
  }

  /** So across one wrap any two cores still differ by at most two. */
  lemma WrappedShares(w: nat, n: nat, a: nat, k: nat, c: nat, d: nat)
    requires c < n && d < n && a < w && w <= a + k <= 2 * w
    ensures Share(w, n, a, k, c) <= Share(w, n, a, k, d) + 2
  {
    ShareWraps(w, n, a, k, c);
    ShareWraps(w, n, a, k, d);
    FairShare(w, n, a, w - a, c);
    FairShare(w, n, a, w - a, d);
    FairShare(w, n, 0, a + k - w, c);
    FairShare(w, n, 0, a + k - w, d);
  }

  ghost predicate AlwaysWithinOne(w: nat, n: nat)
    requires w > 0 && n > 0
  {
    forall a: nat, k: nat, c: nat, d: nat :: a < w && k <= w && c < n && d < n ==>
      Share(w, n, a, k, c) <= Share(w, n, a, k, d) + 1
  }

  lemma ModShift(x: nat, w: nat, n: nat)
    requires n > 0 && w <= x && w % n == 0
    ensures (x - w) % n == x % n
  {
    var q, r, v := (x - w) / n, (x - w) % n, w / n;
    assert n * (q + v) == n * q + n * v;
    DivUnique(x, n, q + v, r);
  }

  lemma {:induction false} SeamlessWrap(w: nat, n: nat, a: nat, k: nat, c: nat)
    requires c < n && a < w && k <= w && w % n == 0
    ensures Share(w, n, a, k, c) == Below(n, a + k, c) - Below(n, a, c)
    decreases k
  {
    if k > 0 {
      SeamlessWrap(w, n, a, k - 1, c);
      var x := a + k - 1;
      BelowNext(n, x, c);
      if x < w {
        DivUnique(x, w, 0, x);
      } else {
        DivUnique(x, w, 1, x - w);
        ModShift(x, w, n);
      }
    }
  }

  /** The shares stay within one of each other over every window, wrap or not, exactly when the
      number of cores divides the size of the counter. */
  lemma WithinOneIff(w: nat, n: nat)
    requires 0 < n <= w
    ensures AlwaysWithinOne(w, n) <==> w % n == 0
  {
    if w % n == 0 {
      forall a: nat, k: nat, c: nat, d: nat | a < w && k <= w && c < n && d < n
        ensures Share(w, n, a, k, c) <= Share(w, n, a, k, d) + 1
      {
        SeamlessWrap(w, n, a, k, c);
        SeamlessWrap(w, n, a, k, d);
        WindowQuotient(n, a, k);
      }
    } else {
      var r := w % n;
      UnevenWrap(w, n);
      assert Share(w, n, w - r, 2 * r, 0) > Share(w, n, w - r, 2 * r, r) + 1;
    }
  }

  lemma WrapFits(w: nat, n: nat)
    requires 0 < n <= w
    ensures 2 * (w % n) <= w && w - w % n == n * (w / n)
  {
    var q := w / n;
    assert w < n * q + n == n * (q + 1);
    MulLess(n, 1, q + 1);
    assert n * q == n + n * (q - 1);
  }

  /** A window that starts at core 0 and stops short of core `r`. */
  lemma ShortWindow(w: nat, n: nat, a: nat, q: nat, r: nat)
    requires a == n * q && 0 < r < n && a + r <= w
    ensures Share(w, n, a, r, 0) == 1 && Share(w, n, a, r, r) == 0
  {
    DivUnique(a, n, q, 0);
    DivUnique(a + r, n, q, r);
    ShareIsBelow(w, n, a, r, 0);
    ShareIsBelow(w, n, a, r, r);
  }

  /** If it does not, the window around the wrap gives core 0 two tasks and another core none. */
  lemma UnevenWrap(w: nat, n: nat)
    requires 0 < n <= w && w % n != 0
    ensures var r := w % n;
            2 * r <= w && Share(w, n, w - r, 2 * r, 0) == 2 && Share(w, n, w - r, 2 * r, r) == 0
  {
    var r := w % n;
    WrapFits(w, n);
    ShortWindow(w, n, w - r, w / n, r);
    ShortWindow(w, n, 0, 0, r);
    ShareWraps(w, n, w - r, 2 * r, 0);
    ShareWraps(w, n, w - r, 2 * r, r);
  }

  // ----- Task ids -----

  const HALF_WORD := 0x1_0000_0000

  /** The `k`-th id `Cpu::spawn` hands out on CPU `cpu`. */
  function LocalId(cpu: nat, k: nat): (id: nat) {
    cpu * HALF_WORD + k
  }

  /** The `g`-th id `submit_task` hands out. */
  function GlobalId(g: nat): (id: nat) {
    1 + g
  }

  /** Local and global ids are distinct, for the first `locals` and `globals` of them, exactly if the
      globals stay below the CPU's range, or the ranges are empty. */
  lemma IdsDistinctIff(cpu: nat, locals: nat, globals: nat)
    ensures (forall k: nat, g: nat :: k < locals && g < globals ==> LocalId(cpu, k) != GlobalId(g)) <==>
            locals == 0 || globals < LocalId(cpu, 0) || LocalId(cpu, 0) + locals <= 1 || globals == 0
  {
    if locals > 0 && globals > 0 && globals >= LocalId(cpu, 0) && LocalId(cpu, 0) + locals > 1 {
      if cpu == 0 {
        assert LocalId(0, 1) == GlobalId(0);
      } else {
        assert LocalId(cpu, 0) == GlobalId(LocalId(cpu, 0) - 1);
      }
    }
  }
}
