/**
 * The frame resource counter: incremented once per sync-point pass and wrapped to 0
 * when it reaches the resources' frame lifetime, that moment being the sync point at
 * which no command list is executing.
 */
module FrameCounter {

  /** One increment: the next counter value and whether this tick is a sync point. */
  function Tick(index: nat, lifetime: nat): (r: (nat, bool))
    requires index < lifetime
    ensures r.0 < lifetime
    ensures r.1 <==> index + 1 == lifetime
    ensures r.0 == (index + 1) % lifetime
  {
    var next := index + 1;
    if next == lifetime then (0, true) else (next, false)
  }

  /** `ticks` increments from `index`: the final counter, still below the lifetime, and
      how many sync points passed. */
  function Run(index: nat, lifetime: nat, ticks: nat): (r: (nat, nat))
    requires index < lifetime
    ensures r.0 < lifetime
    ensures r.1 <= ticks
  {
    if ticks == 0 then (index, 0)
    else
      var (i, syncs) := Run(index, lifetime, ticks - 1);
      var (next, isSync) := Tick(i, lifetime);
      (next, if isSync then syncs + 1 else syncs)
  }

  /** Started at 0, the counter after t ticks is t mod N, and t div N sync points have passed. */
  lemma {:induction false} RunFromZero(lifetime: nat, ticks: nat)
    requires 1 <= lifetime
    ensures Run(0, lifetime, ticks) == (ticks % lifetime, ticks / lifetime)
  {
    if ticks > 0 {
      var t := ticks - 1;
      RunFromZero(lifetime, t);
      var q, r := t / lifetime, t % lifetime;
      DivMod(t, lifetime);
      if r + 1 == lifetime {
        assert (q + 1) * lifetime == q * lifetime + lifetime;
        DivModSplit(ticks, lifetime, q + 1, 0);
      } else {
        DivModSplit(ticks, lifetime, q, r + 1);
      }
    }
  }

  /** Division with remainder is unique. */
  lemma DivModSplit(n: nat, d: nat, q: nat, r: nat)
    requires 1 <= d && r < d && n == q * d + r
    ensures n % d == r && n / d == q
  {
    var q', r' := n / d, n % d;
    assert q' * d + r' == q * d + r;
    if q' < q {
      MulGap(q', q, d);
      assert false;
    } else if q < q' {
      MulGap(q, q', d);
      assert false;
    }
  }

  /** Two different multiples of d are at least d apart. */
  lemma {:induction false} MulGap(a: nat, b: nat, d: nat)
    requires a < b
    ensures b * d - a * d >= d
  {
    assert b * d == (b - 1) * d + d;
    if a < b - 1 {
      MulGap(a, b - 1, d);
    }
  }

  lemma DivMod(n: nat, d: nat)
    requires 1 <= d
    ensures n == (n / d) * d + n % d && n % d < d
  {
  }

  /** Whether the t-th tick (counting from 1) after starting at 0 is a sync point. */
  function SyncAtTick(lifetime: nat, t: nat): bool
    requires 1 <= lifetime && 1 <= t
  {
    Tick(Run(0, lifetime, t - 1).0, lifetime).1
  }

  /** The sync-point branch runs exactly on ticks N, 2N, 3N, ... */
  lemma SyncExactlyOnMultiples(lifetime: nat, t: nat)
    requires 1 <= lifetime && 1 <= t
    ensures SyncAtTick(lifetime, t) <==> t % lifetime == 0
  {
    RunFromZero(lifetime, t - 1);
    RunFromZero(lifetime, t);
  }
}
