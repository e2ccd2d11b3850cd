/** The exponential-backoff failure cache, as a refinement of the history of
    operations on it. Durations and times are in nanoseconds. */
module FailuresCache {
  import opened Types

  const SECOND: nat := 1_000_000_000
  const U8_MAX: nat := 255
  const DEFAULT_MAX_DELAY: nat := 15 * 60 * SECOND
  const DEFAULT_MULTIPLIER: nat := 15

  // ---- The delay ----

  function Pow2(n: nat): (p: nat)
    ensures p > 0
  {
    if n == 0 then 1 else 2 * Pow2(n - 1)
  }

  /** `2u64.saturating_pow(n)` and `a.saturating_mul(b)`. */
  function SaturatingPow2(n: nat): nat {
    Min(Pow2(n), U64_MAX)
  }

  function SaturatingMul(a: nat, b: nat): nat {
    Min(a * b, U64_MAX)
  }

  function Clamp(x: nat, lo: nat, hi: nat): nat
    requires lo <= hi
  {
    if x < lo then lo else if x > hi then hi else x
  }

  /** The window of an item; clamping panics for a maximal delay under a second. */
  function CalculateDelay(failureCount: nat, multiplier: nat, maxDelay: nat): (d: nat)
    requires SECOND <= maxDelay
    ensures SECOND <= d <= maxDelay
  {
    Clamp(SaturatingMul(SaturatingPow2(failureCount), multiplier) * SECOND, SECOND, maxDelay)
  }

  lemma MulAtLeast(a: nat, b: nat)
    requires b > 0
    ensures a <= a * b
  {
  }

  lemma SaturatedProduct(n: nat, multiplier: nat)
    ensures SaturatingMul(SaturatingPow2(n), multiplier) == Min(multiplier * Pow2(n), U64_MAX)
  {
    var p := Pow2(n);
    if multiplier == 0 {
      assert multiplier * p == 0;
    } else if p > U64_MAX {
      MulAtLeast(p, multiplier);
      MulAtLeast(U64_MAX, multiplier);
    }
  }

  /** Saturation is invisible, the delay being clamp(multiplier * 2^n seconds), if
      and only if the product fits a u64 or the maximal delay does. */
  lemma DelayIsExact(n: nat, multiplier: nat, maxDelay: nat)
    requires SECOND <= maxDelay
    ensures CalculateDelay(n, multiplier, maxDelay) == Clamp(multiplier * Pow2(n) * SECOND, SECOND, maxDelay)
            <==> multiplier * Pow2(n) <= U64_MAX || maxDelay <= U64_MAX * SECOND
  {
    SaturatedProduct(n, multiplier);
  }

  lemma Pow2Plus4(n: nat)
    ensures Pow2(n + 4) == 16 * Pow2(n)
  {
    assert Pow2(n + 2) == 4 * Pow2(n);
    assert Pow2(n + 2 + 2) == 4 * Pow2(n + 2);
  }

  lemma Pow2Plus16(n: nat)
    ensures Pow2(n + 16) == 0x1_0000 * Pow2(n)
  {
    Pow2Plus4(n);
    Pow2Plus4(n + 4);
    Pow2Plus4(n + 8);
    Pow2Plus4(n + 12);
  }

  lemma Pow2Plus64(n: nat)
    ensures Pow2(n + 64) == (U64_MAX + 1) * Pow2(n)
  {
    Pow2Plus16(n);
    Pow2Plus16(n + 16);
    Pow2Plus16(n + 32);
    Pow2Plus16(n + 48);
  }

  /** With a maximal delay of u64::MAX seconds and a fraction, the 256th failure
      shows the saturation. */
  lemma DelayCanBeInexact(multiplier: nat)
    requires multiplier > 0
    ensures var maxDelay := U64_MAX * SECOND + 1;
            CalculateDelay(U8_MAX, multiplier, maxDelay) < Clamp(multiplier * Pow2(U8_MAX) * SECOND, SECOND, maxDelay)
  {
    Pow2Plus64(U8_MAX - 64);
    MulAtLeast(U64_MAX + 1, Pow2(U8_MAX - 64));
    MulAtLeast(Pow2(U8_MAX), multiplier);
    SaturatedProduct(U8_MAX, multiplier);
  }

  lemma {:induction false} Pow2Monotone(n: nat, m: nat)
    requires n <= m
    ensures Pow2(n) <= Pow2(m)
  {
    if n < m {
      Pow2Monotone(n, m - 1);
    }
  }

  lemma MulMonotone(a: nat, b: nat, c: nat)
    requires a <= b
    ensures c * a <= c * b
  {
  }

  /** More failures never give a shorter window. */
  lemma DelayMonotone(n: nat, m: nat, multiplier: nat, maxDelay: nat)
    requires n <= m && SECOND <= maxDelay
    ensures CalculateDelay(n, multiplier, maxDelay) <= CalculateDelay(m, multiplier, maxDelay)
  {
    SaturatedProduct(n, multiplier);
    SaturatedProduct(m, multiplier);
    Pow2Monotone(n, m);
    MulMonotone(Pow2(n), Pow2(m), multiplier);
  }

  /** With the default settings the windows are a quarter, a half, one, two, four and
      eight minutes, and fifteen minutes from then on. */
  lemma DefaultWindows(n: nat)
    ensures var minutes, window := 60 * SECOND, CalculateDelay(n, DEFAULT_MULTIPLIER, DEFAULT_MAX_DELAY);
            && (n == 0 ==> 4 * window == minutes)
            && (n == 1 ==> 2 * window == minutes)
            && (n == 2 ==> window == minutes)
            && (n == 3 ==> window == 2 * minutes)
            && (n == 4 ==> window == 4 * minutes)
            && (n == 5 ==> window == 8 * minutes)
            && (n >= 6 ==> window == 15 * minutes)
  {
    assert Pow2(0) == 1 && Pow2(1) == 2 && Pow2(2) == 4;
    Pow2Plus4(0);
    Pow2Plus4(1);
    assert Pow2(3) == 2 * Pow2(2);
    if n >= 6 {
      Pow2Plus4(2);
      Pow2Monotone(6, n);
      DelayMonotone(6, n, DEFAULT_MULTIPLIER, DEFAULT_MAX_DELAY);
    }
  }

  // ---- The history ----

  datatype Entry<T> = Inserted(key: T, time: nat) | Removed(key: T) | Expired(key: T)

  datatype Item = Item(insertionTime: nat, duration: nat, failureCount: nat)

  /** Insertions of a key since it was last removed. */
  function Insertions<T(==)>(h: seq<Entry<T>>, k: T): nat {
    if h == [] then 0
    else
      var rest, last := h[..|h| - 1], h[|h| - 1];
      if last.key != k then Insertions(rest, k)
      else
        match last
        case Inserted(_, _) => Insertions(rest, k) + 1
        case Removed(_) => 0
        case Expired(_) => Insertions(rest, k)
  }

  function LastInsertion<T(==)>(h: seq<Entry<T>>, k: T): nat {
    if h == [] then 0
    else if h[|h| - 1].Inserted? && h[|h| - 1].key == k then h[|h| - 1].time
    else LastInsertion(h[..|h| - 1], k)
  }

  /** Was the key force-expired after its last insertion? */
  predicate ForceExpired<T(==)>(h: seq<Entry<T>>, k: T) {
    if h == [] then false
    else if h[|h| - 1].key == k && !h[|h| - 1].Removed? then h[|h| - 1].Expired?
    else ForceExpired(h[..|h| - 1], k)
  }

  /** One less than the number of failures, as far as a u8 counts. */
  function CountOf<T(==)>(h: seq<Entry<T>>, k: T): nat
    requires Insertions(h, k) > 0
  {
    Min(Insertions(h, k) - 1, U8_MAX)
  }

  function ItemOf<T(==)>(h: seq<Entry<T>>, k: T, multiplier: nat, maxDelay: nat): Option<Item>
    requires Insertions(h, k) > 0 ==> SECOND <= maxDelay
  {
    if Insertions(h, k) == 0 then None
    else
      Some(Item(
        LastInsertion(h, k),
        if ForceExpired(h, k) then 0 else CalculateDelay(CountOf(h, k), multiplier, maxDelay),
        CountOf(h, k)))
  }

  function Elapsed(since: nat, now: nat): nat {
    if since <= now then now - since else 0
  }

  /** The keys of an iterator as history entries. */
  function Insertion<T>(keys: seq<T>, now: nat): seq<Entry<T>> {
    seq(|keys|, i requires 0 <= i < |keys| => Inserted(keys[i], now))
  }

  function Removal<T>(keys: seq<T>): seq<Entry<T>> {
    seq(|keys|, i requires 0 <= i < |keys| => Removed(keys[i]))
  }

  /** Insertions of a key after one more entry. */
  lemma InsertionsAfter<T>(h: seq<Entry<T>>, e: Entry<T>, k: T)
    ensures Insertions(h + [e], k) ==
            if e.key != k || e.Expired? then Insertions(h, k) else if e.Inserted? then Insertions(h, k) + 1 else 0
  {
    assert (h + [e])[..|h|] == h;
  }

  /** What one more entry does to the item of a key. */
  lemma ItemAfter<T>(h: seq<Entry<T>>, e: Entry<T>, k: T, multiplier: nat, maxDelay: nat)
    requires Insertions(h, k) > 0 || Insertions(h + [e], k) > 0 || e.Inserted? ==> SECOND <= maxDelay
    ensures var was := ItemOf(h, k, multiplier, maxDelay);
            ItemOf(h + [e], k, multiplier, maxDelay) ==
            if e.key != k then was
            else
              match e
              case Inserted(_, now) =>
                var n := if was.None? then 0 else Min(was.value.failureCount + 1, U8_MAX);
                Some(Item(now, CalculateDelay(n, multiplier, maxDelay), n))
              case Removed(_) => None
              case Expired(_) => if was.None? then None else Some(was.value.(duration := 0))
  {
    InsertionsAfter(h, e, k);
    assert (h + [e])[..|h|] == h;
  }

  /** Each occurrence of a key in one batch is a failure of its own. */
  lemma {:induction false} RepeatsCountSeparately<T>(h: seq<Entry<T>>, keys: seq<T>, now: nat, k: T)
    ensures Insertions(h + Insertion(keys, now), k) == Insertions(h, k) + multiset(keys)[k]
  {
    if keys == [] {
      assert h + Insertion(keys, now) == h;
    } else {
      var init, last := keys[..|keys| - 1], keys[|keys| - 1];
      var longer := h + Insertion(keys, now);
      assert longer[..|longer| - 1] == h + Insertion(init, now);
      assert keys == init + [last];
      RepeatsCountSeparately(h, init, now, k);
    }
  }

  /** A further failure of a blocked key never shortens its window. */
  lemma FurtherFailureNeverShortens<T>(h: seq<Entry<T>>, k: T, now: nat, multiplier: nat, maxDelay: nat)
    requires SECOND <= maxDelay && Insertions(h, k) > 0
    ensures var after := ItemOf(h + [Inserted(k, now)], k, multiplier, maxDelay);
            after.Some? && CalculateDelay(CountOf(h, k), multiplier, maxDelay) <= after.value.duration
  {
    ItemAfter(h, Inserted(k, now), k, multiplier, maxDelay);
    DelayMonotone(CountOf(h, k), Min(CountOf(h, k) + 1, U8_MAX), multiplier, maxDelay);
  }

  class FailuresCache<T(==, !new)> {
    const maxDelay: nat
    const multiplier: nat
    var items: map<T, Item>
    ghost var history: seq<Entry<T>>

    ghost predicate Valid()
      reads this
    {
      && (forall k :: Insertions(history, k) > 0 ==> SECOND <= maxDelay)
      && (forall k :: Lookup(items, k) == ItemOf(history, k, multiplier, maxDelay))
    }

    constructor WithSettings(maxDelay: nat, multiplier: nat)
      ensures Valid() && history == [] && this.maxDelay == maxDelay && this.multiplier == multiplier
    {
      this.maxDelay, this.multiplier := maxDelay, multiplier;
      items, history := map[], [];
    }

    constructor ()
      ensures Valid() && history == [] && maxDelay == DEFAULT_MAX_DELAY && multiplier == DEFAULT_MULTIPLIER
    {
      maxDelay, multiplier := DEFAULT_MAX_DELAY, DEFAULT_MULTIPLIER;
      items, history := map[], [];
    }

    /** Every occurrence of a key counts as a failure, also within one call; with a
        maximal delay under a second any insertion panics. */
    method Extend(keys: seq<T>, now: nat)
      requires Valid() && (keys != [] ==> SECOND <= maxDelay)
      modifies this
      ensures Valid() && history == old(history) + Insertion(keys, now)
    {
      for i := 0 to |keys|
        invariant Valid() && history == old(history) + Insertion(keys[..i], now)
      {
        var key := keys[i];
        var failureCount := if key in items then Min(items[key].failureCount + 1, U8_MAX) else 0;
        var delay := CalculateDelay(failureCount, multiplier, maxDelay);
        ghost var h := history;
        items := items[key := Item(now, delay, failureCount)];
        history := history + [Inserted(key, now)];
        forall k
          ensures Insertions(history, k) > 0 ==> SECOND <= maxDelay
          ensures Lookup(items, k) == ItemOf(history, k, multiplier, maxDelay)
        {
          InsertionsAfter(h, Inserted(key, now), k);
          ItemAfter(h, Inserted(key, now), k, multiplier, maxDelay);
        }
        assert old(history) + Insertion(keys[..i], now) + [Inserted(key, now)] == old(history) + Insertion(keys[..i + 1], now);
      }
      assert keys[..|keys|] == keys;
    }

    method Remove(keys: seq<T>)
      requires Valid()
      modifies this
      ensures Valid() && history == old(history) + Removal(keys)
    {
      for i := 0 to |keys|
        invariant Valid() && history == old(history) + Removal(keys[..i])
      {
        ghost var h := history;
        items := items - {keys[i]};
        history := history + [Removed(keys[i])];
        forall k
          ensures Insertions(history, k) > 0 ==> SECOND <= maxDelay
          ensures Lookup(items, k) == ItemOf(history, k, multiplier, maxDelay)
        {
          InsertionsAfter(h, Removed(keys[i]), k);
          ItemAfter(h, Removed(keys[i]), k, multiplier, maxDelay);
        }
        assert old(history) + Removal(keys[..i]) + [Removed(keys[i])] == old(history) + Removal(keys[..i + 1]);
      }
      assert keys[..|keys|] == keys;
    }

    method Expire(key: T)
      requires Valid()
      modifies this
      ensures Valid() && history == old(history) + [Expired(key)]
    {
      ghost var h := history;
      if key in items {
        items := items[key := items[key].(duration := 0)];
      }
      history := history + [Expired(key)];
      forall k
        ensures Insertions(history, k) > 0 ==> SECOND <= maxDelay
        ensures Lookup(items, k) == ItemOf(history, k, multiplier, maxDelay)
      {
        InsertionsAfter(h, Expired(key), k);
        ItemAfter(h, Expired(key), k, multiplier, maxDelay);
      }
    }

    /** A key is blocked exactly until the window of its last insertion ends, unless
        it was force-expired or removed. */
    predicate Contains(key: T, now: nat)
      requires Valid()
      reads this
      ensures Contains(key, now) <==>
              && Insertions(history, key) > 0
              && !ForceExpired(history, key)
              && now < LastInsertion(history, key) + CalculateDelay(CountOf(history, key), multiplier, maxDelay)
    {
      assert Lookup(items, key) == ItemOf(history, key, multiplier, maxDelay);
      key in items && Elapsed(items[key].insertionTime, now) < items[key].duration
    }

    /** A blocked key was blocked at every earlier time, and every key is free from
        some time on: at the latest a maximal delay after its last insertion. */
    lemma WindowCloses(key: T, now: nat, earlier: nat)
      requires Valid()
      ensures earlier <= now && Contains(key, now) ==> Contains(key, earlier)
      ensures now >= LastInsertion(history, key) + maxDelay ==> !Contains(key, now)
    {
    }

    /** The number of failures after the first, capped at 255, since the last removal. */
    function FailureCount(key: T): (count: Option<nat>)
      requires Valid()
      reads this
      ensures count == if Insertions(history, key) == 0 then None else Some(Min(Insertions(history, key) - 1, 255))
    {
      assert Lookup(items, key) == ItemOf(history, key, multiplier, maxDelay);
      if key in items then Some(items[key].failureCount) else None
    }
  }
}
