/**
 * The fixed-window, per-API-key rate limiter behind the HTTP transport
 * (`_FixedWindowLimiter`). Each call stamps a global sequence number, sweeps
 * entries idle for `ttlWindows` windows, evicts the least recently used entry
 * when a new key arrives at capacity, resets a stale window's count, and then
 * allows (counting the request) or denies (reporting the seconds until the
 * window ends).
 *
 * Keys are the HMAC/SHA-256 digests of the API keys; the digest is taken to be
 * collision-free, so the model keys entries by the digest string it is given.
 * Time is whole seconds (`now: int`).
 */
module RateLimit {
  import opened Sorting

  /** One key's bookkeeping (`_Entry`). */
  datatype Entry = Entry(windowStart: int, count: int, lastSeenWindow: int, lastUsedSeq: int)

  function Max(a: int, b: int): int { if a >= b then a else b }

  /** `int(now // window_s) * window_s`: the start of the window holding `now`. */
  function WindowStart(now: int, windowS: int): (ws: int)
    requires windowS > 0
    ensures ws <= now < ws + windowS
  {
    FloorDivision(now, windowS);
    (now / windowS) * windowS
  }

  lemma FloorDivision(n: int, d: int)
    requires d > 0
    ensures (n / d) * d <= n < (n / d) * d + d
  {
    var q, r := n / d, n % d;
    assert n == d * q + r && 0 <= r < d;
    assert q * d == d * q;
  }

  /** The TTL test of the sweep: idle for at least `ttlWindows` whole windows. */
  predicate Expired(e: Entry, ws: int, windowS: int, ttlWindows: int)
    requires windowS > 0
  {
    (ws - e.lastSeenWindow) / windowS >= ttlWindows
  }

  /** The entries that survive the TTL sweep, unchanged. */
  function Sweep(m: map<string, Entry>, ws: int, windowS: int, ttlWindows: int): map<string, Entry>
    requires windowS > 0
  {
    map k | k in m && !Expired(m[k], ws, windowS, ttlWindows) :: m[k]
  }

  /** `(m[a].lastUsedSeq, a) < (m[b].lastUsedSeq, b)`, the eviction order. */
  predicate UsedBefore(m: map<string, Entry>, a: string, b: string)
    requires a in m && b in m
  {
    m[a].lastUsedSeq < m[b].lastUsedSeq
    || (m[a].lastUsedSeq == m[b].lastUsedSeq && StrLt(a, b))
  }

  /** `v` is the minimum of the entries by `(last_used_seq, key)`. */
  ghost predicate IsLru(m: map<string, Entry>, v: string)
  {
    v in m && forall k :: k in m && k != v ==> UsedBefore(m, v, k)
  }

  /** Every count lies in `[0, max(limit, 0)]` and every stamp is at most `stamp`. */
  ghost predicate Bounded(m: map<string, Entry>, limit: int, stamp: int)
  {
    forall k :: k in m ==> 0 <= m[k].count <= Max(limit, 0) && m[k].lastUsedSeq <= stamp
  }

  /** The entry as it stands before the limit test: fresh, or reset and stamped. */
  function Stamped(m: map<string, Entry>, digest: string, ws: int, stamp: int): Entry
  {
    if digest in m then Restamped(m[digest], ws, stamp) else Entry(ws, 0, ws, stamp)
  }

  /** An existing entry moved into window `ws` (count reset if the window changed) and stamped. */
  function Restamped(e: Entry, ws: int, stamp: int): Entry
  {
    Entry(ws, if e.windowStart != ws then 0 else e.count, ws, stamp)
  }

  /** The entry after the limit test. */
  function Admitted(e: Entry, limit: int): Entry
  {
    if e.count >= limit then e else e.(count := e.count + 1)
  }

  lemma {:induction false} UsedBeforeTrans(m: map<string, Entry>, a: string, b: string, c: string)
    requires a in m && b in m && c in m
    requires UsedBefore(m, a, b) && UsedBefore(m, b, c)
    ensures UsedBefore(m, a, c)
  {
    if m[a].lastUsedSeq == m[b].lastUsedSeq == m[c].lastUsedSeq {
      StrLtTrans(a, b, c);
    }
  }

  lemma UsedBeforeTotal(m: map<string, Entry>, a: string, b: string)
    requires a in m && b in m && a != b
    ensures UsedBefore(m, a, b) || UsedBefore(m, b, a)
  {
    StrLtTotal(a, b);
  }

  /** The eviction victim is determined: there is exactly one least entry. */
  lemma LruUnique(m: map<string, Entry>, a: string, b: string)
    requires IsLru(m, a) && IsLru(m, b)
    ensures a == b
  {
    if a != b {
      assert UsedBefore(m, a, b) && UsedBefore(m, b, a);
      if m[a].lastUsedSeq == m[b].lastUsedSeq {
        StrLtAsym(a, b);
      }
    }
  }

  /** `min(entries.items(), key=(last_used_seq, key))[0]`. */
  method LeastRecentlyUsed(m: map<string, Entry>) returns (v: string)
    requires |m| > 0
    ensures IsLru(m, v)
  {
    var keys := m.Keys;
    v :| v in keys;
    keys := keys - {v};
    while keys != {}
      invariant keys <= m.Keys && v in m && v !in keys
      invariant forall k :: k in m && k !in keys && k != v ==> UsedBefore(m, v, k)
      decreases keys
    {
      var k :| k in keys;
      if UsedBefore(m, k, v) {
        forall j | j in m && j !in keys && j != k
          ensures UsedBefore(m, k, j)
        {
          if j != v { UsedBeforeTrans(m, k, v, j); }
        }
        v := k;
      } else {
        UsedBeforeTotal(m, k, v);
      }
      keys := keys - {k};
    }
  }

  lemma MapRemoveSize(m: map<string, Entry>, v: string)
    requires v in m
    ensures |m - {v}| == |m| - 1
  {
    assert (m - {v}).Keys == m.Keys - {v};
  }

  lemma MapAddSize(m: map<string, Entry>, d: string, e: Entry)
    requires d !in m
    ensures |m[d := e]| == |m| + 1
  {
    assert m[d := e].Keys == m.Keys + {d};
  }

  lemma SweepSize(m: map<string, Entry>, ws: int, windowS: int, ttlWindows: int)
    requires windowS > 0
    ensures |Sweep(m, ws, windowS, ttlWindows)| <= |m|
  {
    var s := Sweep(m, ws, windowS, ttlWindows);
    assert s.Keys <= m.Keys;
    SubsetSize(s.Keys, m.Keys);
  }

  lemma {:induction false} SubsetSize(a: set<string>, b: set<string>)
    requires a <= b
    ensures |a| <= |b|
    decreases b
  {
    if a != {} {
      var x :| x in a;
      SubsetSize(a - {x}, b - {x});
    }
  }

  /**
   * `entries` is the swept table `swept` after the caller's entry became
   * `entry`: every other surviving key keeps its entry, and the only key
   * dropped is the least recently used one, when a new key arrived at capacity.
   */
  ghost predicate NewTable(swept: map<string, Entry>, entries: map<string, Entry>, digest: string, entry: Entry, maxKeys: int)
  {
    && digest in entries && entries[digest] == entry
    && (forall k :: k in entries && k != digest ==> k in swept && entries[k] == swept[k])
    && (digest in swept || |swept| < maxKeys ==> swept.Keys <= entries.Keys)
    && (digest !in swept && |swept| >= maxKeys ==>
          exists v :: IsLru(swept, v) && entries.Keys == swept.Keys - {v} + {digest})
  }

  /** The lookup and the limit test together leave the table `NewTable` describes. */
  lemma AdmittedTable(swept: map<string, Entry>, admitted: map<string, Entry>, entries: map<string, Entry>,
                      digest: string, created: Entry, entry: Entry, victim: string, maxKeys: int)
    requires digest in swept ==> admitted == swept
    requires digest !in swept && |swept| < maxKeys ==> admitted == swept[digest := created]
    requires digest !in swept && |swept| >= maxKeys ==> IsLru(swept, victim) && admitted == (swept - {victim})[digest := created]
    requires entries == admitted[digest := entry]
    ensures NewTable(swept, entries, digest, entry, maxKeys)
  {
    if digest !in swept && |swept| >= maxKeys {
      assert entries.Keys == swept.Keys - {victim} + {digest};
    }
  }

  class FixedWindowLimiter {
    const limit: int
    const windowS: int
    const maxKeys: int
    const ttlWindows: int
    var entries: map<string, Entry>
    var seqNo: int

    /**
     * The limiter's invariant: the table never exceeds `maxKeys`, no count
     * exceeds the limit (or 0 when the limit is not positive), and every
     * stamp is a sequence number already handed out.
     */
    ghost predicate Valid()
      reads this
    {
      windowS > 0 && maxKeys >= 1 && |entries| <= maxKeys && Bounded(entries, limit, seqNo)
    }

    constructor (limit: int, windowS: int, maxKeys: int, ttlWindows: int)
      requires windowS > 0 && maxKeys >= 1
      ensures Valid()
      ensures this.limit == limit && this.windowS == windowS
      ensures this.maxKeys == maxKeys && this.ttlWindows == ttlWindows
      ensures entries == map[] && seqNo == 0
    {
      this.limit := limit;
      this.windowS := windowS;
      this.maxKeys := maxKeys;
      this.ttlWindows := ttlWindows;
      entries := map[];
      seqNo := 0;
    }

    /** `reset_epoch`: the end of the window holding `now`. */
    function ResetEpoch(now: int): (r: int)
      requires windowS > 0
      ensures r - windowS <= now < r
    {
      WindowStart(now, windowS) + windowS
    }

    /** The TTL sweep, deleting every idle entry. */
    method SweepIdle(ws: int)
      requires windowS > 0
      modifies this
      ensures entries == Sweep(old(entries), ws, windowS, ttlWindows)
      ensures seqNo == old(seqNo)
    {
      var toDelete: set<string> := {};
      var keys := entries.Keys;
      while keys != {}
        invariant keys <= entries.Keys
        invariant toDelete == set k | k in entries.Keys - keys && Expired(entries[k], ws, windowS, ttlWindows)
        decreases keys
      {
        var k :| k in keys;
        if Expired(entries[k], ws, windowS, ttlWindows) {
          toDelete := toDelete + {k};
        }
        keys := keys - {k};
      }
      ghost var start := entries;
      ghost var doomed := toDelete;
      while toDelete != {}
        invariant toDelete <= doomed
        invariant entries == start - (doomed - toDelete)
        invariant seqNo == old(seqNo)
        decreases toDelete
      {
        var k :| k in toDelete;
        entries := entries - {k};
        toDelete := toDelete - {k};
      }
      assert entries == start - doomed;
      assert entries == Sweep(start, ws, windowS, ttlWindows);
    }

    /**
     * The lookup of `check_and_increment`: a key that is not in the table
     * gets a fresh entry, evicting the least recently used entry first when
     * the table is full.
     */
    method AdmitKey(digest: string, ws: int, stamp: int) returns (ghost victim: string)
      requires maxKeys >= 1 && |entries| <= maxKeys
      requires Bounded(entries, limit, stamp)
      modifies this
      ensures seqNo == old(seqNo)
      ensures |entries| <= maxKeys && Bounded(entries, limit, stamp)
      ensures digest in entries
      ensures entries[digest] == if digest in old(entries) then old(entries)[digest] else Entry(ws, 0, ws, stamp)
      ensures forall k :: k in entries && k != digest ==> k in old(entries) && entries[k] == old(entries)[k]
      ensures digest in old(entries) ==> entries == old(entries)
      ensures digest !in old(entries) && |old(entries)| < maxKeys ==>
        entries == old(entries)[digest := Entry(ws, 0, ws, stamp)]
      ensures digest !in old(entries) && |old(entries)| >= maxKeys ==>
        IsLru(old(entries), victim) && entries == (old(entries) - {victim})[digest := Entry(ws, 0, ws, stamp)]
    {
      victim := digest;
      if digest !in entries {
        if |entries| >= maxKeys {
          var lru := LeastRecentlyUsed(entries);
          victim := lru;
          MapRemoveSize(entries, lru);
          entries := entries - {lru};
        }
        MapAddSize(entries, digest, Entry(ws, 0, ws, stamp));
        entries := entries[digest := Entry(ws, 0, ws, stamp)];
      }
    }

    /**
     * `check_and_increment(key, now)`, returning (allowed, remaining,
     * retry_after). The new table is the swept table, less the evicted entry
     * when a new key arrives at capacity, with the caller's entry stamped and
     * possibly counted.
     */
    method CheckAndIncrement(digest: string, now: int) returns (allowed: bool, remaining: int, retryAfter: int)
      requires Valid()
      modifies this
      ensures Valid()
      ensures seqNo == old(seqNo) + 1
      ensures
        var ws := WindowStart(now, windowS);
        var swept := Sweep(old(entries), ws, windowS, ttlWindows);
        var before := Stamped(swept, digest, ws, seqNo);
        && (allowed <==> before.count < limit)
        && NewTable(swept, entries, digest, Admitted(before, limit), maxKeys)
        && (allowed ==> remaining == Max(limit - Admitted(before, limit).count, 0) && retryAfter == 0)
        && (!allowed ==> remaining == 0 && retryAfter == Max(ws + windowS - now, 1))
    {
      seqNo := seqNo + 1;
      var s := seqNo;
      var ws := WindowStart(now, windowS);
      SweepIdle(ws);
      ghost var swept := entries;
      SweepSize(old(entries), ws, windowS, ttlWindows);
      ghost var victim := AdmitKey(digest, ws, s);
      ghost var admitted := entries;
      ghost var before := Stamped(swept, digest, ws, s);
      assert before == Restamped(admitted[digest], ws, s);
      allowed, remaining, retryAfter := Charge(digest, ws, s, now);
      AdmittedTable(swept, admitted, entries, digest, Entry(ws, 0, ws, s), Admitted(before, limit), victim, maxKeys);
    }

    /**
     * The tail of `check_and_increment`: move the caller's entry into the
     * current window, stamp it, and count the request if the limit allows.
     */
    method Charge(digest: string, ws: int, stamp: int, now: int) returns (allowed: bool, remaining: int, retryAfter: int)
      requires digest in entries && Bounded(entries, limit, stamp)
      modifies this
      ensures seqNo == old(seqNo)
      ensures Bounded(entries, limit, stamp)
      ensures var before := Restamped(old(entries)[digest], ws, stamp);
        && (allowed <==> before.count < limit)
        && entries == old(entries)[digest := Admitted(before, limit)]
        && (allowed ==> remaining == Max(limit - entries[digest].count, 0) && retryAfter == 0)
        && (!allowed ==> remaining == 0 && retryAfter == Max(ws + windowS - now, 1))
    {
      var e := entries[digest];
      if e.windowStart != ws {
        e := e.(windowStart := ws, count := 0);
      }
      e := e.(lastSeenWindow := ws, lastUsedSeq := stamp);
      if e.count >= limit {
        entries := entries[digest := e];
        return false, 0, Max(e.windowStart + windowS - now, 1);
      }
      e := e.(count := e.count + 1);
      entries := entries[digest := e];
      return true, Max(limit - e.count, 0), 0;
    }
  }

  /**
   * A denied caller is told to come back when the current window ends: the
   * wait is between 1 and `windowS` seconds and lands exactly on the reset
   * epoch.
   */
  lemma RetryAfterIsResetEpoch(now: int, windowS: int)
    requires windowS > 0
    ensures var ws := WindowStart(now, windowS);
      1 <= Max(ws + windowS - now, 1) <= windowS && now + Max(ws + windowS - now, 1) == ws + windowS
  {
  }

  /** With a limit of 1 and a frozen clock, the first request passes and the second is refused. */
  method LimitOneFrozenClock(digest: string, now: int) returns (first: bool, second: bool, retryAfter: int)
    ensures first && !second
    ensures retryAfter == WindowStart(now, 60) + 60 - now
  {
    var limiter := new FixedWindowLimiter(1, 60, 10000, 10);
    var r1, a1 := 0, 0;
    first, r1, a1 := limiter.CheckAndIncrement(digest, now);
    var r2;
    second, r2, retryAfter := limiter.CheckAndIncrement(digest, now);
    RetryAfterIsResetEpoch(now, 60);
  }
}
