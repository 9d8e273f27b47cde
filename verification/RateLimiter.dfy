/**
 The limiter object of internal/httpapp/ratelimit.go: a table of bucket objects updated in place.
 `Allow` is proved to be the function RateLimit.Allow on the table's value, so every theorem about
 histories holds of the object.
 */
module RateLimiter {
  import L = RateLimit

  class Bucket {
    var tokens: real
    var seen: L.Time

    constructor (tokens: real, seen: L.Time)
      ensures this.tokens == tokens && this.seen == seen
    {
      this.tokens, this.seen := tokens, seen;
    }

    ghost function Value(): L.Bucket
      reads this
    {
      L.Bucket(tokens, seen)
    }
  }

  class Limiter {
    const p: L.Params
    var buckets: map<string, Bucket>

    /** No two keys share a bucket. */
    ghost predicate Valid()
      reads this
    {
      forall a, b :: a in buckets && b in buckets && a != b ==> buckets[a] != buckets[b]
    }

    ghost function Table(): L.Table
      reads this, buckets.Values
    {
      map key | key in buckets :: buckets[key].Value()
    }

    constructor (rate: real, burst: real)
      ensures Valid() && p == L.Params(rate, burst) && Table() == map[]
    {
      p := L.Params(rate, burst);
      buckets := map[];
    }

    method Allow(key: string, now: L.Time) returns (ok: bool)
      requires Valid()
      modifies this, buckets.Values
      ensures Valid()
      ensures fresh(buckets.Values - old(buckets.Values))
      ensures (ok, Table()) == L.Allow(p, true, old(Table()), key, now)
    {
      if p.rate <= 0.0 {
        return true;
      }
      var b := Open(key, now);
      ghost var table := Table();
      if b.tokens < 1.0 {
        TableIs(table[key := b.Value()]);
        return false;
      }
      b.tokens := b.tokens - 1.0;
      TableIs(table[key := b.Value()]);
      return true;
    }

    /** Refills the bucket of the key, or sweeps and makes a new one. */
    method Open(key: string, now: L.Time) returns (b: Bucket)
      requires Valid() && p.rate > 0.0
      modifies this, buckets.Values
      ensures Valid() && key in buckets && buckets[key] == b
      ensures fresh(buckets.Values - old(buckets.Values))
      ensures Table() == L.Opened(p, true, old(Table()), key, now)
    {
      if key !in buckets {
        SweepLocked(now);
        ghost var kept := Table();
        b := new Bucket(p.burst, now);
        buckets := buckets[key := b];
        TableIs(kept[key := b.Value()]);
      } else {
        b := buckets[key];
        b.tokens := b.tokens + (now - b.seen) as real / L.SECOND * p.rate;
        if b.tokens > p.burst {
          b.tokens := p.burst;
        }
        b.seen := now;
        TableIs(old(Table())[key := L.Refilled(p, old(Table())[key], now)]);
      }
    }

    lemma TableIs(table: L.Table)
      requires table.Keys == buckets.Keys
      requires forall key :: key in buckets ==> table[key] == buckets[key].Value()
      ensures Table() == table
    {
    }

    /** Discards exactly the buckets idle for longer than the sweep tolerates. */
    method SweepLocked(now: L.Time)
      requires Valid()
      modifies this
      ensures Valid() && buckets.Values <= old(buckets.Values)
      ensures Table() == if p.rate > 0.0 then L.Swept(p, old(Table()), now) else old(Table())
    {
      if p.rate <= 0.0 {
        return;
      }
      var idle := L.Truncated(p.burst / p.rate * L.SECOND) + L.MINUTE;
      var pending := buckets.Keys;
      ghost var all := buckets;
      while pending != {}
        invariant pending <= buckets.Keys <= all.Keys
        invariant forall key :: key in buckets ==> buckets[key] == all[key]
        invariant forall key :: key in all && key !in pending ==> (key in buckets <==> now - all[key].seen <= idle)
        decreases pending
      {
        var key :| key in pending;
        pending := pending - {key};
        if now - buckets[key].seen > idle {
          buckets := buckets - {key};
        }
      }
      TableIs(L.Swept(p, old(Table()), now));
    }
  }
}
