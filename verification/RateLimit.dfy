/**
  The fixed-window rate limiter for one key: a counter that is incremented, given
  an expiry by whoever created it, and forgotten when it expires. The two Redis
  calls of one request are separate steps, so requests interleave between them.
 */
module RateLimit {
  import opened Models

  /** A live counter; it has no expiry until the request that created it sets one. */
  datatype Counter = Counter(count: nat, expiry: Option<real>)

  /** One increment: when, in which counter's lifetime, and the value it returned. */
  datatype Hit = Hit(time: real, life: nat, value: nat)

  /** All increments so far, the latest last. */
  datatype Hits = NoHits | Then(earlier: Hits, last: Hit) {
    /** The newest lifetime; lifetimes are numbered from 1. */
    function Life(): nat {
      if NoHits? then 0 else last.life
    }

    predicate Has(h: Hit) {
      Then? && (h == last || earlier.Has(h))
    }
  }

  datatype Limiter = Limiter(clock: real, counter: Option<Counter>, hits: Hits)

  const IDLE := Limiter(0.0, None, NoHits)

  datatype LimitEvent =
    | Incr(time: real, first: bool)    // first: no counter is alive, so a new one starts
    | Expire(time: real)               // the creator of the counter sets its expiry

  /** A counter is gone after its expiry and alive before; at that instant it may be either. */
  ghost predicate Possible(l: Limiter, e: LimitEvent) {
    && l.clock <= e.time
    && match e
       case Incr(time, first) =>
         if first then l.counter.None? || (l.counter.value.expiry.Some? && l.counter.value.expiry.value <= time)
         else l.counter.Some? && (l.counter.value.expiry.Some? ==> time <= l.counter.value.expiry.value)
       case Expire(time) => l.counter.Some? && l.counter.value.expiry.None?
  }

  function Next(l: Limiter, e: LimitEvent, window: real): Limiter {
    match e
    case Incr(time, first) =>
      if first || l.counter.None? then
        Limiter(time, Some(Counter(1, None)), Then(l.hits, Hit(time, l.hits.Life() + 1, 1)))
      else
        var c := l.counter.value;
        Limiter(time, Some(c.(count := c.count + 1)), Then(l.hits, Hit(time, l.hits.Life(), c.count + 1)))
    case Expire(time) =>
      l.(clock := time,
         counter := if l.counter.Some? then Some(l.counter.value.(expiry := Some(time + window))) else None)
  }

  ghost predicate IsLimitRun(es: seq<LimitEvent>, window: real) {
    es == [] || (IsLimitRun(es[..|es| - 1], window) && Possible(After(es[..|es| - 1], window), es[|es| - 1]))
  }

  function After(es: seq<LimitEvent>, window: real): Limiter {
    if es == [] then IDLE else Next(After(es[..|es| - 1], window), es[|es| - 1], window)
  }

  /** The request behind a hit is let through. */
  predicate Admitted(h: Hit, limit: int) {
    h.value <= limit
  }

  predicate InWindow(h: Hit, from: real, window: real) {
    from <= h.time < from + window
  }

  /** The hits of one lifetime. */
  function Requests(hits: Hits, life: nat): nat {
    if hits.NoHits? then 0 else Requests(hits.earlier, life) + if hits.last.life == life then 1 else 0
  }

  /** The admitted hits of one lifetime, counting from the one that returned `low`. */
  function AdmittedInLife(hits: Hits, life: nat, low: nat, limit: int): nat {
    if hits.NoHits? then 0
    else
      AdmittedInLife(hits.earlier, life, low, limit) +
      if hits.last.life == life && low <= hits.last.value && Admitted(hits.last, limit) then 1 else 0
  }

  /** Admitted requests at times in [from, from + window). */
  function AdmittedWithin(hits: Hits, from: real, window: real, limit: int): nat {
    if hits.NoHits? then 0
    else
      AdmittedWithin(hits.earlier, from, window, limit) +
      if InWindow(hits.last, from, window) && Admitted(hits.last, limit) then 1 else 0
  }

  /** Within each lifetime the increments returned 1, 2, 3, ... */
  ghost predicate Numbered(hits: Hits) {
    hits.NoHits? || (Numbered(hits.earlier) && hits.last.value == Requests(hits, hits.last.life))
  }

  /** A lifetime lasts a window from its first hit, so later lifetimes are that far from it and from all before it. */
  ghost predicate Spaced(hits: Hits, window: real) {
    forall g, h | hits.Has(g) && hits.Has(h) && g.life < h.life && (g.value == 1 || g.life + 1 < h.life)
      :: g.time + window <= h.time
  }

  /** The clock, and the lifetimes counted so far, bound every hit. */
  ghost predicate Bounded(l: Limiter) {
    forall h :: l.hits.Has(h) ==> h.time <= l.clock && 1 <= h.life <= l.hits.Life()
  }

  /** Once its expiry is set, the counter outlives every earlier lifetime, and its own first hit, by a window. */
  ghost predicate ExpiryIsLate(hits: Hits, expiry: real, window: real) {
    forall h :: hits.Has(h) && (h.life < hits.Life() || h.value == 1) ==> h.time + window <= expiry
  }

  /** What every run keeps. */
  ghost predicate LimitInv(l: Limiter, window: real) {
    && Bounded(l) && Numbered(l.hits) && Spaced(l.hits, window)
    && (l.counter.Some? ==> l.hits.Then? && l.counter.value.count == Requests(l.hits, l.hits.Life()))
    && (l.counter.Some? && l.counter.value.expiry.Some? ==> ExpiryIsLate(l.hits, l.counter.value.expiry.value, window))
    && (l.counter.None? ==> l.hits.NoHits?)
  }

  lemma {:induction false} NoRequestsYet(hits: Hits, life: nat)
    requires forall h :: hits.Has(h) ==> h.life < life
    ensures Requests(hits, life) == 0
  {
    if hits.Then? {
      NoRequestsYet(hits.earlier, life);
    }
  }

  lemma LimitStep(l: Limiter, e: LimitEvent, window: real)
    requires LimitInv(l, window) && Possible(l, e)
    ensures LimitInv(Next(l, e, window), window)
  {
    if e.Incr? && e.first {
      NoRequestsYet(l.hits, l.hits.Life() + 1);
    }
  }

  lemma {:induction false} LimitAlways(es: seq<LimitEvent>, window: real)
    requires IsLimitRun(es, window)
    ensures LimitInv(After(es, window), window)
  {
    if es != [] {
      LimitAlways(es[..|es| - 1], window);
      LimitStep(After(es[..|es| - 1], window), es[|es| - 1], window);
    }
  }

  /** How many of the values 1..requests lie within low..limit. */
  function InBounds(requests: nat, low: nat, limit: int): nat
    requires low >= 1
  {
    var top := if requests < limit then requests else limit;
    if top < low then 0 else top - low + 1
  }

  /** A lifetime whose hits are numbered 1, 2, 3, ... admits exactly its first `limit`. */
  lemma {:induction false} LifeAdmits(hits: Hits, life: nat, low: nat, limit: int)
    requires Numbered(hits) && low >= 1
    ensures AdmittedInLife(hits, life, low, limit) == InBounds(Requests(hits, life), low, limit)
  {
    if hits.Then? {
      LifeAdmits(hits.earlier, life, low, limit);
    }
  }

  lemma {:induction false} ValuesArePositive(hits: Hits)
    requires Numbered(hits)
    ensures forall h :: hits.Has(h) ==> h.value >= 1
  {
    if hits.Then? {
      ValuesArePositive(hits.earlier);
    }
  }

  /** An interval that meets only two lifetimes, the first from value `low` on, admits no more than they do. */
  lemma {:induction false} WithinTwoLives(hits: Hits, from: real, window: real, limit: int, life: nat, low: nat)
    requires forall h :: hits.Has(h) && InWindow(h, from, window) ==>
               h.life == life + 1 || (h.life == life && low <= h.value)
    requires forall h :: hits.Has(h) ==> h.value >= 1
    ensures AdmittedWithin(hits, from, window, limit) <=
              AdmittedInLife(hits, life, low, limit) + AdmittedInLife(hits, life + 1, 1, limit)
  {
    if hits.Then? {
      WithinTwoLives(hits.earlier, from, window, limit, life, low);
      assert hits.Has(hits.last);
    }
  }

  lemma {:induction false} WithinOneLife(hits: Hits, from: real, window: real, limit: int, life: nat)
    requires forall h :: hits.Has(h) && InWindow(h, from, window) ==> h.life == life
    requires forall h :: hits.Has(h) ==> h.value >= 1
    ensures AdmittedWithin(hits, from, window, limit) <= AdmittedInLife(hits, life, 1, limit)
  {
    if hits.Then? {
      WithinOneLife(hits.earlier, from, window, limit, life);
      assert hits.Has(hits.last);
    }
  }

  /** The first hit of the interval that belongs to the earliest lifetime it meets, if it meets any. */
  lemma {:induction false} EarliestLife(hits: Hits, from: real, window: real) returns (found: Option<Hit>)
    ensures found.None? ==> forall h :: hits.Has(h) ==> !InWindow(h, from, window)
    ensures found.Some? ==> hits.Has(found.value) && InWindow(found.value, from, window)
    ensures found.Some? ==> forall h :: hits.Has(h) && InWindow(h, from, window) ==> found.value.life <= h.life
  {
    found := None;
    if hits.Then? {
      found := EarliestLife(hits.earlier, from, window);
      if InWindow(hits.last, from, window) && (found.None? || hits.last.life < found.value.life) {
        found := Some(hits.last);
      }
    }
  }

  lemma HitsBound(hits: Hits, from: real, window: real, limit: int)
    requires Numbered(hits) && Spaced(hits, window)
    ensures AdmittedWithin(hits, from, window, limit) <= if limit >= 1 then 2 * limit - 1 else 0
  {
    ValuesArePositive(hits);
    var found := EarliestLife(hits, from, window);
    var life := if found.Some? then found.value.life else 0;
    LifeAdmits(hits, life, 1, limit);
    LifeAdmits(hits, life, 2, limit);
    LifeAdmits(hits, life + 1, 1, limit);
    if later :| hits.Has(later) && InWindow(later, from, window) && later.life == life + 1 {
      WithinTwoLives(hits, from, window, limit, life, 2);
    } else {
      WithinOneLife(hits, from, window, limit, life);
    }
  }

  /** Each counter lifetime admits exactly min(limit, requests), over every timed run. */
  lemma LifetimeAdmitsExactly(es: seq<LimitEvent>, window: real, limit: int, life: nat)
    requires IsLimitRun(es, window)
    ensures var hits := After(es, window).hits;
            var requests := Requests(hits, life);
            AdmittedInLife(hits, life, 1, limit) ==
              if limit < 1 then 0 else if requests < limit then requests else limit
  {
    LimitAlways(es, window);
    LifeAdmits(After(es, window).hits, life, 1, limit);
  }

  /**
    Any half-open interval as long as the window admits at most 2 * limit - 1
    requests: a burst at a boundary can use two lifetimes, but then the interval
    misses the first request of the earlier one.
   */
  lemma WindowBound(es: seq<LimitEvent>, window: real, limit: int, from: real)
    requires IsLimitRun(es, window)
    ensures AdmittedWithin(After(es, window).hits, from, window, limit) <= if limit >= 1 then 2 * limit - 1 else 0
  {
    LimitAlways(es, window);
    HitsBound(After(es, window).hits, from, window, limit);
  }

  /** A run extended by one event. */
  lemma Append(es: seq<LimitEvent>, e: LimitEvent, window: real) returns (longer: seq<LimitEvent>)
    requires IsLimitRun(es, window) && Possible(After(es, window), e)
    ensures IsLimitRun(longer, window) && After(longer, window) == Next(After(es, window), e, window)
  {
    longer := es + [e];
    assert longer[..|longer| - 1] == es;
  }

  /** A run that leaves a counter alive at `time`, with what the interval has admitted so far. */
  ghost predicate Shows(es: seq<LimitEvent>, window: real, from: real, limit: int, time: real, count: nat,
                        expiry: real, admitted: nat)
  {
    IsLimitRun(es, window) &&
    var l := After(es, window);
    && l.clock <= time <= expiry && l.counter == Some(Counter(count, Some(expiry)))
    && AdmittedWithin(l.hits, from, window, limit) == admitted
  }

  /** n more requests at one time on a counter that is alive. */
  lemma {:induction false} Burst(es: seq<LimitEvent>, window: real, limit: int, from: real, time: real,
                                 count: nat, expiry: real, admitted: nat, n: nat)
    returns (longer: seq<LimitEvent>)
    requires Shows(es, window, from, limit, time, count, expiry, admitted)
    requires from <= time < from + window && count + n <= limit
    ensures Shows(longer, window, from, limit, time, count + n, expiry, admitted + n)
  {
    longer := es;
    if n > 0 {
      longer := Burst(es, window, limit, from, time, count, expiry, admitted, n - 1);
      longer := Append(longer, Incr(time, false), window);
    }
  }

  /** A new counter: its first request and the setting of its expiry. */
  lemma Open(es: seq<LimitEvent>, window: real, limit: int, from: real, time: real, admitted: nat)
    returns (longer: seq<LimitEvent>)
    requires IsLimitRun(es, window) && Possible(After(es, window), Incr(time, true)) && window > 0.0 && limit >= 1
    requires AdmittedWithin(After(es, window).hits, from, window, limit) == admitted
    ensures Shows(longer, window, from, limit, time, 1, time + window,
                  admitted + if from <= time < from + window then 1 else 0)
  {
    longer := Append(es, Incr(time, true), window);
    longer := Append(longer, Expire(time), window);
  }

  /** The bound is attained for every positive limit and window: half a window into a counter, and at its end. */
  lemma WindowBoundIsTight(window: real, limit: nat) returns (es: seq<LimitEvent>, from: real)
    requires window > 0.0 && limit >= 1
    ensures IsLimitRun(es, window) && AdmittedWithin(After(es, window).hits, from, window, limit) == 2 * limit - 1
  {
    from := window / 2.0;
    es := Open([], window, limit, from, 0.0, 0);
    assert Shows(es, window, from, limit, from, 1, 0.0 + window, 0);
    es := Burst(es, window, limit, from, from, 1, 0.0 + window, 0, limit - 1);
    es := Open(es, window, limit, from, window, limit - 1);
    es := Burst(es, window, limit, from, window, 1, window + window, limit, limit - 1);
  }

  /** The Redis calls of a request. */
  datatype Command = Incrementing | Expiring | AskingTtl

  /** The limiter's counters, one per client key. */
  class Counters {
    const limit: int
    const window: real
    const reliable: bool        // no Redis call fails but those that are down
    const down: set<Command>    // these fail without effect whenever they are tried
    var limiters: map<string, Limiter>

    constructor (limit: int, window: real, reliable: bool, down: set<Command>)
      ensures this.limit == limit && this.window == window && this.reliable == reliable && this.down == down
      ensures limiters == map[]
    {
      this.limit, this.window, this.reliable, this.down, limiters := limit, window, reliable, down, map[];
    }

    function Of(key: string): Limiter
      reads this
    {
      if key in limiters then limiters[key] else IDLE
    }

    /**
      One request at `now`, whose second call, if it makes one, happens at `later`. The
      steps are possible steps of the key's limiter, the answer is that of its hit, and
      no other key is touched. A failed call is reported instead of an answer, whether or
      not it took effect.
     */
    method Allow(key: string, now: real, later: real) returns (allowed: bool, failed: bool, ghost first: bool)
      requires Of(key).clock <= now <= later
      modifies this
      ensures forall other :: other != key ==> Of(other) == old(Of(other))
      ensures Of(key) != old(Of(key)) ==>
                Possible(old(Of(key)), Incr(now, first)) &&
                var hit := Next(old(Of(key)), Incr(now, first), window);
                (Of(key) == hit || (hit.counter.value.count == 1 && Of(key) == Next(hit, Expire(later), window)))
      ensures !failed ==>
                var hit := Next(old(Of(key)), Incr(now, first), window);
                && Possible(old(Of(key)), Incr(now, first))
                && Of(key) == (if hit.counter.value.count == 1 then Next(hit, Expire(later), window) else hit)
                && (allowed <==> Admitted(hit.hits.last, limit))
      ensures failed ==> !allowed
      ensures reliable ==>
                var hit := Next(old(Of(key)), Incr(now, first), window);
                if Incrementing in down then failed && Of(key) == old(Of(key))
                else if hit.counter.value.count == 1 && Expiring in down then failed && Of(key) == hit
                else (failed <==> hit.counter.value.count > limit && AskingTtl in down)
    {
      allowed, failed, first := false, true, false;
      var fault := Fails(reliable, Incrementing in down);
      if fault {
        return;
      }
      var before := Of(key);
      var expired: bool := *;
      var gone := before.counter.None? ||
                  (before.counter.value.expiry.Some? &&
                   (before.counter.value.expiry.value < now || (before.counter.value.expiry.value == now && expired)));
      first := gone;
      var hit := Next(before, Incr(now, gone), window);
      limiters := limiters[key := hit];
      var replyLost := Fails(reliable);
      if replyLost {
        return;
      }
      var count := hit.counter.value.count;
      if count == 1 {
        fault := Fails(reliable, Expiring in down);
        if fault {
          return;
        }
        limiters := limiters[key := Next(hit, Expire(later), window)];
        replyLost := Fails(reliable);
        if replyLost {
          return;
        }
      }
      if count > limit {
        fault := Fails(reliable, AskingTtl in down);
        if fault {
          return;
        }
        return false, false, first;
      }
      return true, false, first;
    }
  }
}
