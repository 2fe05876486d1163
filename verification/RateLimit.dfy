/** platform/rate-limit.ts: fixed windows over a sequential KV. */
module RateLimit {
  datatype Rule = Rule(scope: string, limit: nat, windowSeconds: nat)

  /**
   The key `rate:<scope>:<subject>:<window>`; scopes hold no colon and windows are digits, so its parts are known from
   it.
   */
  datatype Key = Key(scope: string, subject: string, window: int)

  /** A KV value, parsed, and when it expires. */
  datatype Entry = Entry(count: int, expires: int)

  datatype Hit = Hit(rule: Rule, subject: string, now: int)

  const KV_MINIMUM_TTL_SECONDS := 60

  function WindowKey(rule: Rule, subject: string, now: int): Key
    requires rule.windowSeconds > 0
  {
    Key(rule.scope, subject, now / (1000 * rule.windowSeconds))
  }

  function Visible(kv: map<Key, Entry>, key: Key, now: int): int {
    if key in kv && now < kv[key].expires && kv[key].count > 0 then kv[key].count else 0
  }

  function Ttl(rule: Rule): int {
    if rule.windowSeconds + KV_MINIMUM_TTL_SECONDS > KV_MINIMUM_TTL_SECONDS
    then rule.windowSeconds + KV_MINIMUM_TTL_SECONDS else KV_MINIMUM_TTL_SECONDS
  }

  predicate Allows(kv: map<Key, Entry>, hit: Hit)
    requires hit.rule.windowSeconds > 0
  {
    Visible(kv, WindowKey(hit.rule, hit.subject, hit.now), hit.now) < hit.rule.limit
  }

  function After(kv: map<Key, Entry>, hit: Hit): map<Key, Entry>
    requires hit.rule.windowSeconds > 0
  {
    var key := WindowKey(hit.rule, hit.subject, hit.now);
    if Allows(kv, hit) then kv[key := Entry(Visible(kv, key, hit.now) + 1, hit.now + 1000 * Ttl(hit.rule))] else kv
  }

  class Limiter {
    var kv: map<Key, Entry>

    constructor ()
      ensures kv == map[]
    {
      kv := map[];
    }

    /** False stands for the 429 that is thrown. */
    method EnforceRateLimit(rule: Rule, subject: string, now: int) returns (accepted: bool)
      requires rule.windowSeconds > 0
      modifies this
      ensures accepted == Allows(old(kv), Hit(rule, subject, now))
      ensures kv == After(old(kv), Hit(rule, subject, now))
      ensures !accepted ==> kv == old(kv)
    {
      var key := WindowKey(rule, subject, now);
      var count := 0;
      if key in kv && now < kv[key].expires {
        count := if kv[key].count > 0 then kv[key].count else 0;
      }
      if count >= rule.limit {
        return false;
      }
      kv := kv[key := Entry(count + 1, now + 1000 * Ttl(rule))];
      accepted := true;
    }
  }

  // ------------------------------------------------------------------ counting

  predicate Proper(hits: seq<Hit>) {
    forall i :: 0 <= i < |hits| ==> hits[i].rule.windowSeconds > 0
  }

  function Play(hits: seq<Hit>): map<Key, Entry>
    requires Proper(hits)
    decreases |hits|
  {
    if hits == [] then map[] else After(Play(hits[..|hits| - 1]), hits[|hits| - 1])
  }

  function KeyOf(hit: Hit): Key
    requires hit.rule.windowSeconds > 0
  {
    WindowKey(hit.rule, hit.subject, hit.now)
  }

  /** The last hit of a history was let through. */
  predicate LastAccepted(hits: seq<Hit>)
    requires Proper(hits) && hits != []
  {
    Allows(Play(hits[..|hits| - 1]), hits[|hits| - 1])
  }

  /**
   Two hits under rules of one width are counted together if and only if they are of one scope and one subject and no
   end of a window lies between them.
   */
  lemma CountedTogetherIff(g: Hit, h: Hit)
    requires g.rule.windowSeconds == h.rule.windowSeconds > 0
    ensures KeyOf(g) == KeyOf(h)
            <==> g.rule.scope == h.rule.scope && g.subject == h.subject
                 && !exists w: int :: IsBetween(WindowEnd(g.rule, w), g.now, h.now)
  {
    var k := 1000 * g.rule.windowSeconds;
    InItsWindow(g.rule, g.now);
    InItsWindow(h.rule, h.now);
    var a, b := g.now / k, h.now / k;
    if a < b {
      EndsGrow(g.rule, a, b - 1);
      assert IsBetween(WindowEnd(g.rule, a), g.now, h.now);
    } else if b < a {
      EndsGrow(g.rule, b, a - 1);
      assert IsBetween(WindowEnd(g.rule, b), g.now, h.now);
    } else {
      forall w: int ensures !IsBetween(WindowEnd(g.rule, w), g.now, h.now) {
        if w < a { EndsGrow(g.rule, w, a - 1); } else { EndsGrow(g.rule, a, w); }
      }
    }
  }

  /** A window that ends at `end` holds one of the two times, and the next one the other. */
  predicate IsBetween(end: int, one: int, other: int) {
    one < end <= other || other < end <= one
  }

  lemma EndsGrow(rule: Rule, v: int, w: int)
    requires v <= w
    ensures WindowEnd(rule, v) <= WindowEnd(rule, w)
  {
    assert (w + 1) * (1000 * rule.windowSeconds) == (v + 1) * (1000 * rule.windowSeconds)
                                                    + (w - v) * (1000 * rule.windowSeconds);
    assert (w - v) * (1000 * rule.windowSeconds) >= 0;
  }

  /** How many hits on a key were let through. */
  function Accepted(hits: seq<Hit>, key: Key): nat
    requires Proper(hits)
    decreases |hits|
  {
    if hits == [] then 0
    else Accepted(hits[..|hits| - 1], key) + if KeyOf(hits[|hits| - 1]) == key && LastAccepted(hits) then 1 else 0
  }

  /** How many hits on a key there were. */
  function Made(hits: seq<Hit>, key: Key): nat
    requires Proper(hits)
    decreases |hits|
  {
    if hits == [] then 0
    else Made(hits[..|hits| - 1], key) + if KeyOf(hits[|hits| - 1]) == key then 1 else 0
  }

  /** Every hit on this key is under the same rule. */
  predicate UnderRule(hits: seq<Hit>, key: Key, rule: Rule)
    requires Proper(hits)
  {
    forall i :: 0 <= i < |hits| && KeyOf(hits[i]) == key ==> hits[i].rule == rule
  }

  function WindowEnd(rule: Rule, window: int): int {
    (window + 1) * (1000 * rule.windowSeconds)
  }

  lemma InItsWindow(rule: Rule, now: int)
    requires rule.windowSeconds > 0
    ensures var w := now / (1000 * rule.windowSeconds);
            WindowEnd(rule, w) - 1000 * rule.windowSeconds <= now < WindowEnd(rule, w)
  {
    var k := 1000 * rule.windowSeconds;
    assert now == k * (now / k) + now % k;
    assert (now / k + 1) * k == k * (now / k) + k;
  }

  /** A counter holds exactly the hits let through, and outlives its window, in whatever order the hits came. */
  lemma {:induction false} CounterIsExact(hits: seq<Hit>, key: Key, rule: Rule)
    requires Proper(hits) && UnderRule(hits, key, rule) && rule.windowSeconds > 0
    ensures var kv := Play(hits);
            if Accepted(hits, key) == 0 then key !in kv
            else key in kv && kv[key].count == Accepted(hits, key) && kv[key].expires >= WindowEnd(rule, key.window)
    decreases |hits|
  {
    if hits != [] {
      var most, last := hits[..|hits| - 1], hits[|hits| - 1];
      assert forall i :: 0 <= i < |most| ==> most[i] == hits[i];
      CounterIsExact(most, key, rule);
      InItsWindow(last.rule, last.now);
      hide WindowEnd;
      if KeyOf(last) == key {
        assert last.rule == rule;
        assert last.now + 1000 * Ttl(rule) >= WindowEnd(rule, key.window) by { OutlivesWindow(rule, last.now); }
      }
    }
  }

  lemma OutlivesWindow(rule: Rule, now: int)
    requires rule.windowSeconds > 0
    ensures now + 1000 * Ttl(rule) >= WindowEnd(rule, now / (1000 * rule.windowSeconds))
  {
    InItsWindow(rule, now);
    hide WindowEnd;
  }

  /** Main result: a window lets through its first `limit` hits and no more. */
  lemma {:induction false} WindowIsBounded(hits: seq<Hit>, key: Key, rule: Rule)
    requires Proper(hits) && UnderRule(hits, key, rule) && rule.windowSeconds > 0
    ensures Accepted(hits, key) == if Made(hits, key) < rule.limit then Made(hits, key) else rule.limit
    decreases |hits|
  {
    if hits != [] {
      var most, last := hits[..|hits| - 1], hits[|hits| - 1];
      assert forall i :: 0 <= i < |most| ==> most[i] == hits[i];
      WindowIsBounded(most, key, rule);
      CounterIsExact(most, key, rule);
      InItsWindow(last.rule, last.now);
      hide WindowEnd;
    }
  }

  /** Hits of a subject let through from `start` for one window's length. */
  function AcceptedWithin(hits: seq<Hit>, rule: Rule, subject: string, start: int): nat
    requires Proper(hits)
    decreases |hits|
  {
    if hits == [] then 0
    else
      var last := hits[|hits| - 1];
      AcceptedWithin(hits[..|hits| - 1], rule, subject, start)
      + if last.rule == rule && last.subject == subject && start <= last.now < start + 1000 * rule.windowSeconds
          && LastAccepted(hits)
        then 1 else 0
  }

  lemma Monotone(k: int, x: int, y: int)
    requires 0 < k && x + 1 <= y
    ensures k * x + k <= k * y
  {
    NonNegative(k, y - x - 1);
    assert k * (y - x - 1) == k * y - k * x - k;
  }

  lemma NonNegative(k: int, d: int)
    requires 0 < k && 0 <= d
    ensures 0 <= k * d
  {
  }

  lemma NextOrSame(k: int, w: int, v: int, a: int, b: int)
    requires 0 < k && 0 <= a < k && 0 <= b < k
    requires k * w + a <= k * v + b < k * w + a + k
    ensures v == w || v == w + 1
  {
    if v < w {
      Monotone(k, v, w);
    } else if v > w + 1 {
      Monotone(k, w, v - 1);
      Monotone(k, v - 1, v);
    }
  }

  lemma TwoWindows(rule: Rule, start: int, now: int)
    requires rule.windowSeconds > 0 && start <= now < start + 1000 * rule.windowSeconds
    ensures var w := start / (1000 * rule.windowSeconds);
            now / (1000 * rule.windowSeconds) == w || now / (1000 * rule.windowSeconds) == w + 1
  {
    var k := 1000 * rule.windowSeconds;
    Divide(start, k);
    Divide(now, k);
    NextOrSame(k, start / k, now / k, start % k, now % k);
  }

  lemma Divide(x: int, k: int)
    requires 0 < k
    ensures x == k * (x / k) + x % k && 0 <= x % k < k
  {
  }

  lemma {:induction false} IntervalIsTwoWindows(hits: seq<Hit>, rule: Rule, subject: string, start: int)
    requires Proper(hits) && rule.windowSeconds > 0
    ensures var w := start / (1000 * rule.windowSeconds);
            AcceptedWithin(hits, rule, subject, start)
            <= Accepted(hits, Key(rule.scope, subject, w)) + Accepted(hits, Key(rule.scope, subject, w + 1))
    decreases |hits|
  {
    if hits != [] {
      var most, last := hits[..|hits| - 1], hits[|hits| - 1];
      assert forall i :: 0 <= i < |most| ==> most[i] == hits[i];
      IntervalIsTwoWindows(most, rule, subject, start);
      hide Play, Allows;
      if last.rule == rule && last.subject == subject && start <= last.now < start + 1000 * rule.windowSeconds {
        TwoWindows(rule, start, last.now);
      }
    }
  }

  /** Main result: any stretch of one window's length lets through at most twice the limit. */
  lemma AnyIntervalIsBounded(hits: seq<Hit>, rule: Rule, subject: string, start: int)
    requires Proper(hits) && rule.windowSeconds > 0
    requires forall i :: 0 <= i < |hits| && hits[i].rule.scope == rule.scope ==> hits[i].rule == rule
    ensures AcceptedWithin(hits, rule, subject, start) <= 2 * rule.limit
  {
    var w := start / (1000 * rule.windowSeconds);
    IntervalIsTwoWindows(hits, rule, subject, start);
    WindowIsBounded(hits, Key(rule.scope, subject, w), rule);
    WindowIsBounded(hits, Key(rule.scope, subject, w + 1), rule);
  }

  /**
   A second hit in the same window moves the counter's end: it lies a window and a minute after the hit, not after the
   window's start.
   */
  lemma SecondHitExtends(rule: Rule, subject: string, now: int, later: int)
    requires rule.windowSeconds > 0 && rule.limit >= 2 && now < later
    requires WindowKey(rule, subject, now) == WindowKey(rule, subject, later)
    ensures var (one, two) := ([Hit(rule, subject, now)], [Hit(rule, subject, now), Hit(rule, subject, later)]);
            var key := WindowKey(rule, subject, now);
            key in Play(one) && key in Play(two)
                && Play(two)[key].expires == later + 1000 * (rule.windowSeconds + 60) > Play(one)[key].expires
  {
    var one, two := [Hit(rule, subject, now)], [Hit(rule, subject, now), Hit(rule, subject, later)];
    assert two[..1] == one && one[..0] == [];
    assert Play(one[..0]) == map[];
  }
}
