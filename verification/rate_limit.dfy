/**
 * The per-IP login rate limiter (backend/internal/middleware/ratelimit.go), as a state
 * machine over the visitor table with integer time in nanoseconds. The mutex is left out:
 * each request and each cleanup pass is one atomic step.
 */
module RateLimit {

  /** `RateLimitConfig`; durations in nanoseconds. */
  datatype Config = Config(maxRequests: int, window: int, blockTime: int)

  /** The login limiter's configuration (backend/cmd/api/main.go:93-97): 5 per 15 minutes. */
  const MINUTE: int := 60 * 1000 * 1000 * 1000
  const LOGIN: Config := Config(5, 15 * MINUTE, 15 * MINUTE)

  datatype Visitor = Visitor(lastSeen: int, count: int)

  type Visitors = map<string, Visitor>

  datatype Decision = Accept | TooManyRequests

  /** The reply to a refused request. */
  const TOO_MANY: string := "Too many login attempts. Please try again later."

  /** One request from `ip` at time `now`: the decision and the new table. */
  function Handle(cfg: Config, vs: Visitors, ip: string, now: int): (r: (Decision, Visitors))
    ensures ip !in vs ==> r == (Accept, vs[ip := Visitor(now, 1)])
    ensures ip in vs && now - vs[ip].lastSeen > cfg.window ==> r == (Accept, vs[ip := Visitor(now, 1)])
    ensures ip in vs && now - vs[ip].lastSeen <= cfg.window && vs[ip].count >= cfg.maxRequests ==>
              r == (TooManyRequests, vs)
    ensures ip in vs && now - vs[ip].lastSeen <= cfg.window && vs[ip].count < cfg.maxRequests ==>
              r == (Accept, vs[ip := Visitor(now, vs[ip].count + 1)])
    ensures forall other | other != ip :: (other in r.1 <==> other in vs) && (other in vs ==> r.1[other] == vs[other])
  {
    if ip !in vs then (Accept, vs[ip := Visitor(now, 1)])
    else
      var v := vs[ip];
      if now - v.lastSeen > cfg.window then (Accept, vs[ip := Visitor(now, 1)])
      else if v.count >= cfg.maxRequests then (TooManyRequests, vs)
      else (Accept, vs[ip := Visitor(now, v.count + 1)])
  }

  /** The cleanup pass at time `now`: forget every visitor idle for more than the window. */
  function Cleanup(cfg: Config, vs: Visitors, now: int): (r: Visitors)
    ensures forall ip :: ip in r <==> ip in vs && now - vs[ip].lastSeen <= cfg.window
    ensures forall ip | ip in r :: r[ip] == vs[ip]
  {
    map ip | ip in vs && now - vs[ip].lastSeen <= cfg.window :: vs[ip]
  }

  /** Every tracked visitor has made at least one and at most `maxRequests` counted requests. */
  predicate Inv(cfg: Config, vs: Visitors) {
    forall ip | ip in vs :: 1 <= vs[ip].count <= cfg.maxRequests
  }

  lemma HandlePreservesInv(cfg: Config, vs: Visitors, ip: string, now: int)
    requires cfg.maxRequests >= 1
    requires Inv(cfg, vs)
    ensures Inv(cfg, Handle(cfg, vs, ip, now).1)
  {
  }

  lemma CleanupPreservesInv(cfg: Config, vs: Visitors, now: int)
    requires Inv(cfg, vs)
    ensures Inv(cfg, Cleanup(cfg, vs, now))
  {
  }

  /** An event: a request from an IP, or a cleanup pass, each at a time. */
  datatype Event = Request(ip: string, at: int) | CleanupPass(at: int)

  /** Runs the events in order from table `vs`: the decisions for the requests and the final table. */
  function Run(cfg: Config, vs: Visitors, events: seq<Event>): (r: (seq<Decision>, Visitors))
    ensures |r.0| <= |events|
    decreases |events|
  {
    if events == [] then ([], vs)
    else match events[0]
      case Request(ip, at) =>
        var (d, vs') := Handle(cfg, vs, ip, at);
        var (ds, final) := Run(cfg, vs', events[1..]);
        ([d] + ds, final)
      case CleanupPass(at) => Run(cfg, Cleanup(cfg, vs, at), events[1..])
  }

  /** From an empty table, with at least one request allowed, every reachable table satisfies `Inv`. */
  lemma {:induction false} RunPreservesInv(cfg: Config, vs: Visitors, events: seq<Event>)
    requires cfg.maxRequests >= 1
    requires Inv(cfg, vs)
    ensures Inv(cfg, Run(cfg, vs, events).1)
    decreases |events|
  {
    if events != [] {
      match events[0]
      case Request(ip, at) =>
        HandlePreservesInv(cfg, vs, ip, at);
        RunPreservesInv(cfg, Handle(cfg, vs, ip, at).1, events[1..]);
      case CleanupPass(at) =>
        CleanupPreservesInv(cfg, vs, at);
        RunPreservesInv(cfg, Cleanup(cfg, vs, at), events[1..]);
    }
  }

  /** `BlockTime` never influences a decision, a table, or a cleanup. */
  lemma {:induction false} BlockTimeIrrelevant(cfg: Config, blockTime: int, vs: Visitors, events: seq<Event>)
    ensures Run(cfg.(blockTime := blockTime), vs, events) == Run(cfg, vs, events)
    decreases |events|
  {
    var cfg' := cfg.(blockTime := blockTime);
    if events != [] {
      match events[0]
      case Request(ip, at) =>
        assert Handle(cfg', vs, ip, at) == Handle(cfg, vs, ip, at);
        BlockTimeIrrelevant(cfg, blockTime, Handle(cfg, vs, ip, at).1, events[1..]);
      case CleanupPass(at) =>
        assert Cleanup(cfg', vs, at) == Cleanup(cfg, vs, at);
        BlockTimeIrrelevant(cfg, blockTime, Cleanup(cfg, vs, at), events[1..]);
    }
  }

  /**
   * Forgetting idle visitors is invisible: a request at or after a cleanup gets the same
   * decision, and leaves the same entry for its IP, as without the cleanup.
   */
  lemma CleanupInvisible(cfg: Config, vs: Visitors, ip: string, cleanedAt: int, now: int)
    requires cleanedAt <= now
    ensures var (d1, vs1) := Handle(cfg, Cleanup(cfg, vs, cleanedAt), ip, now);
            var (d2, vs2) := Handle(cfg, vs, ip, now);
            d1 == d2 && ip in vs1 && ip in vs2 && vs1[ip] == vs2[ip]
  {
  }

  /** Requests from one IP at the given times, in order, starting from table `vs`; the number accepted. */
  function Accepted(cfg: Config, vs: Visitors, ip: string, times: seq<int>): (n: nat)
    ensures n <= |times|
    decreases |times|
  {
    if times == [] then 0
    else
      var (d, vs') := Handle(cfg, vs, ip, times[0]);
      (if d == Accept then 1 else 0) + Accepted(cfg, vs', ip, times[1..])
  }

  predicate NonDecreasing(times: seq<int>) {
    forall i, j | 0 <= i < j < |times| :: times[i] <= times[j]
  }

  lemma {:induction false} AcceptedWithinWindow(cfg: Config, vs: Visitors, ip: string, times: seq<int>, start: int)
    requires ip in vs && start <= vs[ip].lastSeen && 1 <= vs[ip].count
    requires NonDecreasing(times)
    requires forall i | 0 <= i < |times| :: vs[ip].lastSeen <= times[i] <= start + cfg.window
    ensures vs[ip].count + Accepted(cfg, vs, ip, times) <= if vs[ip].count <= cfg.maxRequests then cfg.maxRequests else vs[ip].count
    decreases |times|
  {
    if times != [] {
      var (d, vs') := Handle(cfg, vs, ip, times[0]);
      assert times[0] - vs[ip].lastSeen <= cfg.window;
      AcceptedWithinWindow(cfg, vs', ip, times[1..], start);
    }
  }

  /**
   * A burst bound: from an IP the table does not know, however many requests arrive within
   * one window of the first, at most `maxRequests` are let through.
   */
  lemma BurstBound(cfg: Config, vs: Visitors, ip: string, times: seq<int>)
    requires cfg.maxRequests >= 1
    requires ip !in vs && times != []
    requires NonDecreasing(times)
    requires forall i | 0 <= i < |times| :: times[i] <= times[0] + cfg.window
    ensures Accepted(cfg, vs, ip, times) <= cfg.maxRequests
  {
    var vs' := Handle(cfg, vs, ip, times[0]).1;
    AcceptedWithinWindow(cfg, vs', ip, times[1..], times[0]);
  }

  /** The login limiter lets through at most five attempts per fresh IP within fifteen minutes. */
  lemma LoginBurstBound(vs: Visitors, ip: string, times: seq<int>)
    requires ip !in vs && times != []
    requires NonDecreasing(times)
    requires forall i | 0 <= i < |times| :: times[i] <= times[0] + 15 * MINUTE
    ensures Accepted(LOGIN, vs, ip, times) <= 5
  {
    BurstBound(LOGIN, vs, ip, times);
  }
}
