/**
 * The address resolver of the ingestion service: `drone:ip_map` behind a local cache
 * with two lifetimes, one for names found and a shorter one for fallback names.
 */
module Resolver {
  import opened Wrappers
  import opened Addresses

  const CACHE_TTL_MS: int := 5 * 60 * 1000
  const FALLBACK_TTL_MS: int := 30 * 1000

  datatype Entry = Entry(deviceId: string, expiresAt: int)

  /** A reply names a device: the read succeeded and the field is there and not empty. */
  predicate Names(reply: Option<string>) {
    reply.Some? && reply.value != ""
  }

  /** What a lookup with this reply leaves in the cache. */
  function Learned(ip: string, reply: Option<string>, storedAt: int): Entry {
    if Names(reply) then Entry(reply.value, storedAt + CACHE_TTL_MS) else Entry(TempDeviceId(ip), storedAt + FALLBACK_TTL_MS)
  }

  /** The cache decides at time `now`. */
  predicate Hit(cache: map<string, Entry>, ip: string, now: int) {
    ip in cache && now < cache[ip].expiresAt
  }

  class IPResolver {
    var localCache: map<string, Entry>

    constructor ()
      ensures localCache == map[]
    {
      localCache := map[];
    }

    /** `reply` is what the server answers if it is asked; `storedAt` is the clock when the answer is kept. */
    method Resolve(vpnIp: string, now: int, reply: Option<string>, storedAt: int) returns (deviceId: string)
      modifies this
      ensures localCache == Handled(old(localCache), Resolved(vpnIp, now, now, storedAt, reply))
      ensures deviceId == Answer(old(localCache), vpnIp, now, reply)
    {
      if vpnIp == "" {
        return "DRONE-UNKNOWN";
      }
      if vpnIp in localCache {
        var entry := localCache[vpnIp];
        if now < entry.expiresAt {
          return entry.deviceId;
        }
        localCache := localCache - {vpnIp};
      }
      if reply.Some? && reply.value != "" {
        localCache := localCache[vpnIp := Entry(reply.value, storedAt + CACHE_TTL_MS)];
        return reply.value;
      }
      var fallbackId := TempDeviceId(vpnIp);
      localCache := localCache[vpnIp := Entry(fallbackId, storedAt + FALLBACK_TTL_MS)];
      deviceId := fallbackId;
    }

    /** Cache first, then the server's map, whose write may fail. */
    method SetMapping(vpnIp: string, deviceId: string, now: int, ipMap: map<string, string>, writeOk: bool)
      returns (after: map<string, string>, ok: bool)
      modifies this
      ensures localCache == Handled(old(localCache), Mapped(vpnIp, deviceId, now))
      ensures ok == writeOk && after == if writeOk then ipMap[vpnIp := deviceId] else ipMap
    {
      localCache := localCache[vpnIp := Entry(deviceId, now + CACHE_TTL_MS)];
      ok, after := writeOk, ipMap;
      if writeOk {
        after := ipMap[vpnIp := deviceId];
      }
    }
  }

  // --------------------------------------------------------------- runs

  /** A call; a lookup happens at `lookedUp`, between the look into the cache and the store. */
  datatype Event =
    | Resolved(ip: string, at: int, lookedUp: int, storedAt: int, reply: Option<string>)
    | Mapped(ip: string, deviceId: string, at: int)

  function Answer(cache: map<string, Entry>, ip: string, now: int, reply: Option<string>): string {
    if ip == "" then "DRONE-UNKNOWN" else if Hit(cache, ip, now) then cache[ip].deviceId else Learned(ip, reply, now).deviceId
  }

  /** The event asks the server or sets the mapping, and so renews the entry of its address. */
  predicate Renews(cache: map<string, Entry>, e: Event) {
    e.Resolved? ==> e.ip != "" && !Hit(cache, e.ip, e.at)
  }

  function Kept(e: Event): Entry {
    match e
    case Resolved(ip, _, _, storedAt, reply) => Learned(ip, reply, storedAt)
    case Mapped(_, d, at) => Entry(d, at + CACHE_TTL_MS)
  }

  function Handled(cache: map<string, Entry>, e: Event): map<string, Entry> {
    if Renews(cache, e) then cache[e.ip := Kept(e)] else cache
  }

  function After(trace: seq<Event>, n: nat): map<string, Entry>
    requires n <= |trace|
  {
    if n == 0 then map[] else Handled(After(trace, n - 1), trace[n - 1])
  }

  function EndOf(e: Event): int {
    if e.Resolved? then e.storedAt else e.at
  }

  predicate Ordered(trace: seq<Event>) {
    && (forall i :: 0 <= i < |trace| && trace[i].Resolved? ==> trace[i].at <= trace[i].lookedUp <= trace[i].storedAt)
    && (forall i, j :: 0 <= i < j < |trace| ==> EndOf(trace[i]) <= trace[j].at)
  }

  predicate RenewsAt(trace: seq<Event>, i: nat, ip: string) {
    i < |trace| && trace[i].ip == ip && Renews(After(trace, i), trace[i])
  }

  /** Event `m` is the last one before `n` that renewed the entry of `ip`. */
  predicate IsLastRenewal(trace: seq<Event>, n: nat, ip: string, m: nat) {
    m < n && RenewsAt(trace, m, ip) && forall k: nat :: m < k < n ==> !RenewsAt(trace, k, ip)
  }

  /** The cache holds, for each address, what its last renewal kept. */
  lemma {:induction false} CacheIsHistory(trace: seq<Event>, n: nat, ip: string)
    requires n <= |trace|
    ensures if ip in After(trace, n) then exists m: nat :: IsLastRenewal(trace, n, ip, m) && After(trace, n)[ip] == Kept(trace[m])
            else forall m: nat :: m < n ==> !RenewsAt(trace, m, ip)
  {
    if n > 0 {
      var p := n - 1;
      CacheIsHistory(trace, p, ip);
      if RenewsAt(trace, p, ip) {
        assert IsLastRenewal(trace, n, ip, p);
      } else if ip in After(trace, p) {
        var m: nat :| IsLastRenewal(trace, p, ip, m) && After(trace, p)[ip] == Kept(trace[m]);
        LastRenewalKept(trace, p, ip, m);
      }
    }
  }

  lemma LastRenewalKept(trace: seq<Event>, p: nat, ip: string, m: nat)
    requires p < |trace| && IsLastRenewal(trace, p, ip, m) && !RenewsAt(trace, p, ip)
    ensures IsLastRenewal(trace, p + 1, ip, m)
    ensures ip in After(trace, p) ==> ip in After(trace, p + 1) && After(trace, p + 1)[ip] == After(trace, p)[ip]
  {
  }

  /** What call `n` of the run answers. */
  function AnswerAt(trace: seq<Event>, n: nat): string
    requires n < |trace| && trace[n].Resolved?
  {
    Answer(After(trace, n), trace[n].ip, trace[n].at, trace[n].reply)
  }

  /** An answer comes from one renewal: this call's own, or the last one before it while that has not expired. */
  lemma AnswerComesFrom(trace: seq<Event>, n: nat) returns (m: nat)
    requires n < |trace| && trace[n].Resolved? && trace[n].ip != ""
    ensures m <= n && RenewsAt(trace, m, trace[n].ip) && AnswerAt(trace, n) == Kept(trace[m]).deviceId
    ensures m == n || (IsLastRenewal(trace, n, trace[n].ip, m) && trace[n].at < Kept(trace[m]).expiresAt)
  {
    var ip := trace[n].ip;
    CacheIsHistory(trace, n, ip);
    if Hit(After(trace, n), ip, trace[n].at) {
      m :| IsLastRenewal(trace, n, ip, m) && After(trace, n)[ip] == Kept(trace[m]);
    } else {
      m := n;
    }
  }

  /** The replies read `drone:ip_map` as it stood over time; a failed read gives no reply. */
  ghost predicate Reads(trace: seq<Event>, ipMap: int -> map<string, string>) {
    forall i :: 0 <= i < |trace| && trace[i].Resolved? && trace[i].reply.Some? ==>
      trace[i].ip in ipMap(trace[i].lookedUp) && ipMap(trace[i].lookedUp)[trace[i].ip] == trace[i].reply.value
  }

  /** A lookup and the store of its result are at most `latency` apart. */
  predicate Prompt(trace: seq<Event>, latency: int) {
    forall i :: 0 <= i < |trace| && trace[i].Resolved? ==> trace[i].storedAt - trace[i].lookedUp <= latency
  }

  ghost predicate HeldWithin(ipMap: int -> map<string, string>, ip: string, value: string, from: int, to: int) {
    exists t :: from < t <= to && ip in ipMap(t) && ipMap(t)[ip] == value
  }

  ghost predicate FoundNothingWithin(trace: seq<Event>, ip: string, from: int, to: int) {
    exists i: nat :: i < |trace| && trace[i].Resolved? && trace[i].ip == ip && !Names(trace[i].reply) && from < trace[i].lookedUp <= to
  }

  ghost predicate SetWithin(trace: seq<Event>, ip: string, value: string, from: int, to: int) {
    exists i: nat :: i < |trace| && trace[i] == Mapped(ip, value, trace[i].at) && from < trace[i].at <= to
  }

  /**
   * Bounded staleness, for every history of the map: an answer is a value the map held for the
   * address within the last five minutes, or the fallback name if a lookup within the last thirty
   * seconds found none, or a mapping set within the last five minutes. A call that
   * asks the server itself counts up to its own end.
   */
  lemma StalenessBounded(trace: seq<Event>, ipMap: int -> map<string, string>, latency: int, n: nat)
    requires Ordered(trace) && Reads(trace, ipMap) && Prompt(trace, latency) && 0 <= latency
    requires n < |trace| && trace[n].Resolved? && trace[n].ip != ""
    ensures var e, id := trace[n], AnswerAt(trace, n);
      || HeldWithin(ipMap, e.ip, id, e.at - CACHE_TTL_MS - latency, e.storedAt)
      || (id == TempDeviceId(e.ip) && FoundNothingWithin(trace, e.ip, e.at - FALLBACK_TTL_MS - latency, e.storedAt))
      || SetWithin(trace, e.ip, id, e.at - CACHE_TTL_MS, e.at)
  {
    var e := trace[n];
    var m := AnswerComesFrom(trace, n);
    var source := trace[m];
    if source.Mapped? {
      assert SetWithin(trace, e.ip, AnswerAt(trace, n), e.at - CACHE_TTL_MS, e.at);
    } else {
      assert source.storedAt <= e.storedAt && source.lookedUp <= e.storedAt;
      if Names(source.reply) {
        assert ipMap(source.lookedUp)[e.ip] == AnswerAt(trace, n);
        assert HeldWithin(ipMap, e.ip, AnswerAt(trace, n), e.at - CACHE_TTL_MS - latency, e.storedAt);
      } else {
        assert FoundNothingWithin(trace, e.ip, e.at - FALLBACK_TTL_MS - latency, e.storedAt);
      }
    }
  }

  /** A later renewal never expires earlier, and the server is not asked again before any earlier entry has expired. */
  lemma {:induction false} RenewalsAfterExpiry(trace: seq<Event>, m: nat, n: nat, ip: string)
    requires Ordered(trace) && m < n < |trace| && RenewsAt(trace, m, ip) && RenewsAt(trace, n, ip)
    ensures Kept(trace[m]).expiresAt <= Kept(trace[n]).expiresAt
    ensures trace[n].Resolved? ==> Kept(trace[m]).expiresAt <= trace[n].at
  {
    if trace[n].Resolved? {
      CacheIsHistory(trace, n, ip);
      var k: nat :| IsLastRenewal(trace, n, ip, k) && After(trace, n)[ip] == Kept(trace[k]);
      assert k >= m;
      if m < k {
        RenewalsAfterExpiry(trace, m, k, ip);
      }
    }
  }

  /** From a renewal until its entry expires, nothing but a new mapping renews the entry. */
  lemma QuietUntilExpiry(trace: seq<Event>, m: nat, n: nat, ip: string)
    requires Ordered(trace) && m < n < |trace| && RenewsAt(trace, m, ip)
    requires forall k: nat :: m < k <= n && trace[k].ip == ip ==> trace[k].Resolved?
    ensures trace[n].at < Kept(trace[m]).expiresAt ==> forall k: nat :: m < k <= n ==> !RenewsAt(trace, k, ip)
  {
    forall k: nat | m < k <= n && RenewsAt(trace, k, ip)
      ensures Kept(trace[m]).expiresAt <= trace[n].at
    {
      RenewalIsLate(trace, m, k, n, ip);
    }
  }

  lemma RenewalIsLate(trace: seq<Event>, m: nat, k: nat, n: nat, ip: string)
    requires Ordered(trace) && m < k <= n < |trace| && RenewsAt(trace, m, ip) && RenewsAt(trace, k, ip) && trace[k].Resolved?
    ensures Kept(trace[m]).expiresAt <= trace[n].at
  {
    RenewalsAfterExpiry(trace, m, k, ip);
    assert k < n ==> EndOf(trace[k]) <= trace[n].at;
  }

  /**
   * An answer learned is kept: for five minutes after a lookup has found a name, and for thirty
   * seconds after one has found none, every call is answered with that name, or with the
   * fallback name, without asking the server, unless a mapping is set in between.
   */
  lemma LearnedIsKept(trace: seq<Event>, m: nat, n: nat)
    requires Ordered(trace) && m < n < |trace| && trace[m].Resolved? && trace[n].Resolved? && trace[n].ip == trace[m].ip
    requires RenewsAt(trace, m, trace[m].ip)
    requires forall k: nat :: m < k < n && trace[k].ip == trace[m].ip ==> trace[k].Resolved?
    ensures var e := trace[m];
      e.reply.Some? && e.reply.value != "" && trace[n].at < e.storedAt + 300000 ==>
        AnswerAt(trace, n) == e.reply.value && !RenewsAt(trace, n, e.ip)
    ensures var e := trace[m];
      (e.reply.None? || e.reply.value == "") && trace[n].at < e.storedAt + 30000 ==>
        AnswerAt(trace, n) == TempDeviceId(e.ip) && !RenewsAt(trace, n, e.ip)
  {
    QuietUntilExpiry(trace, m, n, trace[m].ip);
    if trace[n].at < Kept(trace[m]).expiresAt {
      var k := AnswerComesFrom(trace, n);
      assert k == m;
    }
  }

  /** A call without an address is told so, and leaves the cache alone. */
  lemma NoAddress(trace: seq<Event>, n: nat)
    requires n < |trace| && trace[n].Resolved? && trace[n].ip == ""
    ensures AnswerAt(trace, n) == "DRONE-UNKNOWN" && After(trace, n + 1) == After(trace, n)
  {
  }

  /** An empty name is answered only if it was set. */
  lemma NeverEmpty(trace: seq<Event>, n: nat)
    requires n < |trace| && trace[n].Resolved?
    requires forall i :: 0 <= i < |trace| && trace[i].Mapped? ==> trace[i].deviceId != ""
    ensures AnswerAt(trace, n) != ""
  {
    if trace[n].ip != "" {
      var m := AnswerComesFrom(trace, n);
    }
  }
}
