/** Relay descriptors and the local state kept for each relay, of
    portal/discovery/relaystate.go. */
module RelayState {
  import opened Identity

  const ANNOUNCE_MAX_VALIDITY := 24 * HOUR
  const ANNOUNCE_CLOCK_SKEW := 5 * MINUTE
  const POOL_BAN_TTL := 72 * HOUR
  const RECOVERY_BACKOFF := 1 * MINUTE
  const MAX_RECOVERY_BACKOFF := 5 * MINUTE
  const MAX_ANNOUNCED := 1024
  const MAX_PER_IDENTITY := 4
  const MAX_SAMPLES := 100
  const MILLISECOND := 1_000_000
  const FAILURE_PENALTY := 300 * MILLISECOND
  const MAX_FAILURE_PENALTY := 3 * SECOND

  /** A signed statement, normalized. `address` is the signing identity, in the
      one spelling that normalization leaves; `rest` stands for the signed
      fields nothing here reads. */
  datatype Descriptor = Descriptor(url: string, address: string, issuedAt: Time, expiresAt: Time,
                                   udp: bool, tcp: bool, rest: string)

  /** What is known about one relay URL. */
  datatype Relay = Relay(desc: Descriptor, bootstrap: bool, verified: bool, banned: bool, dead: bool, lastSeenAt: Time,
                         rtt: int, rttAt: Time, samples: seq<int>, discoveryFailures: nat, activeFailures: nat,
                         unhealthySince: Time, nextRefreshAt: Time, suppressUntil: Time)

  function NewRelay(url: string): Relay {
    Relay(Descriptor(url, "", 0, 0, false, false, ""), false, false, false, false, 0, 0, 0, [], 0, 0, 0, 0, 0)
  }

  const ZERO_RELAY := NewRelay("")

  predicate Observed(r: Relay) { r.lastSeenAt != 0 }

  /** Suppressed from active selection at `now`. */
  predicate Suppressed(r: Relay, now: Time) { r.suppressUntil != 0 && r.suppressUntil > now }

  /** RTT with a virtual penalty for failures. */
  function EffectiveRTT(r: Relay): int {
    var failures := r.activeFailures + r.discoveryFailures;
    if failures > 0 then
      var penalty := failures * FAILURE_PENALTY;
      r.rtt + (if penalty > MAX_FAILURE_PENALTY then MAX_FAILURE_PENALTY else penalty)
    else r.rtt
  }

  /** PercentileTracker.Add: the last hundred samples. */
  function AddSample(samples: seq<int>, rtt: int): (r: seq<int>)
    ensures |samples| <= MAX_SAMPLES ==> |r| <= MAX_SAMPLES
  {
    var all := samples + [rtt];
    if |all| > MAX_SAMPLES then all[1..] else all
  }

  /** validateRelayDescriptorFreshness. */
  predicate Fresh(d: Descriptor, now: Time) {
    && d.issuedAt != 0 && d.expiresAt > now
    && !(d.issuedAt > now + ANNOUNCE_CLOCK_SKEW)
    && !(d.expiresAt - d.issuedAt > ANNOUNCE_MAX_VALIDITY)
  }

  function Larger(a: nat, b: nat): nat { if a < b then b else a }

  /** mergeLocalRelayState: trust never crosses an identity change. */
  function Merge(record: Relay, existing: Relay): Relay {
    var takeRTT := record.rttAt == 0 || (existing.rttAt != 0 && existing.rttAt > record.rttAt);
    record.(bootstrap := record.bootstrap || existing.bootstrap,
            banned := record.banned || existing.banned,
            dead := record.dead || existing.dead,
            verified := record.verified || (record.desc.address == existing.desc.address && existing.verified),
            discoveryFailures := Larger(record.discoveryFailures, existing.discoveryFailures),
            activeFailures := Larger(record.activeFailures, existing.activeFailures),
            unhealthySince := existing.unhealthySince,
            nextRefreshAt := existing.nextRefreshAt,
            suppressUntil := existing.suppressUntil,
            rtt := if takeRTT then existing.rtt else record.rtt,
            rttAt := if takeRTT then existing.rttAt else record.rttAt,
            samples := record.samples + existing.samples)
  }

  function MarkVerified(r: Relay): Relay {
    r.(verified := true, dead := false, discoveryFailures := 0, nextRefreshAt := 0, unhealthySince := 0)
  }

  /** The relay is backing off or counted failures. */
  predicate Troubled(r: Relay) {
    r.discoveryFailures != 0 || r.nextRefreshAt != 0 || r.unhealthySince != 0
  }
}
