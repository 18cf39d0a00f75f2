# fivem-ebpf: a verified model of the packet filter

The filter is one state machine over maps shared by two kernel programs. The XDP program reads a frame,
decides whether a packet to the guarded port passes, and updates nine maps keyed by source address, one
SYN breaker bucket per CPU and one row of counters per CPU. The sockops program records accepted
connections and counts the open ones. The loader turns configured rates into bucket periods and resets
the open counters; the `info` command adds the counters up.

`Programs.Filter` is that machine as it runs, updating its maps in place, branch by branch. Each of its
methods is proved equal to a step function in `FilterMaps`, stated map by map. `Runs` strings packets,
socket callbacks and losses of entries (eviction or deletion, at any moment) into runs of any length, and
the other modules prove what holds over every run. `OpenCounter` is a separate, finer model in which the
steps of several CPUs interleave.

| module | about |
|---|---|
| `Wire`, `Framing`, `Scenarios` | the parser, the frame printer it must undo, frames for witness runs |
| `Payload`, `EnetFraming` | user agent scan, HTTP endpoints, ENet header and its printer |
| `Limiter`, `Rates` | token buckets, the loader's arithmetic |
| `HealthWindow`, `Blacklisting`, `HealthPromise` | anomaly windows, what a blacklisting means, when one is certain |
| `FilterMaps`, `Programs`, `Runs`, `Replay` | the state machine, the programs, runs, the programs making runs |
| `Sockets`, `Verdicts` | which connections count, which packets meet which fate, said without the program's own guards |
| `Authorisation`, `Handshake`, `Revival` | who may send UDP, who is let in by a handshake, what becomes of an entry that has run out |
| `Isolation` | one source cannot affect another |
| `RateBounds`, `SynBreaker`, `BreakerShares` | how much gets through |
| `Connections`, `OpenCounter` | the open-connection counter and its cap |
| `Reporting`, `Counters`, `CounterMeaning`, `DropHistory` | conservation and meaning of counters, drop history |
| `Operation` | what the settings promise |
| `Words`, `Bytes`, `Options` | machine words, bytes, lookups |

## Where the code and its description differ

The model follows the code. For each difference there is the exact condition under which the description, or
the evident intent, holds, and for those about whole runs a run in which it fails.

- `deploy/config.example:45` says the SYN breaker only counts addresses that are not already playing. The
  code charges and drops whitelisted sources too (`SynBreaker.BreakerIgnoresWhitelist`); they are spared in
  every run if and only if the breaker is off (`SynBreaker.PlayersSparedIff`, with a run of five events).
  Given which entries are evicted, it is the only way one source can affect another
  (`Isolation.IsolatedIffBreakerOff`); and it affects no source that sends no SYN (`Isolation.SourcesAreIsolated`).
- `deploy/config.example:13` says a player has to reconnect once the TTL has run out. The expired entry
  stays. It becomes valid again with any well-formed TCP segment that no guard stops: a SYN has to be below
  the cap and within the breaker, a request must not be a bot's and needs a token of its limiter
  (`Revival.RevivedIff`). Having to connect again holds over all runs if and only if the TTL is longer than
  the clock's range (`Revival.ReconnectIff`; `Revival.SilenceIsEnough` is a run of five events in which an
  empty segment is enough). What a source does need is TCP (`Revival.ReturnNeedsTcp`).
- `deploy/config.example:57` says `HEALTH_THRESHOLD` bad packets inside `HEALTH_WINDOW` are enough. The
  window is reset, not sliding, and its counter has 32 bits. How many are enough for a given entry is exact
  in `HealthWindow.MustTripIff`: with `T` for the threshold, up to `2T - 2` after an anomaly, one more after a
  counter has wrapped, two more when it is about to. Over all runs the description holds if and only if the
  settings allow neither a second window nor a wrap (`HealthPromise.PromiseIff`): the threshold is zero; or
  it is at most two, or the window has no length or outlasts the clock, and besides `2^32 - T` penalties last
  longer than a window, or than the clock.
- The open-connection cap is compared as a signed word. From 2^63 on it refuses a source that holds no
  connection at all; below that it is sound as long as no counted socket closes from SYN-RECEIVED
  (`Connections.CapIsSoundIff`). One that does, as a connection opened by TCP Fast Open can, is never
  uncounted: where that happens the cap is sound if and only if it is off (`Connections.CapIsSoundWithLeaksIff`,
  with a run in which leaks fill any cap).
- A rate above the number of nanoseconds in its unit gives a zero period, which switches the limiter off
  (`Rates.HugeRateDisables`). Below that, the division rounds the period down: in the long run the configured
  rate is delivered if and only if it divides its unit, and otherwise exceeded (`Rates.DeliveredForeverIff`,
  `Rates.UnitsDeliver`).
- The exemption of out-of-band queries from the ENet check has no effect: four bytes of ones read as a
  compressed datagram, which the check accepts (`EnetFraming.QueriesAreValid`, `EnetFraming.AnomalousIff`).
- The burst and rate of the breaker are shared among the CPUs the loader counts. Its bound on SYNs holds for all
  runs if and only if packets arrive on no more (`BreakerShares.ConfiguredSynBoundIff`).
- `tokens + refill` is a 64-bit sum. One request is as intended if and only if it does not overflow
  (`Limiter.TakeIsPlainIff`). The lazy bucket is the ticking one on every sequence of requests, and a source
  that waits a period is always admitted, each if and only if the burst and the longest refill fit one word
  together (`Limiter.LazyRefinesTickingIff`, `Limiter.PatienceIff`). The upper bounds hold regardless.

## Model

| member | source | states |
|---|---|---|
| `Programs.Filter.FivemXdp` | bpf/fivem_xdp.bpf.c:260-473 | the XDP program, imperatively, leaves exactly the maps and returns exactly the verdict of the step function, for every byte string and every state; all reads in bounds |
| `Programs.Filter.FivemSockops` | bpf/fivem_sockops.bpf.c:28-66 | the sockops program leaves exactly the maps of its step function, for every callback |
| `Programs.Filter.constructor` | bpf/shared/maps.h:1-131 | a load without pinned state starts from empty maps, empty buckets and zero counters on every CPU |
| `Programs.Filter.StatBump` | bpf/shared/maps.h:132-136 | one counter of one CPU advances by one 64-bit step, nothing else changes |
| `Programs.Filter.RecordDrop` | bpf/fivem_xdp.bpf.c:126-145 | a drop is entered for a source with an entry or a known source, and not otherwise |
| `Programs.Filter.HealthRecordAnomaly` | bpf/fivem_xdp.bpf.c:147-167 | the entry becomes what the window rule says of the old one |
| `Programs.Filter.TcpGlobalRatelimitTake` | bpf/fivem_xdp.bpf.c:202-223 | the CPU's bucket after one request is the token bucket's, other CPUs' are untouched |
| `Programs.Filter.RatelimitTake` | bpf/fivem_xdp.bpf.c:225-253 | decision and map are the token bucket's; a refused request leaves the map as it was |
| `Programs.Filter.WhitelistRefresh` | bpf/fivem_xdp.bpf.c:255-258 | stamps the entry looked up at the start of the packet, if there was one |
| `Programs.Filter.AdmitTcp` | bpf/fivem_xdp.bpf.c:317-345 | a segment outside any handshake, over the cap or over the breaker is refused with its reason; an admitted SYN is recorded |
| `Programs.Filter.FilterBody` | bpf/fivem_xdp.bpf.c:347-414 | an admitted segment: a data offset that does not fit is a malformed drop, otherwise the request decides |
| `Programs.Filter.FilterRequest` | bpf/fivem_xdp.bpf.c:360-413 | bots dropped, requests metered, only a valid agent with an accepted connection is promoted, every pass stamps an existing entry |
| `Programs.Filter.FilterUdp` | bpf/fivem_xdp.bpf.c:423-469 | fragment, whitelist, TTL, blacklist, ENet and limiter in that order, each drop with its own effects |
| `Programs.Filter.OpenCountInc` | bpf/fivem_sockops.bpf.c:13-20 | the counter of the source grows by one from its value or from zero |
| `Programs.Filter.OpenCountDec` | bpf/fivem_sockops.bpf.c:22-26 | a positive counter falls by one, any other stays |
| `Programs.Filter.ResetOpenCounts` | internal/loader/loader.go:305-325 | the two passes of a reset, collecting the keys and deleting each, end with no open counter left; the keys are those of the entries there were |
| `Programs.Filter.CollectKeys` | internal/loader/loader.go:309-318 | the first pass collects every key of the map, once |
| `Replay.ResetIsLosses` | internal/loader/loader.go:319-324 | the second pass is a run of losses of single entries, which is how runs treat a reset beside live traffic |
| `Replay.Deliveries` | bpf/fivem_xdp.bpf.c:260-473 | the two programs, called on any sequence of events, leave the last state of the run of those events and return its verdicts: what is proved of runs is proved of the programs |
| `Runs.FilteredIffSeen` | bpf/fivem_xdp.bpf.c:304-309 | a packet has an outcome exactly when it is TCP or UDP to the guarded port and no later fragment |
| `Sockets.CallbackEffect` | bpf/fivem_sockops.bpf.c:28-66 | for the guarded port, a nonzero remote and either family, an accept enters the source, counts it and bumps one counter, a close from any established state takes a positive count down by one, and no other callback changes anything |
| `Verdicts.RefusedSegments` | bpf/fivem_xdp.bpf.c:311-358 | one condition on maps and header for each reason a segment is dropped for before its payload is read: if and only if |
| `Verdicts.HeardSegments` | bpf/fivem_xdp.bpf.c:360-413 | one condition on the text of the payload, the agent and the limiters for each outcome after that: if and only if |
| `Verdicts.PassedInfoIsMetered` | bpf/fivem_xdp.bpf.c:403-413 | a passed segment with an info request, of any source in any state, is no bot's, has taken a token of the info limiter, and is counted as seen and passed |
| `Verdicts.PassedPostIsMetered` | bpf/fivem_xdp.bpf.c:376-401 | a passed segment with a connect request likewise, and is counted by how it ended |
| `Verdicts.Datagrams` | bpf/fivem_xdp.bpf.c:423-469 | one condition on maps and bytes for each fate of a datagram: if and only if |
| `Wire.ReadIp` | bpf/fivem_xdp.bpf.c:262-294 | the loop over at most two tags and the IPv4 header find what the recursive parser finds, all reads in bounds |
| `Framing.BuildFrame` | internal/loader/xdp_harness_linux_test.go:179-204 | the printer, appending and writing at offsets, produces the frame described field by field, for every 8-bit header length |
| `Framing.WriteFixed` | internal/loader/xdp_harness_linux_test.go:191-198 | the offsets written give the 20 fixed bytes of an IPv4 header |
| `Framing.ParsePrintedFrame` | bpf/fivem_xdp.bpf.c:262-302 | parsing gives back what was printed if and only if there are at most two tags and the header length is from 5 to 15 |
| `Framing.ParseAnyPrintedFrame` | bpf/fivem_xdp.bpf.c:262-302 | what the parser finds in every printed frame: nothing past two tags or in too short a header, and a header length cut to four bits otherwise |
| `Framing.FramingIsInvisible` | bpf/fivem_xdp.bpf.c:262-302 | with up to two 802.1Q or 802.1ad tags and any IHL from 5 to 15 the filter observes what it observes in the plain frame, so verdict and state change are the same |
| `Framing.ObservePrintedTcp` | internal/loader/xdp_harness_linux_test.go:214-227 | of a printed TCP segment, for every fragment word, port, flags and data offset: nothing is observed in a later fragment or for another port; otherwise source, more-fragments bit, SYN flag and payload come back, and don't-fragment makes no difference |
| `Framing.ObservePrintedUdp` | internal/loader/xdp_harness_linux_test.go:206-212 | likewise of a printed UDP datagram |
| `Framing.ObserveTheRest` | bpf/fivem_xdp.bpf.c:283-309 | other protocols, headers cut short and unknown tags are let through unread |
| `Framing.CutFrameIsUnread` | bpf/fivem_xdp.bpf.c:265-294 | a frame cut off anywhere before its payload is let through unread |
| `EnetFraming.PrintedIsValidIff` | bpf/fivem_xdp.bpf.c:169-193 | of a printed ENet datagram cut at any byte: a compressed one is accepted from two bytes on, any other if and only if its first command is there, has a type from 1 to 12 and no flag but acknowledge and unsequenced, with a sent time or without |
| `EnetFraming.QueriesAreValid` | bpf/fivem_xdp.bpf.c:195-200 | out-of-band queries pass the header check anyway |
| `EnetFraming.AnomalousIff` | bpf/fivem_xdp.bpf.c:450-452 | so a datagram is an anomaly if and only if it fails the header check |
| `Payload.ScanUserAgent` | bpf/fivem_xdp.bpf.c:65-82 | the bounded byte loop returns the class of the first needle |
| `Payload.FindNeedle` | bpf/fivem_xdp.bpf.c:65-82 | the position found is the first at which the needle and the byte after it lie in the payload and its first 512 bytes; none is found only if there is none |
| `Payload.AgentSpec` | bpf/fivem_xdp.bpf.c:65-82 | the class is unknown without a `CitizenFX` that lies with one more byte in the payload and its first 512 bytes; otherwise the byte after the first one decides, a slash for valid, a carriage return for bot; nothing else is the class |
| `Payload.ScanIsLocal` | bpf/fivem_xdp.bpf.c:54-82 | payloads that agree on their first 512 bytes have the same class |
| `Payload.ScanIsStable` | bpf/fivem_xdp.bpf.c:65-82 | a class once decided is not changed by any bytes appended |
| `Payload.PostClientText` | bpf/fivem_xdp.bpf.c:84-91 | a connect request is exactly what starts with `POST /client` |
| `Payload.GetEndpointText` | bpf/fivem_xdp.bpf.c:93-116 | an info request is exactly what starts with `GET /` and one of the three names, and goes on for at least one byte |
| `Limiter.TakeIsPlainIff` | bpf/fivem_xdp.bpf.c:242-252 | the 64-bit request equals the one in unbounded arithmetic if and only if `tokens + refill` does not overflow |
| `Limiter.LazyRefinesTicking` | bpf/fivem_xdp.bpf.c:225-253 | on every nondecreasing sequence of request times the lazy bucket decides like, holds the tokens of, and keeps the phase of a bucket that gains one token per whole period since its creation, capped at the burst, provided a full bucket and the longest refill fit one word |
| `Limiter.CrampedDisagrees` | bpf/fivem_xdp.bpf.c:242-252 | without that room two requests are enough for the two buckets to come apart |
| `Limiter.LazyRefinesTickingIff` | bpf/fivem_xdp.bpf.c:225-253 | so the refinement holds on all clock sequences if and only if there is room |
| `Limiter.MeterTake` | bpf/fivem_xdp.bpf.c:242-252 | one request keeps the invariant that admitted requests are paid for by the burst and by ticks inside the window, for every burst and every stored token count, overflow included |
| `Limiter.LiveTake` | bpf/fivem_xdp.bpf.c:242-252 | likewise over a bucket's life, counted in whole periods since its creation |
| `Limiter.PeriodApartIsAdmitted` | bpf/fivem_xdp.bpf.c:242-252 | a request one period after the previous one is admitted, whatever that left, if there is room |
| `Limiter.CrampedRefuses` | bpf/fivem_xdp.bpf.c:242-252 | without room there is a time, a period or more after the first request, at which the bucket overflows to nothing and refuses |
| `Limiter.PatienceIff` | bpf/fivem_xdp.bpf.c:242-252 | so waiting a period is always enough if and only if there is room |
| `Rates.UnitsDeliver` | internal/loader/loader.go:277-282 | over `k` units from a tick a bucket gains `k` times the rate, and one token more for every period the remainders have added up to |
| `Rates.DeliveredIff` | internal/loader/loader.go:277-282 | `k` units from a tick deliver exactly `k` times the rate if and only if the remainders of the division add up to less than one period |
| `Rates.DeliveredForeverIff` | internal/loader/loader.go:277-282 | the rate is delivered exactly over every number of units if and only if it divides the unit |
| `Rates.SmallRatesAreDelivered` | internal/loader/loader.go:277-282 | a rate whose square fits `k` times in the unit is delivered exactly for the first `k` units from a tick; for `k = 1`, up to the square root of the unit |
| `Rates.UnitRefill` | bpf/fivem_xdp.bpf.c:242-252 | between any two requests one unit apart a bucket gains `rate` tokens, capped at the burst, or one more, which it does exactly when the first comes late enough after a tick |
| `Rates.HugeRateDisables` | internal/loader/loader.go:277-282 | the limiter is off if and only if the rate or the burst is zero or the rate exceeds the unit |
| `Rates.SharesAddUp` | internal/loader/loader.go:284-292 | the shares of `n` CPUs add up to at most `max(v, n)`, and a nonzero limit stays nonzero |
| `RateBounds.RateBound` | bpf/fivem_xdp.bpf.c:459-464 | over any mix of traffic, in any window without loss of the bucket, for every burst, one source gets at most burst + ceil((b-a)/period) datagrams through, or segments that start with a connect request, or with an info request |
| `RateBounds.LifetimeBound` | bpf/fivem_xdp.bpf.c:379-384 | and at most burst + floor((t-t0)/period) from the creation of its bucket at t0, of segments and datagrams told by their bytes |
| `RateBounds.PatientIsAdmitted` | bpf/fivem_xdp.bpf.c:405-410 | in a run, a source that waits a period between requests is never refused, even if its bucket was evicted, if there is room for the longest refill |
| `SynBreaker.BreakerIgnoresWhitelist` | bpf/fivem_xdp.bpf.c:338-342 | a SYN below the cap is dropped by the breaker if and only if the CPU's bucket is empty, and charged otherwise, whitelisted or not |
| `SynBreaker.ReturnIsDropped` | bpf/fivem_xdp.bpf.c:338-342 | with the breaker on, whatever its settings, a run from empty maps, at a time at which the bucket has a token if it ever has, in which a newcomer's SYN comes first and a whitelisted source's is dropped |
| `SynBreaker.PlayersSparedIff` | bpf/fivem_xdp.bpf.c:338-342 | whitelisted sources are spared in all runs if and only if the breaker is off |
| `SynBreaker.OneBreaker` | bpf/fivem_xdp.bpf.c:202-223 | one CPU's breaker admits at most burst + ceil((b-a)/period) SYNs in any window |
| `SynBreaker.SynsAddUp` | bpf/fivem_xdp.bpf.c:338-345 | every admitted SYN is admitted by exactly one CPU's breaker |
| `SynBreaker.ConfiguredSynBound` | internal/loader/loader.go:209-217 | with burst B and period P, n per-CPU breakers admit at most max(B,n) + n*ceil((b-a)/P) SYNs in any window |
| `BreakerShares.OneMoreExceeds` | internal/loader/loader.go:209-217 | with packets on more CPUs than the loader counted, a run and a window that exceed that bound |
| `BreakerShares.ConfiguredSynBoundIff` | internal/loader/loader.go:209-217 | so the bound holds over all runs and windows if and only if packets arrive on no more CPUs than it counted |
| `HealthWindow.AllowanceStep` | bpf/fivem_xdp.bpf.c:147-167 | every anomaly that renews no blacklisting uses up one of the entry's allowance, in 32-bit and 64-bit words |
| `HealthWindow.QuietestIsQuiet` | bpf/fivem_xdp.bpf.c:147-167 | for every entry the whole allowance can be used up within one window length without renewing anything |
| `HealthWindow.MustTripIff` | bpf/fivem_xdp.bpf.c:147-167 | for every entry, `n` anomalies within one window length are sure to renew the blacklisting if and only if `n` exceeds its allowance |
| `HealthWindow.AllowanceAtMost` | bpf/fivem_xdp.bpf.c:147-167 | the allowance is at most `2T - 2` less 1, 0 or -1 for an ordinary, a wrapped and a full counter, and for thresholds of two and more reaches that for each of the three |
| `HealthWindow.WrappingCounterForgets` | bpf/fivem_xdp.bpf.c:163-166 | for every threshold but zero, `2^32 - 1` anomalies that fit in one window, with a wait for every blacklisting, fill the counter, and the next one empties it and renews nothing |
| `Blacklisting.EntryMeaning` | bpf/fivem_xdp.bpf.c:147-167 | a health entry's window began with an anomaly of that source, its count is at most the anomalies since, its blacklisting was earned |
| `Blacklisting.BlacklistingIsSound` | bpf/fivem_xdp.bpf.c:118-167 | even with evictions, a blacklisted source had at least max(1,T) anomalies within one window, the last less than the penalty ago |
| `Blacklisting.AnomaliesForceBlacklisting` | bpf/fivem_xdp.bpf.c:147-167 | in any run without loss of the entry, more anomalies within one window length than its allowance renew the blacklisting at one of them |
| `Blacklisting.UntilNeverDecreases` | bpf/fivem_xdp.bpf.c:164-166 | without eviction the end of a blacklisting never moves back |
| `Blacklisting.BlacklistingHolds` | bpf/fivem_xdp.bpf.c:443-447 | after a blacklisting anomaly every datagram of the source is dropped until the penalty has run out |
| `HealthPromise.ReliableIsKept` | bpf/fivem_xdp.bpf.c:118-167 | with reliable settings, a threshold's worth of anomalies inside one window always has the source blocked, in any run from an empty health map |
| `HealthPromise.TwoWindows` | bpf/fivem_xdp.bpf.c:160-166 | times whose run, from empty maps and with a connect first, splits a threshold's worth of anomalies inside one window length over two windows, so that none of them has the source blocked |
| `HealthPromise.AWrap` | bpf/fivem_xdp.bpf.c:163-166 | times whose run, likewise, has the counter wrap among a threshold's worth of anomalies at one moment, so that none of them has the source blocked |
| `HealthPromise.PromiseIff` | bpf/fivem_xdp.bpf.c:118-167 | the promise holds over all runs from an empty health map, and likewise over those from empty maps, if and only if the settings are reliable, a condition on threshold, window and penalty alone |
| `Authorisation.StampMeaning` | bpf/fivem_xdp.bpf.c:363-412 | in every state reachable from an empty whitelist, with any evictions, an entry is the time of that source's most recent passed packet |
| `Authorisation.UdpNeedsRecentPass` | bpf/fivem_xdp.bpf.c:429-441 | a datagram is dropped as expired if and only if its source, still whitelisted, has had nothing passed for longer than the TTL; one passes only within the TTL of an earlier pass |
| `Revival.RevivedIff` | bpf/fivem_xdp.bpf.c:319-413 | a packet makes an expired entry of its source valid again if and only if it is a well-formed TCP segment that neither cap, breaker, bot check nor request limiter stops; otherwise the whitelist stays as it is |
| `Revival.ReturnNeedsTcp` | bpf/fivem_xdp.bpf.c:363-441 | in any run, the first packet an expired source gets through again is a TCP segment |
| `Revival.SilenceIsEnough` | bpf/fivem_xdp.bpf.c:363-367 | a run from empty maps, for every TTL the clock can reach: connect, silence past the TTL, a datagram dropped as expired, an empty segment, a datagram passed |
| `Revival.ReconnectIff` | bpf/fivem_xdp.bpf.c:363-367 | an expired source has to connect again in all runs if and only if the TTL is beyond the clock's range |
| `Authorisation.EstablishedOrigin` | bpf/fivem_sockops.bpf.c:39-45 | an entry in the established map goes back to a passive-established callback for that source |
| `Authorisation.WhitelistOrigin` | bpf/fivem_xdp.bpf.c:386-392 | a whitelist entry goes back to a passed `POST /client` with `CitizenFX/` from a source then established |
| `Authorisation.UdpIsAuthorised` | bpf/fivem_xdp.bpf.c:429-434 | over whole runs with any losses, a datagram passes only after such a request, which came after an accepted connection, both from the same source |
| `Authorisation.DataNeedsHandshake` | bpf/fivem_xdp.bpf.c:319-326 | over whole runs with any losses, a segment without SYN passes only after an admitted SYN or an accepted connection of its source |
| `Handshake.HoldsIff` | bpf/fivem_xdp.bpf.c:343-344 | the maps of SYNs, connections and whitelisted sources hold a source if and only if some event has put it there and no loss has taken it away since, in every state reachable from empty maps |
| `Handshake.HandshakeLetsIn` | bpf/fivem_xdp.bpf.c:319-326 | after an admitted SYN, an accepted connection or a connect request that has not been lost since, no segment of the source is dropped for want of a SYN |
| `Handshake.NoSynIff` | bpf/fivem_xdp.bpf.c:319-326 | so over runs from empty maps that drop happens if and only if the source has left no trace that has been kept |
| `Handshake.TimeMeaning` | bpf/fivem_xdp.bpf.c:343-344 | the times in the maps of SYNs and connections are those of the source's last admitted SYN and last accepted connection |
| `Isolation.CellFollows` | bpf/fivem_xdp.bpf.c:260-473 | one event that does not get to the breaker acts on a source's nine entries as an automaton that sees only that source |
| `Isolation.SourcesAreIsolated` | bpf/fivem_xdp.bpf.c:261-473 | for a source that sends no SYN to the breaker, or with the breaker off, in every interleaving and with losses given, its outcomes and entries are those of the run of its own events alone |
| `Isolation.BreakerCouplesSources` | bpf/fivem_xdp.bpf.c:338-342 | with the breaker on, whatever its settings, two SYNs of different sources break isolation |
| `Isolation.IsolatedIffBreakerOff` | bpf/fivem_xdp.bpf.c:202-223 | isolation holds for all runs if and only if the breaker is off |
| `Connections.UncountedOnce` | bpf/fivem_sockops.bpf.c:48-63 | on every path of sections 3.3.2 and 3.10.7.4 of RFC 9293 from SYN-RECEIVED or ESTABLISHED to CLOSED exactly one state callback satisfies the decrement guard, except that none does on the path straight from SYN-RECEIVED to CLOSED |
| `Connections.CounterNeverOverstates` | bpf/fivem_sockops.bpf.c:13-26 | from its reset on, or from any time at which it was low, with any evictions and deletions, the counter lies between zero and the sockets the source really holds plus those closed from SYN-RECEIVED since |
| `Connections.ResetIsLow` | internal/loader/loader.go:151-156 | deleting a source's counter makes it low whatever it held, with both programs attached |
| `Connections.CounterIsExact` | bpf/fivem_sockops.bpf.c:39-63 | without loss a counter that was exact equals the sockets the source holds plus those closed from SYN-RECEIVED since |
| `Connections.CapIsSound` | bpf/fivem_xdp.bpf.c:329-336 | a SYN is refused as too many open only if the source holds that many, those closed from SYN-RECEIVED included |
| `Connections.CapIff` | bpf/fivem_xdp.bpf.c:329-336 | and without loss exactly then |
| `Connections.HugeCapRefusesEveryone` | bpf/fivem_xdp.bpf.c:331-335 | a run in which a cap of 2^63 or more refuses a source whose only connection is closed |
| `Connections.CapIsSoundIff` | bpf/fivem_xdp.bpf.c:329-336 | over all runs in which no counted socket closes from SYN-RECEIVED the cap is sound if and only if it is below 2^63 |
| `Connections.LeaksFillTheCap` | bpf/fivem_sockops.bpf.c:52-61 | for every cap below 2^63 that is on, a run in which sockets closed from SYN-RECEIVED fill it and a source that holds none is refused |
| `Connections.CapIsSoundWithLeaksIff` | bpf/fivem_xdp.bpf.c:329-336 | over all runs the cap is sound if and only if it is off |
| `OpenCounter.AloneIsAtomic` | bpf/fivem_sockops.bpf.c:13-26 | run undisturbed, the small steps make up the atomic increment and decrement |
| `OpenCounter.StartIsBalanced` | internal/loader/loader.go:151-156 | with all CPUs idle and an entry that counts the open connections, or none, the books balance |
| `OpenCounter.CounterIsExact` | bpf/fivem_sockops.bpf.c:13-26 | for any number of CPUs and any interleaving, with matched decrements and no lost entry, the counter is finished increments minus finished subtractions, never negative, and no guard fails |
| `OpenCounter.NeverFarBelowZero` | bpf/fivem_sockops.bpf.c:22-26 | from a nonnegative stored count, whichever decrements come and whatever was lost before, N CPUs never take it below 1-N |
| `OpenCounter.BelowZeroIsReached` | bpf/fivem_sockops.bpf.c:22-26 | and 1-N is reached, for every N |
| `Reporting.ReadStats` | internal/bpfmaps/bpfmaps.go:187-212 | the nested loops return, slot by slot, the 64-bit sum over all CPUs, or the first error: no map, no CPU count, no CPUs, or the first slot that cannot be looked up |
| `Reporting.LabelsSortCounters` | cmd/fivem-ebpf/info.go:69-82 | sorting by the text of the labels puts every counter in the total it belongs to |
| `Reporting.SummariseStats` | cmd/fivem-ebpf/info.go:67-84 | the loop over the labels leaves in each of the five totals the 64-bit sum of its counters |
| `Counters.HitsMatchVerdict` | bpf/fivem_xdp.bpf.c:304-470 | a filtered packet advances exactly one pass or drop counter, and it is one of the total of its protocol and verdict |
| `Counters.EmptyHolds` | bpf/shared/maps.h:124-130 | freshly created counters hold the tally of no events |
| `Counters.CountersHoldTheTally` | bpf/shared/maps.h:132-136 | over a run the counters summed over the CPUs hold how often each was advanced, on whichever CPU, modulo 2^64 |
| `Counters.TallyByKind` | bpf/fivem_xdp.bpf.c:304-470 | the counters of each total add up to the number of packets of its protocol and verdict |
| `Counters.SummaryCountsPackets` | cmd/fivem-ebpf/info.go:67-84 | from kernel to summary: each total printed is the number of packets passed or dropped on that protocol, modulo 2^64 |
| `Counters.TotalsCoverTraffic` | bpf/fivem_xdp.bpf.c:304-470 | the packets of the five kinds are all the filtered packets, each once |
| `Counters.SummaryCoversTraffic` | cmd/fivem-ebpf/info.go:59-84 | the five totals add up to the filtered packets, modulo 2^64 |
| `Counters.DropCounterCountsDrops` | bpf/fivem_xdp.bpf.c:311-464 | each drop counter counts the packets dropped for its reason |
| `CounterMeaning.CountersTell` | bpf/fivem_xdp.bpf.c:304-470 | each of the twenty-one counters counts just the events its label means, told by protocol, verdict, payload text and maps, over any run |
| `CounterMeaning.SlotsAreLabelled` | internal/bpfmaps/bpfmaps.go:54-76 | the slots the kernel advances carry the labels of what they mean |
| `CounterMeaning.ReasonsAreNamed` | internal/bpfmaps/bpfmaps.go:13-27 | the indices of the drop history carry the names of their reasons |
| `Counters.RequestsAreAccountedFor` | bpf/fivem_xdp.bpf.c:376-410 | connect requests seen are those promoted, matched without a connection, of unknown agent, or dropped by their limiter; info requests dropped are among those seen |
| `Counters.RequestCountersBalance` | internal/bpfmaps/bpfmaps.go:187-212 | the same of the values read back |
| `DropHistory.HistoryStep` | bpf/fivem_xdp.bpf.c:126-145 | one event changes a source's history only by a drop of its own packet or by losing the entry |
| `DropHistory.OpensIff` | bpf/fivem_xdp.bpf.c:126-145 | which drops open an entry for a source that has none: if and only if history is on, the reason is none of four that anyone can cause, and a breaker drop is of a whitelisted source |
| `DropHistory.HistoryMeaning` | bpf/fivem_xdp.bpf.c:126-145 | a live entry dates from the drop that opened it, of a source then present in one of four maps, and tells that source's drops since, reason by reason, and the time of the last |
| `DropHistory.HistoryBelowDrops` | bpf/fivem_xdp.bpf.c:126-145 | summed over all addresses, with any evictions, the history of a reason never exceeds its drops |
| `DropHistory.HistoryBelowCounter` | bpf/fivem_xdp.bpf.c:311-464 | nor that reason's counter as read back, while that has not wrapped |
| `Operation.RateIsKept` | internal/loader/loader.go:187-207 | in any second one source gets at most the datagram burst, rate and one through, in any minute likewise connect requests and info requests, each by its own settings |
| `Operation.ZeroIsOff` | internal/loader/loader.go:187-207 | a rate or burst of zero stops nothing of its kind |
| `Operation.TtlIsKept` | internal/loader/loader.go:184-186 | a datagram passes only within the TTL set of an earlier pass |
| `Operation.BlacklistIsDeserved` | internal/loader/loader.go:221-229 | a blacklisted source has sent the threshold set of bad packets inside the window set, the last less than the penalty set ago |
| `Operation.CapIsKept` | internal/loader/loader.go:218-220 | without loss or leak a SYN is refused for too many connections if and only if its source holds as many as set |
| `Operation.HistoryIsOptional` | internal/loader/loader.go:230-236 | drops are remembered only if that is set |
| `Operation.PortIsGuarded` | internal/loader/loader.go:181-183 | a segment or datagram is filtered if and only if it is to the port set and no later fragment |

## Left out

- One `now` per packet: the code reads the clock several times in one packet, and these readings may differ.
- Races inside one packet or one callback: each is one atomic step, except that the open counter also has a model at the level of its single steps.
- Replacement by the kernel: an entry may vanish at any time, but a stale pointer into a recycled element, a failed insertion and the size limits of the maps are not modelled.
- `Limiter.LazyRefinesTicking`, `Limiter.PeriodApartIsAdmitted` and `RateBounds.PatientIsAdmitted`: only for limits with room for the longest refill, without which they are false of the code.
- `RateBounds.RateBound`, `RateBounds.LifetimeBound` and `SynBreaker.OneBreaker`: a bucket found at the start of the run was last refilled before it.
- `SynBreaker.ConfiguredSynBound`: likewise; and packets arrive on no more CPUs than the loader counted, without which it is false of the code.
- `BreakerShares.ConfiguredSynBoundIff`: assumes that the clock lasts for a burst and as many periods as there are CPUs.
- `HealthPromise.PromiseIff`: assumes a penalty below 2^63, so that `now + penalty` does not wrap.
- Clock readings of 2^63 nanoseconds and more: the kernel's clock is a signed 64-bit count, so runs do not reach them.
- `Blacklisting.BlacklistingHolds` and `Blacklisting.UntilNeverDecreases`: assume a penalty below 2^63, so that `now + penalty` does not wrap.
- `Connections.CounterIsExact`, `Connections.CapIsSound`: count sockets whose callbacks arrive in order; sockets the server opens itself report no callbacks and are not counted by the code either.
- Both models of the open counter hold it as an unbounded integer: reaching 2^63 connections is not modelled.
- `Programs.Filter.ResetOpenCounts`: an iteration or a deletion that the kernel refuses, which ends the load with an error.
- `Configure` takes durations as nonnegative numbers: negative durations cast to unsigned words are not modelled.
- Conversion of configuration text into options: the loader's options are parameters.
- Checksums, sequence numbers and ENet beyond its header check: the code does not look at them.
- Program loading, attaching, pinning and clean-up, and map iteration inside the kernel: no logic of the repository. A clear is a sequence of losses of single entries.
- `countBlacklisted`, `CountKeys`, the HTTP interface, metrics, tables and flags: routine output.
