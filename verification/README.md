# Hoot-Lb in Dafny

A model of the hard parts of the Hoot-Lb load balancer, with the properties its code is meant to
have proved for all inputs, all runs and all interleavings.

Each source file that updates things in place is a class or a method proved against a
specification function (`ensures` ties the new state to a function of the old one); the theorems are
then lemmas about those functions. Concurrent protocols are state machines: every mutex section and
every atomic operation is one step, steps of different goroutines interleave in any order, and the
theorems speak of every run.

| modules | what they model |
|---|---|
| `MaskSums`, `Wrr`, `WrrBalancer` | smooth weighted round robin |
| `Text`, `Yaml`, `YamlLayout`, `YamlDocument` | the configuration parser, and the documents it reads back |
| `YamlNodes`, `YamlNesting`, `YamlLosses` | which documents it reads without losing anything |
| `YamlFaults`, `YamlRejections` | which documents it rejects, and with which error |
| `Limiter` | the sharded, sweeping token-bucket limiter |
| `Bytes`, `ClientHello`, `ClientHelloWire`, `Replay` | the SNI parser, its wire format, reading and replaying a hello |
| `WebSocket`, `WebSocketWire` | dashboard framing and its wire format |
| `Breaker`, `Health` | circuit breaker and health hysteresis over whole traces |
| `Counting`, `AcceptLoop`, `ConnLimit` | accept loop, handlers and Close; the HTTP connection limit |
| `LeastConn`, `Sessions` | least connections, and who holds its counts |
| `Listeners`, `ListenerFields`, `Snapshots`, `Reload`, `Watcher` | building, diffing and replacing the runtime snapshot |
| `Monitoring`, `Interference`, `Overlap`, `Settling` | which checkers run while updates are under way, in turn or at once, and when they have ended |
| `Handoff`, `Restart` | passing sockets to a new process, and the restart protocol |
| `Histogram`, `Scrape` | histograms, their exposition, and scraping one while it is written to |
| `Backend` | the server the balancers choose from |

Conventions. Floats are reals, and Go integers are mathematical integers; widths are written out
where they matter (the `math.MinInt` sentinel, wire fields, 64-bit frame lengths, `strconv.Atoi`).
Clock readings, hash functions, read sizes, crashes and timeouts are parameters or events.
Weights, thresholds and durations are positive, as configuration validation makes them
(`internal/config/validate.go:179`) and DNS discovery does (`internal/discovery/dns.go:80`); the
admin call that adds a backend does not check the weight (`internal/admin/handlers.go:145`).

Where the code does less than one might expect, the model follows the code:

- Sweeping idle clients is invisible exactly when `rate * idleTTL >= burst`; otherwise a client can
  be told more than it is entitled to (`SweepingInvisibleIff`, `SweepingVisible`). The limiter reads
  the clock before it takes the shard's lock (`internal/ratelimit/limiter.go:61-63`); that readings
  do not decrease in lock order is the premise `Timely`.
- `DiffListeners` is exact if and only if no listener name repeats or all listeners are equal
  (`DiffExactIff`, `RepeatedNamesConfused`). Validation rejects repeated names
  (`internal/config/validate.go:105`), so in a reload the diff is exact; the confusion concerns the
  function on its own.
- A partial update whose pool no longer has a health check, while the installed snapshot still has a
  checker for it, starts that checker a second time and then waits for ever in `Stop`, unless the
  checker watches no backend (`PartialFinishesIff`).
- Updates that overlap can install a checker that has been stopped. They never do if and only if all
  of them stop the same checkers (`OverlapSafeIff`): two reloads, two updates of one pool, updates of
  pools without checkers, or a reload beside an update of the only checked pool (`TwoOverlapIff`).
- Even then, all but the last to swap leave the checkers they made running, installed nowhere, and no
  later update ever stops them (`LeakIsOrphan`, `OrphanForever`). Updates that overlap end with
  exactly the installed checkers running if and only if they stop the same checkers and make none
  (`EndsAtRestIff`, `TwoHarmlessIff`).
- A partial update drops the pool's retry setting (`UpdateIsRebuildIff`).
- Names with a comma or a colon do not survive the hand-over to a new process (`RecoveredIff`).
- A configuration line that has no place where it stands is dropped without an error, and often all
  that follow with it: after the top-level mapping has ended (`DeeperLineLost`), and inside a list
  item, after which the list goes on (`ItemLineLost`). A key given twice in one mapping is no error
  either: the earlier value is lost, with its whole block (`RepeatedKeyLost`, `RepeatedBlockLost`).
  The tree has every entry and item of the lines if and only if they are properly nested and no
  mapping repeats a key, a condition on indentation, kind and key of the lines (`ReadWholeIff`).
- A reload that fails on a certificate leaves the certificates of the listeners before it replaced
  (`CheckAndReload`).

## Model

| member | source | states |
|---|---|---|
| `WrrBalancer.WeightedRoundRobin.constructor` | internal/balancer/wrr.go:30-36 | a new balancer has every current weight zero and the total of all weights |
| `WrrBalancer.WeightedRoundRobin.RebuildWeights` | internal/balancer/wrr.go:40-47 | a fresh zero for every backend, total over all backends |
| `WrrBalancer.WeightedRoundRobin.UpdateBackends` | internal/balancer/wrr.go:103-111 | replacing the backends resets every current weight and the total |
| `WrrBalancer.WeightedRoundRobin.Candidates` | internal/balancer/wrr.go:61-73 | exactly the backends that are healthy, not draining and not cut off by their breaker, in order, and the total of their weights |
| `WrrBalancer.WeightedRoundRobin.RaiseAndSearch` | internal/balancer/wrr.go:85-93 | every candidate raised in place by its weight; the first of maximal raised weight is found, or index 0 if all raised weights have sunk to the sentinel |
| `WrrBalancer.WeightedRoundRobin.Pick` | internal/balancer/wrr.go:52-98 | fails exactly if every backend is unhealthy, draining or cut off by its breaker; otherwise raises the others and charges the one it returns, the one-candidate shortcut included; that is the winner, is none of these three, and the weights are the stepped ones, unless several candidates have all sunk to the sentinel, when it is the first backend |
| `WrrBalancer.SingleCandidate` | internal/balancer/wrr.go:78-80 | with one candidate a step changes nothing, so skipping it is right |
| `WrrBalancer.RunAboveSentinel` | internal/balancer/wrr.go:85-93 | no reachable raised weight sinks to `math.MinInt`, however flags change, if total weight times pool size fits a word |
| `Wrr.BestIsBest` | internal/balancer/wrr.go:85-93 | the winner is selectable, of maximal raised weight, and the first such |
| `Wrr.RunSumZero` | internal/balancer/wrr.go:61-97 | current weights add up to zero after any picks under any changes of the selectable set |
| `Wrr.RunBounded` | internal/balancer/wrr.go:61-97 | under arbitrary flag changes every current weight stays within T(n-1)/2 of zero |
| `Wrr.AfterAboveMinusTotal` | internal/balancer/wrr.go:61-97 | under a fixed selectable set of total T every current weight stays above -T |
| `Wrr.Ledger` | internal/balancer/wrr.go:61-97 | a current weight is what the backend is due minus what it was given |
| `Wrr.RoundResets` | internal/balancer/wrr.go:40-98 | after T picks every current weight is zero again |
| `Wrr.WindowExact` | internal/balancer/wrr.go:40-98 | any T consecutive picks, at any offset, return each selectable backend exactly weight-many times |
| `Wrr.Smooth` | internal/balancer/wrr.go:61-97 | after k picks a backend of weight w among m was chosen fewer than kw/T + 1 and more than kw/T - (m-1) times |
| `Yaml.StripComment` | internal/config/yaml.go:85-104 | cuts at the first hash outside quotes |
| `Yaml.SplitIndent` | internal/config/yaml.go:110-119 | leading spaces and the rest; a tab in the indentation is an error |
| `Yaml.Preprocess` | internal/config/yaml.go:60-81 | the non-empty lines with number, indentation and content, or the first error |
| `Yaml.ParseMapping` | internal/config/yaml.go:170-213 | the entries at exactly one indentation, with scalars, nested blocks and flush or indented lists; a repeated key keeps its last value, a line without a key is an error |
| `Yaml.ParseSequence` | internal/config/yaml.go:219-270 | the items at exactly one indentation, with inline first entries re-read as a block two columns in |
| `Yaml.ParseValue` | internal/config/yaml.go:156-164 | a mapping or a sequence, by the first line |
| `Yaml.ParseYAML` | internal/config/yaml.go:40-56 | the whole document: the top-level mapping, empty for an empty document |
| `YamlLayout.EntriesParse` | internal/config/yaml.go:170-213 | the printed entries of any block parse to that block and end where it ends |
| `YamlLayout.ItemsParse` | internal/config/yaml.go:219-270 | the printed items of any list parse to that list and end where it ends |
| `YamlLayout.InlineParses` | internal/config/yaml.go:246-263 | a block that starts on the line of its dash parses to that block |
| `YamlDocument.RoundTrip` | internal/config/yaml.go:40-285 | any tree, laid out with any indentation, keys without a value and bare dashes, and with blank lines, comments and carriage returns anywhere, is read back; where no block repeats a key, nothing written is lost at any depth |
| `YamlDocument.EveryTreeHasADocument` | internal/config/yaml.go:40-285 | every tree of plain keys and one-line scalars that double or single quotes can hold is the value of some document |
| `YamlNesting.ReadWholeIff` | internal/config/yaml.go:40-270 | a document is accepted with every entry and item of its lines in the tree if and only if its lines are properly nested and no mapping is given a key twice |
| `YamlNesting.WellNestedAccepted` | internal/config/yaml.go:40-56 | a properly nested document is accepted |
| `YamlNesting.NestedApart` | internal/config/yaml.go:246-263 | the block copied out of an item is as well nested on its own as in its surroundings |
| `YamlNesting.BlockAtMost` | internal/config/yaml.go:170-270 | a block never holds more than its lines do, and as much only if it goes on to the last line |
| `YamlNesting.RestLost` | internal/config/yaml.go:172-213 | after a key with a value, a line at another indentation ends the mapping, and it and all that follow are lost |
| `YamlNesting.ItemLinesLost` | internal/config/yaml.go:250-261 | after the first entry of an item, lines too far in are lost and the list goes on behind them |
| `YamlLosses.DeeperLineLost` | internal/config/yaml.go:51-55 | documents accepted with all but their first line lost |
| `YamlLosses.DeeperLineLostAt` | internal/config/yaml.go:51-55 | on the lines a: 1, b: 2 further in, c: 3 only a is read |
| `YamlLosses.ItemLineLost` | internal/config/yaml.go:256-261 | documents accepted with a line lost inside a list item |
| `YamlLosses.ItemLineLostAt` | internal/config/yaml.go:256-261 | on k with the items a: 1 and x, b: 2 too far in between them is lost and x is read |
| `YamlLosses.RepeatedKeyLost` | internal/config/yaml.go:184-187 | documents that give one key two values are accepted with the second alone |
| `YamlLosses.RepeatedKeyLostAt` | internal/config/yaml.go:184-187 | on the lines a: 1, a: 2 the first is lost |
| `YamlLosses.RepeatedBlockLost` | internal/config/yaml.go:194-200 | with one key over two blocks, the whole first block is lost |
| `YamlFaults.SplitFault` | internal/config/yaml.go:138-153 | an entry is an error exactly if it has no colon, or only spaces before the first; it has no value on its line exactly if only spaces follow |
| `YamlFaults.SplitIff` | internal/config/yaml.go:138-153 | it is read as a key and a value if and only if its text is that key, a colon and that value, with spaces around them |
| `YamlFaults.ScalarExact` | internal/config/yaml.go:277-285 | a scalar loses the spaces around it, and its quotes exactly if they match |
| `YamlFaults.ScanApart` | internal/config/yaml.go:246-263 | the first error in the block copied out of an item, or else behind it, is the first one of a pass over all lines |
| `YamlFaults.BlockScan` | internal/config/yaml.go:170-263 | the recursive descent fails exactly with the first error that one pass with a stack of open blocks finds |
| `YamlRejections.LineByText` | internal/config/yaml.go:60-122 | a source line is an error, nothing, or a line, told by its text: a tab behind its leading spaces, or only spaces before its comment |
| `YamlRejections.TabsRefused` | internal/config/yaml.go:60-81 | preprocessing fails exactly at the first line indented with a tab |
| `YamlRejections.RejectedIff` | internal/config/yaml.go:40-263 | a document is rejected with an error if and only if it is wrong in that way and in none that comes before: a tab, a first line that is indented, then the first line found without a colon or without a key |
| `YamlRejections.BadLineRejected` | internal/config/yaml.go:138-142 | any tree in any layout, with one more line at the margin that has no colon, is rejected with the number of that line |
| `YamlRejections.WholeHasKeys` | internal/config/yaml.go:138-153 | in a document read whole every line without a dash has a colon and a key |
| `YamlNodes.NodesPut` | internal/config/yaml.go:185 | an entry under a new key adds itself and its value to the tree, under an old key it adds less |
| `Limiter.Limiter.constructor` | internal/ratelimit/limiter.go:38-55 | sixteen empty shards |
| `Limiter.Limiter.Allow` | internal/ratelimit/limiter.go:60-102 | one request step on the client's shard: refill, cap, spend; `AdmittedIff` says which requests that admits |
| `Limiter.Limiter.EvictShard` | internal/ratelimit/limiter.go:125-134 | one sweep step: every idle bucket of the shard and no other is deleted |
| `Limiter.Limiter.Evict` | internal/ratelimit/limiter.go:123-135 | a whole sweep leaves no idle bucket in any shard and loses no other |
| `Limiter.SweepingInvisible` | internal/ratelimit/limiter.go:60-135 | if rate * idleTTL >= burst, sharding and sweeping never change an answer, in any interleaving and under any hash |
| `Limiter.SweepingVisible` | internal/ratelimit/limiter.go:123-135 | otherwise some run answers a client differently |
| `Limiter.SweepingInvisibleIff` | internal/ratelimit/limiter.go:60-135 | sweeping is invisible in every run if and only if rate * idleTTL >= burst |
| `Limiter.ClientsIndependent` | internal/ratelimit/limiter.go:60-76 | a client's answers depend on its own requests alone |
| `Limiter.RateBound` | internal/ratelimit/limiter.go:86-102 | any consecutive requests from time s to t have at most burst + rate(t-s) admissions |
| `Limiter.ShardedRateBound` | internal/ratelimit/limiter.go:60-135 | the same bound for the limiter as it runs, shared, sharded and swept |
| `Limiter.FoundIsLeast` | internal/ratelimit/limiter.go:86-102 | the tokens a request finds are the least that is left of any budget begun at an earlier request |
| `Limiter.AdmittedIff` | internal/ratelimit/limiter.go:86-102 | a request is admitted if and only if, counted from any earlier request of the client, it keeps within burst + rate(t-s) |
| `Limiter.ShardedAdmittedIff` | internal/ratelimit/limiter.go:60-135 | the same rule for the limiter as it runs, shared, sharded and swept |
| `Limiter.TokensLegal` | internal/ratelimit/limiter.go:86-102 | tokens stay between zero and burst |
| `Limiter.SpacedNeverRefused` | internal/ratelimit/limiter.go:86-102 | a client leaving at least 1/rate between requests is never refused |
| `ClientHello.ParseSNIExtension` | internal/proxy/l4/clienthello.go:177-211 | walks the name list by offset; equals the recursive reading, each error included |
| `ClientHello.WalkExtensions` | internal/proxy/l4/clienthello.go:144-167 | walks the extensions up to the first server_name; equals the recursive reading |
| `ClientHello.ParseSNI` | internal/proxy/l4/clienthello.go:44-167 | on every byte string the same name or error as the recursive reading, within bounds |
| `ClientHelloWire.RecordComplete` | internal/proxy/l4/clienthello.go:44-211 | every well-formed record is accepted with the name it carries, or the empty name |
| `ClientHelloWire.RecordSound` | internal/proxy/l4/clienthello.go:44-211 | whatever is accepted is the encoding of a well-formed record that carries the reported name |
| `ClientHelloWire.AcceptsExactly` | internal/proxy/l4/clienthello.go:44-211 | a name is reported if and only if the bytes encode a record carrying it |
| `ClientHelloWire.HeaderErrors` | internal/proxy/l4/clienthello.go:45-91 | which error each faulty record or handshake header gives |
| `ClientHelloWire.CutOff` | internal/proxy/l4/clienthello.go:93-142 | a hello cut off within a part is refused for that part |
| `ClientHelloWire.NameErrors` | internal/proxy/l4/clienthello.go:144-211 | which error a faulty extension, server name list or name gives |
| `Replay.ReadHeader` | internal/proxy/l4/clienthello.go:230-238 | five bytes and nothing more, however they arrive |
| `Replay.ReadClientHello` | internal/proxy/l4/clienthello.go:223-264 | for every chunking: success consumes exactly header and record; failures are the connection's, or an oversized record |
| `Replay.BufferedConn.Read` | internal/proxy/l4/tls_passthrough.go:361-368 | nothing lost, repeated or reordered; buffered bytes are drained first and never mixed with new ones |
| `Replay.Forward` | internal/proxy/l4/tcp.go:345-351 | for every sequence of buffer sizes and of bytes taken by the writes, what is sent, lost in the write that fell short and left make up what was to come |
| `Replay.FirstRecordDecides` | internal/proxy/l4/tls_passthrough.go:240-248 | bytes after the first record do not affect the routing name |
| `Replay.HandleConn` | internal/proxy/l4/tls_passthrough.go:235-319 | the backend receives the client's stream from its first byte, as far as it takes it; the route is the name in the first record, for every chunking; nothing is sent without a backend; a client is dropped only on a connection failure or a bad record |
| `WebSocket.FrameHeader` | internal/admin/dashboard/websocket.go:324-346 | the header bytes in the three length forms, masked or not |
| `WebSocket.Unmask` | internal/admin/dashboard/websocket.go:394-398 | the payload array is exclusive-ored in place with the key, byte i with key byte i mod 4 |
| `WebSocket.ReadFrame` | internal/admin/dashboard/websocket.go:354-400 | the frame or error the bytes decode to, and the reader left behind that frame |
| `WebSocketWire.FrameRead` | internal/admin/dashboard/websocket.go:354-400 | any frame, in any length form that holds it, is read back; one above the limit is refused with its length |
| `WebSocketWire.ReadsExactly` | internal/admin/dashboard/websocket.go:354-400 | a read yields opcode, payload and rest if and only if the bytes are such a frame followed by the rest |
| `WebSocketWire.MaskedTwice` | internal/admin/dashboard/websocket.go:394-398 | masking twice with one key is the identity |
| `WebSocketWire.MaskIs` | internal/admin/dashboard/websocket.go:394-398 | byte i of a masked payload differs from the payload in exactly the bits set in byte i mod 4 of the key |
| `WebSocketWire.HeaderEncodes` | internal/admin/dashboard/websocket.go:324-346 | a written header, key and masked payload are one such frame |
| `WebSocketWire.HeaderShortest` | internal/admin/dashboard/websocket.go:328-341 | the length form written is the shortest that holds the length |
| `WebSocketWire.ConversationRead` | internal/admin/dashboard/websocket.go:324-400 | any sequence of frames is read back as sent and the stream is left at the next boundary |
| `Breaker.CircuitBreaker.constructor` | internal/circuitbreaker/breaker.go:55-63 | starts closed with no failures or probes, leaving the flag as it is |
| `Breaker.CircuitBreaker.RecordSuccess` | internal/circuitbreaker/breaker.go:68-82 | the step of a recorded success |
| `Breaker.CircuitBreaker.RecordFailure` | internal/circuitbreaker/breaker.go:87-101 | the step of a recorded failure |
| `Breaker.CircuitBreaker.Allow` | internal/circuitbreaker/breaker.go:107-130 | the step of an Allow, and whether it lets the request through |
| `Breaker.CircuitBreaker.OpenCircuit` | internal/circuitbreaker/breaker.go:133-139 | open, counters cleared, time noted, flag up |
| `Breaker.CircuitBreaker.GetState` | internal/circuitbreaker/breaker.go:142-153 | the step of a query, half-open with no probe used once the time is up |
| `Breaker.FlagExact` | internal/circuitbreaker/breaker.go:68-153 | in every run the flag is up exactly while the circuit is open, and counters stay within their limits |
| `Breaker.OpensExactly` | internal/circuitbreaker/breaker.go:87-101 | a closed circuit opens exactly at the failure completing threshold failures in a row since the last success or close |
| `Breaker.OpenUntil` | internal/circuitbreaker/breaker.go:107-153 | it stays open exactly until a call that looks at it openDuration or more after it opened |
| `Breaker.ClosedLetsAll` | internal/circuitbreaker/breaker.go:107-130 | once closed, every request is let through until an event opens the circuit |
| `Breaker.NoneWhileOpen` | internal/circuitbreaker/breaker.go:107-130 | no Allow succeeds within openDuration of opening |
| `Breaker.ProbesExact` | internal/circuitbreaker/breaker.go:68-130 | until an outcome is recorded, a half-open circuit lets through exactly its first halfOpenMaxProbes requests; then a success closes it and a failure opens it |
| `Health.BackendHealth.Apply` | internal/health/checker.go:194-222 | the step of one probe result |
| `Health.BackendHealth.MarkFailed` | internal/health/checker.go:122-131 | the step of a reported dial failure |
| `Health.Checker.RunCheck` | internal/health/checker.go:177-223 | a probe of one backend changes that backend alone |
| `Health.Checker.ReportFailure` | internal/health/checker.go:119-136 | only the first backend at the address is affected |
| `Health.GoesDownExactly` | internal/health/checker.go:119-222 | a healthy backend goes down exactly on a dial failure or the unhealthy_threshold-th failed probe in a row since its last success |
| `Health.ComesBackExactly` | internal/health/checker.go:194-207 | it comes back exactly on the healthy_threshold-th success in a row since it went down |
| `Health.BackendsIndependent` | internal/health/checker.go:119-222 | in any run of a pool each backend's state is that of its own events |
| `Health.PoolGoesDownExactly` | internal/health/checker.go:119-222 | in a run of a whole pool a healthy backend goes down exactly on a dial failure at its address, if it is the first there, or on its unhealthy_threshold-th failed probe in a row |
| `Health.PoolComesBackExactly` | internal/health/checker.go:119-222 | and comes back exactly on its healthy_threshold-th successful probe in a row since it went down |
| `AcceptLoop.StepKeeps` | internal/proxy/l4/tcp.go:121-232 | each step keeps slots, WaitGroup, connections and closing accounted for |
| `AcceptLoop.EveryRun` | internal/proxy/l4/tcp.go:121-232 | in every interleaving slots in use are those of unreleased handlers plus the acceptor's, within the limit; each accepted connection is dropped or has exactly one handler |
| `AcceptLoop.NothingBlocks` | internal/proxy/l4/tcp.go:121-181 | no receive from the semaphore blocks, the WaitGroup never goes negative, and the acceptor has a next step until it has returned |
| `AcceptLoop.TurnedAwayOnlyIfFull` | internal/proxy/l4/tcp.go:152-170 | a connection is turned away only if all slots were taken by handlers at work, or Close had been called |
| `AcceptLoop.ReturnsOnlyWhenDone` | internal/proxy/l4/tcp.go:121-170 | the loop ends only if accepting failed for good, or after Close |
| `AcceptLoop.AcceptsNoMore` | internal/proxy/l4/tcp.go:161-169 | an acceptor that has seen Close takes no further connection |
| `AcceptLoop.DrainedForGood` | internal/proxy/l4/tcp.go:210-232 | once Close's wait has returned no handler is alive and none ever starts |
| `AcceptLoop.DrainProgresses` | internal/proxy/l4/tcp.go:210-232 | while Close waits some handler step is possible, or the wait returns |
| `AcceptLoop.DrainBounded` | internal/proxy/l4/tls_passthrough.go:141-231 | from Close on, handlers make a bounded number of steps in any run, and then the WaitGroup is empty |
| `ConnLimit.RunKeeps` | internal/proxy/l7/server_conn_limit.go:51-79 | slots in use are exactly those not given back, within the limit, in every run |
| `ConnLimit.RefusedOnlyIfFull` | internal/proxy/l7/server_conn_limit.go:51-70 | a connection is refused only if as many others hold a slot as the limit allows |
| `ConnLimit.CloseNeverBlocks` | internal/proxy/l7/server_conn_limit.go:74-79 | the receive in Close never blocks |
| `ConnLimit.GivenBackOnce` | internal/proxy/l7/server_conn_limit.go:74-79 | however often a connection is closed, its slot is given back at most once |
| `LeastConn.LeastConnections.Pick` | internal/balancer/lc.go:38-64 | none exactly if every backend is unhealthy, draining or cut off by its breaker; otherwise, of the others, fewest connections, then more weight, then earlier |
| `LeastConn.LeastConnections.Acquire` | internal/balancer/lc.go:69-73 | one more for the address, all others unchanged |
| `LeastConn.LeastConnections.Release` | internal/balancer/lc.go:78-85 | one less for the address, not below zero, all others unchanged |
| `LeastConn.BestUnique` | internal/balancer/lc.go:47-58 | there is one best backend |
| `Sessions.StepKeeps` | internal/proxy/l4/udp.go:241-310 | each step of stream handlers and UDP servers keeps every count equal to its holders |
| `Sessions.CountsExact` | internal/proxy/l4/udp.go:183-386 | in every run, inside the mutex sections too, each count is the number of real holders |
| `Sessions.CountsAtRest` | internal/proxy/l4/udp.go:183-386 | outside them: stream handlers holding the address plus sessions mapped to it |
| `Sessions.ClampNeverFires` | internal/balancer/lc.go:78-85 | Release never meets a count of zero |
| `Sessions.PickFewestHolders` | internal/balancer/lc.go:38-64 | the best backend by counts is the best by real holders |
| `Sessions.ClosedForGood` | internal/proxy/l4/udp.go:183-205 | after Close a UDP server holds nothing and never will |
| `Sessions.CanClose` | internal/proxy/l4/udp.go:183-310 | whatever a UDP server is doing, it can get out of its mutex and be closed |
| `Listeners.BuildFingerprints` | internal/reload/watcher.go:216-231 | name, address, protocol and TLS mode of each listener, in order |
| `Listeners.DiffListeners` | internal/runtime/snapshot.go:274-321 | no change is reported exactly if lengths agree, every new entry is the last old one of its name, and no old name is missing; otherwise the first unknown new entry with the first field that differs, or the first old one that is gone |
| `Listeners.AcceptsReorderings` | internal/runtime/snapshot.go:274-321 | from unique names, accepted exactly when the two lists are reorderings |
| `Listeners.RepeatedNamesConfused` | internal/runtime/snapshot.go:281-284 | two listeners of one name pass for two equal ones |
| `Listeners.DiffExactIff` | internal/runtime/snapshot.go:274-321 | the diff tells every change if and only if no name repeats or all listeners are equal |
| `ListenerFields.AcceptsIff` | internal/runtime/snapshot.go:274-321 | of listeners with unique names the diff accepts exactly the same ones in any order: same name, address, protocol and TLS mode, no mode counting as the empty one |
| `ListenerFields.ReportExplains` | internal/runtime/snapshot.go:276-318 | a reported change names the first new listener that matches no old one, and the first field in which it differs, or a listener that is gone |
| `Snapshots.BuildSnapshot` | internal/runtime/snapshot.go:168-269 | for every pool of the configuration, and no other, a state with all its settings; certificate stores of exactly the listeners that terminate TLS; fingerprints and new checkers |
| `Snapshots.CheckersDistinct` | internal/runtime/snapshot.go:206-211 | no two pools share a checker |
| `Snapshots.ReporterInstalled` | internal/runtime/snapshot.go:206-211 | failures of a pool go to the checker installed for it, which watches that pool's servers |
| `Snapshots.UpdatePoolBackends` | internal/runtime/partial_update.go:28-94 | the current snapshot with one pool replaced, all its settings but the retry one taken over; other pools, their checkers, certificate stores and listeners stay |
| `Snapshots.UpdateIsRebuildIff` | internal/runtime/partial_update.go:67-73 | the replaced pool equals a freshly built one if and only if it has no retry setting |
| `Snapshots.BackendSetsEqual` | internal/runtime/poller.go:170-188 | equal exactly if the addresses agree as multisets |
| `Reload.ListenersNeverChange` | internal/reload/watcher.go:143-201 | under any interleaving of updates, from stale snapshots too, the installed listeners stay the same |
| `Reload.ListenersAgree` | internal/reload/watcher.go:143-201 | under any interleaving of updates, the listeners of the configuration that is running are those of the first, in name, address, protocol and TLS mode |
| `Watcher.Validate` | internal/config/validate.go:92-111 | valid exactly if the fields are and no pool or listener name repeats |
| `Watcher.Runtime.constructor` | cmd/lb/main.go:153-203 | a process starts at rest, with exactly the checkers of its snapshot running |
| `Watcher.Runtime.Start` | internal/health/checker.go:88-101 | one more group of probes, if there are backends to watch |
| `Watcher.Runtime.Stop` | internal/health/checker.go:106-113 | the last group cancelled and its end awaited |
| `Watcher.Runtime.RefreshCertificates` | internal/reload/watcher.go:160-179 | certificates replaced listener by listener, up to the first that cannot be loaded |
| `Watcher.CertificatesExact` | internal/reload/watcher.go:160-179 | exactly the stores of the listeners that terminate TLS, before the first whose certificates cannot be loaded, hold what was loaded for them |
| `Watcher.Runtime.Install` | internal/reload/watcher.go:195-206 | start, swap, stop: where the steps of one reload of this configuration lead, at rest again |
| `Watcher.Runtime.CheckAndReload` | internal/reload/watcher.go:119-212 | goes through exactly if nothing stands in the way, a change of a listener's name, address, protocol or TLS mode included, and then is where the steps of one reload of this configuration lead; otherwise reports the first obstacle and touches neither snapshot nor checkers |
| `Monitoring.StepKeeps` | internal/reload/watcher.go:195-206 | each orderly step keeps every installed checker running and every running checker accounted for |
| `Monitoring.AlwaysMonitored` | internal/runtime/poller.go:144-167 | if each swap replaces the snapshot it was built from, every installed checker runs at every step, no stop blocks, and at rest exactly the installed checkers run |
| `Monitoring.SerialAlwaysMonitored` | internal/reload/watcher.go:195-206 | so it is when updates run one at a time |
| `Interference.CanFinish` | internal/runtime/poller.go:157-167 | an update whose snapshot is still installed can run to its end, and all stays well |
| `Interference.PartialFinishesIff` | internal/runtime/partial_update.go:75-81 | an update of one pool on its own finishes if and only if it brings a checker, or the pool has none, or the installed pool has no servers |
| `Overlap.OverlapSafeIff` | internal/runtime/poller.go:144-167 | any number of updates built from the installed snapshot keep every installed checker running, in every interleaving, if and only if all stop the same checkers |
| `Overlap.Loses` | internal/admin/handlers.go:127-162 | otherwise some interleaving installs a stopped checker |
| `Overlap.TwoOverlapIff` | internal/reload/watcher.go:143-206 | two updates of any kind keep every installed checker running, in every interleaving, if and only if both keep the health-check settings and, by the pools they touch, stop the same checkers |
| `Overlap.LosesAlone` | internal/runtime/partial_update.go:75-81 | an update that drops the checker of its pool leaves it installed and stopped |
| `Settling.MidwayStep` | internal/reload/watcher.go:195-206 | each step of updates that overlap keeps the account of what has been started and stopped |
| `Settling.AllEnded` | internal/reload/watcher.go:195-206 | in every interleaving to the end, exactly what ran or was to be started and nobody stops is left running, and one of the updates has its snapshot installed |
| `Settling.EndWith` | internal/runtime/poller.go:144-167 | any of the updates can be the one |
| `Settling.EndsAtRestIff` | internal/runtime/poller.go:144-167 | every interleaving ends with exactly the installed checkers running if and only if there is at most one update, or all stop the same checkers and none makes any |
| `Settling.CanComplete` | internal/runtime/poller.go:157-167 | updates built from the installed snapshot can always be brought to their end |
| `Settling.LeakIsOrphan` | internal/admin/handlers.go:127-162 | otherwise some interleaving leaves a checker running that is installed nowhere |
| `Settling.OrphanForever` | internal/reload/watcher.go:195-206 | and no later update, however it overlaps with others, stops that checker |
| `Settling.TwoHarmlessIff` | internal/reload/watcher.go:143-206 | two updates of any kind keep every installed checker running and leave nothing else running, in every interleaving, if and only if both keep the settings, stop the same checkers and bring none |
| `Handoff.Export` | internal/restart/restart.go:77-113 | nothing without listeners; otherwise sockets in the order of names with the readiness pipe last, names with their index, and the pipe's descriptor |
| `Handoff.SortSame` | internal/restart/restart.go:81-85 | sorting by name keeps every listener |
| `Handoff.SortInOrder` | internal/restart/restart.go:81-85 | and puts them in the order of their names |
| `Handoff.PrecedesIff` | internal/restart/restart.go:83-85 | a prefix comes first, otherwise the first character in which two names differ decides |
| `Handoff.ReconstructListeners` | internal/restart/restart.go:191-236 | in a child, the entries that parse and the readiness descriptor; nothing elsewhere |
| `Handoff.AtoiItoa` | internal/restart/restart.go:94 | a printed index is read back |
| `Handoff.ItoaDecimal` | internal/restart/restart.go:94 | numbers are written in the decimal system |
| `Handoff.ListRecovered` | internal/restart/restart.go:81-233 | the child reads back exactly the list the parent wrote |
| `Handoff.RecoveredIff` | internal/restart/restart.go:81-233 | listeners of different names all arrive with their own sockets, in whatever order exported, if and only if no name has a comma or colon |
| `Handoff.HandedOver` | internal/restart/restart.go:81-233 | the same for the order the parent exports them in |
| `Handoff.PipeArrives` | internal/restart/restart.go:104-112 | the process the parent starts takes itself for a child, and the readiness pipe is at the descriptor it is told |
| `Restart.StepKeeps` | internal/restart/restart.go:71-185 | each step keeps lock, triggers and children consistent |
| `Restart.OneUnreadyChild` | internal/restart/restart.go:71-185 | at most one child is not yet ready, and its trigger holds the lock |
| `Restart.DrainsOnlyForReadyChild` | cmd/lb/main.go:168-177 | the parent drains for a restart only if earlier in the run a child wrote the ready byte and the parent read it from that child's pipe |
| `Restart.SucceedsIff` | internal/restart/restart.go:143-185 | a trigger succeeds if and only if the parent reads the ready byte off its child's pipe and decides on it |
| `Restart.CanDrain` | cmd/lb/main.go:168-177 | and then can go on until the parent drains |
| `Restart.CanEnd` | internal/restart/restart.go:157-184 | a trigger at work can always be brought to its end, without a word from its child |
| `Restart.RejectedHasNoChild` | internal/restart/restart.go:72-75 | a trigger that finds another at work is rejected and never has a child |
| `Restart.NothingLeftBehind` | internal/restart/restart.go:143-184 | between triggers the lock is free, no child is half-started, and the next trigger goes ahead |
| `Restart.FailureIsHarmless` | internal/restart/restart.go:157-184 | a failed trigger leaves no live child, stays failed in every continuation, and never asks the parent to drain |
| `Histogram.SortSorts` | internal/metrics/histogram.go:36-44 | the boundaries in ascending order, none lost |
| `Histogram.Histogram.constructor` | internal/metrics/histogram.go:36-44 | sorted boundaries and zero counts |
| `Histogram.Histogram.Search` | internal/metrics/histogram.go:50 | the first boundary not below the value, by binary search |
| `Histogram.Histogram.Observe` | internal/metrics/histogram.go:47-52 | one more observation, with the tallies and the sum in nanoseconds kept |
| `Histogram.NanosClose` | internal/metrics/histogram.go:48 | the sum kept is off by at most a nanosecond for each observation |
| `Histogram.Histogram.Export` | internal/metrics/exposition.go:89-118 | the line of each boundary counts the observations not above it; lines never decrease; +Inf is the count; the sum line is the sum of the observations, to a nanosecond for each |
| `Scrape.StepKeeps` | internal/metrics/histogram.go:47-78 | each step of observers and a scrape keeps counts exact and what was read within bounds |
| `Scrape.ScrapeConsistent` | internal/metrics/exposition.go:89-118 | a scrape alongside observers counts at least what was complete when it began and at most what is complete now; its buckets never decrease; +Inf never exceeds the count read |
| `Scrape.BeganWith` | internal/metrics/exposition.go:89-97 | what a scrape counts as complete is what was when it began |

## Left out

- Sockets, TLS handshakes, certificates, signals, timers, logging and process creation: only their outcomes appear, as events.
- Configuration decoding and validation: flat field checks, of which only repeated names are modelled and otherwise only the facts they establish are used.
- RoundRobin, IPHash, Random, route matching and header rewriting: short selections that would only add easy members.
- The HTTP retry path: neither a retry bound nor conservation of in-flight slots is something its code provides.
- Recovery of an open circuit through Pick: no proxy path calls `Allow` or `State`, so the breaker is proved as a unit.
- Count conservation when a UDP pool is swapped: sessions release on the balancer of the day, so it does not hold.
- AcceptLoop, ConnLimit, Sessions, Reload, Restart and Scrape model shared objects as values stepped by events; aliasing between goroutines appears only as the interleaving of these steps.
- AcceptLoop: `active`, the accept retry delay and the deadline of Close are not modelled; accepting may fail or succeed at any time.
- Sessions: each eviction takes the mutex on its own, which allows more interleavings than the loop that holds it throughout.
- Reload: cancelling a checker's probes takes effect at once; that probes take time to end only delays the wait.
- Snapshots: a discovered pool's upstreams are given; a failing discovery adapter or certificate is a failed reload.
- Restart: draining on SIGINT or SIGTERM is not modelled, only draining for a restart.
- WrrBalancer.WeightedRoundRobin.Pick: overflow of current weights is not modelled; `RunBounded` and `RunAboveSentinel` bound them in every run.
- Limiter.Limiter.Evict: describes a sweep with nothing between its shards; the theorems are about `EvictShard`, which other calls may come between.
- YamlDocument.EveryTreeHasADocument: leaves out scalars that hold both kinds of quotes, of which only some can be written.
- Histogram.Histogram.Observe: does not model the wrap-around of 64-bit counters, or NaN.
- Watcher.Runtime.CheckAndReload: the clean-up of metrics for removed backends is not modelled.
