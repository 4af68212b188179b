# TSPU X: a verified model of the policy pipeline

TSPU X enforces access rules on a home network with five cooperating processes: an admin backend
(Python) that owns the rule list, a rule engine with one worker per client (Elixir), a packet sniffer
and proxy that holds block and throttle tables (C++), and an aggregation store (Scala). This project
models the parts in which those processes could disagree, lose something or stop, and proves what the
system is for: that what the proxy answers is what the admin's rules say.

The model follows the shape of the code. Tables, sockets, the pool, the repository, the backend and
the subscribers are classes whose methods change their fields; the parsers and the command handler
are loops over bytes or characters; matching, command construction and session accounting are
functions over values. Each method is tied to a specification function, and the theorems are about
those functions.

| file | what it models |
|---|---|
| `Text.dfy`, `Bytes.dfy` | substring search, bytes, big-endian numbers |
| `WorkerPool.dfy` | the proxy's worker pool as a step machine: mutex, condition variable, notifications in flight, spurious wakeups, draining destructor |
| `PolicyTables.dfy` | block and throttle tables keyed `ip:pattern`, wildcards, lazy erasure, sweep, withdrawals |
| `TableRuns.dfy` | runs of table operations against tables that never erase expired entries |
| `Commands.dfy` | command payloads as JSON lines, the substring-search reader, the command handler and its connections |
| `QuotedText.dfy`, `CommandChannel.dfy` | what the reader makes of a printed payload, and which commands survive the channel |
| `Cidr.dfy` | octet tuples, shifts and masks, CIDR containment |
| `RuleEngine.dfy` | rule matching, the commands a rule sends and withdraws, the periodic resync |
| `PushedRules.dfy` | lookups at any time after a push, and what one rule means, spelled out |
| `ClientWorker.dfy` | enforcement on a client's own events |
| `RuleReplicas.dfy` | the stored rule list, its messages, and the two replicas |
| `RuleLifecycle.dfy` | a rule added, enforced on events, and removed |
| `EndToEnd.dfy` | admin requests to lookup answers, through every stage in between |
| `SessionTime.dfy` | session-time accounting with late events |
| `TlsParser.dfy`, `DnsParser.dfy`, `Socks5.dfy` | the hand-written wire formats |
| `Relay.dfy` | the full-duplex relay with partial sends and half-close |
| `EventStore.dfy` | read-then-write upserts, deletion, grouping, paging |

## Main results

* **The pool never loses a wakeup** and drains: for any number of workers, any interleaving and any
  spurious wakeups (`NoLostWakeup`, `FifoAndConservation`, `PoolDrains`, `JoinedMeansDrained`), and no
  workload is refused (`AnyWorkloadServed`).
* **The policy is enforced end to end** (`PolicyEnforced`, `PolicyAtAnyTime`): after any sequence of admin requests and
  one resync of an empty proxy, one connection per command, fields in any order, commands sent at any
  times of a UTC day, a lookup answers "blocked" exactly when a rule in the admin's list says so.
* **Expiry housekeeping is unobservable exactly when the clock never goes back**
  (`HiddenIffClockMonotone`).
* **Limits act on measured time** (`LimitEnforced`): an event blocks its domain exactly when the
  number of covered seconds of that domain's events reaches a matching rule's limit.
* **The command reader is characterised on every printed payload** (`ReaderSees`), and so is the set of
  commands that survive every field order (`RoundTripIff`).
* **The TLS and DNS parsers are characterised on all bytes** (`NameFoundIff`): they find a name exactly
  where one is spelled.
* **Every other parser inverts its printer**; a ClientHello or a DNS message cut anywhere gives all or nothing.
* **The relay conserves both streams**, and how sends are split never shows.
* **The store conserves amounts**: sequentially always; concurrently for any number of upserts with
  distinct keys, and for two upserts exactly then (or when the row exists and neither adds anything).

## Where the code falls short of its documentation

The model keeps what the code does. These are the gaps, with the lemma that states each one; where a
property fails, the lemma gives the condition under which it holds, in both directions.

* Changing a rule does not withdraw what its old version wrote (`ChangeLeavesOldKeys`), and removing a
  rule does not withdraw what clients' events wrote under the observed domains (`EventsOutliveRule`): a
  client blocked by a rule for everyone stays blocked after the rule is gone, and so does one that
  visited the bare domain of a wildcard rule (`ClientStaysBlocked`). The removal path promises to
  unblock every affected client.
* A global `block_after_minutes` rule is applied per client and withdrawn only under `global`
  (`GlobalTimedRuleRestores`).
* A push of global or wildcard throttle rules has no effect, since the lookup uses the exact key only
  (`FreshPushThrottles`); such rules take effect on events alone, one observed domain at a time
  (`EventThrottles`).
* The push and the event path enforce a rule differently unless `SameEnforcement` holds
  (`PathsAgree`). For a rule on exactly the event's domain two cases remain (`ExactPathsAgree`): a
  throttle rule for everyone, and a timed rule without a number of minutes, which means 30 minutes to
  the engine and nothing to the worker.
* A bulk reload inserts and never removes (`ReloadConverges`).
* A wildcard withdrawal erases narrower entries of other rules and leaves the bare domain's entry
  (`WithdrawalMeans`).
* The command reader can take a pattern for the field that it names, and it narrows numbers.
  `RoundTripIff` says for which commands every field order is still read back: `Misread` lists the
  harmful patterns, command by command, and `NarrowingHarmless` the harmless numbers.
* A pool without workers never handles anything (`JoinedMeansDrained`); the log line announcing 32
  workers describes a pool created with 256.
* CIDR prefixes outside 0..32 are accepted (`ContainsOutOfRange`).
* Two concurrent upserts to one key lose an update or create a second row (`PairSafeIff`).
* A SOCKS5 host name longer than 255 bytes is sent with a truncated length (`ConnectRoundTrip`).

## Model

| member | source | states |
|---|---|---|
| WorkerPool.NoLostWakeup | cpp/main.cpp:939-965 | in every reachable state, while a worker sleeps unsignalled and the pool is not stopped, queued tasks are at most the signalled workers that have not yet decided plus the notifications in flight; after stop a worker sleeps only until the destructor's notify_all |
| WorkerPool.FifoAndConservation | cpp/main.cpp:939-965 | over every run the tasks that enqueue was called with leave in the order of the calls and unchanged, each one is pushed next, queued, in one handler, or handled, with multiplicity, and no worker has exited while a task is queued |
| WorkerPool.RunCalled | cpp/main.cpp:939-945 | what has entered the queue, and the task of the producer inside enqueue, are exactly the tasks handed over, in the order of the calls |
| WorkerPool.AnyWorkloadServed | cpp/main.cpp:922-972 | for any number of workers and any tasks there is a run that hands over exactly these, handles all of them, and returns from the destructor |
| WorkerPool.AnySchedule | cpp/main.cpp:939-965 | nothing restricts the scheduler: calls, locking, notifications, spurious wakeups and handlers may take place whenever the code allows them |
| WorkerPool.MutualExclusion | cpp/main.cpp:955-962 | at most one worker is in the critical section, and none while a producer or the destructor holds the mutex |
| WorkerPool.JoinedMeansDrained | cpp/main.cpp:930-937 | once the destructor's joins return every task that enqueue was called with has been handled, exactly when the pool has a worker or enqueue was never called |
| WorkerPool.InvPreserved | cpp/main.cpp:922-972 | every single step of any thread keeps the pool's invariant |
| WorkerPool.InternalRunBounded | cpp/main.cpp:953-965 | without new calls and spurious wakeups the pool takes a bounded number of steps |
| WorkerPool.QuiescentMeansDrained | cpp/main.cpp:953-965 | where the pool can take no step by itself the queue is empty, everything enqueued is handled, and the workers all sleep or have all exited |
| WorkerPool.PoolDrains | cpp/main.cpp:922-972 | from any reachable state the pool stops within a bound, and where it stops every task that enqueue was called with is handled |
| WorkerPool.TproxyThreadPool.PushTask | cpp/main.cpp:939-945 | the locked part of enqueue is the machine's push: the task goes last and one notification becomes due |
| WorkerPool.TproxyThreadPool.Decide | cpp/main.cpp:957-961 | the locked part of the worker loop pops the front task if there is one, else exits if stopped, else waits |
| WorkerPool.TproxyThreadPool.NotifyOneWorker | cpp/main.cpp:944-944 | notify_one wakes one sleeper and uses up one notification |
| WorkerPool.TproxyThreadPool.SetStopFlag | cpp/main.cpp:931-934 | the destructor sets stop under the mutex and releases it, and nothing else changes |
| WorkerPool.TproxyThreadPool.NotifyAllWorkers | cpp/main.cpp:935-935 | notify_all wakes every sleeper and leaves the other workers alone |
| PolicyTables.HitIff | cpp/main.cpp:137-162 | an entry stored for an address hits a lookup exactly when it is for the asked address or for everyone and its pattern covers the domain |
| PolicyTables.WithdrawnIff | cpp/main.cpp:188-212 | a withdrawal touches keys of its own address only: the exact pattern, or every pattern with the wildcard's suffix |
| PolicyTables.WithdrawalMeans | cpp/main.cpp:185-214 | after a withdrawal a domain is blocked exactly when a live entry for the address or for everyone covers it and was not one the withdrawal erases |
| PolicyTables.EraseMatching | cpp/main.cpp:189-209 | collecting and then erasing removes exactly the withdrawn keys and keeps every other entry |
| PolicyTables.Sweep | cpp/main.cpp:247-268 | the sweep keeps exactly the live entries |
| PolicyTables.PolicyStore.Check | cpp/main.cpp:129-135 | a keyed probe is true exactly for a live entry, and erases that entry exactly when it has expired |
| PolicyTables.PolicyStore.ScanWildcards | cpp/main.cpp:142-163 | the scan finds a live wildcard entry of the address or of everyone exactly when there is one |
| PolicyTables.PolicyStore.IsBlocked | cpp/main.cpp:125-164 | a block lookup, reading the clock anew for each entry it examines, is true exactly when some entry hits that is live at its own reading, and erases at most the two expired entries it probed |
| PolicyTables.LookupWithinReadings | cpp/main.cpp:125-164 | what is blocked at the last reading of a lookup is reported, and what is reported was blocked at the first |
| PolicyTables.PolicyStore.GetThrottleMs | cpp/main.cpp:167-177 | a throttle lookup gives the live delay under the exact key and zero otherwise, erasing an expired entry |
| PolicyTables.PolicyStore.AddBlock | cpp/main.cpp:179-183 | only the entry of this address and pattern is written |
| PolicyTables.PolicyStore.RemoveBlock | cpp/main.cpp:185-214 | exactly the withdrawn keys leave the block table |
| PolicyTables.PolicyStore.AddThrottle | cpp/main.cpp:216-221 | only the entry of this address and pattern is written |
| PolicyTables.PolicyStore.RemoveThrottle | cpp/main.cpp:223-244 | exactly the withdrawn keys leave the throttle table |
| PolicyTables.PolicyStore.SweepBlocks | cpp/main.cpp:248-257 | the block table keeps exactly its live entries, the throttle table is untouched |
| PolicyTables.PolicyStore.SweepThrottles | cpp/main.cpp:258-267 | the throttle table keeps exactly its live entries, the block table is untouched |
| PolicyTables.PolicyStore.CleanupExpired | cpp/main.cpp:247-268 | both tables keep exactly the entries live at their own reading of the clock |
| TableRuns.Perform | cpp/main.cpp:125-268 | each operation of a run changes and answers as the table methods do |
| TableRuns.HousekeepingUnobservable | cpp/main.cpp:125-268 | over any run under a clock that goes back for no entry, every block and throttle answer is that of tables that never erase an expired entry, each entry being examined at its own reading |
| TableRuns.HiddenIffClockMonotone | cpp/main.cpp:120-177 | no run can tell the two apart exactly when no entry is ever examined at an earlier reading than one at which it was examined or swept before |
| TableRuns.ClockStepBackObserved | cpp/main.cpp:133-133 | wherever the clock goes back for an entry some run is answered differently |
| QuotedText.FindQuoted | cpp/main.cpp:354-358 | searching for a quoted key finds the first stretch between two quote marks that equals it, never a part of a value |
| QuotedText.StringRead | cpp/main.cpp:359-368 | from text without a colon the string extractor reads on to what stands between the two quote marks after the first colon, or nothing if there are not two |
| CommandChannel.FieldFound | cpp/main.cpp:354-378 | in a printed payload the first match of a quoted field name is that field, or a text value equal to it if one comes earlier |
| CommandChannel.ReaderIs | cpp/main.cpp:354-378 | what the two extractors return for a field name on every printed payload, also when values equal field names |
| CommandChannel.ReaderSees | cpp/main.cpp:380-398 | the line that the handler extracts from every printed payload, in any field order and with any plain values |
| CommandChannel.StollReads | cpp/main.cpp:377-377 | a printed integer followed by a non-digit is read back if it has 64 bits and rejected otherwise |
| CommandChannel.StollForms | cpp/main.cpp:377-377 | leading white space and a plus sign are accepted, and text that starts with anything else but a minus sign or a digit is no number |
| CommandChannel.NarrowingWraps | cpp/main.cpp:396-396 | the delay's narrowing to 32 bits stays in range and congruent |
| CommandChannel.SeenElsewhere | cpp/main.cpp:380-398 | in every field order all fields but the one that the pattern names are read as the command's own, absent ones as their defaults |
| CommandChannel.NarrowingHarmless | cpp/main.cpp:386-399 | the reader's integer widths change no outcome exactly when the numbers fit or the command is ignored |
| CommandChannel.CommandRoundTrip | elixir/lib/cpp_bridge.ex:15-34 | printing a payload in any field order and handling the line performs exactly the intended table update, for every command that RoundTripIff admits |
| CommandChannel.RoundTripIff | cpp/main.cpp:354-404 | a command with a printable pattern and a proper address is read back in every field order, on all tables at all times, exactly when its numbers fit or it is ignored anyway, and its pattern is not one that Misread lists |
| CommandChannel.MisreadHarms | cpp/main.cpp:354-378 | for each listed pattern there is a field order in which the line read has another effect on some tables |
| CommandChannel.ForInstance | cpp/main.cpp:354-378 | an unblock of the pattern `cmd` is lost in some order, one of the pattern `domain` in none |
| Commands.HandleCommand | cpp/main.cpp:380-404 | handling a line changes the tables as the extracted fields ask |
| Commands.Dispatch | cpp/main.cpp:385-403 | the four commands, precedence of a duration over an absolute end, and no change for an empty address, an empty pattern or an unknown command |
| Commands.ServeConnection | cpp/main.cpp:425-430 | reading byte by byte handles each line completed by a newline, in order, each at the time when it is complete |
| CommandChannel.ServeLine | cpp/main.cpp:427-429 | whatever was buffered, a newline completes exactly one line |
| CommandChannel.ServeDropsPartialLine | cpp/main.cpp:425-431 | bytes after the last newline have no effect |
| CommandChannel.CommandsDelivered | elixir/lib/cpp_bridge.ex:40-49 | a stream of printed payloads, and any unfinished line, executes exactly those commands in order, each at its own clock reading |
| Cidr.ContainsIffSameQuotient | elixir/lib/rule_engine.ex:254-257 | for prefixes 0..32 the mask test is equality of quotients by the block size |
| Cidr.ContainsOutOfRange | elixir/lib/rule_engine.ex:251-257 | past 32 the test compares low bits, and with a negative prefix or one past 64 every address is contained |
| Cidr.TupleIs | elixir/lib/rule_engine.ex:263-264 | the value of an address is the base-256 number of its octets, below 2^32 |
| Cidr.TupleBijection | elixir/lib/rule_engine.ex:263-264 | octet tuples and 32-bit values correspond one to one |
| Cidr.NestedOrDisjoint | elixir/lib/rule_engine.ex:248-261 | two blocks that share an address are nested |
| Cidr.MaskIs | elixir/lib/rule_engine.ex:256-256 | what the mask is for every integer prefix |
| RuleEngine.InScopeIff | elixir/lib/rule_engine.ex:191-194 | a rule's scope matches an address exactly when it is global, names it, or its subnet has the address's quotient by the block size (and how prefixes out of range compare) |
| RuleEngine.CommandForm | elixir/lib/rule_engine.ex:41-97 | every command that a rule sends carries its pattern, goes to everyone or to a registered client, and blocks for good, until midnight, or throttles by the rule's delay, as its action says |
| RuleEngine.ApplyRule | elixir/lib/rule_engine.ex:41-97 | applying a rule executes its commands one by one, in registry order |
| RuleEngine.PushAll | elixir/lib/rule_engine.ex:178-181 | a resync applies every rule in table order |
| RuleEngine.UnblockForRule | elixir/lib/rule_engine.ex:110-133 | withdrawing a rule executes its unblock or unthrottle commands one by one |
| RuleEngine.AdditionsOverwrite | cpp/main.cpp:179-221 | a sequence of additions overwrites the entries it names and leaves the rest of both tables alone |
| RuleEngine.AddedBlocks | cpp/main.cpp:179-183 | from empty tables a key is present exactly when some command added it, with the end such a command gave |
| RuleEngine.FreshPushAgrees | elixir/lib/rule_engine.ex:178-181 | from empty tables after one push, until midnight, a lookup is true exactly when some rule covers the address and the domain |
| RuleEngine.PatternAgreement | elixir/lib/rule_engine.ex:196-208 | the engine's matching and the table's agree on every domain exactly when the pattern is neither empty nor a bare `*.` |
| RuleEngine.FreshPushMatchesRules | elixir/lib/rule_engine.ex:41-97 | until midnight a lookup is true exactly when a rule's pattern matches the domain in the engine's sense and the rule blocks everyone at once, or the address is a registered client in its scope (by quotients of address values) for whom it blocks at once or the seconds spent have reached its minutes |
| PushedRules.TimedEntriesLast | cpp/main.cpp:385-399 | a block or throttle command counts until now plus its duration, or until its end, and for good when that is zero |
| PushedRules.FreshPushEntries | elixir/lib/rule_engine.ex:178-181 | after a push a block entry exists exactly when a rule writes it, and ends as the last such rule says |
| PushedRules.FreshPushAlways | elixir/lib/rule_engine.ex:178-181 | at any time after a push, also past midnight, a lookup is true exactly when some rule covers the address and the domain and the entry it writes still counts |
| PushedRules.OneRuleBlocks | elixir/lib/rule_engine.ex:41-97 | what a push of one rule blocks at any time, in terms of the scope, the octets, the seconds spent, the minutes and the clock |
| PushedRules.OneRuleDelays | elixir/lib/rule_engine.ex:62-74 | what a push of one rule throttles: exactly its domain, for the clients in its scope unless that is everyone, by its delay or 1000 ms |
| PushedRules.OneRuleWithdraws | elixir/lib/rule_engine.ex:110-133 | which entries of clients and of everyone the withdrawal of a rule removes from which table |
| RuleEngine.FreshPushThrottles | cpp/main.cpp:167-177 | after one push a client's delay on a domain is that of the last rule throttling it on exactly that domain; global and wildcard throttle rules have no effect |
| RuleEngine.PushBlocks | elixir/lib/rule_engine.ex:178-181 | after a push over any tables, until midnight, a lookup is true exactly when it was before or a rule covers the address and the domain |
| RuleEngine.PushThrottles | elixir/lib/rule_engine.ex:178-181 | and a client's delay is that of the last rule throttling it on exactly the domain, or as before |
| RuleEngine.EndIsNextMidnight | elixir/lib/rule_engine.ex:91-92 | a timed block ends at the same next midnight whenever in the day it is sent |
| RuleEngine.SpreadPushSame | elixir/lib/rule_engine.ex:178-181 | a push whose commands are computed and executed at different times of a day leaves what an instantaneous one leaves |
| RuleEngine.ResyncIdempotent | elixir/lib/rule_engine.ex:174-181 | any number of such pushes leaves both tables as one push left them, even when rules collide on a key |
| RuleEngine.RemovalsFilter | cpp/main.cpp:185-244 | a sequence of withdrawals keeps exactly the entries that none of them names |
| RuleEngine.ApplyThenUnblockRestores | elixir/lib/rule_engine.ex:110-133 | applying and withdrawing a rule restores both tables exactly when they held no key the withdrawal removes |
| RuleEngine.GlobalTimedRuleRestores | elixir/lib/rule_engine.ex:79-117 | for a global timed rule that holds exactly when, besides, every entry it writes was already there |
| ClientWorker.HandleEvent | elixir/lib/client_worker.ex:45-49 | an event updates the statistics and executes the commands of the matching rules |
| ClientWorker.EventEnforced | elixir/lib/client_worker.ex:94-115 | until midnight a block lookup is true exactly when it was before, or it asks the event's address for a covered domain and a matching rule fires |
| ClientWorker.EventThrottles | elixir/lib/client_worker.ex:94-122 | after an event the delay for its address and domain is that of the last matching throttle rule, global and wildcard rules included; every other delay is unchanged |
| ClientWorker.OneRuleOnEvent | elixir/lib/client_worker.ex:94-124 | what one rule does on an event at any time afterwards, in terms of its scope, time window, pattern, minutes and delay |
| ClientWorker.LimitEnforced | elixir/lib/client_worker.ex:73-115 | the event's domain becomes blocked exactly when the measured time of its events reaches a matching rule's limit or a rule blocks outright |
| ClientWorker.PathsAgree | elixir/lib/client_worker.ex:94-124 | the resync of a matching rule and the client's event leave the same answers on all tables exactly when the rule blocks and its stored pattern covers the domain, or throttles exactly this domain and not everyone, or is timed and both counts of time decide alike |
| ClientWorker.ExactPathsAgree | elixir/lib/client_worker.ex:108-122 | for a rule on exactly the domain this fails only for a throttle rule for everyone and for a timed rule without minutes after 30 minutes |
| RuleReplicas.AdminBackend.Handle | python/app.py:146-176 | each request replaces or removes the rule under its id, keeps the others in order, and publishes one message |
| RuleReplicas.StoredMeans | python/app.py:144-176 | after a request the rules under other ids stay, the rule it brings is last and published, under the id it brought, the path's id or a new one |
| RuleReplicas.FilterOut | python/app.py:150-150 | exactly the rules with another id remain, in order |
| RuleReplicas.RuleCache.OnMessage | scala/src/main/scala/Aggregator.scala:101-121 | the cache after a message, and by how much its revision grows |
| RuleReplicas.RuleSubscriber.HandleMessage | elixir/lib/rule_subscriber.ex:31-52 | the engine's table after a message, and the proxy's tables after the commands it triggers |
| RuleReplicas.ReplicasConverge | python/app.py:146-176 | with one writer and in-order lossless delivery a replica shows exactly the stored list after any requests, and ids stay unique |
| RuleReplicas.ShownTablesEqual | elixir/lib/rule_engine.ex:155-166 | two replicas showing one list are equal |
| RuleReplicas.ReloadConverges | elixir/lib/rule_subscriber.ex:44-46 | a bulk reload leaves the reloaded list exactly when the replica held no id outside it |
| RuleReplicas.AddThenRemove | elixir/lib/rule_subscriber.ex:33-42 | an add and a remove message undo each other in the rule table, and in the proxy's tables exactly when these held no key the withdrawal removes |
| RuleReplicas.BackAfterUnblock | elixir/lib/rule_engine.ex:110-133 | withdrawing a rule undoes given writes exactly when the tables held no key it removes and each written entry is removed or was there |
| RuleReplicas.ChangeLeavesOldKeys | elixir/lib/rule_subscriber.ex:33-42 | add, change, remove restores the proxy's tables exactly when every entry either version wrote is removed with the new version or was there before |
| RuleLifecycle.EventsOutliveRule | elixir/lib/rule_subscriber.ex:33-42 | add, any events of any clients, remove restores the proxy's tables exactly when every entry that the rule or an event wrote is removed by the withdrawal or was there before |
| RuleLifecycle.ClientStaysBlocked | elixir/lib/rule_engine.ex:106-117 | after a rule that fired on a client's event is removed the client is still blocked on the domain exactly when the rule was for everyone or its pattern's withdrawal does not erase the domain |
| EndToEnd.OneConnection | elixir/lib/cpp_bridge.ex:40-56 | a connection carrying one printed command executes that command |
| EndToEnd.PolicyEnforced | elixir/lib/rule_engine.ex:137-152 | admin requests, replica, resync over the channel and lookups together: the proxy blocks exactly what the admin's list says |
| EndToEnd.PolicyAtAnyTime | elixir/lib/rule_engine.ex:137-152 | the same at any time after the resync, also past midnight, in terms of which listed rule wrote each entry last |
| SessionTime.TotalIsMeasure | elixir/lib/client_worker.ex:73-92 | for every stream, late events included, the total is the number of seconds lying in gaps of at most 300 s between running maxima |
| SessionTime.TotalBounds | elixir/lib/client_worker.ex:73-92 | the total is at most the time spanned and at most 300 s per event after the first |
| SessionTime.LateEventChangesNothing | elixir/lib/client_worker.ex:78-83 | a late or repeated event changes no total, now or later |
| SessionTime.InsertingNeverLowers | elixir/lib/client_worker.ex:78-91 | inserting an event in order never lowers the total |
| SessionTime.SessionStartIs | elixir/lib/client_worker.ex:84-89 | the session start is the time of the last event that is the first, late, or more than 300 s after the latest |
| SessionTime.DomainsIndependent | elixir/lib/client_worker.ex:73-91 | the statistics of a domain are those of its own events |
| TlsParser.ExtractSni | cpp/tls_parser.hpp:31-96 | for all bytes the parser ends, stays in bounds, and returns the specified span |
| TlsParser.WalkExtensions | cpp/tls_parser.hpp:71-95 | the extension walk returns the first server_name entry's host name if it lies within the clamped list |
| TlsParser.TruncationAllOrNothing | cpp/tls_parser.hpp:31-96 | for all bytes and every cut the parser finds the same name or nothing |
| TlsParser.FullHelloFound | cpp/tls_parser.hpp:31-96 | every well-formed ClientHello with a host name, whatever surrounds it, yields that name at its position (section 4.1.2 of RFC 8446, section 3 of RFC 6066) |
| TlsParser.SniRoundTrip | cpp/tls_parser.hpp:31-96 | of such a ClientHello any prefix yields the full name exactly when it reaches the name's end, else nothing |
| TlsParser.NameFoundIff | cpp/tls_parser.hpp:31-96 | the parser finds a name exactly in bytes that start like a handshake record with a ClientHello and whose fields, extensions of other kinds and server_name entry account for every byte up to the name's end, within the list's claimed length |
| DnsParser.ExtractQueryDomain | cpp/dns_parser.hpp:17-60 | for all bytes the label walk ends, stays in bounds, and returns the specified name |
| DnsParser.TruncationAllOrNothing | cpp/dns_parser.hpp:17-60 | for all bytes and every cut the parser finds the same name or nothing |
| DnsParser.NameRoundTrip | cpp/dns_parser.hpp:28-59 | encoded labels decode to the labels joined by dots, and every cut before the terminating byte gives nothing (sections 3.1 and 4.1.2 of RFC 1035) |
| DnsParser.NameComesFromLabels | cpp/dns_parser.hpp:28-59 | whatever bytes give a name hold labels that join to it |
| DnsParser.NameFoundIff | cpp/dns_parser.hpp:17-60 | the parser finds a name exactly in messages with a question, labels behind the header and a byte that ends them |
| DnsParser.DecodingInjective | cpp/dns_parser.hpp:54-55 | dot-free labels are recovered from the decoded name |
| Socks5.ConnectRoundTrip | cpp/main.cpp:677-683 | the CONNECT bytes for a host and a port are parsed back to them, within one 512-byte buffer, exactly when the host has at most 255 bytes (section 4 of RFC 1928) |
| Socks5.ConnectInjective | cpp/main.cpp:677-683 | different hosts or ports never give the same request |
| Socks5.Ipv4RoundTrip | cpp/main.cpp:739-744 | a CONNECT request for an IPv4 address is read as its octets and its port, high byte first; every shorter prefix is dropped |
| Socks5.NameRoundTrip | cpp/main.cpp:745-749 | a CONNECT request for a name is read as the name and its port, high byte first; every shorter prefix is dropped |
| Socks5.Refusals | cpp/main.cpp:750-760 | complete requests of another command get code 7, of another address type code 8 |
| Socks5.Dropped | cpp/main.cpp:731-732 | requests of another version or of fewer than seven bytes are dropped |
| Socks5.ConnectedOnly | cpp/main.cpp:731-749 | a connection is made for nothing but a CONNECT request whose bytes spell the host and the port |
| Relay.RelayLoop | cpp/main.cpp:593-643 | the loop over two sockets performs the relay's state machine round by round |
| Relay.SendAll | cpp/main.cpp:619-624 | the inner loop delivers exactly the bytes accepted before the first failing send |
| Relay.FailureFromA | cpp/main.cpp:612-625 | if the sends of a chunk accept fewer bytes and then one fails, exactly those are delivered, both directions close without a shutdown, the other side is not read, and no later round changes anything |
| Relay.FailureFromB | cpp/main.cpp:628-640 | the same in the other direction |
| Relay.AcceptedInFull | cpp/main.cpp:619-624 | once a chunk is accepted no later send is made, so a failure behind it is not noticed |
| Relay.StopEndsRelay | cpp/main.cpp:607-609 | a timeout or an error of select ends the relay where it is |
| Relay.RelayConserves | cpp/main.cpp:593-643 | bytes delivered to a side are a prefix of those read from the other; a direction closed while the other is open delivered everything and its shutdown was issued once |
| Relay.PartialSendsInvisible | cpp/main.cpp:619-624 | how sends split the chunks never changes the outcome |
| Relay.BothStreamsDelivered | cpp/main.cpp:601-642 | when no send fails each side gets exactly the other's stream, and a half-close cuts neither short |
| EventStore.Repository.ReadHead | scala/src/main/scala/Repository.scala:63-64 | the first row with the key, if any |
| EventStore.Repository.WriteBack | scala/src/main/scala/Repository.scala:65-72 | the copy read is written back increased, or a new row is added with the next id |
| EventStore.Repository.UpsertRow | scala/src/main/scala/Repository.scala:62-74 | an undisturbed upsert is one read and one write |
| EventStore.Repository.DeleteByIp | scala/src/main/scala/Repository.scala:144-146 | exactly the rows of other addresses remain, in order |
| EventStore.WriteAdds | scala/src/main/scala/Repository.scala:62-74 | a write whose read is current adds its amounts under its key and touches nothing else |
| EventStore.StoreConserves | scala/src/main/scala/Repository.scala:62-146 | after any sequential run each key holds the sum upserted since its address was last deleted, in one row |
| EventStore.InterleavingHarmless | scala/src/main/scala/Repository.scala:62-74 | upserts with pairwise distinct keys give the sequential totals, and unique keys, under every interleaving of reads and writes |
| EventStore.PairSafeIff | scala/src/main/scala/Repository.scala:62-74 | two concurrent upserts are safe under every interleaving exactly when their keys differ, or the row exists and neither adds anything |
| EventStore.IngestHarmless | scala/src/main/scala/Aggregator.scala:174-183 | the unawaited upserts of one ingested payload of distinct domains give the sequential totals |
| EventStore.IngestStores | scala/src/main/scala/Aggregator.scala:174-183 | whatever the interleaving, each domain's count and seconds are added to the client's row for that domain and the payload's hour, and no other key changes |
| EventStore.HourOf | scala/src/main/scala/Aggregator.scala:175-175 | the bucket is the timestamp less its remainder by 3600, towards zero |
| EventStore.ListingIs | scala/src/main/scala/Repository.scala:125-128 | a client's listing has one group per domain with rows in the range, holding their sums |
| EventStore.SummaryIsSumOfDomains | scala/src/main/scala/Repository.scala:88-94 | a client's line in the summary is the sum over all groups of its domain listing, and if the line is missing the listing is empty |
| EventStore.RangesAddUp | scala/src/main/scala/Repository.scala:77-94 | adjacent ranges add up, for each of a client's domains and in total |
| EventStore.DaysAddUp | scala/src/main/scala/Repository.scala:97-105 | the breakdowns of two consecutive days add up, domain by domain, to the breakdown of both |
| EventStore.PagesCoverListing | scala/src/main/scala/Repository.scala:138-141 | under one fixed order the pages concatenate to the full listing of length `total`, and their sums are the client's |

## Left out

* Clients, statistics and rules are fixed during one push; the code reads them as it goes.
* Sockets, packet capture, select and name resolution: their results are inputs of the steps.
* Regular expression patterns: on the event path the library's answers are a parameter; the push theorems exclude them, since the proxy stores such a pattern as literal text.
* Time windows: the set of rules whose window contains the event is a parameter; the push path ignores windows.
* Splitting CIDR text and parsing address text: given as parts and as a map of the texts that parse.
* JSON escapes: addresses and patterns are plain text without quotes, backslashes and control characters; Unicode text stands for its bytes.
* RoundTripIff: assumes that the address is no field's name; addresses come from the client registry or are the word `global`.
* 64-bit overflow of a clock reading plus a duration, and integer overflow of stored amounts.
* A rule whose number of minutes is present but null, which raises an error on the push path.
* Deletion of the pool while another thread is still inside enqueue: the owner must not do that, and the pool's owner does not. The `pending` count is not modelled.
* FreshPushAgrees: stated until the next midnight; FreshPushAlways covers every later time.
* PolicyEnforced: stated until the next midnight; PolicyAtAnyTime covers every later time.
* EventEnforced: stated until the next midnight, because several rules may write the same entry; for one rule OneRuleOnEvent covers every later time.
* PairSafeIff: covers two upserts; more than two to one key have no guarantee in the code.
* Concurrent admin requests and the non-atomic revision counter of the aggregator's cache: one writer and one listener are assumed.
* The cumulative totals that a client flushes every ten seconds are added again by each upsert; conservation is stated in upserted amounts.
* The aggregator's own rule matching, which only produces log warnings.
* The search filter, CSV export, the order of ties and the top-N cut of listings.
* Dotted-decimal text of an IPv4 destination in a SOCKS5 request: its four octets are kept.
* The SOCKS5 greeting and replies, HTTP and QUIC handling, NTP, authentication, sessions, metrics, logging and the user interface.
