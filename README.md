# Monitoring service bootstrap and run cycle

This project models `BaseMonitoringService`, the core of the ThingsBoard monitoring probe. The service first builds its health checkers, then runs them periodically. It has two jobs:

- **Bootstrap** (`init`, `initHealthChecker`, `initIpsHealthCheckers`). Without configurations it does nothing. Otherwise it logs in once. Then, for every configuration and every one of its targets, in declaration order, it builds a checker and initializes it. Once that returns, it appends the target's device to `devices` and the checker to `healthCheckers`. A target with `checkDomainIps` also gets one more checker per distinct address its host resolves to. Each of these is bound to a target built from a URL that keeps the scheme and port, uses the address as host, and has an empty path and no query or fragment.
- **Run cycle** (`runChecks`). Without checkers it does nothing. Otherwise it:
  1. logs in and reports the login latency;
  2. opens a ws client, subscribes for all devices and waits for the reply;
  3. checks every checker in registration order, stopping at the first one that throws;
  4. closes the client on every path that opened it;
  5. reports the latencies.

  Any error is reported once as a `GENERAL` service failure. An error from that report is only logged, so `runChecks` never throws.

Every collaborator call is reduced to how it ended: it returned (possibly with a value) or it threw an opaque error. The collaborators are the platform client's login, the checker's `initialize` and `check`, the ws client factory and the client's calls, the reporter, and the DNS lookup. The outcomes are inputs of the model (`Bootstrap.BootEnv`, `RunCycle.RunEnv`). Each call the service makes is recorded as an `Event` in the service's `trace`.

Layout:

- `monitoring_types.dfy` (`MonitoringTypes`): targets, configurations, checkers, URLs, outcomes, events.
- `target_expansion.dfy` (`TargetExpansion`): the address set, set enumerations, the IP URL rewrite.
- `bootstrap.dfy` (`Bootstrap`): the bootstrap as functions over the registry and trace, a reference definition of the registry a successful bootstrap builds, and lemmas.
- `run_cycle.dfy` (`RunCycle`): one run as a function producing its calls, and lemmas.
- `monitoring_service.dfy` (`MonitoringService`): the class `BaseMonitoringService`. Its fields are `healthCheckers`, `devices` and `trace`. Its methods update them in place with the source's loops. Each method is proved to produce exactly the state and calls that its function in `Bootstrap` or `RunCycle` gives.

Three points where the code's behaviour may surprise a reader:

- A target with address checking enabled keeps its own checker, and the address checkers come after it (`BaseMonitoringService.java:69-72`).
- The login latency is reported only when the login returns. A login that throws reports no latency (`BaseMonitoringService.java:106-107`).
- Per-checker latencies are reported by the checkers themselves, which are not part of this model. The run cycle itself reports only the login latency and the final `reportLatencies` call.

## Model

| member | source | states |
|---|---|---|
| `MonitoringService.BaseMonitoringService.constructor` | monitoring/src/main/java/org/thingsboard/monitoring/service/BaseMonitoringService.java:45-48 | A new service has empty checker and device lists, which are parallel. |
| `MonitoringService.BaseMonitoringService.Init` | monitoring/src/main/java/org/thingsboard/monitoring/service/BaseMonitoringService.java:61-75 | The nested loops leave exactly the lists, calls and thrown error of `Bootstrap.Init` on the old state. Its configuration loop is the left fold `Bootstrap.InitConfigs`. They keep the two lists parallel. |
| `MonitoringService.BaseMonitoringService.InitTargets` | monitoring/src/main/java/org/thingsboard/monitoring/service/BaseMonitoringService.java:68-73 | The inner loop over one configuration's targets: each target gets its own checker, then its address checkers when it asks for them. The first exception ends the loop. This equals `Bootstrap.InitTargets`. |
| `MonitoringService.BaseMonitoringService.InitHealthChecker` | monitoring/src/main/java/org/thingsboard/monitoring/service/BaseMonitoringService.java:77-83 | Initializes the checker, then appends one device and one checker only if `initialize` returned. This equals `Bootstrap.InitHealthChecker`. |
| `MonitoringService.BaseMonitoringService.InitIpsHealthCheckers` | monitoring/src/main/java/org/thingsboard/monitoring/service/BaseMonitoringService.java:85-97 | Resolves the host, then loops over the distinct addresses. Each address's target is built from the URL `TargetExpansion.IpUrl`, which has the original scheme and port, the address as host, and nothing else. The first exception ends the loop. This equals `Bootstrap.InitIpsHealthCheckers`. |
| `MonitoringService.BaseMonitoringService.RunChecks` | monitoring/src/main/java/org/thingsboard/monitoring/service/BaseMonitoringService.java:99-125 | Appends exactly the calls of `RunCycle.RunEvents` to the trace: the attempt, then `RunCycle.Handle` of its error (the catch block). Nothing is thrown. When the lists are parallel, the run subscribes if and only if it opened the client. Every subscription is for exactly the devices of the registered checkers' targets. |
| `MonitoringService.BaseMonitoringService.TryRun` | monitoring/src/main/java/org/thingsboard/monitoring/service/BaseMonitoringService.java:103-117 | The try block: the calls and the thrown error of `RunCycle.Attempt`. |
| `MonitoringService.BaseMonitoringService.WithClient` | monitoring/src/main/java/org/thingsboard/monitoring/service/BaseMonitoringService.java:109-115 | The try-with-resources block: the client is closed on every path. An error from the block wins over an error from the close. |
| `MonitoringService.BaseMonitoringService.CheckAll` | monitoring/src/main/java/org/thingsboard/monitoring/service/BaseMonitoringService.java:112-114 | The checker loop, proved against `RunCycle.CheckFrom`. |
| `TargetExpansion.AddressSetSize` | monitoring/src/main/java/org/thingsboard/monitoring/service/BaseMonitoringService.java:90-92 | A resolver answer of n addresses has at most n distinct ones. It has exactly n if and only if no address repeats. |
| `TargetExpansion.EnumerationLength` | monitoring/src/main/java/org/thingsboard/monitoring/service/BaseMonitoringService.java:93 | Iterating the address set visits exactly as many addresses as the set holds. |
| `TargetExpansion.IpUrlsOfAddresses` | monitoring/src/main/java/org/thingsboard/monitoring/service/BaseMonitoringService.java:93-94 | There is one synthetic URL per distinct address, and every address gets one. Each URL has the address as host, the base scheme and port, no user info, an empty path, and no query or fragment. No two URLs are equal. |
| `Bootstrap.InitKeepsRegistryParallel` | monitoring/src/main/java/org/thingsboard/monitoring/service/BaseMonitoringService.java:80-82 | Whether the bootstrap returns or throws, `devices[i]` is the device of the target of `healthCheckers[i]`, and both lists have the same length. |
| `Bootstrap.InitConfigsGrows` | monitoring/src/main/java/org/thingsboard/monitoring/service/BaseMonitoringService.java:67-74 | The configuration loop only appends to both lists and keeps them parallel. Its only calls are checker initializations and host lookups. |
| `Bootstrap.InitLogsInOnceFirst` | monitoring/src/main/java/org/thingsboard/monitoring/service/BaseMonitoringService.java:62-69 | Without configurations (none or empty), nothing changes and nothing is called. Otherwise the first call is the single login, and every later call is an initialization or a lookup. If the login fails, the registry is untouched. |
| `Bootstrap.InitTargetAppends` | monitoring/src/main/java/org/thingsboard/monitoring/service/BaseMonitoringService.java:68-72 | A target that completes appends exactly its block: its own checker, then its address checkers. |
| `Bootstrap.InitRegistersExpected` | monitoring/src/main/java/org/thingsboard/monitoring/service/BaseMonitoringService.java:66-74 | A bootstrap that returns appends exactly `Bootstrap.Expected`: each target's block, in configuration-then-target order. The device list stays parallel. |
| `Bootstrap.BlockShape` | monitoring/src/main/java/org/thingsboard/monitoring/service/BaseMonitoringService.java:69-95 | Each target's own checker comes first. Without address checking, the block has exactly 1 checker. With it, the block has 1 + the number of distinct addresses. Each address checker's target is created from the URL for one resolved address, with the original scheme and port, an empty path, and no query or fragment. |
| `Bootstrap.BlockAddressesDistinct` | monitoring/src/main/java/org/thingsboard/monitoring/service/BaseMonitoringService.java:90-95 | The address checkers follow the set's iteration order. No address repeats, so a duplicated address gets one checker. |
| `Bootstrap.InitEachStops` | monitoring/src/main/java/org/thingsboard/monitoring/service/BaseMonitoringService.java:93-96 | Once an address's checker throws, the remaining addresses add nothing. |
| `Bootstrap.InitTargetsStops` | monitoring/src/main/java/org/thingsboard/monitoring/service/BaseMonitoringService.java:68-73 | Once a target throws, the remaining targets add nothing. |
| `Bootstrap.InitConfigsStops` | monitoring/src/main/java/org/thingsboard/monitoring/service/BaseMonitoringService.java:67-74 | Once a configuration throws, the remaining configurations add nothing. |
| `RunCycle.EmptyRunIsNoop` | monitoring/src/main/java/org/thingsboard/monitoring/service/BaseMonitoringService.java:100-102 | Without checkers a run makes no call: no login, no client, no report. |
| `RunCycle.CheckFromPasses` | monitoring/src/main/java/org/thingsboard/monitoring/service/BaseMonitoringService.java:112-114 | The checker loop completes if and only if every check returns. Then it has checked each checker once, in order. |
| `RunCycle.CheckFromStops` | monitoring/src/main/java/org/thingsboard/monitoring/service/BaseMonitoringService.java:112-114 | If check k is the first to throw, exactly checkers 0..k are checked, and the loop ends with k's error. |
| `RunCycle.ReachesChecks` | monitoring/src/main/java/org/thingsboard/monitoring/service/BaseMonitoringService.java:105-120 | A run that subscribed runs the checker loop and then closes the client. Then it either reports the latencies or handles the loop's error (else the close's error). |
| `RunCycle.SuccessfulRun` | monitoring/src/main/java/org/thingsboard/monitoring/service/BaseMonitoringService.java:105-117 | When every call returns, the calls are, in order: login; the login latency; the client; the subscription for all devices and the wait; each check in registration order; the close; `reportLatencies`. There is no failure report. |
| `RunCycle.FailingCheck` | monitoring/src/main/java/org/thingsboard/monitoring/service/BaseMonitoringService.java:109-123 | If checker k's check is the first to throw, checkers after k are never checked. The client is closed once, `reportLatencies` is not called, and one `GENERAL` failure report of k's error follows. |
| `RunCycle.FailedLogin` | monitoring/src/main/java/org/thingsboard/monitoring/service/BaseMonitoringService.java:103-123 | If the login throws, no latency is reported and no client is created. The error is reported once. |
| `RunCycle.ClientClosedOnce` | monitoring/src/main/java/org/thingsboard/monitoring/service/BaseMonitoringService.java:109-115 | The client is closed exactly once when it was created, and never otherwise. It is created at most once. |
| `RunCycle.SubscribesGivenDevices` | monitoring/src/main/java/org/thingsboard/monitoring/service/BaseMonitoringService.java:109-110 | A run subscribes if and only if it opened the ws client. Every subscription is for exactly the device list the service holds. |
| `RunCycle.OneFailureReport` | monitoring/src/main/java/org/thingsboard/monitoring/service/BaseMonitoringService.java:103-124 | The attempt makes no failure report. A failed attempt is followed by exactly one `GENERAL` report of its error, and at most the logging of that report's own error. A successful attempt makes no report. `reportLatencies` is called if and only if the client was opened and its block returned. |

## Left out

- DNS resolution and `java.net.URI` parsing and printing are foreign library calls. A host lookup is an input function from host to either a list of addresses or an error. A URL is a record of its components, so a base URL that does not parse (`URISyntaxException`) is not modelled. IPv6 bracket handling and the printed form of the synthetic URL are not modelled either: `createTarget` receives the record.
- The iteration order of the address `HashSet` is unspecified in Java. It is an input (`iterationOrder`) that must list each address once. The properties hold for every such order.
- `createHealthChecker`, `createTarget` and `getName` are abstract hooks. A checker is identified with the configuration and target it was built for. `createTarget` is an input function. A `createHealthChecker` that throws is not modelled separately from a failing `initialize`.
- What the collaborators do (`TbClient`, `WsClientFactory`, `WsClient`, the checkers, `MonitoringReporter`) is network I/O in code outside this model. Only whether each call returns is kept, plus the token returned by the login.
- `TbStopWatch` readings are wall-clock values. The login latency is an input number. `stopWatch.start()` is not recorded.
- The values of `Latencies.LOG_IN`, `TransportHealthChecker.TEST_TELEMETRY_KEY` and `MonitoredServiceKey.GENERAL` are defined in files that are not part of this model. They appear as named constants.
- Spring wiring (`@Autowired`, `@PostConstruct`, the application context) is left out. The injected configuration list is a constructor argument, and `Init` is called explicitly. The info and debug logging is left out. Only the logged error of a failed failure report is recorded.
- Scheduling and concurrent calls of `runChecks` are left out. The service assumes its calls are serialized.
