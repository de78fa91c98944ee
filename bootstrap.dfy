/** The checker bootstrap as functions: what `init`, `initHealthChecker` and
    `initIpsHealthCheckers` do to the registry (the parallel checker and
    device lists) and to the trace of collaborator calls, given how each
    collaborator call ends. A thrown exception ends the bootstrap at once. */
module Bootstrap {
  import opened MonitoringTypes
  import opened TargetExpansion

  /** How the bootstrap's collaborator calls end. `initialize(n)` is the
      outcome of initializing the checker that would take registry slot n;
      `resolve` answers a host lookup with its addresses; `iterationOrder`
      is the order in which the set of distinct addresses is walked;
      `createTarget` is the service's target factory. */
  datatype BootEnv = BootEnv(
    login: Outcome,
    initialize: nat -> Outcome,
    resolve: string -> Result<seq<string>>,
    iterationOrder: set<string> -> seq<string>,
    createTarget: Url -> Target)

  /** The set iteration order visits every element exactly once. */
  ghost predicate WellFormed(env: BootEnv)
  {
    forall ips: set<string> :: IsEnumeration(env.iterationOrder(ips), ips)
  }

  /** The checker list and the device list, appended to side by side. */
  datatype Registry = Registry(checkers: seq<Checker>, devices: seq<DeviceId>)

  /** Device i is the device of the target checker i is bound to. */
  ghost predicate Parallel(r: Registry)
  {
    && |r.checkers| == |r.devices|
    && forall i | 0 <= i < |r.checkers| :: r.devices[i] == r.checkers[i].target.deviceId
  }

  /** The devices of the checkers' targets, in registration order. */
  function TargetDevices(checkers: seq<Checker>): seq<DeviceId>
  {
    seq(|checkers|, i requires 0 <= i < |checkers| => checkers[i].target.deviceId)
  }

  /** In a parallel registry the device list is the checkers' target devices. */
  lemma ParallelDevices(r: Registry)
    requires Parallel(r)
    ensures r.devices == TargetDevices(r.checkers)
  {
  }

  /** The service's state during the bootstrap. */
  datatype Boot = Boot(registry: Registry, trace: seq<Event>)

  /** The state reached, and whether an exception is propagating. */
  datatype Step = Step(boot: Boot, thrown: Outcome)

  /** `b'` extends `b`: both lists and the trace only grew, the lists stayed
      parallel, and every new event is a checker initialization or a lookup. */
  ghost predicate Grows(b: Boot, b': Boot)
  {
    && b.trace <= b'.trace
    && b.registry.checkers <= b'.registry.checkers
    && b.registry.devices <= b'.registry.devices
    && (Parallel(b.registry) ==> Parallel(b'.registry))
    && forall i | |b.trace| <= i < |b'.trace| :: b'.trace[i].Initialize? || b'.trace[i].Resolve?
  }

  /** `initHealthChecker`: build the checker, initialize it, and only if that
      returns, append its target's device and the checker. */
  function InitHealthChecker(b: Boot, config: Config, target: Target, env: BootEnv): Step
  {
    var checker := Checker(config, target);
    var attempted := b.(trace := b.trace + [Initialize(checker)]);
    match env.initialize(|b.registry.checkers|)
    case Fail(e) => Step(attempted, Fail(e))
    case Ok =>
      var r := b.registry;
      Step(attempted.(registry := Registry(r.checkers + [checker], r.devices + [target.deviceId])), Ok)
  }

  /** The loop of `initIpsHealthCheckers`: one checker per synthetic URL, in order. */
  function InitEach(b: Boot, config: Config, urls: seq<Url>, env: BootEnv): Step
    decreases |urls|
  {
    if urls == [] then Step(b, Ok)
    else
      var prior := InitEach(b, config, urls[..|urls| - 1], env);
      if prior.thrown.Fail? then prior
      else InitHealthChecker(prior.boot, config, env.createTarget(urls[|urls| - 1]), env)
  }

  /** `initIpsHealthCheckers`: resolve the target's host, then add a checker
      for a synthetic target per distinct address. */
  function InitIpsHealthCheckers(b: Boot, config: Config, target: Target, env: BootEnv): Step
  {
    var host := target.baseUrl.host;
    var resolving := b.(trace := b.trace + [Resolve(host)]);
    match env.resolve(host)
    case Failure(e) => Step(resolving, Fail(e))
    case Success(addresses) =>
      InitEach(resolving, config, IpUrls(target.baseUrl, env.iterationOrder(AddressSet(addresses))), env)
  }

  /** The body of the inner loop of `init`, for one target. */
  function InitTarget(b: Boot, config: Config, target: Target, env: BootEnv): Step
  {
    var own := InitHealthChecker(b, config, target, env);
    if own.thrown.Fail? || !target.checkDomainIps then own
    else InitIpsHealthCheckers(own.boot, config, target, env)
  }

  /** The inner loop of `init`: the targets of one configuration, in order. */
  function InitTargets(b: Boot, config: Config, targets: seq<Target>, env: BootEnv): Step
    decreases |targets|
  {
    if targets == [] then Step(b, Ok)
    else
      var prior := InitTargets(b, config, targets[..|targets| - 1], env);
      if prior.thrown.Fail? then prior
      else InitTarget(prior.boot, config, targets[|targets| - 1], env)
  }

  /** The outer loop of `init`: the configurations, in order. */
  function InitConfigs(b: Boot, configs: seq<Config>, env: BootEnv): Step
    decreases |configs|
  {
    if configs == [] then Step(b, Ok)
    else
      var prior := InitConfigs(b, configs[..|configs| - 1], env);
      if prior.thrown.Fail? then prior
      else InitTargets(prior.boot, configs[|configs| - 1], configs[|configs| - 1].targets, env)
  }

  /** No configuration at all: the bean list is absent or empty. */
  predicate NoConfigs(configs: Option<seq<Config>>)
  {
    configs.None? || configs.value == []
  }

  /** `init`: nothing without configurations; otherwise one login, then
      every configuration's targets. */
  function Init(b: Boot, configs: Option<seq<Config>>, env: BootEnv): Step
  {
    if NoConfigs(configs) then Step(b, Ok)
    else
      var loggedIn := b.(trace := b.trace + [LogIn]);
      if env.login.Fail? then Step(loggedIn, env.login)
      else InitConfigs(loggedIn, configs.value, env)
  }

  // ---------------------------------------------------------------------
  // Reference definition: the registry a successful bootstrap builds.

  /** The checkers of the synthetic targets for `urls`, in order. */
  function IpCheckers(config: Config, urls: seq<Url>, createTarget: Url -> Target): (cs: seq<Checker>)
    ensures |cs| == |urls|
  {
    seq(|urls|, k requires 0 <= k < |urls| => Checker(config, createTarget(urls[k])))
  }

  /** The checkers one target contributes: its own, then (when it asks for
      it and its host resolves) one per distinct resolved address. */
  function Block(config: Config, target: Target, env: BootEnv): seq<Checker>
  {
    [Checker(config, target)] +
    if !target.checkDomainIps then []
    else match env.resolve(target.baseUrl.host)
      case Failure(_) => []
      case Success(addresses) =>
        IpCheckers(config, IpUrls(target.baseUrl, env.iterationOrder(AddressSet(addresses))), env.createTarget)
  }

  /** The blocks of `targets`, in declaration order. */
  function TargetBlocks(config: Config, targets: seq<Target>, env: BootEnv): seq<Checker>
  {
    if targets == [] then [] else Block(config, targets[0], env) + TargetBlocks(config, targets[1..], env)
  }

  /** The blocks of every target of `configs`: configuration order, then target order. */
  function ConfigBlocks(configs: seq<Config>, env: BootEnv): seq<Checker>
  {
    if configs == [] then [] else TargetBlocks(configs[0], configs[0].targets, env) + ConfigBlocks(configs[1..], env)
  }

  /** The whole registry a successful bootstrap appends. */
  function Expected(configs: Option<seq<Config>>, env: BootEnv): seq<Checker>
  {
    if NoConfigs(configs) then [] else ConfigBlocks(configs.value, env)
  }

  // ---------------------------------------------------------------------
  // Growth: the lists stay parallel, only grow, and only initializations
  // and lookups are added to the trace.

  lemma GrowsTransitive(a: Boot, b: Boot, c: Boot)
    requires Grows(a, b) && Grows(b, c)
    ensures Grows(a, c)
  {
    forall i | |a.trace| <= i < |c.trace|
      ensures c.trace[i].Initialize? || c.trace[i].Resolve?
    {
      if i < |b.trace| {
        assert c.trace[i] == b.trace[i];
      }
    }
  }

  lemma InitHealthCheckerGrows(b: Boot, config: Config, target: Target, env: BootEnv)
    ensures Grows(b, InitHealthChecker(b, config, target, env).boot)
  {
  }

  lemma {:induction false} InitEachGrows(b: Boot, config: Config, urls: seq<Url>, env: BootEnv)
    ensures Grows(b, InitEach(b, config, urls, env).boot)
    decreases |urls|
  {
    if urls != [] {
      var prior := InitEach(b, config, urls[..|urls| - 1], env);
      InitEachGrows(b, config, urls[..|urls| - 1], env);
      if prior.thrown.Ok? {
        InitHealthCheckerGrows(prior.boot, config, env.createTarget(urls[|urls| - 1]), env);
        GrowsTransitive(b, prior.boot, InitEach(b, config, urls, env).boot);
      }
    }
  }

  lemma InitTargetGrows(b: Boot, config: Config, target: Target, env: BootEnv)
    ensures Grows(b, InitTarget(b, config, target, env).boot)
  {
    var own := InitHealthChecker(b, config, target, env);
    InitHealthCheckerGrows(b, config, target, env);
    if own.thrown.Ok? && target.checkDomainIps {
      var host := target.baseUrl.host;
      var resolving := own.boot.(trace := own.boot.trace + [Resolve(host)]);
      assert Grows(own.boot, resolving);
      match env.resolve(host)
      case Failure(_) =>
      case Success(addresses) =>
        var urls := IpUrls(target.baseUrl, env.iterationOrder(AddressSet(addresses)));
        InitEachGrows(resolving, config, urls, env);
        GrowsTransitive(own.boot, resolving, InitEach(resolving, config, urls, env).boot);
      GrowsTransitive(b, own.boot, InitTarget(b, config, target, env).boot);
    }
  }

  lemma {:induction false} InitTargetsGrows(b: Boot, config: Config, targets: seq<Target>, env: BootEnv)
    ensures Grows(b, InitTargets(b, config, targets, env).boot)
    decreases |targets|
  {
    if targets != [] {
      var prior := InitTargets(b, config, targets[..|targets| - 1], env);
      InitTargetsGrows(b, config, targets[..|targets| - 1], env);
      if prior.thrown.Ok? {
        InitTargetGrows(prior.boot, config, targets[|targets| - 1], env);
        GrowsTransitive(b, prior.boot, InitTargets(b, config, targets, env).boot);
      }
    }
  }

  lemma {:induction false} InitConfigsGrows(b: Boot, configs: seq<Config>, env: BootEnv)
    ensures Grows(b, InitConfigs(b, configs, env).boot)
    decreases |configs|
  {
    if configs != [] {
      var n := |configs| - 1;
      var prior := InitConfigs(b, configs[..n], env);
      InitConfigsGrows(b, configs[..n], env);
      if prior.thrown.Ok? {
        InitTargetsGrows(prior.boot, configs[n], configs[n].targets, env);
        GrowsTransitive(b, prior.boot, InitConfigs(b, configs, env).boot);
      }
    }
  }

  /** `init` keeps the checker and device lists parallel, whether it returns
      or throws: device i is always the device of checker i's target. */
  lemma InitKeepsRegistryParallel(b: Boot, configs: Option<seq<Config>>, env: BootEnv)
    requires Parallel(b.registry)
    ensures Parallel(Init(b, configs, env).boot.registry)
  {
    if !NoConfigs(configs) && env.login.Ok? {
      InitConfigsGrows(b.(trace := b.trace + [LogIn]), configs.value, env);
    }
  }

  /** Without configurations `init` changes nothing and calls nothing; with
      them it logs in exactly once, before anything else, and a failed login
      ends it with the registry untouched. */
  lemma InitLogsInOnceFirst(b: Boot, configs: Option<seq<Config>>, env: BootEnv)
    ensures NoConfigs(configs) ==> Init(b, configs, env) == Step(b, Ok)
    ensures !NoConfigs(configs) ==>
              var t := Init(b, configs, env).boot.trace;
              && b.trace <= t && |t| > |b.trace| && t[|b.trace|] == LogIn
              && forall i | |b.trace| < i < |t| :: t[i].Initialize? || t[i].Resolve?
    ensures !NoConfigs(configs) && env.login.Fail? ==>
              Init(b, configs, env) == Step(Boot(b.registry, b.trace + [LogIn]), env.login)
  {
    if !NoConfigs(configs) && env.login.Ok? {
      var loggedIn := b.(trace := b.trace + [LogIn]);
      InitConfigsGrows(loggedIn, configs.value, env);
      assert Init(b, configs, env).boot.trace[|b.trace|] == loggedIn.trace[|b.trace|];
    }
  }

  // ---------------------------------------------------------------------
  // The first exception ends the bootstrap: once a prefix of a loop has
  // thrown, the rest of the loop does nothing more.

  lemma {:induction false} InitEachStops(b: Boot, config: Config, urls: seq<Url>, k: nat, env: BootEnv)
    requires k <= |urls|
    requires InitEach(b, config, urls[..k], env).thrown.Fail?
    ensures InitEach(b, config, urls, env) == InitEach(b, config, urls[..k], env)
    decreases |urls|
  {
    if k < |urls| {
      var n := |urls| - 1;
      assert urls[..n][..k] == urls[..k];
      InitEachStops(b, config, urls[..n], k, env);
    } else {
      assert urls[..k] == urls;
    }
  }

  lemma {:induction false} InitTargetsStops(b: Boot, config: Config, targets: seq<Target>, k: nat, env: BootEnv)
    requires k <= |targets|
    requires InitTargets(b, config, targets[..k], env).thrown.Fail?
    ensures InitTargets(b, config, targets, env) == InitTargets(b, config, targets[..k], env)
    decreases |targets|
  {
    if k < |targets| {
      var n := |targets| - 1;
      assert targets[..n][..k] == targets[..k];
      InitTargetsStops(b, config, targets[..n], k, env);
    } else {
      assert targets[..k] == targets;
    }
  }

  lemma {:induction false} InitConfigsStops(b: Boot, configs: seq<Config>, k: nat, env: BootEnv)
    requires k <= |configs|
    requires InitConfigs(b, configs[..k], env).thrown.Fail?
    ensures InitConfigs(b, configs, env) == InitConfigs(b, configs[..k], env)
    decreases |configs|
  {
    if k < |configs| {
      var n := |configs| - 1;
      assert configs[..n][..k] == configs[..k];
      InitConfigsStops(b, configs[..n], k, env);
    } else {
      assert configs[..k] == configs;
    }
  }

  // ---------------------------------------------------------------------
  // A successful bootstrap appends exactly the reference registry.

  lemma {:induction false} InitEachAppends(b: Boot, config: Config, urls: seq<Url>, env: BootEnv)
    requires InitEach(b, config, urls, env).thrown.Ok?
    ensures InitEach(b, config, urls, env).boot.registry.checkers ==
              b.registry.checkers + IpCheckers(config, urls, env.createTarget)
    decreases |urls|
  {
    if urls != [] {
      var n := |urls| - 1;
      InitEachAppends(b, config, urls[..n], env);
      assert IpCheckers(config, urls, env.createTarget) ==
             IpCheckers(config, urls[..n], env.createTarget) + [Checker(config, env.createTarget(urls[n]))];
    }
  }

  lemma InitTargetAppends(b: Boot, config: Config, target: Target, env: BootEnv)
    requires InitTarget(b, config, target, env).thrown.Ok?
    ensures InitTarget(b, config, target, env).boot.registry.checkers ==
              b.registry.checkers + Block(config, target, env)
  {
    var own := InitHealthChecker(b, config, target, env);
    if target.checkDomainIps {
      var host := target.baseUrl.host;
      var resolving := own.boot.(trace := own.boot.trace + [Resolve(host)]);
      match env.resolve(host)
      case Failure(_) =>
      case Success(addresses) =>
        var urls := IpUrls(target.baseUrl, env.iterationOrder(AddressSet(addresses)));
        InitEachAppends(resolving, config, urls, env);
    }
  }

  /** Appending a target at the end of the list appends its block. */
  lemma {:induction false} TargetBlocksSnoc(config: Config, targets: seq<Target>, env: BootEnv)
    requires targets != []
    ensures TargetBlocks(config, targets, env) ==
              TargetBlocks(config, targets[..|targets| - 1], env) + Block(config, targets[|targets| - 1], env)
    decreases |targets|
  {
    var n := |targets| - 1;
    var front := targets[..n];
    if n > 0 {
      var tail := targets[1..];
      TargetBlocksSnoc(config, tail, env);
      assert tail[..|tail| - 1] == front[1..];
      assert tail[|tail| - 1] == targets[n];
      assert front[0] == targets[0];
      calc {
        TargetBlocks(config, targets, env);
        Block(config, targets[0], env) + TargetBlocks(config, tail, env);
        Block(config, targets[0], env) + TargetBlocks(config, front[1..], env) + Block(config, targets[n], env);
        TargetBlocks(config, front, env) + Block(config, targets[n], env);
      }
    } else {
      assert front == [];
      assert targets[1..] == [];
    }
  }

  /** Appending a configuration at the end appends its targets' blocks. */
  lemma {:induction false} ConfigBlocksSnoc(configs: seq<Config>, env: BootEnv)
    requires configs != []
    ensures ConfigBlocks(configs, env) ==
              ConfigBlocks(configs[..|configs| - 1], env) +
              TargetBlocks(configs[|configs| - 1], configs[|configs| - 1].targets, env)
    decreases |configs|
  {
    var n := |configs| - 1;
    var front := configs[..n];
    if n > 0 {
      var tail := configs[1..];
      ConfigBlocksSnoc(tail, env);
      assert tail[..|tail| - 1] == front[1..];
      assert tail[|tail| - 1] == configs[n];
      assert front[0] == configs[0];
      calc {
        ConfigBlocks(configs, env);
        TargetBlocks(configs[0], configs[0].targets, env) + ConfigBlocks(tail, env);
        TargetBlocks(configs[0], configs[0].targets, env) + ConfigBlocks(front[1..], env)
          + TargetBlocks(configs[n], configs[n].targets, env);
        ConfigBlocks(front, env) + TargetBlocks(configs[n], configs[n].targets, env);
      }
    } else {
      assert front == [];
      assert configs[1..] == [];
    }
  }

  lemma {:induction false} InitTargetsAppends(b: Boot, config: Config, targets: seq<Target>, env: BootEnv)
    requires InitTargets(b, config, targets, env).thrown.Ok?
    ensures InitTargets(b, config, targets, env).boot.registry.checkers ==
              b.registry.checkers + TargetBlocks(config, targets, env)
    decreases |targets|
  {
    if targets != [] {
      var n := |targets| - 1;
      var prior := InitTargets(b, config, targets[..n], env);
      InitTargetsAppends(b, config, targets[..n], env);
      InitTargetAppends(prior.boot, config, targets[n], env);
      TargetBlocksSnoc(config, targets, env);
    }
  }

  lemma {:induction false} InitConfigsAppends(b: Boot, configs: seq<Config>, env: BootEnv)
    requires InitConfigs(b, configs, env).thrown.Ok?
    ensures InitConfigs(b, configs, env).boot.registry.checkers ==
              b.registry.checkers + ConfigBlocks(configs, env)
    decreases |configs|
  {
    if configs != [] {
      var n := |configs| - 1;
      var prior := InitConfigs(b, configs[..n], env);
      InitConfigsAppends(b, configs[..n], env);
      InitTargetsAppends(prior.boot, configs[n], configs[n].targets, env);
      ConfigBlocksSnoc(configs, env);
    }
  }

  /** A bootstrap that returns has appended, in configuration-then-target
      order, each target's own checker followed by its address checkers, and
      the device of each checker's target at the same position. */
  lemma InitRegistersExpected(b: Boot, configs: Option<seq<Config>>, env: BootEnv)
    requires Parallel(b.registry)
    requires Init(b, configs, env).thrown.Ok?
    ensures Init(b, configs, env).boot.registry.checkers == b.registry.checkers + Expected(configs, env)
    ensures Parallel(Init(b, configs, env).boot.registry)
  {
    InitKeepsRegistryParallel(b, configs, env);
    if !NoConfigs(configs) {
      InitConfigsAppends(b.(trace := b.trace + [LogIn]), configs.value, env);
    }
  }

  /** What one target contributes: its own checker first; then, only when it
      asks for address checks, one checker per DISTINCT resolved address,
      each bound to a target created from a URL with that address as host,
      the original scheme and port, an empty path and no query or fragment. */
  lemma BlockShape(config: Config, target: Target, env: BootEnv)
    requires WellFormed(env)
    ensures var block := Block(config, target, env);
            && |block| >= 1 && block[0] == Checker(config, target)
            && (!target.checkDomainIps ==> |block| == 1)
            && forall k | 1 <= k < |block| :: block[k].config == config
    ensures target.checkDomainIps && env.resolve(target.baseUrl.host).Success? ==>
              var block := Block(config, target, env);
              var ips := AddressSet(env.resolve(target.baseUrl.host).value);
              var base := target.baseUrl;
              && |block| == 1 + |ips|
              && forall k | 1 <= k < |block| :: exists ip | ip in ips ::
                   block[k].target == env.createTarget(Url(base.scheme, None, ip, base.port, "", None, None))
  {
    var block := Block(config, target, env);
    if target.checkDomainIps && env.resolve(target.baseUrl.host).Success? {
      var ips := AddressSet(env.resolve(target.baseUrl.host).value);
      var order := env.iterationOrder(ips);
      var base := target.baseUrl;
      var urls := IpUrls(base, order);
      assert IsEnumeration(order, ips);
      IpUrlsOfAddresses(base, order, ips);
      forall k | 1 <= k < |block|
        ensures exists ip | ip in ips ::
                  block[k].target == env.createTarget(Url(base.scheme, None, ip, base.port, "", None, None))
      {
        assert block[k] == Checker(config, env.createTarget(urls[k - 1]));
        assert order[k - 1] in ips;
      }
    }
  }

  /** Address checkers do not repeat an address: a target resolving to the
      same address twice gets one checker for it. */
  lemma BlockAddressesDistinct(config: Config, target: Target, env: BootEnv, addresses: seq<string>)
    requires WellFormed(env)
    requires target.checkDomainIps && env.resolve(target.baseUrl.host) == Success(addresses)
    ensures var order := env.iterationOrder(AddressSet(addresses));
            && |order| == |AddressSet(addresses)| <= |addresses|
            && Block(config, target, env)[1..] == IpCheckers(config, IpUrls(target.baseUrl, order), env.createTarget)
            && forall k, l | 0 <= k < l < |order| :: order[k] != order[l]
  {
    var ips := AddressSet(addresses);
    assert IsEnumeration(env.iterationOrder(ips), ips);
    EnumerationLength(env.iterationOrder(ips), ips);
    AddressSetSize(addresses);
  }
}
