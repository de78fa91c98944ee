/** The monitoring service object: its checker and device lists, which the
    bootstrap appends to in place, and its run cycle. The trace field records
    the calls the service makes to its collaborators; each method is proved
    to produce exactly the state and calls its specification function says. */
module MonitoringService {
  import opened MonitoringTypes
  import opened TargetExpansion
  import Bootstrap
  import RunCycle

  class BaseMonitoringService {
    /** The configuration beans; None when there are none to inject. */
    const configs: Option<seq<Config>>
    var healthCheckers: seq<Checker>
    var devices: seq<DeviceId>
    /** The collaborator calls made so far, oldest first. */
    var trace: seq<Event>

    /** The device list runs parallel to the checker list. */
    ghost predicate Valid()
      reads this
    {
      Bootstrap.Parallel(Bootstrap.Registry(healthCheckers, devices))
    }

    /** The fields the bootstrap changes, as a value. */
    function State(): Bootstrap.Boot
      reads this
    {
      Bootstrap.Boot(Bootstrap.Registry(healthCheckers, devices), trace)
    }

    constructor (configs: Option<seq<Config>>)
      ensures this.configs == configs
      ensures healthCheckers == [] && devices == [] && trace == []
      ensures Valid()
    {
      this.configs := configs;
      healthCheckers := [];
      devices := [];
      trace := [];
    }

    /** `init`: log in once, then build and initialize a checker per target
        and, for targets asking for it, per resolved address. An exception
        from any collaborator ends it (`thrown`), keeping what was appended. */
    method Init(env: Bootstrap.BootEnv) returns (thrown: Outcome)
      modifies this`healthCheckers, this`devices, this`trace
      ensures Bootstrap.Step(State(), thrown) == Bootstrap.Init(old(State()), configs, env)
      ensures old(Valid()) ==> Valid()
    {
      if Valid() {
        Bootstrap.InitKeepsRegistryParallel(State(), configs, env);
      }
      if configs.None? || |configs.value| == 0 {
        return Ok;
      }
      trace := trace + [LogIn];
      if env.login.Fail? {
        return env.login;
      }
      var cs := configs.value;
      ghost var loggedIn := State();
      var i := 0;
      while i < |cs|
        invariant 0 <= i <= |cs|
        invariant Bootstrap.InitConfigs(loggedIn, cs[..i], env) == Bootstrap.Step(State(), Ok)
      {
        thrown := InitTargets(cs[i], env);
        assert cs[..i + 1][..i] == cs[..i];
        if thrown.Fail? {
          Bootstrap.InitConfigsStops(loggedIn, cs, i + 1, env);
          return;
        }
        i := i + 1;
      }
      assert cs[..i] == cs;
      thrown := Ok;
    }

    /** The inner loop of `init`: the targets of one configuration, in
        order, each getting its own checker and, when it asks for it, one
        per resolved address. The first exception ends the loop. */
    method InitTargets(config: Config, env: Bootstrap.BootEnv) returns (thrown: Outcome)
      modifies this`healthCheckers, this`devices, this`trace
      ensures Bootstrap.Step(State(), thrown) == Bootstrap.InitTargets(old(State()), config, config.targets, env)
    {
      ghost var before := State();
      var j := 0;
      while j < |config.targets|
        invariant 0 <= j <= |config.targets|
        invariant Bootstrap.InitTargets(before, config, config.targets[..j], env) == Bootstrap.Step(State(), Ok)
      {
        var target := config.targets[j];
        thrown := InitHealthChecker(target, config, env);
        if thrown.Ok? && target.checkDomainIps {
          thrown := InitIpsHealthCheckers(target, config, env);
        }
        assert config.targets[..j + 1][..j] == config.targets[..j];
        if thrown.Fail? {
          Bootstrap.InitTargetsStops(before, config, config.targets, j + 1, env);
          return;
        }
        j := j + 1;
      }
      assert config.targets[..j] == config.targets;
      thrown := Ok;
    }

    /** `initHealthChecker`: build the checker for `target`, initialize it,
        and only once that returns append the device and the checker. */
    method InitHealthChecker(target: Target, config: Config, env: Bootstrap.BootEnv) returns (thrown: Outcome)
      modifies this`healthCheckers, this`devices, this`trace
      ensures Bootstrap.Step(State(), thrown) == Bootstrap.InitHealthChecker(old(State()), config, target, env)
    {
      var healthChecker := Checker(config, target);
      trace := trace + [Initialize(healthChecker)];
      thrown := env.initialize(|healthCheckers|);
      if thrown.Ok? {
        devices := devices + [target.deviceId];
        healthCheckers := healthCheckers + [healthChecker];
      }
    }

    /** `initIpsHealthCheckers`: resolve the target's host and add a checker
        for a target at each distinct address, same scheme and port. */
    method InitIpsHealthCheckers(target: Target, config: Config, env: Bootstrap.BootEnv) returns (thrown: Outcome)
      modifies this`healthCheckers, this`devices, this`trace
      ensures Bootstrap.Step(State(), thrown) == Bootstrap.InitIpsHealthCheckers(old(State()), config, target, env)
    {
      var baseUrl := target.baseUrl;
      var domain := baseUrl.host;
      trace := trace + [Resolve(domain)];
      match env.resolve(domain) {
        case Failure(e) =>
          return Fail(e);
        case Success(addresses) =>
          var ips := env.iterationOrder(AddressSet(addresses));
          ghost var urls := IpUrls(baseUrl, ips);
          ghost var resolved := State();
          var k := 0;
          while k < |ips|
            invariant 0 <= k <= |ips|
            invariant Bootstrap.InitEach(resolved, config, urls[..k], env) == Bootstrap.Step(State(), Ok)
          {
            var url := IpUrl(baseUrl, ips[k]);
            thrown := InitHealthChecker(env.createTarget(url), config, env);
            assert urls[..k + 1][..k] == urls[..k];
            if thrown.Fail? {
              Bootstrap.InitEachStops(resolved, config, urls, k + 1, env);
              return;
            }
            k := k + 1;
          }
          assert urls[..k] == urls;
          thrown := Ok;
      }
    }

    /** `runChecks`: nothing without checkers; otherwise log in, report the
        login latency, open the ws client, subscribe for every device, check
        each checker, close the client and report the latencies. Any error
        is reported once as a general service failure, and an error of that
        report is only logged: nothing is thrown to the caller. */
    method RunChecks(env: RunCycle.RunEnv)
      modifies this`trace
      ensures trace == old(trace) + RunCycle.RunEvents(healthCheckers, devices, env)
      ensures Valid() ==>
                var subscription := Subscribe(Bootstrap.TargetDevices(healthCheckers), TestTelemetryKey);
                (subscription in trace[|old(trace)|..] <==> RunCycle.ClientOpened(healthCheckers, env))
      ensures Valid() ==>
                forall e | e in trace[|old(trace)|..] && e.Subscribe? :: e.devices == Bootstrap.TargetDevices(healthCheckers)
    {
      RunCycle.SubscribesGivenDevices(healthCheckers, devices, env);
      if Valid() {
        Bootstrap.ParallelDevices(Bootstrap.Registry(healthCheckers, devices));
      }
      if |healthCheckers| == 0 {
        return;
      }
      var error := TryRun(env);
      match error {
        case Ok =>
        case Fail(e) =>
          trace := trace + [ServiceFailure(General, e)];
          if env.serviceFailure.Fail? {
            trace := trace + [LogError(env.serviceFailure.error)];
          }
      }
    }

    /** The try block of `runChecks`; `thrown` is what it throws. */
    method TryRun(env: RunCycle.RunEnv) returns (thrown: Outcome)
      modifies this`trace
      ensures trace == old(trace) + RunCycle.Attempt(healthCheckers, devices, env).events
      ensures thrown == RunCycle.Attempt(healthCheckers, devices, env).thrown
    {
      trace := trace + [LogIn];
      match env.login {
        case Failure(e) =>
          return Fail(e);
        case Success(accessToken) =>
          trace := trace + [ReportLatency(LogInLatency, env.loginLatency)];
          if env.reportLatency.Fail? {
            return env.reportLatency;
          }
          trace := trace + [CreateClient(accessToken)];
          if env.createClient.Fail? {
            return env.createClient;
          }
          thrown := WithClient(env);
          if thrown.Fail? {
            return;
          }
          trace := trace + [ReportLatencies];
          thrown := env.reportLatencies;
      }
    }

    /** The try-with-resources block: subscribe and wait, check every
        checker, and close the client on every path. */
    method WithClient(env: RunCycle.RunEnv) returns (thrown: Outcome)
      modifies this`trace
      ensures trace == old(trace) + RunCycle.WithClient(healthCheckers, devices, env).events
      ensures thrown == RunCycle.WithClient(healthCheckers, devices, env).thrown
    {
      trace := trace + [Subscribe(devices, TestTelemetryKey)];
      if env.subscribe.Fail? {
        thrown := env.subscribe;
      } else {
        trace := trace + [WaitForReply];
        if env.waitForReply.Fail? {
          thrown := env.waitForReply;
        } else {
          thrown := CheckAll(env);
        }
      }
      trace := trace + [CloseClient];
      if thrown.Ok? {
        thrown := env.close;
      }
    }

    /** The checker loop: check each checker in registration order; the
        first check that throws ends the loop. */
    method CheckAll(env: RunCycle.RunEnv) returns (thrown: Outcome)
      modifies this`trace
      ensures trace == old(trace) + RunCycle.CheckFrom(healthCheckers, 0, env).events
      ensures thrown == RunCycle.CheckFrom(healthCheckers, 0, env).thrown
    {
      var i := 0;
      while i < |healthCheckers|
        invariant 0 <= i <= |healthCheckers|
        invariant trace == old(trace) + RunCycle.CheckEvents(healthCheckers[..i])
        invariant forall j | 0 <= j < i :: env.check(j).Ok?
      {
        trace := trace + [Check(healthCheckers[i])];
        assert RunCycle.CheckEvents(healthCheckers[..i + 1]) ==
               RunCycle.CheckEvents(healthCheckers[..i]) + [Check(healthCheckers[i])];
        thrown := env.check(i);
        if thrown.Fail? {
          RunCycle.CheckFromStops(healthCheckers, 0, i, env);
          assert healthCheckers[0..i + 1] == healthCheckers[..i + 1];
          return;
        }
        i := i + 1;
      }
      RunCycle.CheckFromPasses(healthCheckers, 0, env);
      assert healthCheckers[0..] == healthCheckers[..i];
      thrown := Ok;
    }
  }
}
