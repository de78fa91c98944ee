/** One `runChecks` pass as functions: the calls it makes to its
    collaborators, in order, given how each of those calls ends. */
module RunCycle {
  import opened MonitoringTypes

  /** How the run's collaborator calls end. `check(i)` is the outcome of the
      i-th registered checker's check; `loginLatency` is the stopwatch reading
      after the login. */
  datatype RunEnv = RunEnv(
    login: Result<Token>,
    loginLatency: nat,
    reportLatency: Outcome,
    createClient: Outcome,
    subscribe: Outcome,
    waitForReply: Outcome,
    check: nat -> Outcome,
    close: Outcome,
    reportLatencies: Outcome,
    serviceFailure: Outcome)

  /** The calls a part of the run made, and the exception it ended with, if any. */
  datatype Segment = Segment(events: seq<Event>, thrown: Outcome)

  /** A check of each checker, in order. */
  function CheckEvents(checkers: seq<Checker>): (events: seq<Event>)
    ensures |events| == |checkers|
  {
    seq(|checkers|, i requires 0 <= i < |checkers| => Check(checkers[i]))
  }

  /** The checker loop from position i on: the first check that throws ends it. */
  function CheckFrom(checkers: seq<Checker>, i: nat, env: RunEnv): Segment
    requires i <= |checkers|
    decreases |checkers| - i
  {
    if i == |checkers| then Segment([], Ok)
    else match env.check(i)
      case Fail(e) => Segment([Check(checkers[i])], Fail(e))
      case Ok =>
        var rest := CheckFrom(checkers, i + 1, env);
        Segment([Check(checkers[i])] + rest.events, rest.thrown)
  }

  /** The try-with-resources block around the ws client: subscribe, wait for
      the reply, check every checker; the client is closed on every path,
      and an exception from the block wins over one from the close. */
  function WithClient(checkers: seq<Checker>, devices: seq<DeviceId>, env: RunEnv): Segment
  {
    var subscribed := [Subscribe(devices, TestTelemetryKey)];
    var body :=
      if env.subscribe.Fail? then Segment(subscribed, env.subscribe)
      else if env.waitForReply.Fail? then Segment(subscribed + [WaitForReply], env.waitForReply)
      else
        var checks := CheckFrom(checkers, 0, env);
        Segment(subscribed + [WaitForReply] + checks.events, checks.thrown);
    Segment(body.events + [CloseClient], if body.thrown.Fail? then body.thrown else env.close)
  }

  /** The calls up to the creation of the ws client. */
  function Opening(token: Token, env: RunEnv): seq<Event>
  {
    [LogIn, ReportLatency(LogInLatency, env.loginLatency), CreateClient(token)]
  }

  /** The outer try block of `runChecks`. */
  function Attempt(checkers: seq<Checker>, devices: seq<DeviceId>, env: RunEnv): Segment
  {
    match env.login
    case Failure(e) => Segment([LogIn], Fail(e))
    case Success(token) =>
      if env.reportLatency.Fail? then
        Segment([LogIn, ReportLatency(LogInLatency, env.loginLatency)], env.reportLatency)
      else if env.createClient.Fail? then Segment(Opening(token, env), env.createClient)
      else
        var scoped := WithClient(checkers, devices, env);
        if scoped.thrown.Fail? then Segment(Opening(token, env) + scoped.events, scoped.thrown)
        else Segment(Opening(token, env) + scoped.events + [ReportLatencies], env.reportLatencies)
  }

  /** The catch block: report the error once under the general key; an error
      from that report is only logged. */
  function Handle(thrown: Outcome, env: RunEnv): seq<Event>
  {
    match thrown
    case Ok => []
    case Fail(e) =>
      [ServiceFailure(General, e)] + match env.serviceFailure
        case Ok => []
        case Fail(reportError) => [LogError(reportError)]
  }

  /** `runChecks`: nothing without checkers; otherwise the attempt and its handling. */
  function RunEvents(checkers: seq<Checker>, devices: seq<DeviceId>, env: RunEnv): seq<Event>
  {
    if checkers == [] then []
    else
      var attempt := Attempt(checkers, devices, env);
      attempt.events + Handle(attempt.thrown, env)
  }

  /** The ws client was created: there were checkers, the login and its
      latency report returned, and the factory returned. */
  predicate ClientOpened(checkers: seq<Checker>, env: RunEnv)
  {
    checkers != [] && env.login.Success? && env.reportLatency.Ok? && env.createClient.Ok?
  }

  // ---------------------------------------------------------------------
  // The checker loop.

  /** The checker loop passes exactly when every check from position i on
      passes, and then it has checked each of those checkers once, in order. */
  lemma {:induction false} CheckFromPasses(checkers: seq<Checker>, i: nat, env: RunEnv)
    requires i <= |checkers|
    ensures CheckFrom(checkers, i, env).thrown.Ok? <==> forall j | i <= j < |checkers| :: env.check(j).Ok?
    ensures CheckFrom(checkers, i, env).thrown.Ok? ==> CheckFrom(checkers, i, env).events == CheckEvents(checkers[i..])
    decreases |checkers| - i
  {
    if i < |checkers| {
      CheckFromPasses(checkers, i + 1, env);
      assert checkers[i..][1..] == checkers[i + 1..];
    }
  }

  /** When check k is the first to throw, exactly the checkers up to and
      including k have been checked, and the loop ends with k's error. */
  lemma {:induction false} CheckFromStops(checkers: seq<Checker>, i: nat, k: nat, env: RunEnv)
    requires i <= k < |checkers|
    requires forall j | i <= j < k :: env.check(j).Ok?
    requires env.check(k).Fail?
    ensures CheckFrom(checkers, i, env) == Segment(CheckEvents(checkers[i..k + 1]), env.check(k))
    decreases k - i
  {
    if i < k {
      CheckFromStops(checkers, i + 1, k, env);
      assert checkers[i..k + 1][1..] == checkers[i + 1..k + 1];
    } else {
      assert checkers[i..k + 1] == [checkers[k]];
    }
  }

  /** The checker loop only checks. */
  lemma {:induction false} CheckFromOnlyChecks(checkers: seq<Checker>, i: nat, env: RunEnv)
    requires i <= |checkers|
    ensures forall e | e in CheckFrom(checkers, i, env).events :: e.Check?
    decreases |checkers| - i
  {
    if i < |checkers| && env.check(i).Ok? {
      CheckFromOnlyChecks(checkers, i + 1, env);
    }
  }

  // ---------------------------------------------------------------------
  // Properties of a whole run.

  /** With no checkers a run calls nothing: no login, no client, no report. */
  lemma EmptyRunIsNoop(devices: seq<DeviceId>, env: RunEnv)
    ensures RunEvents([], devices, env) == []
  {
  }

  /** A run whose client was opened and subscribed reaches the checker
      loop: after it the client is closed, then either the latencies are
      reported or the loop's (else the close's) error is handled. */
  lemma ReachesChecks(checkers: seq<Checker>, devices: seq<DeviceId>, env: RunEnv)
    requires ClientOpened(checkers, env)
    requires env.subscribe.Ok? && env.waitForReply.Ok?
    ensures var checks := CheckFrom(checkers, 0, env);
            var thrown := if checks.thrown.Fail? then checks.thrown else env.close;
            RunEvents(checkers, devices, env) ==
              Opening(env.login.value, env) + [Subscribe(devices, TestTelemetryKey), WaitForReply]
              + checks.events + [CloseClient]
              + if thrown.Fail? then Handle(thrown, env) else [ReportLatencies] + Handle(env.reportLatencies, env)
  {
  }

  /** A run in which every call returns: login, its latency, the client, the
      subscription for every device and the wait, each checker's check in
      registration order, the close, then the latencies; no failure report. */
  lemma SuccessfulRun(checkers: seq<Checker>, devices: seq<DeviceId>, env: RunEnv)
    requires checkers != []
    requires env.login.Success?
    requires env.reportLatency.Ok? && env.createClient.Ok?
    requires env.subscribe.Ok? && env.waitForReply.Ok?
    requires forall j | 0 <= j < |checkers| :: env.check(j).Ok?
    requires env.close.Ok? && env.reportLatencies.Ok?
    ensures RunEvents(checkers, devices, env) ==
              [LogIn, ReportLatency(LogInLatency, env.loginLatency), CreateClient(env.login.value),
               Subscribe(devices, TestTelemetryKey), WaitForReply]
              + CheckEvents(checkers) + [CloseClient, ReportLatencies]
    ensures NoFailureReport(RunEvents(checkers, devices, env))
  {
    ReachesChecks(checkers, devices, env);
    CheckFromPasses(checkers, 0, env);
    assert checkers[0..] == checkers;
    var prefix := [LogIn, ReportLatency(LogInLatency, env.loginLatency), CreateClient(env.login.value),
                   Subscribe(devices, TestTelemetryKey), WaitForReply];
    assert Opening(env.login.value, env) + [Subscribe(devices, TestTelemetryKey), WaitForReply] == prefix;
    var checks := CheckEvents(checkers);
    assert RunEvents(checkers, devices, env) == prefix + checks + [CloseClient, ReportLatencies];
  }

  /** When checker k's check is the first to throw: the checkers after k are
      never checked, the client is still closed, the latencies are not
      reported, and the error is reported once under the general key (an
      error of that report being only logged). */
  lemma FailingCheck(checkers: seq<Checker>, devices: seq<DeviceId>, env: RunEnv, k: nat)
    requires k < |checkers|
    requires env.login.Success?
    requires env.reportLatency.Ok? && env.createClient.Ok?
    requires env.subscribe.Ok? && env.waitForReply.Ok?
    requires forall j | 0 <= j < k :: env.check(j).Ok?
    requires env.check(k).Fail?
    ensures RunEvents(checkers, devices, env) ==
              [LogIn, ReportLatency(LogInLatency, env.loginLatency), CreateClient(env.login.value),
               Subscribe(devices, TestTelemetryKey), WaitForReply]
              + CheckEvents(checkers[..k + 1]) + [CloseClient]
              + Handle(env.check(k), env)
  {
    ReachesChecks(checkers, devices, env);
    CheckFromStops(checkers, 0, k, env);
    assert checkers[0..k + 1] == checkers[..k + 1];
  }

  /** A login that throws ends the attempt: its latency is not reported, no
      client is created, and the error is reported once. */
  lemma FailedLogin(checkers: seq<Checker>, devices: seq<DeviceId>, env: RunEnv)
    requires checkers != [] && env.login.Failure?
    ensures RunEvents(checkers, devices, env) == [LogIn] + Handle(Fail(env.login.error), env)
    ensures ReportLatency(LogInLatency, env.loginLatency) !in RunEvents(checkers, devices, env)
    ensures forall i | 0 <= i < |RunEvents(checkers, devices, env)| :: !RunEvents(checkers, devices, env)[i].CreateClient?
  {
  }

  /** The ws client is created at most once and closed exactly as often as it
      was created: once on every path that opened it, never otherwise. */
  lemma ClientClosedOnce(checkers: seq<Checker>, devices: seq<DeviceId>, env: RunEnv)
    ensures multiset(RunEvents(checkers, devices, env))[CloseClient] == if ClientOpened(checkers, env) then 1 else 0
    ensures ClientOpened(checkers, env) ==>
              multiset(RunEvents(checkers, devices, env))[CreateClient(env.login.value)] == 1
  {
    if ClientOpened(checkers, env) {
      OpenedClientClosed(checkers, devices, env);
    } else if checkers != [] {
      var attempt := Attempt(checkers, devices, env);
      assert CloseClient !in attempt.events && CloseClient !in Handle(attempt.thrown, env);
      assert multiset(RunEvents(checkers, devices, env))[CloseClient] ==
             multiset(attempt.events)[CloseClient] + multiset(Handle(attempt.thrown, env))[CloseClient];
    }
  }

  lemma OpenedClientClosed(checkers: seq<Checker>, devices: seq<DeviceId>, env: RunEnv)
    requires ClientOpened(checkers, env)
    ensures multiset(RunEvents(checkers, devices, env))[CloseClient] == 1
    ensures multiset(RunEvents(checkers, devices, env))[CreateClient(env.login.value)] == 1
  {
    var token := env.login.value;
    var body := ScopeClosesLast(checkers, devices, env);
    var after := OpenedRunEvents(checkers, devices, env);
    var before := [LogIn, ReportLatency(LogInLatency, env.loginLatency)];
    assert RunEvents(checkers, devices, env) == before + [CreateClient(token)] + (body + [CloseClient] + after);
    OccursOnce(before + [CreateClient(token)] + body, CloseClient, after);
    OccursOnce(before, CreateClient(token), body + [CloseClient] + after);
  }

  /** A run that opened the client: the opening calls, the scoped block,
      then calls that neither create nor close a client. */
  lemma OpenedRunEvents(checkers: seq<Checker>, devices: seq<DeviceId>, env: RunEnv) returns (after: seq<Event>)
    requires ClientOpened(checkers, env)
    ensures RunEvents(checkers, devices, env) == Opening(env.login.value, env) + WithClient(checkers, devices, env).events + after
    ensures forall e | e in after :: !e.CloseClient? && !e.CreateClient? && !e.Subscribe?
  {
    var scoped := WithClient(checkers, devices, env);
    after := if scoped.thrown.Fail? then Handle(scoped.thrown, env)
             else [ReportLatencies] + Handle(env.reportLatencies, env);
  }

  lemma OccursOnce(a: seq<Event>, x: Event, b: seq<Event>)
    requires x !in a && x !in b
    ensures multiset(a + [x] + b)[x] == 1
  {
    assert multiset(a + [x] + b) == multiset(a) + multiset([x]) + multiset(b);
  }

  /** The try-with-resources block closes the client as its last call, and
      neither closes nor creates a client before. */
  lemma ScopeClosesLast(checkers: seq<Checker>, devices: seq<DeviceId>, env: RunEnv) returns (body: seq<Event>)
    ensures WithClient(checkers, devices, env).events == body + [CloseClient]
    ensures forall e | e in body :: !e.CloseClient? && !e.CreateClient?
  {
    body := [Subscribe(devices, TestTelemetryKey)];
    if env.subscribe.Ok? {
      body := body + [WaitForReply];
      if env.waitForReply.Ok? {
        CheckFromOnlyChecks(checkers, 0, env);
        body := body + CheckFrom(checkers, 0, env).events;
      }
    }
  }

  /** Every run without checkers, and every run whose attempt returns, makes
      no failure report; every other run makes exactly one, under the general
      key and with the error that ended the attempt, and nothing after it
      but, when that report throws, the logging of its error. */
  lemma OneFailureReport(checkers: seq<Checker>, devices: seq<DeviceId>, env: RunEnv)
    requires checkers != []
    ensures var attempt := Attempt(checkers, devices, env);
            && NoFailureReport(attempt.events)
            && RunEvents(checkers, devices, env) == attempt.events + Handle(attempt.thrown, env)
            && (attempt.thrown.Ok? ==> NoFailureReport(RunEvents(checkers, devices, env)))
            && (attempt.thrown.Fail? ==>
                  Handle(attempt.thrown, env)[0] == ServiceFailure(General, attempt.thrown.error)
                  && NoFailureReport(Handle(attempt.thrown, env)[1..]))
    ensures ReportLatencies in RunEvents(checkers, devices, env) <==>
              ClientOpened(checkers, env) && WithClient(checkers, devices, env).thrown.Ok?
  {
    var attempt := Attempt(checkers, devices, env);
    var checks := CheckFrom(checkers, 0, env);
    CheckFromOnlyChecks(checkers, 0, env);
    assert NoFailureReport(checks.events) && ReportLatencies !in checks.events;
    if ClientOpened(checkers, env) {
      var token := env.login.value;
      var scoped := WithClient(checkers, devices, env);
      var body := scoped.events[..|scoped.events| - 1];
      assert scoped.events == body + [CloseClient];
      assert NoFailureReport(body) && ReportLatencies !in body by {
        if env.subscribe.Ok? && env.waitForReply.Ok? {
          assert body == [Subscribe(devices, TestTelemetryKey), WaitForReply] + checks.events;
        }
      }
      var tail := if scoped.thrown.Fail? then [] else [ReportLatencies];
      assert attempt.events == Opening(token, env) + body + [CloseClient] + tail;
    }
  }

  /** The run subscribes for updates exactly when it opened the client, and
      every subscription it makes is for the device list it was given. */
  lemma SubscribesGivenDevices(checkers: seq<Checker>, devices: seq<DeviceId>, env: RunEnv)
    ensures Subscribe(devices, TestTelemetryKey) in RunEvents(checkers, devices, env) <==> ClientOpened(checkers, env)
    ensures forall e | e in RunEvents(checkers, devices, env) && e.Subscribe? :: e.devices == devices
  {
    if ClientOpened(checkers, env) {
      var after := OpenedRunEvents(checkers, devices, env);
      var scoped := WithClient(checkers, devices, env);
      CheckFromOnlyChecks(checkers, 0, env);
      assert scoped.events[0] == Subscribe(devices, TestTelemetryKey);
      assert forall e | e in scoped.events && e.Subscribe? :: e.devices == devices;
      assert RunEvents(checkers, devices, env) == Opening(env.login.value, env) + scoped.events + after;
    } else if checkers != [] {
      assert forall e | e in RunEvents(checkers, devices, env) :: !e.Subscribe?;
    }
  }
}
