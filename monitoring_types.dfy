/** Values shared by the bootstrap and the run cycle of a monitoring service:
    targets, configurations, checkers, collaborator outcomes and the events
    that the service's calls to its collaborators produce. */
module MonitoringTypes {

  datatype Option<T> = None | Some(value: T)

  /** An opaque error thrown by a collaborator (a Java Throwable). */
  datatype Error = Error(description: string)

  /** How a collaborator call that returns nothing ended: normally, or by throwing. */
  datatype Outcome = Ok | Fail(error: Error)

  /** How a collaborator call that returns a value ended. */
  datatype Result<T> = Success(value: T) | Failure(error: Error)

  /** A device identifier (a java.util.UUID in the service). */
  type DeviceId = string

  /** An access token handed out by the platform's login. */
  type Token = string

  /** A parsed URI (java.net.URI): only the components the service reads or
      writes. A port of -1 means "no port", as in java.net.URI. */
  datatype Url = Url(
    scheme: string,
    userInfo: Option<string>,
    host: string,
    port: int,
    path: string,
    query: Option<string>,
    fragment: Option<string>)

  /** A monitored target: its base URL, the device its telemetry is reported
      under, and whether each resolved address of its host gets a checker too. */
  datatype Target = Target(baseUrl: Url, deviceId: DeviceId, checkDomainIps: bool)

  /** One configuration of a checker family, with its declared targets. */
  datatype Config = Config(family: string, targets: seq<Target>)

  /** A health checker, as built by the service's checker factory for one
      configuration and one target. */
  datatype Checker = Checker(config: Config, target: Target)

  /** The latency the run cycle itself reports (Latencies.LOG_IN). */
  datatype LatencyKey = LogInLatency

  /** The telemetry key every checker publishes under (TEST_TELEMETRY_KEY). */
  datatype TelemetryKey = TestTelemetryKey

  /** The service key of the failure report (MonitoredServiceKey.GENERAL). */
  datatype ServiceKey = General

  /** One call of the service to a collaborator; a call that throws is
      recorded too, since it was made. */
  datatype Event =
    | LogIn                                    // TbClient.logIn
    | Initialize(checker: Checker)             // checker.initialize(tbClient)
    | Resolve(host: string)                    // InetAddress.getAllByName(host)
    | ReportLatency(key: LatencyKey, millis: nat)
    | CreateClient(token: Token)               // WsClientFactory.createClient
    | Subscribe(devices: seq<DeviceId>, telemetryKey: TelemetryKey)
    | WaitForReply
    | Check(checker: Checker)                  // checker.check(wsClient)
    | CloseClient                              // WsClient.close
    | ReportLatencies                          // reporter.reportLatencies(tbClient)
    | ServiceFailure(service: ServiceKey, error: Error)
    | LogError(error: Error)                   // the logged, swallowed secondary failure

  /** No event of `events` is a service-failure report. */
  predicate NoFailureReport(events: seq<Event>)
  {
    forall e | e in events :: !e.ServiceFailure?
  }
}
