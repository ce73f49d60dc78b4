/**
 * The vocabulary shared by BlueGreen's orchestrator, its commands, its
 * strategies and its view layer: errors, request and view kinds, request
 * contexts, handler results and what is handed to the view layer.
 */
module Model {
  import opened Wrappers
  import Json

  /**
   * What a callback receives as `err`: an `Error` object, a bare string
   * (several handlers pass one), or a system error carrying a `code`.
   */
  datatype Err =
    | ErrorObj(message: string)
    | ErrorText(text: string)
    | SystemErr(code: string)

  /** JavaScript truthiness of an error argument (an empty string is falsy). */
  predicate ErrTruthy(e: Option<Err>) {
    e.Some? && (e.value.ErrorText? ==> e.value.text != "")
  }

  /** Every request type that a command or a strategy names. */
  datatype Request =
    | GetVersionsAndStatus
    | DeleteVersion
    | VersionsList
    | VersionsDelete
    | VersionsCreate
    | VersionsDeploy
    | VersionsFindCodebaseVersion
    | EnvironmentsList
    | ServicesList
    | ServicesCreate
    | GatewayList
    | GatewayCreate
    | GatewayAttach

  /** Every view kind that a command or the orchestrator renders. */
  datatype View =
    | ErrorView
    | SuccessView
    | HelpView
    | VersionsAndStatusView
    | EnvironmentsView
    | ServicesView
    | GatewaysView
    | DebugCodebaseVersionView

  /** The context object a command hands to `request`; an absent field is `undefined`. */
  datatype Context = Context(
    service: Option<string>,
    version: Option<string>,
    environment: Option<string>,
    gateway: Option<string>,
    description: Option<string>,
    rrname: Option<string>,
    zone: Option<string>)

  const EmptyContext := Context(None, None, None, None, None, None, None)

  /** A string option is truthy when it is present and not empty. */
  predicate Given(o: Option<string>) {
    o.Some? && o.value != ""
  }

  /** A value interpolated into a template literal (`undefined` prints as such). */
  function Show(o: Option<string>): string {
    if o.Some? then o.value else "undefined"
  }

  /**
   * The `service` of a record: the service's name, or the number the
   * original Elastic Beanstalk strategy computes in its place (a position
   * in the application name, or -1).
   */
  datatype ServiceField = ServiceName(name: string) | ServicePosition(position: int)

  /** `record.service === service`: a number never equals a string, nor `undefined`. */
  predicate IsService(f: ServiceField, service: Option<string>) {
    service.Some? && f == ServiceName(service.value)
  }

  /** An environment (a deployment) as BlueGreen describes it. */
  datatype Environment = Environment(
    name: string,
    service: ServiceField,
    version: Option<string>,
    url: Option<string>,
    status: Option<string>,
    alias: Option<string>,          // `r53:Alias`
    aliasZone: Option<string>,      // `r53:HostedZoneId`
    aliasName: Option<string>,      // `r53:CNAME`
    cname: Option<string>)          // `eb:CNAME`

  /** A version of a service, with the environments it is deployed on. */
  datatype Version = Version(
    name: string,
    description: Option<string>,
    status: string,
    service: ServiceField,
    deployments: seq<Environment>)

  /** A gateway as the Route 53 and ELB strategies describe it. */
  datatype Gateway = Gateway(
    name: Option<Json.Value>,
    service: Option<Json.Value>,
    environment: Option<Json.Value>,
    uri: string,
    recordName: string,
    zone: Option<string>,
    root: Option<string>,
    alias: Option<string>,
    aliasZone: Option<string>)

  /** A gateway as the ELB strategy describes it: `{service, name, 'elb:DNSName'}`. */
  datatype LbGateway = LbGateway(service: string, name: string, dnsName: Option<string>)

  /** The data argument of a callback; `PNone` is `undefined`. */
  datatype Payload =
    | PNone
    | PText(text: string)
    | PVersions(forService: Option<string>, versions: seq<Version>)
    | PEnvironments(environments: seq<Environment>)
    | PGateways(gateways: seq<Gateway>)
    | PGateway(gateway: Gateway)
    | PExisting(gateway: Gateway)     // `{created: false, gateway}`
    | PValue(value: Json.Value)
    | PLoadBalancers(balancers: seq<LbGateway>)

  /** JavaScript truthiness of a data argument. */
  predicate PayloadTruthy(p: Payload) {
    match p
    case PNone => false
    case PText(t) => t != ""
    case PValue(v) => Json.Truthy(v)
    case _ => true
  }

  /**
   * How a handler (or a command) ends: it calls back with `(err, data)`, it
   * throws, or it never calls back.
   */
  datatype Reply =
    | Replied(err: Option<Err>, data: Payload)
    | Threw(reason: string)
    | Silent

  /** Names one bound handler method of one strategy instance. */
  datatype Handler = Handler(strategy: string, operation: string)

  /** One entry of the orchestrator's strategy list: `{request, handler}`. */
  datatype Binding = Binding(request: Request, handler: Handler)

  /** How a strategy module's `register` ends. */
  datatype Registration =
    | NoRegister                                            // the module has no `register`
    | Registered(err: Option<Err>, bindings: Option<seq<Binding>>)   // `None`: not an array
    | RegisterThrew(reason: string)

  /** What a provider call hands back: an error, or the records asked for. */
  datatype Fetched<T> = FetchError(err: Err) | Fetched(value: T)

  /** The data object a command hands to the view layer. */
  datatype ViewData =
    | ErrorData(error: Option<Err>, message: Payload)
    | MessageData(text: string)
    | PayloadData(payload: Payload)
    | ListData(items: seq<Payload>)
    | DebugData(version: Payload, error: Option<Err>)
    | NoData

  /** One call of `render(layout, data)`. */
  datatype Rendering = Rendering(view: View, data: ViewData)

  /** `data || fallback` for the message of an error view. */
  function MessageOr(data: Payload, fallback: string): (r: Payload)
    ensures r == data || r == PText(fallback)
    ensures PayloadTruthy(data) ==> r == data
    ensures fallback != "" ==> PayloadTruthy(r)
  {
    if PayloadTruthy(data) then data else PText(fallback)
  }
}
