/**
 * The BlueGreen orchestrator: the object that loads the configuration
 * through a chain of loaders, registers the strategies' request bindings,
 * instantiates the commands and the view layer, routes a command line to the
 * first command that recognises it, and dispatches a request to the first
 * binding registered for its type.
 *
 * What the loaders, the strategy modules and the handlers do is given as
 * inputs: one loader reply per configured loader, one registration outcome
 * per strategy module, and a handler oracle from a bound handler and a
 * context to its reply.
 */
module App {
  import opened Wrappers
  import opened Model
  import Json
  import Text
  import Config
  import Commands

  // ---------------------------------------------------------------------
  // constructor
  // ---------------------------------------------------------------------

  /** The constructor's options; only the loader list is modelled. */
  datatype Options = Options(configLoaders: Option<seq<string>>)

  const DefaultLoaders: seq<string> := ["./modules/config/npm-config-loader", "./modules/config/bluegreen-config-loader"]

  /** `this.defaults`: the application prefix and the source-bundle deletion flag. */
  const Defaults: seq<Json.Member> := [
    Json.Member("application", Json.JObj([Json.Member("prefix", Json.JStr("nr8-"))])),
    Json.Member("aws", Json.JObj([Json.Member("beanstalk", Json.JObj([
      Json.Member("versioning", Json.JObj([Json.Member("deleteSourceBundle", Json.JBool(true))]))]))]))]

  const DefaultCommands: seq<Commands.Command> := [Commands.ShowVersions, Commands.DeleteVersionCommand]
  const DefaultStrategies: seq<string> := ["./modules/strategies/elasticbeanstalk"]

  const PrefixPath: seq<string> := ["application", "prefix"]
  const DeleteBundlePath: seq<string> := ["aws", "beanstalk", "versioning", "deleteSourceBundle"]

  /** The defaults hold the two documented settings. */
  lemma DefaultSettings()
    ensures Json.Lookup(Json.JObj(Defaults), PrefixPath) == Some(Json.JStr("nr8-"))
    ensures Json.Lookup(Json.JObj(Defaults), DeleteBundlePath) == Some(Json.JBool(true))
  {
    var aws := Defaults[1].value;
    var beanstalk := aws.members[0].value;
    var versioning := beanstalk.members[0].value;
    assert Json.Get(Defaults, "application") == Some(Defaults[0].value);
    assert Json.Get(Defaults, "aws") == Some(aws);
    assert Json.Get(aws.members, "beanstalk") == Some(beanstalk);
    assert Json.Get(beanstalk.members, "versioning") == Some(versioning);
    assert Json.Get(versioning.members, "deleteSourceBundle") == Some(Json.JBool(true));
  }

  // ---------------------------------------------------------------------
  // __initConfig: the loader chain
  // ---------------------------------------------------------------------

  const ConfigIssue := "Could not initialize BlueGreen due to configuration issue."

  /** A loader that calls back once, without an error and without a truthy config. */
  predicate Absent(r: Config.LoaderReply) {
    r.Delivered? && !ErrTruthy(r.err) && !Config.LoadTruthy(r.data)
  }

  /** Where the chain of loaders from position `i` on ends. */
  datatype ChainEnd =
    | Found(at: nat, value: Json.Value)        // the first loader with a truthy config
    | Exhausted                                // every loader was absent
    | LoaderFailed(at: nat, err: Err)          // a loader called back with an error
    | LoaderThrew(at: nat, reason: string)     // a loader threw

  /** The loaders from `i` on, consulted in order until one is not absent. */
  function Chain(replies: seq<Config.LoaderReply>, i: nat): (e: ChainEnd)
    requires i <= |replies|
    ensures e.Exhausted? <==> forall j :: i <= j < |replies| ==> Absent(replies[j])
    ensures !e.Exhausted? ==> i <= e.at < |replies| && !Absent(replies[e.at])
    ensures !e.Exhausted? ==> forall j :: i <= j < e.at ==> Absent(replies[j])
    ensures e.Found? ==> replies[e.at].Delivered? && replies[e.at].data == Config.Data(e.value)
                         && !ErrTruthy(replies[e.at].err) && Json.Truthy(e.value)
    ensures e.LoaderFailed? ==> ErrTruthy(Some(e.err))
    decreases |replies| - i
  {
    if i == |replies| then Exhausted
    else match replies[i]
      case Delivered(err, d) =>
        if ErrTruthy(err) then LoaderFailed(i, err.value)
        else if Config.LoadTruthy(d) then Found(i, d.value)
        else Chain(replies, i + 1)
      case DeliveredThenCrashed(first, reason) =>
        if ErrTruthy(Some(first)) then LoaderFailed(i, first) else LoaderThrew(i, reason)
      case Crashed(reason) => LoaderThrew(i, reason)
  }

  /** How many loaders the chain calls: all of them, or up to the one it ends at. */
  function Calls(e: ChainEnd, n: nat): nat {
    if e.Exhausted? then n else e.at + 1
  }

  /** How a stage of `init` calls back. */
  datatype StageEnd =
    | Passed
    | FailedPair(err: Err, message: string)    // `callback([err, message])`
    | FailedWith(err: Err)                     // `callback(err)`
    | StageThrew(reason: string)

  /** How the configuration stage ends, given where its chain ended. */
  function ConfigEnd(e: ChainEnd): StageEnd {
    match e
    case LoaderFailed(_, err) => FailedPair(err, ConfigIssue)
    case LoaderThrew(_, reason) => StageThrew(reason)
    case _ => Passed
  }

  /** The config the chain sets: the value found, or `null`. */
  function Loaded(e: ChainEnd): Option<Json.Value> {
    if e.Found? then Some(e.value) else None
  }

  /** `this.config || {}`. */
  function ConfigOrEmpty(c: Option<Json.Value>): Json.Value {
    if c.Some? && Json.Truthy(c.value) then c.value else Json.JObj([])
  }

  /**
   * With every loader absent the configuration is the defaults; a loader is
   * called only when every loader before it was absent.
   */
  lemma AbsentLoadersKeepDefaults(replies: seq<Config.LoaderReply>)
    requires forall j :: 0 <= j < |replies| ==> Absent(replies[j])
    ensures Chain(replies, 0) == Exhausted && Calls(Chain(replies, 0), |replies|) == |replies|
    ensures Json.MergeConfig(Defaults, ConfigOrEmpty(None)) == Defaults
  {
  }

  /**
   * A loaded configuration wins wherever it sets the prefix to a plain value;
   * where it says nothing about the prefix, the default prefix survives.
   */
  lemma LoadedOverDefaults(loaded: Json.Value)
    requires Json.WellFormed(loaded)
    ensures forall v :: Json.Lookup(loaded, PrefixPath) == Some(v) && !v.JObj? && !v.JArr? ==>
              Json.Lookup(Json.JObj(Json.MergeConfig(Defaults, loaded)), PrefixPath) == Some(v)
    ensures Json.StopsShort(loaded, PrefixPath) ==>
              Json.Lookup(Json.JObj(Json.MergeConfig(Defaults, loaded)), PrefixPath) == Some(Json.JStr("nr8-"))
  {
    forall v | Json.Lookup(loaded, PrefixPath) == Some(v) && !v.JObj? && !v.JArr?
      ensures Json.Lookup(Json.JObj(Json.MergeConfig(Defaults, loaded)), PrefixPath) == Some(v)
    {
      assert loaded.JObj?;
      Json.MergeLoadedWins(Some(Json.JObj(Defaults)), loaded, PrefixPath, v);
    }
    if Json.StopsShort(loaded, PrefixPath) {
      DefaultSettings();
      Json.MergeDefaultSurvives(Json.JObj(Defaults), loaded, PrefixPath, Json.JStr("nr8-"));
    }
  }

  // ---------------------------------------------------------------------
  // __initStrategies: registration
  // ---------------------------------------------------------------------

  const NoRegisterFunction := "Strategy module does not have a register function."
  const NotAnArray := "Expected an array of strategies to be returned, but got something else."
  const StrategiesFailed := "Failed to register strategies with bluegreen"

  /** A registration that hands back an array without an error. */
  predicate Succeeded(r: Registration) {
    r.Registered? && !ErrTruthy(r.err) && r.bindings.Some?
  }

  /** Where the series of registrations ends. */
  datatype RegEnd = AllRegistered | RegFailed(at: nat, err: Err) | RegThrew(at: nat, reason: string)

  /** The bindings the series appends from module `i` on, and where it ends. */
  function Series(regs: seq<Registration>, i: nat): (r: (seq<Binding>, RegEnd))
    requires i <= |regs|
    ensures r.1.AllRegistered? <==> forall j :: i <= j < |regs| ==> Succeeded(regs[j])
    ensures !r.1.AllRegistered? ==> i <= r.1.at < |regs| && !Succeeded(regs[r.1.at])
                                    && forall j :: i <= j < r.1.at ==> Succeeded(regs[j])
    ensures r.1.RegFailed? ==> ErrTruthy(Some(r.1.err))
    decreases |regs| - i
  {
    if i == |regs| then ([], AllRegistered)
    else match regs[i]
      case NoRegister => ([], RegFailed(i, ErrorObj(NoRegisterFunction)))
      case RegisterThrew(reason) => ([], RegThrew(i, reason))
      case Registered(err, bs) =>
        if ErrTruthy(err) then ([], RegFailed(i, err.value))
        else if bs.None? then ([], RegFailed(i, ErrorObj(NotAnArray)))
        else
          var rest := Series(regs, i + 1);
          (bs.value + rest.0, rest.1)
  }

  /** The whole series of registrations. */
  function Registrations(regs: seq<Registration>): (seq<Binding>, RegEnd) {
    Series(regs, 0)
  }

  /** How the strategy stage ends, given where its series ended. */
  function StrategiesEnd(e: RegEnd): StageEnd {
    match e
    case AllRegistered => Passed
    case RegFailed(_, err) => FailedWith(err)
    case RegThrew(_, reason) => StageThrew(reason)
  }

  /** The first position of `xs` that satisfies `p`. */
  function First<T>(xs: seq<T>, p: T -> bool): (r: Option<nat>)
    ensures r.Some? ==> r.value < |xs| && p(xs[r.value])
    ensures forall j :: 0 <= j < |xs| && (r.None? || j < r.value) ==> !p(xs[j])
  {
    if xs == [] then None
    else if p(xs[0]) then Some(0)
    else match First(xs[1..], p)
      case None => None
      case Some(k) => Some(k + 1)
  }

  /** The first position satisfying `p` is what `First` finds. */
  lemma {:induction false} FirstAt<T>(xs: seq<T>, p: T -> bool, k: nat)
    requires k < |xs| && p(xs[k])
    requires forall j :: 0 <= j < k ==> !p(xs[j])
    ensures First(xs, p) == Some(k)
  {
    if k > 0 {
      assert forall j :: 0 <= j < k - 1 ==> xs[1..][j] == xs[j + 1];
      FirstAt(xs[1..], p, k - 1);
    }
  }

  /** The search `_.find` and the `run` loop make: the first position satisfying `p`, in list order. */
  method FindFirst<T>(xs: seq<T>, p: T -> bool) returns (k: Option<nat>)
    ensures k == First(xs, p)
  {
    var i := 0;
    while i < |xs| && !p(xs[i])
      invariant 0 <= i <= |xs|
      invariant forall j :: 0 <= j < i ==> !p(xs[j])
    {
      i := i + 1;
    }
    if i == |xs| {
      k := None;
    } else {
      FirstAt(xs, p, i);
      k := Some(i);
    }
  }

  /** The binding a request type reaches in a list: the first with that type. */
  function FirstBinding(bs: seq<Binding>, request: Request): (r: Option<nat>)
    ensures r.Some? ==> r.value < |bs| && bs[r.value].request == request
    ensures forall j :: 0 <= j < |bs| && (r.None? || j < r.value) ==> bs[j].request != request
  {
    First(bs, (b: Binding) => b.request == request)
  }

  /** The bindings of the first `n` registrations, which all succeeded. */
  function Bound(regs: seq<Registration>, n: nat): seq<Binding>
    requires n <= |regs| && forall j :: 0 <= j < n ==> Succeeded(regs[j])
  {
    if n == 0 then []
    else
      assert Succeeded(regs[n - 1]);
      Bound(regs, n - 1) + regs[n - 1].bindings.value
  }

  /**
   * The bindings are appended module by module, in order: those of the
   * modules before `i` come before those the series appends from `i` on, and
   * when every module succeeds that is every module's bindings in module order.
   */
  lemma {:induction false} RegistrationsAppend(regs: seq<Registration>, i: nat)
    requires i <= |regs| && forall j :: 0 <= j < |regs| ==> Succeeded(regs[j])
    ensures Bound(regs, i) + Series(regs, i).0 == Bound(regs, |regs|)
    decreases |regs| - i
  {
    if i < |regs| {
      RegistrationsAppend(regs, i + 1);
      assert Series(regs, i).0 == regs[i].bindings.value + Series(regs, i + 1).0;
      assert Bound(regs, i + 1) == Bound(regs, i) + regs[i].bindings.value;
    }
  }

  /**
   * The earliest registration wins: when module `i` is the first whose
   * bindings serve a request type, and it and the modules before it
   * registered, dispatch over what the series from `from` appends reaches one
   * of module `i`'s bindings.
   */
  lemma {:induction false} EarliestModuleWins(regs: seq<Registration>, request: Request, from: nat, i: nat)
    requires from <= i < |regs|
    requires Succeeded(regs[i]) && FirstBinding(regs[i].bindings.value, request).Some?
    requires forall j :: from <= j < i ==> Succeeded(regs[j]) && FirstBinding(regs[j].bindings.value, request).None?
    ensures var bs := Series(regs, from).0;
            FirstBinding(bs, request).Some?
            && bs[FirstBinding(bs, request).value]
               == regs[i].bindings.value[FirstBinding(regs[i].bindings.value, request).value]
    decreases i - from
  {
    var head := regs[from].bindings.value;
    var rest := Series(regs, from + 1).0;
    assert Series(regs, from).0 == head + rest;
    if i == from {
      FirstBindingPrefix(head, rest, request);
    } else {
      EarliestModuleWins(regs, request, from + 1, i);
      FirstBindingSkips(head, rest, request);
    }
  }

  /** A request served by the first list is found there. */
  lemma FirstBindingPrefix(a: seq<Binding>, b: seq<Binding>, request: Request)
    requires FirstBinding(a, request).Some?
    ensures FirstBinding(a + b, request) == FirstBinding(a, request)
  {
    var k := FirstBinding(a, request).value;
    assert (a + b)[k] == a[k];
    FirstBindingAt(a + b, request, k);
  }

  /** A request the first list does not serve is looked up past it. */
  lemma FirstBindingSkips(a: seq<Binding>, b: seq<Binding>, request: Request)
    requires FirstBinding(a, request).None? && FirstBinding(b, request).Some?
    ensures FirstBinding(a + b, request) == Some(|a| + FirstBinding(b, request).value)
  {
    var k := FirstBinding(b, request).value;
    assert (a + b)[|a| + k] == b[k];
    assert forall j :: |a| <= j < |a| + k ==> (a + b)[j] == b[j - |a|];
    FirstBindingAt(a + b, request, |a| + k);
  }

  /** The first position serving a request is what `FirstBinding` finds. */
  lemma FirstBindingAt(bs: seq<Binding>, request: Request, k: nat)
    requires k < |bs| && bs[k].request == request
    requires forall j :: 0 <= j < k ==> bs[j].request != request
    ensures FirstBinding(bs, request) == Some(k)
  {
    FirstAt(bs, (b: Binding) => b.request == request, k);
  }

  // ---------------------------------------------------------------------
  // init: reporting a failed stage
  // ---------------------------------------------------------------------

  /** `err[i]` of the value a stage failed with: a character of a string, `undefined` for an object. */
  function Element(e: Err, i: nat): Option<string> {
    if e.ErrorText? && i < |e.text| then Some([e.text[i]]) else None
  }

  /**
   * What `init` calls back with and logs as written: it reads `err[0]` and
   * `err[1]`, which suits the configuration stage's pair but not the error
   * the strategy stage passes.
   */
  function ReportAsWritten(s: StageEnd): (r: (Err, Config.LogEntry))
    requires s.FailedPair? || s.FailedWith?
    ensures s.FailedPair? ==> r == Config.Notify(Some(s.err), s.message)
  {
    if s.FailedPair? then Config.Notify(Some(s.err), s.message)
    else
      var first, second := Element(s.err, 0), Element(s.err, 1);
      var e := if first.Some? then ErrorText(first.value)
               else ErrorObj(if second.Some? then second.value else "");    // `new Error(undefined)` has an empty message
      (e, Config.LogEntry(["error"], Show(second), e))
  }

  /** What `init` evidently means to report: the stage's own error, with the stage's message. */
  function Report(s: StageEnd): (r: (Err, Config.LogEntry))
    requires s.FailedPair? || s.FailedWith?
    ensures ErrTruthy(Some(s.err)) ==> r.0 == s.err && r.1.error == s.err
    ensures s.FailedPair? ==> r == Config.Notify(Some(s.err), s.message)
    ensures s.FailedWith? ==> r == Config.Notify(Some(s.err), StrategiesFailed)
  {
    Config.Notify(Some(s.err), if s.FailedPair? then s.message else StrategiesFailed)
  }

  /**
   * A strategy module without `register` fails the strategy stage with an
   * error object; as written `init` hands on an empty error instead of it.
   */
  lemma StrategyErrorLost(message: string)
    requires message != ""
    ensures ReportAsWritten(FailedWith(ErrorObj(message))).0 == ErrorObj("")
    ensures Report(FailedWith(ErrorObj(message))).0 == ErrorObj(message)
  {
  }

  /** How `init` ends. */
  datatype InitEnd = InitOk | InitFailed(err: Err) | InitThrew(reason: string)

  // ---------------------------------------------------------------------
  // run / request
  // ---------------------------------------------------------------------

  const NoMatchingCommand := "No matching command."
  const NoImplementation := "No matching implementation for this request type."
  const NoViewLayer := "TypeError: Cannot read property 'render' of null"

  /** `command.isMatch(args)`, as a test on commands. */
  function Recognises(args: string): Commands.Command -> bool {
    c => Commands.IsMatch(c, args)
  }

  /** The command a line reaches: the first, in list order, that recognises it. */
  function FirstCommand(cs: seq<Commands.Command>, args: string): (r: Option<nat>)
    ensures r.Some? ==> r.value < |cs| && Commands.IsMatch(cs[r.value], args)
    ensures forall j :: 0 <= j < |cs| && (r.None? || j < r.value) ==> !Commands.IsMatch(cs[j], args)
  {
    First(cs, Recognises(args))
  }

  /** What `request` hands on: the first binding's handler's reply, or the no-implementation error. */
  function Dispatch(bs: seq<Binding>, request: Request, ctx: Context, invoke: (Handler, Context) -> Reply): (r: Reply)
    ensures (forall j :: 0 <= j < |bs| ==> bs[j].request != request) ==> r == Replied(Some(ErrorObj(NoImplementation)), PNone)
  {
    match FirstBinding(bs, request)
    case None => Replied(Some(ErrorObj(NoImplementation)), PNone)
    case Some(i) => invoke(bs[i].handler, ctx)
  }

  /** A request reaches the handler of the first binding of its type, whatever the bindings after it. */
  lemma DispatchReachesFirst(bs: seq<Binding>, request: Request, ctx: Context, invoke: (Handler, Context) -> Reply, k: nat)
    requires k < |bs| && bs[k].request == request
    requires forall j :: 0 <= j < k ==> bs[j].request != request
    ensures Dispatch(bs, request, ctx, invoke) == invoke(bs[k].handler, ctx)
  {
    FirstBindingAt(bs, request, k);
  }

  /** What executing a command does: its renderings and how it calls back. */
  function Executed(c: Commands.Command, argv: Commands.Argv, bs: seq<Binding>,
                    invoke: (Handler, Context) -> Reply, viewLayer: bool): (seq<Rendering>, Reply)
  {
    match Commands.Prepare(c, argv)
    case ThrowsFirst(m) => ([], Threw(m))
    case Ask(request, ctx) =>
      var finished := Commands.Finish(c, argv, Dispatch(bs, request, ctx, invoke));
      if finished.0 != [] && !viewLayer then ([], Threw(NoViewLayer)) else finished
  }

  /**
   * Executing command `c` handed on `r` and took the renderings from
   * `before` to `after`.
   */
  predicate Ran(c: Commands.Command, argv: Commands.Argv, bs: seq<Binding>, invoke: (Handler, Context) -> Reply,
                viewLayer: bool, r: Reply, before: seq<Rendering>, after: seq<Rendering>)
  {
    var done := Executed(c, argv, bs, invoke, viewLayer);
    r == done.1 && after == before + done.0
  }

  /**
   * A line no command recognises: with a view layer, the error and the help
   * are rendered and the error handed on; without one, rendering throws.
   */
  predicate Unmatched(viewLayer: bool, r: Reply, before: seq<Rendering>, after: seq<Rendering>) {
    if viewLayer then r == Replied(Some(ErrorObj(NoMatchingCommand)), PNone) && after == before + NoMatchRenderings
    else r == Threw(NoViewLayer) && after == before
  }

  /** What `run` renders when no command recognises the line: the error, then the help. */
  const NoMatchRenderings: seq<Rendering> := [
    Rendering(ErrorView, ErrorData(Some(ErrorObj(NoMatchingCommand)), PNone)),
    Rendering(HelpView, NoData)]

  /**
   * With both version commands installed, show-versions before
   * list-versions, `<service> versions` runs show-versions: the earlier of two
   * overlapping commands wins.
   */
  lemma ShowVersionsShadowsListVersions(cs: seq<Commands.Command>, s: string, i: nat, j: nat)
    requires Commands.IsWord(s)
    requires i < j < |cs| && cs[i] == Commands.ShowVersions && cs[j] == Commands.ListVersions
    requires forall k :: 0 <= k < i ==> cs[k] != Commands.ListVersions
    ensures FirstCommand(cs, Text.Join([s, "versions"], " ")).Some?
    ensures cs[FirstCommand(cs, Text.Join([s, "versions"], " ")).value] != Commands.ListVersions
  {
    var line := Text.Join([s, "versions"], " ");
    Commands.VersionsUsage(s);
    assert Recognises(line)(cs[i]);
    var k := First(cs, Recognises(line));
    assert k.Some? && k.value <= i;
  }

  /** Among the default commands, `<service> versions` runs show-versions for that service. */
  lemma DefaultRouting(s: string)
    requires Commands.IsWord(s)
    ensures FirstCommand(DefaultCommands, Text.Join([s, "versions"], " ")) == Some(0)
    ensures Commands.Prepare(DefaultCommands[0], Commands.Line([s, "versions"]))
              == Commands.Ask(GetVersionsAndStatus, EmptyContext.(service := Some(s)))
  {
    Commands.VersionsUsage(s);
  }

  // ---------------------------------------------------------------------
  // the orchestrator
  // ---------------------------------------------------------------------

  class BlueGreen {
    var configLoaders: seq<string>
    var defaults: seq<Json.Member>
    /** `this.config`: `None` is `null`. */
    var config: Option<Json.Value>
    var commands: seq<Commands.Command>
    var strategies: seq<Binding>
    var hasViewLayer: bool
    /** `this.modules.commands` and `this.modules.strategies`. */
    var commandModules: seq<Commands.Command>
    var strategyModules: seq<string>
    /** The calls of `render`, in order. */
    var rendered: seq<Rendering>
    /** The error entries logged, in order. */
    var logged: seq<Config.LogEntry>

    /** `new BlueGreen(options)`: the given loader list or the two default loaders, and nothing loaded yet. */
    constructor(options: Options)
      ensures configLoaders == if options.configLoaders.Some? then options.configLoaders.value else DefaultLoaders
      ensures defaults == Defaults && config == None
      ensures commands == [] && strategies == [] && !hasViewLayer
      ensures commandModules == DefaultCommands && strategyModules == DefaultStrategies
      ensures rendered == [] && logged == []
    {
      configLoaders := if options.configLoaders.Some? then options.configLoaders.value else DefaultLoaders;
      defaults := Defaults;
      config := None;
      commands := [];
      strategies := [];
      hasViewLayer := false;
      commandModules := DefaultCommands;
      strategyModules := DefaultStrategies;
      rendered := [];
      logged := [];
    }

    /**
     * `__initConfig(callback)`: the loaders in list order while no config is
     * set, `replies[i]` being how loader `i` calls back. It returns how the
     * stage ends and how many loaders it called. The loaded configuration is
     * deep-merged into the defaults, which the config then shares.
     */
    method InitConfig(replies: seq<Config.LoaderReply>) returns (r: StageEnd, called: nat)
      requires |replies| == |configLoaders|
      modifies this
      ensures old(config).Some? ==> called == 0 && r == Passed
      ensures old(config).None? ==> called == Calls(Chain(replies, 0), |replies|) && r == ConfigEnd(Chain(replies, 0))
      ensures r.Passed? ==> defaults == Json.MergeConfig(old(defaults), if old(config).Some? then ConfigOrEmpty(old(config))
                                                                         else ConfigOrEmpty(Loaded(Chain(replies, 0))))
                                                                         && config == Some(Json.JObj(defaults))
      ensures r.Passed? && old(config).None? && Chain(replies, 0).Exhausted? ==> defaults == old(defaults)
      ensures !r.Passed? ==> defaults == old(defaults) && config == old(config)
      ensures configLoaders == old(configLoaders) && commands == old(commands) && strategies == old(strategies)
      ensures hasViewLayer == old(hasViewLayer) && commandModules == old(commandModules)
      ensures strategyModules == old(strategyModules) && rendered == old(rendered) && logged == old(logged)
    {
      var index: int := -1;
      called := 0;
      ghost var start := config;
      while index != |replies| - 1 && config.None?
        invariant -1 <= index < |replies| && called == index + 1
        invariant start.Some? ==> index == -1 && config == start
        invariant start.None? && config.None? ==> Chain(replies, 0) == Chain(replies, index + 1)
        invariant start.None? && config.Some? ==> 0 <= index && Chain(replies, 0) == Found(index, config.value)
        invariant configLoaders == old(configLoaders) && defaults == old(defaults)
        invariant commands == old(commands) && strategies == old(strategies) && hasViewLayer == old(hasViewLayer)
        invariant commandModules == old(commandModules) && strategyModules == old(strategyModules)
        invariant rendered == old(rendered) && logged == old(logged)
        decreases |replies| - index
      {
        index := index + 1;
        called := called + 1;
        match replies[index]
        case Delivered(err, d) =>
          if ErrTruthy(err) {
            return FailedPair(err.value, ConfigIssue), called;
          }
          config := if Config.LoadTruthy(d) then Some(d.value) else None;
        case DeliveredThenCrashed(first, reason) =>
          if ErrTruthy(Some(first)) {
            return FailedPair(first, ConfigIssue), called;
          }
          return StageThrew(reason), called;
        case Crashed(reason) =>
          return StageThrew(reason), called;
      }
      var merged := Json.MergeConfig(defaults, ConfigOrEmpty(config));
      defaults := merged;
      config := Some(Json.JObj(merged));
      r := Passed;
    }

    /**
     * `__initStrategies(callback)`: the strategy modules in series,
     * `regs[i]` being how module `i`'s `register` ends. The bindings of each
     * module that succeeds are appended; the first failure is logged and
     * stops the rest.
     */
    method InitStrategies(regs: seq<Registration>) returns (r: StageEnd)
      requires |regs| == |strategyModules|
      modifies this
      ensures strategies == old(strategies) + Registrations(regs).0
      ensures r == StrategiesEnd(Registrations(regs).1)
      ensures r.FailedWith? ==> logged == old(logged) + [Config.Notify(Some(r.err), StrategiesFailed).1]
      ensures !r.FailedWith? ==> logged == old(logged)
      ensures configLoaders == old(configLoaders) && defaults == old(defaults) && config == old(config)
      ensures commands == old(commands) && hasViewLayer == old(hasViewLayer) && commandModules == old(commandModules)
      ensures strategyModules == old(strategyModules) && rendered == old(rendered)
    {
      var i := 0;
      while i < |regs|
        invariant 0 <= i <= |regs|
        invariant forall j :: 0 <= j < i ==> Succeeded(regs[j])
        invariant Registrations(regs).1 == Series(regs, i).1
        invariant old(strategies) + Registrations(regs).0 == strategies + Series(regs, i).0
        invariant configLoaders == old(configLoaders) && defaults == old(defaults) && config == old(config)
        invariant commands == old(commands) && hasViewLayer == old(hasViewLayer) && commandModules == old(commandModules)
        invariant strategyModules == old(strategyModules) && rendered == old(rendered) && logged == old(logged)
      {
        match regs[i]
        case NoRegister =>
          var (e, entry) := Config.Notify(Some(ErrorObj(NoRegisterFunction)), StrategiesFailed);
          logged := logged + [entry];
          return FailedWith(e);
        case RegisterThrew(reason) =>
          return StageThrew(reason);
        case Registered(err, bs) =>
          if ErrTruthy(err) {
            var (e, entry) := Config.Notify(err, StrategiesFailed);
            logged := logged + [entry];
            return FailedWith(e);
          }
          if bs.None? {
            var (e, entry) := Config.Notify(Some(ErrorObj(NotAnArray)), StrategiesFailed);
            logged := logged + [entry];
            return FailedWith(e);
          }
          strategies := strategies + bs.value;
          i := i + 1;
      }
      r := Passed;
    }

    /** `__initCommands`: fresh instances of the command modules, in order. */
    method InitCommands()
      modifies this
      ensures commands == commandModules == old(commandModules)
      ensures configLoaders == old(configLoaders) && defaults == old(defaults) && config == old(config)
      ensures strategies == old(strategies) && hasViewLayer == old(hasViewLayer)
      ensures strategyModules == old(strategyModules) && rendered == old(rendered) && logged == old(logged)
    {
      commands := commandModules;
    }

    /** `__initViewLayer`: the console view layer. */
    method InitViewLayer()
      modifies this
      ensures hasViewLayer
      ensures configLoaders == old(configLoaders) && defaults == old(defaults) && config == old(config)
      ensures commands == old(commands) && strategies == old(strategies) && commandModules == old(commandModules)
      ensures strategyModules == old(strategyModules) && rendered == old(rendered) && logged == old(logged)
    {
      hasViewLayer := true;
    }

    /**
     * `init(callback)`: configuration, strategies, commands, view layer, in
     * that order; the first stage that fails stops the rest, and its error is
     * logged and handed on.
     */
    method Init(replies: seq<Config.LoaderReply>, regs: seq<Registration>) returns (r: InitEnd)
      requires |replies| == |configLoaders| && |regs| == |strategyModules|
      modifies this
      ensures var chain := Chain(replies, 0);
              var passes := old(config).Some? || chain.Found? || chain.Exhausted?;
              var reg := Registrations(regs);
              && (!passes ==> config == old(config) && strategies == old(strategies)
                              && commands == old(commands) && hasViewLayer == old(hasViewLayer))
              && (!passes && chain.LoaderFailed? ==>
                    r == InitFailed(chain.err) && logged == old(logged) + [Config.Notify(Some(chain.err), ConfigIssue).1])
              && (!passes && chain.LoaderThrew? ==> r == InitThrew(chain.reason) && logged == old(logged))
              && (passes ==> config.Some? && strategies == old(strategies) + reg.0)
              && (passes && reg.1.RegFailed? ==>
                    r == InitFailed(reg.1.err) && commands == old(commands) && hasViewLayer == old(hasViewLayer)
                    // logged twice: by the strategy stage, then by `init` itself
                    && logged == old(logged) + [Config.Notify(Some(reg.1.err), StrategiesFailed).1,
                                                Report(FailedWith(reg.1.err)).1])
              && (passes && reg.1.RegThrew? ==> r == InitThrew(reg.1.reason) && commands == old(commands))
              && (passes && reg.1.AllRegistered? ==> r == InitOk && commands == old(commandModules) && hasViewLayer)
    {
      var c, _ := InitConfig(replies);
      if c.StageThrew? {
        return InitThrew(c.reason);
      }
      if !c.Passed? {
        var (e, entry) := Report(c);
        logged := logged + [entry];
        return InitFailed(e);
      }
      var s := InitStrategies(regs);
      if s.StageThrew? {
        return InitThrew(s.reason);
      }
      if !s.Passed? {
        var (e, entry) := Report(s);
        logged := logged + [entry];
        return InitFailed(e);
      }
      InitCommands();
      InitViewLayer();
      r := InitOk;
    }

    /**
     * `request(requestType, context, callback)`: the first binding for the
     * type is invoked and its reply handed on unchanged; with none, the
     * no-implementation error, and no handler is invoked.
     */
    method Request(request: Request, ctx: Context, invoke: (Handler, Context) -> Reply) returns (r: Reply)
      ensures FirstBinding(strategies, request).None? ==> r == Replied(Some(ErrorObj(NoImplementation)), PNone)
      ensures FirstBinding(strategies, request).Some? ==> r == invoke(strategies[FirstBinding(strategies, request).value].handler, ctx)
    {
      var i := 0;
      while i < |strategies| && strategies[i].request != request
        invariant 0 <= i <= |strategies|
        invariant forall j :: 0 <= j < i ==> strategies[j].request != request
      {
        i := i + 1;
      }
      if i == |strategies| {
        r := Replied(Some(ErrorObj(NoImplementation)), PNone);
      } else {
        FirstBindingAt(strategies, request, i);
        r := invoke(strategies[i].handler, ctx);
      }
    }

    /**
     * `command.execute(bluegreen, argv, callback)`: the command's request is
     * dispatched and its reply rendered and handed on; rendering without a
     * view layer throws.
     */
    method Execute(c: Commands.Command, argv: Commands.Argv, invoke: (Handler, Context) -> Reply) returns (r: Reply)
      modifies this`rendered
      ensures var done := Executed(c, argv, strategies, invoke, hasViewLayer);
              r == done.1 && rendered == old(rendered) + done.0
    {
      match Commands.Prepare(c, argv)
      case ThrowsFirst(m) =>
        r := Threw(m);
      case Ask(request, ctx) =>
        var reply := Request(request, ctx, invoke);
        var finished := Commands.Finish(c, argv, reply);
        if finished.0 != [] && !hasViewLayer {
          r := Threw(NoViewLayer);
        } else {
          rendered := rendered + finished.0;
          r := finished.1;
        }
    }

    /** What `run` does when no command recognises the line. */
    method NoMatch() returns (r: Reply)
      modifies this`rendered
      ensures Unmatched(hasViewLayer, r, old(rendered), rendered)
    {
      if !hasViewLayer {
        r := Threw(NoViewLayer);
      } else {
        rendered := rendered + NoMatchRenderings;
        r := Replied(Some(ErrorObj(NoMatchingCommand)), PNone);
      }
    }

    /**
     * `run(argv, callback)`: the words joined by single spaces go to the
     * first command that recognises them, which is executed; with none, the
     * error and the help are rendered and the error handed on.
     */
    method Run(argv: Commands.Argv, invoke: (Handler, Context) -> Reply) returns (r: Reply, routed: Option<nat>)
      modifies this`rendered
      ensures routed == FirstCommand(commands, Text.Join(argv.positional, " "))
      ensures routed.Some? ==> routed.value < |commands| && Ran(commands[routed.value], argv, strategies, invoke, hasViewLayer, r, old(rendered), rendered)
      ensures routed.None? ==> Unmatched(hasViewLayer, r, old(rendered), rendered)
    {
      routed := FindFirst(commands, Recognises(Text.Join(argv.positional, " ")));
      if routed.Some? {
        r := Execute(commands[routed.value], argv, invoke);
      } else {
        r := NoMatch();
      }
    }
  }
}
