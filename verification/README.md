# bluegreen, modelled in Dafny

BlueGreen is a command-line tool for blue/green deployments on AWS. An
orchestrator (`BlueGreen`) works in four steps:

1. It loads a configuration through a chain of loaders: the `bluegreen`
   section of `package.json`, then `bluegreen.json`. It deep-merges that
   configuration over built-in defaults.
2. It registers request handlers ("bindings") from strategy modules.
   These modules cover Elastic Beanstalk versions and environments, Route 53
   gateways and ELB gateways.
3. It instantiates command modules. Each command recognises a line such as
   `<service> deploy <version> to <environment>` and turns it into a request.
4. It renders results through a console view layer.

A logger filters labelled messages. The Route 53 gateway stores its metadata
in a TXT record. That metadata is JSON, encoded as UTF-8 and then base64
(section 4 of RFC 4648), and written as a quoted character-string (section
5.1 of RFC 1035).

The model follows the program's structure, one Dafny module per area:

- `App` holds the orchestrator. It is a `class BlueGreen` whose `init` stages
  update its fields. It also covers the loader chain, the series of
  registrations, and first-match routing and dispatch.
- `Config` covers `loadJsonFile`, `logErrorAndNotfiy`, `tryParseJSON` and the
  two loaders.
- `Commands` covers the fourteen commands: recognition, request and replies.
- `Patterns` is a small regular-expression language. It has a backtracking
  matcher proved equal to a declarative meaning.
- `Beanstalk` covers the Elastic Beanstalk strategies: naming, transforms,
  the version/deployment join and the delete guard.
- `Route53` covers the gateway metadata, record building, record pairing,
  listing and the handlers.
- `Elb` covers the load-balancer naming scheme and gateway listing.
- `LegacyCommands` covers the older `lib/commands.js`.
- `ConsoleView` and `Logger` cover the view layer and the logger.
- `Json`, `JsonText`, `JsonRoundTrip`, `Utf8`, `Base64` and `Text` hold the
  JavaScript built-ins the core relies on: property access, `_.merge`,
  `JSON.stringify`/`JSON.parse`, `Buffer`, `trim`, `split`, `join`.

The outside world becomes inputs:

- What AWS answers is a `Fetched` value (data or an error).
- What the file system reports is a `FileState`.
- How a handler replies is an oracle `invoke: (Handler, Context) -> Reply`.
- How a loader or a `register` call ends is a `LoaderReply` or a
  `Registration`.

A reply is one of three things: a callback `(err, data)`, a thrown exception,
or silence, for a handler that never calls back. This makes the source's
crashes and its handlers that never answer visible in the contracts.

ELB's `getApplicationName` and `parseApplicationName`
(`lib/modules/strategies/elb-gateway.js:39-53`) have the same text as the
Elastic Beanstalk ones. They are modelled once, as
`Beanstalk.ApplicationName` and `Beanstalk.ParseApplicationName`.

## Model

| member | source | states |
|---|---|---|
| App.DefaultSettings | lib/bluegreen.js:38-49 | the defaults have `application.prefix` = "nr8-" and `aws.beanstalk.versioning.deleteSourceBundle` = true |
| App.Chain | lib/bluegreen.js:94-106 | loaders are consulted in list order: the chain is exhausted iff every loader is absent (no error, falsy config); otherwise it stops at the first non-absent loader, all before it absent; a found config is the value that loader delivered; a failure carries a truthy error |
| App.AbsentLoadersKeepDefaults | lib/bluegreen.js:103-110 | when every loader is absent, every loader is called and the merged configuration equals the defaults |
| App.LoadedOverDefaults | lib/bluegreen.js:110 | the merge is deep: a plain loaded prefix wins over the default; where the loaded configuration stops short of the prefix path, the default prefix survives |
| App.Series | lib/bluegreen.js:122-145 | registration runs module by module: all modules register iff each returns an array without error; otherwise it stops at the first failing module, all before it having succeeded |
| App.RegistrationsAppend | lib/bluegreen.js:131-133 | bindings are appended module by module in order: the bindings of the first i modules followed by those the series appends from i equal all the bindings |
| App.EarliestModuleWins | lib/bluegreen.js:209-215 | when module i is the first whose bindings serve a request type, dispatch over the appended bindings finds that module's first binding for it |
| App.FirstBindingPrefix | lib/bluegreen.js:210-212 | a request type served by a prefix of the bindings is found in that prefix whatever follows |
| App.FirstBindingSkips | lib/bluegreen.js:210-212 | a request type the first list does not serve is found past it, at the offset of its first binding in the second list |
| App.FirstBindingAt | lib/bluegreen.js:210-212 | the first binding with the request type is the one the search returns |
| App.First | lib/bluegreen.js:193-195 | the position found satisfies the test and no earlier position does; none is found only when no position satisfies it |
| App.FirstAt | lib/bluegreen.js:193-195 | the first position satisfying the test is exactly what the search returns |
| App.FindFirst | lib/bluegreen.js:193-195 | the `_.find` loop returns the first position satisfying the test |
| App.FirstBinding | lib/bluegreen.js:210-212 | the position found holds a binding of the request type and no earlier binding has it; none is found only when no binding has it |
| App.FirstCommand | lib/bluegreen.js:193-195 | the position found holds a command recognising the line and no earlier command does; none only when no command does |
| App.Dispatch | lib/bluegreen.js:209-214 | with no binding of the request type the reply is the "No matching implementation for this request type." error |
| App.DispatchReachesFirst | lib/bluegreen.js:209-214 | when binding k is the first of the request type, the reply is exactly its handler's reply |
| App.ReportAsWritten | lib/bluegreen.js:179-181 | as written, `init`'s failure path reports `err[0]` with message `err[1]`, which gives back the configuration stage's pair |
| App.Report | lib/bluegreen.js:179-181 | the intended report hands on the failing stage's own error, with the configuration message for the configuration stage and "Failed to register strategies with bluegreen" for the strategy stage |
| App.StrategyErrorLost | lib/bluegreen.js:180 | for a strategy failure with an error object, the code as written hands on an empty error while the intended report keeps the error |
| App.ShowVersionsShadowsListVersions | lib/bluegreen.js:191-196 | with show-versions installed before list-versions, `<service> versions` is routed to a command and never to list-versions |
| App.DefaultRouting | lib/bluegreen.js:58-61 | with the default command list, `<service> versions` runs show-versions, which asks for that service's versions and status |
| App.BlueGreen.constructor | lib/bluegreen.js:17-71 | the loaders are the given list or the two default loaders; defaults set, no config, no commands, strategies or view layer; default command and strategy modules |
| App.BlueGreen.InitConfig | lib/bluegreen.js:90-114 | with no config yet, the number of loaders called and the outcome follow the chain; on success the defaults become the merge of the loaded config (or `{}`) over them; on failure nothing changes; other fields unchanged |
| App.BlueGreen.InitStrategies | lib/bluegreen.js:121-146 | the bindings of the series are appended to `strategies`; the stage ends where the series ends; a failure is logged once with "Failed to register strategies with bluegreen" |
| App.BlueGreen.InitCommands | lib/bluegreen.js:153-156 | `commands` becomes the command modules, in order; nothing else changes |
| App.BlueGreen.InitViewLayer | lib/bluegreen.js:163-166 | the view layer is set; nothing else changes |
| App.BlueGreen.Init | lib/bluegreen.js:172-184 | configuration, strategies, commands and view layer run in that order; the first failing stage stops the rest; a configuration failure is logged once, a strategy failure twice (by the stage, then by `init`); a throw escapes |
| App.BlueGreen.Request | lib/bluegreen.js:209-215 | with no binding for the type the reply is the "No matching implementation for this request type." error; otherwise it is exactly the reply of the first binding's handler |
| App.BlueGreen.Execute | lib/bluegreen.js:196 | executing a command appends its renderings and hands on its reply |
| App.BlueGreen.NoMatch | lib/bluegreen.js:197-200 | an unmatched line renders the error and then help, and hands on "No matching command." |
| App.BlueGreen.Run | lib/bluegreen.js:191-201 | the line is the positional words joined by single spaces; the command run is the first, in list order, that recognises it; with none, the no-match behaviour |
| Config.Notify | lib/utils.js:46-50 | the given truthy error is handed on unchanged, else a new error carrying the message; one entry is logged under `error` |
| Config.TryParseJson | lib/utils.js:57-65 | success exactly when the text parses, with the parsed value; otherwise the parse error |
| Config.TryParseStringified | lib/utils.js:57-65 | text written by `JSON.stringify` for an object of string or null values parses back to that object |
| Config.LoadJsonFile | lib/utils.js:16-36 | a missing file (ENOENT) yields `(null, false)` with nothing logged; other stat errors, a non-file, read errors and bad JSON yield an error (the system error, or "bluegreen.json exists but is not a file.") with no data and one log entry; a parsed file yields its value |
| Config.NpmSection | lib/modules/config/npm-config-loader.js:16-18 | the callback on a loaded manifest: a `null` manifest throws; otherwise there is no error, and data is delivered iff the manifest is an object with a `bluegreen` key, as that key's value |
| Config.TryParseCalls | lib/utils.js:57-65 | the callback is called with the parse result, and a second time, with the exception, exactly when the text parsed and the callback threw on the value |
| Config.NpmLoader | lib/modules/config/npm-config-loader.js:11-19 | a missing package.json yields `(null, false)` with nothing logged; a load error, logged by the loader and again by the npm loader, is handed on before the loader throws on the missing manifest; a `null` manifest throws inside `tryParseJSON`'s `try`, so it comes back as a parse error, logged twice and handed on before the same throw; otherwise no error and nothing logged |
| Config.BlueGreenLoader | lib/modules/config/bluegreen-config-loader.js:11-13 | the loader hands on `loadJsonFile`'s error and data for `bluegreen.json` unchanged |
| Config.NpmLoaderYieldsSection | lib/modules/config/npm-config-loader.js:18 | a manifest whose `bluegreen` section is an object yields that object, truthy, with no error |
| Config.NpmLoaderWithoutSection | lib/modules/config/npm-config-loader.js:16 | a manifest object without `bluegreen` yields `(null, false)` |
| Config.MissingIsAbsent | lib/utils.js:19-21 | for a missing file both loaders yield `(null, false)`, which is falsy |
| Logger.Filters | lib/logger.js:16-20 | the filters are the given ones, else `info`, `warn`, `error` |
| Logger.ShouldOutput | lib/logger.js:50-53 | true for empty filters; otherwise true iff a label is among the filters |
| Logger.Intersects | lib/logger.js:52 | the intersection is non-empty iff some filter is among the labels |
| Logger.Colorize | lib/logger.js:39-43 | red iff `error` is a label; yellow iff `warn` is and `error` is not; green otherwise |
| Logger.Log | lib/logger.js:27-31 | a line is printed iff there are no filters or a label is among them; it carries the labels and the message, red exactly when `error` is a label and green exactly when neither `error` nor `warn` is |
| Logger.DefaultLogger | lib/logger.js:18 | a default logger prints errors in red and drops debug messages |
| Model.MessageOr | lib/modules/commands/show-versions.js:33 | the message is the handler's data or the fallback text, the data whenever it is truthy; with a non-empty fallback the message is never falsy |
| Text.Trim | lib/modules/commands/list-services.js:16 | the trimmed line has no white space at either end, and is what remains after removing white space from both ends |
| Text.TrimUnchanged | lib/modules/commands/list-services.js:16 | a line without white space at its ends is its own trim |
| Text.Join | lib/bluegreen.js:192 | joining one word gives that word |
| Text.JoinCons | lib/bluegreen.js:192 | joining a first word before a non-empty rest puts one separator between them |
| Text.JoinHasParts | lib/modules/strategies/eb-env-and-versioning.js:211 | every part occurs in the joined text |
| Text.Split | lib/modules/strategies/route53-gateway.js:125 | one more piece than separators, no piece holds the separator, and joining the pieces back gives the text |
| Text.SplitTwo | lib/modules/strategies/route53-gateway.js:125-126 | splitting `a:b` with no ':' in a or b gives exactly `[a, b]` |
| Text.SplitCons | lib/commands.js:12 | a first piece free of the separator comes off whole |
| Text.IndexOfText | lib/modules/strategies/elasticbeanstalk.js:52 | the first position where the text occurs, or -1 when it occurs nowhere |
| Text.Slice | lib/modules/strategies/eb-env-and-versioning.js:60 | the text after its first n characters, empty when n is past the end |
| Patterns.SearchCorrect | lib/modules/commands/show-versions.js:16 | the backtracking search succeeds exactly when the pattern matches some stretch of the line |
| Patterns.NoSpaceNoMatch | lib/modules/commands/list-environments-for-service.js:16 | a line without white space holds no match of a pattern that needs `\s+` |
| Commands.VersionsUsage | lib/modules/commands/show-versions.js:15-29 | `<service> versions` is recognised by both show-versions and list-versions; they ask for GetVersionsAndStatus and Versions.List with `{service}` |
| Commands.DeleteVersionUsage | lib/modules/commands/delete-version.js:15-32 | `<service> delete version <version>` is recognised and asks Versions.Delete with that service and version |
| Commands.CreateVersionUsage | lib/modules/commands/create-version.js:15-32 | `<service> create version <version>` is recognised and asks Versions.Create with that service and version |
| Commands.DeployVersionUsage | lib/modules/commands/deploy-version.js:15-32 | `<service> deploy <version> to <environment>` is recognised and asks Versions.Deploy with service, version and environment |
| Commands.CreateServiceUsage | lib/modules/commands/create-service.js:15-33 | `create service <name>` is recognised and asks Services.Create with the name and the default description "<name> - managed by BlueGreen" |
| Commands.EnvironmentsForServiceUsage | lib/modules/commands/list-environments-for-service.js:15-30 | `<service> environments` is recognised and asks Environments.List for that service |
| Commands.GatewaysForServiceUsage | lib/modules/commands/list-gateways-for-service.js:15-28 | `<service> gateways` is recognised and asks Gateway.List for that service |
| Commands.CreateGatewayUsage | lib/modules/commands/create-gateway.js:15-36 | `<service> create gateway <name>` is recognised and asks Gateway.Create with service and gateway |
| Commands.AttachGatewayUsage | lib/modules/commands/attach-gateway.js:15-40 | `<service> attach <environment> to <gateway>` is recognised and asks Gateway.Attach with service, environment and gateway |
| Commands.DebugUsage | lib/modules/commands/debug-codebase-version.js:15-29 | a line that is `debug:codebase-version` once trimmed is recognised and asks Versions.FindCodebaseVersion with an empty context |
| Commands.EnvironmentsAlone | lib/modules/commands/list-environments.js:15-28 | bare `environments` is recognised by list-environments, not by the per-service command, and asks Environments.List with `{}` |
| Commands.GatewaysAlone | lib/modules/commands/list-gateways.js:15-34 | bare `gateways` is recognised by list-gateways, not by the per-service command, and asks Gateway.List with `{}` |
| Commands.ServicesAlone | lib/modules/commands/list-services.js:15-28 | bare `services` is recognised and asks Services.List with `{}` |
| Commands.AttachToGatewaysOverlap | lib/modules/commands/list-gateways-for-service.js:16 | `<s> attach <e> to gateways` is recognised both by attach-gateway and by the per-service gateway listing |
| Commands.Prepare | lib/modules/commands/list-gateways.js:30-34 | a command throws before any request exactly when it is list-gateways and `--zone` is given (it assigns to an undeclared variable) |
| Commands.Finish | lib/modules/commands/show-versions.js:29-37 | a throw or silence of the handler passes through; except for debug and create-gateway, the callback gets the error, and the data only for the commands that pass it on, and an error renders the Error view with the handler's message or the command's fallback; success renders the command's own view; debug renders the debug view of the data and error and calls back with nothing; create-gateway with an error throws "data is not defined", and on success calls back with the error alone |
| Commands.MatchIgnoresPadding | lib/modules/commands/show-versions.js:15-17 | a command recognises a line exactly when it recognises the trimmed line |
| Commands.OptionsForwarded | lib/modules/commands/create-service.js:29-33 | create-service asks with `--description`, or "<name> - managed by BlueGreen" without it; create-gateway passes `--rrname` and attach-gateway `--zone` only when given (create-gateway.js:34, attach-gateway.js:38) |
| Commands.Fallback | lib/modules/commands/show-versions.js:30-34 | a fallback message exists for every command except debug, which renders no error, and create-gateway, whose error path throws before rendering |
| Commands.SuccessRenderings | lib/modules/commands/show-versions.js:35-36 | success never renders the Error view; debug renders nothing here; a command that passes its data renders exactly one view of that data; the others render a success view with a message |
| Commands.Describe | lib/modules/commands/show-versions.js:20-25 | every command has a description and a usage; show-versions alone has no category; only list-gateways and attach-gateway document options |
| LegacyCommands.Part | lib/commands.js:14-15 | `parts[i]` when present, undefined past the end |
| LegacyCommands.ParseApplicationEnvironmentName | lib/commands.js:11-17 | a service exists iff the name has a dash, an environment iff it has two; neither holds a dash |
| LegacyCommands.ParseEnvironmentName | lib/commands.js:11-17 | `nr8-<service>-<environment>` parses back to that service and environment |
| LegacyCommands.ParseWithoutDash | lib/commands.js:11-17 | a name without a dash names neither service nor environment |
| LegacyCommands.ApplicationName | lib/commands.js:24 | the application name is "nr8-" followed by the service |
| LegacyCommands.GetVersions | lib/commands.js:19-32 | answered exactly for a valid service whose application versions were fetched, with that list; a fetch error is refused with "Error retrieving application versions." and that error |
| LegacyCommands.GetDeployments | lib/commands.js:34-47 | answered exactly for a valid service whose environments were fetched, with that list; a fetch error is refused with "Error retrieving application environments/deployments." and that error |
| LegacyCommands.Guarded | lib/commands.js:19-47 | an unknown service is refused with "Not a valid services name." and an "Invalid service name." error before any call; a provider error is refused with the given message and that error; otherwise the provider's list |
| LegacyCommands.OnlyKnownServicesAsk | lib/commands.js:7 | only `images` and `www` are valid; an invalid service's answer does not depend on the provider; a valid one's depends only on its own application |
| LegacyCommands.RunningLabel | lib/commands.js:67-69 | the environments kept are exactly those running the label |
| LegacyCommands.Joined | lib/commands.js:61-81 | one entry per version, in order |
| LegacyCommands.JoinedFilesEnvironments | lib/commands.js:63-79 | each entry keeps its version, and an environment is filed under it exactly when it runs its label |
| LegacyCommands.UnlabelledEnvironmentsDropped | lib/commands.js:67-69 | an environment running no listed version is filed under none |
| LegacyCommands.JoinVersions | lib/commands.js:61-79 | the `forEach`/`push` loop produces the join |
| LegacyCommands.GetVersionsAndStatus | lib/commands.js:49-84 | the first refusal of the two lookups, versions first, is reported as "Could not retrieve version or deployment data" with its message as cause; otherwise the join of both lists |
| LegacyCommands.FindVersion | lib/commands.js:92-94 | the first version with that name, none before it has it |
| LegacyCommands.DeleteVersionAsWritten | lib/commands.js:87-112 | as written, a deployed version's branch throws |
| LegacyCommands.DeleteVersion | lib/commands.js:87-112 | a refusal passes through; an unknown version is refused with a "Version not exist." cause; a delete is allowed iff the version has no deployments, and a deployed one is refused with "Bad Request" naming its environments; never throws |
| LegacyCommands.DeleteDeployedThrows | lib/commands.js:100-103 | the as-written and intended definitions differ exactly on a deployed version, where the first throws |
| LegacyCommands.DeployedRefusalNamesEnvironment | lib/commands.js:100-107 | a version deployed to one environment is refused, naming that environment's short name, with "Bad Request" |
| ConsoleView.LayoutName | lib/modules/views/console.js:12-16 | exactly the four defined views have a template |
| ConsoleView.Repeat | lib/modules/views/console.js:27 | n copies of the pad, each character the pad character |
| ConsoleView.PadLeftRight | lib/modules/views/console.js:24-29 | the text between two equal paddings of floor((maxLength - length) / 2) pad strings |
| ConsoleView.Side | lib/modules/views/console.js:26-27 | for a text no longer than the width, floor((maxLength - length) / 2) copies of the pad; for a text at least two longer, a non-empty padding, since lodash's range of a negative count has that many elements |
| ConsoleView.PadCentres | lib/modules/views/console.js:24-29 | a text no longer than the width comes out centred, of length maxLength or maxLength - 1 |
| ConsoleView.PadDefaultsToSpace | lib/modules/views/console.js:25 | no pad string means a space |
| ConsoleView.Lower | lib/modules/views/console.js:52 | ASCII lower case, character by character |
| ConsoleView.Upper | lib/modules/views/console.js:65 | ASCII upper case, character by character |
| ConsoleView.ColorizeStatus | lib/modules/views/console.js:51-58 | red, yellow and cyan exactly for failed, unprocessed and processing in lower case; green otherwise |
| ConsoleView.ColorizeIgnoresCase | lib/modules/views/console.js:52 | the status tint does not depend on letter case |
| ConsoleView.LowerUpper | lib/modules/views/console.js:52 | lower-casing an upper-cased text equals lower-casing it |
| ConsoleView.ShortName | lib/modules/views/console.js:75 | the name without its first `('nr8-' + service).length + 1` characters |
| ConsoleView.ShortNameOfEnvironment | lib/modules/views/console.js:74-76 | for `nr8-<service>-<environment>` the environment is shown |
| ConsoleView.ShortNames | lib/modules/views/console.js:74-76 | one short name per deployment, in order |
| ConsoleView.Rows | lib/modules/views/console.js:69-80 | one table row per version, in order |
| ConsoleView.VersionRows | lib/modules/views/console.js:69-80 | the `forEach` loop builds exactly those rows |
| ConsoleView.RenderError | lib/modules/views/console.js:39-49 | a blank line, the message centred on 80 columns ("Oops, an error has occurred." when none), then the stack only when there is one |
| ConsoleView.RenderSuccess | lib/modules/views/console.js:35-37 | the message between blank lines |
| ConsoleView.RenderVersions | lib/modules/views/console.js:60-85 | prints only for a versions payload with a service: one table headed `Versions for Service "<SERVICE>"` with the service upper-cased, whose rows are the versions' rows in order; otherwise the `toUpperCase` TypeError |
| ConsoleView.Render | lib/modules/views/console.js:11-22 | each defined view reaches its renderer, help prints nothing, any other view gets the missing-template error |
| ConsoleView.MissingTemplate | lib/modules/views/console.js:17-20 | an undefined view prints "Could not find template: ..." and the error's stack |
| Elb.LastSplit | lib/modules/strategies/elb-gateway.js:74 | the last split point up to the bound, or 0 when there is none |
| Elb.ParseLoadBalancerName | lib/modules/strategies/elb-gateway.js:72-84 | a parsed name has a non-empty service and gateway, the gateway holding no inner dash |
| Elb.ParseAccepts | lib/modules/strategies/elb-gateway.js:74 | a name parses iff it is `bluegreen-` and a run of `[a-zA-Z0-9-._]` that a dash splits into two non-empty groups |
| Elb.ParseBuiltName | lib/modules/strategies/elb-gateway.js:74-80 | `bluegreen-<service>-<gateway>` with a dash-free gateway parses back to service and gateway |
| Elb.DashedGatewayMisread | lib/modules/strategies/elb-gateway.js:74 | a gateway holding a dash is split at its last dash, its first part read as service |
| Elb.TransformGateway | lib/modules/strategies/elb-gateway.js:55-64 | defined iff the name parses; the name is rebuilt from the result's service and name; `DNSName` is always undefined |
| Elb.Managed | lib/modules/strategies/elb-gateway.js:96-109 | the load balancers kept are exactly those with a parsing name, of the context's service when given |
| Elb.ManagedAppend | lib/modules/strategies/elb-gateway.js:96-109 | the filter of a concatenation is the concatenation of the filters, in order |
| Elb.ManagedSingle | lib/modules/strategies/elb-gateway.js:96-109 | one load balancer is kept iff it passes the test |
| Elb.Gateways | lib/modules/strategies/elb-gateway.js:112 | one transformed gateway per load balancer, in order |
| Elb.ListGateways | lib/modules/strategies/elb-gateway.js:92-114 | a provider error is handed on with "Could not retrieve list of Gateways from AWS."; otherwise a list with no error |
| Elb.ListedAreManaged | lib/modules/strategies/elb-gateway.js:96-112 | every listed gateway comes from a managed load balancer of the context's service |
| Elb.ManagedAreListed | lib/modules/strategies/elb-gateway.js:96-112 | every managed load balancer of the context's service is listed |
| Elb.Registrations | lib/modules/strategies/elb-gateway.js:20-31 | Gateway.Create then Gateway.List |
| Elb.CreateGatewayForService | lib/modules/strategies/elb-gateway.js:116-118 | the handler never calls back |
| Beanstalk.PrefixOf | lib/modules/strategies/eb-env-and-versioning.js:48 | reading the prefix throws exactly when the configuration's `application` is missing or `null`; a non-empty prefix is the configured `application.prefix`; a missing prefix is the empty string |
| Beanstalk.ApplicationName | lib/modules/strategies/eb-env-and-versioning.js:47-50 | the application name starts with the prefix |
| Beanstalk.ParseApplicationName | lib/modules/strategies/eb-env-and-versioning.js:58-61 | for a name carrying the prefix, the prefix followed by the result is the name |
| Beanstalk.ParseInvertsGet | lib/modules/strategies/eb-env-and-versioning.js:47-61 | parsing a service's application name gives the service |
| Beanstalk.GetInvertsParse | lib/modules/strategies/eb-env-and-versioning.js:47-61 | a name with the prefix is the application name of the service parsed from it |
| Beanstalk.EmptyPrefixKeepsName | lib/modules/strategies/eb-env-and-versioning.js:47-61 | with an empty prefix, naming and parsing leave the name unchanged |
| Beanstalk.LegacyParseApplicationName | lib/modules/strategies/elasticbeanstalk.js:50-53 | as written: the position of the decimal text of `prefix.length + 1` in the name, or -1 |
| Beanstalk.LegacyParseLosesService | lib/modules/strategies/elasticbeanstalk.js:52 | with prefix "nr8-", the legacy parse of `nr8-www` is -1 while the intended parse is `www` |
| Beanstalk.TransformVersion | lib/modules/strategies/eb-env-and-versioning.js:69-80 | the label, description and status are carried over, there are no deployments yet, and a version of a service's own application belongs to that service |
| Beanstalk.TransformEnvironment | lib/modules/strategies/eb-env-and-versioning.js:88-104 | the name, version label, URL, status and `eb:CNAME` are carried over, none of the `r53:` alias fields is set, and an environment of a service's own application belongs to that service |
| Beanstalk.LegacyTransformVersion | lib/modules/strategies/elasticbeanstalk.js:61-72 | the same as the current transform, except that the service is the number the legacy parse yields |
| Beanstalk.LegacyTransformEnvironment | lib/modules/strategies/elasticbeanstalk.js:80-96 | the same as the current transform, except that the service is the number the legacy parse yields and the status is always undefined |
| Beanstalk.LegacyTransformsLoseService | lib/modules/strategies/elasticbeanstalk.js:61-96 | with prefix `nr8-`, legacy records of `nr8-www` carry -1 and do not match the service `www`, which the current transform's records do |
| Beanstalk.TransformsOfService | lib/modules/strategies/eb-env-and-versioning.js:69-104 | records of a service's own application keep its label, status and service, and the environment's name, version and URL |
| Beanstalk.TransformVersions | lib/modules/strategies/eb-env-and-versioning.js:120 | one transformed version per provider version, in order |
| Beanstalk.TransformEnvironments | lib/modules/strategies/eb-env-and-versioning.js:144 | one transformed environment per provider environment, in order |
| Beanstalk.LegacyTransformVersions | lib/modules/strategies/elasticbeanstalk.js:112 | one legacy-transformed version per provider version, in order |
| Beanstalk.LegacyTransformEnvironments | lib/modules/strategies/elasticbeanstalk.js:130 | one legacy-transformed environment per provider environment, in order |
| Beanstalk.VersionsRequest | lib/modules/strategies/eb-env-and-versioning.js:112-116 | the request names the service's application |
| Beanstalk.EnvironmentsRequest | lib/modules/strategies/elasticbeanstalk-environments.js:53-61 | deleted environments are never included; the application is named iff the context has a service, and then it is that service's |
| Beanstalk.DeploymentsRequest | lib/modules/strategies/elasticbeanstalk.js:122-126 | always the service's application, never deleted environments |
| Beanstalk.DeployRequest | lib/modules/strategies/eb-env-and-versioning.js:231-235 | the service's application, with the context's environment and version |
| Beanstalk.DeployVersion | lib/modules/strategies/eb-env-and-versioning.js:237-240 | the provider's error is handed on with a message; otherwise a bare success |
| Beanstalk.GetVersions | lib/modules/strategies/eb-env-and-versioning.js:112-122 | a provider error passes on; otherwise the transformed versions |
| Beanstalk.LegacyGetVersions | lib/modules/strategies/elasticbeanstalk.js:104-114 | a provider error passes on; otherwise the legacy-transformed versions |
| Beanstalk.GetDeployments | lib/modules/strategies/elasticbeanstalk.js:122-132 | a provider error passes on; otherwise the legacy-transformed environments |
| Beanstalk.Environments | lib/modules/strategies/eb-env-and-versioning.js:130-146 | a provider error passes on; otherwise the transformed environments |
| Beanstalk.GetEnvironments | lib/modules/strategies/elasticbeanstalk-environments.js:53-69 | a provider error is handed on with "Error retrieving application environments/deployments."; otherwise the transformed environments, with no error |
| Beanstalk.DeployedOn | lib/modules/strategies/eb-env-and-versioning.js:171-173 | exactly the deployments running that version |
| Beanstalk.DeployedOnAppend | lib/modules/strategies/eb-env-and-versioning.js:171-173 | the filter of a concatenation is the concatenation of the filters, in order |
| Beanstalk.DeployedOnSingle | lib/modules/strategies/eb-env-and-versioning.js:171-173 | one deployment is kept iff it runs the version |
| Beanstalk.Joined | lib/modules/strategies/eb-env-and-versioning.js:165-185 | one version per input version, in order, each given the deployments running it |
| Beanstalk.JoinDeployments | lib/modules/strategies/eb-env-and-versioning.js:167-182 | the `forEach`/`push` loop produces the join |
| Beanstalk.JoinedDeployments | lib/modules/strategies/eb-env-and-versioning.js:171-180 | each joined version keeps its place, and an environment is listed under it iff it runs it |
| Beanstalk.VersionsAndStatus | lib/modules/strategies/eb-env-and-versioning.js:154-187 | a fetch error, versions first, is handed on with "Could not retrieve version or deployment data"; an error occurs iff a fetch failed; otherwise the service and the joined versions |
| Beanstalk.LegacyVersionsAndStatus | lib/modules/strategies/elasticbeanstalk.js:140-173 | an error exactly when a list failed; otherwise the context's service and one version per listed version, in order, keeping its label, with a number for its service, listing only environments that run it, each with an undefined status |
| Beanstalk.LegacyJoinedRecords | lib/modules/strategies/elasticbeanstalk.js:151-169 | the join over legacy records keeps each label, and lists under a version only environments running it, each with an undefined status |
| Beanstalk.VersionsAndStatusViaRequest | lib/modules/strategies/elasticbeanstalk-versions.js:73-106 | deployments come from the Environments.List request: its throw passes through; a versions error comes first; with the versions fetched, the request's error is answered with that error and the "could not retrieve" message, its silence leaves no reply, and its environments are joined to the versions |
| Beanstalk.FindVersion | lib/modules/strategies/eb-env-and-versioning.js:203-205 | the first version with that label, none before it has it |
| Beanstalk.Target | lib/modules/strategies/eb-env-and-versioning.js:203-205 | the target is a listed version carrying the context's label |
| Beanstalk.Names | lib/modules/strategies/eb-env-and-versioning.js:211 | the deployments' names, in order |
| Beanstalk.StillDeployedMessage | lib/modules/strategies/eb-env-and-versioning.js:211-212 | the refusal names the service, the version and every environment running it |
| Beanstalk.NoSuchVersionMessage | lib/modules/strategies/eb-env-and-versioning.js:208 | the refusal names the label and the service |
| Beanstalk.AfterDelete | lib/modules/strategies/eb-env-and-versioning.js:215-218 | the delete call's error is handed on with a message; otherwise a bare success |
| Beanstalk.Guard | lib/modules/strategies/eb-env-and-versioning.js:204-219 | a delete is issued iff the label names a listed version deployed nowhere, for the service's application with the configured source-bundle flag; an unknown label is refused, and a deployed version is refused with "Invalid Request" |
| Beanstalk.DeleteVersion | lib/modules/strategies/eb-env-and-versioning.js:195-221 | a status that lists no versions issues nothing; a status error is handed on with "Could not retrieve deployment status to determine if a deletion is possible."; a listing status is decided by the guard on the version carrying the label |
| Beanstalk.NeverDeletesDeployed | lib/modules/strategies/eb-env-and-versioning.js:208-213 | with the status from the join, a delete is issued only when no listed environment runs the label, and a listed label that some environment runs is refused with "Invalid Request" |
| Beanstalk.DeleteSourceBundle | lib/modules/strategies/eb-env-and-versioning.js:199 | when the flag is present, reading it gives its value |
| Beanstalk.DeleteVersionHandler | lib/modules/strategies/eb-env-and-versioning.js:195-221 | a configuration where the prefix or the flag cannot be read throws before any request; otherwise the delete decision with the configured prefix and flag |
| Beanstalk.VersionsDeleteAsWritten | lib/modules/strategies/elasticbeanstalk-versions.js:114-140 | as written, the flag is read at `aws.this.beanstalk...`, which throws for a configuration without `aws.this`, as does a configuration without `application` |
| Beanstalk.VersionsDeleteThrows | lib/modules/strategies/elasticbeanstalk-versions.js:118 | with a configuration holding the flag and no `aws.this`, the handler as written throws while the intended one, when the prefix can be read, decides by the guard |
| Beanstalk.CombinedRegistrations | lib/modules/strategies/elasticbeanstalk.js:20-31 | no request type is bound twice and every binding names a handler of this module |
| Beanstalk.EnvAndVersioningRegistrations | lib/modules/strategies/eb-env-and-versioning.js:20-39 | no request type is bound twice and every binding names a handler of this module |
| Beanstalk.GetRegistrations | lib/modules/strategies/elasticbeanstalk-versions.js:13-28 | the base class throws; the versions and environments subclasses hand back their own well-formed bindings |
| Beanstalk.Served | lib/modules/strategies/elasticbeanstalk-environments.js:13-20 | the request types a list of bindings serves |
| Beanstalk.SubclassesSplitTheCombined | lib/modules/strategies/elasticbeanstalk-versions.js:13-28 | the versions subclass does not serve the Environments.List it requests; the environments subclass serves exactly that; together they serve what eb-env-and-versioning serves |
| Beanstalk.BaseStrategy.constructor | lib/modules/strategies/elasticbeanstalk-base.js:10-17 | a fresh strategy has no client yet |
| Beanstalk.BaseStrategy.Register | lib/modules/strategies/elasticbeanstalk-base.js:17-22 | stores the client, then hands on `getRegistrations`' result once, unchanged; it throws exactly for the base class |
| Route53.MetadataMembers | lib/modules/strategies/route53-gateway.js:201 | the metadata object has string or null values and distinct keys |
| Route53.MetadataFields | lib/modules/strategies/route53-gateway.js:201 | each field holds what was given; an undefined gateway or service is left out |
| Route53.EncodedMetadata | lib/modules/strategies/route53-gateway.js:201 | the encoded metadata is base64 text |
| Route53.HydrateMetadata | lib/modules/strategies/route53-gateway.js:200-203 | the quoted value parses as JSON to the string `bluegreen:<encoded metadata>` |
| Route53.Quoted | lib/modules/strategies/route53-gateway.js:202 | the text between two double quotes |
| Route53.MarkedTextSplitsInTwo | lib/modules/strategies/route53-gateway.js:125-126 | `bluegreen:<base64>` splits on ':' into exactly the marker and the base64 text |
| Route53.HydratedSplitsInTwo | lib/modules/strategies/route53-gateway.js:200-203 | inside its quotes, a hydrated value splits on ':' into exactly two parts |
| Route53.BuildTxtRecord | lib/modules/strategies/route53-gateway.js:222-234 | `bluegreen-<rrname or gateway>.<zone>`, type TXT, TTL 0, one value: the hydrated metadata |
| Route53.BuildDnsRecord | lib/modules/strategies/route53-gateway.js:243-265 | the same name without `bluegreen-`; an alias A record (target health false) to the environment's `r53:CNAME` in its `r53:HostedZoneId` when it has `r53:Alias`, else a CNAME with TTL 0 to its URL |
| Route53.ParseValues | lib/modules/strategies/route53-gateway.js:140 | defined iff every value parses, one parsed value per value |
| Route53.FindMarked | lib/modules/strategies/route53-gateway.js:141 | the first value starting with the marker, none before it does; a value without `indexOf` stops the search with a throw |
| Route53.GetMarkedValue | lib/modules/strategies/route53-gateway.js:138-144 | no values gives `false`; a value that is not JSON throws; otherwise the first value starting with the marker is found, a value without `indexOf` before it throws, and none gives `undefined` |
| Route53.GetMarkedValueFindsMarker | lib/modules/strategies/route53-gateway.js:138-144 | when every value parses and has `indexOf`, a value is found iff one starts with the marker |
| Route53.IsBlueGreenTxt | lib/modules/strategies/route53-gateway.js:151-156 | false for a non-TXT record or no values; true iff a TXT record has a marked value; throws iff its probe throws |
| Route53.MarkedTextIsPlain | lib/modules/strategies/route53-gateway.js:202 | the marked text holds no character `JSON.stringify` escapes |
| Route53.QuotedMarkedValueFound | lib/modules/strategies/route53-gateway.js:138-144 | a record with the single value `"bluegreen:<b>"` yields the string `bluegreen:<b>` |
| Route53.BuiltTxtIsMarked | lib/modules/strategies/route53-gateway.js:222-234 | a built TXT record is a BlueGreen TXT record |
| Route53.MarkedTxtRecords | lib/modules/strategies/route53-gateway.js:166 | no throw iff no test throws; then exactly the BlueGreen TXT records |
| Route53.MarkedTxtRecordsFilters | lib/modules/strategies/route53-gateway.js:166 | the TXT filter is the throwing filter with the BlueGreen TXT test as callback |
| Route53.MarkedTxtRecordsAppend | lib/modules/strategies/route53-gateway.js:166 | on a concatenation the first throw, in order, wins; otherwise the records kept from each part, concatenated in order |
| Route53.MarkedTxtRecordsSingle | lib/modules/strategies/route53-gateway.js:166 | one record is kept iff it is a BlueGreen TXT record, and its test's throw passes on |
| Route53.FirstA | lib/modules/strategies/route53-gateway.js:169-171 | the first A record of that name, none before it |
| Route53.PairWithA | lib/modules/strategies/route53-gateway.js:167-173 | the TXT record with an A record of its gateway name from the list, or none when the list has none |
| Route53.Merged | lib/modules/strategies/route53-gateway.js:165-176 | throws exactly when the TXT filter does; otherwise the BlueGreen TXT records, in order, each paired with its A record |
| Route53.MergeTxtAndARecords | lib/modules/strategies/route53-gateway.js:165-176 | the filter and `forEach` loop produce the merged list |
| Route53.MetadataText | lib/modules/strategies/route53-gateway.js:123-131 | the second part when the found value splits on ':' into two parts, `null` otherwise |
| Route53.ParseMetadataAsWritten | lib/modules/strategies/route53-gateway.js:123-131 | as written, the two-part case calls an undefined utility and throws |
| Route53.ParseMetadata | lib/modules/strategies/route53-gateway.js:123-131 | the intended parse: the JSON the base64 part decodes to, `null` when not two parts |
| Route53.Dehydrate | lib/modules/strategies/route53-gateway.js:184-191 | kept iff the parsed metadata is truthy; a falsy environment becomes null |
| Route53.MarkedTextSplits | lib/modules/strategies/route53-gateway.js:125-126 | the base64 part of a found marked value is what follows its single ':' |
| Route53.EncodedMetadataDecodes | lib/modules/strategies/route53-gateway.js:127-128 | the encoded metadata decodes back to the metadata object |
| Route53.BuiltTxtParses | lib/modules/strategies/route53-gateway.js:123-131 | the intended parse of a built TXT record gives the metadata object back |
| Route53.MetadataRoundTrip | lib/modules/strategies/route53-gateway.js:184-234 | a built TXT record dehydrates to the context's gateway and service, and its environment or null |
| Route53.DehydrateObject | lib/modules/strategies/route53-gateway.js:187-189 | metadata parsing to an object gives that object's three fields |
| Route53.AsWrittenParseThrows | lib/modules/strategies/route53-gateway.js:128 | as written, parsing any built TXT record throws where the intended parse gives the metadata |
| Route53.DnsRecordPairsWithTxt | lib/modules/strategies/route53-gateway.js:168-170 | the DNS record is named what its TXT record pairs by |
| Route53.FilterThrowing | lib/modules/strategies/route53-gateway.js:213 | no more records are kept than given |
| Route53.FilterThrowingAppend | lib/modules/strategies/route53-gateway.js:213 | on a concatenation the first throw, in order, wins; otherwise the records kept from each part, concatenated in order |
| Route53.FilterThrowingSingle | lib/modules/strategies/route53-gateway.js:213 | one record is kept iff its callback returns something, and a throw of the callback passes on |
| Route53.FilterThrowingOk | lib/modules/strategies/route53-gateway.js:213 | the filter throws iff the callback throws on some record |
| Route53.Describe | lib/modules/strategies/route53-gateway.js:184-191 | throws iff parsing the metadata throws; the pair is kept exactly when the metadata parses to something, with its zone and that metadata |
| Route53.DescribeAll | lib/modules/strategies/route53-gateway.js:212-214 | no throw iff no record's metadata throws; then no more records than given |
| Route53.DescribeAllSound | lib/modules/strategies/route53-gateway.js:212-214 | a kept record is in the list, with its zone and the metadata it parses to |
| Route53.DescribeAllComplete | lib/modules/strategies/route53-gateway.js:212-214 | every record whose metadata parses is kept |
| Route53.ForService | lib/modules/strategies/route53-gateway.js:275 | without a service all records; with one, exactly those naming it |
| Route53.ForServiceAppend | lib/modules/strategies/route53-gateway.js:275 | the filter of a concatenation is the concatenation of the filters, in order; one description is kept iff no service is given or it names the service |
| Route53.TransformGateway | lib/modules/strategies/route53-gateway.js:52-69 | fails iff an attached A record has no alias target; otherwise the metadata, URI, zone and root, plus the alias when attached |
| Route53.TransformAll | lib/modules/strategies/route53-gateway.js:297 | no throw iff every record transforms; then one gateway per record, in order |
| Route53.LookupZone | lib/modules/strategies/route53-gateway.js:77-117 | a given zone is found iff its lookup succeeds; otherwise the lookup succeeds iff exactly one hosted zone exists, and any other count gives an error listing the zones |
| Route53.ListGateways | lib/modules/strategies/route53-gateway.js:273-307 | a zone or listing error is handed on with the listing failure message; with the zone found and the records fetched, the reply is exactly the gateways listed from the zone's records, or their throw; never silent |
| Route53.ListedGatewaysAreDescribed | lib/modules/strategies/route53-gateway.js:279-297 | each listed gateway comes from a BlueGreen TXT record of the zone whose metadata parses, of the context's service |
| Route53.UnfilteredListsEveryGateway | lib/modules/strategies/route53-gateway.js:279-297 | with no service, every BlueGreen gateway of the zone is listed with its A record |
| Route53.FindGateway | lib/modules/strategies/route53-gateway.js:321 | the first gateway with the context's service and name |
| Route53.CreateGatewayForService | lib/modules/strategies/route53-gateway.js:315-358 | a listing that throws or is silent passes through, and a listing error is handed on; an existing gateway is returned uncreated, with nothing sent; otherwise the CREATE of the built TXT record is sent iff the zone is found (a failed zone lookup gives its error and the failure message), then the created gateway or the failure message |
| Route53.CreatedGatewayIsNamed | lib/modules/strategies/route53-gateway.js:345-349 | the created gateway has the context's service and name and the TXT record's name |
| Route53.MergedSingle | lib/modules/strategies/route53-gateway.js:165-176 | a lone BlueGreen TXT record pairs with no A record |
| Route53.DescribedSingle | lib/modules/strategies/route53-gateway.js:212-214 | a lone pair whose metadata parses is kept |
| Route53.ForServiceSingle | lib/modules/strategies/route53-gateway.js:275 | a lone description of the context's service survives the service filter |
| Route53.ListingOfOne | lib/modules/strategies/route53-gateway.js:279-297 | a listing of one BlueGreen TXT record of the service gives its gateway |
| Route53.ListingFindsCreated | lib/modules/strategies/route53-gateway.js:317-323 | a listing of the record a creation sends finds the created gateway |
| Route53.CreateTwiceSendsOnce | lib/modules/strategies/route53-gateway.js:321-323 | once the created record is listed, a second creation returns the existing gateway and sends nothing |
| Route53.FindEnvironment | lib/modules/strategies/route53-gateway.js:392-394 | the first environment with the context's name and service |
| Route53.FirstFailure | lib/modules/strategies/route53-gateway.js:371-379 | an error exists iff some lookup called back with one; a gateways error comes first, then an environments error, then the zone's |
| Route53.AttachEnvironmentToGateway | lib/modules/strategies/route53-gateway.js:366-433 | a throw of a lookup escapes; otherwise a lookup error ends the collection with the failure message, even while another lookup is silent; a silent lookup with no error means no reply; once the lookups succeed, a missing gateway or environment is refused with its message before any change; a batch is sent exactly then, when both exist, as two UPSERTs, the TXT record and then the record pointing at the environment |
| Route53.AttachSendsPairedRecords | lib/modules/strategies/route53-gateway.js:403-416 | a sent attachment writes a TXT record naming the context's gateway, service and environment, and beside it the record its name pairs with |
| Route53.Register | lib/modules/strategies/route53-gateway.js:22-45 | `register` calls a method the orchestrator does not define, and throws |
| Json.Get | lib/modules/config/npm-config-loader.js:16-18 | defined iff the key is an own property, and then its value |
| Json.Put | lib/bluegreen.js:110 | the key reads back the value; every other key is unchanged |
| Json.ReadFollowsLookup | lib/modules/strategies/eb-env-and-versioning.js:199 | reading a path that exists gives the value found there |
| Json.ReadPastMissing | lib/modules/strategies/elasticbeanstalk-versions.js:118 | a path whose first step is missing and that goes two steps further throws |
| Json.Lookup | lib/modules/strategies/eb-env-and-versioning.js:199 | the empty path gives the value itself; a non-empty path is found only through an object holding its first key |
| Json.LookupAppend | lib/modules/strategies/eb-env-and-versioning.js:199 | following `p + q` is following `p`, then `q` from the value reached |
| Json.MergeInto | lib/bluegreen.js:110 | an object source gives an object holding the keys of both; an array source gives an array as long as the longer of the two; any other source replaces the destination |
| Json.MergeMembers | lib/bluegreen.js:110 | the merged object holds exactly the keys of the destination and of the source |
| Json.MergeItems | lib/bluegreen.js:110 | the merged array is as long as the longer of the two |
| Json.MergeConfig | lib/bluegreen.js:110 | every default key survives; an object configuration adds exactly its own keys; a configuration that is not an object, array or string leaves the defaults as they are |
| Json.MergeLoadedWins | lib/bluegreen.js:110 | wherever the loaded value is not an object or array, the merge holds the loaded value |
| Json.MergeDefaultSurvives | lib/bluegreen.js:110 | a default value at a path the loaded configuration stops short of is still there after the merge |
| JsonRoundTrip.FlatObject_RoundTrip | lib/modules/strategies/route53-gateway.js:201 | `JSON.parse(JSON.stringify(o))` gives back `o` for an object whose values are strings or null |
| JsonRoundTrip.QuotedPlain_Parse | lib/modules/strategies/route53-gateway.js:140 | a quoted text of plain characters parses as that string |
| JsonText.Stringify | lib/modules/strategies/route53-gateway.js:201 | objects, arrays and strings are written between their delimiters; anything but a number starts with a character that is not white space |
| JsonText.Parse | lib/modules/strategies/route53-gateway.js:140 | a blank text does not parse; a parsed value is an object, an array or a string exactly when the text, past white space, starts with `{`, `[` or `"` |
| Utf8.Encode | lib/modules/strategies/route53-gateway.js:201 | at least one and at most four bytes per character |
| Utf8.DecodeEncode | lib/modules/strategies/route53-gateway.js:127 | decoding the UTF-8 bytes of a text gives the text |
| Base64.Encode | lib/modules/strategies/route53-gateway.js:201 | a multiple of four characters, empty iff no bytes, all in the alphabet or `=` |
| Base64.DecodeEncode | lib/modules/strategies/route53-gateway.js:127 | decoding the base64 text of bytes gives the bytes |
| Base64.EncodedIsPlain | lib/modules/strategies/route53-gateway.js:125 | base64 text holds no ':', no '"' and no backslash |

## Left out

- AWS calls (Elastic Beanstalk, Route 53 and ELB) and the file system are inputs. They are not modelled as effects.
- `require` of a module path, and `__initializeModule`, are not modelled. The modules a path names are given as values: how each loader calls back, and how each strategy's `register` ends.
- `async.parallel` (`lib/commands.js:51-58`, `lib/modules/strategies/elasticbeanstalk.js:141-148`, `lib/modules/strategies/eb-env-and-versioning.js:155-161`, `lib/modules/strategies/elasticbeanstalk-versions.js:74-81`, `lib/modules/strategies/route53-gateway.js:371-381`) is taken as sequential fetches, with the first error in a fixed order. `async.whilst` and `async.series` are modelled as loops.
- Double callbacks are cut at the first callback:
  - `lib/bluegreen.js:101-111`;
  - `lib/modules/strategies/route53-gateway.js:299-305`;
  - `lib/modules/config/npm-config-loader.js:14-16` is not cut: the error is handed on and the loader then throws (Config.NpmLoader).
- LegacyCommands.GetVersionsAndStatus: `lib/commands.js:59` calls back with the error but does not return, so the join then runs on the partial results. When the versions failed or had not arrived, `data.versions.forEach` throws a TypeError. When the versions had arrived, the callback is called a second time, with the versions and no deployments. The model ends at the first callback.
- Config.TryParseJson: `tryParseJSON` calls its callback inside a `try`. A throw in the callback is therefore handed back to it as a parse error, and the loader calls back a second time. Config.TryParseCalls and Config.NpmLoader model this for the npm loader's own throw on a `null` manifest. A throw in the rest of `init` after a loader delivered its section is not modelled.
- App.BlueGreen.Init: a failing stage is reported with the corrected App.Report (see "## Findings", `lib/bluegreen.js:180`). As written, a strategy failure with an Error object is handed on as `new Error(undefined)`, and `init`'s own log entry has an undefined message (App.ReportAsWritten, App.StrategyErrorLost).
- App.BlueGreen.InitConfig: the loaders are given by how they call back, so the entries a loader logs itself (Config.NpmLoader's `logged`) are not added to `logged`.
- App.BlueGreen.InitConfig: a loader that calls back an error and then a falsy config is treated as failing the stage.
- App.BlueGreen.InitConfig: `_.merge` mutates the defaults object in place, so `defaults` and `config` end up as one object. The model assigns the merged value to both fields, and nothing else aliases it.
- App.BlueGreen: the logger instance, `options.logger` and `options.loggerOptions` are not modelled. Logging is recorded as the entries a failure logs.
- App.BlueGreen.Run: `render` on a missing view layer is a throw. Help is modelled as one rendering with no text.
- Route53.MergeTxtAndARecords, Route53.Dehydrate: fields set on records in place (`TXT.A`, `record.gateway`, `r.zone`) are modelled as new values paired with the record. Aliasing between the records and the listing is not modelled.
- Route53.LookupZone: in `checkForSingletonZone` a listing error is passed to `next` without returning (`lib/modules/strategies/route53-gateway.js:89`), and the code then reads `data.HostedZones` on the `null` data the SDK passes with an error (line 94), which throws an uncaught TypeError; the model ends at that first callback and does not model the throw.
- `detachEnvironmentFromGateway` (`lib/modules/strategies/route53-gateway.js:441-443`) has an empty body and no registration, so it is not modelled.
- Utf8.Decode, Base64.Decode: the decoders are strict and reject malformed input. Node's decoders are lenient: they replace bad UTF-8 and skip stray base64 characters. Only well-formed input is modelled. Lone surrogates are outside `char`.
- JsonText.Parse: numbers are kept as their text, and there is no floating point. A repeated key keeps its first position. A `\u` escape of a lone surrogate (such as `\uD800` without a following low surrogate) is rejected, whereas `JSON.parse` accepts it, because a Dafny `char` cannot hold a lone surrogate.
- ConsoleView.Side, ConsoleView.PadLeftRight, ConsoleView.ShortName, Text.Slice, Text.IndexOfText: lengths and positions count Unicode scalar values, whereas JavaScript counts UTF-16 code units. The two differ only for characters outside the Basic Multilingual Plane, which count once here and twice in JavaScript.
- Beanstalk.PrefixOf: a truthy prefix that is not a string (a number, an object) is taken as the empty prefix. JavaScript would put its string form into the application name, and `parseApplicationName` would drop no characters.
- Beanstalk: only Beanstalk.DeleteVersionHandler and Beanstalk.VersionsDeleteAsWritten read the prefix from the configuration. The other handlers are given the prefix as a string, so the throw of a configuration without `application` is not modelled for them.
- ConsoleView: colours, `easy-table` layout and `moment` relative times are not modelled. The table is given as rows of strings.
- ConsoleView.Lower, ConsoleView.Upper: only ASCII letters change case. `toLowerCase` and `toUpperCase` also map other letters, which the AWS status words never hold.
- Logger.Log: timestamps, `JSON.stringify` formatting and console output are not modelled.
- Push-style registration (`registerRequestHandler`, `registerCommand`) is modelled only as the throw it causes (Route53.Register). Help aggregation, `index.js`, `lib/modules/views/console-json.js` and the git and docker strategies are not part of this model.
- `lib/strategy.js`, `lib/command.js`, `lib/request-types.js` and `lib/view-types.js` are not modelled as such. Their request and view names are enumerations of every name the commands and strategies use.
- `utils.tryParseJSONSync` is not defined in `lib/utils.js`. Route53.ParseMetadata models its evident meaning: `null` for text that does not parse.

## Findings

| source | as written | input that shows it | evidently intended | confidence | as-written member | corrected member |
|---|---|---|---|---|---|---|
| lib/modules/strategies/elasticbeanstalk.js:52 | `applicationName.indexOf(prefix.length + 1)` returns a position, not a name | prefix "nr8-", name "nr8-www" gives -1 | `applicationName.slice(prefix.length)`, giving "www" | not executed | Beanstalk.LegacyParseLosesService | Beanstalk.ParseInvertsGet |
| lib/modules/strategies/elasticbeanstalk-versions.js:118 | reads `config.aws.this.beanstalk.versioning.deleteSourceBundle` | the default configuration, which has no `aws.this`, throws a TypeError | reads `config.aws.beanstalk.versioning.deleteSourceBundle` | not executed | Beanstalk.VersionsDeleteThrows | Beanstalk.NeverDeletesDeployed |
| lib/modules/strategies/route53-gateway.js:128 | calls `utils.tryParseJSONSync`, which `lib/utils.js` does not define | any TXT record `buildTXTRecord` writes throws when parsed | decode and parse the JSON, `null` on failure | not executed | Route53.AsWrittenParseThrows | Route53.MetadataRoundTrip |
| lib/commands.js:101 | maps `version.deployments`, an undeclared variable | a version deployed to any environment throws a ReferenceError | `targetVersion.deployments` | not executed | LegacyCommands.DeleteDeployedThrows | LegacyCommands.DeployedRefusalNamesEnvironment |
| lib/bluegreen.js:180 | reports `err[0]` with message `err[1]` | a strategy module without `register` fails with an Error object, and the reported error becomes `new Error(undefined)` | report the stage's own error with the stage's message | not executed | App.StrategyErrorLost | App.Report |
