/**
 * BlueGreen's command modules: each one recognises its command line
 * (`isMatch` on the space-joined positional arguments), turns the positional
 * arguments into a request context (the first half of `execute`), and turns
 * the handler's reply into renderings and a callback (the second half).
 */
module Commands {
  import opened Wrappers
  import opened Model
  import Text
  import opened Patterns

  datatype Command =
    | ShowVersions
    | DeleteVersionCommand
    | ListVersions
    | CreateVersion
    | DeployVersion
    | CreateService
    | ListServices
    | ListEnvironments
    | ListEnvironmentsForService
    | ListGateways
    | ListGatewaysForService
    | CreateGateway
    | AttachGateway
    | DebugCodebaseVersion

  /** The parsed command line: positional words `_` and the options the commands read. */
  datatype Argv = Argv(
    positional: seq<string>,
    description: Option<string>,
    rrname: Option<string>,
    zone: Option<string>)

  /** `argv._[i]`, `undefined` past the end. */
  function Arg(argv: Argv, i: nat): Option<string> {
    if i < |argv.positional| then Some(argv.positional[i]) else None
  }

  // ---------------------------------------------------------------------
  // isMatch
  // ---------------------------------------------------------------------

  /** How a command recognises its line: the whole trimmed line, or a pattern anywhere in it. */
  datatype Matcher = Equals(word: string) | Contains(pattern: Pattern)

  /** A run of class `k` followed by `q`. */
  function Run(k: CharClass, q: Pattern): Pattern {
    [Plus(k)] + q
  }

  /** The characters of `t` followed by `q`. */
  function Then(t: string, q: Pattern): Pattern {
    Lits(t) + q
  }

  /** `<w>\s+versions`, shared by two commands. */
  const VersionsPattern: Pattern := Run(Word, Run(Space, Lits("versions")))

  /** The one word of the debug command. */
  const DebugWord := "debug:codebase-version"

  function MatcherOf(c: Command): Matcher {
    match c
    case ShowVersions => Contains(VersionsPattern)
    case ListVersions => Contains(VersionsPattern)
    case DeleteVersionCommand =>
      Contains(Run(Word, Run(Space, Then("delete", Run(Space, Then("version", Run(Space, Run(AnyChar, []))))))))
    case CreateVersion =>
      Contains(Run(Word, Run(Space, Then("create", Run(Space, Then("version", Run(Space, Run(AnyChar, []))))))))
    case DeployVersion =>
      Contains(Run(Word, Run(Space, Then("deploy", Run(Space, Run(WordDot, Run(Space, Then("to", Run(Space, Run(AnyChar, []))))))))))
    case CreateService =>
      Contains(Then("create", Run(Space, Then("service", Run(Space, Run(AnyChar, []))))))
    case ListServices => Equals("services")
    case ListEnvironments => Equals("environments")
    case ListEnvironmentsForService => Contains(Run(Word, Run(Space, Lits("environments"))))
    case ListGateways => Equals("gateways")
    case ListGatewaysForService => Contains(Run(Word, Run(Space, Lits("gateways"))))
    case CreateGateway =>
      Contains(Run(Word, Run(Space, Then("create", Run(Space, Then("gateway", Run(Space, Run(Word, []))))))))
    case AttachGateway =>
      Contains(Run(Word, Run(Space, Then("attach", Run(Space, Run(Word, Run(Space, Then("to", Run(Space, Run(Word, []))))))))))
    case DebugCodebaseVersion => Contains(Lits(DebugWord))
  }

  /** `isMatch(bluegreen, args, argv)` on the trimmed line. */
  predicate IsMatch(c: Command, args: string) {
    var t := Text.Trim(args);
    match MatcherOf(c)
    case Equals(w) => t == w
    case Contains(p) => Search(p, t, 0)
  }

  /** White space around the command line never changes which commands recognise it. */
  lemma MatchIgnoresPadding(c: Command, args: string)
    ensures IsMatch(c, args) <==> IsMatch(c, Text.Trim(args))
  {
    Text.TrimUnchanged(Text.Trim(args));
  }

  // ---------------------------------------------------------------------
  // the usage lines
  // ---------------------------------------------------------------------

  /** A non-empty word of `[a-zA-Z0-9\-_]`. */
  predicate IsWord(s: string) {
    s != [] && AllIn(Word, s, 0, |s|)
  }

  /** A non-empty word of `[a-zA-Z0-9\-_.]`, as a version label. */
  predicate IsLabel(s: string) {
    s != [] && AllIn(WordDot, s, 0, |s|)
  }

  /** A non-empty tail on one line that does not end in white space. */
  predicate IsRest(s: string) {
    s != [] && AllIn(AnyChar, s, 0, |s|) && !Text.IsSpace(s[|s| - 1])
  }

  /** The command line of the given positional words, with no options. */
  function Line(words: seq<string>): Argv {
    Argv(words, None, None, None)
  }

  lemma RestAlone(k: CharClass, x: string)
    requires x != [] && AllIn(k, x, 0, |x|)
    ensures Matches(Run(k, []), x, 0, |x|)
  {
    RunAlone(k, x);
    assert Run(k, []) == [Plus(k)];
  }

  lemma SpaceBefore(q: Pattern, u: string)
    requires Matches(q, u, 0, |u|)
    ensures Matches(Run(Space, q), " " + u, 0, |" " + u|)
  {
    PrependRun(Space, q, " ", u);
  }

  /** A line with no white space at its ends that `p` matches whole is recognised by `p`. */
  lemma Accept(p: Pattern, line: string)
    requires line != [] && !Text.IsSpace(line[0]) && !Text.IsSpace(line[|line| - 1])
    requires Matches(p, line, 0, |line|)
    ensures Search(p, Text.Trim(line), 0)
  {
    Text.TrimUnchanged(line);
    WholeFound(p, line);
  }

  lemma JoinTwo(a: string, b: string)
    ensures Text.Join([a, b], " ") == a + (" " + b)
  {
    assert [a, b] == [a] + [b];
    Text.JoinCons(a, [b], " ");
  }

  lemma JoinThree(a: string, b: string, c: string)
    ensures Text.Join([a, b, c], " ") == a + (" " + (b + (" " + c)))
  {
    assert [a, b, c] == [a] + [b, c];
    Text.JoinCons(a, [b, c], " ");
    JoinTwo(b, c);
  }

  lemma JoinFour(a: string, b: string, c: string, d: string)
    ensures Text.Join([a, b, c, d], " ") == a + (" " + (b + (" " + (c + (" " + d)))))
  {
    assert [a, b, c, d] == [a] + [b, c, d];
    Text.JoinCons(a, [b, c, d], " ");
    JoinThree(b, c, d);
  }

  lemma JoinFive(a: string, b: string, c: string, d: string, e: string)
    ensures Text.Join([a, b, c, d, e], " ") == a + (" " + (b + (" " + (c + (" " + (d + (" " + e)))))))
  {
    assert [a, b, c, d, e] == [a] + [b, c, d, e];
    Text.JoinCons(a, [b, c, d, e], " ");
    JoinFour(b, c, d, e);
  }

  /** The keyword `w`, white space, then what `q` matches. */
  lemma Keyword(w: string, q: Pattern, u: string)
    requires Matches(q, u, 0, |u|)
    ensures Matches(Then(w, Run(Space, q)), w + (" " + u), 0, |w + (" " + u)|)
  {
    SpaceBefore(q, u);
    PrependLits(w, Run(Space, q), " " + u);
  }

  /** A word of class `k`, white space, then what `q` matches. */
  lemma Leading(k: CharClass, s: string, q: Pattern, u: string)
    requires s != [] && AllIn(k, s, 0, |s|) && Matches(q, u, 0, |u|)
    ensures Matches(Run(k, Run(Space, q)), s + (" " + u), 0, |s + (" " + u)|)
  {
    SpaceBefore(q, u);
    PrependRun(k, Run(Space, q), s, " " + u);
  }

  lemma WordStart(s: string)
    requires IsWord(s)
    ensures !Text.IsSpace(s[0]) && !Text.IsSpace(s[|s| - 1])
  {
    assert InClass(Word, s[0]) && InClass(Word, s[|s| - 1]);
  }

  lemma LabelStart(s: string)
    requires IsLabel(s)
    ensures !Text.IsSpace(s[0])
  {
    assert InClass(WordDot, s[0]);
  }

  /** A command whose pattern is found in the trimmed line recognises the line. */
  lemma Recognised(c: Command, p: Pattern, args: string)
    requires MatcherOf(c) == Contains(p) && Search(p, Text.Trim(args), 0)
    ensures IsMatch(c, args)
  {
  }

  /** `<a> <w>`: a word and a keyword, matched whole. */
  lemma WordKeyword(a: string, w: string)
    requires a != [] && AllIn(Word, a, 0, |a|) && !Text.IsSpace(a[0])
    requires w != [] && !Text.IsSpace(w[|w| - 1])
    ensures Search(Run(Word, Run(Space, Lits(w))), Text.Trim(Text.Join([a, w], " ")), 0)
  {
    JoinTwo(a, w);
    var line := a + (" " + w);
    LitsAlone(w);
    Leading(Word, a, Lits(w), w);
    assert line[0] == a[0] && line[|line| - 1] == w[|w| - 1];
    Accept(Run(Word, Run(Space, Lits(w))), line);
  }

  /** `<w1> <w2> <b>`: two keywords and a tail, matched whole. */
  lemma KeywordsTail(w1: string, w2: string, b: string)
    requires w1 != [] && !Text.IsSpace(w1[0])
    requires b != [] && AllIn(AnyChar, b, 0, |b|) && !Text.IsSpace(b[|b| - 1])
    ensures Search(Then(w1, Run(Space, Then(w2, Run(Space, Run(AnyChar, []))))),
                   Text.Trim(Text.Join([w1, w2, b], " ")), 0)
  {
    JoinThree(w1, w2, b);
    var u1 := w2 + (" " + b);
    var line := w1 + (" " + u1);
    var q1 := Then(w2, Run(Space, Run(AnyChar, [])));
    RestAlone(AnyChar, b);
    Keyword(w2, Run(AnyChar, []), b);
    Keyword(w1, q1, u1);
    assert line[0] == w1[0] && line[|line| - 1] == b[|b| - 1];
    Accept(Then(w1, Run(Space, q1)), line);
  }

  /** `<a> <w1> <w2> <b>`: a word, two keywords and a tail, matched whole. */
  lemma WordKeywordsTail(ka: CharClass, a: string, w1: string, w2: string, kb: CharClass, b: string)
    requires a != [] && AllIn(ka, a, 0, |a|) && !Text.IsSpace(a[0])
    requires b != [] && AllIn(kb, b, 0, |b|) && !Text.IsSpace(b[|b| - 1])
    ensures Search(Run(ka, Run(Space, Then(w1, Run(Space, Then(w2, Run(Space, Run(kb, []))))))),
                   Text.Trim(Text.Join([a, w1, w2, b], " ")), 0)
  {
    JoinFour(a, w1, w2, b);
    var u1 := w2 + (" " + b);
    var u2 := w1 + (" " + u1);
    var line := a + (" " + u2);
    var q1 := Then(w2, Run(Space, Run(kb, [])));
    var q2 := Then(w1, Run(Space, q1));
    RestAlone(kb, b);
    Keyword(w2, Run(kb, []), b);
    Keyword(w1, q1, u1);
    Leading(ka, a, q2, u2);
    assert line[0] == a[0] && line[|line| - 1] == b[|b| - 1];
    Accept(Run(ka, Run(Space, q2)), line);
  }

  /** `<a> <w1> <b> <w2> <c>`: a word, a keyword, a word, a keyword and a tail, matched whole. */
  lemma Interleaved(a: string, w1: string, kb: CharClass, b: string, w2: string, kc: CharClass, c: string)
    requires a != [] && AllIn(Word, a, 0, |a|) && !Text.IsSpace(a[0])
    requires b != [] && AllIn(kb, b, 0, |b|)
    requires c != [] && AllIn(kc, c, 0, |c|) && !Text.IsSpace(c[|c| - 1])
    ensures Search(Run(Word, Run(Space, Then(w1, Run(Space, Run(kb, Run(Space, Then(w2, Run(Space, Run(kc, []))))))))),
                   Text.Trim(Text.Join([a, w1, b, w2, c], " ")), 0)
  {
    JoinFive(a, w1, b, w2, c);
    var u1 := w2 + (" " + c);
    var u2 := b + (" " + u1);
    var u3 := w1 + (" " + u2);
    var line := a + (" " + u3);
    var q1 := Then(w2, Run(Space, Run(kc, [])));
    var q2 := Run(kb, Run(Space, q1));
    var q3 := Then(w1, Run(Space, q2));
    RestAlone(kc, c);
    Keyword(w2, Run(kc, []), c);
    Leading(kb, b, q1, u1);
    Keyword(w1, q2, u2);
    Leading(Word, a, q3, u3);
    assert line[0] == a[0] && line[|line| - 1] == c[|c| - 1];
    Accept(Run(Word, Run(Space, q3)), line);
  }

  /** `<service> versions` is recognised by both version commands, each asking for that service's versions. */
  lemma VersionsUsage(s: string)
    requires IsWord(s)
    ensures IsMatch(ShowVersions, Text.Join([s, "versions"], " "))
    ensures IsMatch(ListVersions, Text.Join([s, "versions"], " "))
    ensures Prepare(ShowVersions, Line([s, "versions"])) == Ask(GetVersionsAndStatus, EmptyContext.(service := Some(s)))
    ensures Prepare(ListVersions, Line([s, "versions"])) == Ask(VersionsList, EmptyContext.(service := Some(s)))
  {
    WordStart(s);
    WordKeyword(s, "versions");
    Recognised(ShowVersions, VersionsPattern, Text.Join([s, "versions"], " "));
    Recognised(ListVersions, VersionsPattern, Text.Join([s, "versions"], " "));
  }

  /** `<service> delete version <version>` is recognised and asks to delete that version. */
  lemma DeleteVersionUsage(s: string, v: string)
    requires IsWord(s) && IsRest(v)
    ensures IsMatch(DeleteVersionCommand, Text.Join([s, "delete", "version", v], " "))
    ensures Prepare(DeleteVersionCommand, Line([s, "delete", "version", v]))
            == Ask(VersionsDelete, EmptyContext.(service := Some(s), version := Some(v)))
  {
    var p := Run(Word, Run(Space, Then("delete", Run(Space, Then("version", Run(Space, Run(AnyChar, [])))))));
    WordStart(s);
    WordKeywordsTail(Word, s, "delete", "version", AnyChar, v);
    Recognised(DeleteVersionCommand, p, Text.Join([s, "delete", "version", v], " "));
  }

  /** `<service> create version <version>` is recognised and asks to create that version. */
  lemma CreateVersionUsage(s: string, v: string)
    requires IsWord(s) && IsRest(v)
    ensures IsMatch(CreateVersion, Text.Join([s, "create", "version", v], " "))
    ensures Prepare(CreateVersion, Line([s, "create", "version", v]))
            == Ask(VersionsCreate, EmptyContext.(service := Some(s), version := Some(v)))
  {
    var p := Run(Word, Run(Space, Then("create", Run(Space, Then("version", Run(Space, Run(AnyChar, [])))))));
    WordStart(s);
    WordKeywordsTail(Word, s, "create", "version", AnyChar, v);
    Recognised(CreateVersion, p, Text.Join([s, "create", "version", v], " "));
  }

  /** `<service> deploy <version> to <environment>` is recognised and asks for that deployment. */
  lemma DeployVersionUsage(s: string, v: string, e: string)
    requires IsWord(s) && IsLabel(v) && IsRest(e)
    ensures IsMatch(DeployVersion, Text.Join([s, "deploy", v, "to", e], " "))
    ensures Prepare(DeployVersion, Line([s, "deploy", v, "to", e]))
            == Ask(VersionsDeploy, EmptyContext.(service := Some(s), version := Some(v), environment := Some(e)))
  {
    var p := Run(Word, Run(Space, Then("deploy", Run(Space, Run(WordDot, Run(Space, Then("to", Run(Space, Run(AnyChar, [])))))))));
    WordStart(s);
    Interleaved(s, "deploy", WordDot, v, "to", AnyChar, e);
    Recognised(DeployVersion, p, Text.Join([s, "deploy", v, "to", e], " "));
  }

  /**
   * `create service <name>` is recognised and asks to create that service,
   * described by default as managed by BlueGreen.
   */
  lemma CreateServiceUsage(n: string)
    requires IsRest(n)
    ensures IsMatch(CreateService, Text.Join(["create", "service", n], " "))
    ensures Prepare(CreateService, Line(["create", "service", n]))
            == Ask(ServicesCreate, EmptyContext.(service := Some(n), description := Some(n + " - managed by BlueGreen")))
  {
    var p := Then("create", Run(Space, Then("service", Run(Space, Run(AnyChar, [])))));
    KeywordsTail("create", "service", n);
    Recognised(CreateService, p, Text.Join(["create", "service", n], " "));
  }

  /** `<service> environments` is recognised and asks for that service's environments. */
  lemma EnvironmentsForServiceUsage(s: string)
    requires IsWord(s)
    ensures IsMatch(ListEnvironmentsForService, Text.Join([s, "environments"], " "))
    ensures Prepare(ListEnvironmentsForService, Line([s, "environments"]))
            == Ask(EnvironmentsList, EmptyContext.(service := Some(s)))
  {
    WordStart(s);
    WordKeyword(s, "environments");
    Recognised(ListEnvironmentsForService, Run(Word, Run(Space, Lits("environments"))), Text.Join([s, "environments"], " "));
  }

  /** `<service> gateways` is recognised and asks for that service's gateways. */
  lemma GatewaysForServiceUsage(s: string)
    requires IsWord(s)
    ensures IsMatch(ListGatewaysForService, Text.Join([s, "gateways"], " "))
    ensures Prepare(ListGatewaysForService, Line([s, "gateways"]))
            == Ask(GatewayList, EmptyContext.(service := Some(s)))
  {
    WordStart(s);
    WordKeyword(s, "gateways");
    Recognised(ListGatewaysForService, Run(Word, Run(Space, Lits("gateways"))), Text.Join([s, "gateways"], " "));
  }

  /** `<service> create gateway <name>` is recognised and asks to create that gateway. */
  lemma CreateGatewayUsage(s: string, g: string)
    requires IsWord(s) && IsWord(g)
    ensures IsMatch(CreateGateway, Text.Join([s, "create", "gateway", g], " "))
    ensures Prepare(CreateGateway, Line([s, "create", "gateway", g]))
            == Ask(GatewayCreate, EmptyContext.(service := Some(s), gateway := Some(g)))
  {
    var p := Run(Word, Run(Space, Then("create", Run(Space, Then("gateway", Run(Space, Run(Word, [])))))));
    WordStart(s);
    WordStart(g);
    WordKeywordsTail(Word, s, "create", "gateway", Word, g);
    Recognised(CreateGateway, p, Text.Join([s, "create", "gateway", g], " "));
  }

  /** `<service> attach <environment> to <gateway>` is recognised and asks for that attachment. */
  lemma AttachGatewayUsage(s: string, e: string, g: string)
    requires IsWord(s) && IsWord(e) && IsWord(g)
    ensures IsMatch(AttachGateway, Text.Join([s, "attach", e, "to", g], " "))
    ensures Prepare(AttachGateway, Line([s, "attach", e, "to", g]))
            == Ask(GatewayAttach, EmptyContext.(service := Some(s), environment := Some(e), gateway := Some(g)))
  {
    var p := Run(Word, Run(Space, Then("attach", Run(Space, Run(Word, Run(Space, Then("to", Run(Space, Run(Word, [])))))))));
    WordStart(s);
    WordStart(g);
    Interleaved(s, "attach", Word, e, "to", Word, g);
    Recognised(AttachGateway, p, Text.Join([s, "attach", e, "to", g], " "));
  }

  /**
   * A line that is `debug:codebase-version` once trimmed is recognised, and
   * asks for the codebase version with an empty context.
   */
  lemma DebugUsage(args: string)
    requires Text.Trim(args) == DebugWord
    ensures IsMatch(DebugCodebaseVersion, args)
    ensures Prepare(DebugCodebaseVersion, Line([args])) == Ask(VersionsFindCodebaseVersion, EmptyContext)
  {
    LitsAlone(DebugWord);
    WholeFound(Lits(DebugWord), DebugWord);
    Recognised(DebugCodebaseVersion, Lits(DebugWord), args);
  }

  /** A line that is only `w` once trimmed has no white space for a `<service> w` pattern to need. */
  lemma BareWord(c: Command, d: Command, w: string, args: string)
    requires MatcherOf(c) == Equals(w) && MatcherOf(d) == Contains(Run(Word, Run(Space, Lits(w))))
    requires Text.NoSpace(w) && Text.Trim(args) == w
    ensures IsMatch(c, args) && !IsMatch(d, args)
  {
    assert Plus(Space) in Run(Word, Run(Space, Lits(w)));
    NoSpaceNoMatch(Run(Word, Run(Space, Lits(w))), w);
  }

  lemma KeywordFacts()
    ensures Text.NoSpace("environments") && Text.NoSpace("gateways") && IsWord("gateways")
  {
    assert AllIn(Word, "gateways", 0, |"gateways"|);
  }

  /**
   * `environments` alone lists the environments of every service; the
   * per-service command, which needs a service word before it, does not take it.
   */
  lemma EnvironmentsAlone(args: string)
    requires Text.Trim(args) == "environments"
    ensures IsMatch(ListEnvironments, args) && !IsMatch(ListEnvironmentsForService, args)
    ensures Prepare(ListEnvironments, Line([args])) == Ask(EnvironmentsList, EmptyContext)
  {
    KeywordFacts();
    BareWord(ListEnvironments, ListEnvironmentsForService, "environments", args);
  }

  /** `gateways` alone lists every gateway; the per-service command does not take it. */
  lemma GatewaysAlone(args: string)
    requires Text.Trim(args) == "gateways"
    ensures IsMatch(ListGateways, args) && !IsMatch(ListGatewaysForService, args)
    ensures Prepare(ListGateways, Line([args])) == Ask(GatewayList, EmptyContext)
  {
    KeywordFacts();
    BareWord(ListGateways, ListGatewaysForService, "gateways", args);
  }

  /** `services` alone lists the services. */
  lemma ServicesAlone(args: string)
    requires Text.Trim(args) == "services"
    ensures IsMatch(ListServices, args)
    ensures Prepare(ListServices, Line([args])) == Ask(ServicesList, EmptyContext)
  {
  }

  /** A match of `q` on the tail of a line `<a> <b> <c> <y>` is found in the line. */
  lemma FoundAfterThree(q: Pattern, a: string, b: string, c: string, y: string)
    requires Matches(q, y, 0, |y|)
    ensures Search(q, a + (" " + (b + (" " + (c + (" " + y))))), 0)
  {
    var u1 := " " + y;
    var u2 := c + u1;
    var u3 := " " + u2;
    var u4 := b + u3;
    var u5 := " " + u4;
    var line := a + u5;
    Shift(q, y, " ", 0, |y|);
    Shift(q, u1, c, 1, |u1|);
    Shift(q, u2, " ", |c| + 1, |u2|);
    Shift(q, u3, b, |c| + 2, |u3|);
    Shift(q, u4, " ", |b| + |c| + 2, |u4|);
    Shift(q, u5, a, |b| + |c| + 3, |u5|);
    SearchComplete(q, line, 0, |line| - |y|, |line|);
  }

  /** In `<a> attach <e> to <g>`, the words `to <g>` are found by the pattern `<w>\s+<g>`. */
  lemma ToWordFound(a: string, e: string, g: string)
    requires IsWord(a) && IsWord(g)
    ensures Search(Run(Word, Run(Space, Lits(g))), Text.Trim(Text.Join([a, "attach", e, "to", g], " ")), 0)
  {
    var line := Text.Join([a, "attach", e, "to", g], " ");
    JoinFive(a, "attach", e, "to", g);
    var to := "to";
    assert AllIn(Word, to, 0, |to|);
    LitsAlone(g);
    Leading(Word, to, Lits(g), g);
    FoundAfterThree(Run(Word, Run(Space, Lits(g))), a, "attach", e, to + (" " + g));
    WordStart(a);
    WordStart(g);
    assert line[0] == a[0] && line[|line| - 1] == g[|g| - 1];
    Text.TrimUnchanged(line);
  }

  /**
   * Attaching an environment to a gateway named `gateways` is also recognised
   * by the per-service gateway listing (its line ends in `to gateways`), so the
   * order of the command list decides which of the two runs.
   */
  lemma AttachToGatewaysOverlap(s: string, e: string)
    requires IsWord(s) && IsWord(e)
    ensures IsMatch(AttachGateway, Text.Join([s, "attach", e, "to", "gateways"], " "))
    ensures IsMatch(ListGatewaysForService, Text.Join([s, "attach", e, "to", "gateways"], " "))
  {
    KeywordFacts();
    AttachGatewayUsage(s, e, "gateways");
    ToWordFound(s, e, "gateways");
    Recognised(ListGatewaysForService, Run(Word, Run(Space, Lits("gateways"))),
               Text.Join([s, "attach", e, "to", "gateways"], " "));
  }

  // ---------------------------------------------------------------------
  // execute: the request
  // ---------------------------------------------------------------------

  /** What `execute` does before any reply: request a handler, or throw. */
  datatype Step = Ask(request: Request, context: Context) | ThrowsFirst(reason: string)

  /** The description sent by `create service`: the option, or a default naming the service. */
  function ServiceDescription(argv: Argv): string {
    if Given(argv.description) then argv.description.value else Show(Arg(argv, 2)) + " - managed by BlueGreen"
  }

  function Prepare(c: Command, argv: Argv): (step: Step)
    ensures step.ThrowsFirst? <==> c == ListGateways && Given(argv.zone)
  {
    var ctx := EmptyContext;
    match c
    case ShowVersions => Ask(GetVersionsAndStatus, ctx.(service := Arg(argv, 0)))
    case DeleteVersionCommand => Ask(VersionsDelete, ctx.(service := Arg(argv, 0), version := Arg(argv, 3)))
    case ListVersions => Ask(VersionsList, ctx.(service := Arg(argv, 0)))
    case CreateVersion => Ask(VersionsCreate, ctx.(service := Arg(argv, 0), version := Arg(argv, 3)))
    case DeployVersion =>
      Ask(VersionsDeploy, ctx.(service := Arg(argv, 0), version := Arg(argv, 2), environment := Arg(argv, 4)))
    case CreateService =>
      Ask(ServicesCreate, ctx.(service := Arg(argv, 2), description := Some(ServiceDescription(argv))))
    case ListServices => Ask(ServicesList, ctx)
    case ListEnvironments => Ask(EnvironmentsList, ctx)
    case ListEnvironmentsForService => Ask(EnvironmentsList, ctx.(service := Arg(argv, 0)))
    case ListGateways =>
      // the option is copied onto a variable the command never declares
      if Given(argv.zone) then ThrowsFirst("ReferenceError: request is not defined")
      else Ask(GatewayList, ctx)
    case ListGatewaysForService => Ask(GatewayList, ctx.(service := Arg(argv, 0)))
    case CreateGateway =>
      Ask(GatewayCreate, ctx.(service := Arg(argv, 0), gateway := Arg(argv, 3),
                              rrname := if Given(argv.rrname) then argv.rrname else None))
    case AttachGateway =>
      Ask(GatewayAttach, ctx.(service := Arg(argv, 0), environment := Arg(argv, 2), gateway := Arg(argv, 4),
                              zone := if Given(argv.zone) then argv.zone else None))
    case DebugCodebaseVersion => Ask(VersionsFindCodebaseVersion, ctx)
  }

  // ---------------------------------------------------------------------
  // execute: the reply
  // ---------------------------------------------------------------------

  /** The message an error view falls back on when the handler gives none. */
  function Fallback(c: Command, argv: Argv): (r: string)
    // only the two commands that never show it have an empty fallback
    ensures r == "" <==> c == CreateGateway || c == DebugCodebaseVersion
  {
    var s := Show(Arg(argv, 0));
    match c
    case ShowVersions => "Could not retrieve versions for service: " + s + "."
    case ListVersions => "Could not retrieve versions for service: " + s + "."
    case DeleteVersionCommand => "Could not delete version " + Show(Arg(argv, 3)) + " for service " + s
    case CreateVersion => "Could not create version " + Show(Arg(argv, 3)) + " for service " + s
    case DeployVersion =>
      "Could not deploy version " + Show(Arg(argv, 2)) + " to " + Show(Arg(argv, 4)) + " for service " + s
    case CreateService => "Could not create service " + Show(Arg(argv, 2))
    case ListServices => "Could not retrieve environments."
    case ListEnvironments => "Could not retrieve environments."
    case ListEnvironmentsForService => "Could not retrieve environments for service: " + s + "."
    case ListGateways => "Could not retrieve Gateways."
    case ListGatewaysForService => "Could not retrieve Gateways."
    case CreateGateway => ""
    case AttachGateway =>
      "Could not attach gateway '" + Show(Arg(argv, 4)) + "' to environment '" + Show(Arg(argv, 2))
      + "' for service '" + s + "'."
    case DebugCodebaseVersion => ""
  }

  /** The view a successful reply is shown in, with the data it is given. */
  function SuccessRenderings(c: Command, argv: Argv, data: Payload): (r: seq<Rendering>)
    ensures r == [] <==> c == DebugCodebaseVersion
    ensures forall i :: 0 <= i < |r| ==> r[i].view != ErrorView
    // a listing shows the handler's data as it came, in the one view
    ensures PassesData(c) ==> |r| == 1 && r[0].data == PayloadData(data)
    ensures !PassesData(c) && c != DebugCodebaseVersion ==> r[0].view == SuccessView && r[0].data.MessageData?
  {
    var s := Show(Arg(argv, 0));
    match c
    case ShowVersions => [Rendering(VersionsAndStatusView, PayloadData(data))]
    case ListVersions => [Rendering(VersionsAndStatusView, PayloadData(data))]
    case DeleteVersionCommand =>
      [Rendering(SuccessView, MessageData("Service '" + s + "' version '" + Show(Arg(argv, 3)) + "' deleted successfully."))]
    case CreateVersion =>
      [Rendering(SuccessView, MessageData("Service '" + s + "' version '" + Show(Arg(argv, 3)) + "' created successfully."))]
    case DeployVersion =>
      [Rendering(SuccessView, MessageData("Service '" + s + "' version '" + Show(Arg(argv, 2))
                                          + "' was successfully deployed to " + Show(Arg(argv, 4)) + "."))]
    case CreateService =>
      [Rendering(SuccessView, MessageData("Service '" + Show(Arg(argv, 2)) + "' created successfully."))]
    case ListServices => [Rendering(ServicesView, PayloadData(data))]
    case ListEnvironments => [Rendering(EnvironmentsView, PayloadData(data))]
    case ListEnvironmentsForService => [Rendering(EnvironmentsView, PayloadData(data))]
    case ListGateways => [Rendering(GatewaysView, PayloadData(data))]
    case ListGatewaysForService => [Rendering(GatewaysView, PayloadData(data))]
    case CreateGateway =>
      [Rendering(SuccessView, MessageData("Gateway '" + Show(Arg(argv, 3)) + "' for service '" + s + "' created successfully.")),
       Rendering(GatewaysView, ListData([data]))]
    case AttachGateway =>
      [Rendering(SuccessView, MessageData("Gateway '" + Show(Arg(argv, 4)) + "' successfully attached to environment '"
                                          + Show(Arg(argv, 2)) + "' for service '" + s + "'."))]
    case DebugCodebaseVersion => []
  }

  /** Commands that call back with `(err, data)`; the others call back with `(err)` alone. */
  predicate PassesData(c: Command) {
    c in {ShowVersions, ListVersions, ListServices, ListEnvironments, ListEnvironmentsForService,
          ListGateways, ListGatewaysForService}
  }

  /**
   * The renderings and the callback that follow the handler's reply. A throw
   * or a silence of the handler passes through; an error is rendered with the
   * handler's own message when it gives a truthy one.
   */
  function Finish(c: Command, argv: Argv, reply: Reply): (r: (seq<Rendering>, Reply))
    ensures !reply.Replied? ==> r == ([], reply)
    ensures reply.Replied? && c != DebugCodebaseVersion && c != CreateGateway ==>
              r.1 == Replied(reply.err, if PassesData(c) then reply.data else PNone)
    ensures reply.Replied? && ErrTruthy(reply.err) && c != DebugCodebaseVersion && c != CreateGateway ==>
              r.0 == [Rendering(ErrorView, ErrorData(reply.err, MessageOr(reply.data, Fallback(c, argv))))]
    ensures reply.Replied? && !ErrTruthy(reply.err) && c != DebugCodebaseVersion ==>
              r.0 == SuccessRenderings(c, argv, reply.data)
    // debug renders what it got, error or not, and calls back with nothing
    ensures reply.Replied? && c == DebugCodebaseVersion ==>
              r == ([Rendering(DebugCodebaseVersionView, DebugData(reply.data, reply.err))], Replied(None, PNone))
    // create-gateway's error path reads an undeclared `data` and throws before rendering
    ensures reply.Replied? && c == CreateGateway && ErrTruthy(reply.err) ==>
              r == ([], Threw("ReferenceError: data is not defined"))
    // create-gateway's success calls back with the error alone
    ensures reply.Replied? && c == CreateGateway && !ErrTruthy(reply.err) ==> r.1 == Replied(reply.err, PNone)
  {
    match reply
    case Threw(_) => ([], reply)
    case Silent => ([], reply)
    case Replied(err, data) =>
      if c == DebugCodebaseVersion then
        ([Rendering(DebugCodebaseVersionView, DebugData(data, err))], Replied(None, PNone))
      else if c == CreateGateway && ErrTruthy(err) then
        // the error message reads a variable the callback never declares
        ([], Threw("ReferenceError: data is not defined"))
      else if ErrTruthy(err) then
        ([Rendering(ErrorView, ErrorData(err, MessageOr(data, Fallback(c, argv))))],
         Replied(err, if PassesData(c) then data else PNone))
      else
        (SuccessRenderings(c, argv, data), Replied(err, if PassesData(c) then data else PNone))
  }

  /**
   * The options the commands forward: `--description` replaces the default
   * description of a new service, and `--rrname` and `--zone` are put on the
   * request only when given.
   */
  lemma OptionsForwarded(argv: Argv)
    ensures Prepare(CreateService, argv).Ask?
    ensures Given(argv.description) ==> Prepare(CreateService, argv).context.description == argv.description
    ensures !Given(argv.description) ==>
              Prepare(CreateService, argv).context.description == Some(Show(Arg(argv, 2)) + " - managed by BlueGreen")
    ensures Prepare(CreateGateway, argv).Ask? && Prepare(AttachGateway, argv).Ask?
    ensures Prepare(CreateGateway, argv).context.rrname == if Given(argv.rrname) then argv.rrname else None
    ensures Prepare(AttachGateway, argv).context.zone == if Given(argv.zone) then argv.zone else None
  {
  }

  // ---------------------------------------------------------------------
  // description
  // ---------------------------------------------------------------------

  datatype Description = Description(category: Option<string>, text: string, usage: string, options: seq<(string, string)>)

  function Describe(c: Command): (d: Description)
    // `show versions` is the one command listed under no category
    ensures d.category.None? <==> c == ShowVersions
    // the two commands that read `--zone` document it
    ensures d.options != [] <==> c == ListGateways || c == AttachGateway
    ensures d.text != "" && d.usage != ""
  {
    var zone := [("--zone", "Route53 Hosted Zone ID")];
    match c
    case ShowVersions => Description(None, "Show the versions available for a service", "<service> versions", [])
    case ListVersions => Description(Some("Versions"), "Show the versions available for a service", "<service> versions", [])
    case DeleteVersionCommand =>
      Description(Some("Versions"), "Delete a version of the service", "<service> delete version <version>", [])
    case CreateVersion =>
      Description(Some("Versions"), "Create a version of the service", "<service> create version <version>", [])
    case DeployVersion =>
      Description(Some("Versions"), "Create a version of the service", "<service> deploy <version> to <environment>", [])
    case CreateService => Description(Some("Services"), "Create a new service", "create service <service-name>", [])
    case ListServices => Description(Some("Services"), "Show all services managed by BlueGreen", "services", [])
    case ListEnvironments =>
      Description(Some("Environments"), "Show the existing environments for all services", "environments", [])
    case ListEnvironmentsForService =>
      Description(Some("Environments"), "Show the environments available for a service", "<service> environments", [])
    case ListGateways => Description(Some("Gateways"), "Show the existing Gateways for all services", "gateways", zone)
    case ListGatewaysForService =>
      Description(Some("Gateways"), "Show the Gateways for a specific service.", "<service> gateways", [])
    case CreateGateway => Description(Some("Gateways"), "Create a gateway for the service", "<service> create gateway <name>", [])
    case AttachGateway =>
      Description(Some("Gateways"), "Attach an environment to a gateway", "<service> attach <environment> to <gateway>", zone)
    case DebugCodebaseVersion =>
      Description(Some("Debug"), "Show the version that will be used on version creation.", "debug:codebase-version", [])
  }
}
