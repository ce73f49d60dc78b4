/**
 * The Elastic Load Balancer gateway strategy: load balancers named
 * `bluegreen-<service>-<gateway>` are BlueGreen's gateways. The list of load
 * balancers is an input.
 */
module Elb {
  import opened Wrappers
  import opened Model
  import Text

  /** A load balancer as `describeLoadBalancers` lists it. */
  datatype LoadBalancer = LoadBalancer(name: string, dnsName: string)

  /** The two groups of a managed load balancer's name. */
  datatype LbName = LbName(service: string, gateway: string)

  const Marker := "bluegreen-"

  /** The class `[a-zA-Z0-9\-._]` of both groups. */
  predicate IsNameChar(c: char) {
    Text.IsWordChar(c) || c == '.'
  }

  predicate AllNameChars(s: string) {
    forall i :: 0 <= i < |s| ==> IsNameChar(s[i])
  }

  /** The `-` at `k` separates two non-empty groups of `rest`. */
  predicate SplitsAt(rest: string, k: int) {
    1 <= k <= |rest| - 2 && rest[k] == '-'
  }

  /** The largest split point not above `hi`, or 0 when there is none. */
  function LastSplit(rest: string, hi: int): (r: int)
    requires hi <= |rest| - 2
    ensures r == 0 || (SplitsAt(rest, r) && r <= hi)
    ensures forall k :: r < k <= hi ==> !SplitsAt(rest, k)
    decreases hi
  {
    if hi < 1 then 0 else if rest[hi] == '-' then hi else LastSplit(rest, hi - 1)
  }

  /**
   * `parseLoadBalancerName`: the name matches
   * `^bluegreen-([a-zA-Z0-9\-._]+)-([a-zA-Z0-9\-._]+)$`; the first group is
   * greedy, so the groups split at the last `-` that leaves a non-empty
   * second group.
   */
  function ParseLoadBalancerName(name: string): (r: Option<LbName>)
    ensures r.Some? ==> r.value.service != "" && r.value.gateway != ""
                        && name == Marker + r.value.service + "-" + r.value.gateway
    // greedy: a `-` in the gateway can only be its last character
    ensures r.Some? ==> forall j :: 0 <= j < |r.value.gateway| - 1 ==> r.value.gateway[j] != '-'
  {
    if !Text.StartsWith(name, Marker) then None
    else
      var rest := name[|Marker|..];
      if !AllNameChars(rest) || |rest| < 3 then None
      else
        var k := LastSplit(rest, |rest| - 2);
        if k == 0 then None
        else
          var service, gateway := rest[..k], rest[k + 1..];
          assert rest == service + "-" + gateway;
          assert name == Marker + rest;
          forall j | 0 <= j < |gateway| - 1
            ensures gateway[j] != '-'
          {
            assert !SplitsAt(rest, k + 1 + j);
          }
          Some(LbName(service, gateway))
  }

  /**
   * The names that parse are exactly those made of the marker and a run of
   * the class that a `-` splits into two non-empty groups.
   */
  lemma ParseAccepts(name: string)
    ensures ParseLoadBalancerName(name).Some? <==>
              Text.StartsWith(name, Marker) && AllNameChars(name[|Marker|..])
              && exists k :: SplitsAt(name[|Marker|..], k)
  {
    if Text.StartsWith(name, Marker) && AllNameChars(name[|Marker|..]) {
      var rest := name[|Marker|..];
      if exists k :: SplitsAt(rest, k) {
        var k :| SplitsAt(rest, k);
        assert LastSplit(rest, |rest| - 2) != 0;
      }
    }
  }

  /**
   * A name built from a service and a gateway without `-` parses back to
   * them.
   */
  lemma ParseBuiltName(service: string, gateway: string)
    requires service != "" && gateway != ""
    requires AllNameChars(service) && AllNameChars(gateway)
    requires forall j :: 0 <= j < |gateway| ==> gateway[j] != '-'
    ensures ParseLoadBalancerName(Marker + service + "-" + gateway) == Some(LbName(service, gateway))
  {
    var name := Marker + service + "-" + gateway;
    var rest := service + "-" + gateway;
    assert name == Marker + rest;
    assert name[..|Marker|] == Marker && name[|Marker|..] == rest;
    NameCharsJoin(service, gateway);
    LastSplitOfBuilt(service, gateway);
    ParseSplits(name, |service|);
    assert rest[..|service|] == service && rest[|service| + 1..] == gateway;
  }

  /** Two groups of name characters joined by `-` are name characters. */
  lemma NameCharsJoin(a: string, b: string)
    requires AllNameChars(a) && AllNameChars(b)
    ensures AllNameChars(a + "-" + b)
  {
    var s := a + "-" + b;
    forall i | 0 <= i < |s| ensures IsNameChar(s[i]) {
      if i < |a| { assert s[i] == a[i]; }
      else if i > |a| { assert s[i] == b[i - |a| - 1]; }
    }
  }

  /** In `service-gateway` with a dash-free gateway, the last split is the joining `-`. */
  lemma LastSplitOfBuilt(service: string, gateway: string)
    requires service != "" && gateway != ""
    requires forall j :: 0 <= j < |gateway| ==> gateway[j] != '-'
    ensures LastSplit(service + "-" + gateway, |service + "-" + gateway| - 2) == |service|
  {
    var rest := service + "-" + gateway;
    assert SplitsAt(rest, |service|);
    forall j | |service| < j <= |rest| - 2
      ensures !SplitsAt(rest, j)
    {
      assert rest[j] == gateway[j - |service| - 1];
    }
  }

  /** A marked name of name characters whose last split is `k` parses into the groups around `k`. */
  lemma ParseSplits(name: string, k: int)
    requires Text.StartsWith(name, Marker)
    requires AllNameChars(name[|Marker|..]) && |name[|Marker|..]| >= 3
    requires k != 0 && LastSplit(name[|Marker|..], |name[|Marker|..]| - 2) == k
    ensures ParseLoadBalancerName(name) == Some(LbName(name[|Marker|..][..k], name[|Marker|..][k + 1..]))
  {
  }

  /**
   * A gateway name that itself holds a `-` is not recovered: its first part
   * is read as part of the service.
   */
  lemma DashedGatewayMisread(service: string, a: string, b: string)
    requires service != "" && a != "" && b != ""
    requires AllNameChars(service) && AllNameChars(a) && AllNameChars(b)
    requires forall j :: 0 <= j < |b| ==> b[j] != '-'
    ensures ParseLoadBalancerName(Marker + service + "-" + (a + "-" + b)) == Some(LbName(service + "-" + a, b))
  {
    var s := service + "-" + a;
    assert AllNameChars(s) by {
      forall i | 0 <= i < |s| ensures IsNameChar(s[i]) {
        if i < |service| { assert s[i] == service[i]; }
        else if i > |service| { assert s[i] == a[i - |service| - 1]; }
      }
    }
    assert Marker + service + "-" + (a + "-" + b) == Marker + s + "-" + b;
    ParseBuiltName(s, b);
  }

  /**
   * `transformGateway`: the service and name come from the parsed name; the
   * parse never sets `DNSName`, so that field is always `undefined`. A name
   * that does not parse makes it throw (`None`).
   */
  function TransformGateway(lb: LoadBalancer): (r: Option<LbGateway>)
    ensures r.Some? <==> ParseLoadBalancerName(lb.name).Some?
    ensures r.Some? ==> lb.name == Marker + r.value.service + "-" + r.value.name && r.value.dnsName == None
  {
    match ParseLoadBalancerName(lb.name)
    case None => None
    case Some(n) => Some(LbGateway(n.service, n.gateway, None))
  }

  /** The filter of `listGateways`: a managed name, of the context's service when one is given. */
  predicate Keep(ctx: Context, lb: LoadBalancer) {
    match ParseLoadBalancerName(lb.name)
    case None => false
    case Some(n) => !Given(ctx.service) || n.service == ctx.service.value
  }

  /** `_.filter(loadBalancers, keep)`, in their listed order. */
  function Managed(ctx: Context, lbs: seq<LoadBalancer>): (r: seq<LoadBalancer>)
    ensures |r| <= |lbs|
    ensures forall lb :: lb in r <==> lb in lbs && Keep(ctx, lb)
  {
    if lbs == [] then []
    else
      var rest := Managed(ctx, lbs[1..]);
      assert forall lb :: lb in lbs <==> lb == lbs[0] || lb in lbs[1..];
      if Keep(ctx, lbs[0]) then [lbs[0]] + rest else rest
  }

  /**
   * The filter keeps the listed order: filtering two lists one after the
   * other is filtering each, and a single load balancer is kept exactly when
   * `keep` holds.
   */
  lemma {:induction false} ManagedAppend(ctx: Context, xs: seq<LoadBalancer>, ys: seq<LoadBalancer>)
    ensures Managed(ctx, xs + ys) == Managed(ctx, xs) + Managed(ctx, ys)
  {
    if xs == [] {
      assert xs + ys == ys;
    } else {
      assert (xs + ys)[0] == xs[0] && (xs + ys)[1..] == xs[1..] + ys;
      ManagedAppend(ctx, xs[1..], ys);
    }
  }

  /** A single load balancer is kept exactly when it passes the test. */
  lemma ManagedSingle(ctx: Context, lb: LoadBalancer)
    ensures Managed(ctx, [lb]) == if Keep(ctx, lb) then [lb] else []
  {
    assert [lb][1..] == [];
  }

  /** `_.map(managed, transformGateway)` over load balancers whose names all parse. */
  function Gateways(lbs: seq<LoadBalancer>): (r: seq<LbGateway>)
    requires forall i :: 0 <= i < |lbs| ==> ParseLoadBalancerName(lbs[i].name).Some?
    ensures |r| == |lbs|
    ensures forall i :: 0 <= i < |r| ==> Some(r[i]) == TransformGateway(lbs[i])
  {
    seq(|lbs|, i requires 0 <= i < |lbs| && ParseLoadBalancerName(lbs[i].name).Some? => TransformGateway(lbs[i]).value)
  }

  const ListFailed := "Could not retrieve list of Gateways from AWS."

  /** `listGateways`: the provider's error, or the gateways of the managed load balancers. */
  function ListGateways(ctx: Context, listed: Fetched<seq<LoadBalancer>>): (r: Reply)
    ensures listed.FetchError? ==> r == Replied(Some(listed.err), PText(ListFailed))
    ensures listed.Fetched? ==> r.Replied? && r.err == None && r.data.PLoadBalancers?
  {
    match listed
    case FetchError(e) => Replied(Some(e), PText(ListFailed))
    case Fetched(lbs) =>
      var managed := Managed(ctx, lbs);
      assert forall i :: 0 <= i < |managed| ==> managed[i] in managed;
      Replied(None, PLoadBalancers(Gateways(managed)))
  }

  /**
   * Each listed gateway is that of a managed load balancer of the provider's
   * list, and of the context's service when one is given.
   */
  lemma ListedAreManaged(ctx: Context, lbs: seq<LoadBalancer>, i: nat)
    requires i < |ListGateways(ctx, Fetched(lbs)).data.balancers|
    ensures var lb := Managed(ctx, lbs)[i];
            var g := ListGateways(ctx, Fetched(lbs)).data.balancers[i];
            lb in lbs && Keep(ctx, lb) && TransformGateway(lb) == Some(g)
            && (Given(ctx.service) ==> g.service == ctx.service.value)
  {
    var managed := Managed(ctx, lbs);
    assert forall j :: 0 <= j < |managed| ==> managed[j] in managed;
    assert ListGateways(ctx, Fetched(lbs)).data.balancers == Gateways(managed);
    var lb := managed[i];
    assert lb in managed;
  }

  /** Every managed load balancer of the provider's list (of the context's service) is listed. */
  lemma ManagedAreListed(ctx: Context, lbs: seq<LoadBalancer>, lb: LoadBalancer)
    requires lb in lbs && Keep(ctx, lb)
    ensures TransformGateway(lb).Some? && TransformGateway(lb).value in ListGateways(ctx, Fetched(lbs)).data.balancers
  {
    var managed := Managed(ctx, lbs);
    assert forall j :: 0 <= j < |managed| ==> managed[j] in managed;
    assert ListGateways(ctx, Fetched(lbs)).data.balancers == Gateways(managed);
    assert lb in managed;
    var i :| 0 <= i < |managed| && managed[i] == lb;
    assert Gateways(managed)[i] == TransformGateway(lb).value;
  }

  /** `register`: gateway creation, then the gateway listing. */
  function Registrations(): (r: seq<Binding>)
    ensures |r| == 2 && r[0].request == GatewayCreate && r[1].request == GatewayList
  {
    [ Binding(GatewayCreate, Handler("elb-gateway", "createGatewayForService")),
      Binding(GatewayList, Handler("elb-gateway", "listGateways")) ]
  }

  /** `createGatewayForService` has an empty body: it never calls back. */
  function CreateGatewayForService(ctx: Context): (r: Reply)
    ensures r == Silent
  {
    Silent
  }
}
