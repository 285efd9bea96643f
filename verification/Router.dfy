/** Routing: which backend serves a request, and at which URL (internal/proxy/router.go). */
module Router {
  import opened Wrappers
  import opened Latency
  import opened Balancer
  import opened Height

  datatype Backend = AppRPC | NodeRPC | NodeArchivalRPC | AppArchivalRPC | AppGRPC | AppP2P

  /** The configured endpoints of each backend. */
  datatype Config = Config(appRPC: seq<string>, nodeRPC: seq<string>, nodeArchivalRPC: seq<string>,
                           appArchivalRPC: seq<string>, appGRPC: seq<string>, appP2P: seq<string>)
  {
    function Pool(b: Backend): seq<string> {
      match b
      case AppRPC => appRPC
      case NodeRPC => nodeRPC
      case NodeArchivalRPC => nodeArchivalRPC
      case AppArchivalRPC => appArchivalRPC
      case AppGRPC => appGRPC
      case AppP2P => appP2P
    }

    /** Whether a backend has an archival counterpart with endpoints. */
    predicate HasArchival(b: Backend) {
      ArchivalOf(b) != b && Pool(ArchivalOf(b)) != []
    }
  }

  datatype Decision = Decision(backend: Backend, targetURL: string, rpc: string)

  datatype RouteError = InvalidJson | EmptyBatch | MissingMethod

  const DA_NAMESPACES: set<string> := {"blob", "header", "share", "das", "state", "p2p", "node"}

  /** The part of a method name before the first dot, all of it when there is none. */
  function Namespace(rpc: string): string {
    if rpc == "" || rpc[0] == '.' then "" else [rpc[0]] + Namespace(rpc[1..])
  }

  function ResolveBackend(rpc: string): Backend {
    if Namespace(rpc) in DA_NAMESPACES then NodeRPC else AppRPC
  }

  function ArchivalOf(b: Backend): Backend {
    match b
    case NodeRPC => NodeArchivalRPC
    case AppRPC => AppArchivalRPC
    case _ => b
  }

  /** The method a body is routed by: that of the request, or of the first entry of a batch. */
  function ParseMethod(body: Json): Result<string, RouteError> {
    match body
    case Malformed => Failure(InvalidJson)
    case Batch(methods) =>
      if methods == [] then Failure(EmptyBatch)
      else if methods[0] == "" then Failure(MissingMethod)
      else Success(methods[0])
    case Single(rpc, _) => if rpc == "" then Failure(MissingMethod) else Success(rpc)
  }

  /** A URL that TargetURL may give for a backend: one of its endpoints, or for an archival backend without
      endpoints one of the pruned backend's. */
  predicate Target(cfg: Config, b: Backend, url: string) {
    if cfg.Pool(b) != [] then url in cfg.Pool(b)
    else if b == NodeArchivalRPC && cfg.nodeRPC != [] then url in cfg.nodeRPC
    else if b == AppArchivalRPC && cfg.appRPC != [] then url in cfg.appRPC
    else url == ""
  }

  /** The backend for a non-empty body; `window` is 0 when there is no height tracker. */
  function RoutedBackend(rpc: string, body: Json, window: int, head: int): Backend {
    var b := ResolveBackend(rpc);
    if Archival(window, head, ExtractHeight(rpc, body)) then ArchivalOf(b) else b
  }

  /** What routing may decide for a request body. */
  predicate Decides(cfg: Config, decode: string -> Json, window: int, head: int, body: string, d: Decision) {
    && Target(cfg, d.backend, d.targetURL)
    && if body == "" then d.backend == AppRPC && d.rpc == ""
       else ParseMethod(decode(body)) == Success(d.rpc) && d.backend == RoutedBackend(d.rpc, decode(body), window, head)
  }

  /** The family of a backend that serves HTTP requests: its pruned member. */
  function FamilyOf(b: Backend): Backend {
    match b
    case NodeArchivalRPC => NodeRPC
    case AppArchivalRPC => AppRPC
    case _ => b
  }

  /** The backend whose endpoints serve b: an archival backend without endpoints borrows the pruned one's. */
  function Serving(cfg: Config, b: Backend): Backend {
    if cfg.Pool(b) != [] then b else FamilyOf(b)
  }

  /** Every request goes to one of the two HTTP families, and archival nodes only get heights behind the window. */
  lemma DecisionsStayInFamily(cfg: Config, decode: string -> Json, window: int, head: int, body: string, d: Decision)
    requires Decides(cfg, decode, window, head, body, d)
    ensures FamilyOf(d.backend) in {AppRPC, NodeRPC}
    ensures d.backend in {FamilyOf(d.backend), ArchivalOf(FamilyOf(d.backend))}
    ensures d.rpc != "" ==> FamilyOf(d.backend) == ResolveBackend(d.rpc)
    ensures d.backend == ArchivalOf(FamilyOf(d.backend)) <==>
              body != "" && Archival(window, head, ExtractHeight(d.rpc, decode(body)))
  {
  }

  /** One recorded latency, in milliseconds. */
  datatype Recording = Recording(backend: Backend, url: string, sample: real)

  /** The samples of a backend's endpoints after a sequence of recordings. */
  function Replay(cfg: Config, b: Backend, log: seq<Recording>): (h: Histories)
    ensures |h| == |cfg.Pool(b)|
  {
    if log == [] then Blank(|cfg.Pool(b)|)
    else
      var earlier, last := Replay(cfg, b, log[..|log| - 1]), log[|log| - 1];
      if last.backend == b then Recorded(cfg.Pool(b), earlier, last.url, last.sample) else earlier
  }

  lemma ReplayExtend(cfg: Config, b: Backend, log: seq<Recording>, r: Recording)
    ensures Replay(cfg, b, log + [r]) ==
              if r.backend == b then Recorded(cfg.Pool(b), Replay(cfg, b, log), r.url, r.sample)
              else Replay(cfg, b, log)
  {
    assert (log + [r])[..|log|] == log;
  }

  lemma ReplayOne(cfg: Config, log: seq<Recording>, r: Recording)
    ensures Replay(cfg, r.backend, log + [r]) ==
            Recorded(cfg.Pool(r.backend), Replay(cfg, r.backend, log), r.url, r.sample)
    ensures forall c: Backend :: c != r.backend ==> Replay(cfg, c, log + [r]) == Replay(cfg, c, log)
  {
    assert (log + [r])[..|log|] == log;
  }

  // Building the balancers, one backend after the other.

  ghost predicate BuiltOne(cfg: Config, m: map<Backend, Balancer>, owned: set<object>, b: Backend)
    requires b in m
    reads owned
  {
    && m[b] in owned && m[b].Repr <= owned && m[b].Valid()
    && m[b].endpoints == cfg.Pool(b) && m[b].View == Blank(|cfg.Pool(b)|)
  }

  ghost predicate Built(cfg: Config, m: map<Backend, Balancer>, owned: set<object>)
    reads owned
  {
    && (forall b {:trigger BuiltOne(cfg, m, owned, b)} :: b in m ==> BuiltOne(cfg, m, owned, b))
    && (forall b, c {:trigger Apart(m, b, c)} :: b in m && c in m && b != c ==> Apart(m, b, c))
  }

  /** Two balancers share no object. */
  ghost predicate Apart(m: map<Backend, Balancer>, b: Backend, c: Backend)
    requires b in m && c in m
  {
    m[b].Repr !! m[c].Repr
  }

  lemma OneBuilt(cfg: Config, m: map<Backend, Balancer>, owned: set<object>, b: Backend, balancer: Balancer)
    requires Built(cfg, m, owned) && b !in m
    requires balancer.Valid() && balancer.endpoints == cfg.Pool(b) && balancer.View == Blank(|cfg.Pool(b)|)
    requires balancer.Repr !! owned
    ensures Built(cfg, m[b := balancer], owned + balancer.Repr)
  {
    var m', owned' := m[b := balancer], owned + balancer.Repr;
    forall c | c in m'
      ensures BuiltOne(cfg, m', owned', c)
    {
      assert c != b ==> BuiltOne(cfg, m, owned, c);
    }
    forall c, d | c in m' && d in m' && c != d
      ensures Apart(m', c, d)
    {
      assert c != b ==> BuiltOne(cfg, m, owned, c);
      assert d != b ==> BuiltOne(cfg, m, owned, d);
      assert c != b && d != b ==> Apart(m, c, d);
    }
  }

  method BuildBalancers(cfg: Config) returns (m: map<Backend, Balancer>, ghost owned: set<object>)
    ensures Built(cfg, m, owned) && fresh(owned)
    ensures forall b: Backend :: b in m
  {
    m, owned := map[], {};
    for i := 0 to |BACKENDS|
      invariant Built(cfg, m, owned) && fresh(owned)
      invariant m.Keys == Firsts(i)
    {
      var balancer := new Balancer(cfg.Pool(BACKENDS[i]));
      OneBuilt(cfg, m, owned, BACKENDS[i], balancer);
      m, owned := m[BACKENDS[i] := balancer], owned + balancer.Repr;
    }
    AllListed();
  }

  const BACKENDS := [AppRPC, NodeRPC, NodeArchivalRPC, AppArchivalRPC, AppGRPC, AppP2P]

  function Firsts(n: nat): (s: set<Backend>)
    requires n <= |BACKENDS|
    ensures forall j :: n <= j < |BACKENDS| ==> BACKENDS[j] !in s
  {
    if n == 0 then {} else Firsts(n - 1) + {BACKENDS[n - 1]}
  }

  function Position(b: Backend): (k: nat)
    ensures k < |BACKENDS| && BACKENDS[k] == b
  {
    match b
    case AppRPC => 0
    case NodeRPC => 1
    case NodeArchivalRPC => 2
    case AppArchivalRPC => 3
    case AppGRPC => 4
    case AppP2P => 5
  }

  lemma {:induction false} ListedAt(k: nat, n: nat)
    requires k < n <= |BACKENDS|
    ensures BACKENDS[k] in Firsts(n)
  {
    if k < n - 1 {
      ListedAt(k, n - 1);
    }
  }

  lemma AllListed()
    ensures forall b: Backend :: b in Firsts(|BACKENDS|)
  {
    forall b: Backend
      ensures b in Firsts(|BACKENDS|)
    {
      ListedAt(Position(b), |BACKENDS|);
    }
  }

  /** A router for a configuration; nothing has been recorded yet. */
  method NewRouter(cfg: Config, pruningWindow: int) returns (r: Router)
    ensures fresh(r) && r.Valid() && fresh(r.Repr) && r.cfg == cfg
    ensures r.Window() == pruningWindow && r.Head() == 0
    ensures r.log == []
  {
    var tracker := new HeightTracker(pruningWindow);
    var m, owned := BuildBalancers(cfg);
    r := new Router(cfg, m, owned, tracker);
  }

  class Router {
    const cfg: Config
    const balancers: map<Backend, Balancer>
    const heightTracker: HeightTracker?
    /** The balancers and their averages. */
    ghost const Repr: set<object>
    /** Everything recorded so far. */
    ghost var log: seq<Recording>

    ghost predicate Valid()
      reads this, Repr
    {
      Separate() && forall b: Backend {:trigger Shown(b)} :: Shown(b)
    }

    /** b has its own balancer, over its configured endpoints. */
    ghost predicate Owns(b: Backend) {
      && b in balancers && balancers[b] in Repr && balancers[b].Repr <= Repr
      && balancers[b].endpoints == cfg.Pool(b)
    }

    /** The balancer of b holds what has been recorded for b. */
    ghost predicate Shown(b: Backend)
      reads this, Repr
    {
      Owns(b) && balancers[b].Valid() && balancers[b].View == Replay(cfg, b, log)
    }

    /** No two backends share an object. */
    ghost predicate Separate() {
      && this !in Repr && (heightTracker != null ==> heightTracker !in Repr)
      && (forall b, c: Backend {:trigger Distinct(b, c)} :: b != c ==> Distinct(b, c))
    }

    ghost predicate Distinct(b: Backend, c: Backend) {
      b in balancers && c in balancers && balancers[b].Repr !! balancers[c].Repr
    }

    ghost function Window(): int {
      if heightTracker == null then 0 else heightTracker.pruningWindow
    }

    ghost function Head(): int
      reads heightTracker
    {
      if heightTracker == null then 0 else heightTracker.headHeight
    }

    constructor (cfg: Config, m: map<Backend, Balancer>, ghost owned: set<object>, tracker: HeightTracker?)
      requires Built(cfg, m, owned) && (forall b: Backend :: b in m)
      requires tracker != null ==> tracker !in owned
      ensures Valid() && Repr == owned && this.cfg == cfg && heightTracker == tracker
      ensures log == []
    {
      this.cfg, this.heightTracker, this.balancers, this.Repr := cfg, tracker, m, owned;
      this.log := [];
      new;
      forall b: Backend
        ensures Shown(b)
      {
        assert BuiltOne(cfg, m, owned, b);
      }
      forall b, c: Backend | b != c
        ensures Distinct(b, c)
      {
        assert Apart(m, b, c);
      }
    }

    /** When only the objects of one balancer have changed, and it still shows the log, so do the others. */
    twostate lemma StillValid(changed: Backend)
      requires old(Valid()) && Shown(changed)
      requires forall c: Backend :: c != changed ==> Replay(cfg, c, log) == Replay(cfg, c, old(log))
      requires forall o :: o in Repr && changed in balancers && o !in balancers[changed].Repr ==> unchanged(o)
      ensures Valid()
    {
      forall c: Backend
        ensures Shown(c)
      {
        assert old(Shown(c));
        if c != changed {
          assert Distinct(c, changed);
          assert forall o :: o in balancers[c].Repr ==> o in Repr && o !in balancers[changed].Repr;
        }
      }
    }

    method TargetURL(backend: Backend, draw: Draw) returns (url: string)
      requires Valid()
      modifies Repr
      ensures Valid()
      ensures Target(cfg, backend, url)
      ensures var b := Serving(cfg, backend);
              && b in balancers
              && (|cfg.Pool(b)| > 1 ==>
                    exists i :: 0 <= i < |cfg.Pool(b)| && url == cfg.Pool(b)[i] &&
                                Chosen(Replay(cfg, b, log), old(balancers[b].counter), draw, i))
      decreases if FamilyOf(backend) != backend then 1 else 0
    {
      assert Shown(backend) && Shown(Serving(cfg, backend));
      if |balancers[backend].endpoints| > 0 {
        url := balancers[backend].Next(draw);
        StillValid(backend);
      } else {
        match backend
        case NodeArchivalRPC => url := TargetURL(NodeRPC, draw);
        case AppArchivalRPC => url := TargetURL(AppRPC, draw);
        case _ => url := "";
      }
    }

    method RecordLatency(backend: Backend, endpoint: string, ns: int)
      requires Valid()
      modifies this, Repr
      ensures Valid()
      ensures log == old(log) + [Recording(backend, endpoint, Millis(ns))]
    {
      assert Shown(backend);
      balancers[backend].RecordLatency(endpoint, ns);
      ghost var r := Recording(backend, endpoint, Millis(ns));
      ReplayOne(cfg, log, r);
      log := log + [r];
      assert Shown(backend);
      StillValid(backend);
    }

    /** Routes by method, and to the archival node when the body asks for a height behind the pruning window. */
    method Route(body: string, decode: string -> Json, draw: Draw) returns (r: Result<Decision, RouteError>)
      requires Valid()
      modifies Repr
      ensures Valid()
      ensures r.Success? ==> Decides(cfg, decode, Window(), Head(), body, r.value)
      ensures r.Failure? <==> body != "" && ParseMethod(decode(body)).Failure?
    {
      if body == "" {
        var url := TargetURL(AppRPC, draw);
        return Success(Decision(AppRPC, url, ""));
      }
      var parsed := ParseMethod(decode(body));
      if parsed.Failure? {
        return Failure(parsed.error);
      }
      var rpc := parsed.value;
      var backend := ResolveBackend(rpc);
      if heightTracker != null && heightTracker.pruningWindow > 0 {
        var archival := heightTracker.IsArchival(ExtractHeight(rpc, decode(body)));
        if archival {
          backend := ArchivalOf(backend);
        }
      }
      var url := TargetURL(backend, draw);
      return Success(Decision(backend, url, rpc));
    }
  }
}
