/** The proxy handler: cache, retry and archival fallback (internal/proxy/handler.go). The HTTP client, URL parsing
    and JSON decoding are parameters; replies are a status and a body. */
module Handler {
  import opened Wrappers
  import opened Text
  import opened Latency
  import opened Balancer
  import opened Height
  import opened Router
  import opened ResponseCache

  datatype Reply = Reply(status: int, body: string)

  /** What the reverse proxy answers in place of a backend that it cannot reach. */
  const UNAVAILABLE := Reply(502, "{\"error\":\"backend unavailable\"}")

  /** `parse` gives the printed form of a URL that parses, `errorOf` the text of the "error" member of a JSON body. */
  datatype Codec = Codec(parse: string -> Option<string>, decode: string -> Json, errorOf: string -> Option<string>)

  /** The backends during one request: the answer to its k-th attempt, sent to a parsed URL, None when that cannot be
      reached, and the attempt's duration in nanoseconds. */
  datatype Net = Net(answer: (nat, string) -> Option<Reply>, took: nat -> int)

  function ReplyTo(net: Net, k: nat, target: string): Reply {
    match net.answer(k, target) case None => UNAVAILABLE case Some(r) => r
  }

  const PRUNED_PHRASES: seq<string> := [
    "is not available", "block not found", "header not found", "lowest height is",
    "height must be less than or equal", "could not find results"
  ]

  /** Whether a reply says that the node no longer has the block. */
  predicate IsPruned(errorOf: string -> Option<string>, r: Reply) {
    && (r.status == 200 || r.status == 500) && r.body != ""
    && match errorOf(r.body)
       case None => false
       case Some(e) => e != "" && e != "null" && exists p :: p in PRUNED_PHRASES && Contains(ToLower(e), p)
  }

  /** One attempt: the pool it is made for, the configured URL and the parsed one. */
  datatype Attempt = Attempt(backend: Backend, url: string, target: string)

  /** Going on to one more URL of a pool: the URL to skip, and one that does not parse, are passed over. */
  function Advance(tried: seq<Attempt>, parse: string -> Option<string>, b: Backend, url: string,
                   skip: Option<string>): seq<Attempt> {
    if skip == Some(url) || parse(url).None? then tried else tried + [Attempt(b, url, parse(url).value)]
  }

  /** The attempts in `before` and then those for the first i URLs of a pool, in order. */
  function Through(before: seq<Attempt>, parse: string -> Option<string>, b: Backend, pool: seq<string>,
                   skip: Option<string>, i: nat): seq<Attempt>
    requires i <= |pool|
  {
    if i == 0 then before
    else Advance(Through(before, parse, b, pool, skip, i - 1), parse, b, pool[i - 1], skip)
  }

  function Primary(d: Decision, target: string): Attempt {
    Attempt(d.backend, d.targetURL, target)
  }

  predicate CanRetry(cfg: Config, b: Backend, height: int) {
    height > 0 && (|cfg.Pool(b)| > 1 || cfg.HasArchival(b))
  }

  /** The routed URL and the rest of its pool. */
  function OwnPool(cfg: Config, parse: string -> Option<string>, d: Decision, target: string): seq<Attempt> {
    Through([Primary(d, target)], parse, d.backend, cfg.Pool(d.backend), Some(target), |cfg.Pool(d.backend)|)
  }

  /** Everything the handler is ready to try, in order: the routed URL, then for a request at a known height the rest
      of its pool and the archival pool. */
  function Plan(cfg: Config, parse: string -> Option<string>, d: Decision, target: string, height: int): seq<Attempt> {
    if !CanRetry(cfg, d.backend, height) then [Primary(d, target)]
    else
      var own := OwnPool(cfg, parse, d, target);
      if !cfg.HasArchival(d.backend) then own
      else
        var archival := ArchivalOf(d.backend);
        Through(own, parse, archival, cfg.Pool(archival), None, |cfg.Pool(archival)|)
  }

  predicate PrunedAt(c: Codec, net: Net, tried: seq<Attempt>, k: nat)
    requires k < |tried|
  {
    IsPruned(c.errorOf, ReplyTo(net, k, tried[k].target))
  }

  /** The reply to the last attempt. */
  function LastReply(net: Net, tried: seq<Attempt>): Reply
    requires tried != []
  {
    ReplyTo(net, |tried| - 1, tried[|tried| - 1].target)
  }

  /** How many replies come before the first that is not pruned. */
  function LeadingPruned(c: Codec, net: Net, tried: seq<Attempt>): (n: nat)
    ensures n <= |tried|
  {
    if tried == [] then 0
    else
      var last := |tried| - 1;
      var n := LeadingPruned(c, net, tried[..last]);
      if n == last && PrunedAt(c, net, tried, last) then last + 1 else n
  }

  /** All replies are pruned, up to the last one if that is an answer, which then comes from b. */
  ghost predicate Ends(c: Codec, net: Net, tried: seq<Attempt>, answered: bool, b: Backend) {
    && LeadingPruned(c, net, tried) == (if answered then |tried| - 1 else |tried|)
    && (answered ==> tried[|tried| - 1].backend == b)
  }

  /** `tried` is a search of the plan that stops at the first reply that is not pruned. */
  ghost predicate Searched(c: Codec, net: Net, plan: seq<Attempt>, tried: seq<Attempt>) {
    && tried != [] && tried <= plan
    && (forall k :: 0 <= k < |tried| - 1 ==> PrunedAt(c, net, tried, k))
    && (PrunedAt(c, net, tried, |tried| - 1) ==> tried == plan)
  }

  /** The same, counting replies. */
  ghost predicate Stopped(c: Codec, net: Net, plan: seq<Attempt>, tried: seq<Attempt>) {
    && tried != [] && tried <= plan && |tried| - 1 <= LeadingPruned(c, net, tried)
    && (LeadingPruned(c, net, tried) == |tried| ==> tried == plan)
  }

  /** `Rejected` is an error page; `Relayed` a backend's reply, its `header` naming a backend, `stored` when it was
      offered to the cache. */
  datatype Response =
    | Rejected(status: int)
    | Hit(backend: Backend, body: string)
    | Relayed(reply: Reply, header: Option<Backend>, stored: bool)

  /** The backend that the response header names. */
  function Label(cfg: Config, c: Codec, net: Net, d: Decision, height: int, tried: seq<Attempt>): Option<Backend>
    requires tried != []
  {
    var last := |tried| - 1;
    if !CanRetry(cfg, d.backend, height) then
      if net.answer(0, tried[last].target).Some? then Some(d.backend) else None
    else if PrunedAt(c, net, tried, last) then Some(d.backend)
    else Some(tried[last].backend)
  }

  /** What the handler does with a routed request that the cache could not answer. */
  ghost predicate Serves(cfg: Config, c: Codec, net: Net, d: Decision, target: string, height: int, tried: seq<Attempt>,
                         resp: Response) {
    && Searched(c, net, Plan(cfg, c.parse, d, target, height), tried)
    && resp.Relayed?
    && resp.reply == LastReply(net, tried)
    && resp.header == Label(cfg, c, net, d, height, tried)
    && resp.stored == (IsCacheable(d.rpc, height) && Storable(c.errorOf, resp.reply))
  }

  predicate Storable(errorOf: string -> Option<string>, r: Reply) {
    r.status == 200 && !IsPruned(errorOf, r)
  }

  /** A backend's reply and the request it answered. */
  datatype Exchange = Exchange(rpc: string, height: int, body: string, reply: Reply)

  /** The exchange that a cache entry comes from. */
  predicate Origin(errorOf: string -> Option<string>, digest: string -> string, key: string, response: string,
                   e: Exchange) {
    && Key(digest, e.rpc, e.height, e.body) == key && e.reply.body == response
    && Storable(errorOf, e.reply) && IsCacheable(e.rpc, e.height) && Int64(e.height)
  }

  /** Every cache entry comes from an exchange with a backend. */
  ghost predicate CacheSound(errorOf: string -> Option<string>, digest: string -> string, entries: map<string, Entry>,
                             exchanges: seq<Exchange>) {
    forall k :: k in entries ==> exists e :: e in exchanges && Origin(errorOf, digest, k, entries[k].response, e)
  }

  /** The exchange answers a request: same method, height and body digest, and this response. */
  predicate Answers(errorOf: string -> Option<string>, digest: string -> string, e: Exchange, rpc: string, height: int,
                    body: string, response: string) {
    && e.rpc == rpc && e.height == height && digest(e.body) == digest(body)
    && e.reply.body == response && Storable(errorOf, e.reply) && IsCacheable(rpc, height)
  }

  /** A cache entry under a request's key comes from an exchange for that very request. */
  lemma HitHasOrigin(errorOf: string -> Option<string>, digest: string -> string, entries: map<string, Entry>,
                     exchanges: seq<Exchange>, rpc: string, height: int, body: string)
    requires CacheSound(errorOf, digest, entries, exchanges)
    requires forall x :: ':' !in digest(x)
    requires Int64(height) && Key(digest, rpc, height, body) in entries
    ensures var response := entries[Key(digest, rpc, height, body)].response;
            exists e :: e in exchanges && Answers(errorOf, digest, e, rpc, height, body, response)
  {
    var key := Key(digest, rpc, height, body);
    var e :| e in exchanges && Origin(errorOf, digest, key, entries[key].response, e);
    KeyIsInjective(digest, rpc, height, body, e.rpc, e.height, e.body);
    assert Answers(errorOf, digest, e, rpc, height, body, entries[key].response);
  }

  /** The latencies that a sequence of attempts records, under the configured URLs. */
  function Recordings(net: Net, tried: seq<Attempt>): (r: seq<Recording>)
    ensures |r| == |tried|
    ensures forall k :: 0 <= k < |r| ==> r[k] == Recording(tried[k].backend, tried[k].url, Millis(net.took(k)))
  {
    seq(|tried|, k requires 0 <= k < |tried| => Recording(tried[k].backend, tried[k].url, Millis(net.took(k))))
  }

  /** The exchanges that a sequence of attempts makes. */
  function Exchanges(net: Net, rpc: string, height: int, body: string, tried: seq<Attempt>): (r: seq<Exchange>)
    ensures |r| == |tried|
    ensures forall k :: 0 <= k < |r| ==> r[k] == Exchange(rpc, height, body, ReplyTo(net, k, tried[k].target))
  {
    seq(|tried|, k requires 0 <= k < |tried| => Exchange(rpc, height, body, ReplyTo(net, k, tried[k].target)))
  }

  /** A request as it arrives: whether its body can be read, the body, the "height" query parameter, and the methods
      that its token may call. */
  datatype Incoming = Incoming(readable: bool, body: string, query: string, allowed: string -> bool)

  /** The cache server and the clock during one request. */
  datatype CacheEnv = CacheEnv(now: int, getReachable: bool, storedAt: int, setReachable: bool)

  class Handler {
    const router: Router
    const cache: RedisCache?
    const maxBodySize: int
    const codec: Codec
    /** Every exchange with a backend so far. */
    ghost var exchanges: seq<Exchange>

    ghost predicate Ready()
      reads this, router, router.Repr
    {
      router.Valid() && this !in router.Repr
    }

    ghost predicate Valid()
      reads this, router, router.Repr, cache
    {
      && Ready()
      && (cache != null ==>
            && cache !in router.Repr
            && (forall x :: ':' !in cache.digest(x))
            && CacheSound(codec.errorOf, cache.digest, cache.entries, exchanges))
    }

    ghost function Entries(): map<string, Entry>
      reads cache
    {
      if cache == null then map[] else cache.entries
    }

    /** The unexpired cache entry for a request, if there is one and the cache server can be reached. */
    ghost function Cached(rpc: string, height: int, body: string, env: CacheEnv): Option<string>
      reads cache
    {
      if !IsCacheable(rpc, height) || cache == null || !env.getReachable then None
      else Found(cache.entries, Key(cache.digest, rpc, height, body), env.now)
    }

    /** The cache holds what it held before, and the reply if it was offered. */
    ghost predicate CacheKeeps(before: map<string, Entry>, rpc: string, height: int, body: string, resp: Response,
                               env: CacheEnv)
      reads cache
    {
      cache != null ==>
        cache.entries == if resp.Relayed? && resp.stored
                         then cache.AfterSet(before, rpc, height, body, resp.reply.body, env.storedAt, env.setReachable)
                         else before
    }

    constructor (router: Router, maxBodySize: int, codec: Codec, cache: RedisCache?)
      requires router.Valid()
      requires cache != null ==> cache !in router.Repr && cache.entries == map[] && forall x :: ':' !in cache.digest(x)
      ensures Valid() && this.router == router && this.cache == cache && exchanges == []
    {
      this.router, this.maxBodySize, this.codec, this.cache, this.exchanges := router, maxBodySize, codec, cache, [];
    }

    /** Sends the request to one endpoint and records its latency under the configured URL. */
    method TryEndpoint(net: Net, k: nat, a: Attempt, rpc: string, height: int, body: string) returns (reply: Reply)
      requires Ready()
      modifies this, router, router.Repr
      ensures Ready() && reply == ReplyTo(net, k, a.target)
      ensures exchanges == old(exchanges) + [Exchange(rpc, height, body, reply)]
      ensures router.log == old(router.log) + [Recording(a.backend, a.url, Millis(net.took(k)))]
    {
      reply := ReplyTo(net, k, a.target);
      router.RecordLatency(a.backend, a.url, net.took(k));
      exchanges := exchanges + [Exchange(rpc, height, body, reply)];
    }

    /** Answers with a reply that some backend has given to this request, and offers it to the cache. */
    method Flush(reply: Reply, header: Option<Backend>, rpc: string, height: int, body: string, shouldCache: bool,
                 env: CacheEnv)
        returns (resp: Response)
      requires Valid() && Int64(height) && shouldCache == IsCacheable(rpc, height)
      requires Exchange(rpc, height, body, reply) in exchanges
      modifies cache
      ensures Valid()
      ensures resp == Relayed(reply, header, shouldCache && Storable(codec.errorOf, reply))
      ensures CacheKeeps(old(Entries()), rpc, height, body, resp, env)
    {
      if shouldCache && reply.status == 200 && !IsPruned(codec.errorOf, reply) {
        if cache != null {
          ghost var key := Key(cache.digest, rpc, height, body);
          assert Origin(codec.errorOf, cache.digest, key, reply.body, Exchange(rpc, height, body, reply));
          cache.Set(rpc, height, body, reply.body, env.storedAt, env.setReachable);
        }
        return Relayed(reply, header, true);
      }
      return Relayed(reply, header, false);
    }

    /** One more attempt after those in `before`. */
    method TryNext(net: Net, before: seq<Attempt>, a: Attempt, rpc: string, height: int, body: string,
                   ghost past: seq<Recording>, ghost log: seq<Exchange>) returns (tried: seq<Attempt>, reply: Reply)
      requires Ready()
      requires Progress(net, before, rpc, height, body, past, log) && LeadingPruned(codec, net, before) == |before|
      modifies this, router, router.Repr
      ensures Ready() && Progress(net, tried, rpc, height, body, past, log)
      ensures tried == before + [a] && reply == LastReply(net, tried)
      ensures LeadingPruned(codec, net, tried) == |before| + if IsPruned(codec.errorOf, reply) then 1 else 0
    {
      reply := TryEndpoint(net, |before|, a, rpc, height, body);
      tried := before + [a];
      RecordingsExtend(net, before, a, past);
      ExchangesExtend(net, rpc, height, body, before, a, log);
      PrunedExtend(codec, net, before, a);
    }

    /** Tries one URL of a pool, unless it is the one to skip or does not parse. */
    method TryURL(net: Net, before: seq<Attempt>, b: Backend, url: string, skip: Option<string>, rpc: string,
                  height: int, body: string, ghost past: seq<Recording>,
                  ghost log: seq<Exchange>) returns (tried: seq<Attempt>, answered: bool)
      requires Ready()
      requires Progress(net, before, rpc, height, body, past, log) && LeadingPruned(codec, net, before) == |before|
      modifies this, router, router.Repr
      ensures Ready() && Progress(net, tried, rpc, height, body, past, log)
      ensures tried == Advance(before, codec.parse, b, url, skip)
      ensures Ends(codec, net, tried, answered, b)
    {
      if skip == Some(url) {
        return before, false;
      }
      var target := codec.parse(url);
      if target.None? {
        return before, false;
      }
      var reply: Reply;
      tried, reply := TryNext(net, before, Attempt(b, url, target.value), rpc, height, body, past, log);
      answered := !IsPruned(codec.errorOf, reply);
    }

    /** Tries a pool's endpoints in turn until one gives a reply that is not pruned. */
    method TryPool(net: Net, before: seq<Attempt>, b: Backend, skip: Option<string>, rpc: string, height: int,
                   body: string, ghost past: seq<Recording>, ghost log: seq<Exchange>)
        returns (tried: seq<Attempt>, answered: bool, reached: nat)
      requires Ready()
      requires Progress(net, before, rpc, height, body, past, log) && LeadingPruned(codec, net, before) == |before|
      modifies this, router, router.Repr
      ensures Ready() && Progress(net, tried, rpc, height, body, past, log)
      ensures reached <= |router.cfg.Pool(b)|
      ensures tried == Through(before, codec.parse, b, router.cfg.Pool(b), skip, reached)
      ensures Ends(codec, net, tried, answered, b) && (!answered ==> reached == |router.cfg.Pool(b)|)
    {
      var pool := router.cfg.Pool(b);
      tried, answered, reached := before, false, 0;
      while reached < |pool| && !answered
        invariant Ready() && Progress(net, tried, rpc, height, body, past, log)
        invariant reached <= |pool| && tried == Through(before, codec.parse, b, pool, skip, reached)
        invariant Ends(codec, net, tried, answered, b)
      {
        tried, answered := TryURL(net, tried, b, pool[reached], skip, rpc, height, body, past, log);
        reached := reached + 1;
      }
    }

    /** The search of the retry path: the routed endpoint, the rest of its pool, then the archival pool. */
    method Search(net: Net, d: Decision, target: string, height: int, body: string, ghost past: seq<Recording>,
                  ghost log: seq<Exchange>)
        returns (tried: seq<Attempt>, backend: Backend)
      requires Ready() && CanRetry(router.cfg, d.backend, height)
      requires Progress(net, [], d.rpc, height, body, past, log)
      modifies this, router, router.Repr
      ensures Ready() && Progress(net, tried, d.rpc, height, body, past, log)
      ensures Stopped(codec, net, Plan(router.cfg, codec.parse, d, target, height), tried)
      ensures backend == if LeadingPruned(codec, net, tried) < |tried| then tried[|tried| - 1].backend else d.backend
    {
      var answered: bool;
      var reply: Reply;
      var reached: nat;
      tried, reply := TryNext(net, [], Primary(d, target), d.rpc, height, body, past, log);
      backend := d.backend;
      if !IsPruned(codec.errorOf, reply) {
        OwnPrefix(router.cfg, codec.parse, d, target, height, 0);
        return;
      }
      tried, answered, reached := TryPool(net, tried, d.backend, Some(target), d.rpc, height, body, past, log);
      OwnPrefix(router.cfg, codec.parse, d, target, height, reached);
      if answered || !router.cfg.HasArchival(d.backend) {
        return;
      }
      tried, answered, reached := TryPool(net, tried, ArchivalOf(d.backend), None, d.rpc, height, body, past, log);
      ArchivalPrefix(router.cfg, codec.parse, d, target, height, reached);
      if answered {
        backend := ArchivalOf(d.backend);
      }
    }

    method ProxyWithRetry(net: Net, d: Decision, target: string, height: int, body: string, env: CacheEnv)
        returns (resp: Response, tried: seq<Attempt>)
      requires Valid() && Int64(height) && CanRetry(router.cfg, d.backend, height)
      modifies this, router, router.Repr, cache
      ensures Valid()
      ensures Serves(router.cfg, codec, net, d, target, height, tried, resp)
      ensures Progress(net, tried, d.rpc, height, body, old(router.log), old(exchanges))
      ensures CacheKeeps(old(Entries()), d.rpc, height, body, resp, env)
    {
      ghost var past, log := router.log, exchanges;
      var backend: Backend;
      tried, backend := Search(net, d, target, height, body, past, log);
      SearchStops(codec, net, tried);
      LastExchange(net, d.rpc, height, body, tried, log);
      resp := Flush(LastReply(net, tried), Some(backend), d.rpc, height, body, IsCacheable(d.rpc, height), env);
    }

    /** The direct path: one endpoint, whose reply goes to the client as it is. */
    method ProxyDirect(net: Net, d: Decision, target: string, height: int, body: string, env: CacheEnv)
        returns (resp: Response, tried: seq<Attempt>)
      requires Valid() && Int64(height) && !CanRetry(router.cfg, d.backend, height)
      modifies this, router, router.Repr, cache
      ensures Valid()
      ensures Serves(router.cfg, codec, net, d, target, height, tried, resp)
      ensures Progress(net, tried, d.rpc, height, body, old(router.log), old(exchanges))
      ensures CacheKeeps(old(Entries()), d.rpc, height, body, resp, env)
    {
      ghost var past, log := router.log, exchanges;
      var reply: Reply;
      tried, reply := TryNext(net, [], Primary(d, target), d.rpc, height, body, past, log);
      LastExchange(net, d.rpc, height, body, tried, log);
      var header := if net.answer(0, target).Some? then Some(d.backend) else None;
      resp := Flush(reply, header, d.rpc, height, body, IsCacheable(d.rpc, height), env);
    }

    /** The retry path when there is a known height and something to retry, the direct path otherwise. */
    method Forward(net: Net, d: Decision, target: string, height: int, body: string, env: CacheEnv)
        returns (resp: Response, tried: seq<Attempt>)
      requires Valid() && Int64(height)
      modifies this, router, router.Repr, cache
      ensures Valid()
      ensures Serves(router.cfg, codec, net, d, target, height, tried, resp)
      ensures Progress(net, tried, d.rpc, height, body, old(router.log), old(exchanges))
      ensures CacheKeeps(old(Entries()), d.rpc, height, body, resp, env)
    {
      if CanRetry(router.cfg, d.backend, height) {
        resp, tried := ProxyWithRetry(net, d, target, height, body, env);
      } else {
        resp, tried := ProxyDirect(net, d, target, height, body, env);
      }
    }

    /** The cached answer to a request at a height, if there is one. */
    method FromCache(rpc: string, height: int, body: string, env: CacheEnv) returns (cached: Option<string>)
      requires Valid() && Int64(height)
      ensures cached == Cached(rpc, height, body, env)
      ensures cached.Some? ==> (
                && IsCacheable(rpc, height) && cache != null
                && exists e :: e in exchanges &&
                     Answers(codec.errorOf, cache.digest, e, rpc, height, body, cached.value))
    {
      if IsCacheable(rpc, height) && cache != null {
        cached := cache.Get(rpc, height, body, env.now, env.getReachable);
        if cached.Some? {
          HitHasOrigin(codec.errorOf, cache.digest, cache.entries, exchanges, rpc, height, body);
        }
        return;
      }
      return None;
    }

    /** Handles one request. `d` is the routing decision, if it got that far, and `tried` the attempts made. */
    method HandleRequest(req: Incoming, net: Net, draw: Draw, env: CacheEnv)
        returns (resp: Response, d: Option<Decision>, tried: seq<Attempt>)
      requires Valid()
      modifies this, router, router.Repr, cache
      ensures Valid()
      ensures !req.readable ==> resp == Rejected(400)
      ensures req.readable && |req.body| > maxBodySize ==> resp == Rejected(413)
      ensures req.readable && |req.body| <= maxBodySize ==>
                if req.body != "" && ParseMethod(codec.decode(req.body)).Failure?
                then d.None? && resp == Rejected(400)
                else d.Some?
      ensures d.Some? ==> Decides(router.cfg, codec.decode, router.Window(), router.Head(), req.body, d.value)
      ensures d.Some? && d.value.rpc != "" && !req.allowed(d.value.rpc) ==> resp == Rejected(403)
      ensures d.Some? && (d.value.rpc == "" || req.allowed(d.value.rpc)) ==>
                (resp.Rejected? ==> resp == Rejected(502) && codec.parse(d.value.targetURL).None?)
      ensures resp.Hit? ==> (
                && d.Some? && cache != null && resp.backend == d.value.backend
                && var height := RequestHeight(d.value.rpc, codec.decode(req.body), req.query);
                   exists e :: e in old(exchanges) &&
                     Answers(codec.errorOf, cache.digest, e, d.value.rpc, height, req.body, resp.body))
      ensures resp.Relayed? ==> (
                && d.Some? && codec.parse(d.value.targetURL).Some?
                && var height := RequestHeight(d.value.rpc, codec.decode(req.body), req.query);
                   && Serves(router.cfg, codec, net, d.value, codec.parse(d.value.targetURL).value, height, tried, resp)
                   && Progress(net, tried, d.value.rpc, height, req.body, old(router.log), old(exchanges)))
      ensures d.Some? && (d.value.rpc == "" || req.allowed(d.value.rpc)) ==> (
                var height := RequestHeight(d.value.rpc, codec.decode(req.body), req.query);
                && (resp.Hit? <==> old(Cached(d.value.rpc, height, req.body, env)).Some?)
                && CacheKeeps(old(Entries()), d.value.rpc, height, req.body, resp, env))
      ensures !resp.Relayed? ==> Entries() == old(Entries())
      ensures !resp.Relayed? ==> tried == [] && router.log == old(router.log) && exchanges == old(exchanges)
    {
      tried := [];
      if !req.readable {
        return Rejected(400), None, [];
      }
      if |req.body| > maxBodySize {
        return Rejected(413), None, [];
      }
      var routed := router.Route(req.body, codec.decode, draw);
      if routed.Failure? {
        return Rejected(400), None, [];
      }
      var decision := routed.value;
      d := Some(decision);
      if decision.rpc != "" && !req.allowed(decision.rpc) {
        return Rejected(403), d, [];
      }
      var height := RequestHeight(decision.rpc, codec.decode(req.body), req.query);
      var cached := FromCache(decision.rpc, height, req.body, env);
      if cached.Some? {
        return Hit(decision.backend, cached.value), d, [];
      }
      var target := codec.parse(decision.targetURL);
      if target.None? {
        return Rejected(502), d, [];
      }
      resp, tried := Forward(net, decision, target.value, height, req.body, env);
    }

    /** The latencies and the exchanges of the attempts so far have been recorded. */
    ghost predicate Progress(net: Net, tried: seq<Attempt>, rpc: string, height: int, body: string,
                             past: seq<Recording>, log: seq<Exchange>)
      reads this, router
    {
      && router.log == past + Recordings(net, tried)
      && exchanges == log + Exchanges(net, rpc, height, body, tried)
    }
  }

  lemma PrunedExtend(c: Codec, net: Net, tried: seq<Attempt>, a: Attempt)
    requires LeadingPruned(c, net, tried) == |tried|
    ensures LastReply(net, tried + [a]) == ReplyTo(net, |tried|, a.target)
    ensures LeadingPruned(c, net, tried + [a]) ==
            |tried| + if IsPruned(c.errorOf, ReplyTo(net, |tried|, a.target)) then 1 else 0
  {
    assert (tried + [a])[..|tried|] == tried;
  }

  lemma {:induction false} LeadingAllPruned(c: Codec, net: Net, tried: seq<Attempt>)
    ensures LeadingPruned(c, net, tried) == |tried| <==> forall k :: 0 <= k < |tried| ==> PrunedAt(c, net, tried, k)
  {
    if tried != [] {
      var init := tried[..|tried| - 1];
      LeadingAllPruned(c, net, init);
      assert forall k :: 0 <= k < |init| ==> PrunedAt(c, net, tried, k) == PrunedAt(c, net, init, k);
    }
  }

  /** Stopping at the first reply that is not pruned means that all replies before the last are. */
  lemma SearchStops(c: Codec, net: Net, tried: seq<Attempt>)
    requires tried != [] && LeadingPruned(c, net, tried) >= |tried| - 1
    ensures forall k :: 0 <= k < |tried| - 1 ==> PrunedAt(c, net, tried, k)
    ensures PrunedAt(c, net, tried, |tried| - 1) <==> LeadingPruned(c, net, tried) == |tried|
  {
    var init := tried[..|tried| - 1];
    LeadingAllPruned(c, net, init);
    LeadingAllPruned(c, net, tried);
    assert forall k :: 0 <= k < |init| ==> PrunedAt(c, net, tried, k) == PrunedAt(c, net, init, k);
  }

  lemma {:induction false} ThroughGrows(before: seq<Attempt>, parse: string -> Option<string>, b: Backend,
                                        pool: seq<string>, skip: Option<string>, i: nat, j: nat)
    requires i <= j <= |pool|
    ensures Through(before, parse, b, pool, skip, i) <= Through(before, parse, b, pool, skip, j)
  {
    if i < j {
      ThroughGrows(before, parse, b, pool, skip, i, j - 1);
    }
  }

  /** Stopping after any part of a pool leaves a prefix of the plan. */
  lemma OwnPrefix(cfg: Config, parse: string -> Option<string>, d: Decision, target: string, height: int, i: nat)
    requires CanRetry(cfg, d.backend, height) && i <= |cfg.Pool(d.backend)|
    ensures var part := Through([Primary(d, target)], parse, d.backend, cfg.Pool(d.backend), Some(target), i);
            && part != [] && part[0] == Primary(d, target)
            && part <= Plan(cfg, parse, d, target, height)
            && (i == |cfg.Pool(d.backend)| && !cfg.HasArchival(d.backend) ==>
                  part == Plan(cfg, parse, d, target, height))
  {
    var pool := cfg.Pool(d.backend);
    ThroughGrows([Primary(d, target)], parse, d.backend, pool, Some(target), i, |pool|);
    ThroughGrows([Primary(d, target)], parse, d.backend, pool, Some(target), 0, i);
    if cfg.HasArchival(d.backend) {
      ArchivalPrefix(cfg, parse, d, target, height, 0);
    }
  }

  lemma ArchivalPrefix(cfg: Config, parse: string -> Option<string>, d: Decision, target: string, height: int, i: nat)
    requires CanRetry(cfg, d.backend, height) && cfg.HasArchival(d.backend) && i <= |cfg.Pool(ArchivalOf(d.backend))|
    ensures var own, archival := OwnPool(cfg, parse, d, target), ArchivalOf(d.backend);
            var part := Through(own, parse, archival, cfg.Pool(archival), None, i);
            && own <= part && part != []
            && part <= Plan(cfg, parse, d, target, height)
            && (i == |cfg.Pool(archival)| ==> part == Plan(cfg, parse, d, target, height))
  {
    var own, archival := OwnPool(cfg, parse, d, target), ArchivalOf(d.backend);
    ThroughGrows(own, parse, archival, cfg.Pool(archival), None, i, |cfg.Pool(archival)|);
    ThroughGrows(own, parse, archival, cfg.Pool(archival), None, 0, i);
    ThroughGrows([Primary(d, target)], parse, d.backend, cfg.Pool(d.backend), Some(target), 0, |cfg.Pool(d.backend)|);
  }

  lemma LastExchange(net: Net, rpc: string, height: int, body: string, tried: seq<Attempt>, log: seq<Exchange>)
    requires tried != []
    ensures Exchange(rpc, height, body, LastReply(net, tried)) in log + Exchanges(net, rpc, height, body, tried)
  {
    var all := log + Exchanges(net, rpc, height, body, tried);
    assert all[|log| + |tried| - 1] == Exchange(rpc, height, body, LastReply(net, tried));
  }

  lemma RecordingsExtend(net: Net, tried: seq<Attempt>, a: Attempt, past: seq<Recording>)
    ensures past + Recordings(net, tried + [a]) ==
            past + Recordings(net, tried) + [Recording(a.backend, a.url, Millis(net.took(|tried|)))]
  {
    assert Recordings(net, tried + [a]) ==
           Recordings(net, tried) + [Recording(a.backend, a.url, Millis(net.took(|tried|)))];
  }

  lemma ExchangesExtend(net: Net, rpc: string, height: int, body: string, tried: seq<Attempt>, a: Attempt,
                        log: seq<Exchange>)
    ensures log + Exchanges(net, rpc, height, body, tried + [a]) ==
            log + Exchanges(net, rpc, height, body, tried) +
            [Exchange(rpc, height, body, ReplyTo(net, |tried|, a.target))]
  {
    assert Exchanges(net, rpc, height, body, tried + [a]) ==
           Exchanges(net, rpc, height, body, tried) + [Exchange(rpc, height, body, ReplyTo(net, |tried|, a.target))];
  }
}
