/** The response cache over whole runs of the proxy (internal/cache/cache.go with internal/proxy/handler.go). */
module CacheRuns {
  import opened Wrappers
  import opened Balancer
  import opened Height
  import opened Router
  import opened ResponseCache
  import opened Handler

  /** A reply is relayed, and kept when the cache takes it (size limit, server up); or an entry expires or is
      evicted. */
  datatype Step = Relay(e: Exchange, expires: int, kept: bool) | Lose(key: string)

  /** The cache and everything backends have answered. */
  datatype State = State(entries: map<string, Entry>, exchanges: seq<Exchange>)

  function Apply(errorOf: string -> Option<string>, digest: string -> string, s: State, step: Step): State {
    match step
    case Relay(e, expires, kept) =>
      var key := Key(digest, e.rpc, e.height, e.body);
      State(if kept && IsCacheable(e.rpc, e.height) && Storable(errorOf, e.reply)
            then s.entries[key := Entry(e.reply.body, expires)]
            else s.entries,
            s.exchanges + [e])
    case Lose(key) => s.(entries := s.entries - {key})
  }

  function Run(errorOf: string -> Option<string>, digest: string -> string, steps: seq<Step>): State {
    if steps == [] then State(map[], [])
    else Apply(errorOf, digest, Run(errorOf, digest, steps[..|steps| - 1]), steps[|steps| - 1])
  }

  lemma {:induction false} RunKeepsCacheSound(errorOf: string -> Option<string>, digest: string -> string,
                                              steps: seq<Step>)
    requires forall k :: 0 <= k < |steps| && steps[k].Relay? ==> Int64(steps[k].e.height)
    ensures var s := Run(errorOf, digest, steps); CacheSound(errorOf, digest, s.entries, s.exchanges)
  {
    if steps != [] {
      var init, last := steps[..|steps| - 1], steps[|steps| - 1];
      RunKeepsCacheSound(errorOf, digest, init);
      var s, s' := Run(errorOf, digest, init), Run(errorOf, digest, steps);
      forall k | k in s'.entries
        ensures exists e :: e in s'.exchanges && Origin(errorOf, digest, k, s'.entries[k].response, e)
      {
        if last.Relay? && s'.entries != s.entries && k == Key(digest, last.e.rpc, last.e.height, last.e.body) {
          assert last.e in s'.exchanges && Origin(errorOf, digest, k, s'.entries[k].response, last.e);
        } else {
          var e :| e in s.exchanges && Origin(errorOf, digest, k, s.entries[k].response, e);
          assert e in s'.exchanges;
        }
      }
    }
  }

  /** After every run, what the cache holds under a request's key is the body of an answer that a backend gave to a
      request with the same method, height and body, with status 200 and no pruned error, at a positive height and
      for a cacheable method; given that no two bodies in play have the same digest. */
  lemma HitsAreBackendAnswers(errorOf: string -> Option<string>, digest: string -> string, steps: seq<Step>,
                              rpc: string, height: int, body: string)
      returns (e: Exchange)
    requires forall k :: 0 <= k < |steps| && steps[k].Relay? ==> Int64(steps[k].e.height)
    requires forall x :: ':' !in digest(x)
    requires Int64(height) && Key(digest, rpc, height, body) in Run(errorOf, digest, steps).entries
    requires forall x :: x in Run(errorOf, digest, steps).exchanges && digest(x.body) == digest(body) ==> x.body == body
    ensures var s := Run(errorOf, digest, steps);
            && e in s.exchanges && e.rpc == rpc && e.height == height && e.body == body
            && e.reply.body == s.entries[Key(digest, rpc, height, body)].response
            && e.reply.status == 200 && !IsPruned(errorOf, e.reply)
    ensures height > 0 && rpc in CACHEABLE && rpc !in NEVER_CACHED
  {
    var s := Run(errorOf, digest, steps);
    RunKeepsCacheSound(errorOf, digest, steps);
    HitHasOrigin(errorOf, digest, s.entries, s.exchanges, rpc, height, body);
    e :| e in s.exchanges && Answers(errorOf, digest, e, rpc, height, body,
                                     s.entries[Key(digest, rpc, height, body)].response);
  }

  // The handler runs this machine.

  /** Exchanges that are not kept. */
  function Unkept(exchanges: seq<Exchange>): (steps: seq<Step>)
    ensures |steps| == |exchanges|
  {
    if exchanges == [] then []
    else Unkept(exchanges[..|exchanges| - 1]) + [Relay(exchanges[|exchanges| - 1], 0, false)]
  }

  lemma RunMore(errorOf: string -> Option<string>, digest: string -> string, steps: seq<Step>, step: Step)
    ensures Run(errorOf, digest, steps + [step]) == Apply(errorOf, digest, Run(errorOf, digest, steps), step)
  {
    assert (steps + [step])[..|steps|] == steps;
  }

  lemma {:induction false} UnkeptRun(errorOf: string -> Option<string>, digest: string -> string, steps: seq<Step>,
                                     exchanges: seq<Exchange>)
    ensures var s := Run(errorOf, digest, steps);
            Run(errorOf, digest, steps + Unkept(exchanges)) == State(s.entries, s.exchanges + exchanges)
  {
    if exchanges == [] {
      assert steps + [] == steps;
      assert Run(errorOf, digest, steps).exchanges + [] == Run(errorOf, digest, steps).exchanges;
    } else {
      var init, last := exchanges[..|exchanges| - 1], exchanges[|exchanges| - 1];
      UnkeptRun(errorOf, digest, steps, init);
      RunMore(errorOf, digest, steps + Unkept(init), Relay(last, 0, false));
      Regroup(steps, Unkept(init), [Relay(last, 0, false)]);
      assert exchanges == init + [last];
    }
  }

  /** The step of a relayed exchange, which is kept when the cache takes it. */
  function Relaying(e: Exchange, cache: RedisCache, env: CacheEnv): Step {
    Relay(e, env.storedAt + cache.ttl, |e.reply.body| <= cache.maxEntrySize && env.setReachable)
  }

  /** The steps of a served request: its exchanges, of which the last may be kept. */
  function Served(exchanges: seq<Exchange>, cache: RedisCache, env: CacheEnv): seq<Step>
    requires exchanges != []
  {
    Unkept(exchanges[..|exchanges| - 1]) + [Relaying(exchanges[|exchanges| - 1], cache, env)]
  }

  lemma RunAppend(errorOf: string -> Option<string>, digest: string -> string, steps: seq<Step>, more: seq<Step>,
                  step: Step, mid: State)
    requires Run(errorOf, digest, steps + more) == mid
    ensures Run(errorOf, digest, steps + (more + [step])) == Apply(errorOf, digest, mid, step)
  {
    Regroup(steps, more, [step]);
    RunMore(errorOf, digest, steps + more, step);
  }

  lemma Regroup<T>(a: seq<T>, b: seq<T>, c: seq<T>)
    ensures a + (b + c) == a + b + c
  {
  }

  lemma LastApart<T>(a: seq<T>, b: seq<T>)
    requires b != []
    ensures a + b == a + b[..|b| - 1] + [b[|b| - 1]]
  {
  }

  lemma ServedRun(errorOf: string -> Option<string>, steps: seq<Step>, exchanges: seq<Exchange>, cache: RedisCache,
                  env: CacheEnv, s: State)
    requires exchanges != [] && s == Run(errorOf, cache.digest, steps)
    ensures Run(errorOf, cache.digest, steps + Served(exchanges, cache, env)) ==
            Apply(errorOf, cache.digest, State(s.entries, s.exchanges + exchanges[..|exchanges| - 1]),
                  Relaying(exchanges[|exchanges| - 1], cache, env))
  {
    var init, step := exchanges[..|exchanges| - 1], Relaying(exchanges[|exchanges| - 1], cache, env);
    UnkeptRun(errorOf, cache.digest, steps, init);
    RunAppend(errorOf, cache.digest, steps, Unkept(init), step, State(s.entries, s.exchanges + init));
  }

  lemma RelayAsSet(errorOf: string -> Option<string>, cache: RedisCache, env: CacheEnv, s: State, e: Exchange)
    ensures Apply(errorOf, cache.digest, s, Relaying(e, cache, env)) ==
            State(if IsCacheable(e.rpc, e.height) && Storable(errorOf, e.reply)
                  then cache.AfterSet(s.entries, e.rpc, e.height, e.body, e.reply.body, env.storedAt, env.setReachable)
                  else s.entries,
                  s.exchanges + [e])
  {
  }

  /** What a served request does to the cache and to the exchanges is a run of the machine. */
  lemma ServedIsRun(cfg: Config, c: Codec, net: Net, d: Decision, target: string, height: int, body: string,
                    tried: seq<Attempt>, resp: Response, cache: RedisCache, env: CacheEnv, steps: seq<Step>,
                    before: State, after: State)
    requires Serves(cfg, c, net, d, target, height, tried, resp) && before == Run(c.errorOf, cache.digest, steps)
    requires after.exchanges == before.exchanges + Exchanges(net, d.rpc, height, body, tried)
    requires after.entries == if resp.stored
                              then cache.AfterSet(before.entries, d.rpc, height, body, resp.reply.body, env.storedAt,
                                                  env.setReachable)
                              else before.entries
    ensures after == Run(c.errorOf, cache.digest,
                         steps + Served(Exchanges(net, d.rpc, height, body, tried), cache, env))
  {
    var exchanges := Exchanges(net, d.rpc, height, body, tried);
    assert exchanges[|exchanges| - 1] == Exchange(d.rpc, height, body, resp.reply);
    var init := exchanges[..|exchanges| - 1];
    ServedRun(c.errorOf, steps, exchanges, cache, env, before);
    RelayAsSet(c.errorOf, cache, env, State(before.entries, before.exchanges + init), exchanges[|exchanges| - 1]);
    LastApart(before.exchanges, exchanges);
  }

  /** The cache and the exchanges of a handler are those that a run of the machine leads to. */
  ghost predicate Follows(h: Handler, steps: seq<Step>)
    reads h, h.cache
  {
    h.cache != null && State(h.cache.entries, h.exchanges) == Run(h.codec.errorOf, h.cache.digest, steps)
  }

  /** Whatever a request does, the handler goes on along a run of the machine. */
  method HandleNext(h: Handler, req: Incoming, net: Net, draw: Draw, env: CacheEnv, ghost steps: seq<Step>)
      returns (resp: Response, ghost steps': seq<Step>)
    requires h.Valid() && Follows(h, steps)
    modifies h, h.router, h.router.Repr, h.cache
    ensures h.Valid() && Follows(h, steps') && steps <= steps'
  {
    var d: Option<Decision>, tried: seq<Attempt>;
    ghost var before := State(h.cache.entries, h.exchanges);
    resp, d, tried := h.HandleRequest(req, net, draw, env);
    steps' := steps;
    if resp.Relayed? {
      ghost var height := RequestHeight(d.value.rpc, h.codec.decode(req.body), req.query);
      ghost var target := h.codec.parse(d.value.targetURL).value;
      ghost var after := State(h.cache.entries, h.exchanges);
      ServedIsRun(h.router.cfg, h.codec, net, d.value, target, height, req.body, tried, resp, h.cache, env, steps,
                  before, after);
      steps' := steps + Served(Exchanges(net, d.value.rpc, height, req.body, tried), h.cache, env);
    }
  }
}
