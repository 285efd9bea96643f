/** What the handler's search over endpoint pools guarantees to the client (internal/proxy/handler.go together with
    internal/proxy/router.go). */
module Fallback {
  import opened Wrappers
  import opened Balancer
  import opened Router
  import opened Handler

  /** The position of the reply that the client gets: the first in the plan that is not pruned, else the last. */
  function FirstAnswer(c: Codec, net: Net, plan: seq<Attempt>, k: nat): (i: nat)
    requires k < |plan|
    ensures k <= i < |plan|
    decreases |plan| - k
  {
    if !PrunedAt(c, net, plan, k) || k == |plan| - 1 then k else FirstAnswer(c, net, plan, k + 1)
  }

  lemma {:induction false} FirstAnswerIs(c: Codec, net: Net, plan: seq<Attempt>, k: nat, i: nat)
    requires k <= i < |plan|
    requires forall j :: k <= j < i ==> PrunedAt(c, net, plan, j)
    requires !PrunedAt(c, net, plan, i) || i == |plan| - 1
    ensures FirstAnswer(c, net, plan, k) == i
    decreases i - k
  {
    if k < i {
      FirstAnswerIs(c, net, plan, k + 1, i);
    }
  }

  /** The retry loops refine "the first reply in plan order that is not pruned, else the last one": this fixes the
      attempts, the reply and the backend named in the header. */
  lemma SearchRefinesFirstAnswer(cfg: Config, c: Codec, net: Net, d: Decision, target: string, height: int,
                                 tried: seq<Attempt>, resp: Response)
    requires Serves(cfg, c, net, d, target, height, tried, resp)
    ensures var plan := Plan(cfg, c.parse, d, target, height);
            plan != [] &&
            var i := FirstAnswer(c, net, plan, 0);
            && tried == plan[..i + 1]
            && resp.reply == ReplyTo(net, i, plan[i].target)
            && (CanRetry(cfg, d.backend, height) ==>
                  resp.header == Some(if IsPruned(c.errorOf, resp.reply) then d.backend else plan[i].backend))
  {
    var plan := Plan(cfg, c.parse, d, target, height);
    PrefixPruned(c, net, plan, tried);
    FirstAnswerIs(c, net, plan, 0, |tried| - 1);
  }

  lemma PrefixPruned(c: Codec, net: Net, plan: seq<Attempt>, tried: seq<Attempt>)
    requires tried <= plan
    ensures tried == plan[..|tried|]
    ensures forall k :: 0 <= k < |tried| ==> PrunedAt(c, net, plan, k) == PrunedAt(c, net, tried, k)
  {
  }

  /** The client is told that the block is pruned exactly when every endpoint of the plan says so. */
  lemma PrunedIffAllPruned(cfg: Config, c: Codec, net: Net, d: Decision, target: string, height: int,
                           tried: seq<Attempt>, resp: Response)
    requires Serves(cfg, c, net, d, target, height, tried, resp)
    ensures IsPruned(c.errorOf, resp.reply) <==>
            var plan := Plan(cfg, c.parse, d, target, height);
            forall k :: 0 <= k < |plan| ==> PrunedAt(c, net, plan, k)
  {
    SearchedPruned(c, net, Plan(cfg, c.parse, d, target, height), tried);
  }

  lemma SearchedPruned(c: Codec, net: Net, plan: seq<Attempt>, tried: seq<Attempt>)
    requires Searched(c, net, plan, tried)
    ensures PrunedAt(c, net, tried, |tried| - 1) <==> forall k :: 0 <= k < |plan| ==> PrunedAt(c, net, plan, k)
  {
    PrefixPruned(c, net, plan, tried);
  }

  // Archival completeness.

  lemma {:induction false} ThroughHolds(before: seq<Attempt>, parse: string -> Option<string>, b: Backend,
                                        pool: seq<string>, skip: Option<string>, i: nat, j: nat)
    requires j < i <= |pool| && skip != Some(pool[j]) && parse(pool[j]).Some?
    ensures Attempt(b, pool[j], parse(pool[j]).value) in Through(before, parse, b, pool, skip, i)
  {
    if j < i - 1 {
      ThroughHolds(before, parse, b, pool, skip, i - 1, j);
    }
  }

  /** The printed form of a URL parses to itself. */
  predicate PrintsStably(parse: string -> Option<string>, url: string) {
    parse(url).Some? ==> parse(parse(url).value) == parse(url)
  }

  /** Every archival endpoint that parses is reached by the plan of a request at a known height: under its own
      URL, or, for the routed endpoint's printed form, as the routed endpoint. */
  lemma PlanReachesArchival(cfg: Config, parse: string -> Option<string>, d: Decision, target: string, height: int,
                            family: Backend, ep: string)
      returns (k: nat)
    requires family in {AppRPC, NodeRPC} && d.backend in {family, ArchivalOf(family)}
    requires height > 0 && parse(d.targetURL) == Some(target) && Target(cfg, d.backend, d.targetURL)
    requires ep in cfg.Pool(ArchivalOf(family)) && parse(ep).Some?
    requires PrintsStably(parse, d.targetURL)
    ensures var plan := Plan(cfg, parse, d, target, height); k < |plan| && plan[k].target == parse(ep).value
  {
    var archival := ArchivalOf(family);
    var pool, plan := cfg.Pool(archival), Plan(cfg, parse, d, target, height);
    var j :| 0 <= j < |pool| && pool[j] == ep;
    if d.backend == family {
      var own := OwnPool(cfg, parse, d, target);
      ThroughHolds(own, parse, archival, pool, None, |pool|, j);
      k :| 0 <= k < |plan| && plan[k] == Attempt(archival, ep, parse(ep).value);
    } else {
      PlanStartsWithPrimary(cfg, parse, d, target, height);
      if |pool| == 1 || ep == target {
        assert |pool| == 1 ==> d.targetURL == pool[0];
        k := 0;
      } else {
        ThroughHolds([Primary(d, target)], parse, archival, pool, Some(target), |pool|, j);
        k :| 0 <= k < |plan| && plan[k] == Attempt(archival, ep, parse(ep).value);
      }
    }
  }

  lemma PlanStartsWithPrimary(cfg: Config, parse: string -> Option<string>, d: Decision, target: string, height: int)
    ensures var plan := Plan(cfg, parse, d, target, height); plan != [] && plan[0] == Primary(d, target)
  {
    if CanRetry(cfg, d.backend, height) {
      OwnPrefix(cfg, parse, d, target, height, 0);
    }
  }

  /** Archival completeness, end to end: for a request at a positive height that the cache could not answer, if the
      archival pool of its backend family has an endpoint that parses and does not answer it with a pruned error,
      the client gets no pruned error, whichever way the request was routed. */
  lemma ArchivalCompleteness(cfg: Config, c: Codec, net: Net, window: int, head: int, body: string, d: Decision,
                             target: string, height: int, tried: seq<Attempt>, resp: Response, ep: string)
    requires Decides(cfg, c.decode, window, head, body, d) && c.parse(d.targetURL) == Some(target)
    requires Serves(cfg, c, net, d, target, height, tried, resp)
    requires height > 0 && PrintsStably(c.parse, d.targetURL)
    requires ep in cfg.Pool(ArchivalOf(FamilyOf(d.backend))) && c.parse(ep).Some?
    requires AnswersAt(c, net, c.parse(ep).value)
    ensures !IsPruned(c.errorOf, resp.reply)
  {
    DecisionsStayInFamily(cfg, c.decode, window, head, body, d);
    var k := PlanReachesArchival(cfg, c.parse, d, target, height, FamilyOf(d.backend), ep);
    PrunedIffAllPruned(cfg, c, net, d, target, height, tried, resp);
    var plan := Plan(cfg, c.parse, d, target, height);
    assert !PrunedAt(c, net, plan, k);
  }

  /** Without a height that the proxy can read only the routed endpoint is asked, so the client gets a pruned error
      exactly when that endpoint gives one. */
  lemma UndatedRequestsAreNotRetried(cfg: Config, c: Codec, net: Net, d: Decision, target: string, height: int,
                                     tried: seq<Attempt>, resp: Response)
    requires height <= 0 && Serves(cfg, c, net, d, target, height, tried, resp)
    ensures tried == [Primary(d, target)]
    ensures IsPruned(c.errorOf, resp.reply) <==> IsPruned(c.errorOf, ReplyTo(net, 0, target))
  {
    assert tried[0] == Primary(d, target);
  }

  /** The endpoint answers every attempt without a pruned error. */
  ghost predicate AnswersAt(c: Codec, net: Net, target: string) {
    forall k: nat :: !IsPruned(c.errorOf, ReplyTo(net, k, target))
  }

  /** When the archival endpoint at `endpoint` answers, so is the client answered. */
  ghost predicate Completes(cfg: Config, c: Codec, net: Net, d: Decision, target: string, height: int, endpoint: string,
                            tried: seq<Attempt>, resp: Response) {
    Serves(cfg, c, net, d, target, height, tried, resp) && AnswersAt(c, net, endpoint) ==>
      !IsPruned(c.errorOf, resp.reply)
  }

  /** Every endpoint but one says that the block is pruned. */
  function OnlyAnswers(endpoint: string, pruned: Reply): Net {
    Net((k, target) => if target == endpoint then Some(Reply(404, "")) else Some(pruned), k => 0)
  }

  lemma UndatedFails(cfg: Config, c: Codec, d: Decision, target: string, height: int, endpoint: string, pruned: Reply)
    requires height <= 0 && endpoint != target && IsPruned(c.errorOf, pruned)
    ensures !Completes(cfg, c, OnlyAnswers(endpoint, pruned), d, target, height, endpoint, [Primary(d, target)],
                       Relayed(pruned, Some(d.backend), false))
  {
    var net, tried := OnlyAnswers(endpoint, pruned), [Primary(d, target)];
    assert PrunedAt(c, net, tried, 0);
    assert Serves(cfg, c, net, d, target, height, tried, Relayed(pruned, Some(d.backend), false));
    assert forall k: nat :: ReplyTo(net, k, endpoint) == Reply(404, "");
  }

  /** Archival completeness holds for a request exactly when the proxy reads a positive height from it: given an
      archival endpoint other than the routed one, and some reply that counts as pruned, the client is answered for
      all behaviours of the backends in which that endpoint answers if and only if the height is positive. */
  lemma CompleteIffDated(cfg: Config, c: Codec, window: int, head: int, body: string, d: Decision, target: string,
                         height: int, ep: string, pruned: Reply)
    requires Decides(cfg, c.decode, window, head, body, d) && c.parse(d.targetURL) == Some(target)
    requires PrintsStably(c.parse, d.targetURL)
    requires ep in cfg.Pool(ArchivalOf(FamilyOf(d.backend))) && c.parse(ep).Some? && c.parse(ep).value != target
    requires IsPruned(c.errorOf, pruned)
    ensures (forall net, tried, resp :: Completes(cfg, c, net, d, target, height, c.parse(ep).value, tried, resp)) <==>
            height > 0
  {
    if height > 0 {
      forall net, tried, resp
        ensures Completes(cfg, c, net, d, target, height, c.parse(ep).value, tried, resp)
      {
        if Serves(cfg, c, net, d, target, height, tried, resp) && AnswersAt(c, net, c.parse(ep).value) {
          ArchivalCompleteness(cfg, c, net, window, head, body, d, target, height, tried, resp, ep);
        }
      }
    } else {
      UndatedFails(cfg, c, d, target, height, c.parse(ep).value, pruned);
    }
  }

  // Nothing is tried twice. `place` gives the scheme and host of a printed URL, which is all that is contacted.

  /** No two URLs of the pool lead to the same place, whatever their spelling. */
  predicate Distinct(parse: string -> Option<string>, place: string -> string, pool: seq<string>) {
    forall i, j :: 0 <= i < j < |pool| && parse(pool[i]).Some? && parse(pool[j]).Some? ==>
      place(parse(pool[i]).value) != place(parse(pool[j]).value)
  }

  predicate NoRepeats(place: string -> string, tried: seq<Attempt>) {
    forall i, j :: 0 <= i < j < |tried| ==> place(tried[i].target) != place(tried[j].target)
  }

  /** The URL leads to the place of a target. */
  predicate LeadsTo(parse: string -> Option<string>, place: string -> string, url: string, target: string) {
    parse(url).Some? && place(parse(url).value) == place(target)
  }

  /** What a pool adds to the attempts before it: its own URLs, but for the skipped one and those that do not parse. */
  lemma {:induction false} ThroughAdds(before: seq<Attempt>, parse: string -> Option<string>, b: Backend,
                                       pool: seq<string>, skip: Option<string>, i: nat)
    requires i <= |pool|
    ensures var t := Through(before, parse, b, pool, skip, i);
            && before <= t
            && forall k :: |before| <= k < |t| ==>
                 && t[k].backend == b && t[k].url in pool[..i] && skip != Some(t[k].url)
                 && parse(t[k].url) == Some(t[k].target)
  {
    if i > 0 {
      ThroughAdds(before, parse, b, pool, skip, i - 1);
      assert pool[..i] == pool[..i - 1] + [pool[i - 1]];
    }
  }

  lemma NewPlace(before: seq<Attempt>, parse: string -> Option<string>, place: string -> string, b: Backend,
                 pool: seq<string>, skip: Option<string>, i: nat)
    requires 0 < i <= |pool| && Distinct(parse, place, pool) && parse(pool[i - 1]).Some?
    requires forall j :: 0 <= j < |before| ==> !LeadsTo(parse, place, pool[i - 1], before[j].target)
    ensures var t := Through(before, parse, b, pool, skip, i - 1);
            forall k :: 0 <= k < |t| ==> place(t[k].target) != place(parse(pool[i - 1]).value)
  {
    ThroughAdds(before, parse, b, pool, skip, i - 1);
    var t := Through(before, parse, b, pool, skip, i - 1);
    forall k | 0 <= k < |t|
      ensures place(t[k].target) != place(parse(pool[i - 1]).value)
    {
      if k < |before| {
        assert !LeadsTo(parse, place, pool[i - 1], before[k].target);
      } else {
        var j :| 0 <= j < i - 1 && pool[j] == t[k].url;
      }
    }
  }

  lemma {:induction false} ThroughDistinctPool(before: seq<Attempt>, parse: string -> Option<string>,
                                               place: string -> string, b: Backend, pool: seq<string>,
                                               skip: Option<string>, i: nat)
    requires i <= |pool| && Distinct(parse, place, pool) && NoRepeats(place, before)
    requires forall j, k :: 0 <= j < |before| && 0 <= k < |pool| && skip != Some(pool[k]) ==>
               !LeadsTo(parse, place, pool[k], before[j].target)
    ensures var t := Through(before, parse, b, pool, skip, i);
            && NoRepeats(place, t) && |t| <= |before| + i
            && (forall k :: 0 <= k < i && skip == Some(pool[k]) ==> |t| < |before| + i)
  {
    if i > 0 {
      ThroughDistinctPool(before, parse, place, b, pool, skip, i - 1);
      if skip != Some(pool[i - 1]) && parse(pool[i - 1]).Some? {
        NewPlace(before, parse, place, b, pool, skip, i);
      }
    }
  }

  /** The endpoints of a backend and of its archival counterpart. */
  function BothPools(cfg: Config, b: Backend): seq<string> {
    cfg.Pool(b) + if ArchivalOf(b) != b then cfg.Pool(ArchivalOf(b)) else []
  }

  lemma DistinctParts(parse: string -> Option<string>, place: string -> string, own: seq<string>, rest: seq<string>)
    requires Distinct(parse, place, own + rest)
    ensures Distinct(parse, place, own) && Distinct(parse, place, rest)
    ensures forall u, k :: u in own && parse(u).Some? && 0 <= k < |rest| ==>
              !LeadsTo(parse, place, rest[k], parse(u).value)
  {
    var all := own + rest;
    assert forall k :: 0 <= k < |own| ==> own[k] == all[k];
    assert forall k :: 0 <= k < |rest| ==> rest[k] == all[|own| + k];
  }

  lemma OwnPoolOnce(cfg: Config, parse: string -> Option<string>, place: string -> string, d: Decision)
    requires Distinct(parse, place, cfg.Pool(d.backend)) && d.targetURL in cfg.Pool(d.backend)
    requires parse(d.targetURL) == Some(d.targetURL)
    ensures var own := OwnPool(cfg, parse, d, d.targetURL);
            && NoRepeats(place, own) && |own| <= |cfg.Pool(d.backend)|
            && forall k :: 0 <= k < |own| ==>
                 own[k].url in cfg.Pool(d.backend) && parse(own[k].url) == Some(own[k].target)
  {
    var pool, first := cfg.Pool(d.backend), [Primary(d, d.targetURL)];
    var j :| 0 <= j < |pool| && pool[j] == d.targetURL;
    forall k | 0 <= k < |pool| && pool[k] != d.targetURL
      ensures !LeadsTo(parse, place, pool[k], d.targetURL)
    {
      assert k < j || j < k;
    }
    ThroughDistinctPool(first, parse, place, d.backend, pool, Some(d.targetURL), |pool|);
    ThroughAdds(first, parse, d.backend, pool, Some(d.targetURL), |pool|);
  }

  lemma PlanOnce(cfg: Config, parse: string -> Option<string>, place: string -> string, d: Decision, height: int)
    requires Distinct(parse, place, BothPools(cfg, d.backend)) && d.targetURL in cfg.Pool(d.backend)
    requires parse(d.targetURL) == Some(d.targetURL)
    ensures var plan := Plan(cfg, parse, d, d.targetURL, height);
            NoRepeats(place, plan) && |plan| <= |BothPools(cfg, d.backend)|
  {
    var own := cfg.Pool(d.backend);
    var rest := if ArchivalOf(d.backend) != d.backend then cfg.Pool(ArchivalOf(d.backend)) else [];
    DistinctParts(parse, place, own, rest);
    OwnPoolOnce(cfg, parse, place, d);
    if cfg.HasArchival(d.backend) {
      var first := OwnPool(cfg, parse, d, d.targetURL);
      forall j, k | 0 <= j < |first| && 0 <= k < |rest|
        ensures !LeadsTo(parse, place, rest[k], first[j].target)
      {
        assert first[j].url in own;
      }
      ThroughDistinctPool(first, parse, place, ArchivalOf(d.backend), rest, None, |rest|);
    }
  }

  /** A URL of the pool that is neither skipped nor unreadable gets an attempt of its own, after those before. */
  lemma {:induction false} ThroughAgain(before: seq<Attempt>, parse: string -> Option<string>, b: Backend,
                                        pool: seq<string>, skip: Option<string>, i: nat, j: nat)
      returns (k: nat)
    requires j < i <= |pool| && skip != Some(pool[j]) && parse(pool[j]).Some?
    ensures var t := Through(before, parse, b, pool, skip, i);
            |before| <= k < |t| && t[k] == Attempt(b, pool[j], parse(pool[j]).value)
  {
    ThroughAdds(before, parse, b, pool, skip, i - 1);
    if j < i - 1 {
      k := ThroughAgain(before, parse, b, pool, skip, i - 1, j);
    } else {
      k := |Through(before, parse, b, pool, skip, i - 1)|;
    }
  }

  /** Some URL of the pool, written otherwise than `skip`, leads to the place of a target. */
  ghost predicate Respelled(parse: string -> Option<string>, place: string -> string, pool: seq<string>,
                            skip: Option<string>, target: string) {
    exists j :: 0 <= j < |pool| && skip != Some(pool[j]) && LeadsTo(parse, place, pool[j], target)
  }

  lemma ThroughRepeatsIff(before: seq<Attempt>, parse: string -> Option<string>, place: string -> string, b: Backend,
                          pool: seq<string>, skip: Option<string>, target: string)
    ensures var t := Through(before, parse, b, pool, skip, |pool|);
            (exists k :: |before| <= k < |t| && place(t[k].target) == place(target)) <==>
            Respelled(parse, place, pool, skip, target)
  {
    var t := Through(before, parse, b, pool, skip, |pool|);
    ThroughAdds(before, parse, b, pool, skip, |pool|);
    if k :| |before| <= k < |t| && place(t[k].target) == place(target) {
      var j :| 0 <= j < |pool| && pool[j] == t[k].url;
      assert LeadsTo(parse, place, pool[j], target);
    }
    if Respelled(parse, place, pool, skip, target) {
      var j :| 0 <= j < |pool| && skip != Some(pool[j]) && LeadsTo(parse, place, pool[j], target);
      var k := ThroughAgain(before, parse, b, pool, skip, |pool|, j);
      assert place(t[k].target) == place(target);
    }
  }

  /** The plan goes back to the routed endpoint exactly when some URL of its pool, written otherwise than the routed
      URL is printed, or some URL of the archival pool leads there: the routed endpoint is skipped by comparing
      configured URLs with the printed one. */
  lemma RoutedAskedAgainIff(cfg: Config, parse: string -> Option<string>, place: string -> string, d: Decision,
                            target: string, height: int)
    requires CanRetry(cfg, d.backend, height)
    ensures var plan := Plan(cfg, parse, d, target, height);
            (exists k :: 0 < k < |plan| && place(plan[k].target) == place(target)) <==>
            || Respelled(parse, place, cfg.Pool(d.backend), Some(target), target)
            || (cfg.HasArchival(d.backend) &&
                Respelled(parse, place, cfg.Pool(ArchivalOf(d.backend)), None, target))
  {
    var first, own, plan := [Primary(d, target)], OwnPool(cfg, parse, d, target), Plan(cfg, parse, d, target, height);
    var archival := ArchivalOf(d.backend);
    ThroughRepeatsIff(first, parse, place, d.backend, cfg.Pool(d.backend), Some(target), target);
    ThroughAdds(first, parse, d.backend, cfg.Pool(d.backend), Some(target), |cfg.Pool(d.backend)|);
    if cfg.HasArchival(d.backend) {
      ThroughRepeatsIff(own, parse, place, archival, cfg.Pool(archival), None, target);
      ThroughAdds(own, parse, archival, cfg.Pool(archival), None, |cfg.Pool(archival)|);
    }
    assert own <= plan;
    assert forall k :: 0 <= k < |own| ==> own[k] == plan[k];
  }

  /** When the URLs of both pools lead to different places, a request that may be retried has no place twice in its
      plan exactly when the routed URL is printed as it is written. */
  lemma NoEndpointTwiceIff(cfg: Config, parse: string -> Option<string>, place: string -> string, d: Decision,
                           target: string, height: int)
    requires Distinct(parse, place, BothPools(cfg, d.backend)) && d.targetURL in cfg.Pool(d.backend)
    requires parse(d.targetURL) == Some(target) && CanRetry(cfg, d.backend, height)
    ensures NoRepeats(place, Plan(cfg, parse, d, target, height)) <==> target == d.targetURL
  {
    if target == d.targetURL {
      PlanOnce(cfg, parse, place, d, height);
    } else {
      var pool, plan := cfg.Pool(d.backend), Plan(cfg, parse, d, target, height);
      var j :| 0 <= j < |pool| && pool[j] == d.targetURL;
      assert LeadsTo(parse, place, pool[j], target);
      RoutedAskedAgainIff(cfg, parse, place, d, target, height);
      var k :| 0 < k < |plan| && place(plan[k].target) == place(target);
      PlanStartsWithPrimary(cfg, parse, d, target, height);
    }
  }

  /** Then no place is asked twice, whatever the backends answer, and there are at most as many attempts as endpoints
      in the two pools. */
  lemma NoEndpointTwice(cfg: Config, c: Codec, place: string -> string, net: Net, d: Decision, height: int,
                        tried: seq<Attempt>, resp: Response)
    requires Serves(cfg, c, net, d, d.targetURL, height, tried, resp) && c.parse(d.targetURL) == Some(d.targetURL)
    requires Distinct(c.parse, place, BothPools(cfg, d.backend)) && d.targetURL in cfg.Pool(d.backend)
    ensures NoRepeats(place, tried) && |tried| <= |BothPools(cfg, d.backend)|
  {
    PlanOnce(cfg, c.parse, place, d, height);
    assert tried == Plan(cfg, c.parse, d, d.targetURL, height)[..|tried|];
  }

  // Request counts.

  /** The number of samples of a pool. */
  function Samples(h: Histories): nat {
    if h == [] then 0 else Samples(h[..|h| - 1]) + |h[|h| - 1]|
  }

  lemma {:induction false} SamplesGrow(h: Histories, i: nat, x: real)
    requires i < |h|
    ensures Samples(h[i := h[i] + [x]]) == Samples(h) + 1
  {
    var n := |h| - 1;
    if i == n {
      assert h[i := h[i] + [x]][..n] == h[..n];
    } else {
      SamplesGrow(h[..n], i, x);
      assert h[i := h[i] + [x]][..n] == h[..n][i := h[i] + [x]];
    }
  }

  /** The request counts of all endpoints together. */
  function RequestCount(cfg: Config, log: seq<Recording>): nat {
    Samples(Replay(cfg, AppRPC, log)) + Samples(Replay(cfg, NodeRPC, log)) +
    Samples(Replay(cfg, NodeArchivalRPC, log)) + Samples(Replay(cfg, AppArchivalRPC, log)) +
    Samples(Replay(cfg, AppGRPC, log)) + Samples(Replay(cfg, AppP2P, log))
  }

  lemma CountOfPool(cfg: Config, b: Backend, log: seq<Recording>, r: Recording)
    ensures Samples(Replay(cfg, b, log + [r])) ==
            Samples(Replay(cfg, b, log)) + if r.backend == b && r.url in cfg.Pool(b) then 1 else 0
  {
    ReplayExtend(cfg, b, log, r);
    var i := LastIndex(cfg.Pool(b), r.url);
    if r.backend == b && i.Some? {
      SamplesGrow(Replay(cfg, b, log), i.value, r.sample);
    }
  }

  lemma CountOne(cfg: Config, log: seq<Recording>, r: Recording)
    ensures RequestCount(cfg, log + [r]) == RequestCount(cfg, log) + if r.url in cfg.Pool(r.backend) then 1 else 0
  {
    CountOfPool(cfg, AppRPC, log, r);
    CountOfPool(cfg, NodeRPC, log, r);
    CountOfPool(cfg, NodeArchivalRPC, log, r);
    CountOfPool(cfg, AppArchivalRPC, log, r);
    CountOfPool(cfg, AppGRPC, log, r);
    CountOfPool(cfg, AppP2P, log, r);
  }

  lemma {:induction false} CountAll(cfg: Config, past: seq<Recording>, recs: seq<Recording>, missing: nat)
    requires forall k :: missing <= k < |recs| ==> recs[k].url in cfg.Pool(recs[k].backend)
    requires missing <= 1 && (missing == 1 ==> recs != [] && recs[0].url !in cfg.Pool(recs[0].backend))
    ensures RequestCount(cfg, past + recs) == RequestCount(cfg, past) + |recs| - missing
  {
    if recs == [] {
      assert past + recs == past;
    } else {
      var init, last := recs[..|recs| - 1], recs[|recs| - 1];
      assert past + recs == (past + init) + [last];
      CountOne(cfg, past + init, last);
      if missing == 1 && init == [] {
        assert past + init == past;
      } else {
        CountAll(cfg, past, init, missing);
      }
    }
  }

  /** The request counts grow by exactly the number of attempts, less one when the routed URL was borrowed from (or
      given for) a pool that does not contain it: that latency is not recorded anywhere. */
  lemma RequestCountsGrowByAttempts(cfg: Config, c: Codec, net: Net, d: Decision, target: string, height: int,
                                    tried: seq<Attempt>, resp: Response, past: seq<Recording>)
    requires Serves(cfg, c, net, d, target, height, tried, resp)
    ensures RequestCount(cfg, past + Recordings(net, tried)) ==
            RequestCount(cfg, past) + |tried| - if d.targetURL in cfg.Pool(d.backend) then 0 else 1
  {
    var plan := Plan(cfg, c.parse, d, target, height);
    PlanStartsWithPrimary(cfg, c.parse, d, target, height);
    PlanURLsAreKnown(cfg, c.parse, d, target, height);
    assert tried == plan[..|tried|];
    CountAll(cfg, past, Recordings(net, tried), if d.targetURL in cfg.Pool(d.backend) then 0 else 1);
  }

  lemma PlanURLsAreKnown(cfg: Config, parse: string -> Option<string>, d: Decision, target: string, height: int)
    ensures var plan := Plan(cfg, parse, d, target, height);
            forall k :: 1 <= k < |plan| ==> plan[k].url in cfg.Pool(plan[k].backend)
  {
    if CanRetry(cfg, d.backend, height) {
      ThroughAdds([Primary(d, target)], parse, d.backend, cfg.Pool(d.backend), Some(target), |cfg.Pool(d.backend)|);
      if cfg.HasArchival(d.backend) {
        var archival := ArchivalOf(d.backend);
        ThroughAdds(OwnPool(cfg, parse, d, target), parse, archival, cfg.Pool(archival), None, |cfg.Pool(archival)|);
      }
    }
  }
}
