/** The snapshot cache of the token store under concurrency (internal/auth/store.go): lookups, mutators and the
    reloads they start, in every interleaving of the points where they touch the table, the cache or the clock.
    A reload reads the table and installs what it read in two separate steps, so an old snapshot can replace a
    newer one; what holds is a bound on how old an answer can be. */
module TokenStaleness {
  import opened Wrappers

  /** The table as lookups see it: token hash to token settings. */
  type Table<Info> = map<string, Info>

  datatype Commit<Info> = Commit(at: int, table: Table<Info>)

  /** Where a call stands. A reload is Loading from its start to its query and Holding until it installs.
      `version`, `asOf` and `readAt` are history: which commit a snapshot shows and when it was read. */
  datatype Stage<Info> =
    | Start
    | Loading(since: int)
    | Holding(since: int, snapshot: Table<Info>, version: nat, readAt: int)
    | Reread
    | Answered(answer: Option<Info>, at: int, version: nat, asOf: int)
    | Finished

  /** A lookup of one hash, or a mutator after its commit (it only has its reload left to do). */
  datatype Call<Info> =
    | Lookup(hash: string, began: int, stage: Stage<Info>)
    | Mutator(stage: Stage<Info>)

  /** The clock, every commit, the fields `cache` and `lastLoad`, and the calls; `version` and `readAt` say which
      snapshot is installed. */
  datatype State<Info> = State(
    now: int,
    commits: seq<Commit<Info>>,
    cache: Table<Info>,
    lastLoad: int,
    version: nat,
    readAt: int,
    calls: seq<Call<Info>>)

  datatype Step<Info> =
    | Tick(elapsed: nat)
    | BeginLookup(hash: string)
    | Check(id: nat)
    | Mutate(table: Table<Info>)
    | Query(id: nat)
    | Install(id: nat)
    | LoadFails(id: nat)
    | Answer(id: nat)

  function Get<Info>(t: Table<Info>, hash: string): Option<Info> {
    if hash in t then Some(t[hash]) else None
  }

  /** The store as its constructor leaves it: the table loaded at time `now`. */
  function Init<Info>(now: int, table: Table<Info>): State<Info> {
    State(now, [Commit(now, table)], table, now, 0, now, [])
  }

  predicate Enabled<Info>(s: State<Info>, e: Step<Info>) {
    match e
    case Tick(_) => true
    case BeginLookup(_) => true
    case Mutate(_) => true
    case Check(i) => i < |s.calls| && s.calls[i].Lookup? && s.calls[i].stage.Start?
    case Query(i) => i < |s.calls| && s.calls[i].stage.Loading? && |s.commits| > 0
    case Install(i) => i < |s.calls| && s.calls[i].stage.Holding?
    case LoadFails(i) => i < |s.calls| && (s.calls[i].stage.Loading? || s.calls[i].stage.Holding?)
    case Answer(i) => i < |s.calls| && s.calls[i].Lookup? && s.calls[i].stage.Reread?
  }

  function AfterLoad<Info>(c: Call<Info>): Stage<Info> {
    if c.Lookup? then Reread else Finished
  }

  function SetStage<Info>(s: State<Info>, i: nat, stage: Stage<Info>): State<Info>
    requires i < |s.calls|
  {
    s.(calls := s.calls[i := s.calls[i].(stage := stage)])
  }

  function Reply<Info>(s: State<Info>, hash: string): Stage<Info> {
    Answered(Get(s.cache, hash), s.now, s.version, s.readAt)
  }

  function Apply<Info>(s: State<Info>, e: Step<Info>, ttl: int): State<Info>
    requires Enabled(s, e)
  {
    match e
    case Tick(elapsed) => s.(now := s.now + elapsed)
    case BeginLookup(hash) => s.(calls := s.calls + [Lookup(hash, s.now, Start)])
    case Mutate(table) =>
      s.(commits := s.commits + [Commit(s.now, table)], calls := s.calls + [Mutator(Loading(s.now))])
    case Check(i) =>
      SetStage(s, i, if s.now - s.lastLoad > ttl then Loading(s.now) else Reply(s, s.calls[i].hash))
    case Query(i) =>
      var v := |s.commits| - 1;
      SetStage(s, i, Holding(s.calls[i].stage.since, s.commits[v].table, v, s.now))
    case Install(i) =>
      var h := s.calls[i].stage;
      SetStage(s.(cache := h.snapshot, lastLoad := s.now, version := h.version, readAt := h.readAt), i,
               AfterLoad(s.calls[i]))
    case LoadFails(i) => SetStage(s, i, AfterLoad(s.calls[i]))
    case Answer(i) => SetStage(s, i, Reply(s, s.calls[i].hash))
  }

  /** The assumption on reloads that install: they do so within d of their start. */
  predicate Timely<Info>(s: State<Info>, e: Step<Info>, d: int)
    requires Enabled(s, e)
  {
    e.Install? ==> s.now - s.calls[e.id].stage.since <= d
  }

  /** The state after a run from `init`, None when some step of it was not possible. */
  function Run<Info>(init: State<Info>, steps: seq<Step<Info>>, ttl: int): Option<State<Info>> {
    if steps == [] then Some(init)
    else
      var last := steps[|steps| - 1];
      match Run(init, steps[..|steps| - 1], ttl)
      case None => None
      case Some(s) => if Enabled(s, last) then Some(Apply(s, last, ttl)) else None
  }

  predicate TimelyRun<Info>(init: State<Info>, steps: seq<Step<Info>>, ttl: int, d: int)
    requires Run(init, steps, ttl).Some?
  {
    steps == [] ||
    (var prefix := steps[..|steps| - 1];
     TimelyRun(init, prefix, ttl, d) && Timely(Run(init, prefix, ttl).value, steps[|steps| - 1], d))
  }

  /** Commit v was the table's content at instant t. */
  predicate HeldAt<Info>(commits: seq<Commit<Info>>, v: nat, t: int) {
    v < |commits| && commits[v].at <= t && (v + 1 < |commits| ==> t <= commits[v + 1].at)
  }

  /** `asked` marks the lookup whose answer is in question: only its own reload must not fail. */
  ghost predicate StageOk<Info>(s: State<Info>, c: Call<Info>, asked: bool, ttl: int, d: int) {
    match c.stage
    case Start => true
    case Loading(since) => since <= s.now && (c.Lookup? ==> c.began <= since)
    case Holding(since, snapshot, v, readAt) =>
      && since <= readAt <= s.now && (c.Lookup? ==> c.began <= since)
      && HeldAt(s.commits, v, readAt) && snapshot == s.commits[v].table
    case Reread => asked && c.Lookup? ==> c.began <= s.lastLoad
    case Answered(answer, at, v, asOf) =>
      asked && c.Lookup? ==>
        && c.began - ttl - d <= asOf <= at <= s.now
        && HeldAt(s.commits, v, asOf) && answer == Get(s.commits[v].table, c.hash)
    case Finished => true
  }

  ghost predicate CallOk<Info>(s: State<Info>, c: Call<Info>, asked: bool, ttl: int, d: int) {
    (c.Lookup? ==> c.began <= s.now) && StageOk(s, c, asked, ttl, d)
  }

  ghost predicate Inv<Info>(s: State<Info>, asked: nat, ttl: int, d: int) {
    && |s.commits| > 0 && s.commits[|s.commits| - 1].at <= s.now
    && (forall v, w :: 0 <= v <= w < |s.commits| ==> s.commits[v].at <= s.commits[w].at)
    && s.readAt <= s.lastLoad <= s.now && s.lastLoad - s.readAt <= d
    && HeldAt(s.commits, s.version, s.readAt) && s.cache == s.commits[s.version].table
    && (forall i :: 0 <= i < |s.calls| ==> CallOk(s, s.calls[i], i == asked, ttl, d))
  }

  /** Later commits do not change what the table held at an instant that has passed. */
  ghost predicate Follows<Info>(s: State<Info>, s': State<Info>) {
    && s.now <= s'.now && s.lastLoad <= s'.lastLoad
    && |s.commits| <= |s'.commits| <= |s.commits| + 1 && s.commits <= s'.commits
    && (|s'.commits| > |s.commits| ==> s'.commits[|s.commits|].at == s.now)
  }

  lemma CallStaysOk<Info>(s: State<Info>, s': State<Info>, c: Call<Info>, asked: bool, ttl: int, d: int)
    requires Follows(s, s') && CallOk(s, c, asked, ttl, d)
    ensures CallOk(s', c, asked, ttl, d)
  {
  }

  lemma StepFollows<Info>(s: State<Info>, e: Step<Info>, asked: nat, ttl: int, d: int)
    requires Inv(s, asked, ttl, d) && Enabled(s, e)
    ensures Follows(s, Apply(s, e, ttl))
  {
  }

  /** The call that takes a step is in order after it. */
  lemma StepperIsOk<Info>(s: State<Info>, e: Step<Info>, asked: nat, ttl: int, d: int)
    requires ttl >= 0 && d >= 0
    requires Inv(s, asked, ttl, d) && Enabled(s, e) && Timely(s, e, d) && e != LoadFails(asked)
    requires !e.Tick? && !e.BeginLookup? && !e.Mutate?
    ensures var s' := Apply(s, e, ttl); CallOk(s', s'.calls[e.id], e.id == asked, ttl, d)
  {
    assert CallOk(s, s.calls[e.id], e.id == asked, ttl, d);
  }

  lemma CallsStayOk<Info>(s: State<Info>, e: Step<Info>, asked: nat, ttl: int, d: int)
    requires ttl >= 0 && d >= 0
    requires Inv(s, asked, ttl, d) && Enabled(s, e) && Timely(s, e, d) && e != LoadFails(asked)
    ensures var s' := Apply(s, e, ttl);
            forall i :: 0 <= i < |s'.calls| ==> CallOk(s', s'.calls[i], i == asked, ttl, d)
  {
    var s' := Apply(s, e, ttl);
    StepFollows(s, e, asked, ttl, d);
    forall i | 0 <= i < |s'.calls|
      ensures CallOk(s', s'.calls[i], i == asked, ttl, d)
    {
      if i < |s.calls| && s'.calls[i] == s.calls[i] {
        CallStaysOk(s, s', s.calls[i], i == asked, ttl, d);
      } else if i < |s.calls| {
        StepperIsOk(s, e, asked, ttl, d);
      }
    }
  }

  lemma StepKeepsInv<Info>(s: State<Info>, e: Step<Info>, asked: nat, ttl: int, d: int)
    requires ttl >= 0 && d >= 0
    requires Inv(s, asked, ttl, d) && Enabled(s, e) && Timely(s, e, d) && e != LoadFails(asked)
    ensures Inv(Apply(s, e, ttl), asked, ttl, d)
  {
    CallsStayOk(s, e, asked, ttl, d);
    if e.Install? {
      assert CallOk(s, s.calls[e.id], e.id == asked, ttl, d);
    }
  }

  lemma {:induction false} RunKeepsInv<Info>(now: int, table: Table<Info>, steps: seq<Step<Info>>, asked: nat, ttl: int,
                                             d: int)
    requires ttl >= 0 && d >= 0 && LoadFails(asked) !in steps
    requires Run(Init(now, table), steps, ttl).Some? && TimelyRun(Init(now, table), steps, ttl, d)
    ensures Inv(Run(Init(now, table), steps, ttl).value, asked, ttl, d)
  {
    if steps != [] {
      var prefix := steps[..|steps| - 1];
      RunKeepsInv(now, table, prefix, asked, ttl, d);
      StepKeepsInv(Run(Init(now, table), prefix, ttl).value, steps[|steps| - 1], asked, ttl, d);
    }
  }

  /** Bounded staleness: in every interleaving in which reloads install within d, and whatever other reloads fail, the
      answer of a lookup whose own reload does not fail is the table's answer at some instant no earlier than ttl + d
      before the call began and no later than its return. */
  lemma BoundedStaleness<Info>(now: int, table: Table<Info>, steps: seq<Step<Info>>, ttl: int, d: int, i: nat)
      returns (v: nat, t: int)
    requires ttl >= 0 && d >= 0
    requires Run(Init(now, table), steps, ttl).Some? && TimelyRun(Init(now, table), steps, ttl, d)
    requires LoadFails(i) !in steps
    requires var s := Run(Init(now, table), steps, ttl).value;
             i < |s.calls| && s.calls[i].Lookup? && s.calls[i].stage.Answered?
    ensures var s := Run(Init(now, table), steps, ttl).value;
            var c := s.calls[i];
            && HeldAt(s.commits, v, t)
            && c.began - ttl - d <= t <= c.stage.at
            && c.stage.answer == Get(s.commits[v].table, c.hash)
  {
    RunKeepsInv(now, table, steps, i, ttl, d);
    var s := Run(Init(now, table), steps, ttl).value;
    assert CallOk(s, s.calls[i], true, ttl, d);
    v, t := s.calls[i].stage.version, s.calls[i].stage.asOf;
  }

  /** A hash that every commit from the w-th on lacks (its row was deleted or rotated away) is accepted by no call
      that begins more than ttl + d after that commit and whose own reload does not fail. */
  lemma RevokedTokenIsRefused<Info>(now: int, table: Table<Info>, steps: seq<Step<Info>>, ttl: int, d: int, i: nat,
                                    w: nat)
    requires ttl >= 0 && d >= 0
    requires Run(Init(now, table), steps, ttl).Some? && TimelyRun(Init(now, table), steps, ttl, d)
    requires LoadFails(i) !in steps
    requires var s := Run(Init(now, table), steps, ttl).value;
             && i < |s.calls| && s.calls[i].Lookup? && s.calls[i].stage.Answered?
             && w < |s.commits| && s.calls[i].began > s.commits[w].at + ttl + d
             && forall v :: w <= v < |s.commits| ==> s.calls[i].hash !in s.commits[v].table
    ensures Run(Init(now, table), steps, ttl).value.calls[i].stage.answer == None
  {
    RunKeepsInv(now, table, steps, i, ttl, d);
    var v, t := BoundedStaleness(now, table, steps, ttl, d, i);
    var s := Run(Init(now, table), steps, ttl).value;
    assert v >= w;
  }

  lemma Extend<Info>(init: State<Info>, steps: seq<Step<Info>>, s: State<Info>, e: Step<Info>, ttl: int, d: int)
    requires Run(init, steps, ttl) == Some(s) && Enabled(s, e)
    ensures Run(init, steps + [e], ttl) == Some(Apply(s, e, ttl))
    ensures TimelyRun(init, steps, ttl, d) && Timely(s, e, d) ==> TimelyRun(init, steps + [e], ttl, d)
  {
    assert (steps + [e])[..|steps|] == steps;
  }

  /** A timely run in which every reload succeeds, and the state it ends in. */
  ghost predicate Reaches<Info>(init: State<Info>, steps: seq<Step<Info>>, s: State<Info>, ttl: int, d: int) {
    && Run(init, steps, ttl) == Some(s) && TimelyRun(init, steps, ttl, d)
    && (forall k :: 0 <= k < |steps| ==> !steps[k].LoadFails?)
  }

  lemma ExtendTimely<Info>(init: State<Info>, steps: seq<Step<Info>>, s: State<Info>, e: Step<Info>, ttl: int, d: int)
      returns (steps': seq<Step<Info>>, s': State<Info>)
    requires Reaches(init, steps, s, ttl, d) && Enabled(s, e) && Timely(s, e, d) && !e.LoadFails?
    ensures Reaches(init, steps', s', ttl, d) && s' == Apply(s, e, ttl)
  {
    Extend(init, steps, s, e, ttl, d);
    steps', s' := steps + [e], Apply(s, e, ttl);
  }

  /** A stale lookup starts to reload and reads the table just before the row is deleted. */
  lemma StaleSnapshotTaken<Info>(hash: string, info: Info, ttl: nat, d: nat)
      returns (steps: seq<Step<Info>>, s: State<Info>)
    ensures Reaches(Init(0, map[hash := info]), steps, s, ttl, d)
    ensures s == State(ttl + 1, [Commit(0, map[hash := info]), Commit(ttl + 1, map[])], map[hash := info], 0, 0, 0,
                       [Lookup(hash, ttl + 1, Holding(ttl + 1, map[hash := info], 0, ttl + 1)),
                        Mutator(Loading(ttl + 1))])
  {
    steps, s := [], Init(0, map[hash := info]);
    var init := s;
    steps, s := ExtendTimely(init, steps, s, Tick(ttl + 1), ttl, d);
    steps, s := ExtendTimely(init, steps, s, BeginLookup(hash), ttl, d);
    steps, s := ExtendTimely(init, steps, s, Check(0), ttl, d);
    steps, s := ExtendTimely(init, steps, s, Query(0), ttl, d);
    steps, s := ExtendTimely(init, steps, s, Mutate(map[]), ttl, d);
  }

  /** The first half of the worst run: the deleting call reloads at once, and only then does the older snapshot
      arrive and replace the newer one. */
  lemma OlderSnapshotWins<Info>(hash: string, info: Info, ttl: nat, d: nat)
      returns (steps: seq<Step<Info>>, before: State<Info>, s: State<Info>)
    ensures Reaches(Init(0, map[hash := info]), steps, s, ttl, d)
    ensures steps != [] && Run(Init(0, map[hash := info]), steps[..|steps| - 1], ttl) == Some(before)
    ensures before.version == 1 && s.version == 0
    ensures s == State(ttl + 1 + d, [Commit(0, map[hash := info]), Commit(ttl + 1, map[])], map[hash := info],
                       ttl + 1 + d, 0, ttl + 1, [Lookup(hash, ttl + 1, Reread), Mutator(Finished)])
  {
    var init := Init(0, map[hash := info]);
    steps, s := StaleSnapshotTaken(hash, info, ttl, d);
    steps, s := ExtendTimely(init, steps, s, Query(1), ttl, d);
    steps, s := ExtendTimely(init, steps, s, Install(1), ttl, d);
    steps, s := ExtendTimely(init, steps, s, Tick(d), ttl, d);
    before := s;
    var prefix := steps;
    Extend(init, steps, s, Install(0), ttl, d);
    steps, s := steps + [Install(0)], Apply(s, Install(0), ttl);
    assert steps[..|steps| - 1] == prefix;
  }

  /** The bound cannot be lowered: for every ttl and d some timely run accepts a deleted token in a call that
      begins exactly ttl + d after the deletion. */
  lemma BoundIsTight<Info>(hash: string, info: Info, ttl: nat, d: nat)
      returns (steps: seq<Step<Info>>, s: State<Info>, i: nat)
    ensures Reaches(Init(0, map[hash := info]), steps, s, ttl, d)
    ensures |s.commits| == 2 && s.commits[1].table == map[]
    ensures i < |s.calls| && s.calls[i].Lookup? && s.calls[i].hash == hash && s.calls[i].stage.Answered?
    ensures s.calls[i].began == s.commits[1].at + ttl + d && s.calls[i].stage.answer == Some(info)
  {
    var init := Init(0, map[hash := info]);
    var before: State<Info>;
    steps, before, s := OlderSnapshotWins(hash, info, ttl, d);
    i := |s.calls|;
    steps, s := ExtendTimely(init, steps, s, Tick(ttl), ttl, d);
    steps, s := ExtendTimely(init, steps, s, BeginLookup(hash), ttl, d);
    steps, s := ExtendTimely(init, steps, s, Check(i), ttl, d);
  }

  /** The lookup's own failed reload loses the bound although every other reload succeeds in time: however long ago
      the row was deleted, the lookup still accepts the token. */
  lemma FailedReloadKeepsRevokedToken<Info>(hash: string, info: Info, ttl: nat, d: nat, wait: nat)
      returns (steps: seq<Step<Info>>, s: State<Info>)
    requires wait > ttl
    ensures Run(Init(0, map[hash := info]), steps, ttl) == Some(s)
    ensures TimelyRun(Init(0, map[hash := info]), steps, ttl, d)
    ensures forall i :: LoadFails(i) in steps <==> i == 2
    ensures s.commits == [Commit(0, map[hash := info]), Commit(ttl + 1, map[])]
    ensures |s.calls| == 3 && s.calls[0].stage.Answered? && s.calls[1] == Mutator(Finished)
    ensures s.calls[2].Lookup? && s.calls[2].hash == hash && s.calls[2].began == s.commits[1].at + d + wait
    ensures s.calls[2].stage.Answered? && s.calls[2].stage.answer == Some(info)
  {
    var init := Init(0, map[hash := info]);
    var before: State<Info>;
    steps, before, s := OlderSnapshotWins(hash, info, ttl, d);
    steps, s := ExtendTimely(init, steps, s, Answer(0), ttl, d);
    steps, s := ExtendTimely(init, steps, s, Tick(wait), ttl, d);
    steps, s := ExtendTimely(init, steps, s, BeginLookup(hash), ttl, d);
    steps, s := ExtendTimely(init, steps, s, Check(2), ttl, d);
    steps, s := FailAndAnswer(init, steps, s, 2, ttl, d);
  }

  /** A reload fails, the first of the run to do so, and its lookup answers. */
  lemma FailAndAnswer<Info>(init: State<Info>, steps: seq<Step<Info>>, s: State<Info>, i: nat, ttl: int, d: int)
      returns (steps': seq<Step<Info>>, s': State<Info>)
    requires Reaches(init, steps, s, ttl, d) && i < |s.calls| && s.calls[i].Lookup? && s.calls[i].stage.Loading?
    ensures Run(init, steps', ttl) == Some(s') && TimelyRun(init, steps', ttl, d)
    ensures forall j :: LoadFails(j) in steps' <==> j == i
    ensures s' == SetStage(s, i, Reply(s, s.calls[i].hash))
  {
    var t := Apply(s, LoadFails(i), ttl);
    Extend(init, steps, s, LoadFails(i), ttl, d);
    Extend(init, steps + [LoadFails(i)], t, Answer(i), ttl, d);
    steps', s' := steps + [LoadFails(i)] + [Answer(i)], Apply(t, Answer(i), ttl);
    assert steps'[|steps|] == LoadFails(i);
  }

  /** Which reloads fail in a run that ends in s: those of lookups, of mutators, of both or of none. */
  ghost predicate Allowed<Info>(s: State<Info>, steps: seq<Step<Info>>, lookups: bool, mutators: bool) {
    forall i: nat :: LoadFails(i) in steps && i < |s.calls| ==> if s.calls[i].Lookup? then lookups else mutators
  }

  /** If the i-th call is a lookup with an answer, the table gave that answer at most ttl + d before the call. */
  ghost predicate Fresh<Info>(s: State<Info>, i: nat, ttl: int, d: int) {
    i < |s.calls| && s.calls[i].Lookup? && s.calls[i].stage.Answered? ==>
      exists v, t :: FreshAt(s, s.calls[i], v, t, ttl, d)
  }

  ghost predicate FreshAt<Info>(s: State<Info>, c: Call<Info>, v: nat, t: int, ttl: int, d: int)
    requires c.Lookup? && c.stage.Answered?
  {
    && HeldAt(s.commits, v, t) && c.began - ttl - d <= t <= c.stage.at
    && c.stage.answer == Get(s.commits[v].table, c.hash)
  }

  ghost predicate FreshRun<Info>(now: int, table: Table<Info>, steps: seq<Step<Info>>, i: nat, lookups: bool,
                                 mutators: bool, ttl: int, d: int) {
    var r := Run(Init(now, table), steps, ttl);
    r.Some? && TimelyRun(Init(now, table), steps, ttl, d) && Allowed(r.value, steps, lookups, mutators) ==>
      Fresh(r.value, i, ttl, d)
  }

  lemma FreshUnlessLookupsFail<Info>(now: int, table: Table<Info>, steps: seq<Step<Info>>, i: nat, mutators: bool,
                                     ttl: nat, d: nat)
    ensures FreshRun(now, table, steps, i, false, mutators, ttl, d)
  {
    var r := Run(Init(now, table), steps, ttl);
    if r.Some? && TimelyRun(Init(now, table), steps, ttl, d) && Allowed(r.value, steps, false, mutators) {
      var s := r.value;
      if i < |s.calls| && s.calls[i].Lookup? && s.calls[i].stage.Answered? {
        var v, t := BoundedStaleness(now, table, steps, ttl, d, i);
        assert FreshAt(s, s.calls[i], v, t, ttl, d);
      }
    }
  }

  /** With installs within d, every answer of every run is at most ttl + d old exactly when the reloads of lookups may
      not fail; whether those of mutators may makes no difference. */
  lemma BoundHoldsIffLookupsReload<Info>(hash: string, info: Info, lookups: bool, mutators: bool, ttl: nat, d: nat)
    ensures (forall now, table: Table<Info>, steps, i: nat ::
               FreshRun(now, table, steps, i, lookups, mutators, ttl, d)) <==>
            !lookups
  {
    if lookups {
      var steps, s := FailedReloadKeepsRevokedToken(hash, info, ttl, d, ttl + 1);
      assert forall v, t :: HeldAt(s.commits, v, t) && v == 0 ==> t <= ttl + 1;
      assert forall v, t :: !FreshAt(s, s.calls[2], v, t, ttl, d);
      assert !FreshRun(0, map[hash := info], steps, 2, lookups, mutators, ttl, d);
    } else {
      forall now, table: Table<Info>, steps, i: nat
        ensures FreshRun(now, table, steps, i, lookups, mutators, ttl, d)
      {
        FreshUnlessLookupsFail(now, table, steps, i, mutators, ttl, d);
      }
    }
  }

  // When the installed version can go down.

  /** The reloads between their start and their end. */
  function InFlight<Info>(s: State<Info>): set<nat> {
    set i: nat | i < |s.calls| && (s.calls[i].stage.Loading? || s.calls[i].stage.Holding?)
  }

  /** At no time of the run are more than k reloads in flight. */
  predicate AtMost<Info>(init: State<Info>, steps: seq<Step<Info>>, ttl: int, k: nat)
    requires Run(init, steps, ttl).Some?
  {
    && |InFlight(Run(init, steps, ttl).value)| <= k
    && (steps == [] || AtMost(init, steps[..|steps| - 1], ttl, k))
  }

  /** Whatever is still to be installed is no older than what is installed. */
  ghost predicate Newer<Info>(s: State<Info>) {
    && s.version < |s.commits|
    && (forall i :: 0 <= i < |s.calls| && s.calls[i].stage.Holding? ==>
          s.version <= s.calls[i].stage.version < |s.commits|)
  }

  lemma OnlyOne<T>(s: set<T>, x: T, y: T)
    requires |s| <= 1 && x in s && y in s
    ensures x == y
  {
    assert |s - {x}| == 0;
  }

  lemma StepKeepsNewer<Info>(s: State<Info>, e: Step<Info>, ttl: int)
    requires Newer(s) && Enabled(s, e) && |InFlight(s)| <= 1
    ensures Newer(Apply(s, e, ttl)) && Apply(s, e, ttl).version >= s.version
  {
    var s' := Apply(s, e, ttl);
    forall i | 0 <= i < |s'.calls| && s'.calls[i].stage.Holding?
      ensures s'.version <= s'.calls[i].stage.version < |s'.commits|
    {
      if e.Install? {
        assert i in InFlight(s) && e.id in InFlight(s);
        OnlyOne(InFlight(s), i, e.id);
      }
    }
  }

  /** The version installed after the first n steps is no newer than the one installed at the end. */
  ghost predicate Monotone<Info>(now: int, table: Table<Info>, steps: seq<Step<Info>>, n: nat, ttl: int) {
    var init := Init(now, table);
    Run(init, steps, ttl).Some? && n <= |steps| && Run(init, steps[..n], ttl).Some? ==>
      Run(init, steps[..n], ttl).value.version <= Run(init, steps, ttl).value.version
  }

  lemma {:induction false} OneReloadIsMonotone<Info>(now: int, table: Table<Info>, steps: seq<Step<Info>>, n: nat,
                                                     ttl: int)
    requires Run(Init(now, table), steps, ttl).Some? && AtMost(Init(now, table), steps, ttl, 1) && n <= |steps|
    ensures Newer(Run(Init(now, table), steps, ttl).value) && Monotone(now, table, steps, n, ttl)
  {
    if n == |steps| {
      assert steps[..n] == steps;
    }
    if steps != [] {
      var prefix := steps[..|steps| - 1];
      var m := if n < |steps| then n else 0;
      OneReloadIsMonotone(now, table, prefix, m, ttl);
      assert n < |steps| ==> prefix[..n] == steps[..n];
      StepKeepsNewer(Run(Init(now, table), prefix, ttl).value, steps[|steps| - 1], ttl);
    }
  }

  lemma {:induction false} FewCalls<Info>(init: State<Info>, steps: seq<Step<Info>>, ttl: int, k: nat)
    requires Run(init, steps, ttl).Some? && |Run(init, steps, ttl).value.calls| <= k
    ensures AtMost(init, steps, ttl, k)
  {
    InFlightFits(Run(init, steps, ttl).value, |Run(init, steps, ttl).value.calls|);
    if steps != [] {
      FewCalls(init, steps[..|steps| - 1], ttl, k);
    }
  }

  lemma {:induction false} Below(s: set<nat>, n: nat)
    requires forall i :: i in s ==> i < n
    ensures |s| <= n
  {
    if n == 0 {
      assert s == {};
    } else {
      Below(s - {n - 1}, n - 1);
    }
  }

  lemma InFlightFits<Info>(s: State<Info>, n: nat)
    requires n == |s.calls|
    ensures |InFlight(s)| <= n
  {
    Below(InFlight(s), n);
  }

  /** In runs with at most k reloads in flight the installed version never goes down exactly when k is at most one. */
  lemma MonotoneIffOneReload<Info>(hash: string, info: Info, ttl: nat, k: nat)
    ensures (forall now, table: Table<Info>, steps, n: nat ::
               Run(Init(now, table), steps, ttl).Some? && AtMost(Init(now, table), steps, ttl, k) ==>
                 Monotone(now, table, steps, n, ttl)) <==>
            k <= 1
  {
    if k <= 1 {
      forall now, table: Table<Info>, steps, n: nat |
        Run(Init(now, table), steps, ttl).Some? && AtMost(Init(now, table), steps, ttl, k)
        ensures Monotone(now, table, steps, n, ttl)
      {
        if n <= |steps| {
          AtMostMore(Init(now, table), steps, ttl, k, 1);
          OneReloadIsMonotone(now, table, steps, n, ttl);
        }
      }
    } else {
      var steps, before, s := OlderSnapshotWins(hash, info, ttl, 0);
      FewCalls(Init(0, map[hash := info]), steps, ttl, k);
      assert !Monotone(0, map[hash := info], steps, |steps| - 1, ttl);
    }
  }

  lemma {:induction false} AtMostMore<Info>(init: State<Info>, steps: seq<Step<Info>>, ttl: int, k: nat, m: nat)
    requires Run(init, steps, ttl).Some? && AtMost(init, steps, ttl, k) && k <= m
    ensures AtMost(init, steps, ttl, m)
  {
    if steps != [] {
      AtMostMore(init, steps[..|steps| - 1], ttl, k, m);
    }
  }
}
