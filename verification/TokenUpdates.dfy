/** Overlapping updates of one token (internal/auth/store.go): an update reads the whole row and later writes all of its
    settings back, so it can carry old settings past the update of another caller. */
module TokenUpdates {
  import opened Wrappers
  import opened Text
  import opened TokenStore

  /** An update between its read and the end of its write. */
  datatype Call = Call(req: UpdateRequest, read: Row, done: bool)

  /** The row, unless it has been deleted, and the updates that have read it. */
  datatype State = State(row: Option<Row>, calls: seq<Call>)

  /** The statements that touch the row. */
  datatype Step =
    | Read(req: UpdateRequest)
    | Write(id: nat, now: int)
    | Rotate(hash: string, prefix: string, now: int)
    | Delete

  predicate Enabled(s: State, e: Step) {
    match e
    case Read(_) => s.row.Some?
    case Write(i, _) => i < |s.calls| && !s.calls[i].done
    case _ => true
  }

  function Apply(s: State, e: Step): State
    requires Enabled(s, e)
  {
    match e
    case Read(req) => s.(calls := s.calls + [Call(req, s.row.value, false)])
    case Write(i, now) =>
      var c := s.calls[i];
      State(if s.row.None? then None else Some(Written(s.row.value, c.read, c.req, now)),
            s.calls[i := c.(done := true)])
    case Rotate(hash, prefix, now) =>
      s.(row := if s.row.None? then None else Some(s.row.value.(hash := hash, prefix := prefix, updatedAt := now)))
    case Delete => s.(row := None)
  }

  /** The state after more steps, None when some step of them was not possible. */
  function Run(s: State, steps: seq<Step>): Option<State> {
    if steps == [] then Some(s)
    else
      var last := steps[|steps| - 1];
      match Run(s, steps[..|steps| - 1])
      case None => None
      case Some(t) => if Enabled(t, last) then Some(Apply(t, last)) else None
  }

  datatype Field = Name | Enablement | RateLimit | Scope | Methods | Expiry

  datatype Setting = Text(text: string) | Flag(flag: bool) | Number(number: int) | When(instant: Option<int>)

  function SettingOf(r: Row, f: Field): Setting {
    match f
    case Name => Text(r.name)
    case Enablement => Flag(r.enabled)
    case RateLimit => Number(r.rateLimit)
    case Scope => Text(r.scope)
    case Methods => Text(r.methods)
    case Expiry => When(r.expiresAt)
  }

  /** What a request sets a field to, None when it leaves it alone. */
  function Given(req: UpdateRequest, f: Field): Option<Setting> {
    match f
    case Name => if req.name.Some? then Some(Text(req.name.value)) else None
    case Enablement => if req.enabled.Some? then Some(Flag(req.enabled.value)) else None
    case RateLimit => if req.rateLimit.Some? then Some(Number(req.rateLimit.value)) else None
    case Scope => if req.scope.Some? then Some(Text(req.scope.value)) else None
    case Methods => if req.allowedMethods.Some? then Some(Text(Join(req.allowedMethods.value, ','))) else None
    case Expiry => if req.expiresAt.Some? then Some(When(req.expiresAt)) else None
  }

  /** A write sets what was given, and sets everything else to what was read. */
  lemma WriteSets(current: Row, read: Row, req: UpdateRequest, now: int, f: Field)
    ensures SettingOf(Written(current, read, req, now), f) ==
            if Given(req, f).Some? then Given(req, f).value else SettingOf(read, f)
  {
    JoinSplit(read.methods, ',');
  }

  predicate Writes(steps: seq<Step>, j: nat) {
    exists k :: 0 <= k < |steps| && steps[k].Write? && steps[k].id == j
  }

  /** No update that writes in these steps sets f. */
  predicate Spared(t: State, steps: seq<Step>, f: Field) {
    forall k :: 0 <= k < |steps| && steps[k].Write? && steps[k].id < |t.calls| ==>
      Given(t.calls[steps[k].id].req, f).None?
  }

  /** After each of the steps f is what it was before them. */
  ghost predicate Survives(s: State, steps: seq<Step>, f: Field)
    requires s.row.Some?
  {
    forall m {:trigger steps[..m]} ::
      0 <= m <= |steps| && Run(s, steps[..m]).Some? && Run(s, steps[..m]).value.row.Some? ==>
        SettingOf(Run(s, steps[..m]).value.row.value, f) == SettingOf(s.row.value, f)
  }

  /** Every update that had read before these steps and writes in them has read f as it is. */
  predicate ReadAlike(s: State, steps: seq<Step>, f: Field)
    requires s.row.Some?
  {
    forall j :: 0 <= j < |s.calls| && !s.calls[j].done && Writes(steps, j) ==>
      SettingOf(s.calls[j].read, f) == SettingOf(s.row.value, f)
  }

  /** What more steps leave of the calls, and that a deleted row stays deleted. */
  ghost predicate CallsKept(s: State, t: State) {
    && |s.calls| <= |t.calls|
    && (forall j :: 0 <= j < |s.calls| ==> t.calls[j].(done := false) == s.calls[j].(done := false))
    && (forall j :: 0 <= j < |s.calls| && s.calls[j].done ==> t.calls[j].done)
    && (s.row.None? ==> t.row.None?)
  }

  lemma {:induction false} RunKeepsCalls(s: State, steps: seq<Step>, t: State)
    requires Run(s, steps) == Some(t)
    ensures CallsKept(s, t)
  {
    if steps != [] {
      RunKeepsCalls(s, steps[..|steps| - 1], Run(s, steps[..|steps| - 1]).value);
    }
  }

  lemma SurvivesMore(s: State, steps: seq<Step>, f: Field, t: State)
    requires s.row.Some? && steps != [] && Run(s, steps) == Some(t) && t.row.Some?
    ensures Survives(s, steps, f) <==>
            Survives(s, steps[..|steps| - 1], f) && SettingOf(t.row.value, f) == SettingOf(s.row.value, f)
  {
    var n := |steps| - 1;
    assert forall m :: 0 <= m <= n ==> steps[..n][..m] == steps[..m];
    assert steps[..n + 1] == steps;
    if Survives(s, steps, f) {
      forall m | 0 <= m <= n && Run(s, steps[..n][..m]).Some? && Run(s, steps[..n][..m]).value.row.Some?
        ensures SettingOf(Run(s, steps[..n][..m]).value.row.value, f) == SettingOf(s.row.value, f)
      {
        assert steps[..n][..m] == steps[..m];
      }
    }
    if Survives(s, steps[..n], f) && SettingOf(t.row.value, f) == SettingOf(s.row.value, f) {
      forall m | 0 <= m <= n + 1 && Run(s, steps[..m]).Some? && Run(s, steps[..m]).value.row.Some?
        ensures SettingOf(Run(s, steps[..m]).value.row.value, f) == SettingOf(s.row.value, f)
      {
        assert m <= n ==> steps[..n][..m] == steps[..m];
      }
    }
  }

  /** While f survives, every update that reads reads it as it is. */
  lemma {:induction false} NewReads(s: State, steps: seq<Step>, f: Field, t: State, j: nat)
    requires s.row.Some? && Run(s, steps) == Some(t) && Survives(s, steps, f)
    requires |s.calls| <= j < |t.calls|
    ensures SettingOf(t.calls[j].read, f) == SettingOf(s.row.value, f)
  {
    if steps != [] {
      var n := |steps| - 1;
      var p := Run(s, steps[..n]).value;
      assert forall m :: 0 <= m <= n ==> steps[..n][..m] == steps[..m];
      assert Survives(s, steps[..n], f);
      if j < |p.calls| {
        NewReads(s, steps[..n], f, p, j);
      } else {
        assert steps[..n] == steps[..n][..n];
      }
    }
  }

  lemma ReadAlikeMore(s: State, init: seq<Step>, last: Step, f: Field)
    requires s.row.Some?
    ensures ReadAlike(s, init + [last], f) <==>
            && ReadAlike(s, init, f)
            && (last.Write? && last.id < |s.calls| && !s.calls[last.id].done ==>
                  SettingOf(s.calls[last.id].read, f) == SettingOf(s.row.value, f))
  {
    forall j: nat
      ensures Writes(init + [last], j) <==> Writes(init, j) || (last.Write? && last.id == j)
    {
      WritesMore(init, last, j);
    }
  }

  lemma WritesMore(steps: seq<Step>, last: Step, j: nat)
    ensures Writes(steps + [last], j) <==> Writes(steps, j) || (last.Write? && last.id == j)
  {
    var all := steps + [last];
    if k :| 0 <= k < |steps| && steps[k].Write? && steps[k].id == j {
      assert all[k].Write? && all[k].id == j;
    }
    assert all[|steps|] == last;
  }

  /** One step leaves f alone, unless it is a write, which sets it to what was read. */
  lemma StepSets(p: State, last: Step, f: Field)
    requires Enabled(p, last) && Apply(p, last).row.Some?
    requires last.Write? ==> Given(p.calls[last.id].req, f).None?
    ensures p.row.Some?
    ensures SettingOf(Apply(p, last).row.value, f) ==
            if last.Write? then SettingOf(p.calls[last.id].read, f) else SettingOf(p.row.value, f)
  {
    if last.Write? {
      WriteSets(p.row.value, p.calls[last.id].read, p.calls[last.id].req, last.now, f);
    }
  }

  lemma SparedLast(p: State, init: seq<Step>, last: Step, f: Field)
    requires Enabled(p, last) && Spared(Apply(p, last), init + [last], f) && last.Write?
    ensures Given(p.calls[last.id].req, f).None?
  {
    assert (init + [last])[|init|] == last;
  }

  /** An update's fields survive the further calls that do not set them if and only if every other update that had read
      before it wrote, and writes after it, had read those very settings. `s` is the state right after the write. */
  lemma {:induction false} UpdateSurvivesIff(s: State, steps: seq<Step>, f: Field, t: State)
    requires s.row.Some? && Run(s, steps) == Some(t) && t.row.Some? && Spared(t, steps, f)
    ensures Survives(s, steps, f) <==> ReadAlike(s, steps, f)
  {
    if steps != [] {
      var n := |steps| - 1;
      var init, last := steps[..n], steps[n];
      var p := Run(s, init).value;
      assert steps == init + [last];
      if last.Write? {
        SparedLast(p, init, last, f);
      }
      StepSets(p, last, f);
      RunKeepsCalls(s, init, p);
      SparedLess(p, t, init, last, f);
      UpdateSurvivesIff(s, init, f, p);
      SurvivesMore(s, steps, f, t);
      ReadAlikeMore(s, init, last, f);
      assert init[..n] == init;
      assert Survives(s, init, f) ==> SettingOf(p.row.value, f) == SettingOf(s.row.value, f);
      if last.Write? {
        if last.id >= |s.calls| {
          if Survives(s, init, f) {
            NewReads(s, init, f, p, last.id);
          }
        } else {
          assert p.calls[last.id].(done := false) == s.calls[last.id].(done := false);
        }
      }
    }
  }

  lemma SparedLess(p: State, t: State, init: seq<Step>, last: Step, f: Field)
    requires Enabled(p, last) && t == Apply(p, last) && Spared(t, init + [last], f)
    ensures Spared(p, init, f)
  {
    forall k | 0 <= k < |init| && init[k].Write? && init[k].id < |p.calls|
      ensures Given(p.calls[init[k].id].req, f).None?
    {
      assert (init + [last])[k] == init[k];
      assert t.calls[init[k].id].(done := false) == p.calls[init[k].id].(done := false);
    }
  }

  /** The setting that an update has just written is the given one, so that is what survives or is lost. */
  lemma OwnWriteSets(s: State, i: nat, now: int, f: Field)
    requires s.row.Some? && Enabled(s, Write(i, now)) && Given(s.calls[i].req, f).Some?
    ensures var t := Apply(s, Write(i, now)); t.row.Some? && SettingOf(t.row.value, f) == Given(s.calls[i].req, f).value
  {
    WriteSets(s.row.value, s.calls[i].read, s.calls[i].req, now, f);
  }

  /** The states of the run in which both updates read, the change is written, and then the other one. */
  function Overlap(row: Row, change: UpdateRequest, other: UpdateRequest, now: int): seq<State> {
    var changed := Written(row, row, change, now);
    [State(Some(row), []),
     State(Some(row), [Call(change, row, false)]),
     State(Some(row), [Call(change, row, false), Call(other, row, false)]),
     State(Some(changed), [Call(change, row, true), Call(other, row, false)]),
     State(Some(Written(changed, row, other, now)), [Call(change, row, true), Call(other, row, true)])]
  }

  lemma {:induction false} OverlapSteps(row: Row, change: UpdateRequest, other: UpdateRequest, now: int)
    ensures var o, writes := Overlap(row, change, other, now), [Write(0, now), Write(1, now)];
            && Enabled(o[0], Read(change)) && Apply(o[0], Read(change)) == o[1]
            && Enabled(o[1], Read(other)) && Apply(o[1], Read(other)) == o[2]
            && Enabled(o[2], writes[0]) && Apply(o[2], writes[0]) == o[3]
            && Enabled(o[3], writes[1]) && Apply(o[3], writes[1]) == o[4]
  {
  }

  lemma {:induction false} OverlapRun(row: Row, change: UpdateRequest, other: UpdateRequest, now: int)
    ensures Run(State(Some(row), []), [Read(change), Read(other), Write(0, now), Write(1, now)]) ==
            Some(Overlap(row, change, other, now)[4])
  {
    var o := Overlap(row, change, other, now);
    var e0, e1, e2, e3 := Read(change), Read(other), Write(0, now), Write(1, now);
    OverlapSteps(row, change, other, now);
    RunOne(o[0], [], o[0], e0);
    RunOne(o[0], [] + [e0], o[1], e1);
    RunOne(o[0], [] + [e0] + [e1], o[2], e2);
    RunOne(o[0], [] + [e0] + [e1] + [e2], o[3], e3);
    assert [] + [e0] + [e1] + [e2] + [e3] == [e0, e1, e2, e3];
  }

  /** Any update that leaves a field alone can undo a change of it: both read, the change is written, then the other. */
  lemma {:induction false} LostUpdate(row: Row, change: UpdateRequest, other: UpdateRequest, f: Field, now: int)
    requires Given(change, f).Some? && Given(change, f).value != SettingOf(row, f) && Given(other, f).None?
    ensures var o := Overlap(row, change, other, now);
            && Run(o[0], [Read(change), Read(other), Write(0, now), Write(1, now)]) == Some(o[4])
            && SettingOf(o[3].row.value, f) == Given(change, f).value
            && SettingOf(o[4].row.value, f) == SettingOf(row, f)
  {
    OverlapRun(row, change, other, now);
    var changed := Written(row, row, change, now);
    WriteSets(row, row, change, now, f);
    WriteSets(changed, row, other, now, f);
  }

  lemma RunOne(s: State, steps: seq<Step>, t: State, e: Step)
    requires Run(s, steps) == Some(t) && Enabled(t, e)
    ensures Run(s, steps + [e]) == Some(Apply(t, e))
  {
    assert (steps + [e])[..|steps|] == steps;
  }

  /** An update that nothing overlaps does what `Store.Update` is specified to do. */
  lemma AloneIsAmended(row: Row, req: UpdateRequest, now: int)
    ensures Run(State(Some(row), []), [Read(req), Write(0, now)]) ==
            Some(State(Some(Amended(row, req, now)), [Call(req, row, true)]))
  {
    var s0 := State(Some(row), []);
    RunOne(s0, [], s0, Read(req));
    assert [] + [Read(req)] == [Read(req)] && [Read(req)] + [Write(0, now)] == [Read(req), Write(0, now)];
    var s1 := Apply(s0, Read(req));
    RunOne(s0, [Read(req)], s1, Write(0, now));
    assert s1.calls == [Call(req, row, false)];
    assert Apply(s1, Write(0, now)).calls == [Call(req, row, true)];
  }

  predicate HasRotation(steps: seq<Step>) {
    exists k :: 0 <= k < |steps| && steps[k].Rotate?
  }

  /** A rotation survives every update, however they overlap, and nothing brings a deleted row back. */
  lemma {:induction false} RotationAndDeletionSurvive(s: State, steps: seq<Step>, t: State)
    requires Run(s, steps) == Some(t) && !HasRotation(steps)
    ensures s.row.None? ==> t.row.None?
    ensures t.row.Some? ==> s.row.Some?
    ensures t.row.Some? ==> t.row.value.hash == s.row.value.hash && t.row.value.prefix == s.row.value.prefix
  {
    if steps != [] {
      var n := |steps| - 1;
      assert forall k :: 0 <= k < n ==> steps[..n][k] == steps[k];
      RotationAndDeletionSurvive(s, steps[..n], Run(s, steps[..n]).value);
    }
  }
}
