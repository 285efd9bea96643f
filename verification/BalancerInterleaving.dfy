/** Selection by latency while recordings are in flight (internal/proxy/balancer.go together with
    internal/proxy/latency.go): each endpoint's average is read in some state that its calls of `Update` reach in some
    interleaving. */
module BalancerInterleaving {
  import opened Wrappers
  import opened Latency
  import opened LatencyInterleaving
  import opened Balancer

  /** A state in which the selection loop may find an endpoint that it takes for measured. */
  ghost predicate Found(s: State) {
    && (exists steps :: Run(steps) == Some(s))
    && 0 < |s.calls| < U64
    && (forall i :: 0 <= i < |s.calls| ==> 0.0 < s.calls[i].sample < MAX_FLOAT)
  }

  ghost predicate Indexed(s: State) {
    forall k :: 0 <= k < |s.log| ==> s.log[k] < |s.calls|
  }

  lemma FoundReads(s: State)
    requires Found(s)
    ensures Indexed(s) && s.value == Fold(0.0, Committed(s.calls, s.log)) && s.count == |s.calls| % U64
  {
    var steps :| Run(steps) == Some(s);
    RunKeepsInv(steps, s);
  }

  /** The committed samples of each endpoint. */
  ghost function Commits(states: seq<State>): (h: Histories)
    requires forall j :: 0 <= j < |states| ==> Found(states[j])
    ensures |h| == |states|
    ensures forall j :: 0 <= j < |states| ==> Indexed(states[j]) && h[j] == Committed(states[j].calls, states[j].log)
  {
    FoundIsIndexed(states);
    seq(|states|, j requires 0 <= j < |states| => Committed(states[j].calls, states[j].log))
  }

  lemma FoundIsIndexed(states: seq<State>)
    requires forall j :: 0 <= j < |states| ==> Found(states[j])
    ensures forall j :: 0 <= j < |states| ==> Indexed(states[j])
  {
    forall j | 0 <= j < |states|
      ensures Indexed(states[j])
    {
      FoundReads(states[j]);
    }
  }

  lemma CommittedInRange(calls: seq<Call>, log: seq<nat>)
    requires forall k :: 0 <= k < |log| ==> log[k] < |calls|
    requires forall i :: 0 <= i < |calls| ==> 0.0 < calls[i].sample < MAX_FLOAT
    ensures forall x :: x in Committed(calls, log) ==> 0.0 < x < MAX_FLOAT
  {
  }

  lemma OneReads(s: State)
    requires Found(s) && Indexed(s)
    ensures var committed := Committed(s.calls, s.log);
            && s.count > 0 && s.value == Fold(0.0, committed)
            && (forall x :: x in committed ==> 0.0 < x < MAX_FLOAT)
            && 0.0 <= Fold(0.0, committed) && (Fold(0.0, committed) == 0.0 <==> s.log == [])
  {
    FoundReads(s);
    CommittedInRange(s.calls, s.log);
    FoldStaysPositive(Committed(s.calls, s.log));
  }

  /** What the loop reads: a positive count, and the fold of the committed samples, which is 0.0 exactly while there are
      none. */
  lemma LoopReads(states: seq<State>, j: nat)
    requires j < |states| && forall i :: 0 <= i < |states| ==> Found(states[i])
    ensures states[j].count > 0 && states[j].value == Fold(0.0, Commits(states)[j])
    ensures Compared(Commits(states)[j]) >= 0.0
    ensures Compared(Commits(states)[j]) == 0.0 <==> states[j].log == []
    ensures states[j].log == [] <==> Commits(states)[j] == []
    ensures forall x :: x in Commits(states)[j] ==> 0.0 < x < MAX_FLOAT
  {
    FoundIsIndexed(states);
    OneReads(states[j]);
  }

  /** A slower endpoint is preferred to a faster one with a commit exactly when it has no commit itself: its first
      samples are all in flight. */
  lemma SlowerPreferredIffUncommitted(states: seq<State>, fast: nat, slow: nat)
    requires fast < |states| && slow < |states| && forall j :: 0 <= j < |states| ==> Found(states[j])
    requires states[fast].log != []
    requires forall x, y :: x in Commits(states)[fast] && y in Commits(states)[slow] ==> x < y
    ensures Compared(Commits(states)[slow]) < Compared(Commits(states)[fast]) <==> states[slow].log == []
  {
    LoopReads(states, fast);
    LoopReads(states, slow);
    SlowerFolds(Commits(states)[fast], Commits(states)[slow]);
  }

  lemma SlowerFolds(fast: seq<real>, slow: seq<real>)
    requires fast != [] && forall x, y :: x in fast && y in slow ==> x < y
    requires forall x :: x in fast ==> 0.0 < x < MAX_FLOAT
    ensures slow != [] ==> Compared(fast) <= Compared(slow)
    ensures Compared(fast) > 0.0
  {
    AverageInRange(fast);
    if slow != [] {
      AverageInRange(slow);
      assert Greatest(fast) < Least(slow);
    }
  }

  /** The selection loop picks an endpoint without a commit exactly when there is one; so it never picks an endpoint
      with commits that is slower than another one with commits. */
  lemma PickedIsUncommittedIff(states: seq<State>, picked: nat)
    requires forall j :: 0 <= j < |states| ==> Found(states[j])
    requires Fastest(Commits(states), picked)
    ensures states[picked].log == [] <==> exists j :: 0 <= j < |states| && states[j].log == []
    ensures forall fast :: 0 <= fast < |states| && states[fast].log != [] && states[picked].log != [] ==>
              exists x, y :: x in Commits(states)[fast] && y in Commits(states)[picked] && x >= y
  {
    LoopReads(states, picked);
    if j :| 0 <= j < |states| && states[j].log == [] {
      LoopReads(states, j);
    }
    forall fast | 0 <= fast < |states| && states[fast].log != [] && states[picked].log != []
      ensures exists x, y :: x in Commits(states)[fast] && y in Commits(states)[picked] && x >= y
    {
      if forall x, y :: x in Commits(states)[fast] && y in Commits(states)[picked] ==> x < y {
        SlowerPreferredIffUncommitted(states, fast, picked);
        FastIsBelow(states, fast, picked);
      }
    }
  }

  lemma FastIsBelow(states: seq<State>, fast: nat, slow: nat)
    requires fast < |states| && slow < |states| && forall j :: 0 <= j < |states| ==> Found(states[j])
    requires states[fast].log != [] && states[slow].log != []
    requires forall x, y :: x in Commits(states)[fast] && y in Commits(states)[slow] ==> x < y
    ensures !Fastest(Commits(states), slow)
  {
    LoopReads(states, fast);
    LoopReads(states, slow);
    if Fastest(Commits(states), slow) {
      FastestWins(Commits(states), fast, slow, slow);
    }
  }
}
