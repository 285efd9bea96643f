/** Buffered Go channels whose senders never block: `select { case ch <- x: default: }`. */
module Channels {

  /** An attempt to send: the entry, and how many entries the receiver had taken by then. */
  datatype Offer<T> = Offer(entry: T, taken: nat)

  /** The entries that get into a buffer of the given capacity: one is dropped exactly when as many entries as the
      buffer holds are waiting in it. */
  function Kept<T>(offers: seq<Offer<T>>, capacity: nat): seq<T> {
    if offers == [] then []
    else
      var earlier, last := Kept(offers[..|offers| - 1], capacity), offers[|offers| - 1];
      if |earlier| - last.taken < capacity then earlier + [last.entry] else earlier
  }

  function Entries<T>(offers: seq<Offer<T>>): (s: seq<T>)
    ensures |s| == |offers| && forall i :: 0 <= i < |s| ==> s[i] == offers[i].entry
  {
    seq(|offers|, i requires 0 <= i < |offers| => offers[i].entry)
  }

  lemma KeptMore<T>(offers: seq<Offer<T>>, capacity: nat, o: Offer<T>)
    ensures Kept(offers + [o], capacity) ==
            Kept(offers, capacity) + if |Kept(offers, capacity)| - o.taken < capacity then [o.entry] else []
  {
    assert (offers + [o])[..|offers|] == offers;
  }

  lemma EntriesMore<T>(offers: seq<Offer<T>>, o: Offer<T>)
    ensures Entries(offers + [o]) == Entries(offers) + [o.entry]
  {
  }

  /** s is t with some elements left out. */
  predicate Subsequence<T(==)>(s: seq<T>, t: seq<T>) {
    if s == [] then true
    else if t == [] then false
    else
      || (s[|s| - 1] == t[|t| - 1] && Subsequence(s[..|s| - 1], t[..|t| - 1]))
      || Subsequence(s, t[..|t| - 1])
  }

  /** What gets through is the sent sequence with some entries left out, in order. */
  lemma {:induction false} KeptInOrder<T>(offers: seq<Offer<T>>, capacity: nat)
    ensures Subsequence(Kept(offers, capacity), Entries(offers))
  {
    if offers != [] {
      var prefix := offers[..|offers| - 1];
      KeptInOrder(prefix, capacity);
      var kept, all := Kept(offers, capacity), Entries(offers);
      assert all[..|all| - 1] == Entries(prefix);
      if kept != Kept(prefix, capacity) {
        assert kept[..|kept| - 1] == Kept(prefix, capacity);
      }
    }
  }

  /** Nothing is dropped exactly when the buffer is never full at a send. */
  lemma {:induction false} NothingDroppedIff<T>(offers: seq<Offer<T>>, capacity: nat)
    ensures Kept(offers, capacity) == Entries(offers) <==>
            forall i :: 0 <= i < |offers| ==> i - offers[i].taken < capacity
    ensures |Kept(offers, capacity)| <= |offers|
  {
    if offers != [] {
      var n := |offers| - 1;
      var prefix, last := offers[..n], offers[n];
      NothingDroppedIff(prefix, capacity);
      assert Entries(offers) == Entries(prefix) + [last.entry];
      if Kept(offers, capacity) == Entries(offers) {
        assert |Kept(offers, capacity)| == n + 1;
        assert Kept(prefix, capacity) == Kept(offers, capacity)[..n] == Entries(prefix);
      }
      assert forall i :: 0 <= i < n ==> prefix[i] == offers[i];
    }
  }
}
