/** The pair of generations a build row retains: the one it serves and the one it
    could be rolled back to. */
module Retention {

  datatype Pair = Pair(current: nat, previous: nat)

  /** rotatedPrevChecksum. */
  function RotatedPrev(oldSum: nat, newSum: nat, currentPrev: nat): nat {
    if newSum != oldSum then oldSum else currentPrev
  }

  /** displacedPruneCandidate. */
  predicate PruneCandidate(oldSum: nat, newSum: nat, displaced: nat) {
    newSum != oldSum && displaced != 0 && displaced != newSum
  }

  /** What a committed rebuild leaves in the row, from what the row held. */
  function Commit(p: Pair, sum: nat): Pair {
    Pair(sum, RotatedPrev(p.current, sum, p.previous))
  }

  /** One rebuild attempt of a row. A failed one never reaches the row. */
  datatype Attempt = Committed(sum: nat) | Failed

  function After(attempts: seq<Attempt>): Pair {
    if attempts == [] then Pair(0, 0)
    else
      var p := After(attempts[..|attempts| - 1]);
      match attempts[|attempts| - 1]
      case Committed(sum) => Commit(p, sum)
      case Failed => p
  }

  /** The checksums that reached the row, oldest first. */
  function Commits(attempts: seq<Attempt>): seq<nat> {
    if attempts == [] then []
    else
      var cs := Commits(attempts[..|attempts| - 1]);
      match attempts[|attempts| - 1]
      case Committed(sum) => cs + [sum]
      case Failed => cs
  }

  /** A content checksum is never 0: that value is reserved for "none". */
  predicate NonZero(attempts: seq<Attempt>) {
    forall i :: 0 <= i < |attempts| && attempts[i].Committed? ==> attempts[i].sum != 0
  }

  /** p is read off a commit history alone: its latest entry, and the most recent
      entry that differs from it, 0 standing for "there is none". */
  ghost predicate Describes(p: Pair, cs: seq<nat>) {
    if cs == [] then p == Pair(0, 0)
    else
      && p.current == cs[|cs| - 1]
      && if forall i :: 0 <= i < |cs| ==> cs[i] == p.current then p.previous == 0
         else exists i :: 0 <= i < |cs| && cs[i] == p.previous && cs[i] != p.current
                          && forall j :: i < j < |cs| ==> cs[j] == p.current
  }

  lemma {:induction false} PairFollowsHistory(attempts: seq<Attempt>)
    requires NonZero(attempts)
    ensures Describes(After(attempts), Commits(attempts))
    ensures Commits(attempts) != [] ==> After(attempts).current != After(attempts).previous
    ensures forall c <- Commits(attempts) :: c != 0
  {
    if attempts != [] {
      var before := attempts[..|attempts| - 1];
      PairFollowsHistory(before);
      var p, cs := After(before), Commits(before);
      match attempts[|attempts| - 1]
      case Failed =>
      case Committed(sum) =>
        ExtendHistory(p, cs, sum);
    }
  }

  lemma ExtendHistory(p: Pair, cs: seq<nat>, sum: nat)
    requires Describes(p, cs) && sum != 0 && forall c <- cs :: c != 0
    ensures Describes(Commit(p, sum), cs + [sum])
    ensures Commit(p, sum).current != Commit(p, sum).previous
  {
    var q, ds := Commit(p, sum), cs + [sum];
    if cs != [] {
      if sum == p.current {
        if i :| 0 <= i < |cs| && cs[i] == p.previous && cs[i] != p.current
                && forall j :: i < j < |cs| ==> cs[j] == p.current {
          assert ds[i] == q.previous;
        }
      } else {
        assert ds[|cs| - 1] == p.current;
      }
    }
  }

  /** A rebuild offers the displaced rollback generation for pruning exactly when
      there was one and it is neither member of the pair the row now retains;
      an A -> B -> A flip keeps it. */
  lemma PrunedGenerationLeftThePair(attempts: seq<Attempt>, sum: nat)
    requires NonZero(attempts) && sum != 0
    ensures var p, q := After(attempts), After(attempts + [Committed(sum)]);
            PruneCandidate(p.current, sum, p.previous)
            <==> p.previous != 0 && p.previous != q.current && p.previous != q.previous
  {
    PairFollowsHistory(attempts);
    assert (attempts + [Committed(sum)])[..|attempts|] == attempts;
  }
}
