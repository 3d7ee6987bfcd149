/** Round-robin placement over the configured workers. */
module Placement {
  import opened Arithmetic
  import opened Health

  datatype Status = Status(reachable: Reachable, load: Load)

  datatype Choice =
    | Local                    // no workers configured
    | Selected(ip: string)
    | AllOverloaded
    | AllUnresponsive
    | AllDown

  /** placeable: answering, and not reported over its mark; unknown load places. */
  predicate Placeable(h: Status) {
    h.reachable == Ok && h.load != Overloaded
  }

  /** The first index at or after i that may be chosen; |ps| when there is none. */
  function FirstFrom(ps: seq<bool>, i: nat): (j: nat)
    requires i <= |ps|
    ensures i <= j <= |ps| && (j < |ps| ==> ps[j]) && forall k :: i <= k < j ==> !ps[k]
    decreases |ps| - i
  {
    if i == |ps| || ps[i] then i else FirstFrom(ps, i + 1)
  }

  /** The worker a cursor leads to, wrapping round. */
  function Pick(ps: seq<bool>, i: nat): (j: nat)
    requires i < |ps| && true in ps
    ensures j < |ps| && ps[j]
  {
    if FirstFrom(ps, i) < |ps| then FirstFrom(ps, i) else FirstFrom(ps, 0)
  }

  /** The cursor after choosing j. */
  function Advance(n: nat, j: nat): nat
    requires j < n
  {
    if j + 1 == n then 0 else j + 1
  }

  function FlagsOf(hs: seq<Status>): (ps: seq<bool>)
    ensures |ps| == |hs| && forall i :: 0 <= i < |hs| ==> ps[i] == Placeable(hs[i])
  {
    seq(|hs|, i requires 0 <= i < |hs| => Placeable(hs[i]))
  }

  /** Some worker is in this state. */
  ghost predicate Seen(hs: seq<Status>, r: Reachable) {
    exists i :: 0 <= i < |hs| && hs[i].reachable == r
  }

  class Fleet {
    var order: seq<string>
    var workers: map<string, Status>
    var rrCursor: nat

    constructor (order: seq<string>, workers: map<string, Status>, cursor: nat)
      requires forall ip <- order :: ip in workers
      ensures this.order == order && this.workers == workers && rrCursor == cursor && Valid()
    {
      this.order, this.workers, rrCursor := order, workers, cursor;
    }

    ghost predicate Valid()
      reads this
    {
      forall i :: 0 <= i < |order| ==> order[i] in workers
    }

    function Healths(): (hs: seq<Status>)
      requires Valid()
      reads this
      ensures |hs| == |order| && forall i :: 0 <= i < |hs| ==> hs[i] == workers[order[i]]
    {
      var ips, ws := order, workers;
      seq(|ips|, i requires 0 <= i < |ips| && ips[i] in ws => ws[ips[i]])
    }

    /** selectWorker: a worker exactly when some worker is placeable, the next one in
        turn from wherever the cursor was left; otherwise which kind of exhaustion. */
    method SelectWorker() returns (choice: Choice)
      requires Valid()
      modifies this`rrCursor
      ensures order == [] ==> choice == Local
      ensures choice.Selected? <==> true in FlagsOf(Healths())
      ensures choice.Selected? ==>
                var j := Pick(FlagsOf(Healths()), old(rrCursor) % |order|);
                choice.ip == order[j] && rrCursor == Advance(|order|, j)
      ensures order != [] && !choice.Selected? ==>
                choice == if Seen(Healths(), Ok) then AllOverloaded
                          else if Seen(Healths(), Unresponsive) then AllUnresponsive
                          else AllDown
      ensures !choice.Selected? ==> rrCursor == old(rrCursor)
    {
      var n := |order|;
      if n == 0 {
        return Local;
      }
      var sawOverloaded, sawUnresponsive := false, false;
      ghost var start, hs := rrCursor % n, Healths();
      for i := 0 to n
        invariant forall k: nat :: k < n && Passed(start, i, n, k) ==> !Placeable(hs[k])
        invariant forall k: nat :: k < n && Passed(start, i, n, k) ==>
                    (hs[k].reachable == Ok ==> sawOverloaded) && (hs[k].reachable == Unresponsive ==> sawUnresponsive)
        invariant (sawOverloaded ==> Seen(hs, Ok)) && (sawUnresponsive ==> Seen(hs, Unresponsive))
        invariant rrCursor == old(rrCursor)
      {
        var idx := (rrCursor + i) % n;
        PassedIndex(rrCursor, i, n);
        var w := workers[order[idx]];
        assert w == hs[idx];
        if Placeable(w) {
          ChosenIsPick(FlagsOf(hs), start, i, idx);
          AdvanceIsModulo(idx, n);
          rrCursor := (idx + 1) % n;
          return Selected(order[idx]);
        }
        match w.reachable {
          case Ok => sawOverloaded := true;
          case Unresponsive => sawUnresponsive := true;
          case Down =>
        }
      }
      AllPassed(start, n);
      if sawOverloaded { return AllOverloaded; }
      if sawUnresponsive { return AllUnresponsive; }
      return AllDown;
    }
  }

  lemma AdvanceIsModulo(idx: nat, n: nat)
    requires idx < n
    ensures (idx + 1) % n == Advance(n, idx)
  {
    if idx + 1 == n {
      DivisionIs(idx + 1, n, 1, 0);
    } else {
      DivisionIs(idx + 1, n, 0, idx + 1);
    }
  }

  lemma AllPassed(start: nat, n: nat)
    requires start < n
    ensures forall k: nat :: k < n ==> Passed(start, n, n, k)
  {
  }

  /** Index k is among the first i visited from start. */
  predicate Passed(start: nat, i: nat, n: nat, k: nat) {
    if k >= start then k - start < i else k + n - start < i
  }

  lemma PassedIndex(cursor: nat, i: nat, n: nat)
    requires i < n
    ensures var idx, start := (cursor + i) % n, cursor % n;
            && idx < n
            && !Passed(start, i, n, idx)
            && forall k: nat :: k < n ==> (Passed(start, i + 1, n, k) <==> Passed(start, i, n, k) || k == idx)
  {
    var start, q := cursor % n, cursor / n;
    assert cursor == q * n + start;
    if start + i < n {
      DivisionIs(cursor + i, n, q, start + i);
    } else {
      assert cursor + i == (q + 1) * n + (start + i - n);
      DivisionIs(cursor + i, n, q + 1, start + i - n);
    }
  }

  lemma ChosenIsPick(ps: seq<bool>, start: nat, i: nat, idx: nat)
    requires start < |ps| && i < |ps| && idx < |ps| && ps[idx]
    requires forall k: nat :: k < |ps| && Passed(start, i, |ps|, k) ==> !ps[k]
    requires forall k: nat :: k < |ps| ==> (Passed(start, i + 1, |ps|, k) <==> Passed(start, i, |ps|, k) || k == idx)
    ensures true in ps && Pick(ps, start) == idx
  {
    assert Passed(start, i + 1, |ps|, idx);
  }

  // ------------------------------------------------------------------- fairness

  /** The indexes chosen by k selections in a row, fleet and health fixed. */
  function Picks(ps: seq<bool>, i: nat, k: nat): (r: seq<nat>)
    requires i < |ps| && true in ps
    ensures |r| == k && forall i :: 0 <= i < |r| ==> r[i] < |ps|
    decreases k
  {
    if k == 0 then [] else [Pick(ps, i)] + Picks(ps, Advance(|ps|, Pick(ps, i)), k - 1)
  }

  function Count(picks: seq<nat>, j: nat): nat {
    if picks == [] then 0 else (if picks[0] == j then 1 else 0) + Count(picks[1..], j)
  }

  /** How many placeable workers there are before i. */
  function Rank(ps: seq<bool>, i: nat): nat
    requires i <= |ps|
  {
    if i == 0 then 0 else Rank(ps, i - 1) + if ps[i - 1] then 1 else 0
  }

  function Total(ps: seq<bool>): nat {
    Rank(ps, |ps|)
  }

  lemma {:induction false} RankMonotone(ps: seq<bool>, i: nat, j: nat)
    requires i <= j <= |ps|
    ensures Rank(ps, i) <= Rank(ps, j)
    ensures (exists k :: i <= k < j && ps[k]) ==> Rank(ps, i) < Rank(ps, j)
    ensures (forall k :: i <= k < j ==> !ps[k]) ==> Rank(ps, i) == Rank(ps, j)
    decreases j
  {
    if i < j {
      RankMonotone(ps, i, j - 1);
    }
  }

  /** The turn a cursor stands at: which placeable worker comes next. */
  function Turn(ps: seq<bool>, i: nat): nat
    requires i <= |ps|
  {
    if Rank(ps, i) == Total(ps) then 0 else Rank(ps, i)
  }

  lemma PickTakesTheTurn(ps: seq<bool>, i: nat)
    requires i < |ps| && true in ps
    ensures Rank(ps, Pick(ps, i)) == Turn(ps, i) < Total(ps)
    ensures Turn(ps, Advance(|ps|, Pick(ps, i)))
         == if Turn(ps, i) + 1 == Total(ps) then 0 else Turn(ps, i) + 1
  {
    var j := Pick(ps, i);
    RankMonotone(ps, j, |ps|);
    if FirstFrom(ps, i) < |ps| {
      RankMonotone(ps, i, j);
    } else {
      RankMonotone(ps, i, |ps|);
      RankMonotone(ps, 0, j);
    }
    RankMonotone(ps, j + 1, |ps|);
  }

  lemma SameRankSameWorker(ps: seq<bool>, a: nat, b: nat)
    requires a < |ps| && b < |ps| && ps[a] && ps[b] && Rank(ps, a) == Rank(ps, b)
    ensures a == b
  {
    RankMonotone(ps, if a < b then a else b, if a < b then b else a);
  }

  /** How many selections until the turn of the worker with this rank comes. */
  function Until(p: nat, mine: nat, turn: nat): int {
    if turn <= mine then mine - turn else mine + p - turn
  }

  lemma CountFirst(ps: seq<bool>, i: nat, k: nat, j: nat)
    requires i < |ps| && true in ps && k > 0
    ensures Count(Picks(ps, i, k), j)
         == Count(Picks(ps, Advance(|ps|, Pick(ps, i)), k - 1), j) + if Pick(ps, i) == j then 1 else 0
  {
    assert Picks(ps, i, k)[1..] == Picks(ps, Advance(|ps|, Pick(ps, i)), k - 1);
  }

  /** One selection: either it is this worker's, or its turn comes one sooner. */
  lemma OneSelection(p: nat, mine: nat, turn: nat, k: nat, h: nat)
    requires mine < p && turn < p && k > 0
    requires var wait := Until(p, mine, if turn + 1 == p then 0 else turn + 1);
             k - 1 - wait <= h * p <= k - 1 + p - 1 - wait
    ensures var h', wait := h + (if turn == mine then 1 else 0), Until(p, mine, turn);
            0 <= wait < p && k - wait <= h' * p <= k + p - 1 - wait
  {
    assert (h + 1) * p == h * p + p;
  }

  lemma {:induction false} PlacementsTrackTurns(ps: seq<bool>, i: nat, k: nat, j: nat)
    requires i < |ps| && j < |ps| && ps[j] && true in ps
    ensures var p, h, wait := Total(ps), Count(Picks(ps, i, k), j), Until(Total(ps), Rank(ps, j), Turn(ps, i));
            0 <= wait < p && k - wait <= h * p <= k + p - 1 - wait
    decreases k
  {
    PickTakesTheTurn(ps, i);
    RankMonotone(ps, j, |ps|);
    if k > 0 {
      var c := Pick(ps, i);
      var i' := Advance(|ps|, c);
      PlacementsTrackTurns(ps, i', k - 1, j);
      CountFirst(ps, i, k, j);
      OneSelection(Total(ps), Rank(ps, j), Turn(ps, i), k, Count(Picks(ps, i', k - 1), j));
      if Rank(ps, c) == Rank(ps, j) {
        SameRankSameWorker(ps, c, j);
      }
    }
  }

  lemma FloorOrCeiling(k: nat, p: nat, h: nat)
    requires p > 0 && k - p < h * p < k + p
    ensures h == k / p || h == (k + p - 1) / p
  {
    var q := k / p;
    assert q * p <= k < q * p + p;
    assert (q - 1) * p == q * p - p && (q + 2) * p == q * p + p + p && (q + 1) * p == q * p + p;
    ByProduct(q - 1, h, p);
    ByProduct(h, q + 2, p);
    if h == q + 1 {
      DivisionIs(k + p - 1, p, q + 1, k - 1 - q * p);
    }
  }

  /** Any k selections in a row, from any cursor, give each of the p placeable workers
      floor(k/p) or ceil(k/p) placements. */
  lemma RoundRobinIsFair(ps: seq<bool>, cursor: nat, k: nat, j: nat)
    requires ps != [] && j < |ps| && ps[j]
    ensures var p, h := Total(ps), Count(Picks(ps, cursor % |ps|, k), j);
            p > 0 && (h == k / p || h == (k + p - 1) / p)
  {
    RankMonotone(ps, j, |ps|);
    PlacementsTrackTurns(ps, cursor % |ps|, k, j);
    FloorOrCeiling(k, Total(ps), Count(Picks(ps, cursor % |ps|, k), j));
  }

  // -------------------------------------------------------- fairness of the method

  function Chosen(order: seq<string>, picks: seq<nat>): (r: seq<Choice>)
    requires forall i :: 0 <= i < |picks| ==> picks[i] < |order|
    ensures |r| == |picks|
  {
    if picks == [] then [] else [Selected(order[picks[0]])] + Chosen(order, picks[1..])
  }

  function Times(choices: seq<Choice>, ip: string): nat {
    if choices == [] then 0 else (if choices[0] == Selected(ip) then 1 else 0) + Times(choices[1..], ip)
  }

  lemma {:induction false} TimesIsCount(order: seq<string>, picks: seq<nat>, j: nat)
    requires forall i :: 0 <= i < |picks| ==> picks[i] < |order|
    requires j < |order| && forall a, b :: 0 <= a < b < |order| ==> order[a] != order[b]
    ensures Times(Chosen(order, picks), order[j]) == Count(picks, j)
    decreases |picks|
  {
    if picks != [] {
      TimesIsCount(order, picks[1..], j);
      assert Chosen(order, picks)[1..] == Chosen(order, picks[1..]);
    }
  }

  lemma NextChoice(order: seq<string>, ps: seq<bool>, cursor: nat, left: nat, choices: seq<Choice>)
    requires left > 0 && cursor < |ps| && |ps| == |order| && true in ps
    ensures var next := Advance(|ps|, Pick(ps, cursor));
            choices + Chosen(order, Picks(ps, cursor, left))
            == (choices + [Selected(order[Pick(ps, cursor)])]) + Chosen(order, Picks(ps, next, left - 1))
  {
    var next := Advance(|ps|, Pick(ps, cursor));
    assert Picks(ps, cursor, left)[1..] == Picks(ps, next, left - 1);
    assert Chosen(order, Picks(ps, cursor, left))
        == [Selected(order[Pick(ps, cursor)])] + Chosen(order, Picks(ps, next, left - 1));
  }

  /** k calls of selectWorker in a row, fleet and health unchanged, choose the picks. */
  method SelectInARow(fleet: Fleet, k: nat) returns (choices: seq<Choice>)
    requires fleet.Valid() && true in FlagsOf(fleet.Healths())
    modifies fleet`rrCursor
    ensures var ps := FlagsOf(fleet.Healths());
            choices == Chosen(fleet.order, Picks(ps, old(fleet.rrCursor) % |ps|, k))
  {
    ghost var order, ps := fleet.order, FlagsOf(fleet.Healths());
    ghost var cursor := fleet.rrCursor % |ps|;
    ghost var all := Chosen(order, Picks(ps, cursor, k));
    choices := [];
    for i := 0 to k
      invariant cursor < |ps| && fleet.rrCursor % |ps| == cursor
      invariant choices + Chosen(order, Picks(ps, cursor, k - i)) == all
    {
      NextChoice(order, ps, cursor, k - i, choices);
      var choice := fleet.SelectWorker();
      cursor := Advance(|ps|, Pick(ps, cursor));
      DivisionIs(cursor, |ps|, 0, cursor);
      choices := choices + [choice];
    }
  }

  /** So each of the p placeable workers gets floor(k/p) or ceil(k/p) of the choices. */
  lemma ChoicesAreFair(order: seq<string>, ps: seq<bool>, cursor: nat, k: nat, j: nat)
    requires |ps| == |order| && forall a, b :: 0 <= a < b < |order| ==> order[a] != order[b]
    requires j < |ps| && ps[j]
    ensures var p, h := Total(ps), Times(Chosen(order, Picks(ps, cursor % |ps|, k)), order[j]);
            p > 0 && (h == k / p || h == (k + p - 1) / p)
  {
    RoundRobinIsFair(ps, cursor, k, j);
    TimesIsCount(order, Picks(ps, cursor % |ps|, k), j);
  }
}
