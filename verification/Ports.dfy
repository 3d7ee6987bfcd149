/** Host port reservation. The pool of each worker is the port range less the rows of
    portAssignments naming that worker; a reservation scans a bitset snapshot and then
    claims its candidate atomically, while other launches claim and release ports. */
module Ports {

  // ----------------------------------------------------------------------- rows

  datatype Row = Row(instance: nat, name: string, port: int, worker: string)

  predicate Holds(t: seq<Row>, worker: string, port: int) {
    exists r :: r in t && r.worker == worker && r.port == port
  }

  /** No two assignments share a worker and a port. */
  ghost predicate Exclusive(t: seq<Row>) {
    forall i, j :: 0 <= i < j < |t| && t[i].worker == t[j].worker ==> t[i].port != t[j].port
  }

  datatype Outcome = Won | Lost | Refused

  /** The column check of portAssignments. */
  predicate Storable(port: int) {
    0 < port < 65536
  }

  /** claimPort: one statement that inserts the row unless the port is held. */
  function ClaimPort(t: seq<Row>, row: Row): (Outcome, seq<Row>) {
    if Holds(t, row.worker, row.port) then (Lost, t)
    else if Storable(row.port) then (Won, t + [row])
    else (Refused, t)
  }

  /** releasePorts, and the cascade when an instance row goes. */
  function Release(t: seq<Row>, instance: nat): (r: seq<Row>)
    ensures forall x :: x in r <==> x in t && x.instance != instance
  {
    if t == [] then []
    else
      var n := |t| - 1;
      assert t == t[..n] + [t[n]];
      Release(t[..n], instance) + if t[n].instance == instance then [] else [t[n]]
  }

  datatype Op = Claim(row: Row) | Free(instance: nat)

  function Apply(t: seq<Row>, op: Op): seq<Row> {
    match op
    case Claim(row) => ClaimPort(t, row).1
    case Free(instance) => Release(t, instance)
  }

  function ApplyAll(t: seq<Row>, ops: seq<Op>): seq<Row> {
    if ops == [] then t else Apply(ApplyAll(t, ops[..|ops| - 1]), ops[|ops| - 1])
  }

  lemma ClaimKeepsExclusive(t: seq<Row>, row: Row)
    requires Exclusive(t)
    ensures Exclusive(ClaimPort(t, row).1)
  {
    var t' := ClaimPort(t, row).1;
    forall i, j | 0 <= i < j < |t'| && t'[i].worker == t'[j].worker ensures t'[i].port != t'[j].port {
      assert t'[i] in t;
    }
  }

  lemma {:induction false} ReleaseKeepsExclusive(t: seq<Row>, instance: nat)
    requires Exclusive(t)
    ensures Exclusive(Release(t, instance))
  {
    if t != [] {
      var n := |t| - 1;
      var front := Release(t[..n], instance);
      ReleaseKeepsExclusive(t[..n], instance);
      forall i | 0 <= i < |front| ensures front[i].worker == t[n].worker ==> front[i].port != t[n].port {
        assert front[i] in t[..n];
      }
    }
  }

  /** Over every interleaving of claims and releases. */
  lemma {:induction false} AssignmentsStayExclusive(t: seq<Row>, ops: seq<Op>)
    requires Exclusive(t)
    ensures Exclusive(ApplyAll(t, ops))
  {
    if ops != [] {
      var before := ApplyAll(t, ops[..|ops| - 1]);
      AssignmentsStayExclusive(t, ops[..|ops| - 1]);
      match ops[|ops| - 1]
      case Claim(row) => ClaimKeepsExclusive(before, row);
      case Free(instance) => ReleaseKeepsExclusive(before, instance);
    }
  }

  // --------------------------------------------------------------------- bitset

  /** Words are uint64 values: bits are read and set on the binary representation. */
  predicate Bit(w: nat, i: nat) {
    if i == 0 then w % 2 == 1 else Bit(w / 2, i - 1)
  }

  /** w | 1 << i. */
  function SetBit(w: nat, i: nat): nat {
    if i == 0 then w - w % 2 + 1 else 2 * SetBit(w / 2, i - 1) + w % 2
  }

  function Pow2(n: nat): (r: nat)
    ensures r > 0
  {
    if n == 0 then 1 else 2 * Pow2(n - 1)
  }

  lemma {:induction false} SetBitSetsOne(w: nat, i: nat, j: nat)
    ensures Bit(SetBit(w, i), j) <==> i == j || Bit(w, j)
  {
    if i > 0 {
      assert SetBit(w, i) / 2 == SetBit(w / 2, i - 1);
      if j > 0 {
        SetBitSetsOne(w / 2, i - 1, j - 1);
      }
    } else if j > 0 {
      assert SetBit(w, 0) / 2 == w / 2;
    }
  }

  lemma {:induction false} SetBitFits(w: nat, i: nat, n: nat)
    requires i < n && w < Pow2(n)
    ensures SetBit(w, i) < Pow2(n)
  {
    if i > 0 {
      SetBitFits(w / 2, i - 1, n - 1);
    }
  }

  lemma {:induction false} ZeroHasNoBits(i: nat)
    ensures !Bit(0, i)
  {
    if i > 0 {
      ZeroHasNoBits(i - 1);
    }
  }

  predicate MarkedAt(words: seq<nat>, low: int, p: int)
    requires 0 <= p - low && (p - low) / 64 < |words|
  {
    Bit(words[(p - low) / 64], (p - low) % 64)
  }

  /** The ports of low..high whose bit is set. */
  function Marked(words: seq<nat>, low: int, high: int): set<int>
    requires low <= high && |words| == (high - low + 1 + 63) / 64
  {
    set p | low <= p <= high && MarkedAt(words, low, p)
  }

  lemma MarkedIs(words: seq<nat>, r: Range, p: int)
    requires r.low <= p <= r.high && |words| == (r.high - r.low + 1 + 63) / 64
    ensures p in Marked(words, r.low, r.high) <==> MarkedAt(words, r.low, p)
  {
  }

  lemma MarkOne(words: seq<nat>, low: int, high: int, port: int)
    requires low <= port <= high && |words| == (high - low + 1 + 63) / 64
    ensures var q := port - low;
            Marked(words[q / 64 := SetBit(words[q / 64], q % 64)], low, high) == Marked(words, low, high) + {port}
  {
    var q := port - low;
    var words' := words[q / 64 := SetBit(words[q / 64], q % 64)];
    forall p | low <= p <= high ensures MarkedAt(words', low, p) <==> p == port || MarkedAt(words, low, p) {
      SetBitSetsOne(words[q / 64], q % 64, (p - low) % 64);
    }
  }

  // ----------------------------------------------------------------------- scan

  /** The wraparound scan over the snapshot: `left` ports still to look at; 0 is none. */
  function Scan(low: int, high: int, used: set<int>, port: int, left: nat): int
    decreases left
  {
    if left == 0 then 0
    else if port !in used then port
    else Scan(low, high, used, Following(low, high, port), left - 1)
  }

  function Following(low: int, high: int, port: int): int {
    if port + 1 > high then low else port + 1
  }

  /** How many steps after `from` the scan looks at `p`. */
  function Distance(low: int, high: int, from: int, p: int): int {
    if p >= from then p - from else p - from + (high - low + 1)
  }

  predicate Within(low: int, high: int, from: int, p: int, steps: int) {
    low <= p <= high && Distance(low, high, from, p) < steps
  }

  lemma {:induction false} ScanWindow(low: int, high: int, used: set<int>, port: int, left: nat)
    requires 0 < low <= port <= high && left <= high - low + 1
    ensures var r := Scan(low, high, used, port, left);
            var seen := if r == 0 then left else Distance(low, high, port, r);
            && (r != 0 ==> low <= r <= high && r !in used && Distance(low, high, port, r) < left)
            && forall p :: Within(low, high, port, p, seen) ==> p in used
    decreases left
  {
    if left > 0 && port in used {
      ScanWindow(low, high, used, Following(low, high, port), left - 1);
    }
  }

  datatype Range = Range(low: int, high: int)

  /** getPortRange. */
  predicate Accepted(r: Range) {
    1024 <= r.low <= r.high <= 65536
  }

  predicate InRange(r: Range, p: int) {
    r.low <= p <= r.high
  }

  function Pool(r: Range): set<int> {
    set p | r.low <= p <= r.high && InRange(r, p)
  }

  /** The scan finds a free port whenever there is one, the first at or after the draw. */
  function Candidate(r: Range, used: set<int>, draw: nat): (c: int)
    requires Accepted(r) && draw <= r.high - r.low
    ensures c == 0 <==> Pool(r) <= used
    ensures c != 0 ==> c in Pool(r) - used
    ensures var from := r.low + draw;
            c != 0 ==> forall p :: Within(r.low, r.high, from, p, Distance(r.low, r.high, from, c)) ==> p in used
  {
    ScanWindow(r.low, r.high, used, r.low + draw, r.high - r.low + 1);
    var c := Scan(r.low, r.high, used, r.low + draw, r.high - r.low + 1);
    assert c == 0 ==> forall p :: p in Pool(r) ==> Within(r.low, r.high, r.low + draw, p, r.high - r.low + 1);
    c
  }

  /** The scan as the words show it. */
  function ScanBits(r: Range, words: seq<nat>, port: int, left: nat): int
    requires r.low <= port <= r.high && |words| == (r.high - r.low + 1 + 63) / 64
    decreases left
  {
    if left == 0 then 0
    else if !MarkedAt(words, r.low, port) then port
    else ScanBits(r, words, Following(r.low, r.high, port), left - 1)
  }

  lemma {:induction false} BitsAreMarks(r: Range, words: seq<nat>, port: int, left: nat)
    requires r.low <= port <= r.high && |words| == (r.high - r.low + 1 + 63) / 64
    ensures ScanBits(r, words, port, left) == Scan(r.low, r.high, Marked(words, r.low, r.high), port, left)
    decreases left
  {
    if left > 0 {
      BitsAreMarks(r, words, Following(r.low, r.high, port), left - 1);
    }
  }

  // ---------------------------------------------------------------- reservation

  const ATTEMPTS: nat := 50

  /** One round of reservePort: the random draw, what other launches did to the table
      since the previous round, and whether the statement itself fails. */
  datatype Attempt = Attempt(draw: nat, before: seq<Op>, fails: bool)

  datatype Result = Reserved(port: int) | Exhausted | Contended | Failed

  predicate Draws(r: Range, tries: seq<Attempt>) {
    forall k :: 0 <= k < |tries| ==> tries[k].draw <= r.high - r.low
  }

  /** The table when round k claims, as long as every earlier round lost its claim. */
  function TableAt(t: seq<Row>, tries: seq<Attempt>, k: nat): seq<Row>
    requires k < |tries|
    decreases k, 1
  {
    ApplyAll(Before(t, tries, k), tries[k].before)
  }

  function Before(t: seq<Row>, tries: seq<Attempt>, k: nat): seq<Row>
    requires k <= |tries|
    decreases k, 0
  {
    if k == 0 then t else TableAt(t, tries, k - 1)
  }

  /** A claim that races: the others' operations, then the statement. */
  function Contest(t: seq<Row>, row: Row, a: Attempt): (Outcome, seq<Row>) {
    var now := ApplyAll(t, a.before);
    if a.fails then (Refused, now) else ClaimPort(now, row)
  }

  /** Rounds k and on, with `used` the snapshot plus the claims lost so far. */
  function Reserve(t: seq<Row>, r: Range, used: set<int>, who: Row, tries: seq<Attempt>, k: nat): (Result, seq<Row>)
    requires Accepted(r) && Draws(r, tries) && k <= |tries|
    decreases |tries| - k
  {
    if k == |tries| then (Contended, Before(t, tries, k))
    else
      var candidate := Candidate(r, used, tries[k].draw);
      if candidate == 0 then (Exhausted, Before(t, tries, k))
      else
        var (outcome, after) := Contest(Before(t, tries, k), who.(port := candidate), tries[k]);
        match outcome
        case Won => (Reserved(candidate), after)
        case Refused => (Failed, after)
        case Lost => Reserve(t, r, used + {candidate}, who, tries, k + 1)
  }

  function UsedOn(t: seq<Row>, worker: string, r: Range): set<int> {
    set p | r.low <= p <= r.high && Holds(t, worker, p)
  }

  /** The port was held by somebody when one of the first k rounds claimed. */
  predicate LostIn(t: seq<Row>, worker: string, tries: seq<Attempt>, k: nat, p: int)
    requires k <= |tries|
  {
    exists i :: 0 <= i < k && Holds(TableAt(t, tries, i), worker, p)
  }

  /** Round i found the port free and wrote the row. */
  predicate WonIn(t: seq<Row>, who: Row, tries: seq<Attempt>, i: nat, port: int, after: seq<Row>) {
    && i < |tries|
    && !Holds(TableAt(t, tries, i), who.worker, port)
    && after == TableAt(t, tries, i) + [who.(port := port)]
  }

  /** Each port was assigned at the snapshot, or lost to a competing claim. */
  ghost predicate AllTaken(t: seq<Row>, worker: string, tries: seq<Attempt>, k: nat, ports: set<int>)
    requires k <= |tries|
  {
    forall p :: p in ports ==> Holds(t, worker, p) || LostIn(t, worker, tries, k, p)
  }

  lemma TakenToTheEnd(t: seq<Row>, worker: string, tries: seq<Attempt>, k: nat, ports: set<int>, used: set<int>)
    requires k <= |tries| && AllTaken(t, worker, tries, k, used) && ports <= used
    ensures AllTaken(t, worker, tries, |tries|, ports)
  {
  }

  lemma OneMoreTaken(t: seq<Row>, worker: string, tries: seq<Attempt>, k: nat, used: set<int>, p: int)
    requires k < |tries| && AllTaken(t, worker, tries, k, used) && Holds(TableAt(t, tries, k), worker, p)
    ensures AllTaken(t, worker, tries, k + 1, used + {p})
  {
  }

  lemma LostAtTheEnd(t: seq<Row>, worker: string, tries: seq<Attempt>, k: nat, p: int)
    requires k < |tries| && Holds(TableAt(t, tries, k), worker, p)
    ensures LostIn(t, worker, tries, |tries|, p)
  {
  }

  lemma LostRound(t: seq<Row>, r: Range, used: set<int>, who: Row, tries: seq<Attempt>, k: nat)
    requires Accepted(r) && Draws(r, tries) && k < |tries|
    requires var c := Candidate(r, used, tries[k].draw);
             c != 0 && Contest(Before(t, tries, k), who.(port := c), tries[k]).0.Lost?
    ensures var c := Candidate(r, used, tries[k].draw);
            && Reserve(t, r, used, who, tries, k) == Reserve(t, r, used + {c}, who, tries, k + 1)
            && Contest(Before(t, tries, k), who.(port := c), tries[k]).1 == Before(t, tries, k + 1)
            && Holds(TableAt(t, tries, k), who.worker, c)
  {
  }

  /** Every port handed out lies in the range and was free when it was claimed. */
  lemma {:induction false} ReservedPortWasFree(
    t: seq<Row>, r: Range, used: set<int>, who: Row, tries: seq<Attempt>, k: nat) returns (i: nat)
    requires Accepted(r) && Draws(r, tries) && k <= |tries|
    requires Reserve(t, r, used, who, tries, k).0.Reserved?
    ensures var (result, after) := Reserve(t, r, used, who, tries, k);
            r.low <= result.port <= r.high && WonIn(t, who, tries, i, result.port, after)
    decreases |tries| - k
  {
    var candidate := Candidate(r, used, tries[k].draw);
    if Contest(Before(t, tries, k), who.(port := candidate), tries[k]).0.Lost? {
      LostRound(t, r, used, who, tries, k);
      i := ReservedPortWasFree(t, r, used + {candidate}, who, tries, k + 1);
    } else {
      i := k;
      WonRound(Before(t, tries, k), who.(port := candidate), tries[k]);
    }
  }

  lemma WonRound(t: seq<Row>, row: Row, a: Attempt)
    requires Contest(t, row, a).0.Won?
    ensures var now := ApplyAll(t, a.before);
            !Holds(now, row.worker, row.port) && Contest(t, row, a).1 == now + [row]
  {
  }

  lemma {:induction false} ExhaustedFrom(t: seq<Row>, r: Range, used: set<int>, who: Row, tries: seq<Attempt>, k: nat)
    requires Accepted(r) && Draws(r, tries) && k <= |tries|
    requires AllTaken(t, who.worker, tries, k, used)
    requires Reserve(t, r, used, who, tries, k).0.Exhausted?
    ensures AllTaken(t, who.worker, tries, |tries|, Pool(r))
    decreases |tries| - k
  {
    var candidate := Candidate(r, used, tries[k].draw);
    if candidate != 0 {
      LostRound(t, r, used, who, tries, k);
      OneMoreTaken(t, who.worker, tries, k, used, candidate);
      ExhaustedFrom(t, r, used + {candidate}, who, tries, k + 1);
    } else {
      TakenToTheEnd(t, who.worker, tries, k, Pool(r), used);
    }
  }

  /** Running out is reported only when each port of the range was assigned at the
      snapshot or lost to a competing claim. */
  lemma ExhaustedMeansTaken(t: seq<Row>, r: Range, who: Row, tries: seq<Attempt>)
    requires Accepted(r) && Draws(r, tries)
    requires Reserve(t, r, UsedOn(t, who.worker, r), who, tries, 0).0.Exhausted?
    ensures AllTaken(t, who.worker, tries, |tries|, Pool(r))
  {
    ExhaustedFrom(t, r, UsedOn(t, who.worker, r), who, tries, 0);
  }

  lemma ContendedRound(t: seq<Row>, r: Range, used: set<int>, who: Row, tries: seq<Attempt>, k: nat)
    requires Accepted(r) && Draws(r, tries) && k < |tries|
    requires Reserve(t, r, used, who, tries, k).0.Contended?
    ensures var c := Candidate(r, used, tries[k].draw);
            && c in Pool(r) - used
            && LostIn(t, who.worker, tries, |tries|, c)
            && Reserve(t, r, used + {c}, who, tries, k + 1).0.Contended?
  {
    LostRound(t, r, used, who, tries, k);
    LostAtTheEnd(t, who.worker, tries, k, Candidate(r, used, tries[k].draw));
  }

  /** Giving up on contention takes one distinct port lost per round. */
  lemma {:induction false} ContentionLosesDistinctPorts(
    t: seq<Row>, r: Range, used: set<int>, who: Row, tries: seq<Attempt>, k: nat) returns (lost: set<int>)
    requires Accepted(r) && Draws(r, tries) && k <= |tries|
    requires Reserve(t, r, used, who, tries, k).0.Contended?
    ensures |lost| == |tries| - k && lost !! used
    ensures lost <= Pool(r) && forall p :: p in lost ==> LostIn(t, who.worker, tries, |tries|, p)
    decreases |tries| - k
  {
    lost := {};
    if k < |tries| {
      var candidate := Candidate(r, used, tries[k].draw);
      ContendedRound(t, r, used, who, tries, k);
      var rest := ContentionLosesDistinctPorts(t, r, used + {candidate}, who, tries, k + 1);
      lost := rest + {candidate};
    }
  }

  /** With nobody interfering a reservation gets the first free port at or after its
      draw, and fails only for want of one, or on the one port the table cannot store. */
  lemma QuietReservation(t: seq<Row>, r: Range, who: Row, tries: seq<Attempt>)
    requires Accepted(r) && Draws(r, tries) && |tries| > 0 && tries[0].before == [] && !tries[0].fails
    ensures var result := Reserve(t, r, UsedOn(t, who.worker, r), who, tries, 0).0;
            var free := Pool(r) - UsedOn(t, who.worker, r);
            && (result.Exhausted? <==> free == {})
            && (result.Reserved? || result.Exhausted? || result.Failed?)
            && (result.Reserved? ==> result.port in free)
            && (result.Reserved? ==> forall p :: p in free ==> !Within(r.low, r.high, r.low + tries[0].draw, p,
                                                   Distance(r.low, r.high, r.low + tries[0].draw, result.port)))
            && (result.Failed? ==> 65536 in free && r.high == 65536)
  {
    assert TableAt(t, tries, 0) == t;
  }

  /** The configuration check admits 65536 as the top of the range, which the column
      check then refuses: a quiet reservation with a free port can fail exactly then. */
  lemma TopPortCannotBeStored(r: Range, who: Row)
    requires Accepted(r)
    ensures (exists t: seq<Row>, a: Attempt ::
               && a.draw <= r.high - r.low && a.before == [] && !a.fails
               && !Holds(t, who.worker, r.high)
               && Reserve(t, r, UsedOn(t, who.worker, r), who, [a], 0).0.Failed?)
            <==> r.high == 65536
  {
    forall t: seq<Row>, a: Attempt | a.draw <= r.high - r.low && a.before == [] && !a.fails
      ensures Reserve(t, r, UsedOn(t, who.worker, r), who, [a], 0).0.Failed? ==> r.high == 65536
    {
      QuietReservation(t, r, who, [a]);
    }
    if r.high == 65536 {
      var a := Attempt(r.high - r.low, [], false);
      assert UsedOn([], who.worker, r) == {};
      assert Candidate(r, {}, a.draw) == r.high;
      assert TableAt([], [a], 0) == [];
      assert Reserve([], r, UsedOn([], who.worker, r), who, [a], 0).0.Failed?;
    }
  }

  lemma {:induction false} TablesStayExclusive(t: seq<Row>, tries: seq<Attempt>, k: nat)
    requires Exclusive(t) && k <= |tries|
    ensures Exclusive(Before(t, tries, k))
    decreases k
  {
    if k > 0 {
      TablesStayExclusive(t, tries, k - 1);
      AssignmentsStayExclusive(Before(t, tries, k - 1), tries[k - 1].before);
    }
  }

  lemma ContestKeepsExclusive(t: seq<Row>, row: Row, a: Attempt)
    requires Exclusive(t)
    ensures Exclusive(Contest(t, row, a).1)
  {
    AssignmentsStayExclusive(t, a.before);
    ClaimKeepsExclusive(ApplyAll(t, a.before), row);
  }

  /** A reservation, however it ends, leaves no two assignments on one port. */
  lemma {:induction false} ReservationKeepsExclusive(
    t: seq<Row>, r: Range, used: set<int>, who: Row, tries: seq<Attempt>, k: nat)
    requires Accepted(r) && Draws(r, tries) && k <= |tries| && Exclusive(t)
    ensures Exclusive(Reserve(t, r, used, who, tries, k).1)
    decreases |tries| - k
  {
    TablesStayExclusive(t, tries, k);
    if k < |tries| {
      var c := Candidate(r, used, tries[k].draw);
      ContestKeepsExclusive(Before(t, tries, k), who.(port := c), tries[k]);
      if c != 0 && Contest(Before(t, tries, k), who.(port := c), tries[k]).0.Lost? {
        LostRound(t, r, used, who, tries, k);
        ReservationKeepsExclusive(t, r, used + {c}, who, tries, k + 1);
      }
    }
  }

  // -------------------------------------------------------------------- restarts

  /** One published port of an instance restarted in place: its name, if it has one, the
      number it had, and what the attempt at that number and a reservation meet. */
  datatype Want = Want(name: string, previous: int, first: Attempt, tries: seq<Attempt>)

  predicate CanDraw(r: Range, wants: seq<Want>) {
    forall i :: 0 <= i < |wants| ==> Draws(r, wants[i].tries)
  }

  datatype Assigned = Assigned(ok: bool, ports: map<string, int>, rows: seq<Row>)

  /** One port: the number it had if that is in the range and free, else a new one. */
  function ReassignOne(t: seq<Row>, r: Range, who: Row, w: Want): (Result, seq<Row>)
    requires Accepted(r) && Draws(r, w.tries)
  {
    var row := who.(name := w.name);
    if w.name == "" then (Failed, t)
    else
      var (outcome, t') := if InRange(r, w.previous) then Contest(t, row.(port := w.previous), w.first) else (Lost, t);
      match outcome
      case Won => (Reserved(w.previous), t')
      case Refused => (Failed, t')
      case Lost => Reserve(t', r, UsedOn(t', row.worker, r), row, w.tries, 0)
  }

  /** reassignPortsUnchecked. */
  function ReassignAll(t: seq<Row>, r: Range, who: Row, wants: seq<Want>): Assigned
    requires Accepted(r) && CanDraw(r, wants)
  {
    if wants == [] then Assigned(true, map[], t)
    else
      var w, before := wants[|wants| - 1], ReassignAll(t, r, who, wants[..|wants| - 1]);
      if !before.ok then before
      else
        var (result, rows) := ReassignOne(before.rows, r, who, w);
        if result.Reserved? then Assigned(true, before.ports[w.name := result.port], rows)
        else Assigned(false, before.ports, rows)
  }

  /** reassignPorts: a failure gives back what was already reserved. */
  function Reassign(t: seq<Row>, r: Range, who: Row, wants: seq<Want>): Assigned
    requires Accepted(r) && CanDraw(r, wants)
  {
    var a := ReassignAll(t, r, who, wants);
    if a.ok then a else Assigned(false, map[], Release(a.rows, who.instance))
  }

  lemma ReassignOneIsSound(t: seq<Row>, r: Range, who: Row, w: Want)
    requires Accepted(r) && Draws(r, w.tries)
    ensures var (result, rows) := ReassignOne(t, r, who, w);
            && (result.Reserved? ==> InRange(r, result.port))
            && (Exclusive(t) ==> Exclusive(rows))
  {
    var row := who.(name := w.name);
    var (outcome, t') := if InRange(r, w.previous) then Contest(t, row.(port := w.previous), w.first) else (Lost, t);
    if w.name != "" {
      if Exclusive(t) {
        ContestKeepsExclusive(t, row.(port := w.previous), w.first);
        ReservationKeepsExclusive(t', r, UsedOn(t', row.worker, r), row, w.tries, 0);
      }
      if Reserve(t', r, UsedOn(t', row.worker, r), row, w.tries, 0).0.Reserved? {
        var i := ReservedPortWasFree(t', r, UsedOn(t', row.worker, r), row, w.tries, 0);
      }
    }
  }

  ghost predicate AllInRange(r: Range, ports: map<string, int>) {
    forall n :: n in ports ==> InRange(r, ports[n])
  }

  ghost predicate AllNamed(wants: seq<Want>, ports: map<string, int>) {
    forall w :: w in wants ==> w.name in ports
  }

  lemma OneMoreNamed(front: seq<Want>, w: Want, r: Range, ports: map<string, int>, port: int)
    requires AllNamed(front, ports) && AllInRange(r, ports) && InRange(r, port)
    ensures AllNamed(front + [w], ports[w.name := port]) && AllInRange(r, ports[w.name := port])
  {
  }

  lemma {:induction false} ReassignAllIsSound(t: seq<Row>, r: Range, who: Row, wants: seq<Want>)
    requires Accepted(r) && CanDraw(r, wants) && Exclusive(t)
    ensures var a := ReassignAll(t, r, who, wants);
            Exclusive(a.rows) && AllInRange(r, a.ports) && (a.ok ==> AllNamed(wants, a.ports))
  {
    if wants != [] {
      var front, w := wants[..|wants| - 1], wants[|wants| - 1];
      ReassignAllIsSound(t, r, who, front);
      var before := ReassignAll(t, r, who, front);
      ReassignOneIsSound(before.rows, r, who, w);
      var result := ReassignOne(before.rows, r, who, w).0;
      if before.ok && result.Reserved? {
        OneMoreNamed(front, w, r, before.ports, result.port);
        assert wants == front + [w];
      }
    }
  }

  /** A restart gets every port it wants, all in the range, or it holds none. */
  lemma RestartIsAllOrNothing(t: seq<Row>, r: Range, who: Row, wants: seq<Want>)
    requires Accepted(r) && CanDraw(r, wants) && Exclusive(t)
    ensures var a := Reassign(t, r, who, wants);
            && Exclusive(a.rows) && AllInRange(r, a.ports)
            && (a.ok ==> AllNamed(wants, a.ports))
            && (!a.ok ==> a.ports == map[] && forall x :: x in a.rows ==> x.instance != who.instance)
  {
    ReassignAllIsSound(t, r, who, wants);
    ReleaseKeepsExclusive(ReassignAll(t, r, who, wants).rows, who.instance);
  }

  /** Players keep the address they were given whenever nobody took it meanwhile. */
  lemma FreeNumberIsKept(t: seq<Row>, r: Range, who: Row, w: Want)
    requires Accepted(r) && Draws(r, w.tries) && w.name != "" && !w.first.fails
    requires InRange(r, w.previous) && Storable(w.previous)
    ensures ReassignOne(t, r, who, w).0 == Reserved(w.previous)
       <==> !Holds(ApplyAll(t, w.first.before), who.worker, w.previous)
  {
    var row := who.(name := w.name, port := w.previous);
    if Contest(t, row, w.first).0.Lost? {
      NotReservedAgain(ApplyAll(t, w.first.before), r, who.(name := w.name), w.tries, w.previous);
    }
  }

  /** A port taken at the snapshot is not the one a reservation returns. */
  lemma NotReservedAgain(t: seq<Row>, r: Range, who: Row, tries: seq<Attempt>, p: int)
    requires Accepted(r) && Draws(r, tries) && InRange(r, p) && Holds(t, who.worker, p)
    ensures Reserve(t, r, UsedOn(t, who.worker, r), who, tries, 0).0 != Reserved(p)
  {
    UsedIsAvoided(t, r, UsedOn(t, who.worker, r), who, tries, 0, p);
  }

  lemma {:induction false} UsedIsAvoided(
    t: seq<Row>, r: Range, used: set<int>, who: Row, tries: seq<Attempt>, k: nat, p: int)
    requires Accepted(r) && Draws(r, tries) && k <= |tries| && p in used
    ensures Reserve(t, r, used, who, tries, k).0 != Reserved(p)
    decreases |tries| - k
  {
    if k < |tries| {
      var c := Candidate(r, used, tries[k].draw);
      if c != 0 && Contest(Before(t, tries, k), who.(port := c), tries[k]).0.Lost? {
        LostRound(t, r, used, who, tries, k);
        UsedIsAvoided(t, r, used + {c}, who, tries, k + 1, p);
      }
    }
  }

  // --------------------------------------------------------------- the allocator

  class Assignments {
    var rows: seq<Row>
    const range: Range

    constructor (r: Range)
      ensures rows == [] && range == r
    {
      rows, range := [], r;
    }

    /** One 64-bit word for every 64 ports of the range. */
    ghost predicate Fits(words: seq<nat>) {
      && range.low <= range.high
      && |words| == (range.high - range.low + 1 + 63) / 64
      && forall i :: 0 <= i < |words| ==> words[i] < Pow2(64)
    }

    /** usedPortBitset. */
    method UsedPortBitset(worker: string) returns (words: array<nat>)
      requires Accepted(range)
      ensures fresh(words) && Fits(words[..])
      ensures Marked(words[..], range.low, range.high) == UsedOn(rows, worker, range)
    {
      words := NoBits();
      ghost var t := rows;
      assert UsedOn(t[..0], worker, range) == {};
      for k := 0 to |rows|
        invariant fresh(words) && Fits(words[..])
        invariant Marked(words[..], range.low, range.high) == UsedOn(t[..k], worker, range)
      {
        UsedGrows(t[..k], t[k], worker, range);
        assert t[..k + 1] == t[..k] + [t[k]];
        if rows[k].worker == worker && range.low <= rows[k].port <= range.high {
          Mark(words, rows[k].port);
        }
      }
      assert t[..|t|] == t;
    }

    method NoBits() returns (words: array<nat>)
      requires Accepted(range)
      ensures fresh(words) && Fits(words[..]) && Marked(words[..], range.low, range.high) == {}
    {
      words := new nat[(range.high - range.low + 1 + 63) / 64](_ => 0);
      forall p | range.low <= p <= range.high ensures !MarkedAt(words[..], range.low, p) {
        ZeroHasNoBits((p - range.low) % 64);
      }
    }

    /** bitset[p/64] |= 1 << (p % 64), for the port low + p. */
    method Mark(words: array<nat>, port: int)
      requires range.low <= port <= range.high && Fits(words[..])
      modifies words
      ensures Fits(words[..])
      ensures Marked(words[..], range.low, range.high) == old(Marked(words[..], range.low, range.high)) + {port}
    {
      var q := port - range.low;
      MarkOne(words[..], range.low, range.high, port);
      SetBitFits(words[q / 64], q % 64, 64);
      words[q / 64] := SetBit(words[q / 64], q % 64);
      assert words[..] == old(words[..])[q / 64 := SetBit(old(words[q / 64]), q % 64)];
    }

    method IsFree(words: seq<nat>, port: int) returns (free: bool)
      requires range.low <= port <= range.high && Fits(words)
      ensures free <==> port !in Marked(words, range.low, range.high)
    {
      var p := port - range.low;
      free := !Bit(words[p / 64], p % 64);
      assert free <==> !MarkedAt(words, range.low, port);
    }

    /** The inner loop of reservePort. */
    method ScanWords(words: seq<nat>, draw: nat) returns (candidate: int)
      requires Accepted(range) && Fits(words) && draw <= range.high - range.low
      ensures candidate == ScanBits(range, words, range.low + draw, range.high - range.low + 1)
    {
      var port, left := range.low + draw, range.high - range.low + 1;
      ghost var found := ScanBits(range, words, port, left);
      while left > 0
        invariant range.low <= port <= range.high && left >= 0
        invariant found == ScanBits(range, words, port, left)
      {
        var free := IsFree(words, port);
        MarkedIs(words, range, port);
        if free {
          return port;
        }
        port, left := Following(range.low, range.high, port), left - 1;
      }
      return 0;
    }

    method FindFree(words: seq<nat>, draw: nat) returns (candidate: int)
      requires Accepted(range) && Fits(words) && draw <= range.high - range.low
      ensures candidate == Candidate(range, Marked(words, range.low, range.high), draw)
    {
      candidate := ScanWords(words, draw);
      BitsAreMarks(range, words, range.low + draw, range.high - range.low + 1);
    }

    method Claim(row: Row, a: Attempt) returns (outcome: Outcome)
      modifies this`rows
      ensures (outcome, rows) == Contest(old(rows), row, a)
    {
      rows := ApplyAll(rows, a.before);
      if a.fails {
        return Refused;
      }
      if Holds(rows, row.worker, row.port) {
        return Lost;
      } else if !Storable(row.port) {
        return Refused;
      }
      rows := rows + [row];
      return Won;
    }

    /** One round of reservePort: scan, claim, and mark what was lost. */
    method Round(words: array<nat>, ghost used: set<int>, who: Row, a: Attempt)
      returns (candidate: int, outcome: Outcome)
      requires Accepted(range) && Fits(words[..]) && used == Marked(words[..], range.low, range.high)
      requires a.draw <= range.high - range.low
      modifies this`rows, words
      ensures candidate == Candidate(range, used, a.draw)
      ensures candidate == 0 ==> rows == old(rows)
      ensures candidate != 0 ==> (outcome, rows) == Contest(old(rows), who.(port := candidate), a)
      ensures Fits(words[..]) && Marked(words[..], range.low, range.high)
                == if candidate != 0 && outcome == Lost then used + {candidate} else used
    {
      outcome := Lost;
      candidate := FindFree(words[..], a.draw);
      if candidate != 0 {
        outcome := Claim(who.(port := candidate), a);
        if outcome == Lost {
          Mark(words, candidate);
        }
      }
    }

    /** reservePort, with what the other launches do meanwhile in `tries`. */
    method ReservePort(who: Row, tries: seq<Attempt>) returns (result: Result)
      requires Accepted(range) && |tries| == ATTEMPTS && Draws(range, tries)
      modifies this`rows
      ensures (result, rows) == Reserve(old(rows), range, UsedOn(old(rows), who.worker, range), who, tries, 0)
    {
      var words := UsedPortBitset(who.worker);
      ghost var t, used := rows, UsedOn(rows, who.worker, range);
      ghost var goal := Reserve(t, range, used, who, tries, 0);
      for k := 0 to |tries|
        invariant fresh(words) && Fits(words[..])
        invariant rows == Before(t, tries, k) && used == Marked(words[..], range.low, range.high)
        invariant goal == Reserve(t, range, used, who, tries, k)
      {
        var candidate, outcome := Round(words, used, who, tries[k]);
        if candidate == 0 {
          return Exhausted;
        } else if outcome == Won {
          return Reserved(candidate);
        } else if outcome == Refused {
          return Failed;
        }
        LostRound(t, range, used, who, tries, k);
        used := used + {candidate};
      }
      return Contended;
    }

    /** The row of one port of reassignPorts. */
    method ReassignPort(who: Row, w: Want) returns (result: Result)
      requires Accepted(range) && Draws(range, w.tries) && |w.tries| == ATTEMPTS
      modifies this`rows
      ensures (result, rows) == ReassignOne(old(rows), range, who, w)
    {
      var row := who.(name := w.name);
      if w.name == "" {
        return Failed;
      }
      if InRange(range, w.previous) {
        var outcome := Claim(row.(port := w.previous), w.first);
        if outcome == Won {
          return Reserved(w.previous);
        } else if outcome == Refused {
          return Failed;
        }
      }
      result := ReservePort(row, w.tries);
    }

    /** reassignPorts. */
    method ReassignPorts(who: Row, wants: seq<Want>) returns (ok: bool, ports: map<string, int>)
      requires Accepted(range) && CanDraw(range, wants) && forall i :: 0 <= i < |wants| ==> |wants[i].tries| == ATTEMPTS
      modifies this`rows
      ensures Assigned(ok, ports, rows) == Reassign(old(rows), range, who, wants)
    {
      ok, ports := true, map[];
      ghost var t := rows;
      for k := 0 to |wants|
        invariant Assigned(true, ports, rows) == ReassignAll(t, range, who, wants[..k])
      {
        assert wants[..k + 1][..k] == wants[..k];
        var result := ReassignPort(who, wants[k]);
        if !result.Reserved? {
          FailureStays(t, range, who, wants, k + 1);
          rows := Release(rows, who.instance);
          return false, map[];
        }
        ports := ports[wants[k].name := result.port];
      }
      assert wants[..|wants|] == wants;
    }
  }

  lemma {:induction false} FailureStays(t: seq<Row>, r: Range, who: Row, wants: seq<Want>, k: nat)
    requires Accepted(r) && CanDraw(r, wants) && k <= |wants| && !ReassignAll(t, r, who, wants[..k]).ok
    ensures ReassignAll(t, r, who, wants) == ReassignAll(t, r, who, wants[..k])
    decreases |wants|
  {
    var n := |wants|;
    if k == n {
      assert wants[..k] == wants;
    } else {
      assert wants[..n - 1][..k] == wants[..k];
      FailureStays(t, r, who, wants[..n - 1], k);
    }
  }

  lemma UsedGrows(t: seq<Row>, row: Row, worker: string, r: Range)
    ensures UsedOn(t + [row], worker, r)
         == UsedOn(t, worker, r) + if row.worker == worker && r.low <= row.port <= r.high then {row.port} else {}
  {
    forall p ensures Holds(t + [row], worker, p) <==> Holds(t, worker, p) || (row.worker == worker && row.port == p) {
      assert row in t + [row];
      if Holds(t, worker, p) {
        var x :| x in t && x.worker == worker && x.port == p;
        assert x in t + [row];
      }
    }
  }
}
