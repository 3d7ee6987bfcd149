/** A worker's poller: consecutive misses eject, consecutive good probes recover, and
    a failed container listing is re-tested on every tick until a listing succeeds. */
module Probes {
  import opened Arithmetic
  import opened Health

  datatype Timing = Timing(deepInterval: int, maxMisses: int, healthyThreshold: int,
                           recoverBackoff: int, recoverBackoffMax: int)

  /** What one tick meets. `first`, `start` and `end` are the reachability as the tick
      loads it, twice at its beginning and once at its end (an operator or a control call
      may change it in between), `elapsed` how long ago the worker entered its present
      state, `ejections` how often it was ejected. */
  datatype Tick = Tick(first: Reachable, start: Reachable, ping: bool, listing: bool, now: int, stamped: int,
                       end: Reachable, elapsed: int, ejections: int)

  datatype Verdict = Skipped | Bad | Good
  datatype Action = Nothing | Eject | Recover

  datatype Local = Local(misses: nat, goodProbes: nat, wedged: bool, lastDeep: int, lastSeen: Reachable)
  datatype Outcome = Outcome(local: Local, verdict: Verdict, action: Action)

  /** recoverBackoffFor. */
  function Backoff(t: Timing, ejections: int): int {
    var n := if ejections < 1 then 1 else ejections;
    if n * t.recoverBackoff < t.recoverBackoffMax then n * t.recoverBackoff else t.recoverBackoffMax
  }

  predicate Deep(p: Local, t: Timing, o: Tick) {
    o.ping && (p.wedged || o.now - p.lastDeep >= t.deepInterval)
  }

  /** Whether the daemon failed this probe. */
  predicate Fails(p: Local, t: Timing, o: Tick) {
    !o.ping || (Deep(p, t, o) && !o.listing)
  }

  /** One run of the probe closure. */
  function Probe(p: Local, t: Timing, o: Tick): Outcome {
    if o.first == Down then Outcome(p, Skipped, Nothing)
    else
      var good0 := if o.start != p.lastSeen && o.start != Ok then 0 else p.goodProbes;
      var deep := Deep(p, t, o);
      var q := p.(lastSeen := o.start,
                  wedged := if deep then !o.listing else p.wedged,
                  lastDeep := if deep then o.stamped else p.lastDeep);
      if Fails(p, t, o) then
        var misses := p.misses + 1;
        if misses >= t.maxMisses
        then Outcome(q.(misses := misses, goodProbes := 0, lastSeen := o.end), Bad, Eject)
        else Outcome(q.(misses := misses, goodProbes := 0), Bad, Nothing)
      else
        var good := good0 + 1;
        var r := q.(misses := 0, goodProbes := good);
        if o.end != Ok && good >= t.healthyThreshold && o.elapsed >= Backoff(t, o.ejections)
        then Outcome(r, Good, Recover)
        else Outcome(r, Good, Nothing)
  }

  class Poller {
    var misses: nat
    var goodProbes: nat
    var deepWedged: bool
    var lastDeep: int
    var lastSeen: Reachable

    constructor (seen: Reachable, epoch: int)
      ensures Now() == Local(0, 0, false, epoch, seen)
    {
      misses, goodProbes, deepWedged, lastDeep, lastSeen := 0, 0, false, epoch, seen;
    }

    function Now(): Local
      reads this
    {
      Local(misses, goodProbes, deepWedged, lastDeep, lastSeen)
    }

    /** pollWorker's probe, reachability half. */
    method ProbeOnce(t: Timing, o: Tick) returns (verdict: Verdict, action: Action)
      modifies this
      ensures Outcome(Now(), verdict, action) == Probe(old(Now()), t, o)
    {
      if o.first == Down {
        return Skipped, Nothing;
      }
      if o.start != lastSeen {
        if o.start != Ok {
          goodProbes := 0;
        }
        lastSeen := o.start;
      }
      var failed := !o.ping;
      var deep := !failed && (deepWedged || o.now - lastDeep >= t.deepInterval);
      if deep {
        failed := !o.listing;
        lastDeep := o.stamped;
        deepWedged := failed;
      }
      if failed {
        goodProbes := 0;
        misses := misses + 1;
      } else {
        misses := 0;
        goodProbes := goodProbes + 1;
      }
      if misses > 0 {
        if misses >= t.maxMisses {
          lastSeen := o.end;
          return Bad, Eject;
        }
        return Bad, Nothing;
      }
      if o.end == Ok {
        return Good, Nothing;
      }
      if goodProbes < t.healthyThreshold || o.elapsed < Backoff(t, o.ejections) {
        return Good, Nothing;
      }
      return Good, Recover;
    }
  }

  // ------------------------------------------------------------------ histories

  /** What a tick concluded, how it found the worker, and how it last saw it. */
  datatype Record = Record(verdict: Verdict, start: Reachable, left: Reachable)

  function Begin(seen: Reachable, epoch: int): Local {
    Local(0, 0, false, epoch, seen)
  }

  function After(p: Local, t: Timing, os: seq<Tick>): Local {
    if os == [] then p else Probe(After(p, t, os[..|os| - 1]), t, os[|os| - 1]).local
  }

  /** What every tick of the run concluded. */
  function History(p: Local, t: Timing, os: seq<Tick>): seq<Record> {
    if os == [] then []
    else
      var before := os[..|os| - 1];
      var o := os[|os| - 1];
      var last := Probe(After(p, t, before), t, o);
      History(p, t, before) + [Record(last.verdict, o.start, last.local.lastSeen)]
  }

  /** The consecutive bad probes a history ends in; skipped ticks do not interrupt. */
  function TrailingBad(h: seq<Record>): nat {
    if h == [] then 0
    else
      match h[|h| - 1].verdict
      case Skipped => TrailingBad(h[..|h| - 1])
      case Bad => 1 + TrailingBad(h[..|h| - 1])
      case Good => 0
  }

  function TrailingGood(h: seq<Record>): nat {
    if h == [] then 0
    else
      match h[|h| - 1].verdict
      case Skipped => TrailingGood(h[..|h| - 1])
      case Good => 1 + TrailingGood(h[..|h| - 1])
      case Bad => 0
  }

  /** How the worker was last seen. */
  function LastLeft(h: seq<Record>, seen: Reachable): Reachable {
    if h == [] then seen
    else if h[|h| - 1].verdict == Skipped then LastLeft(h[..|h| - 1], seen)
    else h[|h| - 1].left
  }

  /** The good probes a history ends in, counted afresh from any that found the worker in
      a state other than ok that it was not last seen in. */
  function GoodRun(h: seq<Record>, seen: Reachable): nat {
    if h == [] then 0
    else
      var front, last := h[..|h| - 1], h[|h| - 1];
      match last.verdict
      case Skipped => GoodRun(front, seen)
      case Bad => 0
      case Good => 1 + if last.start != Ok && last.start != LastLeft(front, seen) then 0 else GoodRun(front, seen)
  }

  /** Likewise, of those probes that found the worker already out of ok. */
  function GoodSinceEjection(h: seq<Record>): nat {
    if h == [] then 0
    else
      var last := h[|h| - 1];
      if last.verdict == Skipped then GoodSinceEjection(h[..|h| - 1])
      else if last.verdict == Good && last.start != Ok then 1 + GoodSinceEjection(h[..|h| - 1])
      else 0
  }

  /** The counters are trailing runs of the history: the misses all the failed probes it
      ends in, the good probes those since the worker was last found newly out of ok. */
  lemma {:induction false} CountersFollowHistory(seen: Reachable, epoch: int, t: Timing, os: seq<Tick>)
    ensures var p, h := After(Begin(seen, epoch), t, os), History(Begin(seen, epoch), t, os);
            && p.misses == TrailingBad(h)
            && p.goodProbes == GoodRun(h, seen) && p.lastSeen == LastLeft(h, seen)
            && p.goodProbes <= TrailingGood(h)
            && (p.lastSeen != Ok ==> p.goodProbes <= GoodSinceEjection(h))
            && (p.wedged ==> p.misses > 0)
  {
    if os != [] {
      var before, b := os[..|os| - 1], Begin(seen, epoch);
      CountersFollowHistory(seen, epoch, t, before);
      var h := History(b, t, os);
      assert h[..|h| - 1] == History(b, t, before);
    }
  }

  /** The probes eject a worker exactly when the daemon failed this probe and the
      maxMisses - 1 before it, with no good probe in between. */
  lemma EjectionNeedsConsecutiveMisses(seen: Reachable, epoch: int, t: Timing, os: seq<Tick>)
    requires os != []
    ensures var b := Begin(seen, epoch);
            var last := Probe(After(b, t, os[..|os| - 1]), t, os[|os| - 1]);
            last.action == Eject <==> last.verdict == Bad && TrailingBad(History(b, t, os)) >= t.maxMisses
  {
    CountersFollowHistory(seen, epoch, t, os);
    CountersFollowHistory(seen, epoch, t, os[..|os| - 1]);
  }

  function Active(os: seq<Tick>): nat {
    if os == [] then 0 else Active(os[..|os| - 1]) + if os[|os| - 1].first == Down then 0 else 1
  }

  /** Once a listing has failed, pings alone never clear it: as long as no listing
      succeeds, every tick is another miss, however many pings are answered. */
  lemma {:induction false} PingsDoNotClearTheLatch(p: Local, t: Timing, os: seq<Tick>)
    requires p.wedged && forall i :: 0 <= i < |os| ==> !(os[i].ping && os[i].listing)
    ensures After(p, t, os).wedged && After(p, t, os).misses == p.misses + Active(os)
  {
    if os != [] {
      var front := os[..|os| - 1];
      assert forall i :: 0 <= i < |front| ==> front[i] == os[i];
      PingsDoNotClearTheLatch(p, t, front);
    }
  }

  /** And one listing that succeeds does clear it. */
  lemma ListingClearsTheLatch(p: Local, t: Timing, o: Tick)
    requires p.wedged && o.first != Down
    ensures var q := Probe(p, t, o).local;
            (!q.wedged && q.misses == 0) <==> (o.ping && o.listing)
  {
  }

  /** A recovery follows healthyThreshold good probes in a row and the whole backoff.
      Those probes all came after the ejection exactly when this tick already found the
      worker out of ok, that is, unless a control call ejected it during this tick. */
  lemma RecoveryIsEarned(seen: Reachable, epoch: int, t: Timing, os: seq<Tick>)
    requires os != [] && t.healthyThreshold >= 1
    requires Probe(After(Begin(seen, epoch), t, os[..|os| - 1]), t, os[|os| - 1]).action == Recover
    ensures var h, o := History(Begin(seen, epoch), t, os), os[|os| - 1];
            && o.elapsed >= Backoff(t, o.ejections)
            && TrailingGood(h) >= t.healthyThreshold
            && (GoodSinceEjection(h) >= t.healthyThreshold <==> o.start != Ok)
  {
    CountersFollowHistory(seen, epoch, t, os);
  }

  /** The exception is real: an ejection landing inside a tick, with a backoff shorter
      than what is left of that tick, recovers on probes made before the ejection. */
  lemma RecoveryInsideOneTick()
    ensures exists t: Timing, os: seq<Tick> ::
              && os != [] && t.healthyThreshold == 2
              && Probe(After(Begin(Ok, 0), t, os[..|os| - 1]), t, os[|os| - 1]).action == Recover
              && GoodSinceEjection(History(Begin(Ok, 0), t, os)) == 0
  {
    var t := Timing(30, 6, 2, 1, 5);
    var calm := Tick(Ok, Ok, true, true, 0, 0, Ok, 100, 0);
    var hit := calm.(end := Unresponsive, elapsed := 1, ejections := 1);
    var os := [calm, hit];
    assert os[..|os| - 1] == [calm] && [calm][..0] == [];
    var p := After(Begin(Ok, 0), t, [calm]);
    assert p.goodProbes == 1 && p.lastSeen == Ok;
    assert Probe(p, t, hit).action == Recover;
    var h := History(Begin(Ok, 0), t, os);
    assert h == History(Begin(Ok, 0), t, [calm]) + [Record(Good, Ok, Ok)];
    assert h[|h| - 1] == Record(Good, Ok, Ok);
    assert GoodSinceEjection(History(Begin(Ok, 0), t, os)) == 0;
  }

  /** The backoff grows with the ejections and is capped. */
  lemma BackoffEscalates(t: Timing, a: int, b: int)
    requires a <= b && t.recoverBackoff > 0
    ensures Backoff(t, a) <= Backoff(t, b) <= t.recoverBackoffMax
    ensures Backoff(t, b) < t.recoverBackoffMax && 1 <= a < b ==> Backoff(t, a) < Backoff(t, b)
  {
    Scaled(if a < 1 then 1 else a, if b < 1 then 1 else b, t.recoverBackoff);
  }
}
