/** The slots of one daemon: a counting semaphore of fixed capacity that launches (and,
    in a pool of their own, teardowns) take for the length of a stage, and the admission
    estimate read off it. Every step on shared state is a step of its own here. */
module Slots {
  import opened Arithmetic

  // ---------------------------------------------------------------- the semaphore

  /** Where a caller of acquireSlot stands. */
  datatype Pc =
    | Counted            // counted among the waiting, reachability not looked at yet
    | Blocked            // in the select
    | Took               // has its token, about to look at the worker again
    | Leaving(ok: bool)  // acquireSlot has returned, still counted among the waiting
    | Holding            // has the release function
    | Refused
    | Released

  /** `local`: the daemon is not a worker, so it is never unreachable.
      `bounded`: the wait has a timer. */
  datatype Caller = Caller(local: bool, bounded: bool, pc: Pc)

  datatype State = State(slots: nat, tokens: int, waiting: int, callers: map<nat, Caller>)

  datatype Event =
    | Arrive(c: nat, local: bool, bounded: bool)
    | FindReachable(c: nat)
    | FindUnreachable(c: nat)   // before the wait, during it, or after it
    | TakeToken(c: nat)
    | Expire(c: nat)
    | Return(c: nat)            // the waiting counter goes back down
    | Release(c: nat)

  predicate At(s: State, c: nat, pc: Pc) {
    c in s.callers && s.callers[c].pc == pc
  }

  predicate Enabled(s: State, e: Event) {
    match e
    case Arrive(c, _, _) => c !in s.callers
    case FindReachable(c) => At(s, c, Counted) || At(s, c, Took)
    case FindUnreachable(c) => (At(s, c, Counted) || At(s, c, Blocked) || At(s, c, Took)) && !s.callers[c].local
    case TakeToken(c) => At(s, c, Blocked) && s.tokens < s.slots
    case Expire(c) => At(s, c, Blocked) && s.callers[c].bounded
    case Return(c) => c in s.callers && s.callers[c].pc.Leaving?
    case Release(c) => At(s, c, Holding)
  }

  function Move(s: State, c: nat, pc: Pc): State
    requires c in s.callers
  {
    s.(callers := s.callers[c := s.callers[c].(pc := pc)])
  }

  function Next(s: State, e: Event): State
    requires Enabled(s, e)
  {
    match e
    case Arrive(c, local, bounded) =>
      s.(waiting := s.waiting + 1, callers := s.callers[c := Caller(local, bounded, Counted)])
    case FindReachable(c) => Move(s, c, if s.callers[c].pc == Took then Leaving(true) else Blocked)
    case FindUnreachable(c) =>
      Move(if s.callers[c].pc == Took then s.(tokens := s.tokens - 1) else s, c, Leaving(false))
    case TakeToken(c) => Move(s.(tokens := s.tokens + 1), c, Took)
    case Expire(c) => Move(s, c, Leaving(false))
    case Return(c) => Move(s.(waiting := s.waiting - 1), c, if s.callers[c].pc.ok then Holding else Refused)
    case Release(c) => Move(s.(tokens := s.tokens - 1), c, Released)
  }

  function Step(s: State, e: Event): State {
    if Enabled(s, e) then Next(s, e) else s
  }

  function Run(s: State, es: seq<Event>): State {
    if es == [] then s else Step(Run(s, es[..|es| - 1]), es[|es| - 1])
  }

  function Fresh(slots: nat): State {
    State(slots, 0, 0, map[])
  }

  /** The caller owes a release: it took a token and has not given it back. */
  predicate Owes(pc: Pc) {
    pc == Took || pc == Leaving(true) || pc == Holding
  }

  predicate InWindow(pc: Pc) {
    pc == Counted || pc == Blocked || pc == Took || pc.Leaving?
  }

  function Owing(s: State): set<nat> {
    set c | c in s.callers && Owes(s.callers[c].pc)
  }

  function Window(s: State): set<nat> {
    set c | c in s.callers && InWindow(s.callers[c].pc)
  }

  ghost predicate Conserved(s: State) {
    s.tokens == |Owing(s)| <= s.slots && s.waiting == |Window(s)|
  }

  /** Only one caller moves in a step, so each count changes by at most that caller. */
  lemma OwingMoves(s: State, s': State, c: nat)
    requires c in s'.callers && s'.callers == s.callers[c := s'.callers[c]]
    ensures |Owing(s')| - |Owing(s)| == Weight(Owes(s'.callers[c].pc)) - Weight(c in s.callers && Owes(s.callers[c].pc))
  {
    Toggle(Owing(s), Owing(s'), c);
  }

  lemma WindowMoves(s: State, s': State, c: nat)
    requires c in s'.callers && s'.callers == s.callers[c := s'.callers[c]]
    ensures |Window(s')| - |Window(s)|
         == Weight(InWindow(s'.callers[c].pc)) - Weight(c in s.callers && InWindow(s.callers[c].pc))
  {
    Toggle(Window(s), Window(s'), c);
  }

  lemma Toggle(a: set<nat>, b: set<nat>, c: nat)
    requires b + {c} == a + {c}
    ensures |b| - |a| == Weight(c in b) - Weight(c in a)
  {
    assert b == if c in b then a + {c} else a - {c};
  }

  function Weight(b: bool): int {
    if b then 1 else 0
  }

  lemma StepConserves(s: State, e: Event)
    requires Conserved(s)
    ensures Conserved(Step(s, e))
  {
    if Enabled(s, e) {
      OwingMoves(s, Next(s, e), e.c);
      WindowMoves(s, Next(s, e), e.c);
    }
  }

  /** In every interleaving of arrivals, timeouts, losses of the worker and releases the
      semaphore holds exactly one token per caller that owes one, never more than its
      capacity, and the waiting counter counts the callers in their wait. */
  lemma {:induction false} SlotsAreConserved(slots: nat, es: seq<Event>)
    ensures var s := Run(Fresh(slots), es);
            s.slots == slots && 0 <= s.tokens <= slots && s.tokens == |Owing(s)| && s.waiting == |Window(s)|
  {
    if es == [] {
      assert Owing(Fresh(slots)) == {} && Window(Fresh(slots)) == {};
    } else {
      SlotsAreConserved(slots, es[..|es| - 1]);
      StepConserves(Run(Fresh(slots), es[..|es| - 1]), es[|es| - 1]);
    }
  }

  predicate Finished(pc: Pc) {
    pc == Refused || pc == Released
  }

  /** Nothing leaks: once every caller was refused or has released, whatever happened on
      the way (a refusal after taking the token included), all slots are free again. */
  lemma AllSlotsComeBack(slots: nat, es: seq<Event>)
    requires var s := Run(Fresh(slots), es); forall c :: c in s.callers ==> Finished(s.callers[c].pc)
    ensures Run(Fresh(slots), es).tokens == 0 && Run(Fresh(slots), es).waiting == 0
  {
    SlotsAreConserved(slots, es);
    assert Owing(Run(Fresh(slots), es)) == {} && Window(Run(Fresh(slots), es)) == {};
  }

  /** A full semaphore is full of callers that each owe a release, one per slot. */
  lemma FullMeansHeld(slots: nat, es: seq<Event>)
    ensures var s := Run(Fresh(slots), es); s.tokens == slots <==> |Owing(s)| == slots
  {
    SlotsAreConserved(slots, es);
  }

  /** A caller of the local daemon that waits without a timer is never refused. */
  lemma {:induction false} UnboundedLocalIsNeverRefused(slots: nat, es: seq<Event>, c: nat)
    requires var s := Run(Fresh(slots), es); c in s.callers && s.callers[c].local && !s.callers[c].bounded
    ensures var pc := Run(Fresh(slots), es).callers[c].pc; pc != Refused && pc != Leaving(false)
  {
    if es != [] {
      var s := Run(Fresh(slots), es[..|es| - 1]);
      if c in s.callers {
        assert s.callers[c].local == Run(Fresh(slots), es).callers[c].local;
        UnboundedLocalIsNeverRefused(slots, es[..|es| - 1], c);
      }
    }
  }

  // ---------------------------------------------------------------- hold estimate

  /** recordHold on the value it loaded. */
  function Fold(estimate: nat, d: nat): nat {
    if estimate == 0 then d else estimate * 3 / 4 + d / 4
  }

  /** The estimate and the updates under way: the value each has loaded, its sample. */
  datatype Clock = Clock(hold: nat, pending: map<nat, (nat, nat)>)

  datatype Update = Load(c: nat, d: nat) | Store(c: nat)

  /** recordHold is not atomic: stores of concurrent updates overwrite one another. */
  function Record(k: Clock, u: Update): Clock {
    match u
    case Load(c, d) => k.(pending := k.pending[c := (k.hold, d)])
    case Store(c) =>
      if c !in k.pending then k
      else Clock(Fold(k.pending[c].0, k.pending[c].1), k.pending - {c})
  }

  function RecordAll(k: Clock, us: seq<Update>): Clock {
    if us == [] then k else Record(RecordAll(k, us[..|us| - 1]), us[|us| - 1])
  }

  predicate Near(lo: nat, hi: nat, x: nat) {
    x == 0 || lo - 3 <= x <= hi
  }

  lemma FoldStaysNear(lo: nat, hi: nat, x: nat, d: nat)
    requires Near(lo, hi, x) && lo <= d <= hi
    ensures Near(lo, hi, Fold(x, d))
    ensures lo - 3 <= Fold(x, d) <= hi
  {
  }

  /** How many updates have reached the estimate. */
  function Stores(us: seq<Update>): nat {
    if us == [] then 0
    else
      var front, u := us[..|us| - 1], us[|us| - 1];
      Stores(front) + if u.Store? && u.c in RecordAll(Clock(0, map[]), front).pending then 1 else 0
  }

  /** For samples between lo and hi, lost updates included, the estimate once made never
      exceeds hi and never falls more than 3 ns below lo, however long truncation
      accumulates. */
  lemma {:induction false} EstimateIsBounded(lo: nat, hi: nat, us: seq<Update>)
    requires forall i :: 0 <= i < |us| && us[i].Load? ==> lo <= us[i].d <= hi
    ensures var k := RecordAll(Clock(0, map[]), us);
            && (if Stores(us) == 0 then k.hold == 0 else lo - 3 <= k.hold <= hi)
            && forall c :: c in k.pending ==> Near(lo, hi, k.pending[c].0) && lo <= k.pending[c].1 <= hi
  {
    if us != [] {
      var front := us[..|us| - 1];
      EstimateIsBounded(lo, hi, front);
      var k := RecordAll(Clock(0, map[]), front);
      var u := us[|us| - 1];
      if u.Store? && u.c in k.pending {
        FoldStaysNear(lo, hi, k.pending[u.c].0, k.pending[u.c].1);
      }
    }
  }

  function FoldAll(ds: seq<nat>): nat {
    if ds == [] then 0 else Fold(FoldAll(ds[..|ds| - 1]), ds[|ds| - 1])
  }

  /** The 3 ns are attained: four equal samples that are 3 modulo 4. */
  lemma BoundIsAttained(m: nat)
    requires m > 0
    ensures var d := 4 * m + 3; FoldAll([d, d, d, d]) == d - 3
  {
    var d := 4 * m + 3;
    assert [d, d, d, d][..3] == [d, d, d] && [d, d, d][..2] == [d, d] && [d, d][..1] == [d] && [d][..0] == [];
    assert FoldAll([d]) == d;
    assert FoldAll([d, d]) == d - 1;
    assert FoldAll([d, d, d]) == d - 2;
  }

  // -------------------------------------------------------------------- admission

  /** expectedWait. */
  function ExpectedWait(hold: nat, waiting: nat, tokens: nat, slots: nat): int
    requires slots > 0
  {
    var ahead := waiting + tokens;
    if hold == 0 || ahead < slots then 0 else Quotient(hold * (ahead - slots + 1), slots)
  }

  /** admit. */
  predicate Admits(slotWait: int, hold: nat, waiting: nat, tokens: nat, slots: nat)
    requires slots > 0
  {
    slotWait <= 0 || ExpectedWait(hold, waiting, tokens, slots) <= slotWait
  }

  /** A longer queue never shortens the expected wait, nor does a slower daemon. */
  lemma ExpectedWaitIsMonotone(hold: nat, hold': nat, w: nat, t: nat, w': nat, t': nat, slots: nat)
    requires slots > 0 && hold <= hold' && w + t <= w' + t'
    ensures ExpectedWait(hold, w, t, slots) <= ExpectedWait(hold', w', t', slots)
  {
    if hold > 0 && w + t >= slots {
      var a, b := w + t - slots + 1, w' + t' - slots + 1;
      Scaled(a, b, hold);
      Scaled(hold, hold', b);
      QuotientGrows(hold * a, hold' * b, slots);
    }
  }

  /** What admission reads in a run: every caller once, and twice while it has its token
      but is still counted among the waiting. */
  lemma AheadCountsCallers(slots: nat, es: seq<Event>)
    ensures var s := Run(Fresh(slots), es);
            s.waiting + s.tokens == |Window(s) + Owing(s)| + |Window(s) * Owing(s)|
  {
    SlotsAreConserved(slots, es);
    var s := Run(Fresh(slots), es);
    assert |Window(s) + Owing(s)| + |Window(s) * Owing(s)| == |Window(s)| + |Owing(s)|;
  }

  function Ahead(s: State): nat {
    |Window(s) + Owing(s)| + |Window(s) * Owing(s)|
  }

  /** Whether a wait is within a bound, without dividing. */
  lemma WaitIsWithin(hold: nat, waiting: nat, tokens: nat, slots: nat, bound: nat)
    requires slots > 0
    ensures ExpectedWait(hold, waiting, tokens, slots) <= bound
       <==> hold == 0 || waiting + tokens < slots || hold * (waiting + tokens - slots + 1) < (bound + 1) * slots
  {
    if hold > 0 && waiting + tokens >= slots {
      QuotientAtMost(hold * (waiting + tokens - slots + 1), slots, bound);
    }
  }

  /** With a queue as long as the slots, some hold time gives a wait beyond any bound. */
  lemma SomeHoldExceeds(waiting: nat, tokens: nat, slots: nat, bound: nat)
    requires slots > 0 && waiting + tokens >= slots
    ensures ExpectedWait((bound + 1) * slots, waiting, tokens, slots) > bound
  {
    var hold, more := (bound + 1) * slots, waiting + tokens - slots + 1;
    Scaled(1, bound + 1, slots);
    Scaled(1, more, hold);
    WaitIsWithin(hold, waiting, tokens, slots, bound);
  }

  /** Exactly when a daemon estimates no wait, and exactly when it admits a launch, in
      every state of every run. A launch without a bounded wait is always admitted. */
  lemma DaemonWithRoomAdmits(slots: nat, es: seq<Event>, slotWait: int, hold: nat)
    requires slots > 0
    ensures var s := Run(Fresh(slots), es);
            && s.waiting >= 0 && s.tokens >= 0
            && (ExpectedWait(hold, s.waiting, s.tokens, slots) == 0
                <==> hold == 0 || Ahead(s) < slots || hold * (Ahead(s) - slots + 1) < slots)
            && (Admits(slotWait, hold, s.waiting, s.tokens, slots)
                <==> slotWait <= 0 || hold == 0 || Ahead(s) < slots
                     || hold * (Ahead(s) - slots + 1) < (slotWait + 1) * slots)
  {
    SlotsAreConserved(slots, es);
    AheadCountsCallers(slots, es);
    var s := Run(Fresh(slots), es);
    EstimateIs(s.waiting, s.tokens, slots, slotWait, hold);
  }

  lemma EstimateIs(waiting: nat, tokens: nat, slots: nat, slotWait: int, hold: nat)
    requires slots > 0
    ensures ExpectedWait(hold, waiting, tokens, slots) == 0
       <==> hold == 0 || waiting + tokens < slots || hold * (waiting + tokens - slots + 1) < slots
    ensures Admits(slotWait, hold, waiting, tokens, slots)
       <==> slotWait <= 0 || hold == 0 || waiting + tokens < slots
            || hold * (waiting + tokens - slots + 1) < (slotWait + 1) * slots
  {
    WaitIsWithin(hold, waiting, tokens, slots, 0);
    if slotWait > 0 {
      WaitIsWithin(hold, waiting, tokens, slots, slotWait);
    }
  }

  /** The estimate is zero whatever the hold time, and every launch is admitted, exactly
      when fewer callers than slots are ahead, those between their token and their return
      counted twice. */
  lemma RoomWhateverTheHold(slots: nat, es: seq<Event>)
    requires slots > 0
    ensures var s := Run(Fresh(slots), es);
            && s.waiting >= 0 && s.tokens >= 0
            && ((forall hold: nat :: ExpectedWait(hold, s.waiting, s.tokens, slots) == 0) <==> Ahead(s) < slots)
            && ((forall hold: nat, slotWait: int :: Admits(slotWait, hold, s.waiting, s.tokens, slots))
                <==> Ahead(s) < slots)
  {
    SlotsAreConserved(slots, es);
    AheadCountsCallers(slots, es);
    var s := Run(Fresh(slots), es);
    NeverWaits(s.waiting, s.tokens, slots);
  }

  lemma NeverWaits(waiting: nat, tokens: nat, slots: nat)
    requires slots > 0
    ensures (forall hold: nat :: ExpectedWait(hold, waiting, tokens, slots) == 0) <==> waiting + tokens < slots
    ensures (forall hold: nat, slotWait: int :: Admits(slotWait, hold, waiting, tokens, slots))
       <==> waiting + tokens < slots
  {
    if waiting + tokens >= slots {
      SomeHoldExceeds(waiting, tokens, slots, 1);
      var hold: nat := (1 + 1) * slots;
      assert ExpectedWait(hold, waiting, tokens, slots) > 1;
      assert !Admits(1, hold, waiting, tokens, slots);
    }
  }

  /** Being counted twice matters: with two slots, one launch that has just taken its
      token makes the next one expect a wait, and be refused if it would wait less than
      that, although a slot is free and nobody waits. */
  lemma RoomCanLookFull(hold: nat)
    requires hold >= 2
    ensures var s := Run(Fresh(2), [Arrive(0, true, true), FindReachable(0), TakeToken(0)]);
            && s.callers.Keys == {0} && s.tokens == 1 && s.waiting == 1
            && ExpectedWait(hold, 1, 1, 2) > 0
            && forall slotWait :: 0 < slotWait < hold / 2 ==> !Admits(slotWait, hold, 1, 1, 2)
  {
    var es := [Arrive(0, true, true), FindReachable(0), TakeToken(0)];
    assert es[..2] == [Arrive(0, true, true), FindReachable(0)] && es[..2][..1] == [Arrive(0, true, true)];
    var s1 := State(2, 0, 1, map[0 := Caller(true, true, Counted)]);
    assert es[..1][..0] == [] && Run(Fresh(2), es[..1]) == s1;
    assert Run(Fresh(2), es[..2]) == s1.(callers := map[0 := Caller(true, true, Blocked)]);
  }
}
