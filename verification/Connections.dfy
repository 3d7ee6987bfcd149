/** A worker's connection and the fleet map, under every interleaving of pollers,
    failing control calls, reconciles, recoveries and operators. setReachable runs
    without the fleet lock, so its load, its checks, its compare-and-swap, the store
    of `retired` and the close of the unreachable channel are separate steps here.
    AddWorker, RemoveWorker, recoverWorker and selectWorker run whole under the write
    lock; SetWorkerDown holds the read lock from its lookup to its return. */
module Connections {
  import opened Health
  import opened Naming

  /** Where a call of setReachable stands: what it does next. */
  datatype Pc =
    | Load
    | Check(prev: Reachable)
    | Swap(prev: Reachable)
    | Retire   // it took the worker out of ok
    | Close    // and has stored `retired`

  /** A running setReachable; `holder` names the worker when it is SetWorkerDown's. */
  datatype Call = Call(conn: nat, to: Reachable, pc: Pc, holder: Option<string>)

  /** `okCount`, `unreachCloses` and `doneCloses` count what happened to the
      connection: closing a channel twice is a crash. */
  datatype Conn = Conn(ip: string, reachable: Reachable, retired: bool, admitted: bool,
                       okCount: nat, unreachCloses: nat, doneCloses: nat)

  /** `asserted`: workers taken down by an operator and not added since. */
  datatype State = State(conns: seq<Conn>, workers: map<string, nat>, order: seq<string>,
                         calls: map<nat, Call>, asserted: set<string>)

  datatype Event =
    | Add(ip: string)
    | Remove(ip: string)
    | Recover(conn: nat)
    | Select(ip: string)
    | Admit(call: nat, conn: nat)     // runWorker, once its reconcile is over
    | Eject(call: nat, conn: nat)     // any probe, control call or failed reconcile
    | TakeDown(call: nat, ip: string) // SetWorkerDown
    | Move(call: nat)

  function Init(): State {
    State([], map[], [], map[], {})
  }

  /** newWorkerConn. */
  function Fresh(ip: string): Conn {
    Conn(ip, Unresponsive, false, false, 0, 0, 0)
  }

  predicate ReadLocked(s: State) {
    exists t :: t in s.calls && s.calls[t].holder.Some?
  }

  predicate Current(s: State, c: nat) {
    c < |s.conns| && s.conns[c].ip in s.workers && s.workers[s.conns[c].ip] == c
  }

  predicate Enabled(s: State, e: Event) {
    match e
    case Add(ip) => !ReadLocked(s)
    case Remove(ip) => !ReadLocked(s) && ip in s.workers && s.workers[ip] < |s.conns|
    case Recover(c) => !ReadLocked(s) && Current(s, c) && s.conns[c].reachable != Down
    case Select(ip) => !ReadLocked(s) && ip in s.workers && s.workers[ip] < |s.conns|
                       && s.conns[s.workers[ip]].reachable == Ok
    case Admit(t, c) => t !in s.calls && c < |s.conns| && !s.conns[c].admitted
    case Eject(t, c) => t !in s.calls && c < |s.conns|
    case TakeDown(t, ip) => t !in s.calls && ip in s.workers && s.workers[ip] < |s.conns|
    case Move(t) => t in s.calls && s.calls[t].conn < |s.conns|
  }

  function DoneClosed(conns: seq<Conn>, c: nat): seq<Conn>
    requires c < |conns|
  {
    conns[c := conns[c].(doneCloses := conns[c].doneCloses + 1)]
  }

  /** The order without the first occurrence of ip. */
  function Without(order: seq<string>, ip: string): seq<string> {
    if order == [] then [] else if order[0] == ip then order[1..] else [order[0]] + Without(order[1..], ip)
  }

  /** Replaces or appends: AddWorker and recoverWorker. */
  function Installed(s: State, ip: string): State {
    var conns := if ip in s.workers && s.workers[ip] < |s.conns| then DoneClosed(s.conns, s.workers[ip]) else s.conns;
    s.(conns := conns + [Fresh(ip)],
       workers := s.workers[ip := |s.conns|],
       order := if ip in s.workers then s.order else s.order + [ip])
  }

  function Goto(s: State, t: nat, pc: Pc): State
    requires t in s.calls
  {
    s.(calls := s.calls[t := s.calls[t].(pc := pc)])
  }

  function Returned(s: State, t: nat): State
    requires t in s.calls
  {
    s.(calls := s.calls - {t},
       asserted := if s.calls[t].holder.Some? then s.asserted + {s.calls[t].holder.value} else s.asserted)
  }

  function Put(s: State, c: nat, conn: Conn): State
    requires c < |s.conns|
  {
    s.(conns := s.conns[c := conn])
  }

  /** One step of setReachable. */
  function Moved(s: State, t: nat): State
    requires t in s.calls && s.calls[t].conn < |s.conns|
  {
    var call := s.calls[t];
    var w := s.conns[call.conn];
    match call.pc
    case Load => Goto(s, t, Check(w.reachable))
    case Check(prev) =>
      if prev == call.to || (prev == Down && call.to != Down) || (call.to == Ok && w.retired)
      then Returned(s, t)
      else Goto(s, t, Swap(prev))
    case Swap(prev) =>
      if w.reachable != prev then Goto(s, t, Load)
      else
        var w' := w.(reachable := call.to, okCount := w.okCount + if call.to == Ok then 1 else 0);
        var s' := Put(s, call.conn, w');
        if prev == Ok then Goto(s', t, Retire) else Returned(s', t)
    case Retire => Goto(Put(s, call.conn, w.(retired := true)), t, Close)
    case Close => Returned(Put(s, call.conn, w.(unreachCloses := w.unreachCloses + 1)), t)
  }

  function Next(s: State, e: Event): State
    requires Enabled(s, e)
  {
    match e
    case Add(ip) => Installed(s, ip).(asserted := s.asserted - {ip})
    case Remove(ip) =>
      s.(conns := DoneClosed(s.conns, s.workers[ip]), workers := s.workers - {ip}, order := Without(s.order, ip))
    case Recover(c) => Installed(s, s.conns[c].ip)
    case Select(_) => s
    case Admit(t, c) =>
      Put(s, c, s.conns[c].(admitted := true)).(calls := s.calls[t := Call(c, Ok, Load, None)])
    case Eject(t, c) => s.(calls := s.calls[t := Call(c, Unresponsive, Load, None)])
    case TakeDown(t, ip) => s.(calls := s.calls[t := Call(s.workers[ip], Down, Load, Some(ip))])
    case Move(t) => Moved(s, t)
  }

  /** Events that cannot happen are skipped, so every sequence of events is a run. */
  function Step(s: State, e: Event): State {
    if Enabled(s, e) then Next(s, e) else s
  }

  function Run(es: seq<Event>): State {
    if es == [] then Init() else Step(Run(es[..|es| - 1]), es[|es| - 1])
  }

  // ---------------------------------------------------------------- the fleet map

  /** workerOrder enumerates the map's keys without duplicates, and a connection's
      done channel is closed exactly when it has left the map, once. */
  ghost predicate Fleet(s: State) {
    && (forall i, j :: 0 <= i < j < |s.order| ==> s.order[i] != s.order[j])
    && (forall ip :: ip in s.order <==> ip in s.workers)
    && (forall ip :: ip in s.workers ==> s.workers[ip] < |s.conns| && s.conns[s.workers[ip]].ip == ip)
    && (forall c :: 0 <= c < |s.conns| ==> s.conns[c].doneCloses == if Current(s, c) then 0 else 1)
  }

  lemma {:induction false} WithoutFacts(order: seq<string>, ip: string)
    requires forall i, j :: 0 <= i < j < |order| ==> order[i] != order[j]
    ensures var r := Without(order, ip);
            && (forall i, j :: 0 <= i < j < |r| ==> r[i] != r[j])
            && (forall x :: x in r <==> x in order && x != ip)
  {
    if order != [] {
      var first, rest := order[0], order[1..];
      assert order == [first] + rest;
      FirstIsNotInRest(order);
      WithoutFacts(rest, ip);
      if first != ip {
        PrependFresh(first, Without(rest, ip));
      }
    }
  }

  lemma FirstIsNotInRest(order: seq<string>)
    requires order != [] && forall i, j :: 0 <= i < j < |order| ==> order[i] != order[j]
    ensures order[0] !in order[1..]
    ensures forall i, j :: 0 <= i < j < |order[1..]| ==> order[1..][i] != order[1..][j]
  {
    forall j | 0 <= j < |order[1..]| ensures order[1..][j] != order[0] {
      assert order[1..][j] == order[j + 1];
    }
  }

  lemma PrependFresh(x: string, q: seq<string>)
    requires x !in q && forall i, j :: 0 <= i < j < |q| ==> q[i] != q[j]
    ensures var r := [x] + q; forall i, j :: 0 <= i < j < |r| ==> r[i] != r[j]
  {
    var r := [x] + q;
    forall i, j | 0 <= i < j < |r| ensures r[i] != r[j] {
      assert r[j] == q[j - 1] && q[j - 1] in q;
      assert i > 0 ==> r[i] == q[i - 1];
    }
  }

  lemma InstallKeepsFleet(s: State, ip: string)
    requires Fleet(s)
    ensures Fleet(Installed(s, ip))
  {
    var s' := Installed(s, ip);
    forall c | 0 <= c < |s'.conns| ensures s'.conns[c].doneCloses == if Current(s', c) then 0 else 1 {
      if c < |s.conns| {
        assert s'.conns[c].ip == s.conns[c].ip;
      }
    }
  }

  lemma RemoveKeepsFleet(s: State, ip: string)
    requires Fleet(s) && Enabled(s, Remove(ip))
    ensures Fleet(Next(s, Remove(ip)))
  {
    WithoutFacts(s.order, ip);
    var s' := Next(s, Remove(ip));
    forall c | 0 <= c < |s'.conns| ensures s'.conns[c].doneCloses == if Current(s', c) then 0 else 1 {
      assert s'.conns[c].ip == s.conns[c].ip;
    }
  }

  lemma SameFleet(s: State, s': State)
    requires Fleet(s) && s'.workers == s.workers && s'.order == s.order && |s'.conns| == |s.conns|
    requires forall c :: 0 <= c < |s.conns| ==>
               s'.conns[c].ip == s.conns[c].ip && s'.conns[c].doneCloses == s.conns[c].doneCloses
    ensures Fleet(s')
  {
    assert forall c :: 0 <= c < |s.conns| ==> (Current(s', c) <==> Current(s, c));
  }

  lemma StepKeepsFleet(s: State, e: Event)
    requires Fleet(s)
    ensures Fleet(Step(s, e))
  {
    if Enabled(s, e) {
      match e
      case Add(ip) => InstallKeepsFleet(s, ip); SameFleet(Installed(s, ip), Next(s, e));
      case Remove(ip) => RemoveKeepsFleet(s, ip);
      case Recover(c) => InstallKeepsFleet(s, s.conns[c].ip);
      case _ => SameFleet(s, Next(s, e));
    }
  }

  // ------------------------------------------------------------ one-shot connections

  predicate IsLeaving(call: Call) {
    call.pc.Retire? || call.pc.Close?
  }

  predicate Leaving(s: State, t: nat, c: nat) {
    t in s.calls && s.calls[t].conn == c && IsLeaving(s.calls[t])
  }

  /** The life of one connection: never ok, then ok, then left with its channel still
      open and a call on its way to close it, then closed. */
  ghost predicate Life(s: State, c: nat)
    requires c < |s.conns|
  {
    var w := s.conns[c];
    && w.okCount <= 1 && w.unreachCloses <= 1
    && (w.reachable == Ok ==> w.okCount == 1)
    && (w.retired || w.unreachCloses == 1 ==> w.okCount == 1 && w.reachable != Ok)
    && (w.unreachCloses == 1 ==> w.retired)
    && (!w.admitted ==> w.okCount == 0)
    && (w.okCount == 1 && w.reachable != Ok && w.unreachCloses == 0 ==> exists t: nat :: Leaving(s, t, c))
  }

  predicate CallOk(conns: seq<Conn>, call: Call) {
    && call.conn < |conns|
    && var w := conns[call.conn];
    && (call.to == Ok ==> w.admitted && w.okCount == 0)
    && (IsLeaving(call) ==> w.okCount == 1 && w.reachable != Ok && w.unreachCloses == 0
                            && w.retired == call.pc.Close?)
    && (call.pc.Swap? ==> call.pc.prev != call.to && (call.pc.prev == Down ==> call.to == Down))
  }

  /** Two calls on one connection: at most one admits it, at most one is leaving it. */
  predicate Compatible(a: Call, b: Call) {
    a.conn == b.conn ==> !(a.to == Ok && b.to == Ok) && !(IsLeaving(a) && IsLeaving(b))
  }

  ghost predicate Calls(s: State) {
    && (forall t :: t in s.calls ==> CallOk(s.conns, s.calls[t]))
    && (forall t, u :: t in s.calls && u in s.calls && t != u ==> Compatible(s.calls[t], s.calls[u]))
  }

  ghost predicate OneShot(s: State) {
    Calls(s) && forall c :: 0 <= c < |s.conns| ==> Life(s, c)
  }

  /** A call that starts, or moves to a step before the swap, changes no connection. */
  lemma CallMovesKeepOneShot(s: State, t: nat, call: Call, s': State)
    requires OneShot(s) && s' == s.(calls := s.calls[t := call])
    requires CallOk(s.conns, call) && !IsLeaving(call)
    requires t in s.calls ==> s.calls[t].conn == call.conn && s.calls[t].to == call.to && !IsLeaving(s.calls[t])
    requires t !in s.calls ==> call.to != Ok
    ensures OneShot(s')
  {
    forall c | 0 <= c < |s'.conns| ensures Life(s', c) {
      assert Life(s, c);
      if u: nat :| Leaving(s, u, c) {
        assert Leaving(s', u, c);
      }
    }
  }

  lemma ReturnKeepsOneShot(s: State, t: nat)
    requires OneShot(s) && t in s.calls && !IsLeaving(s.calls[t])
    ensures OneShot(Returned(s, t))
  {
    var s' := Returned(s, t);
    forall c | 0 <= c < |s'.conns| ensures Life(s', c) {
      assert Life(s, c);
      if u: nat :| Leaving(s, u, c) {
        assert Leaving(s', u, c);
      }
    }
  }

  lemma AdmitKeepsOneShot(s: State, t: nat, c: nat)
    requires OneShot(s) && Enabled(s, Admit(t, c))
    ensures OneShot(Next(s, Admit(t, c)))
  {
    var s' := Next(s, Admit(t, c));
    assert Life(s, c);
    forall u | u in s.calls && s.calls[u].conn == c ensures s.calls[u].to != Ok {
      assert CallOk(s.conns, s.calls[u]);
    }
    forall u | u in s'.calls ensures CallOk(s'.conns, s'.calls[u]) {
      assert u in s.calls ==> CallOk(s.conns, s.calls[u]);
    }
    forall d | 0 <= d < |s'.conns| ensures Life(s', d) {
      assert Life(s, d);
      if u: nat :| Leaving(s, u, d) {
        assert Leaving(s', u, d);
      }
    }
  }

  /** Installing or removing a connection touches nobody's life. */
  lemma InstallKeepsOneShot(s: State, s': State)
    requires OneShot(s) && s'.calls == s.calls && |s'.conns| >= |s.conns|
    requires forall c :: 0 <= c < |s.conns| ==> s'.conns[c] == s.conns[c].(doneCloses := s'.conns[c].doneCloses)
    requires forall c :: |s.conns| <= c < |s'.conns| ==> s'.conns[c] == Fresh(s'.conns[c].ip)
    ensures OneShot(s')
  {
    forall u | u in s'.calls ensures CallOk(s'.conns, s'.calls[u]) {
      assert CallOk(s.conns, s.calls[u]);
    }
    forall c | 0 <= c < |s'.conns| ensures Life(s', c) {
      if c < |s.conns| {
        assert Life(s, c);
        if u: nat :| Leaving(s, u, c) {
          assert Leaving(s', u, c);
        }
      }
    }
  }

  /** The swap: into ok only by the one admission, out of ok into the leaving states. */
  lemma SwapKeepsCalls(s: State, t: nat)
    requires OneShot(s) && Enabled(s, Move(t)) && s.calls[t].pc.Swap?
    requires s.conns[s.calls[t].conn].reachable == s.calls[t].pc.prev
    ensures Calls(Moved(s, t))
  {
    var s', call := Moved(s, t), s.calls[t];
    assert Life(s, call.conn) && CallOk(s.conns, call);
    forall u | u in s'.calls ensures CallOk(s'.conns, s'.calls[u]) {
      assert CallOk(s.conns, s.calls[u]);
      assert u != t ==> Compatible(s.calls[u], call);
    }
    forall u | u in s.calls && u != t
      ensures call.pc.prev == Ok && s.calls[u].conn == call.conn ==> !IsLeaving(s.calls[u])
    {
      assert CallOk(s.conns, s.calls[u]);
    }
    forall u, v | u in s'.calls && v in s'.calls && u != v ensures Compatible(s'.calls[u], s'.calls[v]) {
      assert Compatible(s.calls[u], s.calls[v]);
    }
  }

  lemma SwapKeepsOneShot(s: State, t: nat)
    requires OneShot(s) && Enabled(s, Move(t)) && s.calls[t].pc.Swap?
    requires s.conns[s.calls[t].conn].reachable == s.calls[t].pc.prev
    ensures OneShot(Moved(s, t))
  {
    SwapKeepsCalls(s, t);
    var s', call := Moved(s, t), s.calls[t];
    assert CallOk(s.conns, call);
    forall c | 0 <= c < |s'.conns| ensures Life(s', c) {
      assert Life(s, c);
      if c == call.conn && call.pc.prev == Ok {
        assert Leaving(s', t, c);
      } else if u: nat :| Leaving(s, u, c) {
        assert Leaving(s', u, c);
      }
    }
  }

  lemma RetireKeepsOneShot(s: State, t: nat)
    requires OneShot(s) && Enabled(s, Move(t)) && IsLeaving(s.calls[t])
    ensures OneShot(Moved(s, t))
  {
    var s', call := Moved(s, t), s.calls[t];
    assert CallOk(s.conns, call) && Life(s, call.conn);
    forall u | u in s'.calls ensures CallOk(s'.conns, s'.calls[u]) {
      assert CallOk(s.conns, s.calls[u]);
      assert u != t ==> Compatible(s.calls[u], call);
    }
    forall u, v | u in s'.calls && v in s'.calls && u != v ensures Compatible(s'.calls[u], s'.calls[v]) {
      assert Compatible(s.calls[u], s.calls[v]);
    }
    forall c | 0 <= c < |s'.conns| ensures Life(s', c) {
      assert Life(s, c);
      if c == call.conn {
        assert call.pc.Retire? ==> Leaving(s', t, c);
      } else if u: nat :| Leaving(s, u, c) {
        assert Leaving(s', u, c);
      }
    }
  }

  lemma MoveKeepsOneShot(s: State, t: nat)
    requires OneShot(s) && Enabled(s, Move(t))
    ensures OneShot(Moved(s, t))
  {
    var call := s.calls[t];
    assert CallOk(s.conns, call);
    var w := s.conns[call.conn];
    match call.pc
    case Load => CallMovesKeepOneShot(s, t, call.(pc := Check(w.reachable)), Moved(s, t));
    case Check(prev) =>
      if prev == call.to || (prev == Down && call.to != Down) || (call.to == Ok && w.retired) {
        ReturnKeepsOneShot(s, t);
      } else {
        CallMovesKeepOneShot(s, t, call.(pc := Swap(prev)), Moved(s, t));
      }
    case Swap(prev) =>
      if w.reachable == prev {
        SwapKeepsOneShot(s, t);
      } else {
        CallMovesKeepOneShot(s, t, call.(pc := Load), Moved(s, t));
      }
    case _ => RetireKeepsOneShot(s, t);
  }

  lemma StepKeepsOneShot(s: State, e: Event)
    requires OneShot(s) && Fleet(s)
    ensures OneShot(Step(s, e))
  {
    if Enabled(s, e) {
      match e
      case Add(_) => InstallKeepsOneShot(s, Next(s, e));
      case Remove(_) => InstallKeepsOneShot(s, Next(s, e));
      case Recover(_) => InstallKeepsOneShot(s, Next(s, e));
      case Select(_) =>
      case Admit(t, c) => AdmitKeepsOneShot(s, t, c);
      case Eject(t, c) => CallMovesKeepOneShot(s, t, Call(c, Unresponsive, Load, None), Next(s, e));
      case TakeDown(t, ip) => CallMovesKeepOneShot(s, t, Call(s.workers[ip], Down, Load, Some(ip)), Next(s, e));
      case Move(t) => MoveKeepsOneShot(s, t);
    }
  }

  // ----------------------------------------------------------------- asserted down

  predicate DownNow(s: State, c: nat) {
    c < |s.conns| && s.conns[c].reachable == Down
  }

  /** What a running call is sure of. SetWorkerDown holds the read lock, so its
      connection is still the worker's. */
  predicate Sure(s: State, call: Call) {
    && (call.holder.Some? ==>
          && call.to == Down
          && call.holder.value in s.workers && s.workers[call.holder.value] == call.conn
          && (IsLeaving(call) ==> DownNow(s, call.conn)))
    && (call.pc == Check(Down) ==> DownNow(s, call.conn))
  }

  ghost predicate DownHolds(s: State) {
    && (forall ip :: ip in s.asserted && ip in s.workers ==> DownNow(s, s.workers[ip]))
    && (forall t :: t in s.calls ==> Sure(s, s.calls[t]))
  }

  /** No step of any call lifts an asserted down. */
  lemma DownIsStable(s: State, t: nat, c: nat)
    requires Calls(s) && Enabled(s, Move(t)) && DownNow(s, c)
    ensures DownNow(Moved(s, t), c)
  {
    assert CallOk(s.conns, s.calls[t]);
  }

  /** A SetWorkerDown that returns leaves its connection down. */
  lemma DownOnReturn(s: State, t: nat)
    requires Calls(s) && DownHolds(s) && Enabled(s, Move(t)) && s.calls[t].holder.Some?
    requires t !in Moved(s, t).calls
    ensures DownNow(Moved(s, t), s.calls[t].conn)
  {
    assert Sure(s, s.calls[t]);
  }

  lemma StepOfSure(s: State, t: nat)
    requires Enabled(s, Move(t)) && Sure(s, s.calls[t]) && CallOk(s.conns, s.calls[t]) && t in Moved(s, t).calls
    ensures Sure(Moved(s, t), Moved(s, t).calls[t])
  {
  }

  lemma MoveKeepsSure(s: State, t: nat, u: nat)
    requires Calls(s) && DownHolds(s) && Enabled(s, Move(t)) && u in Moved(s, t).calls
    ensures Sure(Moved(s, t), Moved(s, t).calls[u])
  {
    assert Sure(s, s.calls[u]);
    if u == t {
      StepOfSure(s, t);
    } else if DownNow(s, s.calls[u].conn) {
      DownIsStable(s, t, s.calls[u].conn);
    }
  }

  lemma MoveKeepsDown(s: State, t: nat)
    requires Calls(s) && DownHolds(s) && Enabled(s, Move(t))
    ensures DownHolds(Moved(s, t))
  {
    var s', call := Moved(s, t), s.calls[t];
    assert s'.workers == s.workers && Sure(s, call);
    forall u | u in s'.calls ensures Sure(s', s'.calls[u]) {
      MoveKeepsSure(s, t, u);
    }
    forall ip | ip in s'.asserted && ip in s'.workers ensures DownNow(s', s'.workers[ip]) {
      if ip in s.asserted {
        DownIsStable(s, t, s.workers[ip]);
      } else {
        DownOnReturn(s, t);
      }
    }
  }

  lemma StepKeepsDown(s: State, e: Event)
    requires Calls(s) && Fleet(s) && DownHolds(s)
    ensures DownHolds(Step(s, e))
  {
    if Enabled(s, e) {
      match e
      case Move(t) => MoveKeepsDown(s, t);
      case Admit(t, c) =>
        var s' := Next(s, e);
        assert forall d :: DownNow(s, d) ==> DownNow(s', d);
        forall u | u in s'.calls ensures Sure(s', s'.calls[u]) {
          assert u in s.calls ==> Sure(s, s.calls[u]);
        }
      case Eject(t, c) =>
        forall u | u in Next(s, e).calls ensures Sure(Next(s, e), Next(s, e).calls[u]) {
          assert u in s.calls ==> Sure(s, s.calls[u]);
        }
      case TakeDown(t, ip) =>
        forall u | u in Next(s, e).calls ensures Sure(Next(s, e), Next(s, e).calls[u]) {
          assert u in s.calls ==> Sure(s, s.calls[u]);
        }
      case Select(_) =>
      case _ => LockedStepKeepsDown(s, e);
    }
  }

  lemma LockedStepKeepsDown(s: State, e: Event)
    requires Calls(s) && Fleet(s) && DownHolds(s) && Enabled(s, e) && (e.Add? || e.Remove? || e.Recover?)
    ensures DownHolds(Next(s, e))
  {
    var s' := Next(s, e);
    assert forall d :: DownNow(s, d) ==> DownNow(s', d);
    forall u | u in s'.calls ensures Sure(s', s'.calls[u]) {
      assert Sure(s, s.calls[u]) && s.calls[u].holder.None?;
    }
  }

  // ------------------------------------------------------------------ every run

  ghost predicate Good(s: State) {
    Fleet(s) && OneShot(s) && DownHolds(s)
  }

  lemma {:induction false} EveryRunIsGood(es: seq<Event>)
    ensures Good(Run(es))
  {
    if es != [] {
      var s := Run(es[..|es| - 1]);
      EveryRunIsGood(es[..|es| - 1]);
      StepKeepsFleet(s, es[|es| - 1]);
      StepKeepsOneShot(s, es[|es| - 1]);
      StepKeepsDown(s, es[|es| - 1]);
    }
  }

  /** In every reachable state: a connection entered ok at most once; its unreachable
      channel was closed at most once, and only after it left ok for good; while it is
      in placement that channel is open; its done channel was closed once if it has
      left the map and not at all otherwise. */
  lemma ConnectionsAreOneShot(es: seq<Event>, c: nat)
    requires c < |Run(es).conns|
    ensures var w := Run(es).conns[c];
            && w.okCount <= 1 && w.unreachCloses <= 1
            && (w.unreachCloses == 1 ==> w.okCount == 1 && w.reachable != Ok && w.retired)
            && (w.reachable == Ok ==> w.unreachCloses == 0 && !w.retired)
            && w.doneCloses == if Current(Run(es), c) then 0 else 1
  {
    EveryRunIsGood(es);
    assert Life(Run(es), c);
  }

  /** Once left, ok is never entered again, whatever happens afterwards. */
  lemma {:induction false} LeftOkForGood(es: seq<Event>, more: seq<Event>, c: nat)
    requires c < |Run(es).conns| && Run(es).conns[c].okCount == 1 && Run(es).conns[c].reachable != Ok
    ensures c < |Run(es + more).conns|
    ensures Run(es + more).conns[c].okCount == 1 && Run(es + more).conns[c].reachable != Ok
  {
    if more == [] {
      assert es + more == es;
    } else {
      var front, e := more[..|more| - 1], more[|more| - 1];
      LeftOkForGood(es, front, c);
      RunExtends(es, front, e);
      assert es + more == es + front + [e];
      OkCountGrows(Run(es + front), e, c);
      ConnectionsAreOneShot(es + more, c);
    }
  }

  lemma RunExtends(es: seq<Event>, front: seq<Event>, e: Event)
    ensures Run(es + front + [e]) == Step(Run(es + front), e)
  {
    assert (es + front + [e])[..|es + front|] == es + front;
  }

  lemma OkCountGrows(s: State, e: Event, c: nat)
    requires c < |s.conns|
    ensures c < |Step(s, e).conns| && Step(s, e).conns[c].okCount >= s.conns[c].okCount
    ensures s.conns[c].reachable != Ok && Step(s, e).conns[c].reachable == Ok
            ==> Step(s, e).conns[c].okCount == s.conns[c].okCount + 1
  {
  }

  /** SetWorkerDown(ip) returns on this event. */
  ghost predicate TakenDown(s: State, e: Event, ip: string) {
    e.Move? && Enabled(s, e) && s.calls[e.call].holder == Some(ip) && e.call !in Next(s, e).calls
  }

  lemma AssertionStays(s: State, e: Event, ip: string)
    ensures TakenDown(s, e, ip) ==> ip in Step(s, e).asserted
    ensures ip in s.asserted && e != Add(ip) ==> ip in Step(s, e).asserted
  {
  }

  lemma {:induction false} StaysAsserted(es: seq<Event>, i: nat, j: nat, ip: string)
    requires i < j <= |es| && TakenDown(Run(es[..i]), es[i], ip)
    requires forall k :: i < k < j ==> es[k] != Add(ip)
    ensures ip in Run(es[..j]).asserted
    decreases j
  {
    assert es[..j][..j - 1] == es[..j - 1];
    AssertionStays(Run(es[..j - 1]), es[j - 1], ip);
    if i < j - 1 {
      StaysAsserted(es, i, j - 1, ip);
    }
  }

  /** Operator down sticks: once SetWorkerDown(ip) has returned, in every
      interleaving of probes, ejections, reconcile completions and recoveries,
      selectWorker returns ip only if AddWorker(ip) was called in between. */
  lemma OperatorDownSticks(es: seq<Event>, i: nat, j: nat, ip: string)
    requires i < j < |es| && TakenDown(Run(es[..i]), es[i], ip)
    requires es[j] == Select(ip) && Enabled(Run(es[..j]), es[j])
    ensures exists k :: i < k < j && es[k] == Add(ip)
  {
    if forall k :: i < k < j ==> es[k] != Add(ip) {
      StaysAsserted(es, i, j, ip);
      EveryRunIsGood(es[..j]);
    }
  }

  /** The same at one moment: a worker an operator holds down is never selectable. */
  lemma AssertedIsNotSelectable(es: seq<Event>, ip: string)
    requires ip in Run(es).asserted
    ensures !Enabled(Run(es), Select(ip))
  {
    EveryRunIsGood(es);
  }
}
