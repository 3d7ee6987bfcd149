/** Orphan removal on a worker, concurrent with launches, stops and purges. A pass
    lists what the daemon holds, then reads the instance rows, then removes what
    belongs to no row, one object at a time and at any later moment. */
module Orphans {
  import opened Naming

  /** A listed container: its docker id and its networks in iteration order. */
  datatype Container = Container(cid: nat, networks: seq<string>)

  /** containerInstance. */
  function ContainerInstance(networks: seq<string>): Option<nat> {
    if networks == [] then None
    else if NetworkInstance(networks[0]).Some? then NetworkInstance(networks[0])
    else ContainerInstance(networks[1..])
  }

  predicate Orphan(who: Option<nat>, live: set<nat>) {
    who.Some? && who.value !in live
  }

  function OrphanContainers(cs: seq<Container>, live: set<nat>): (r: seq<Container>)
    ensures forall c :: c in r <==> c in cs && Orphan(ContainerInstance(c.networks), live)
  {
    if cs == [] then []
    else
      var last := cs[|cs| - 1];
      assert cs == cs[..|cs| - 1] + [last];
      OrphanContainers(cs[..|cs| - 1], live)
      + if Orphan(ContainerInstance(last.networks), live) then [last] else []
  }

  function OrphanNetworks(ns: seq<string>, live: set<nat>): (r: seq<string>)
    ensures forall n :: n in r <==> n in ns && Orphan(NetworkInstance(n), live)
  {
    if ns == [] then []
    else
      var last := ns[|ns| - 1];
      assert ns == ns[..|ns| - 1] + [last];
      OrphanNetworks(ns[..|ns| - 1], live) + if Orphan(NetworkInstance(last), live) then [last] else []
  }

  /** findOrphans. */
  method FindOrphans(cs: seq<Container>, ns: seq<string>, live: set<nat>)
    returns (containers: seq<Container>, networks: seq<string>)
    ensures containers == OrphanContainers(cs, live)
    ensures networks == OrphanNetworks(ns, live)
  {
    containers, networks := [], [];
    for i := 0 to |cs|
      invariant containers == OrphanContainers(cs[..i], live)
    {
      assert cs[..i + 1][..i] == cs[..i];
      if Orphan(ContainerInstance(cs[i].networks), live) {
        containers := containers + [cs[i]];
      }
    }
    assert cs[..|cs|] == cs;
    for i := 0 to |ns|
      invariant networks == OrphanNetworks(ns[..i], live)
    {
      assert ns[..i + 1][..i] == ns[..i];
      if Orphan(NetworkInstance(ns[i]), live) {
        networks := networks + [ns[i]];
      }
    }
    assert ns[..|ns|] == ns;
  }

  // ------------------------------------------------------------------- protocol

  datatype Pass =
    | Started(worker: string)
    | ListedContainers(worker: string, cs: seq<Container>)
    | Listed(worker: string, cs: seq<Container>, ns: seq<string>)
    | Removing(worker: string, cs: seq<Container>, ns: seq<string>)

  datatype Held = Held(worker: string, networks: seq<string>)

  /** `born[i]` is the worker of the instance whose id is i + 1: the table is
      AUTOINCREMENT, so ids are handed out once, in order. */
  datatype State = State(born: seq<string>, rows: set<nat>,
                         networks: set<(string, string)>, containers: map<nat, Held>, nextCid: nat,
                         passes: map<nat, Pass>)

  datatype Event =
    | OpenInstance(worker: string)                  // newInstance inserts its row first
    | CreateNetwork(id: nat)                        // by whichever launch holds the id
    | CreateContainer(id: nat)
    | Unrecord(ids: set<nat>)                       // stops, purges, prunes, collected crashes
    | Lose(cids: set<nat>, names: set<(string, string)>) // teardowns and reapers
    | Start(pass: nat, worker: string)
    | ListContainers(pass: nat, cs: seq<Container>)
    | ListNetworks(pass: nat, ns: seq<string>)
    | ReadRows(pass: nat)
    | RemoveContainer(pass: nat, c: Container)
    | RemoveNetwork(pass: nat, name: string)

  predicate Handed(s: State, id: nat, worker: string) {
    1 <= id <= |s.born| && s.born[id - 1] == worker
  }

  function LiveOn(s: State, worker: string): set<nat> {
    set id | id in s.rows && Handed(s, id, worker)
  }

  predicate Enabled(s: State, e: Event) {
    match e
    case OpenInstance(_) => |s.born| < INT64_MAX
    case CreateNetwork(id) => 1 <= id <= |s.born|
    case CreateContainer(id) => 1 <= id <= |s.born|
    case Unrecord(_) => true
    case Lose(_, _) => true
    case Start(p, _) => p !in s.passes
    case ListContainers(p, cs) =>
      p in s.passes && s.passes[p].Started?
      && forall c :: c in cs ==> c.cid in s.containers && s.containers[c.cid] == Held(s.passes[p].worker, c.networks)
    case ListNetworks(p, ns) =>
      p in s.passes && s.passes[p].ListedContainers?
      && forall n :: n in ns ==> (s.passes[p].worker, n) in s.networks
    case ReadRows(p) => p in s.passes && s.passes[p].Listed?
    case RemoveContainer(p, c) => p in s.passes && s.passes[p].Removing? && c in s.passes[p].cs
    case RemoveNetwork(p, n) => p in s.passes && s.passes[p].Removing? && n in s.passes[p].ns
  }

  function Next(s: State, e: Event): State
    requires Enabled(s, e)
  {
    match e
    case OpenInstance(w) => s.(born := s.born + [w], rows := s.rows + {|s.born| + 1})
    case CreateNetwork(id) => s.(networks := s.networks + {(s.born[id - 1], NetworkName(id))})
    case CreateContainer(id) =>
      s.(containers := s.containers[s.nextCid := Held(s.born[id - 1], [NetworkName(id)])], nextCid := s.nextCid + 1)
    case Unrecord(ids) => s.(rows := s.rows - ids)
    case Lose(cids, names) => s.(containers := s.containers - cids, networks := s.networks - names)
    case Start(p, w) => s.(passes := s.passes[p := Started(w)])
    case ListContainers(p, cs) => s.(passes := s.passes[p := ListedContainers(s.passes[p].worker, cs)])
    case ListNetworks(p, ns) => s.(passes := s.passes[p := Listed(s.passes[p].worker, s.passes[p].cs, ns)])
    case ReadRows(p) =>
      var pass := s.passes[p];
      var live := LiveOn(s, pass.worker);
      s.(passes := s.passes[p := Removing(pass.worker, OrphanContainers(pass.cs, live), OrphanNetworks(pass.ns, live))])
    case RemoveContainer(p, c) => s.(containers := s.containers - {c.cid})
    case RemoveNetwork(p, n) => s.(networks := s.networks - {(s.passes[p].worker, n)})
  }

  /** Events that cannot happen are skipped, so every sequence of events is a run. */
  function Step(s: State, e: Event): State {
    if Enabled(s, e) then Next(s, e) else s
  }

  function Run(s: State, es: seq<Event>): State {
    if es == [] then s else Step(Run(s, es[..|es| - 1]), es[|es| - 1])
  }

  // ------------------------------------------------------------------ invariant

  /** What is attributed to an instance, on this worker, bears an id already handed out,
      and one handed out elsewhere has no row. */
  predicate Attributed(s: State, who: Option<nat>, worker: string) {
    who.Some? ==> who.value <= |s.born| && (who.value in s.rows ==> Handed(s, who.value, worker))
  }

  /** The id has no row and, ids being handed out once, will never have one again. */
  predicate Spent(s: State, who: Option<nat>) {
    who.Some? && who.value <= |s.born| && who.value !in s.rows
  }

  /** A listed container that still exists is the one that was listed. */
  predicate SameContainer(s: State, c: Container, worker: string) {
    c.cid < s.nextCid && (c.cid in s.containers ==> s.containers[c.cid] == Held(worker, c.networks))
  }

  ghost predicate PassOk(s: State, pass: Pass) {
    match pass
    case Started(_) => true
    case ListedContainers(w, cs) =>
      forall c :: c in cs ==> SameContainer(s, c, w) && Attributed(s, ContainerInstance(c.networks), w)
    case Listed(w, cs, ns) =>
      && (forall c :: c in cs ==> SameContainer(s, c, w) && Attributed(s, ContainerInstance(c.networks), w))
      && (forall n :: n in ns ==> Attributed(s, NetworkInstance(n), w))
    case Removing(w, cs, ns) =>
      && (forall c :: c in cs ==> SameContainer(s, c, w) && Spent(s, ContainerInstance(c.networks)))
      && (forall n :: n in ns ==> Spent(s, NetworkInstance(n)))
  }

  /** What the tables always satisfy. */
  ghost predicate Sound(s: State) {
    && |s.born| <= INT64_MAX
    && (forall id :: id in s.rows ==> 1 <= id <= |s.born|)
    && (forall cid :: cid in s.containers ==> cid < s.nextCid)
  }

  /** The daemons hold no object named for an id this database has yet to hand out, nor
      for a recorded instance of another worker. */
  ghost predicate Accounted(s: State) {
    && (forall o :: o in s.networks ==> Attributed(s, NetworkInstance(o.1), o.0))
    && (forall cid :: cid in s.containers ==>
          Attributed(s, ContainerInstance(s.containers[cid].networks), s.containers[cid].worker))
  }

  ghost predicate DaemonOk(s: State) {
    Sound(s) && Accounted(s)
  }

  ghost predicate Ok(s: State) {
    DaemonOk(s) && forall p :: p in s.passes ==> PassOk(s, s.passes[p])
  }

  lemma OwnNetwork(s: State, id: nat)
    requires |s.born| <= INT64_MAX && 1 <= id <= |s.born|
    ensures NetworkInstance(NetworkName(id)) == Some(id)
    ensures ContainerInstance([NetworkName(id)]) == Some(id)
  {
    NetworkRoundTrip(id);
  }

  lemma OpenKeepsDaemon(s: State, w: string)
    requires DaemonOk(s) && Enabled(s, OpenInstance(w))
    ensures DaemonOk(Next(s, OpenInstance(w)))
  {
    var s' := Next(s, OpenInstance(w));
    forall w', who: Option<nat> | Attributed(s, who, w') ensures Attributed(s', who, w') { }
  }

  lemma CreateKeepsDaemon(s: State, e: Event)
    requires DaemonOk(s) && Enabled(s, e) && (e.CreateNetwork? || e.CreateContainer?)
    ensures DaemonOk(Next(s, e))
  {
    OwnNetwork(s, e.id);
    var s' := Next(s, e);
    forall w, who: Option<nat> | Attributed(s, who, w) ensures Attributed(s', who, w) { }
    assert Attributed(s', Some(e.id), s.born[e.id - 1]);
  }

  /** Removing rows and objects, and a pass moving on, add nothing to attribute. */
  lemma FewerKeepDaemon(s: State, s': State)
    requires DaemonOk(s) && s'.born == s.born && s'.nextCid == s.nextCid
    requires s'.rows <= s.rows && s'.networks <= s.networks
    requires forall cid :: cid in s'.containers ==> cid in s.containers && s'.containers[cid] == s.containers[cid]
    ensures DaemonOk(s')
  {
    forall w, who: Option<nat> | Attributed(s, who, w) ensures Attributed(s', who, w) { }
  }

  lemma StepKeepsDaemon(s: State, e: Event)
    requires DaemonOk(s) && Enabled(s, e)
    ensures DaemonOk(Next(s, e))
  {
    if e.OpenInstance? {
      OpenKeepsDaemon(s, e.worker);
    } else if e.CreateNetwork? || e.CreateContainer? {
      CreateKeepsDaemon(s, e);
    } else {
      FewerKeepDaemon(s, Next(s, e));
    }
  }

  /** What a pass knows stays true: ids only grow, rows of old ids only disappear. */
  lemma PassStaysOk(s: State, e: Event, pass: Pass)
    requires DaemonOk(s) && Enabled(s, e) && PassOk(s, pass)
    ensures PassOk(Next(s, e), pass)
  {
    var s' := Next(s, e);
    forall w, who: Option<nat> | Attributed(s, who, w) ensures Attributed(s', who, w) { }
    forall who: Option<nat> | Spent(s, who) ensures Spent(s', who) { }
    forall w, c: Container | SameContainer(s, c, w) ensures SameContainer(s', c, w) { }
  }

  lemma PassAdvances(s: State, e: Event, p: nat)
    requires Ok(s) && Enabled(s, e) && p in Next(s, e).passes
    requires (e.Start? || e.ListContainers? || e.ListNetworks? || e.ReadRows?) && e.pass == p
    ensures PassOk(s, Next(s, e).passes[p])
  {
    if e.ReadRows? {
      ReadFindsSpent(s, p);
    }
  }

  /** The heart of it: what was listed before the rows were read and is not live now bears
      an id handed out earlier that has no row, so it can never get one. */
  lemma ReadFindsSpent(s: State, p: nat)
    requires Ok(s) && Enabled(s, ReadRows(p))
    ensures PassOk(s, Next(s, ReadRows(p)).passes[p])
  {
    var pass := s.passes[p];
    assert PassOk(s, pass);
    var live := LiveOn(s, pass.worker);
    forall who: Option<nat> | Attributed(s, who, pass.worker) && Orphan(who, live) ensures Spent(s, who) { }
  }

  lemma StepKeepsOk(s: State, e: Event)
    requires Ok(s)
    ensures Ok(Step(s, e))
  {
    if Enabled(s, e) {
      StepKeepsDaemon(s, e);
      var s' := Next(s, e);
      forall p | p in s'.passes ensures PassOk(s', s'.passes[p]) {
        if p in s.passes && s'.passes[p] == s.passes[p] {
          PassStaysOk(s, e, s.passes[p]);
        } else {
          PassAdvances(s, e, p);
          assert s' == s.(passes := s'.passes);
        }
      }
    }
  }

  lemma {:induction false} EveryRunIsOk(s: State, es: seq<Event>)
    requires Ok(s)
    ensures Ok(Run(s, es))
  {
    if es != [] {
      EveryRunIsOk(s, es[..|es| - 1]);
      StepKeepsOk(Run(s, es[..|es| - 1]), es[|es| - 1]);
    }
  }

  // ---------------------------------------------------------------------- safety

  lemma {:induction false} SpentForever(s: State, es: seq<Event>, who: Option<nat>)
    requires Ok(s) && Spent(s, who)
    ensures Spent(Run(s, es), who)
  {
    if es != [] {
      SpentForever(s, es[..|es| - 1], who);
      EveryRunIsOk(s, es[..|es| - 1]);
    }
  }

  lemma {:induction false} RunSplits(s: State, es: seq<Event>, more: seq<Event>)
    ensures Run(s, es + more) == Run(Run(s, es), more)
  {
    if more == [] {
      assert es + more == es;
    } else {
      assert (es + more)[..|es + more| - 1] == es + more[..|more| - 1];
      RunSplits(s, es, more[..|more| - 1]);
    }
  }

  /** Whatever a pass has left to remove, from the moment it read the rows on, belongs
      to an instance that has no row then and gets none in any continuation; and a
      container it removes is the very one it listed. */
  lemma OrphanRemovalIsSafe(s: State, es: seq<Event>, more: seq<Event>, p: nat)
    requires Ok(s) && p in Run(s, es).passes && Run(s, es).passes[p].Removing?
    ensures var pass, later := Run(s, es).passes[p], Run(s, es + more);
            && (forall n :: n in pass.ns ==> NetworkInstance(n).Some? && NetworkInstance(n).value !in later.rows)
            && (forall c :: c in pass.cs ==>
                  && ContainerInstance(c.networks).Some? && ContainerInstance(c.networks).value !in later.rows
                  && (c.cid in later.containers ==> later.containers[c.cid] == Held(pass.worker, c.networks)))
  {
    EveryRunIsOk(s, es);
    var now := Run(s, es);
    var pass := now.passes[p];
    assert PassOk(now, pass);
    RunSplits(s, es, more);
    forall n | n in pass.ns ensures NetworkInstance(n).Some? && NetworkInstance(n).value !in Run(now, more).rows {
      SpentForever(now, more, NetworkInstance(n));
    }
    forall c | c in pass.cs
      ensures ContainerInstance(c.networks).Some? && ContainerInstance(c.networks).value !in Run(now, more).rows
      ensures SameContainer(Run(now, more), c, pass.worker)
    {
      SpentForever(now, more, ContainerInstance(c.networks));
      SameForever(now, more, c, pass.worker);
    }
  }

  lemma {:induction false} SameForever(s: State, es: seq<Event>, c: Container, w: string)
    requires SameContainer(s, c, w)
    ensures SameContainer(Run(s, es), c, w)
  {
    if es != [] {
      SameForever(s, es[..|es| - 1], c, w);
    }
  }

  /** The instance a removal is about. */
  function Target(e: Event): Option<nat> {
    match e
    case RemoveNetwork(_, name) => NetworkInstance(name)
    case RemoveContainer(_, c) => ContainerInstance(c.networks)
    case _ => None
  }

  /** A removal of an object attributed to an instance that has a row. */
  ghost predicate HitsRow(s: State, e: Event) {
    Enabled(s, e) && Target(e).Some? && Target(e).value in s.rows
  }

  /** ... and the object is still there, so that it is gone afterwards. */
  ghost predicate TakesObject(s: State, e: Event) {
    && HitsRow(s, e)
    && if e.RemoveNetwork? then (s.passes[e.pass].worker, e.name) in s.networks else e.c.cid in s.containers
  }

  /** In particular no removal ever hits a recorded instance. */
  lemma RemovalHitsNoRow(s: State, es: seq<Event>, e: Event)
    requires Ok(s)
    ensures !HitsRow(Run(s, es), e)
  {
    if Enabled(Run(s, es), e) && (e.RemoveNetwork? || e.RemoveContainer?) {
      OrphanRemovalIsSafe(s, es, [], e.pass);
      assert es + [] == es;
    }
  }

  // ------------------------------------------------------ what it rests on, exactly

  function Opens(w: string, n: nat): seq<Event> {
    if n == 0 then [] else Opens(w, n - 1) + [OpenInstance(w)]
  }

  /** Launches alone hand out the next ids, and leave everything else as it is. */
  lemma {:induction false} OpensHandOut(s: State, w: string, n: nat)
    requires |s.born| + n <= INT64_MAX
    ensures var s' := Run(s, Opens(w, n));
            && |s'.born| == |s.born| + n && s'.passes == s.passes
            && s'.networks == s.networks && s'.containers == s.containers
            && s.rows <= s'.rows && (n > 0 ==> |s.born| + n in s'.rows)
  {
    if n > 0 {
      OpensHandOut(s, w, n - 1);
      assert Opens(w, n)[..|Opens(w, n)| - 1] == Opens(w, n - 1);
    }
  }

  /** A pass that lists these objects and reads the rows. */
  function OnePass(w: string, cs: seq<Container>, ns: seq<string>): seq<Event> {
    [Start(0, w), ListContainers(0, cs), ListNetworks(0, ns), ReadRows(0)]
  }

  function AfterPass(s: State, w: string, cs: seq<Container>, ns: seq<string>): State {
    var live := LiveOn(s, w);
    s.(passes := s.passes[0 := Removing(w, OrphanContainers(cs, live), OrphanNetworks(ns, live))])
  }

  lemma OnePassRuns(s: State, w: string, cs: seq<Container>, ns: seq<string>)
    requires s.passes == map[] && (forall n :: n in ns ==> (w, n) in s.networks)
    requires forall c :: c in cs ==> c.cid in s.containers && s.containers[c.cid] == Held(w, c.networks)
    ensures Run(s, OnePass(w, cs, ns)) == AfterPass(s, w, cs, ns)
  {
    var es := OnePass(w, cs, ns);
    var s1 := s.(passes := map[0 := Started(w)]);
    var s2 := s.(passes := map[0 := ListedContainers(w, cs)]);
    var s3 := s.(passes := map[0 := Listed(w, cs, ns)]);
    assert Step(s, es[0]) == s1;
    assert Step(s1, es[1]) == s2;
    assert Step(s2, es[2]) == s3;
    assert LiveOn(s3, w) == LiveOn(s, w);
    assert Step(s3, es[3]) == AfterPass(s, w, cs, ns);
    assert es[..3][..2] == es[..2] && es[..2][..1] == es[..1] && es[..1][..0] == [];
    assert Run(s, es[..1]) == s1;
    assert Run(s, es[..2]) == s2;
    assert Run(s, es[..3]) == s3;
  }

  /** Launches until the id has a row, which takes none if it has one already. */
  function Until(s: State, w: string, id: nat): seq<Event> {
    if id <= |s.born| then [] else Opens(w, id - |s.born|)
  }

  lemma UntilRecorded(s: State, w: string, id: nat)
    requires Sound(s) && id <= INT64_MAX && (id <= |s.born| ==> id in s.rows)
    ensures var s' := Run(s, Until(s, w, id));
            id in s'.rows && s'.passes == s.passes && s'.networks == s.networks && s'.containers == s.containers
  {
    if id > |s.born| {
      OpensHandOut(s, w, id - |s.born|);
    }
  }

  /** From an object that is not accounted for there is a run in which a pass removes it
      although its instance has a row. */
  lemma UnaccountedNetwork(s: State, w: string, name: string)
    requires Sound(s) && s.passes == map[] && (w, name) in s.networks && !Attributed(s, NetworkInstance(name), w)
    ensures exists es: seq<Event>, e: Event :: TakesObject(Run(s, es), e)
  {
    var id, after := NetworkInstance(name).value, AfterPass(s, w, [], [name]);
    OnePassRuns(s, w, [], [name]);
    UntilRecorded(after, w, id);
    RunSplits(s, OnePass(w, [], [name]), Until(after, w, id));
    assert name in after.passes[0].ns;
    assert TakesObject(Run(s, OnePass(w, [], [name]) + Until(after, w, id)), RemoveNetwork(0, name));
  }

  lemma ContainerInstanceFits(networks: seq<string>)
    ensures ContainerInstance(networks).Some? ==> ContainerInstance(networks).value <= INT64_MAX
  {
  }

  lemma UnaccountedContainer(s: State, cid: nat)
    requires Sound(s) && s.passes == map[] && cid in s.containers
    requires !Attributed(s, ContainerInstance(s.containers[cid].networks), s.containers[cid].worker)
    ensures exists es: seq<Event>, e: Event :: TakesObject(Run(s, es), e)
  {
    var c, w := Container(cid, s.containers[cid].networks), s.containers[cid].worker;
    ContainerInstanceFits(c.networks);
    var id, after := ContainerInstance(c.networks).value, AfterPass(s, w, [c], []);
    OnePassRuns(s, w, [c], []);
    UntilRecorded(after, w, id);
    RunSplits(s, OnePass(w, [c], []), Until(after, w, id));
    assert c in after.passes[0].cs;
    assert TakesObject(Run(s, OnePass(w, [c], []) + Until(after, w, id)), RemoveContainer(0, c));
  }

  /** Passes are safe in every run exactly when no daemon holds an object named for an id
      still to come, or for a recorded instance of another worker: otherwise some run
      takes an object of a recorded instance away. Ids never being reused is what keeps
      the first kind away. */
  lemma SafeExactlyWhenAccounted(s: State)
    requires Sound(s) && s.passes == map[]
    ensures (forall es: seq<Event>, e: Event :: !HitsRow(Run(s, es), e)) <==> Accounted(s)
    ensures (forall es: seq<Event>, e: Event :: !TakesObject(Run(s, es), e)) <==> Accounted(s)
  {
    if Accounted(s) {
      forall es: seq<Event>, e: Event ensures !HitsRow(Run(s, es), e) {
        RemovalHitsNoRow(s, es, e);
      }
    } else {
      UnaccountedIsTaken(s);
      var es: seq<Event>, e: Event :| TakesObject(Run(s, es), e);
      assert HitsRow(Run(s, es), e);
    }
  }

  lemma UnaccountedIsTaken(s: State)
    requires Sound(s) && s.passes == map[] && !Accounted(s)
    ensures exists es: seq<Event>, e: Event :: TakesObject(Run(s, es), e)
  {
    if o :| o in s.networks && !Attributed(s, NetworkInstance(o.1), o.0) {
      UnaccountedNetwork(s, o.0, o.1);
    } else {
      var cid :| cid in s.containers
        && !Attributed(s, ContainerInstance(s.containers[cid].networks), s.containers[cid].worker);
      UnaccountedContainer(s, cid);
    }
  }

  /** For instance: a database that starts counting again beside a daemon that still
      holds the network of its first instance. */
  lemma ReusedIdsWouldBeUnsafe()
    ensures var s := State([], {}, {("w", NetworkName(1))}, map[], 0, map[]);
            Sound(s) && exists es: seq<Event>, e: Event :: TakesObject(Run(s, es), e)
  {
    NetworkRoundTrip(1);
    var s := State([], {}, {("w", NetworkName(1))}, map[], 0, map[]);
    UnaccountedNetwork(s, "w", NetworkName(1));
  }
}
