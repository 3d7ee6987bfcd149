/** Generations in the challenge registry. Image tags are content-addressed and
    shared between build rows; every operation that adds or retires tags must leave
    each row's generations pullable. The operations are serialized here, each one
    atomic: the daemon itself asks the registry for a hand-over before it takes the
    update lock, and Destroy does not take that lock at all. What docker, the
    registry and the database answer is an input of each operation. */
module Registry {
  import opened Naming
  import Retention

  const BUILDER := "builder"

  type ChallengeId = s: string | ':' !in s witness ""
  type BuildId = n: nat | 0 < n witness 1

  /** Which docker build produced the image a tag names. */
  type Origin = nat

  /** A build row with its images. `prevHosts` records the hosts the rollback
      generation was built with; the database does not keep them. */
  datatype Row = Row(schema: string, format: string, challenge: ChallengeId, seed: int,
                     checksum: nat, prev: nat, built: bool,
                     hosts: seq<string>, prevHosts: seq<string>)

  datatype State = State(addr: string, rows: map<BuildId, Row>, tags: map<string, Origin>)

  /** What a tag encodes besides the host. */
  datatype Identity = Identity(challenge: ChallengeId, seed: int, sum: nat)

  /** contentChecksum's last step: 0 is reserved for "no generation". */
  function ContentSum(crc: nat): (sum: nat)
    ensures sum != 0
  {
    if crc == 0 then 1 else crc
  }

  function NameOf(addr: string, t: Identity, host: string): string {
    ImageName(addr, t.challenge, t.seed, t.sum, host)
  }

  /** The registry tags of a generation: the builder image is never pushed. */
  function Wanted(addr: string, t: Identity, hosts: seq<string>): set<string> {
    set h | h in hosts && h != BUILDER :: NameOf(addr, t, h)
  }

  function Current(row: Row): Identity { Identity(row.challenge, row.seed, row.checksum) }
  function Rollback(row: Row): Identity { Identity(row.challenge, row.seed, row.prev) }

  /** contentReferenced's key: the checksum as current or as rollback generation. */
  predicate Resolves(row: Row, t: Identity) {
    row.challenge == t.challenge && row.seed == t.seed && (row.checksum == t.sum || row.prev == t.sum)
  }

  /** contentReferenced; a failed query answers true (`blind`). */
  predicate Referenced(rows: map<BuildId, Row>, t: Identity, exclude: nat, blind: bool) {
    blind || exists id :: id in rows && id != exclude && Resolves(rows[id], t)
  }

  /** Best-effort deletes: `leaked` is what the registry did not delete. */
  function Drop(tags: map<string, Origin>, names: set<string>, leaked: set<string>): map<string, Origin> {
    tags - (names - leaked)
  }

  // -------------------------------------------------------------- operations

  /** How executeBuild ended: every stage passed, or it failed having pushed some
      of what the registry lacked (none when it failed before publishing). */
  datatype Reach = Whole | Failed(pushes: nat)

  datatype Delivered = Delivered(id: BuildId, schema: string, format: string, seed: int, crc: nat,
                                 hosts: seq<string>, sameRest: bool, committed: bool)

  datatype Op =
    | Open(id: BuildId, schema: string, format: string, challenge: ChallengeId, seed: int, stamp: nat)
    | Build(id: BuildId, hosts: seq<string>, crc: nat, made: Origin, reach: Reach, committed: bool,
            blind: bool, leaked: set<string>)
    | Rebuild(id: BuildId, hosts: seq<string>, crc: nat, made: Origin, reach: Reach, committed: bool,
              blind: bool, leaked: set<string>)
    | HandOver(challenge: ChallengeId, builds: seq<Delivered>)
    | Prune(target: Identity, hosts: seq<string>, blind: bool, leaked: set<string>)
    | Destroy(id: BuildId, retire: bool, blind: bool, leaked: set<string>)

  /** The image names of the hosts, in order, builder left out. */
  function PushOrder(addr: string, t: Identity, hosts: seq<string>): (names: seq<string>)
    ensures forall n <- names :: n in Wanted(addr, t, hosts)
    ensures forall n <- Wanted(addr, t, hosts) :: n in names
  {
    if hosts == [] then []
    else
      var rest := PushOrder(addr, t, hosts[..|hosts| - 1]);
      var h := hosts[|hosts| - 1];
      assert forall g :: g in hosts <==> g in hosts[..|hosts| - 1] || g == h;
      if h == BUILDER then rest else rest + [NameOf(addr, t, h)]
  }

  /** Of those, in order, the ones the registry did not serve when it was asked. */
  function Lacking(addr: string, t: Identity, hosts: seq<string>, present: set<string>): (r: seq<string>)
    ensures forall n <- r :: n in Wanted(addr, t, hosts) && n !in present
    ensures forall n <- Wanted(addr, t, hosts) :: n !in present ==> n in r
  {
    if hosts == [] then []
    else
      var rest := Lacking(addr, t, hosts[..|hosts| - 1], present);
      var h := hosts[|hosts| - 1];
      assert forall g :: g in hosts <==> g in hosts[..|hosts| - 1] || g == h;
      if h == BUILDER || NameOf(addr, t, h) in present then rest else rest + [NameOf(addr, t, h)]
  }

  function Pushes(s: State, t: Identity, hosts: seq<string>, reach: Reach): set<string> {
    var lacking := Lacking(s.addr, t, hosts, s.tags.Keys);
    var done := if reach.Whole? || |lacking| <= reach.pushes then lacking else lacking[..reach.pushes];
    set n | n in done
  }

  function Publish(tags: map<string, Origin>, names: set<string>, made: Origin): map<string, Origin> {
    tags + map n | n in names :: made
  }

  /** executeBuild on the registry: adopt what it already serves, push the rest,
      and take the pushes back if the build then fails and nothing refers to them. */
  function Execute(s: State, id: BuildId, hosts: seq<string>, sum: nat, made: Origin,
                   reach: Reach, blind: bool, leaked: set<string>): map<string, Origin>
    requires id in s.rows
  {
    var row := s.rows[id];
    var t := Identity(row.challenge, row.seed, sum);
    var pushed := Pushes(s, t, hosts, reach);
    var tags := Publish(s.tags, pushed, made);
    if reach.Failed? && row.prev != sum && !Referenced(s.rows, t, id, blind)
    then Drop(tags, pushed, leaked)
    else tags
  }

  /** storedGeneration, rotatedPrevChecksum and finalizeBuild, as reconcileBuild
      composes them. */
  function Reconciled(row: Row, hosts: seq<string>, sum: nat): Row {
    var stored := if row.built then Retention.Pair(row.checksum, row.prev) else Retention.Pair(0, 0);
    var p := Retention.Commit(stored, sum);
    row.(checksum := p.current, prev := p.previous, built := true, hosts := hosts,
         prevHosts := if sum != stored.current then row.hosts else row.prevHosts)
  }

  predicate SameKey(row: Row, c: ChallengeId, b: Delivered) {
    row.schema == b.schema && row.format == b.format && row.challenge == c && row.seed == b.seed
  }

  /** commitHandedOverBuild. */
  function CommitOne(rows: map<BuildId, Row>, c: ChallengeId, b: Delivered): map<BuildId, Row> {
    var sum := ContentSum(b.crc);
    if (exists id :: id in rows && id != b.id && SameKey(rows[id], c, b)) then rows
    else if b.id in rows && !SameKey(rows[b.id], c, b) then rows
    else
      var row := if b.id in rows then rows[b.id]
                 else Row(b.schema, b.format, c, b.seed, sum, 0, false, [], []);
      if row.built && row.checksum == sum && b.sameRest then rows
      else if b.committed then rows[b.id := Reconciled(row, b.hosts, sum)]
      else if row.built then rows
      else rows - {b.id}
  }

  function CommitAll(rows: map<BuildId, Row>, c: ChallengeId, builds: seq<Delivered>): map<BuildId, Row> {
    if builds == [] then rows
    else CommitOne(CommitAll(rows, c, builds[..|builds| - 1]), c, builds[|builds| - 1])
  }

  /** requireInRegistry. */
  predicate AllServed(s: State, c: ChallengeId, builds: seq<Delivered>) {
    forall i :: 0 <= i < |builds| ==>
      Wanted(s.addr, Identity(c, builds[i].seed, ContentSum(builds[i].crc)), builds[i].hosts) <= s.tags.Keys
  }

  /** destroyImages on the registry, once the row is gone. */
  function Retire(addr: string, tags: map<string, Origin>, rows: map<BuildId, Row>, row: Row,
                  blind: bool, leaked: set<string>): map<string, Origin>
  {
    var tags1 := if Referenced(rows, Current(row), 0, blind) then tags
                 else Drop(tags, Wanted(addr, Current(row), row.hosts), leaked);
    if row.prev == 0 || row.prev == row.checksum || Referenced(rows, Rollback(row), 0, blind) then tags1
    else Drop(tags1, Wanted(addr, Rollback(row), row.hosts), leaked)
  }

  function Step(s: State, op: Op): State {
    match op
    case Open(id, schema, format, c, seed, stamp) =>
      if id in s.rows then s
      else s.(rows := s.rows[id := Row(schema, format, c, seed, stamp, 0, false, [], [])])
    case Build(id, hosts, crc, made, reach, committed, blind, leaked) =>
      if id !in s.rows || s.rows[id].built then s
      else
        var sum, row := ContentSum(crc), s.rows[id];
        var tags := Execute(s, id, hosts, sum, made, reach, blind, leaked);
        var rows :=
          if !committed then s.rows
          else if reach.Whole? then s.rows[id := row.(checksum := sum, built := true, hosts := hosts)]
          else s.rows - {id};
        s.(rows := rows, tags := tags)
    case Rebuild(id, hosts, crc, made, reach, committed, blind, leaked) =>
      if id !in s.rows then s
      else
        var sum := ContentSum(crc);
        var tags := Execute(s, id, hosts, sum, made, reach, blind, leaked);
        var rows := if committed && reach.Whole? then s.rows[id := Reconciled(s.rows[id], hosts, sum)] else s.rows;
        s.(rows := rows, tags := tags)
    case HandOver(c, builds) =>
      if AllServed(s, c, builds) then s.(rows := CommitAll(s.rows, c, builds)) else s
    case Prune(t, hosts, blind, leaked) =>
      if Referenced(s.rows, t, 0, blind) then s
      else s.(tags := Drop(s.tags, Wanted(s.addr, t, hosts), leaked))
    case Destroy(id, retire, blind, leaked) =>
      if id !in s.rows then s
      else
        var rows := s.rows - {id};
        s.(rows := rows,
           tags := if retire then Retire(s.addr, s.tags, rows, s.rows[id], blind, leaked) else s.tags)
  }

  function Run(s: State, ops: seq<Op>): State {
    if ops == [] then s else Step(Run(s, ops[..|ops| - 1]), ops[|ops| - 1])
  }

  // -------------------------------------------------------------- invariant

  /** The tags a row must find in the registry: those of the generation it serves
      and those of the generation it could be rolled back to. Legacy rows that were
      never given a checksum name no tag. */
  function Retained(addr: string, row: Row): set<string> {
    if !row.built then {}
    else (if row.checksum == 0 then {} else Wanted(addr, Current(row), row.hosts))
         + (if row.prev == 0 then {} else Wanted(addr, Rollback(row), row.prevHosts))
  }

  predicate RowOk(addr: string, tags: set<string>, row: Row) {
    && Retained(addr, row) <= tags
    && (if row.built then row.checksum != row.prev || row.checksum == 0 else row.prev == 0)
  }

  /** No row names a tag the registry does not have. */
  ghost predicate NeverDangles(s: State) {
    forall id :: id in s.rows ==> RowOk(s.addr, s.tags.Keys, s.rows[id])
  }

  /** Two identities never share a tag. */
  lemma DistinctIdentities(addr: string, t: Identity, hosts: seq<string>, u: Identity, hosts': seq<string>)
    requires t != u
    ensures Wanted(addr, t, hosts) !! Wanted(addr, u, hosts')
  {
    forall n | n in Wanted(addr, t, hosts) && n in Wanted(addr, u, hosts') ensures false {
      var h :| h in hosts && h != BUILDER && n == NameOf(addr, t, h);
      var g :| g in hosts' && g != BUILDER && n == NameOf(addr, u, g);
      ImageNameInjective(addr, t.challenge, t.seed, t.sum, h, u.challenge, u.seed, u.sum, g);
    }
  }

  lemma UnresolvedIsUntouched(addr: string, row: Row, t: Identity, hosts: seq<string>)
    requires !Resolves(row, t)
    ensures Retained(addr, row) !! Wanted(addr, t, hosts)
  {
    DistinctIdentities(addr, Current(row), row.hosts, t, hosts);
    DistinctIdentities(addr, Rollback(row), row.prevHosts, t, hosts);
  }

  /** Deleting tags of an identity no row resolves to harms no row. */
  lemma DropIsSafe(addr: string, tags: map<string, Origin>, rows: map<BuildId, Row>, t: Identity,
                   hosts: seq<string>, names: set<string>, leaked: set<string>)
    requires forall id :: id in rows ==> RowOk(addr, tags.Keys, rows[id])
    requires forall id :: id in rows ==> !Resolves(rows[id], t)
    requires names <= Wanted(addr, t, hosts)
    ensures forall id :: id in rows ==> RowOk(addr, Drop(tags, names, leaked).Keys, rows[id])
  {
    forall id | id in rows ensures RowOk(addr, Drop(tags, names, leaked).Keys, rows[id]) {
      UnresolvedIsUntouched(addr, rows[id], t, hosts);
    }
  }

  lemma ReconciledOk(addr: string, tags: set<string>, row: Row, hosts: seq<string>, sum: nat)
    requires RowOk(addr, tags, row) && sum != 0
    requires Wanted(addr, Identity(row.challenge, row.seed, sum), hosts) <= tags
    ensures RowOk(addr, tags, Reconciled(row, hosts, sum))
  {
  }

  // ------------------------------------------------------------------ steps

  lemma PushesFacts(s: State, t: Identity, hosts: seq<string>, reach: Reach)
    ensures Pushes(s, t, hosts, reach) <= Wanted(s.addr, t, hosts)
    ensures Pushes(s, t, hosts, reach) !! s.tags.Keys
    ensures reach.Whole? ==> Wanted(s.addr, t, hosts) <= s.tags.Keys + Pushes(s, t, hosts, reach)
  {
  }

  /** Building keeps every row's tags, whether or not it succeeds, and a complete
      build leaves its own generation in the registry. */
  lemma ExecuteKeeps(s: State, id: BuildId, hosts: seq<string>, sum: nat, made: Origin,
                     reach: Reach, blind: bool, leaked: set<string>)
    requires NeverDangles(s) && id in s.rows && sum != 0
    ensures var tags := Execute(s, id, hosts, sum, made, reach, blind, leaked);
            && (forall i :: i in s.rows ==> RowOk(s.addr, tags.Keys, s.rows[i]))
            && (reach.Whole? ==>
                  Wanted(s.addr, Identity(s.rows[id].challenge, s.rows[id].seed, sum), hosts) <= tags.Keys)
  {
    var row := s.rows[id];
    var t := Identity(row.challenge, row.seed, sum);
    var pushed := Pushes(s, t, hosts, reach);
    PushesFacts(s, t, hosts, reach);
    var tags := Publish(s.tags, pushed, made);
    assert tags.Keys == s.tags.Keys + pushed;
    if reach.Failed? && row.prev != sum && !Referenced(s.rows, t, id, blind) {
      forall i | i in s.rows ensures RowOk(s.addr, Drop(tags, pushed, leaked).Keys, s.rows[i]) {
        assert Retained(s.addr, s.rows[i]) <= s.tags.Keys;
      }
    }
  }

  lemma CommitOneKeeps(addr: string, tags: set<string>, rows: map<BuildId, Row>, c: ChallengeId, b: Delivered)
    requires forall id :: id in rows ==> RowOk(addr, tags, rows[id])
    requires Wanted(addr, Identity(c, b.seed, ContentSum(b.crc)), b.hosts) <= tags
    ensures forall id :: id in CommitOne(rows, c, b) ==> RowOk(addr, tags, CommitOne(rows, c, b)[id])
  {
    var sum := ContentSum(b.crc);
    var row := if b.id in rows then rows[b.id]
               else Row(b.schema, b.format, c, b.seed, sum, 0, false, [], []);
    assert RowOk(addr, tags, row);
    if SameKey(row, c, b) {
      ReconciledOk(addr, tags, row, b.hosts, sum);
    }
  }

  lemma {:induction false} CommitAllKeeps(s: State, c: ChallengeId, builds: seq<Delivered>)
    requires NeverDangles(s) && AllServed(s, c, builds)
    ensures NeverDangles(s.(rows := CommitAll(s.rows, c, builds)))
  {
    if builds != [] {
      var front := builds[..|builds| - 1];
      CommitAllKeeps(s, c, front);
      CommitOneKeeps(s.addr, s.tags.Keys, CommitAll(s.rows, c, front), c, builds[|builds| - 1]);
    }
  }

  lemma RetireKeeps(addr: string, tags: map<string, Origin>, rows: map<BuildId, Row>, row: Row,
                    blind: bool, leaked: set<string>)
    requires forall id :: id in rows ==> RowOk(addr, tags.Keys, rows[id])
    ensures forall id :: id in rows ==> RowOk(addr, Retire(addr, tags, rows, row, blind, leaked).Keys, rows[id])
  {
    var tags1 := if Referenced(rows, Current(row), 0, blind) then tags
                 else Drop(tags, Wanted(addr, Current(row), row.hosts), leaked);
    if !Referenced(rows, Current(row), 0, blind) {
      DropIsSafe(addr, tags, rows, Current(row), row.hosts, Wanted(addr, Current(row), row.hosts), leaked);
    }
    if !Referenced(rows, Rollback(row), 0, blind) {
      DropIsSafe(addr, tags1, rows, Rollback(row), row.hosts, Wanted(addr, Rollback(row), row.hosts), leaked);
    }
  }

  lemma StepKeeps(s: State, op: Op)
    requires NeverDangles(s)
    ensures NeverDangles(Step(s, op))
  {
    match op
    case Open(_, _, _, _, _, _) =>
    case Build(id, hosts, crc, made, reach, committed, blind, leaked) =>
      if id in s.rows {
        ExecuteKeeps(s, id, hosts, ContentSum(crc), made, reach, blind, leaked);
      }
    case Rebuild(id, hosts, crc, made, reach, committed, blind, leaked) =>
      if id in s.rows {
        ExecuteKeeps(s, id, hosts, ContentSum(crc), made, reach, blind, leaked);
        if reach.Whole? {
          ReconciledOk(s.addr, Step(s, op).tags.Keys, s.rows[id], hosts, ContentSum(crc));
        }
      }
    case HandOver(c, builds) =>
      if AllServed(s, c, builds) {
        CommitAllKeeps(s, c, builds);
      }
    case Prune(t, hosts, blind, leaked) =>
      if !Referenced(s.rows, t, 0, blind) {
        DropIsSafe(s.addr, s.tags, s.rows, t, hosts, Wanted(s.addr, t, hosts), leaked);
      }
    case Destroy(id, retire, blind, leaked) =>
      if id in s.rows {
        RetireKeeps(s.addr, s.tags, s.rows - {id}, s.rows[id], blind, leaked);
      }
  }

  /** Over every serial run, whatever fails on the way: no row ever names a tag,
      current or rollback, that is missing from the registry. */
  lemma {:induction false} RegistryNeverDangles(s: State, ops: seq<Op>)
    requires NeverDangles(s)
    ensures NeverDangles(Run(s, ops))
  {
    if ops != [] {
      RegistryNeverDangles(s, ops[..|ops| - 1]);
      StepKeeps(Run(s, ops[..|ops| - 1]), ops[|ops| - 1]);
    }
  }

  lemma ExecuteWritesOnce(s: State, id: BuildId, hosts: seq<string>, sum: nat, made: Origin,
                          reach: Reach, blind: bool, leaked: set<string>)
    requires id in s.rows
    ensures var tags := Execute(s, id, hosts, sum, made, reach, blind, leaked);
            forall n :: n in s.tags && n in tags ==> tags[n] == s.tags[n]
  {
    PushesFacts(s, Identity(s.rows[id].challenge, s.rows[id].seed, sum), hosts, reach);
  }

  lemma StepWritesOnce(s: State, op: Op)
    ensures forall n :: n in s.tags && n in Step(s, op).tags ==> Step(s, op).tags[n] == s.tags[n]
  {
    match op
    case Build(id, hosts, crc, made, reach, committed, blind, leaked) =>
      if id in s.rows {
        ExecuteWritesOnce(s, id, hosts, ContentSum(crc), made, reach, blind, leaked);
      }
    case Rebuild(id, hosts, crc, made, reach, committed, blind, leaked) =>
      if id in s.rows {
        ExecuteWritesOnce(s, id, hosts, ContentSum(crc), made, reach, blind, leaked);
      }
    case _ =>
  }

  /** The registry is write-once: as long as a tag stays in the registry, no
      operation of a run replaces the image under it. */
  lemma {:induction false} TagsAreWriteOnce(s: State, ops: seq<Op>, n: string)
    requires n in s.tags && forall k :: 0 <= k <= |ops| ==> n in Run(s, ops[..k]).tags
    ensures n in Run(s, ops).tags && Run(s, ops).tags[n] == s.tags[n]
  {
    assert ops[..|ops|] == ops;
    if ops != [] {
      var front := ops[..|ops| - 1];
      assert forall k :: 0 <= k <= |front| ==> front[..k] == ops[..k];
      TagsAreWriteOnce(s, front, n);
      StepWritesOnce(Run(s, front), ops[|ops| - 1]);
    }
  }

  // ------------------------------------------------- what operations undo or keep

  /** A rebuild that fails leaves every row and every tag as they were. What it had
      pushed is gone again too, unless another row (or this one, as its rollback
      target) names that content, or the registry refused the delete. */
  lemma FailedRebuildRestores(s: State, op: Op)
    requires op.Rebuild? && op.reach.Failed? && op.id in s.rows
    ensures Step(s, op).rows == s.rows
    ensures forall n :: n in s.tags ==> n in Step(s, op).tags && Step(s, op).tags[n] == s.tags[n]
    ensures var row := s.rows[op.id];
            var t := Identity(row.challenge, row.seed, ContentSum(op.crc));
            row.prev != t.sum && !Referenced(s.rows, t, op.id, op.blind)
            ==> Step(s, op).tags.Keys <= s.tags.Keys + op.leaked
  {
    var t := Identity(s.rows[op.id].challenge, s.rows[op.id].seed, ContentSum(op.crc));
    PushesFacts(s, t, op.hosts, op.reach);
  }

  /** The identities whose tags a destroyed row takes with it. */
  ghost predicate Spent(rows: map<BuildId, Row>, row: Row, t: Identity) {
    && (t == Current(row) || (t == Rollback(row) && row.prev != 0))
    && forall id :: id in rows ==> !Resolves(rows[id], t)
  }

  /** A retiring destroy removes exactly the tags, over the row's hosts, of those of
      its generations that no remaining row resolves to. */
  lemma DestroyRetiresExactly(s: State, id: BuildId, n: string)
    requires id in s.rows && n in s.tags
    ensures var row, rows := s.rows[id], s.rows - {id};
            n !in Step(s, Destroy(id, true, false, {})).tags
            <==> exists t :: Spent(rows, row, t) && n in Wanted(s.addr, t, row.hosts)
  {
    var row, rows := s.rows[id], s.rows - {id};
    var cur, prev := Current(row), Rollback(row);
    assert Referenced(rows, cur, 0, false) <==> !Spent(rows, row, cur);
    assert row.prev != 0 ==> (Referenced(rows, prev, 0, false) <==> !Spent(rows, row, prev));
    var gone := n !in Step(s, Destroy(id, true, false, {})).tags;
    if gone {
      var t := if Spent(rows, row, cur) && n in Wanted(s.addr, cur, row.hosts) then cur else prev;
      assert Spent(rows, row, t) && n in Wanted(s.addr, t, row.hosts);
    }
    if t :| Spent(rows, row, t) && n in Wanted(s.addr, t, row.hosts) {
      assert t == cur || t == prev;
      assert gone;
    }
  }

  /** A migration releases a schema's builds without retiring them, so another
      orchestrator on the same registry accepts the hand-over of each of them. */
  lemma ReleasedBuildCanBeHandedOver(s: State, id: BuildId, d: Delivered, blind: bool, leaked: set<string>)
    requires NeverDangles(s) && id in s.rows && s.rows[id].built && s.rows[id].checksum == ContentSum(d.crc)
    requires d.seed == s.rows[id].seed && d.hosts == s.rows[id].hosts
    ensures var s' := Step(s, Destroy(id, false, blind, leaked));
            && s'.tags == s.tags
            && AllServed(s', s.rows[id].challenge, [d])
  {
    assert RowOk(s.addr, s.tags.Keys, s.rows[id]);
  }

  // ---------------------------------------------------- orchestrators sharing a registry

  /** Whether the operation may retire tags of the identity. */
  predicate Retires(s: State, op: Op, t: Identity) {
    match op
    case Prune(u, _, _, _) => t == u
    case Destroy(id, retire, _, _) =>
      retire && id in s.rows && (t == Current(s.rows[id]) || t == Rollback(s.rows[id]))
    case _ => false
  }

  /** Rows of another orchestrator on the same registry survive every operation that
      retires no identity they resolve to. Building, rebuilding and handing over
      never harm them: a failed build deletes only tags that were not there before. */
  lemma OtherOrchestratorKeeps(s: State, op: Op, other: map<BuildId, Row>)
    requires forall id :: id in other ==> RowOk(s.addr, s.tags.Keys, other[id])
    requires forall id, t :: id in other && Retires(s, op, t) ==> !Resolves(other[id], t)
    ensures forall id :: id in other ==> RowOk(s.addr, Step(s, op).tags.Keys, other[id])
  {
    forall id | id in other ensures RowOk(s.addr, Step(s, op).tags.Keys, other[id]) {
      OtherRowKeeps(s, op, other[id]);
    }
  }

  lemma OtherRowKeeps(s: State, op: Op, row: Row)
    requires RowOk(s.addr, s.tags.Keys, row)
    requires forall t :: Retires(s, op, t) ==> !Resolves(row, t)
    ensures RowOk(s.addr, Step(s, op).tags.Keys, row)
  {
    match op
    case Build(id, hosts, crc, _, reach, _, _, _) =>
      if id in s.rows {
        PushesFacts(s, Identity(s.rows[id].challenge, s.rows[id].seed, ContentSum(crc)), hosts, reach);
      }
    case Rebuild(id, hosts, crc, _, reach, _, _, _) =>
      if id in s.rows {
        PushesFacts(s, Identity(s.rows[id].challenge, s.rows[id].seed, ContentSum(crc)), hosts, reach);
      }
    case Prune(t, hosts, _, _) =>
      assert Retires(s, op, t);
      UnresolvedIsUntouched(s.addr, row, t, hosts);
    case Destroy(id, retire, _, _) =>
      if id in s.rows && retire {
        assert Retires(s, op, Current(s.rows[id])) && Retires(s, op, Rollback(s.rows[id]));
        UnresolvedIsUntouched(s.addr, row, Current(s.rows[id]), s.rows[id].hosts);
        UnresolvedIsUntouched(s.addr, row, Rollback(s.rows[id]), s.rows[id].hosts);
      }
    case _ =>
  }

  /** Which is why one content identity must have one orchestrator: of two that serve
      it, the first to destroy its row leaves the other dangling. */
  lemma SharedIdentityDangles(s: State, id: BuildId, row: Row, h: string)
    requires id in s.rows && forall i :: i in s.rows && i != id ==> !Resolves(s.rows[i], Current(row))
    requires row.built && row.checksum != 0 && Current(row) == Current(s.rows[id])
    requires h in row.hosts && h in s.rows[id].hosts && h != BUILDER
    ensures !RowOk(s.addr, Step(s, Destroy(id, true, false, {})).tags.Keys, row)
  {
    var n := NameOf(s.addr, Current(row), h);
    assert n in Wanted(s.addr, Current(row), row.hosts);
    assert n in Wanted(s.addr, Current(row), s.rows[id].hosts);
    assert !Referenced(s.rows - {id}, Current(row), 0, false);
    assert n !in Step(s, Destroy(id, true, false, {})).tags;
  }

  // ------------------------------------------------------ legacy rows at startup

  /** migrateBuildChecksums for one row: each host's image the local daemon still
      holds (`local`) is pushed if the registry lacks it, a host without one is
      skipped, and the row is stamped with its checksum either way. */
  function Migrate(s: State, id: BuildId, crc: nat, local: set<string>, made: Origin): State
    requires id in s.rows
  {
    var row := s.rows[id];
    var sum := ContentSum(crc);
    var t := Identity(row.challenge, row.seed, sum);
    var held := Wanted(s.addr, t, row.hosts) * (set h | h in local :: NameOf(s.addr, t, h));
    s.(rows := s.rows[id := row.(checksum := sum)], tags := Publish(s.tags, held - s.tags.Keys, made))
  }

  /** This is the one path that can leave a row naming a missing tag, and it does so
      exactly when some host's image is neither held locally nor in the registry. */
  lemma MigrationDanglesUnlessHeld(s: State, id: BuildId, crc: nat, local: set<string>, made: Origin)
    requires NeverDangles(s) && id in s.rows && s.rows[id].built
    requires s.rows[id].checksum == 0 && s.rows[id].prev == 0
    ensures var row := s.rows[id];
            var t := Identity(row.challenge, row.seed, ContentSum(crc));
            NeverDangles(Migrate(s, id, crc, local, made))
            <==> forall h :: h in row.hosts && h != BUILDER ==> h in local || NameOf(s.addr, t, h) in s.tags
  {
    var row, s' := s.rows[id], Migrate(s, id, crc, local, made);
    var t := Identity(row.challenge, row.seed, ContentSum(crc));
    var here := set h | h in local :: NameOf(s.addr, t, h);
    var held := Wanted(s.addr, t, row.hosts) * here;
    assert s'.tags.Keys == s.tags.Keys + held;
    assert Retained(s.addr, s'.rows[id]) == Wanted(s.addr, t, row.hosts);
    forall h | h in row.hosts && h != BUILDER
      ensures NameOf(s.addr, t, h) in s'.tags <==> h in local || NameOf(s.addr, t, h) in s.tags
    {
      assert NameOf(s.addr, t, h) in Wanted(s.addr, t, row.hosts);
      if g :| g in local && NameOf(s.addr, t, g) == NameOf(s.addr, t, h) {
        ImageNameInjective(s.addr, t.challenge, t.seed, t.sum, g, t.challenge, t.seed, t.sum, h);
      }
    }
    assert Wanted(s.addr, t, row.hosts) <= s'.tags.Keys
      <==> forall h :: h in row.hosts && h != BUILDER ==> NameOf(s.addr, t, h) in s'.tags;
    assert forall i :: i in s.rows && i != id ==> RowOk(s.addr, s'.tags.Keys, s'.rows[i]);
    if NeverDangles(s') {
      assert RowOk(s.addr, s'.tags.Keys, s'.rows[id]);
    }
  }

  /** For instance: an image pruned out-of-band before the upgrade. */
  lemma MigrationCanDangle()
    ensures exists s: State, id: BuildId ::
              id in s.rows && NeverDangles(s) && !NeverDangles(Migrate(s, id, 7, {}, 0))
  {
    var row := Row("manual-1", "flag{%s}", "web", 1, 0, 0, true, ["challenge"], []);
    var s, id: BuildId := State("reg", map[1 := row], map[]), 1;
    assert NeverDangles(s);
    MigrationDanglesUnlessHeld(s, id, 7, {}, 0);
    assert "challenge" in row.hosts && |"challenge"| != |BUILDER|;
    assert id in s.rows && NeverDangles(s) && !NeverDangles(Migrate(s, id, 7, {}, 0));
  }

  // ----------------------------------------------------------------- the daemon

  ghost function Elements(names: seq<string>): set<string> {
    set n | n in names
  }

  lemma LackingPrefix(addr: string, t: Identity, hosts: seq<string>, present: set<string>, i: nat)
    requires i < |hosts|
    ensures Lacking(addr, t, hosts[..i + 1], present)
         == Lacking(addr, t, hosts[..i], present)
            + (if hosts[i] == BUILDER || NameOf(addr, t, hosts[i]) in present then [] else [NameOf(addr, t, hosts[i])])
  {
    assert hosts[..i + 1][..i] == hosts[..i];
  }

  lemma {:induction false} LackingGrows(addr: string, t: Identity, hosts: seq<string>, present: set<string>, i: nat)
    requires i <= |hosts|
    ensures Lacking(addr, t, hosts[..i], present) <= Lacking(addr, t, hosts, present)
    decreases |hosts| - i
  {
    if i == |hosts| {
      assert hosts[..i] == hosts;
    } else {
      LackingGrows(addr, t, hosts, present, i + 1);
      LackingPrefix(addr, t, hosts, present, i);
    }
  }

  lemma MoreIsLacking(addr: string, t: Identity, hosts: seq<string>, present: set<string>, i: nat)
    requires i < |hosts| && hosts[i] != BUILDER && NameOf(addr, t, hosts[i]) !in present
    ensures var some, all := Lacking(addr, t, hosts[..i], present), Lacking(addr, t, hosts, present);
            |some| < |all| && some == all[..|some|]
  {
    LackingPrefix(addr, t, hosts, present, i);
    LackingGrows(addr, t, hosts, present, i + 1);
    var longer := Lacking(addr, t, hosts[..i + 1], present);
    assert longer[..|longer| - 1] == Lacking(addr, t, hosts[..i], present);
  }

  lemma PublishOne(tags: map<string, Origin>, names: seq<string>, n: string, made: Origin)
    ensures Publish(tags, Elements(names), made)[n := made] == Publish(tags, Elements(names + [n]), made)
  {
    assert Elements(names + [n]) == Elements(names) + {n};
  }

  lemma AllServedPrefix(s: State, c: ChallengeId, builds: seq<Delivered>, i: nat)
    requires i < |builds|
    ensures AllServed(s, c, builds[..i + 1])
       <==> AllServed(s, c, builds[..i])
            && Wanted(s.addr, Identity(c, builds[i].seed, ContentSum(builds[i].crc)), builds[i].hosts) <= s.tags.Keys
  {
    var longer := builds[..i + 1];
    assert longer[i] == builds[i] && forall j :: 0 <= j < i ==> longer[j] == builds[..i][j];
  }

  /** The manager's side of the registry and of the builds table. */
  class Store {
    const addr: string
    var rows: map<BuildId, Row>
    var tags: map<string, Origin>

    constructor (addr: string)
      ensures Now() == State(addr, map[], map[]) && NeverDangles(Now())
    {
      this.addr := addr;
      rows, tags := map[], map[];
    }

    function Now(): State
      reads this
    {
      State(addr, rows, tags)
    }

    /** publishImages: pushes in host order what the registry did not serve when the
        build resolved it, until a push fails. */
    method PublishImages(t: Identity, hosts: seq<string>, present: set<string>, made: Origin, reach: Reach)
      returns (pushed: seq<string>, ok: bool)
      modifies this`tags
      ensures var lacking := Lacking(addr, t, hosts, present);
              && ok == (reach.Whole? || |lacking| <= reach.pushes)
              && pushed == if ok then lacking else lacking[..reach.pushes]
      ensures tags == Publish(old(tags), Elements(pushed), made)
    {
      pushed, ok := [], true;
      ghost var was := tags;
      assert Publish(was, Elements([]), made) == was;
      for i := 0 to |hosts|
        invariant pushed == Lacking(addr, t, hosts[..i], present)
        invariant reach.Failed? ==> |pushed| <= reach.pushes
        invariant tags == Publish(was, Elements(pushed), made)
      {
        LackingPrefix(addr, t, hosts, present, i);
        var n := NameOf(addr, t, hosts[i]);
        if hosts[i] != BUILDER && n !in present {
          if reach.Failed? && |pushed| == reach.pushes {
            MoreIsLacking(addr, t, hosts, present, i);
            return pushed, false;
          }
          PublishOne(was, pushed, n, made);
          tags := tags[n := made];
          pushed := pushed + [n];
        }
      }
      assert hosts[..|hosts|] == hosts;
    }

    /** One best-effort delete per name. */
    method DeleteTags(names: seq<string>, leaked: set<string>)
      modifies this`tags
      ensures tags == Drop(old(tags), Elements(names), leaked)
    {
      for i := 0 to |names|
        invariant tags == Drop(old(tags), Elements(names[..i]), leaked)
      {
        if names[i] !in leaked {
          tags := tags - {names[i]};
        }
        assert Elements(names[..i + 1]) == Elements(names[..i]) + {names[i]};
      }
      assert names[..|names|] == names;
    }

    /** executeBuild: resolve every image against the registry first, build and push
        the rest, and take the pushes back on failure. */
    method ExecuteBuild(id: BuildId, hosts: seq<string>, sum: nat, made: Origin,
                        reach: Reach, blind: bool, leaked: set<string>)
      requires id in rows
      modifies this`tags
      ensures tags == Execute(old(Now()), id, hosts, sum, made, reach, blind, leaked)
    {
      var t := Identity(rows[id].challenge, rows[id].seed, sum);
      var present := tags.Keys;
      var pushed, ok := PublishImages(t, hosts, present, made, reach);
      assert Elements(pushed) == Pushes(old(Now()), t, hosts, reach);
      if reach.Failed? && rows[id].prev != sum && !Referenced(rows, t, id, blind) {
        DeleteTags(pushed, leaked);
      }
    }

    /** rebuildBuilds for one build, with reconcileBuild's commit. */
    method RebuildOne(id: BuildId, hosts: seq<string>, crc: nat, made: Origin, reach: Reach,
                      committed: bool, blind: bool, leaked: set<string>)
      requires NeverDangles(Now())
      modifies this`rows, this`tags
      ensures Now() == Step(old(Now()), Rebuild(id, hosts, crc, made, reach, committed, blind, leaked))
      ensures NeverDangles(Now())
    {
      StepKeeps(Now(), Rebuild(id, hosts, crc, made, reach, committed, blind, leaked));
      if id in rows {
        ExecuteBuild(id, hosts, ContentSum(crc), made, reach, blind, leaked);
        if committed && reach.Whole? {
          rows := rows[id := Reconciled(rows[id], hosts, ContentSum(crc))];
        }
      }
    }

    /** pruneReplacedImages over the generations that left retention. */
    method PruneReplaced(replaced: seq<Op>)
      requires NeverDangles(Now()) && forall i :: 0 <= i < |replaced| ==> replaced[i].Prune?
      modifies this`tags
      ensures Now() == Run(old(Now()), replaced) && NeverDangles(Now())
    {
      for i := 0 to |replaced|
        invariant Now() == Run(old(Now()), replaced[..i]) && NeverDangles(Now())
      {
        var r := replaced[i];
        StepKeeps(Now(), r);
        assert replaced[..i + 1][..i] == replaced[..i];
        if !Referenced(rows, r.target, 0, r.blind) {
          var order := PushOrder(addr, r.target, r.hosts);
          assert Elements(order) == Wanted(addr, r.target, r.hosts);
          DeleteTags(order, r.leaked);
        }
      }
      assert replaced[..|replaced|] == replaced;
    }

    /** destroyImages. */
    method DestroyImages(id: BuildId, retire: bool, blind: bool, leaked: set<string>)
      requires NeverDangles(Now())
      modifies this`rows, this`tags
      ensures Now() == Step(old(Now()), Destroy(id, retire, blind, leaked))
      ensures NeverDangles(Now())
    {
      StepKeeps(Now(), Destroy(id, retire, blind, leaked));
      if id !in rows { return; }
      var row := rows[id];
      rows := rows - {id};
      if !retire { return; }
      if !Referenced(rows, Current(row), 0, blind) {
        var order := PushOrder(addr, Current(row), row.hosts);
        assert Elements(order) == Wanted(addr, Current(row), row.hosts);
        DeleteTags(order, leaked);
      }
      if row.prev != 0 && row.prev != row.checksum && !Referenced(rows, Rollback(row), 0, blind) {
        var order := PushOrder(addr, Rollback(row), row.hosts);
        assert Elements(order) == Wanted(addr, Rollback(row), row.hosts);
        DeleteTags(order, leaked);
      }
    }

    method MissingOf(t: Identity, hosts: seq<string>) returns (missing: seq<string>)
      ensures missing == [] <==> Wanted(addr, t, hosts) <= tags.Keys
      ensures forall n <- missing :: n !in tags
    {
      missing := [];
      for j := 0 to |hosts|
        invariant missing == [] <==> Wanted(addr, t, hosts[..j]) <= tags.Keys
        invariant forall n <- missing :: n !in tags
      {
        var n := NameOf(addr, t, hosts[j]);
        assert Wanted(addr, t, hosts[..j + 1])
            == Wanted(addr, t, hosts[..j]) + if hosts[j] == BUILDER then {} else {n};
        if hosts[j] != BUILDER && n !in tags {
          missing := missing + [n];
        }
      }
      assert hosts[..|hosts|] == hosts;
    }

    /** requireInRegistry: names every image the registry does not serve. */
    method RequireInRegistry(c: ChallengeId, builds: seq<Delivered>) returns (missing: seq<string>)
      ensures missing == [] <==> AllServed(Now(), c, builds)
      ensures forall n <- missing :: n !in tags
    {
      missing := [];
      ghost var s := Now();
      for i := 0 to |builds|
        invariant missing == [] <==> AllServed(s, c, builds[..i])
        invariant forall n <- missing :: n !in s.tags
      {
        AllServedPrefix(s, c, builds, i);
        var more := MissingOf(Identity(c, builds[i].seed, ContentSum(builds[i].crc)), builds[i].hosts);
        missing := missing + more;
      }
      assert builds[..|builds|] == builds;
    }

    /** HandOverChallenge: nothing is written unless every image is in the registry. */
    method TakeHandOver(c: ChallengeId, builds: seq<Delivered>) returns (accepted: bool)
      requires NeverDangles(Now())
      modifies this`rows
      ensures accepted == old(AllServed(Now(), c, builds))
      ensures Now() == Step(old(Now()), HandOver(c, builds)) && NeverDangles(Now())
    {
      StepKeeps(Now(), HandOver(c, builds));
      var missing := RequireInRegistry(c, builds);
      if missing != [] { return false; }
      for i := 0 to |builds|
        invariant rows == CommitAll(old(rows), c, builds[..i])
      {
        assert builds[..i + 1][..i] == builds[..i];
        rows := CommitOne(rows, c, builds[i]);
      }
      assert builds[..|builds|] == builds;
      return true;
    }
  }
}
