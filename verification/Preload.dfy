/** Preloading: what a worker is to hold, the pass that pulls what it lacks and removes
    what the preloaded schemas have superseded, and what an update stops covering. */
module Preload {
  import opened Naming

  // ------------------------------------------------------------------------ sets

  type Host = h: string | TagShaped(h)

  /** One row of the query behind preloadSets: a built, non-builder image. */
  datatype Row = Row(schema: string, challenge: string, seed: int, checksum: nat, host: Host, service: bool)

  datatype Sets = Sets(wanted: set<string>, named: set<string>, repos: set<string>)

  function NameOf(registry: string, r: Row): string {
    ImageName(registry, r.challenge, r.seed, r.checksum, r.host)
  }

  predicate Wants(preloads: set<string>, r: Row) {
    r.schema in preloads && r.service
  }

  /** preloadSets: nothing while nothing is preloaded; else the images of every row are
      named, and those of the service rows of preloaded schemas wanted. */
  function SetsOf(registry: string, preloads: set<string>, rows: seq<Row>): Sets {
    if preloads == {} then Sets({}, {}, {})
    else Sets(set r | r in rows && Wants(preloads, r) :: NameOf(registry, r),
              set r | r in rows :: NameOf(registry, r),
              set r | r in rows && Wants(preloads, r) :: Repository(registry, r.challenge))
  }

  method PreloadSets(registry: string, preloads: set<string>, rows: seq<Row>) returns (sets: Sets)
    ensures sets == SetsOf(registry, preloads, rows)
  {
    sets := Sets({}, {}, {});
    if preloads == {} {
      return;
    }
    for i := 0 to |rows|
      invariant sets == SetsOf(registry, preloads, rows[..i])
    {
      var r := rows[i];
      SetsGrow(registry, preloads, rows, i);
      sets := sets.(named := sets.named + {NameOf(registry, r)});
      if Wants(preloads, r) {
        sets := sets.(wanted := sets.wanted + {NameOf(registry, r)},
                      repos := sets.repos + {Repository(registry, r.challenge)});
      }
    }
    assert rows[..|rows|] == rows;
  }

  lemma SetsGrow(registry: string, preloads: set<string>, rows: seq<Row>, i: nat)
    requires preloads != {} && i < |rows|
    ensures var before, now := SetsOf(registry, preloads, rows[..i]), SetsOf(registry, preloads, rows[..i + 1]);
            var r := rows[i];
            && now.named == before.named + {NameOf(registry, r)}
            && now.wanted == (if Wants(preloads, r) then before.wanted + {NameOf(registry, r)} else before.wanted)
            && now.repos == before.repos + (if Wants(preloads, r) then {Repository(registry, r.challenge)} else {})
  {
    assert rows[..i + 1] == rows[..i] + [rows[i]];
    assert forall r :: r in rows[..i + 1] <==> r in rows[..i] || r == rows[i];
  }

  /** What is wanted is named by a build and lies in a preloaded repository; nothing a
      build names is stale. */
  ghost predicate WellFormed(sets: Sets) {
    && sets.wanted <= sets.named
    && (forall n :: n in sets.wanted ==> ImageRepo(n) in sets.repos)
    && (forall n :: n in sets.named ==> !IsStale(n))
  }

  lemma SetsAreWellFormed(registry: string, preloads: set<string>, rows: seq<Row>)
    ensures WellFormed(SetsOf(registry, preloads, rows))
  {
    var sets := SetsOf(registry, preloads, rows);
    forall r | r in rows
      ensures ImageRepo(NameOf(registry, r)) == Repository(registry, r.challenge) && !IsStale(NameOf(registry, r))
    {
      BuildNamesAreNotStale(registry, r.challenge, r.seed, r.checksum, r.host);
    }
    forall n | n in sets.wanted ensures ImageRepo(n) in sets.repos && n in sets.named {
      var r :| r in rows && Wants(preloads, r) && n == NameOf(registry, r);
    }
    forall n | n in sets.named ensures !IsStale(n) {
      var r :| r in rows && n == NameOf(registry, r);
    }
  }

  /** missing. */
  function Missing(wanted: set<string>, have: set<string>): set<string> {
    wanted - have
  }

  /** A wanted image of the repository was neither held nor tried. */
  ghost predicate Waits(sets: Sets, held: set<string>, tried: set<string>, repo: string) {
    exists n :: n in sets.wanted && n !in held && n !in tried && ImageRepo(n) == repo
  }

  predicate Unnamed(sets: Sets, tag: string) {
    tag !in sets.named && ImageRepo(tag) in sets.repos
  }

  /** superseded. */
  ghost function Superseded(sets: Sets, held: set<string>, tried: set<string>): set<string> {
    set t | t in held && Unnamed(sets, t) && !Waits(sets, held, tried, ImageRepo(t))
  }

  method ListSuperseded(sets: Sets, held: set<string>, tried: set<string>) returns (tags: set<string>)
    ensures tags == Superseded(sets, held, tried)
  {
    var waiting, names := {}, sets.wanted;
    while names != {}
      invariant names <= sets.wanted
      invariant forall r :: r in waiting <==>
                  exists n :: n in sets.wanted - names && n !in held && n !in tried && ImageRepo(n) == r
      decreases names
    {
      var n :| n in names;
      if n !in held && n !in tried {
        waiting := waiting + {ImageRepo(n)};
      }
      names := names - {n};
    }
    forall r ensures r in waiting <==> Waits(sets, held, tried, r) {
      assert sets.wanted - {} == sets.wanted;
    }
    tags := set t | t in held && Unnamed(sets, t) && ImageRepo(t) !in waiting;
  }

  // --------------------------------------------------------------- released images

  /** Preloading would remove the image from some worker in some later pass. */
  ghost predicate Removable(sets: Sets, name: string) {
    exists held: set<string>, tried: set<string> :: name in Superseded(sets, held, tried)
  }

  /** releasedImages. */
  function ReleasedImages(before: Sets, after: Sets): set<string> {
    set n | n in before.wanted && !(n in after.wanted || Unnamed(after, n))
  }

  /** It lists exactly the formerly wanted images that are neither wanted nor ever
      removed afterwards. */
  lemma ReleasedIsNeitherWantedNorRemovable(before: Sets, after: Sets)
    ensures forall n :: n in ReleasedImages(before, after) <==>
              n in before.wanted && n !in after.wanted && !Removable(after, n)
  {
    forall n ensures Unnamed(after, n) <==> Removable(after, n) {
      if Unnamed(after, n) {
        assert !Waits(after, {n} + after.wanted, {}, ImageRepo(n));
        assert n in Superseded(after, {n} + after.wanted, {});
      }
    }
  }

  // ------------------------------------------------------------------------ daemon

  /** A worker's image store: which image every tag points at. */
  type Tags = map<string, nat>

  /** No other tag points at the same image. */
  predicate Sole(tags: Tags, t: string)
    requires t in tags
  {
    forall u :: u in tags && tags[u] == tags[t] ==> u == t
  }

  /** How a call to the daemon ends: answered, or broken off with the work done or not. */
  datatype Reply = Answered | Broken(done: bool) | TimedOut(done: bool)

  datatype Verdict = Fine | Conflict | Error | Slow

  /** An unforced delete refuses the last tag of an image a container uses. */
  predicate Refuses(tags: Tags, inUse: set<nat>, t: string) {
    t in tags && tags[t] in inUse && Sole(tags, t)
  }

  /** removeWorkerImage: a tag that is not there counts as removed. */
  function RemoveImage(tags: Tags, inUse: set<nat>, t: string, reply: Reply): (Verdict, Tags) {
    var removed := if Refuses(tags, inUse, t) then tags else tags - {t};
    match reply
    case Answered => (if Refuses(tags, inUse, t) then Conflict else Fine, removed)
    case Broken(done) => (Error, if done then removed else tags)
    case TimedOut(done) => (Slow, if done then removed else tags)
  }

  /** markStale's ImageTag: moves the target tag onto the source's image. */
  function TagImage(tags: Tags, source: string, target: string, reply: Reply): (Verdict, Tags) {
    var tagged := if source in tags then tags[target := tags[source]] else tags;
    match reply
    case Answered => (if source in tags then Fine else Error, tagged)
    case Broken(done) => (Error, if done then tagged else tags)
    case TimedOut(done) => (Slow, if done then tagged else tags)
  }

  /** What one removal of a pass meets: images other calls pulled since, the images in
      use, whether the worker is still ok, and the replies to its calls. */
  datatype Turn = Turn(pulled: Tags, inUse: set<nat>, ok: bool, remove: Reply, tag: Reply, untag: Reply)

  function MarkStaleOn(tags: Tags, t: string, turn: Turn): (Verdict, Tags) {
    if IsStale(t) then (Fine, tags)
    else
      var (verdict, tagged) := TagImage(tags, t, StaleTag(t), turn.tag);
      if !verdict.Fine? then (verdict, tagged) else RemoveImage(tagged, turn.inUse, t, turn.untag)
  }

  /** One iteration of removeSuperseded, its daemon calls in order. */
  function RemoveOne(tags: Tags, t: string, turn: Turn): (Verdict, Tags) {
    var (verdict, tags') := RemoveImage(tags, turn.inUse, t, turn.remove);
    if verdict.Conflict? then MarkStaleOn(tags', t, turn) else (verdict, tags')
  }

  /** The removals of a pass: it stops when the worker is no longer ok or the daemon
      is slow. */
  function RemoveAll(tags: Tags, order: seq<string>, turns: seq<Turn>): Tags
    requires |turns| == |order|
    decreases order
  {
    if order == [] then tags
    else
      var here := tags + turns[0].pulled;
      if !turns[0].ok then here
      else
        var (verdict, tags') := RemoveOne(here, order[0], turns[0]);
        if verdict.Slow? then tags' else RemoveAll(tags', order[1..], turns[1..])
  }

  class ImageStore {
    var tags: Tags

    constructor (t: Tags)
      ensures tags == t
    {
      tags := t;
    }

    /** removeWorkerImage. */
    method Remove(t: string, inUse: set<nat>, reply: Reply) returns (verdict: Verdict)
      modifies this
      ensures (verdict, tags) == RemoveImage(old(tags), inUse, t, reply)
    {
      var refused := Refuses(tags, inUse, t);
      if !refused && (reply.Answered? || reply.done) {
        tags := tags - {t};
      }
      match reply {
        case Answered => return if refused then Conflict else Fine;
        case Broken(_) => return Error;
        case TimedOut(_) => return Slow;
      }
    }

    /** markStale. */
    method MarkStale(t: string, turn: Turn) returns (verdict: Verdict)
      modifies this
      ensures (verdict, tags) == MarkStaleOn(old(tags), t, turn)
    {
      if IsStale(t) {
        return Fine;
      }
      var (verdict', tags') := TagImage(tags, t, StaleTag(t), turn.tag);
      tags := tags';
      if verdict' != Fine {
        return verdict';
      }
      verdict := Remove(t, turn.inUse, turn.untag);
    }

    /** removeSuperseded, over the list in any order. */
    method RemoveSuperseded(order: seq<string>, turns: seq<Turn>)
      requires |turns| == |order|
      modifies this
      ensures tags == RemoveAll(old(tags), order, turns)
    {
      for i := 0 to |order|
        invariant RemoveAll(tags, order[i..], turns[i..]) == RemoveAll(old(tags), order, turns)
      {
        assert order[i..][1..] == order[i + 1..] && turns[i..][1..] == turns[i + 1..];
        tags := tags + turns[i].pulled;
        if !turns[i].ok {
          return;
        }
        var verdict := Remove(order[i], turns[i].inUse, turns[i].remove);
        if verdict == Conflict {
          verdict := MarkStale(order[i], turns[i]);
        }
        if verdict == Slow {
          return;
        }
      }
    }
  }

  /** A removal touches the superseded tag and its stale name, nothing else. */
  lemma RemoveOneIsLocal(tags: Tags, t: string, turn: Turn, u: string)
    requires u != t && u != StaleTag(t)
    ensures var tags' := RemoveOne(tags, t, turn).1;
            (u in tags' <==> u in tags) && (u in tags ==> tags'[u] == tags[u])
  {
  }

  lemma RemoveOneTakesNothingElse(tags: Tags, t: string, turn: Turn, u: string)
    requires u != t && u in tags
    ensures u in RemoveOne(tags, t, turn).1
  {
  }

  /** Whatever fails, times out, or happens meanwhile, the removals take off none but
      the tags listed for removal. */
  lemma {:induction false} RemoveAllTakesOnlyListed(tags: Tags, order: seq<string>, turns: seq<Turn>, u: string)
    requires |turns| == |order| && u in tags && u !in order
    ensures u in RemoveAll(tags, order, turns)
    decreases order
  {
    if order != [] {
      var here := tags + turns[0].pulled;
      assert u in here && u != order[0];
      RemoveOneTakesNothingElse(here, order[0], turns[0], u);
      var (verdict, tags') := RemoveOne(here, order[0], turns[0]);
      if turns[0].ok && !verdict.Slow? {
        RemoveAllTakesOnlyListed(tags', order[1..], turns[1..], u);
      }
    }
  }

  // ------------------------------------------------------------------------- pulls

  /** What one pull of a pass meets: a fleet slot, the worker, the sets read again, and
      the image the pull ends with, if it succeeds. */
  datatype Pull = Pull(slot: bool, ok: bool, reread: Option<Sets>, image: Option<nat>)

  datatype Pulled = Pulled(tags: Tags, tried: set<string>, stopped: bool)

  function PullAll(tags: Tags, order: seq<string>, pulls: seq<Pull>): Pulled
    requires |pulls| == |order|
    decreases order
  {
    if order == [] then Pulled(tags, {}, false)
    else
      var k := |order| - 1;
      var before, name, p := PullAll(tags, order[..k], pulls[..k]), order[k], pulls[k];
      if before.stopped then before
      else if !p.slot || !p.ok || p.reread.None? then before.(stopped := true)
      else if name !in p.reread.value.wanted then before
      else before.(tags := if p.image.Some? then before.tags[name := p.image.value] else before.tags,
                   tried := before.tried + {name})
  }

  /** The pulls of preloadPass. */
  method PullMissing(tags: Tags, order: seq<string>, pulls: seq<Pull>) returns (r: Pulled)
    requires |pulls| == |order|
    ensures r == PullAll(tags, order, pulls)
  {
    r := Pulled(tags, {}, false);
    for k := 0 to |order|
      invariant r == PullAll(tags, order[..k], pulls[..k]) && !r.stopped
    {
      ghost var done, met := order[..k + 1], pulls[..k + 1];
      assert done[..k] == order[..k] && met[..k] == pulls[..k];
      if !pulls[k].slot || !pulls[k].ok || pulls[k].reread.None? {
        r := r.(stopped := true);
        StoppedStays(tags, order, pulls, k + 1);
        return;
      }
      if order[k] !in pulls[k].reread.value.wanted {
        continue;
      }
      r := r.(tried := r.tried + {order[k]});
      if pulls[k].image.Some? {
        r := r.(tags := r.tags[order[k] := pulls[k].image.value]);
      }
    }
    assert order[..|order|] == order && pulls[..|pulls|] == pulls;
  }

  lemma {:induction false} StoppedStays(tags: Tags, order: seq<string>, pulls: seq<Pull>, k: nat)
    requires |pulls| == |order| && k <= |order| && PullAll(tags, order[..k], pulls[..k]).stopped
    ensures PullAll(tags, order, pulls) == PullAll(tags, order[..k], pulls[..k])
  {
    var n := |order|;
    if k == n {
      assert order[..k] == order && pulls[..k] == pulls;
    } else {
      assert order[..n - 1][..k] == order[..k] && pulls[..n - 1][..k] == pulls[..k];
      StoppedStays(tags, order[..n - 1], pulls[..n - 1], k);
    }
  }

  lemma {:induction false} PullsOnlyAdd(tags: Tags, order: seq<string>, pulls: seq<Pull>)
    requires |pulls| == |order|
    ensures var r := PullAll(tags, order, pulls);
            && (forall u :: u in tags ==> u in r.tags)
            && (forall u :: u in r.tags ==> u in tags || u in r.tried)
            && (forall u :: u in r.tried ==> u in order)
  {
    if order != [] {
      var k := |order| - 1;
      PullsOnlyAdd(tags, order[..k], pulls[..k]);
      assert order == order[..k] + [order[k]];
    }
  }

  // -------------------------------------------------------------------------- pass

  /** The order a set is gone through in. */
  ghost predicate Orders(order: seq<string>, s: set<string>) {
    forall x :: x in order <==> x in s
  }

  /** preloadPass once the worker's tags are listed. */
  ghost function Pass(tags: Tags, pullOrder: seq<string>, pulls: seq<Pull>,
                      removeOrder: seq<string>, turns: seq<Turn>): Tags
    requires |pulls| == |pullOrder| && |turns| == |removeOrder|
  {
    var r := PullAll(tags, pullOrder, pulls);
    if r.stopped then r.tags else RemoveAll(r.tags, removeOrder, turns)
  }

  /** With `later` what the database says when the removals begin, no pass takes off a
      tag that a current build names, nor any tag of a repository
      with a wanted image it neither holds nor has tried, whatever else goes on. */
  lemma PassIsSafe(tags: Tags, later: Sets, pullOrder: seq<string>, pulls: seq<Pull>,
                   removeOrder: seq<string>, turns: seq<Turn>, u: string)
    requires |pulls| == |pullOrder| && |turns| == |removeOrder| && u in tags
    requires Orders(removeOrder, Superseded(later, tags.Keys, PullAll(tags, pullOrder, pulls).tried))
    requires u in later.named || Waits(later, tags.Keys, PullAll(tags, pullOrder, pulls).tried, ImageRepo(u))
    ensures u in Pass(tags, pullOrder, pulls, removeOrder, turns)
  {
    PullsOnlyAdd(tags, pullOrder, pulls);
    var r := PullAll(tags, pullOrder, pulls);
    if !r.stopped {
      RemoveAllTakesOnlyListed(r.tags, removeOrder, turns, u);
    }
  }

  // ---------------------------------------------------------------------- fixpoint

  predicate QuietPull(sets: Sets, p: Pull) {
    p.slot && p.ok && p.reread == Some(sets) && p.image.Some?
  }

  predicate QuietTurn(inUse: set<nat>, t: Turn) {
    t == Turn(map[], inUse, true, Answered, Answered, Answered)
  }

  predicate QuietPulls(sets: Sets, pulls: seq<Pull>) {
    forall i :: 0 <= i < |pulls| ==> QuietPull(sets, pulls[i])
  }

  predicate QuietTurns(inUse: set<nat>, turns: seq<Turn>) {
    forall i :: 0 <= i < |turns| ==> QuietTurn(inUse, turns[i])
  }

  /** Listed tags are of the form repository:tag. */
  predicate Tagged(t: string) {
    ImageRepo(t) != t
  }

  /** The image is in use and this stale tag is all that is left on it. */
  ghost predicate Settled(tags: Tags, inUse: set<nat>, t: string) {
    IsStale(t) && Refuses(tags, inUse, t)
  }

  /** Every removable tag is settled or still to be gone through. */
  ghost predicate Progress(tags: Tags, sets: Sets, inUse: set<nat>, todo: seq<string>) {
    forall t :: t in tags && Unnamed(sets, t) ==> t in todo || Settled(tags, inUse, t)
  }

  lemma RemoveOneProgresses(tags: Tags, sets: Sets, inUse: set<nat>, todo: seq<string>, turn: Turn)
    requires todo != [] && QuietTurn(inUse, turn) && Progress(tags, sets, inUse, todo)
    requires Tagged(todo[0])
    ensures !RemoveOne(tags, todo[0], turn).0.Slow?
    ensures Progress(RemoveOne(tags, todo[0], turn).1, sets, inUse, todo[1..])
  {
    var x := todo[0];
    var tags' := RemoveOne(tags, x, turn).1;
    StaleTagFacts(x);
    assert todo == [x] + todo[1..];
    if Refuses(tags, inUse, x) && !IsStale(x) {
      assert tags' == tags[StaleTag(x) := tags[x]] - {x} by { MovedToStale(tags, inUse, x, turn); }
    }
    forall t | t in tags' && Unnamed(sets, t) ensures t in todo[1..] || Settled(tags', inUse, t) {
      if t != StaleTag(x) {
        assert t in tags;
      }
    }
  }

  lemma MovedToStale(tags: Tags, inUse: set<nat>, x: string, turn: Turn)
    requires QuietTurn(inUse, turn) && Refuses(tags, inUse, x) && !IsStale(x) && IsStale(StaleTag(x))
    ensures RemoveOne(tags, x, turn) == (Fine, tags[StaleTag(x) := tags[x]] - {x})
  {
    var tagged := tags[StaleTag(x) := tags[x]];
    assert StaleTag(x) in tagged && tagged[StaleTag(x)] == tagged[x];
  }

  lemma {:induction false} RemoveAllSettles(
    tags: Tags, sets: Sets, inUse: set<nat>, order: seq<string>, turns: seq<Turn>)
    requires |turns| == |order| && Progress(tags, sets, inUse, order)
    requires QuietTurns(inUse, turns)
    requires forall x :: x in order ==> Tagged(x)
    ensures Progress(RemoveAll(tags, order, turns), sets, inUse, [])
    decreases order
  {
    if order != [] {
      assert tags + turns[0].pulled == tags;
      RemoveOneProgresses(tags, sets, inUse, order, turns[0]);
      RemoveAllSettles(RemoveOne(tags, order[0], turns[0]).1, sets, inUse, order[1..], turns[1..]);
    }
  }

  lemma {:induction false} QuietPullsLand(tags: Tags, sets: Sets, order: seq<string>, pulls: seq<Pull>)
    requires |pulls| == |order| && QuietPulls(sets, pulls)
    requires forall n :: n in order ==> n in sets.wanted
    ensures var r := PullAll(tags, order, pulls);
            !r.stopped && (forall n :: n in order ==> n in r.tags && n in r.tried)
  {
    if order != [] {
      var k := |order| - 1;
      QuietPullsLand(tags, sets, order[..k], pulls[..k]);
      assert order == order[..k] + [order[k]];
    }
  }

  /** What a pass leaves when the database is stable and every call is answered: every
      wanted image is there, and the only removable tags left are stale ones, each the
      last tag of an image in use. */
  ghost predicate Fixed(tags: Tags, sets: Sets, inUse: set<nat>) {
    sets.wanted <= tags.Keys && Progress(tags, sets, inUse, [])
  }

  lemma PassReachesFixpoint(tags: Tags, sets: Sets, inUse: set<nat>, pullOrder: seq<string>, pulls: seq<Pull>,
                            removeOrder: seq<string>, turns: seq<Turn>)
    requires |pulls| == |pullOrder| && |turns| == |removeOrder| && WellFormed(sets)
    requires forall t :: t in tags ==> Tagged(t)
    requires Orders(pullOrder, Missing(sets.wanted, tags.Keys))
    requires QuietPulls(sets, pulls)
    requires Orders(removeOrder, Superseded(sets, tags.Keys, PullAll(tags, pullOrder, pulls).tried))
    requires QuietTurns(inUse, turns)
    ensures Fixed(Pass(tags, pullOrder, pulls, removeOrder, turns), sets, inUse)
  {
    var r := PullAll(tags, pullOrder, pulls);
    QuietPullsLand(tags, sets, pullOrder, pulls);
    PulledReady(tags, sets, pullOrder, pulls, removeOrder);
    RemovalsReachFixpoint(r.tags, sets, inUse, removeOrder, turns);
  }

  /** After the pulls every wanted image is there and every removable tag is listed. */
  lemma PulledReady(tags: Tags, sets: Sets, pullOrder: seq<string>, pulls: seq<Pull>, removeOrder: seq<string>)
    requires |pulls| == |pullOrder| && WellFormed(sets)
    requires Orders(pullOrder, Missing(sets.wanted, tags.Keys))
    requires var r := PullAll(tags, pullOrder, pulls); forall n :: n in pullOrder ==> n in r.tags && n in r.tried
    requires Orders(removeOrder, Superseded(sets, tags.Keys, PullAll(tags, pullOrder, pulls).tried))
    ensures var r := PullAll(tags, pullOrder, pulls);
            && sets.wanted <= r.tags.Keys
            && (forall t :: t in r.tags && Unnamed(sets, t) ==> t in removeOrder)
            && (forall t :: t in removeOrder ==> t in tags && t !in sets.named)
  {
    PullsOnlyAdd(tags, pullOrder, pulls);
    NothingWaits(tags, sets, pullOrder, pulls);
    var r := PullAll(tags, pullOrder, pulls);
    forall t | t in r.tags && Unnamed(sets, t) ensures t in removeOrder {
      assert t in tags;
    }
  }

  lemma RemovalsReachFixpoint(tags: Tags, sets: Sets, inUse: set<nat>, order: seq<string>, turns: seq<Turn>)
    requires |turns| == |order| && WellFormed(sets) && sets.wanted <= tags.Keys
    requires QuietTurns(inUse, turns)
    requires forall t :: t in tags && Unnamed(sets, t) ==> t in order
    requires forall x :: x in order ==> x !in sets.named && Tagged(x)
    ensures Fixed(RemoveAll(tags, order, turns), sets, inUse)
  {
    RemoveAllSettles(tags, sets, inUse, order, turns);
    forall n | n in sets.wanted ensures n in RemoveAll(tags, order, turns) {
      RemoveAllTakesOnlyListed(tags, order, turns, n);
    }
  }

  lemma NothingWaits(tags: Tags, sets: Sets, order: seq<string>, pulls: seq<Pull>)
    requires |pulls| == |order| && Orders(order, Missing(sets.wanted, tags.Keys))
    requires forall n :: n in order ==> n in PullAll(tags, order, pulls).tried
    ensures forall r :: !Waits(sets, tags.Keys, PullAll(tags, order, pulls).tried, r)
  {
  }

  lemma RetryOne(tags: Tags, inUse: set<nat>, x: string, turn: Turn)
    requires QuietTurn(inUse, turn) && (x in tags ==> IsStale(x) && Sole(tags, x))
    ensures RemoveOne(tags, x, turn) == (Fine, if x in tags && tags[x] in inUse then tags else tags - {x})
  {
  }

  function Unused(tags: Tags, inUse: set<nat>, order: seq<string>): set<string> {
    set x | x in order && x in tags && tags[x] !in inUse
  }

  ghost predicate AllSole(tags: Tags, order: seq<string>) {
    forall x :: x in order && x in tags ==> IsStale(x) && Sole(tags, x)
  }

  lemma SoleStays(tags: Tags, tags': Tags, order: seq<string>)
    requires order != [] && AllSole(tags, order) && (tags' == tags || tags' == tags - {order[0]})
    ensures AllSole(tags', order[1..])
  {
    forall x | x in order[1..] && x in tags' ensures IsStale(x) && Sole(tags', x) {
      assert x in order && Sole(tags, x);
    }
  }

  lemma UnusedSplits(tags: Tags, inUse: set<nat>, order: seq<string>)
    requires order != []
    ensures var x := order[0];
            var tags' := if x in tags && tags[x] in inUse then tags else tags - {x};
            tags' - Unused(tags', inUse, order[1..]) == tags - Unused(tags, inUse, order)
  {
    assert order == [order[0]] + order[1..];
  }

  lemma {:induction false} RetryAll(tags: Tags, inUse: set<nat>, order: seq<string>, turns: seq<Turn>)
    requires |turns| == |order| && QuietTurns(inUse, turns)
    requires AllSole(tags, order)
    ensures RemoveAll(tags, order, turns) == tags - Unused(tags, inUse, order)
    decreases order
  {
    if order != [] {
      var x := order[0];
      assert tags + turns[0].pulled == tags;
      RetryOne(tags, inUse, x, turns[0]);
      var tags' := if x in tags && tags[x] in inUse then tags else tags - {x};
      SoleStays(tags, tags', order);
      RetryAll(tags', inUse, order[1..], turns[1..]);
      UnusedSplits(tags, inUse, order);
    }
  }

  /** The next pass pulls nothing and goes over exactly those stale tags, taking off the
      ones whose image is no longer in use; with the same images in use it changes
      nothing. */
  lemma NextPassOnlyRetries(
    tags: Tags, sets: Sets, inUse: set<nat>, now: set<nat>, order: seq<string>, turns: seq<Turn>)
    requires Fixed(tags, sets, inUse) && |turns| == |order|
    requires Orders(order, Superseded(sets, tags.Keys, {}))
    requires QuietTurns(now, turns)
    ensures Missing(sets.wanted, tags.Keys) == {}
    ensures forall t :: t in order ==> Settled(tags, inUse, t)
    ensures Pass(tags, [], [], order, turns) == tags - Unused(tags, now, order)
    ensures now == inUse ==> Pass(tags, [], [], order, turns) == tags
  {
    RetryAll(tags, now, order, turns);
    if now == inUse {
      assert Unused(tags, now, order) == {};
    }
  }
}
