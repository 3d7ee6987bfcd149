/** The build plane's routing: which orchestrator each schema is handed to, and the check
    that no build is handed to two. */
module Routing {
  import opened Naming

  const NUL: char := '\U{0}'

  /** Ids come from sanitized names. */
  type ChallengeId = s: string | NUL !in s

  datatype Schema = Schema(name: string, destination: string, format: string, challenges: map<ChallengeId, seq<int>>)

  // ---------------------------------------------------------------- destinations

  /** defName: the only name, when there is only one. */
  datatype Destinations = Destinations(byName: map<string, string>, defName: string)

  function TrimSlashes(s: string): string {
    if s != "" && s[|s| - 1] == '/' then TrimSlashes(s[..|s| - 1]) else s
  }

  /** Every name and address is usable, and no two names are one address. */
  ghost predicate Acceptable(raw: map<string, string>, valid: string -> bool) {
    && (forall n :: n in raw ==> n != "" && valid(TrimSlashes(raw[n])))
    && (forall n, m :: n in raw && m in raw && TrimSlashes(raw[n]) == TrimSlashes(raw[m]) ==> n == m)
  }

  ghost predicate OneToOne(d: Destinations) {
    && "" !in d.byName
    && (forall n, m :: n in d.byName && m in d.byName && d.byName[n] == d.byName[m] ==> n == m)
    && (|d.byName| == 1 ==> d.defName in d.byName)
  }

  function Loaded(raw: map<string, string>, names: set<string>): map<string, string> {
    map n | n in raw && n in names :: TrimSlashes(raw[n])
  }

  ghost predicate Inverse(byName: map<string, string>, byAddress: map<string, string>) {
    && (forall n :: n in byName ==> byName[n] in byAddress && byAddress[byName[n]] == n)
    && (forall a :: a in byAddress ==> byAddress[a] in byName && byName[byAddress[a]] == a)
  }

  ghost predicate Usable(byName: map<string, string>, valid: string -> bool) {
    forall n :: n in byName ==> n != "" && valid(byName[n])
  }

  lemma LoadOne(raw: map<string, string>, valid: string -> bool, done: set<string>, name: string,
                byAddress: map<string, string>)
    requires name in raw && name !in done && name != ""
    requires valid(TrimSlashes(raw[name])) && TrimSlashes(raw[name]) !in byAddress
    requires Inverse(Loaded(raw, done), byAddress) && Usable(Loaded(raw, done), valid)
    ensures Loaded(raw, done + {name}) == Loaded(raw, done)[name := TrimSlashes(raw[name])]
    ensures Inverse(Loaded(raw, done + {name}), byAddress[TrimSlashes(raw[name]) := name])
    ensures Usable(Loaded(raw, done + {name}), valid)
  {
    assert Loaded(raw, done + {name}) == Loaded(raw, done)[name := TrimSlashes(raw[name])];
  }

  lemma AddressTaken(raw: map<string, string>, valid: string -> bool, first: string, second: string)
    requires first in raw && second in raw && first != second && TrimSlashes(raw[first]) == TrimSlashes(raw[second])
    ensures !Acceptable(raw, valid)
  {
  }

  lemma LoadedIsAcceptable(raw: map<string, string>, valid: string -> bool, byAddress: map<string, string>)
    requires Inverse(Loaded(raw, raw.Keys), byAddress) && Usable(Loaded(raw, raw.Keys), valid)
    ensures Acceptable(raw, valid)
    ensures var byName := Loaded(raw, raw.Keys);
            forall n, m :: n in byName && m in byName && byName[n] == byName[m] ==> n == m
  {
    var byName := Loaded(raw, raw.Keys);
    forall n | n in raw ensures n in byName && byName[n] == TrimSlashes(raw[n]) { }
  }

  /** loadDestinations; which fault is reported first is not modelled. */
  method LoadDestinations(raw: map<string, string>, valid: string -> bool) returns (d: Option<Destinations>)
    ensures d.Some? <==> Acceptable(raw, valid)
    ensures d.Some? ==> OneToOne(d.value) && d.value.byName == Loaded(raw, raw.Keys)
  {
    var byName: map<string, string>, byAddress: map<string, string>, todo := map[], map[], raw.Keys;
    ghost var done: set<string> := {};
    while todo != {}
      invariant todo !! done && todo + done == raw.Keys && byName == Loaded(raw, done)
      invariant Inverse(byName, byAddress) && Usable(byName, valid)
      decreases todo
    {
      var name :| name in todo;
      var address := TrimSlashes(raw[name]);
      if name == "" || !valid(address) {
        return None;
      }
      if address in byAddress {
        AddressTaken(raw, valid, byAddress[address], name);
        return None;
      }
      LoadOne(raw, valid, done, name, byAddress);
      byAddress := byAddress[address := name];
      byName := byName[name := address];
      todo, done := todo - {name}, done + {name};
    }
    assert done == raw.Keys;
    LoadedIsAcceptable(raw, valid, byAddress);
    var defName := "";
    if |byName| == 1 {
      OneKey(byName);
      defName :| defName in byName;
    }
    return Some(Destinations(byName, defName));
  }

  lemma OneKey(m: map<string, string>)
    requires |m| == 1
    ensures exists n :: n in m
  {
    assert m.Keys != {};
  }

  /** resolve. */
  function Resolve(d: Destinations, destination: string): Option<string>
    requires |d.byName| == 1 ==> d.defName in d.byName
  {
    if destination == "" then
      if |d.byName| == 1 then Some(d.byName[d.defName]) else None
    else if destination in d.byName then Some(d.byName[destination]) else None
  }

  /** The name a schema's destination goes by. */
  function NameFor(d: Destinations, destination: string): string {
    if destination == "" then d.defName else destination
  }

  // ---------------------------------------------------------------------- routes

  datatype Route = Route(name: string, address: string, schemas: seq<Schema>)

  predicate GoesTo(d: Destinations, s: Schema, address: string)
    requires |d.byName| == 1 ==> d.defName in d.byName
  {
    Resolve(d, s.destination) == Some(address)
  }

  /** The schemas that resolve to an address, in order. */
  function For(d: Destinations, schemas: seq<Schema>, address: string): (r: seq<Schema>)
    requires |d.byName| == 1 ==> d.defName in d.byName
    ensures forall s :: s in r <==> s in schemas && GoesTo(d, s, address)
  {
    if schemas == [] then []
    else
      var n := |schemas| - 1;
      assert schemas == schemas[..n] + [schemas[n]];
      For(d, schemas[..n], address) + if GoesTo(d, schemas[n], address) then [schemas[n]] else []
  }

  function IndexOf(routes: seq<Route>, address: string): (i: int)
    ensures -1 <= i < |routes|
    ensures i >= 0 ==> routes[i].address == address
    ensures i < 0 ==> forall j :: 0 <= j < |routes| ==> routes[j].address != address
  {
    if routes == [] then -1
    else if routes[|routes| - 1].address == address then |routes| - 1
    else IndexOf(routes[..|routes| - 1], address)
  }

  lemma ForGrows(d: Destinations, front: seq<Schema>, s: Schema, address: string)
    requires |d.byName| == 1 ==> d.defName in d.byName
    ensures For(d, front + [s], address) == For(d, front, address) + if GoesTo(d, s, address) then [s] else []
  {
    assert (front + [s])[..|front|] == front;
  }

  /** What routing one more schema does to the routes. */
  function Placed(d: Destinations, routes: seq<Route>, s: Schema): (r: seq<Route>)
    requires |d.byName| == 1 ==> d.defName in d.byName
  {
    var a := Resolve(d, s.destination);
    if a.None? then routes
    else
      var i := IndexOf(routes, a.value);
      if i >= 0 then routes[i := routes[i].(schemas := routes[i].schemas + [s])]
      else routes + [Route(NameFor(d, s.destination), a.value, [s])]
  }

  /** A route is named by the destination of its address, and holds all the schemas that
      go there and no others. */
  ghost predicate RouteOk(d: Destinations, schemas: seq<Schema>, r: Route)
    requires |d.byName| == 1 ==> d.defName in d.byName
  {
    && r.name in d.byName && d.byName[r.name] == r.address
    && r.schemas == For(d, schemas, r.address) && r.schemas != []
  }

  ghost predicate Distinct(routes: seq<Route>) {
    forall i, j :: 0 <= i < j < |routes| ==> routes[i].address != routes[j].address
  }

  ghost predicate AllOk(d: Destinations, schemas: seq<Schema>, routes: seq<Route>)
    requires |d.byName| == 1 ==> d.defName in d.byName
  {
    forall i :: 0 <= i < |routes| ==> RouteOk(d, schemas, routes[i])
  }

  ghost predicate Covers(d: Destinations, schemas: seq<Schema>, routes: seq<Route>)
    requires |d.byName| == 1 ==> d.defName in d.byName
  {
    forall s :: s in schemas && Resolve(d, s.destination).Some? ==>
      IndexOf(routes, Resolve(d, s.destination).value) >= 0
  }

  /** Exactly one route for every address some schema resolves to. */
  ghost predicate Routed(d: Destinations, schemas: seq<Schema>, routes: seq<Route>)
    requires |d.byName| == 1 ==> d.defName in d.byName
  {
    Distinct(routes) && AllOk(d, schemas, routes) && Covers(d, schemas, routes)
  }

  lemma PlacedAddresses(d: Destinations, routes: seq<Route>, s: Schema)
    requires OneToOne(d) && Distinct(routes)
    ensures Distinct(Placed(d, routes, s))
    ensures forall a :: IndexOf(routes, a) >= 0 ==> IndexOf(Placed(d, routes, s), a) >= 0
    ensures Resolve(d, s.destination).Some? ==> IndexOf(Placed(d, routes, s), Resolve(d, s.destination).value) >= 0
  {
    var r := Placed(d, routes, s);
    assert |routes| <= |r| && forall i :: 0 <= i < |routes| ==> r[i].address == routes[i].address;
    forall a | IndexOf(routes, a) >= 0 ensures IndexOf(r, a) >= 0 {
      assert r[IndexOf(routes, a)].address == a;
    }
    var a := Resolve(d, s.destination);
    if a.Some? && IndexOf(routes, a.value) < 0 {
      assert r[|routes|].address == a.value;
    }
  }

  /** An address nothing resolves to has no schemas. */
  lemma {:induction false} NobodyYet(d: Destinations, front: seq<Schema>, address: string)
    requires OneToOne(d) && forall s :: s in front ==> !GoesTo(d, s, address)
    ensures For(d, front, address) == []
  {
    if front != [] {
      NobodyYet(d, front[..|front| - 1], address);
    }
  }

  lemma RouteKept(d: Destinations, front: seq<Schema>, s: Schema, r: Route)
    requires OneToOne(d) && RouteOk(d, front, r) && !GoesTo(d, s, r.address)
    ensures RouteOk(d, front + [s], r)
  {
    ForGrows(d, front, s, r.address);
  }

  lemma RouteExtended(d: Destinations, front: seq<Schema>, s: Schema, r: Route)
    requires OneToOne(d) && RouteOk(d, front, r) && GoesTo(d, s, r.address)
    ensures RouteOk(d, front + [s], r.(schemas := r.schemas + [s]))
  {
    ForGrows(d, front, s, r.address);
  }

  lemma RouteNew(d: Destinations, front: seq<Schema>, s: Schema, address: string)
    requires OneToOne(d) && GoesTo(d, s, address) && forall x :: x in front ==> !GoesTo(d, x, address)
    ensures RouteOk(d, front + [s], Route(NameFor(d, s.destination), address, [s]))
  {
    ForGrows(d, front, s, address);
    NobodyYet(d, front, address);
  }

  lemma PlacedRoutes(d: Destinations, front: seq<Schema>, routes: seq<Route>, s: Schema, i: nat)
    requires OneToOne(d) && Routed(d, front, routes) && i < |Placed(d, routes, s)|
    ensures RouteOk(d, front + [s], Placed(d, routes, s)[i])
  {
    var a := Resolve(d, s.destination);
    if i == |routes| {
      RouteNew(d, front, s, a.value);
    } else if GoesTo(d, s, routes[i].address) {
      assert IndexOf(routes, a.value) == i;
      RouteExtended(d, front, s, routes[i]);
    } else {
      RouteKept(d, front, s, routes[i]);
    }
  }

  lemma PlacedIsRouted(d: Destinations, front: seq<Schema>, routes: seq<Route>, s: Schema)
    requires OneToOne(d) && Routed(d, front, routes)
    ensures Routed(d, front + [s], Placed(d, routes, s))
  {
    var r := Placed(d, routes, s);
    PlacedAddresses(d, routes, s);
    forall i | 0 <= i < |r| ensures RouteOk(d, front + [s], r[i]) {
      PlacedRoutes(d, front, routes, s, i);
    }
  }

  method Place(d: Destinations, routes: seq<Route>, s: Schema) returns (r: seq<Route>, resolved: bool)
    requires OneToOne(d)
    ensures r == Placed(d, routes, s) && resolved == Resolve(d, s.destination).Some?
  {
    var address := Resolve(d, s.destination);
    if address.None? {
      return routes, false;
    }
    var i := IndexOf(routes, address.value);
    if i < 0 {
      return routes + [Route(NameFor(d, s.destination), address.value, [s])], true;
    }
    return routes[i := routes[i].(schemas := routes[i].schemas + [s])], true;
  }

  predicate Resolves(d: Destinations, schemas: seq<Schema>)
    requires |d.byName| == 1 ==> d.defName in d.byName
  {
    forall s :: s in schemas ==> Resolve(d, s.destination).Some?
  }

  lemma ResolvesSplits(d: Destinations, front: seq<Schema>, s: Schema)
    requires OneToOne(d)
    ensures Resolves(d, front + [s]) <==> Resolves(d, front) && Resolve(d, s.destination).Some?
  {
    assert forall x :: x in front + [s] <==> x in front || x == s;
  }

  function PlaceAll(d: Destinations, schemas: seq<Schema>): seq<Route>
    requires |d.byName| == 1 ==> d.defName in d.byName
  {
    if schemas == [] then [] else Placed(d, PlaceAll(d, schemas[..|schemas| - 1]), schemas[|schemas| - 1])
  }

  lemma {:induction false} PlaceAllIsRouted(d: Destinations, schemas: seq<Schema>)
    requires OneToOne(d)
    ensures Routed(d, schemas, PlaceAll(d, schemas))
  {
    if schemas != [] {
      var n := |schemas| - 1;
      PlaceAllIsRouted(d, schemas[..n]);
      PlacedIsRouted(d, schemas[..n], PlaceAll(d, schemas[..n]), schemas[n]);
      assert schemas == schemas[..n] + [schemas[n]];
    }
  }

  /** routeSchemas without --server. */
  method RouteByDestination(schemas: seq<Schema>, d: Destinations) returns (routes: Option<seq<Route>>)
    requires OneToOne(d)
    ensures routes.Some? <==> Resolves(d, schemas)
    ensures routes.Some? ==> Routed(d, schemas, routes.value)
  {
    var rs, fine := [], true;
    for k := 0 to |schemas|
      invariant rs == PlaceAll(d, schemas[..k]) && fine == Resolves(d, schemas[..k])
    {
      ResolvesSplits(d, schemas[..k], schemas[k]);
      assert schemas[..k + 1] == schemas[..k] + [schemas[k]] && schemas[..k + 1][..k] == schemas[..k];
      var resolved;
      rs, resolved := Place(d, rs, schemas[k]);
      fine := fine && resolved;
    }
    assert schemas[..|schemas|] == schemas;
    PlaceAllIsRouted(d, schemas);
    return if fine then Some(rs) else None;
  }

  const SERVER_ROUTE := "--server"

  /** routeSchemas. */
  method RouteSchemas(schemas: seq<Schema>, servers: seq<string>, d: Destinations) returns (routes: Option<seq<Route>>)
    requires OneToOne(d)
    ensures servers != [] ==> routes == Some(ServerRoutes(schemas, servers))
    ensures servers == [] ==> (routes.Some? <==> Resolves(d, schemas))
    ensures servers == [] && routes.Some? ==> Routed(d, schemas, routes.value)
  {
    if servers != [] {
      return Some(ServerRoutes(schemas, servers));
    }
    routes := RouteByDestination(schemas, d);
  }

  function ServerRoutes(schemas: seq<Schema>, servers: seq<string>): seq<Route> {
    seq(|servers|, i requires 0 <= i < |servers| => Route(SERVER_ROUTE, servers[i], schemas))
  }

  // ----------------------------------------------------------------- exclusivity

  /** What a tag is derived from, as far as a schema decides it. */
  datatype Content = Content(challenge: ChallengeId, seed: int, format: string)

  predicate Names(s: Schema, c: Content) {
    c.format == s.format && c.challenge in s.challenges && c.seed in s.challenges[c.challenge]
  }

  function KeyOf(c: Content): string {
    Joined(c.challenge, NUL, Joined(RenderInt(c.seed), NUL, c.format))
  }

  lemma SeedHasNoNul(seed: int)
    ensures NUL !in RenderInt(seed)
  {
  }

  /** The key tells contents apart. */
  lemma KeyIsInjective(a: Content, b: Content)
    requires KeyOf(a) == KeyOf(b)
    ensures a == b
  {
    var rest, rest' := Joined(RenderInt(a.seed), NUL, a.format), Joined(RenderInt(b.seed), NUL, b.format);
    CutUnique(a.challenge, rest, b.challenge, rest', NUL);
    SeedHasNoNul(a.seed);
    SeedHasNoNul(b.seed);
    CutUnique(RenderInt(a.seed), a.format, RenderInt(b.seed), b.format, NUL);
    RenderIntInjective(a.seed, b.seed);
  }

  lemma RenderIntInjective(a: int, b: int)
    requires RenderInt(a) == RenderInt(b)
    ensures a == b
  {
    SeedSplits(a, "", b, "");
  }

  datatype Owner = Owner(destination: string, schema: string)

  datatype Conflict = Conflict(content: Content, held: Owner, wanted: Owner)

  /** A build named for a destination. */
  datatype Claim = Claim(content: Content, destination: string)

  predicate Differ(a: Claim, b: Claim, c: Content) {
    a.content == c && b.content == c && a.destination != b.destination
  }

  /** The content is claimed for two destinations. */
  ghost predicate Contested(claims: set<Claim>, c: Content) {
    exists a, b :: a in claims && b in claims && Differ(a, b, c)
  }

  /** No content is. */
  ghost predicate Exclusive(claims: set<Claim>) {
    forall c :: !Contested(claims, c)
  }

  /** The contents a report names. */
  ghost predicate Reports(conflicts: seq<Conflict>, c: Content) {
    exists x :: x in conflicts && x.content == c
  }

  lemma ReportGrows(conflicts: seq<Conflict>, x: Conflict, c: Content)
    ensures Reports(conflicts + [x], c) <==> Reports(conflicts, c) || x.content == c
  {
    if Reports(conflicts, c) {
      var y :| y in conflicts && y.content == c;
      assert y in conflicts + [x];
    }
    assert x in conflicts + [x];
  }

  ghost predicate HeldFor(claims: set<Claim>, key: string, destination: string) {
    exists c :: c in claims && KeyOf(c.content) == key && c.destination == destination
  }

  /** Every claimed content has an owner, one of its claimants. */
  ghost predicate Owned(claims: set<Claim>, owners: map<string, Owner>) {
    && (forall c :: c in claims ==> KeyOf(c.content) in owners)
    && (forall k :: k in owners ==> HeldFor(claims, k, owners[k].destination))
  }

  lemma HeldForMore(claims: set<Claim>, c: Claim, key: string, destination: string)
    requires HeldFor(claims, key, destination)
    ensures HeldFor(claims + {c}, key, destination)
  {
    var x :| x in claims && KeyOf(x.content) == key && x.destination == destination;
    assert x in claims + {c};
  }

  lemma OwnedGrows(claims: set<Claim>, owners: map<string, Owner>, c: Content, who: Owner)
    requires Owned(claims, owners)
    ensures KeyOf(c) !in owners ==> Owned(claims + {Claim(c, who.destination)}, owners[KeyOf(c) := who])
    ensures KeyOf(c) in owners ==> Owned(claims + {Claim(c, who.destination)}, owners)
  {
    var claim := Claim(c, who.destination);
    assert claim in claims + {claim};
    forall k | k in owners ensures HeldFor(claims + {claim}, k, owners[k].destination) {
      HeldForMore(claims, claim, k, owners[k].destination);
    }
    assert HeldFor(claims + {claim}, KeyOf(c), who.destination);
  }

  /** What a new claim adds to the contested contents: its own, when it is held for
      another destination. */
  lemma ContestedGrows(claims: set<Claim>, owners: map<string, Owner>, c: Content, destination: string, x: Content)
    requires Owned(claims, owners)
    ensures Contested(claims + {Claim(c, destination)}, x) <==>
              || Contested(claims, x)
              || (x == c && KeyOf(c) in owners && owners[KeyOf(c)].destination != destination)
  {
    var claim := Claim(c, destination);
    if Contested(claims, x) {
      ContestedStays(claims, claim, x);
    }
    if KeyOf(c) in owners {
      assert HeldFor(claims, KeyOf(c), owners[KeyOf(c)].destination);
      var held :| held in claims && KeyOf(held.content) == KeyOf(c) && held.destination == owners[KeyOf(c)].destination;
      KeyIsInjective(held.content, c);
      ContestedWith(claims, held, destination, x);
    } else {
      NewContent(claims, c, destination, x);
    }
  }

  lemma ContestedStays(claims: set<Claim>, claim: Claim, x: Content)
    requires Contested(claims, x)
    ensures Contested(claims + {claim}, x)
  {
    var a, b :| a in claims && b in claims && Differ(a, b, x);
    assert a in claims + {claim} && b in claims + {claim};
  }

  /** A content nobody claimed is not contested by its first claim. */
  lemma NewContent(claims: set<Claim>, c: Content, destination: string, x: Content)
    requires forall y :: y in claims ==> KeyOf(y.content) != KeyOf(c)
    ensures Contested(claims + {Claim(c, destination)}, x) ==> Contested(claims, x)
  {
    if a, b :| a in claims + {Claim(c, destination)} && b in claims + {Claim(c, destination)} && Differ(a, b, x) {
      assert a in claims && b in claims;
    }
  }

  lemma ContestedWith(claims: set<Claim>, held: Claim, destination: string, x: Content)
    requires held in claims
    ensures Contested(claims + {Claim(held.content, destination)}, x) <==>
              Contested(claims, x) || (x == held.content && held.destination != destination)
  {
    var c := Claim(held.content, destination);
    if held.destination == destination {
      assert claims + {c} == claims;
    } else if x == held.content {
      assert c in claims + {c} && held in claims + {c} && Differ(held, c, x);
    } else {
      assert forall a :: a in claims + {c} && a.content == x ==> a in claims;
      if Contested(claims, x) {
        ContestedStays(claims, c, x);
      }
    }
  }

  class Ledger {
    var owners: map<string, Owner>
    var conflicts: seq<Conflict>

    /** The ledger of the claims made so far. */
    ghost predicate Of(claims: set<Claim>)
      reads this
    {
      && Owned(claims, owners)
      && (forall c :: Reports(conflicts, c) <==> Contested(claims, c))
      && (forall x :: x in conflicts ==> x.held.destination != x.wanted.destination)
    }

    constructor ()
      ensures Of({}) && conflicts == []
    {
      owners, conflicts := map[], [];
    }

    /** The innermost body of exclusivityConflicts. */
    method Enter(c: Content, who: Owner, ghost claims: set<Claim>)
      requires Of(claims)
      modifies this
      ensures Of(claims + {Claim(c, who.destination)})
    {
      var key := KeyOf(c);
      OwnedGrows(claims, owners, c, who);
      forall x ensures Contested(claims + {Claim(c, who.destination)}, x) <==>
        Contested(claims, x) || (x == c && key in owners && owners[key].destination != who.destination)
      {
        ContestedGrows(claims, owners, c, who.destination, x);
      }
      if key !in owners {
        owners := owners[key := who];
      } else if owners[key].destination != who.destination {
        var conflict := Conflict(c, owners[key], who);
        forall x ensures Reports(conflicts + [conflict], x) <==> Reports(conflicts, x) || x == c {
          ReportGrows(conflicts, conflict, x);
        }
        conflicts := conflicts + [conflict];
      }
    }

    /** The loop over the seeds of one challenge. */
    method EnterSeeds(s: Schema, id: ChallengeId, destination: string, ghost claims: set<Claim>)
      requires Of(claims) && id in s.challenges
      modifies this
      ensures Of(claims + SeedClaims(s, id, s.challenges[id], destination))
    {
      var seeds := s.challenges[id];
      NoClaims(claims, s, id, destination);
      for k := 0 to |seeds|
        invariant Of(claims + SeedClaims(s, id, seeds[..k], destination))
      {
        SeedClaimsGrow(claims, s, id, seeds, k, destination);
        Enter(Content(id, seeds[k], s.format), Owner(destination, s.name),
              claims + SeedClaims(s, id, seeds[..k], destination));
      }
      assert seeds[..|seeds|] == seeds;
    }

    /** The loop over the challenges of one schema. */
    method EnterSchema(s: Schema, destination: string, ghost claims: set<Claim>)
      requires Of(claims)
      modifies this
      ensures Of(claims + ClaimsOf(s, destination))
    {
      var todo := s.challenges.Keys;
      NoClaims(claims, s, "", destination);
      while todo != {}
        invariant todo <= s.challenges.Keys && Of(claims + ClaimsBut(s, todo, destination))
        decreases todo
      {
        var id :| id in todo;
        ClaimsGrow(claims, s, todo, id, destination);
        EnterSeeds(s, id, destination, claims + ClaimsBut(s, todo, destination));
        todo := todo - {id};
      }
    }
  }

  ghost function SeedClaims(s: Schema, id: ChallengeId, seeds: seq<int>, destination: string): set<Claim> {
    set x | x in seeds :: Claim(Content(id, x, s.format), destination)
  }

  /** The claims of a schema, those for some of its challenges left out. */
  ghost function ClaimsBut(s: Schema, ids: set<ChallengeId>, destination: string): set<Claim> {
    set id, x | id in s.challenges && id !in ids && x in s.challenges[id]
      :: Claim(Content(id, x, s.format), destination)
  }

  ghost function ClaimsOf(s: Schema, destination: string): set<Claim> {
    ClaimsBut(s, {}, destination)
  }

  lemma NoClaims(claims: set<Claim>, s: Schema, id: ChallengeId, destination: string)
    ensures claims + SeedClaims(s, id, [], destination) == claims
    ensures claims + ClaimsBut(s, s.challenges.Keys, destination) == claims
  {
  }

  lemma SeedClaimsGrow(claims: set<Claim>, s: Schema, id: ChallengeId, seeds: seq<int>, k: nat, destination: string)
    requires k < |seeds|
    ensures claims + SeedClaims(s, id, seeds[..k + 1], destination)
         == (claims + SeedClaims(s, id, seeds[..k], destination))
            + {Claim(Content(id, seeds[k], s.format), destination)}
  {
    assert seeds[..k + 1] == seeds[..k] + [seeds[k]];
    assert SeedClaims(s, id, seeds[..k + 1], destination)
        == SeedClaims(s, id, seeds[..k], destination) + {Claim(Content(id, seeds[k], s.format), destination)};
  }

  lemma ClaimsGrow(claims: set<Claim>, s: Schema, todo: set<ChallengeId>, id: ChallengeId, destination: string)
    requires id in s.challenges && id in todo
    ensures claims + ClaimsBut(s, todo - {id}, destination)
         == (claims + ClaimsBut(s, todo, destination)) + SeedClaims(s, id, s.challenges[id], destination)
  {
    assert ClaimsBut(s, todo - {id}, destination)
        == ClaimsBut(s, todo, destination) + SeedClaims(s, id, s.challenges[id], destination);
  }

  ghost function SchemaClaims(schemas: seq<Schema>, destination: string): set<Claim> {
    if schemas == [] then {}
    else SchemaClaims(schemas[..|schemas| - 1], destination) + ClaimsOf(schemas[|schemas| - 1], destination)
  }

  ghost function AllClaims(routes: seq<Route>): set<Claim> {
    if routes == [] then {}
    else AllClaims(routes[..|routes| - 1]) + SchemaClaims(routes[|routes| - 1].schemas, routes[|routes| - 1].name)
  }

  method EnterRoute(ledger: Ledger, r: Route, ghost claims: set<Claim>)
    requires ledger.Of(claims)
    modifies ledger
    ensures ledger.Of(claims + SchemaClaims(r.schemas, r.name))
  {
    assert claims + {} == claims;
    for k := 0 to |r.schemas|
      invariant ledger.Of(claims + SchemaClaims(r.schemas[..k], r.name))
    {
      SchemaClaimsGrow(claims, r.schemas, k, r.name);
      ledger.EnterSchema(r.schemas[k], r.name, claims + SchemaClaims(r.schemas[..k], r.name));
    }
    assert r.schemas[..|r.schemas|] == r.schemas;
  }

  lemma SchemaClaimsGrow(claims: set<Claim>, schemas: seq<Schema>, k: nat, destination: string)
    requires k < |schemas|
    ensures claims + SchemaClaims(schemas[..k + 1], destination)
         == (claims + SchemaClaims(schemas[..k], destination)) + ClaimsOf(schemas[k], destination)
  {
    assert schemas[..k + 1][..k] == schemas[..k];
  }

  lemma AllClaimsGrow(routes: seq<Route>, k: nat)
    requires k < |routes|
    ensures AllClaims(routes[..k + 1]) == AllClaims(routes[..k]) + SchemaClaims(routes[k].schemas, routes[k].name)
  {
    assert routes[..k + 1][..k] == routes[..k];
  }

  lemma EmptyReport(conflicts: seq<Conflict>, claims: set<Claim>)
    requires forall c :: Reports(conflicts, c) <==> Contested(claims, c)
    ensures conflicts == [] <==> Exclusive(claims)
  {
    if conflicts != [] {
      assert conflicts[0] in conflicts && Reports(conflicts, conflicts[0].content);
    }
  }

  /** exclusivityConflicts. */
  method ExclusivityConflicts(routes: seq<Route>) returns (conflicts: seq<Conflict>)
    ensures forall c :: Reports(conflicts, c) <==> Contested(AllClaims(routes), c)
    ensures forall x :: x in conflicts ==> x.held.destination != x.wanted.destination
    ensures conflicts == [] <==> Exclusive(AllClaims(routes))
  {
    var ledger := new Ledger();
    for k := 0 to |routes|
      invariant fresh(ledger) && ledger.Of(AllClaims(routes[..k]))
    {
      AllClaimsGrow(routes, k);
      EnterRoute(ledger, routes[k], AllClaims(routes[..k]));
    }
    assert routes[..|routes|] == routes;
    conflicts := ledger.conflicts;
    EmptyReport(conflicts, AllClaims(routes));
  }

  lemma ClaimsOfAre(s: Schema, destination: string, c: Claim)
    ensures c in ClaimsOf(s, destination) <==> c.destination == destination && Names(s, c.content)
  {
    if c.destination == destination && Names(s, c.content) {
      assert c == Claim(Content(c.content.challenge, c.content.seed, s.format), destination);
    }
  }

  lemma {:induction false} SchemaClaimsAre(schemas: seq<Schema>, destination: string, c: Claim)
    ensures c in SchemaClaims(schemas, destination) <==>
              c.destination == destination && exists s :: s in schemas && Names(s, c.content)
  {
    if schemas != [] {
      var n := |schemas| - 1;
      SchemaClaimsAre(schemas[..n], destination, c);
      ClaimsOfAre(schemas[n], destination, c);
      assert schemas == schemas[..n] + [schemas[n]];
    }
  }

  /** The route names this content. */
  ghost predicate RouteNames(r: Route, c: Content) {
    exists s :: s in r.schemas && Names(s, c)
  }

  lemma {:induction false} AllClaimsAre(routes: seq<Route>, c: Claim)
    ensures c in AllClaims(routes) <==> exists r :: r in routes && r.name == c.destination && RouteNames(r, c.content)
  {
    if routes != [] {
      var n := |routes| - 1;
      AllClaimsAre(routes[..n], c);
      SchemaClaimsAre(routes[n].schemas, routes[n].name, c);
      assert routes == routes[..n] + [routes[n]];
    }
  }

  /** Two schemas of the run name the same content and go to different orchestrators. */
  ghost predicate SharedBy(d: Destinations, s: Schema, s': Schema, c: Content)
    requires OneToOne(d)
  {
    Names(s, c) && Names(s', c) && Resolve(d, s.destination) != Resolve(d, s'.destination)
  }

  ghost predicate Shared(d: Destinations, schemas: seq<Schema>, c: Content)
    requires OneToOne(d)
  {
    exists s, s' :: s in schemas && s' in schemas && SharedBy(d, s, s', c)
  }

  /** The claim a schema's route makes. */
  lemma SchemaIsClaimed(d: Destinations, schemas: seq<Schema>, routes: seq<Route>, s: Schema, c: Content)
    returns (name: string)
    requires OneToOne(d) && Routed(d, schemas, routes) && Resolves(d, schemas) && s in schemas && Names(s, c)
    ensures Claim(c, name) in AllClaims(routes) && name in d.byName && Some(d.byName[name]) == Resolve(d, s.destination)
  {
    var i := IndexOf(routes, Resolve(d, s.destination).value);
    var r := routes[i];
    assert RouteOk(d, schemas, r) && s in r.schemas;
    name := r.name;
    AllClaimsAre(routes, Claim(c, name));
    assert r in routes && RouteNames(r, c);
  }

  lemma ClaimHasSchema(d: Destinations, schemas: seq<Schema>, routes: seq<Route>, claim: Claim) returns (s: Schema)
    requires OneToOne(d) && Routed(d, schemas, routes) && claim in AllClaims(routes)
    ensures s in schemas && Names(s, claim.content) && claim.destination in d.byName
    ensures Resolve(d, s.destination) == Some(d.byName[claim.destination])
  {
    AllClaimsAre(routes, claim);
    var r :| r in routes && r.name == claim.destination && RouteNames(r, claim.content);
    var i :| 0 <= i < |routes| && routes[i] == r;
    assert RouteOk(d, schemas, routes[i]);
    s :| s in r.schemas && Names(s, claim.content);
  }

  /** Content by content: it is reported exactly when two schemas that resolve to
      different orchestrators name it. */
  lemma ContestedIsShared(d: Destinations, schemas: seq<Schema>, routes: seq<Route>, c: Content)
    requires OneToOne(d) && Routed(d, schemas, routes) && Resolves(d, schemas)
    ensures Contested(AllClaims(routes), c) <==> Shared(d, schemas, c)
  {
    if s, s' :| s in schemas && s' in schemas && SharedBy(d, s, s', c) {
      var n := SchemaIsClaimed(d, schemas, routes, s, c);
      var n' := SchemaIsClaimed(d, schemas, routes, s', c);
      assert Differ(Claim(c, n), Claim(c, n'), c);
    }
    if a, b :| a in AllClaims(routes) && b in AllClaims(routes) && Differ(a, b, c) {
      var s := ClaimHasSchema(d, schemas, routes, a);
      var s' := ClaimHasSchema(d, schemas, routes, b);
      assert SharedBy(d, s, s', c);
    }
  }

  /** The check is sound and complete: it reports nothing exactly when no challenge, seed
      and flag format is named by two schemas that resolve to different orchestrators. */
  lemma ExclusivityIsExact(d: Destinations, schemas: seq<Schema>, routes: seq<Route>)
    requires OneToOne(d) && Routed(d, schemas, routes) && Resolves(d, schemas)
    ensures Exclusive(AllClaims(routes)) <==> forall c :: !Shared(d, schemas, c)
  {
    forall c: Content ensures Contested(AllClaims(routes), c) <==> Shared(d, schemas, c) {
      ContestedIsShared(d, schemas, routes, c);
    }
  }

  /** Routes given by --server share one name, so they are never in conflict. */
  lemma ServersNeverConflict(schemas: seq<Schema>, servers: seq<string>)
    ensures Exclusive(AllClaims(ServerRoutes(schemas, servers)))
  {
    var routes := ServerRoutes(schemas, servers);
    forall a | a in AllClaims(routes) ensures a.destination == SERVER_ROUTE {
      AllClaimsAre(routes, a);
      var r :| r in routes && r.name == a.destination;
      var i :| 0 <= i < |routes| && routes[i] == r;
    }
  }

  /** Every schema of a routed run is in exactly one route. */
  lemma SchemaHasOneRoute(d: Destinations, schemas: seq<Schema>, routes: seq<Route>, s: Schema)
    requires OneToOne(d) && Routed(d, schemas, routes) && Resolves(d, schemas) && s in schemas
    ensures exists i :: 0 <= i < |routes| && s in routes[i].schemas
                && forall j :: 0 <= j < |routes| && s in routes[j].schemas ==> j == i
  {
    var i := IndexOf(routes, Resolve(d, s.destination).value);
    assert RouteOk(d, schemas, routes[i]);
    forall j | 0 <= j < |routes| && s in routes[j].schemas ensures j == i {
      assert RouteOk(d, schemas, routes[j]);
    }
  }
}
