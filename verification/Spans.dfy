/** HTML written inside markdown: pairing inline tags into spans, and splicing the
    converted spans back into the source. */
module Spans {
  import opened Naming
  import opened Text

  datatype Kind = Opening | Closing | SelfClosing

  datatype Tag = Tag(start: nat, end: nat, name: string, kind: Kind)

  /** A half-open range of bytes. */
  datatype Span = Span(start: nat, end: nat)

  predicate Before(a: Span, b: Span) {
    a.end <= b.start
  }

  predicate Inside(a: Span, b: Span) {
    b.start <= a.start && a.end <= b.end
  }

  predicate Apart(a: Span, b: Span) {
    Before(a, b) || Before(b, a)
  }

  /** Any two are nested or disjoint. */
  ghost predicate Laminar(spans: seq<Span>) {
    forall a, b :: a in spans && b in spans ==> Apart(a, b) || Inside(a, b) || Inside(b, a)
  }

  ghost predicate NonEmpty(spans: seq<Span>) {
    forall s :: s in spans ==> s.start < s.end
  }

  function SpanOf(t: Tag): Span {
    Span(t.start, t.end)
  }

  /** The tags of a document, none empty, in source order. */
  ghost predicate InOrder(tags: seq<Tag>) {
    && (forall i :: 0 <= i < |tags| ==> tags[i].start < tags[i].end)
    && (forall i, j :: 0 <= i < j < |tags| ==> tags[i].end <= tags[j].start)
  }

  // --------------------------------------------------------------------- pairing

  datatype Work = Work(spans: seq<Span>, stack: seq<Tag>)

  /** The topmost opener of that name. */
  function TopNamed(stack: seq<Tag>, name: string): (i: int)
    ensures -1 <= i < |stack|
    ensures i >= 0 ==> stack[i].name == name
    ensures forall j :: i < j < |stack| ==> stack[j].name != name
  {
    if stack == [] then -1
    else if stack[|stack| - 1].name == name then |stack| - 1
    else TopNamed(stack[..|stack| - 1], name)
  }

  function Feed(w: Work, t: Tag): Work {
    match t.kind
    case SelfClosing => w.(spans := w.spans + [SpanOf(t)])
    case Opening => w.(stack := w.stack + [t])
    case Closing =>
      var i := TopNamed(w.stack, t.name);
      if i < 0 then w.(spans := w.spans + [SpanOf(t)])
      else Work(w.spans + [Span(w.stack[i].start, t.end)], w.stack[..i])
  }

  function FeedAll(tags: seq<Tag>): Work {
    if tags == [] then Work([], []) else Feed(FeedAll(tags[..|tags| - 1]), tags[|tags| - 1])
  }

  function SpansOf(tags: seq<Tag>): (r: seq<Span>)
    ensures |r| == |tags| && forall i :: 0 <= i < |tags| ==> r[i] == SpanOf(tags[i])
  {
    seq(|tags|, i requires 0 <= i < |tags| => SpanOf(tags[i]))
  }

  /** The spans of a list of tags: what was paired, then the openers left over. */
  function Pairs(tags: seq<Tag>): seq<Span> {
    var w := FeedAll(tags);
    w.spans + SpansOf(w.stack)
  }

  /** pairInlineTags. */
  method PairInlineTags(tags: seq<Tag>) returns (spans: seq<Span>)
    ensures spans == Pairs(tags)
  {
    spans := [];
    var stack := [];
    for k := 0 to |tags|
      invariant Work(spans, stack) == FeedAll(tags[..k])
    {
      assert tags[..k + 1][..k] == tags[..k];
      var t := tags[k];
      match t.kind {
        case SelfClosing => spans := spans + [Span(t.start, t.end)];
        case Opening => stack := stack + [t];
        case Closing =>
          var matched := FindOpener(stack, t.name);
          if matched >= 0 {
            spans := spans + [Span(stack[matched].start, t.end)];
            stack := stack[..matched];
          } else {
            spans := spans + [Span(t.start, t.end)];
          }
      }
    }
    assert tags[..|tags|] == tags;
    spans := AppendOrphans(spans, stack);
  }

  method AppendOrphans(paired: seq<Span>, stack: seq<Tag>) returns (spans: seq<Span>)
    ensures spans == paired + SpansOf(stack)
  {
    spans := paired;
    for k := 0 to |stack|
      invariant spans == paired + SpansOf(stack)[..k]
    {
      spans := spans + [Span(stack[k].start, stack[k].end)];
    }
    assert SpansOf(stack)[..|stack|] == SpansOf(stack);
  }

  method FindOpener(stack: seq<Tag>, name: string) returns (matched: int)
    ensures matched == TopNamed(stack, name)
  {
    var i := |stack| - 1;
    while i >= 0
      invariant -1 <= i < |stack| && TopNamed(stack, name) == TopNamed(stack[..i + 1], name)
    {
      assert stack[..i + 1][..i] == stack[..i];
      if stack[i].name == name {
        return i;
      }
      i := i - 1;
    }
    return -1;
  }

  /** Where pairing stands once everything before `bound` is read: an opener still on
      the stack lies apart from every span, so none can contain it. */
  ghost predicate Good(w: Work, bound: nat) {
    && Laminar(w.spans) && NonEmpty(w.spans) && InOrder(w.stack)
    && (forall s :: s in w.spans ==> s.end <= bound)
    && (forall o :: o in w.stack ==> o.end <= bound)
    && (forall s, o :: s in w.spans && o in w.stack ==> Apart(s, SpanOf(o)))
  }

  lemma AddSpan(spans: seq<Span>, s: Span)
    requires Laminar(spans) && forall a :: a in spans ==> Before(a, s) || Inside(a, s)
    ensures Laminar(spans + [s])
  {
  }

  lemma CloseKeepsGood(w: Work, t: Tag, bound: nat, i: nat)
    requires Good(w, bound) && bound <= t.start < t.end && i < |w.stack|
    ensures Good(Work(w.spans + [Span(w.stack[i].start, t.end)], w.stack[..i]), t.end)
  {
    var o, s := w.stack[i], Span(w.stack[i].start, t.end);
    forall a | a in w.spans ensures Before(a, s) || Inside(a, s) {
      assert Apart(a, SpanOf(o));
    }
    AddSpan(w.spans, s);
    forall p | p in w.stack[..i] ensures Before(SpanOf(p), s) {
      var j :| 0 <= j < i && w.stack[j] == p;
    }
  }

  lemma FeedKeepsGood(w: Work, t: Tag, bound: nat)
    requires Good(w, bound) && bound <= t.start < t.end
    ensures Good(Feed(w, t), t.end)
  {
    if t.kind.Closing? && TopNamed(w.stack, t.name) >= 0 {
      CloseKeepsGood(w, t, bound, TopNamed(w.stack, t.name));
    } else if t.kind.Opening? {
      forall i | 0 <= i < |w.stack| ensures w.stack[i].end <= t.start {
        assert w.stack[i] in w.stack;
      }
    } else {
      AddSpan(w.spans, SpanOf(t));
    }
  }

  function LastEnd(tags: seq<Tag>): nat {
    if tags == [] then 0 else tags[|tags| - 1].end
  }

  lemma {:induction false} FeedAllIsGood(tags: seq<Tag>)
    requires InOrder(tags)
    ensures Good(FeedAll(tags), LastEnd(tags))
  {
    if tags != [] {
      var n := |tags| - 1;
      FeedAllIsGood(tags[..n]);
      FeedKeepsGood(FeedAll(tags[..n]), tags[n], LastEnd(tags[..n]));
    }
  }

  /** Unmatched openers and closers included, the spans of any source-ordered tags are
      nested or disjoint. */
  lemma PairsAreLaminar(tags: seq<Tag>)
    requires InOrder(tags)
    ensures Laminar(Pairs(tags)) && NonEmpty(Pairs(tags))
  {
    FeedAllIsGood(tags);
    var w := FeedAll(tags);
    LeftoversLieApart(w.stack);
    forall a, s | a in SpansOf(w.stack) && s in w.spans ensures Apart(s, a) {
      var i :| 0 <= i < |w.stack| && SpanOf(w.stack[i]) == a;
      assert w.stack[i] in w.stack;
    }
    LaminarTogether(w.spans, SpansOf(w.stack));
  }

  lemma LeftoversLieApart(stack: seq<Tag>)
    requires InOrder(stack)
    ensures Laminar(SpansOf(stack)) && NonEmpty(SpansOf(stack))
  {
    forall a, b | a in SpansOf(stack) && b in SpansOf(stack) ensures Apart(a, b) || Inside(a, b) {
      var i :| 0 <= i < |stack| && SpanOf(stack[i]) == a;
      var j :| 0 <= j < |stack| && SpanOf(stack[j]) == b;
    }
  }

  lemma LaminarTogether(spans: seq<Span>, left: seq<Span>)
    requires Laminar(spans) && Laminar(left) && NonEmpty(spans) && NonEmpty(left)
    requires forall a, s :: a in left && s in spans ==> Apart(s, a)
    ensures Laminar(spans + left) && NonEmpty(spans + left)
  {
    assert forall x :: x in spans + left <==> x in spans || x in left;
  }

  // ------------------------------------------------------------- nested elements

  /** Properly nested markup: void elements, and elements around further ones. */
  datatype Markup = Empty | Void(tag: Tag, next: Markup) | Element(open: Tag, inner: Markup, close: Tag, next: Markup)

  predicate Nested(m: Markup) {
    match m
    case Empty => true
    case Void(t, next) => t.kind.SelfClosing? && Nested(next)
    case Element(o, inner, c, next) =>
      o.kind.Opening? && c.kind.Closing? && o.name == c.name && Nested(inner) && Nested(next)
  }

  function TagsOf(m: Markup): seq<Tag> {
    match m
    case Empty => []
    case Void(t, next) => [t] + TagsOf(next)
    case Element(o, inner, c, next) => [o] + (TagsOf(inner) + ([c] + TagsOf(next)))
  }

  /** The extent of every element, each after the ones inside it. */
  function Extents(m: Markup): seq<Span> {
    match m
    case Empty => []
    case Void(t, next) => [SpanOf(t)] + Extents(next)
    case Element(o, inner, c, next) => Extents(inner) + ([Span(o.start, c.end)] + Extents(next))
  }

  function FeedFrom(w: Work, tags: seq<Tag>): Work
    decreases tags
  {
    if tags == [] then w else FeedFrom(Feed(w, tags[0]), tags[1..])
  }

  lemma {:induction false} FeedFromSplits(w: Work, a: seq<Tag>, b: seq<Tag>)
    ensures FeedFrom(w, a + b) == FeedFrom(FeedFrom(w, a), b)
    decreases |a|
  {
    if a == [] {
      assert a + b == b;
    } else {
      assert (a + b)[0] == a[0] && (a + b)[1..] == a[1..] + b;
      FeedFromSplits(Feed(w, a[0]), a[1..], b);
    }
  }

  lemma {:induction false} FeedAllIsFeedFrom(tags: seq<Tag>)
    ensures FeedAll(tags) == FeedFrom(Work([], []), tags)
  {
    if tags != [] {
      var n := |tags| - 1;
      FeedAllIsFeedFrom(tags[..n]);
      assert tags == tags[..n] + [tags[n]];
      FeedFromSplits(Work([], []), tags[..n], [tags[n]]);
      FeedOne(FeedAll(tags[..n]), tags[n]);
    }
  }

  lemma ClosesTheTop(w: Work, o: Tag, c: Tag)
    requires c.kind.Closing? && o.name == c.name
    ensures Feed(w.(stack := w.stack + [o]), c) == w.(spans := w.spans + [Span(o.start, c.end)])
  {
    assert (w.stack + [o])[..|w.stack|] == w.stack;
  }

  lemma {:induction false} NestedFeeds(w: Work, m: Markup)
    requires Nested(m)
    ensures FeedFrom(w, TagsOf(m)) == w.(spans := w.spans + Extents(m))
    decreases m
  {
    match m
    case Empty =>
      assert w.spans + [] == w.spans;
    case Void(t, next) =>
      var w' := Feed(w, t);
      FeedFromSplits(w, [t], TagsOf(next));
      FeedOne(w, t);
      NestedFeeds(w', next);
      Regrouped(w.spans, [], [SpanOf(t)], Extents(next));
    case Element(o, inner, c, next) =>
      var w' := w.(spans := w.spans + Extents(inner));
      NestedFeeds(w.(stack := w.stack + [o]), inner);
      NestedFeeds(w'.(spans := w'.spans + [Span(o.start, c.end)]), next);
      FeedElement(w, o, TagsOf(inner), c, TagsOf(next));
      ClosesTheTop(w', o, c);
      Regrouped(w.spans, Extents(inner), [Span(o.start, c.end)], Extents(next));
  }

  lemma Regrouped(a: seq<Span>, b: seq<Span>, c: seq<Span>, d: seq<Span>)
    ensures ((a + b) + c) + d == a + (b + (c + d))
  {
  }

  lemma FeedElement(w: Work, o: Tag, inner: seq<Tag>, c: Tag, next: seq<Tag>)
    ensures FeedFrom(w, [o] + (inner + ([c] + next))) == FeedFrom(Feed(FeedFrom(Feed(w, o), inner), c), next)
  {
    FeedFromSplits(w, [o], inner + ([c] + next));
    FeedFromSplits(Feed(w, o), inner, [c] + next);
    FeedFromSplits(FeedFrom(Feed(w, o), inner), [c], next);
    FeedOne(w, o);
    FeedOne(FeedFrom(Feed(w, o), inner), c);
  }

  lemma FeedOne(w: Work, t: Tag)
    ensures FeedFrom(w, [t]) == Feed(w, t)
  {
    assert FeedFrom(Feed(w, t), [t][1..]) == Feed(w, t);
  }

  /** On properly nested markup pairing yields exactly the extents of the elements. */
  lemma PairsAreTheElements(m: Markup)
    requires Nested(m)
    ensures Pairs(TagsOf(m)) == Extents(m)
  {
    FeedAllIsFeedFrom(TagsOf(m));
    NestedFeeds(Work([], []), m);
    assert [] + Extents(m) == Extents(m) && Extents(m) + [] == Extents(m);
  }

  // ---------------------------------------------------------------- html blocks

  /** A span runs from the start of one tag to the end of the same or a later one. */
  ghost predicate Endpoints(tags: seq<Tag>, s: Span) {
    exists i, j :: 0 <= i <= j < |tags| && s == Span(tags[i].start, tags[j].end)
  }

  ghost predicate FromTags(w: Work, tags: seq<Tag>) {
    && (forall s :: s in w.spans ==> Endpoints(tags, s))
    && (forall o :: o in w.stack ==> o in tags)
  }

  lemma EndpointsGrow(tags: seq<Tag>, t: Tag, s: Span)
    requires Endpoints(tags, s)
    ensures Endpoints(tags + [t], s)
  {
    var i, j :| 0 <= i <= j < |tags| && s == Span(tags[i].start, tags[j].end);
    assert (tags + [t])[i] == tags[i] && (tags + [t])[j] == tags[j];
  }

  lemma NewEndpoints(tags: seq<Tag>, o: Tag, t: Tag)
    requires o in tags + [t]
    ensures Endpoints(tags + [t], Span(o.start, t.end))
  {
    var all := tags + [t];
    var i :| 0 <= i < |all| && all[i] == o;
    assert all[|tags|] == t;
  }

  lemma {:induction false} FeedAllFromTags(tags: seq<Tag>)
    ensures FromTags(FeedAll(tags), tags)
  {
    if tags != [] {
      var n := |tags| - 1;
      assert tags == tags[..n] + [tags[n]];
      FeedAllFromTags(tags[..n]);
      FeedFromTags(FeedAll(tags[..n]), tags[..n], tags[n]);
    }
  }

  lemma FeedFromTags(w: Work, tags: seq<Tag>, t: Tag)
    requires FromTags(w, tags)
    ensures FromTags(Feed(w, t), tags + [t])
  {
    forall s | s in w.spans ensures Endpoints(tags + [t], s) {
      EndpointsGrow(tags, t, s);
    }
    NewEndpoints(tags, t, t);
    var i := TopNamed(w.stack, t.name);
    if i >= 0 {
      assert w.stack[i] in tags;
      NewEndpoints(tags, w.stack[i], t);
    }
  }

  lemma PairsFromTags(tags: seq<Tag>)
    ensures forall s :: s in Pairs(tags) ==> Endpoints(tags, s)
  {
    FeedAllFromTags(tags);
    var w := FeedAll(tags);
    forall s | s in SpansOf(w.stack) ensures Endpoints(tags, s) {
      var k :| 0 <= k < |w.stack| && SpanOf(w.stack[k]) == s;
      assert w.stack[k] in w.stack;
      var i :| 0 <= i < |tags| && tags[i] == w.stack[k];
    }
  }

  // -------------------------------------------------------- which openers survive

  /** A span made while reading: a pair of different tags, or one tag that opens nothing. */
  ghost predicate Made(tags: seq<Tag>, s: Span) {
    exists i, j :: 0 <= i <= j < |tags| && s == Span(tags[i].start, tags[j].end) && (i == j ==> !tags[i].kind.Opening?)
  }

  ghost predicate AllMade(w: Work, tags: seq<Tag>) {
    && (forall s :: s in w.spans ==> Made(tags, s))
    && (forall o :: o in w.stack ==> o in tags && o.kind.Opening?)
  }

  lemma MadeGrows(tags: seq<Tag>, t: Tag, s: Span)
    requires Made(tags, s)
    ensures Made(tags + [t], s)
  {
    var i, j :| 0 <= i <= j < |tags| && s == Span(tags[i].start, tags[j].end) && (i == j ==> !tags[i].kind.Opening?);
    assert (tags + [t])[i] == tags[i] && (tags + [t])[j] == tags[j];
  }

  lemma MadeNow(tags: seq<Tag>, o: Tag, t: Tag)
    requires !t.kind.Opening? && (o in tags || o == t)
    ensures Made(tags + [t], Span(o.start, t.end))
  {
    var all, n := tags + [t], |tags|;
    assert all[n] == t;
    if o in tags {
      var i :| 0 <= i < n && tags[i] == o;
      assert all[i] == o && Span(o.start, t.end) == Span(all[i].start, all[n].end);
    } else {
      assert Span(o.start, t.end) == Span(all[n].start, all[n].end);
    }
  }

  lemma FeedMakes(w: Work, tags: seq<Tag>, t: Tag)
    requires AllMade(w, tags)
    ensures AllMade(Feed(w, t), tags + [t])
  {
    forall s | s in w.spans ensures Made(tags + [t], s) {
      MadeGrows(tags, t, s);
    }
    if !t.kind.Opening? {
      MadeNow(tags, t, t);
      var i := TopNamed(w.stack, t.name);
      if i >= 0 {
        assert w.stack[i] in w.stack;
        MadeNow(tags, w.stack[i], t);
      }
    }
  }

  lemma {:induction false} FeedAllMakes(tags: seq<Tag>)
    ensures AllMade(FeedAll(tags), tags)
  {
    if tags != [] {
      var n := |tags| - 1;
      assert tags == tags[..n] + [tags[n]];
      FeedAllMakes(tags[..n]);
      FeedMakes(FeedAll(tags[..n]), tags[..n], tags[n]);
    }
  }

  /** No span made while reading is an opener's own. */
  lemma OpenerIsNotMade(tags: seq<Tag>, i: nat)
    requires InOrder(tags) && i < |tags| && tags[i].kind.Opening?
    ensures !Made(tags, SpanOf(tags[i]))
  {
    forall a, b | 0 <= a <= b < |tags| && SpanOf(tags[i]) == Span(tags[a].start, tags[b].end) ensures a == i && b == i {
    }
  }

  lemma LeftoverSpan(tags: seq<Tag>, stack: seq<Tag>, i: nat)
    requires InOrder(tags) && i < |tags| && forall o :: o in stack ==> o in tags
    ensures SpanOf(tags[i]) in SpansOf(stack) <==> tags[i] in stack
  {
    forall k | 0 <= k < |stack| && SpanOf(stack[k]) == SpanOf(tags[i]) ensures stack[k] == tags[i] {
      assert stack[k] in stack;
      var j :| 0 <= j < |tags| && tags[j] == stack[k];
      assert j == i;
    }
    forall k | 0 <= k < |stack| ensures SpansOf(stack)[k] == SpanOf(stack[k]) {
    }
  }

  /** An opener has a span of its own exactly when it is still on the stack at the end. */
  lemma OwnSpanIsLeftover(tags: seq<Tag>, i: nat)
    requires InOrder(tags) && i < |tags| && tags[i].kind.Opening?
    ensures SpanOf(tags[i]) in Pairs(tags) <==> tags[i] in FeedAll(tags).stack
  {
    FeedAllMakes(tags);
    OpenerIsNotMade(tags, i);
    LeftoverSpan(tags, FeedAll(tags).stack, i);
  }

  /** Closing tag j matches nothing, or an opener that came after tags[i]. */
  predicate Spares(tags: seq<Tag>, i: nat, j: nat)
    requires i < |tags| && j < |tags|
  {
    tags[j].kind.Closing? ==>
      var stack := FeedAll(tags[..j]).stack;
      var m := TopNamed(stack, tags[j].name);
      m < 0 || tags[i].start < stack[m].start
  }

  predicate AllSpare(tags: seq<Tag>, i: nat, k: nat)
    requires i < |tags| && k <= |tags|
  {
    k <= i + 1 || (AllSpare(tags, i, k - 1) && Spares(tags, i, k - 1))
  }

  lemma {:induction false} AllSpareIs(tags: seq<Tag>, i: nat, k: nat)
    requires i < |tags| && k <= |tags|
    ensures AllSpare(tags, i, k) <==> forall j :: i < j < k ==> Spares(tags, i, j)
  {
    if k > i + 1 {
      AllSpareIs(tags, i, k - 1);
    }
  }

  /** Cutting the stack at m keeps exactly the openers that came before the one there. */
  lemma CutKeepsEarlier(stack: seq<Tag>, m: nat, o: Tag)
    requires InOrder(stack) && m < |stack|
    ensures o in stack[..m] <==> o in stack && o.start < stack[m].start
  {
    if o in stack {
      var p :| 0 <= p < |stack| && stack[p] == o;
      assert p < m <==> o.start < stack[m].start;
      assert p < m ==> stack[..m][p] == o;
    }
    if o in stack[..m] {
      var p :| 0 <= p < m && stack[..m][p] == o;
      assert stack[p] == o;
    }
  }

  lemma SurvivesOne(w: Work, t: Tag, o: Tag)
    requires InOrder(w.stack) && o != t
    ensures o in Feed(w, t).stack <==> o in w.stack && (t.kind.Closing? ==>
              var m := TopNamed(w.stack, t.name); m < 0 || o.start < w.stack[m].start)
  {
    if t.kind.Closing? && TopNamed(w.stack, t.name) >= 0 {
      CutKeepsEarlier(w.stack, TopNamed(w.stack, t.name), o);
    }
  }

  lemma FeedsNext(tags: seq<Tag>, k: nat)
    requires k < |tags|
    ensures FeedAll(tags[..k + 1]) == Feed(FeedAll(tags[..k]), tags[k])
  {
    assert tags[..k + 1][..k] == tags[..k];
  }

  lemma JustPushed(tags: seq<Tag>, i: nat)
    requires i < |tags| && tags[i].kind.Opening?
    ensures tags[i] in FeedAll(tags[..i + 1]).stack
  {
    FeedsNext(tags, i);
  }

  lemma OneMoreTag(tags: seq<Tag>, i: nat, k: nat)
    requires InOrder(tags) && i < k < |tags|
    ensures tags[i] in FeedAll(tags[..k + 1]).stack <==> tags[i] in FeedAll(tags[..k]).stack && Spares(tags, i, k)
  {
    FeedsNext(tags, k);
    FeedAllIsGood(tags[..k]);
    SurvivesOne(FeedAll(tags[..k]), tags[k], tags[i]);
  }

  lemma {:induction false} OnTheStack(tags: seq<Tag>, i: nat, k: nat)
    requires InOrder(tags) && i < k <= |tags| && tags[i].kind.Opening?
    ensures tags[i] in FeedAll(tags[..k]).stack <==> AllSpare(tags, i, k)
    decreases k
  {
    if k == i + 1 {
      JustPushed(tags, i);
    } else {
      OnTheStack(tags, i, k - 1);
      OneMoreTag(tags, i, k - 1);
    }
  }

  /** An unmatched opener forms a span of its own exactly when no later closing tag
      matches it or an opener before it. */
  lemma OpenerHasItsOwnSpan(tags: seq<Tag>, i: nat)
    requires InOrder(tags) && i < |tags| && tags[i].kind.Opening?
    ensures SpanOf(tags[i]) in Pairs(tags) <==> forall j :: i < j < |tags| ==> Spares(tags, i, j)
  {
    OwnSpanIsLeftover(tags, i);
    OnTheStack(tags, i, |tags|);
    AllSpareIs(tags, i, |tags|);
    assert tags[..|tags|] == tags;
  }

  lemma SecondFromTop(b: Tag, i: Tag)
    requires i.name != b.name
    ensures TopNamed([b, i], b.name) == 0
  {
    assert [b, i][..1] == [b];
  }

  lemma OpenerInside(b: Tag, i: Tag, c: Tag)
    requires b.kind.Opening? && i.kind.Opening? && c.kind.Closing? && c.name == b.name && i.name != b.name
    ensures Pairs([b, i, c]) == [Span(b.start, c.end)]
  {
    var w2 := Work([], [b, i]);
    SecondFromTop(b, i);
    assert Feed(w2, c) == Work([Span(b.start, c.end)], []);
    assert [b, i, c][..2] == [b, i] && [b, i][..1] == [b] && [b][..0] == [];
    assert FeedAll([b]) == Work([], [b]);
    assert FeedAll([b, i]) == w2;
  }

  /** `<b><i></b>`: the opener inside is never matched, and has no span. */
  lemma DiscardedOpenerHasNone()
    ensures var tags := [Tag(0, 3, "b", Opening), Tag(3, 6, "i", Opening), Tag(6, 10, "b", Closing)];
            InOrder(tags) && Pairs(tags) == [Span(0, 10)]
  {
    assert "i"[0] != "b"[0];
    OpenerInside(Tag(0, 3, "b", Opening), Tag(3, 6, "i", Opening), Tag(6, 10, "b", Closing));
  }

  /** HTML blocks lie apart from one another and from every inline tag. */
  ghost predicate BlocksApart(blocks: seq<Span>, tags: seq<Tag>) {
    && NonEmpty(blocks)
    && (forall a, b :: a in blocks && b in blocks ==> a == b || Apart(a, b))
    && (forall b, i :: b in blocks && 0 <= i < |tags| ==> Apart(b, SpanOf(tags[i])))
  }

  lemma BlockVersusPair(b: Span, s: Span, tags: seq<Tag>)
    requires InOrder(tags) && Endpoints(tags, s) && b.start < b.end
    requires forall i :: 0 <= i < |tags| ==> Apart(b, SpanOf(tags[i]))
    ensures Apart(b, s) || Inside(b, s)
  {
    var i, j :| 0 <= i <= j < |tags| && s == Span(tags[i].start, tags[j].end);
    assert Apart(b, SpanOf(tags[i])) && Apart(b, SpanOf(tags[j]));
  }

  /** collectHTMLSpans: the blocks, then the pairs. */
  lemma DocumentIsLaminar(blocks: seq<Span>, tags: seq<Tag>)
    requires InOrder(tags) && BlocksApart(blocks, tags)
    ensures Laminar(blocks + Pairs(tags)) && NonEmpty(blocks + Pairs(tags))
  {
    PairsAreLaminar(tags);
    PairsFromTags(tags);
    forall b, s | b in blocks && s in Pairs(tags) ensures Apart(b, s) || Inside(b, s) {
      BlockVersusPair(b, s, tags);
    }
  }

  // -------------------------------------------------------------------- splicing

  /** No other span contains it. */
  ghost predicate Maximal(spans: seq<Span>, s: Span) {
    s in spans && forall a :: a in spans && Inside(s, a) ==> a == s
  }

  ghost predicate StartsAt(spans: seq<Span>, s: Span, pos: nat) {
    Maximal(spans, s) && s.start == pos
  }

  /** What the output is to be, by position: a maximal span is converted as a whole where
      it starts, every other byte is copied; one failed conversion fails it all. */
  ghost function Spliced(src: string, spans: seq<Span>, convert: string -> Option<string>, pos: nat): Option<string>
    requires NonEmpty(spans) && Fits(src, spans) && pos <= |src|
    decreases |src| - pos
  {
    if pos == |src| then Some("")
    else if exists s :: StartsAt(spans, s, pos) then
      var s :| StartsAt(spans, s, pos);
      Append(convert(src[s.start..s.end]), Spliced(src, spans, convert, s.end))
    else Append(Some([src[pos]]), Spliced(src, spans, convert, pos + 1))
  }

  function Append(a: Option<string>, b: Option<string>): Option<string> {
    if a.Some? && b.Some? then Some(a.value + b.value) else None
  }

  ghost predicate Fits(src: string, spans: seq<Span>) {
    forall s :: s in spans ==> s.end <= |src|
  }

  /** The order of the sort: by start, the longer first. */
  predicate Sooner(a: Span, b: Span) {
    a.start < b.start || (a.start == b.start && a.end >= b.end)
  }

  ghost predicate Sorted(spans: seq<Span>) {
    forall i, j :: 0 <= i < j < |spans| ==> Sooner(spans[i], spans[j])
  }

  lemma InsertedIsSorted(sorted: seq<Span>, s: Span, k: nat)
    requires Sorted(sorted) && k <= |sorted|
    requires k > 0 ==> Sooner(sorted[k - 1], s)
    requires forall i :: k <= i < |sorted| ==> Sooner(s, sorted[i])
    ensures Sorted(sorted[..k] + [s] + sorted[k..])
  {
    forall i | 0 <= i < k ensures Sooner(sorted[i], s) {
      assert i < k - 1 ==> Sooner(sorted[i], sorted[k - 1]);
    }
    var r := sorted[..k] + [s] + sorted[k..];
    forall i, j | 0 <= i < j < |r| ensures Sooner(r[i], r[j]) {
      var a, b := if i <= k then i else i - 1, if j <= k then j else j - 1;
      assert r[i] == if i == k then s else sorted[a];
      assert r[j] == if j == k then s else sorted[b];
    }
  }

  lemma InsertedIsPermutation(sorted: seq<Span>, s: Span, k: nat)
    requires k <= |sorted|
    ensures multiset(sorted[..k] + [s] + sorted[k..]) == multiset(sorted) + multiset{s}
  {
    assert sorted == sorted[..k] + sorted[k..];
  }

  method Insert(sorted: seq<Span>, s: Span) returns (r: seq<Span>)
    requires Sorted(sorted)
    ensures Sorted(r) && multiset(r) == multiset(sorted) + multiset{s}
  {
    var k := |sorted|;
    while k > 0 && !Sooner(sorted[k - 1], s)
      invariant 0 <= k <= |sorted|
      invariant forall i :: k <= i < |sorted| ==> Sooner(s, sorted[i])
    {
      k := k - 1;
    }
    InsertedIsSorted(sorted, s, k);
    InsertedIsPermutation(sorted, s, k);
    r := sorted[..k] + [s] + sorted[k..];
  }

  method Sort(spans: seq<Span>) returns (r: seq<Span>)
    ensures Sorted(r) && multiset(r) == multiset(spans)
  {
    r := [];
    for k := 0 to |spans|
      invariant Sorted(r) && multiset(r) == multiset(spans[..k])
    {
      assert spans[..k + 1] == spans[..k] + [spans[k]];
      r := Insert(r, spans[k]);
    }
    assert spans[..|spans|] == spans;
  }

  /** Everything up to here is settled: no span reaches over the cursor. */
  ghost predicate Boundary(spans: seq<Span>, cursor: nat) {
    forall s :: s in spans && s.start < cursor ==> s.end <= cursor
  }

  lemma {:induction false} CopiesRun(
    src: string, spans: seq<Span>, convert: string -> Option<string>, from: nat, until: nat)
    requires NonEmpty(spans) && Fits(src, spans) && from <= until <= |src|
    requires forall s :: s in spans ==> !(from <= s.start < until)
    ensures Spliced(src, spans, convert, from) == Append(Some(src[from..until]), Spliced(src, spans, convert, until))
    decreases until - from
  {
    if from == until {
      EmptyAppend(Spliced(src, spans, convert, until));
      assert src[from..until] == "";
    } else {
      CopiesRun(src, spans, convert, from + 1, until);
      assert !exists s :: StartsAt(spans, s, from);
      assert src[from..until] == [src[from]] + src[from + 1..until];
      AppendAssoc(Some([src[from]]), Some(src[from + 1..until]), Spliced(src, spans, convert, until));
    }
  }

  lemma EmptyAppend(a: Option<string>)
    ensures Append(Some(""), a) == a
  {
    assert a.Some? ==> "" + a.value == a.value;
  }

  lemma AppendAssoc(a: Option<string>, b: Option<string>, c: Option<string>)
    ensures Append(Append(a, b), c) == Append(a, Append(b, c))
  {
    if a.Some? && b.Some? && c.Some? {
      assert (a.value + b.value) + c.value == a.value + (b.value + c.value);
    }
  }

  lemma ConvertsMaximal(src: string, spans: seq<Span>, convert: string -> Option<string>, s: Span)
    requires NonEmpty(spans) && Fits(src, spans) && Laminar(spans) && Maximal(spans, s)
    ensures Spliced(src, spans, convert, s.start)
         == Append(convert(src[s.start..s.end]), Spliced(src, spans, convert, s.end))
  {
    assert StartsAt(spans, s, s.start);
    forall a | StartsAt(spans, a, s.start) ensures a == s {
      assert Inside(a, s) || Inside(s, a);
    }
  }

  /** The next span the cursor has not passed is maximal, and nothing starts before it. */
  lemma NextIsMaximal(spans: seq<Span>, sorted: seq<Span>, k: nat, cursor: nat)
    requires Laminar(spans) && NonEmpty(spans) && Sorted(sorted) && k < |sorted| && Boundary(spans, cursor)
    requires forall s :: s in spans <==> s in sorted
    requires forall i :: 0 <= i < k ==> sorted[i].start < cursor
    requires sorted[k].start >= cursor
    ensures Maximal(spans, sorted[k])
    ensures forall s :: s in spans ==> !(cursor <= s.start < sorted[k].start)
    ensures Boundary(spans, sorted[k].end)
  {
    var sp := sorted[k];
    assert sp in sorted;
    forall s | s in spans && s.start >= cursor ensures Sooner(sp, s) {
      var i :| 0 <= i < |sorted| && sorted[i] == s;
      assert i >= k;
    }
  }

  /** The loop of parseMarkdown. */
  method Splice(src: string, spans: seq<Span>, convert: string -> Option<string>) returns (out: Option<string>)
    requires Laminar(spans) && NonEmpty(spans) && Fits(src, spans)
    ensures out == Spliced(src, spans, convert, 0)
  {
    var sorted := Sort(spans);
    SameMembers(spans, sorted);
    var text, cursor: nat := "", 0;
    ghost var goal := Spliced(src, spans, convert, 0);
    EmptyAppend(goal);
    for k := 0 to |sorted|
      invariant cursor <= |src| && Boundary(spans, cursor)
      invariant forall i :: 0 <= i < k ==> sorted[i].start < cursor
      invariant goal == Append(Some(text), Spliced(src, spans, convert, cursor))
    {
      var sp := sorted[k];
      assert sp in sorted;
      if sp.start < cursor {
        continue;
      }
      NextIsMaximal(spans, sorted, k, cursor);
      CopiesRun(src, spans, convert, cursor, sp.start);
      ConvertsMaximal(src, spans, convert, sp);
      ghost var rest := Spliced(src, spans, convert, sp.end);
      var converted := convert(src[sp.start..sp.end]);
      Chunks(text, src[cursor..sp.start], converted, rest);
      if converted.None? {
        return None;
      }
      text := text + src[cursor..sp.start] + converted.value;
      cursor := sp.end;
    }
    forall s | s in spans ensures s.start < cursor {
      assert s in sorted;
    }
    CopiesRun(src, spans, convert, cursor, |src|);
    AppendAssoc(Some(text), Some(src[cursor..]), Some(""));
    assert src[cursor..|src|] == src[cursor..] && src[cursor..] + "" == src[cursor..];
    return Some(text + src[cursor..]);
  }

  lemma Chunks(text: string, copied: string, converted: Option<string>, rest: Option<string>)
    ensures Append(Some(text), Append(Some(copied), Append(converted, rest)))
         == if converted.None? then None else Append(Some(text + copied + converted.value), rest)
  {
    AppendAssoc(Some(copied), converted, rest);
    AppendAssoc(Some(text), Append(Some(copied), converted), rest);
    if converted.Some? {
      assert text + (copied + converted.value) == text + copied + converted.value;
    }
  }

  lemma SameMembers(a: seq<Span>, b: seq<Span>)
    requires multiset(a) == multiset(b)
    ensures forall s :: s in a <==> s in b
  {
    forall s ensures s in a <==> s in b {
      assert s in a <==> s in multiset(a);
      assert s in b <==> s in multiset(b);
    }
  }

  /** parseMarkdown on a document: its blocks and inline tags together. */
  method ParseMarkdown(src: string, blocks: seq<Span>, tags: seq<Tag>, convert: string -> Option<string>)
    returns (out: Option<string>)
    requires InOrder(tags) && BlocksApart(blocks, tags) && Fits(src, blocks + Pairs(tags))
    ensures NonEmpty(blocks + Pairs(tags)) && out == Outer(Spliced(src, blocks + Pairs(tags), convert, 0))
  {
    var pairs := PairInlineTags(tags);
    DocumentIsLaminar(blocks, tags);
    out := Splice(src, blocks + pairs, convert);
    if out.Some? {
      out := Some(TrimSpace(out.value));
    }
  }

  /** The outer trim of the result. */
  function Outer(out: Option<string>): Option<string> {
    if out.Some? then Some(TrimSpace(out.value)) else None
  }

  /** Text without HTML passes through unchanged but for the white space around it. */
  lemma PlainTextIsKept(src: string, convert: string -> Option<string>)
    ensures Outer(Spliced(src, [], convert, 0)) == Some(TrimSpace(src))
    ensures IsTrimmed(src, src) ==> Outer(Spliced(src, [], convert, 0)) == Some(src)
  {
    CopiesRun(src, [], convert, 0, |src|);
    assert src[0..|src|] == src && src + "" == src;
    if IsTrimmed(src, src) {
      TrimmedIsUnique(src, src, TrimSpace(src));
    }
  }
}
