/** Pinning base images: finding the FROM instructions of a Dockerfile and rewriting
    their references to digests. Lines are sequences of code points. */
module BasePins {
  import opened Naming
  import opened Text

  // ------------------------------------------------------------------ characters

  /** \s of the regular expressions. */
  predicate IsSpace(c: char) {
    c == ' ' || c == '\t' || c == '\n' || c == '\r' || c == '\U{0C}'
  }

  predicate AllSpace(s: string) {
    forall c :: c in s ==> IsSpace(c)
  }

  predicate AllSolid(s: string) {
    forall c :: c in s ==> !IsSpace(c)
  }

  /** How many leading characters are white space. */
  function Spaces(s: string): (n: nat)
    ensures n <= |s| && AllSpace(s[..n]) && (n < |s| ==> !IsSpace(s[n]))
  {
    if s == "" || !IsSpace(s[0]) then 0
    else
      assert s[..1 + Spaces(s[1..])] == [s[0]] + s[1..][..Spaces(s[1..])];
      1 + Spaces(s[1..])
  }

  /** How many are not. */
  function Solids(s: string): (n: nat)
    ensures n <= |s| && AllSolid(s[..n]) && (n < |s| ==> IsSpace(s[n]))
    ensures s != "" && !IsSpace(s[0]) ==> n > 0
  {
    if s == "" || IsSpace(s[0]) then 0
    else
      assert s[..1 + Solids(s[1..])] == [s[0]] + s[1..][..Solids(s[1..])];
      1 + Solids(s[1..])
  }

  // ----------------------------------------------------------------------- lines

  /** A line taken apart at its white space. */
  datatype Line = End(tail: string) | Word(gap: string, word: string, more: Line)

  function Render(l: Line): string {
    match l
    case End(tail) => tail
    case Word(gap, word, more) => (gap + word) + Render(more)
  }

  predicate Canonical(l: Line, first: bool) {
    match l
    case End(tail) => AllSpace(tail)
    case Word(gap, word, more) =>
      AllSpace(gap) && (gap == "" ==> first) && AllSolid(word) && word != "" && Canonical(more, false)
  }

  function Lex(s: string): Line
    decreases |s|
  {
    var a := Spaces(s);
    if a == |s| then End(s)
    else
      var w := Solids(s[a..]);
      Word(s[..a], s[a..][..w], Lex(s[a..][w..]))
  }

  lemma {:induction false} LexIsCanonical(s: string, first: bool)
    requires s != "" && !first ==> IsSpace(s[0])
    ensures Canonical(Lex(s), first) && Render(Lex(s)) == s
    decreases |s|
  {
    var a := Spaces(s);
    if a == |s| {
      assert s[..a] == s;
    } else {
      var t := s[a..];
      var w := Solids(t);
      LexIsCanonical(t[w..], false);
      ThreeParts(s, a, w);
      assert s[0] == t[0] || a > 0;
    }
  }

  lemma ThreeParts(s: string, a: nat, w: nat)
    requires a + w <= |s|
    ensures (s[..a] + s[a..][..w]) + s[a..][w..] == s
  {
  }

  lemma GapIsUnique(g: string, x: string, g': string, x': string)
    requires AllSpace(g) && AllSpace(g') && g + x == g' + x'
    requires (x != "" ==> !IsSpace(x[0])) && (x' != "" ==> !IsSpace(x'[0]))
    ensures g == g' && x == x'
  {
    SplitsAlike(g, x, g', x', true);
  }

  lemma WordIsUnique(w: string, x: string, w': string, x': string)
    requires AllSolid(w) && AllSolid(w') && w + x == w' + x'
    requires (x != "" ==> IsSpace(x[0])) && (x' != "" ==> IsSpace(x'[0]))
    ensures w == w' && x == x'
  {
    SplitsAlike(w, x, w', x', false);
  }

  lemma SplitsAlike(a: string, x: string, a': string, x': string, space: bool)
    requires (forall c :: c in a ==> IsSpace(c) == space) && (forall c :: c in a' ==> IsSpace(c) == space)
    requires (x != "" ==> IsSpace(x[0]) != space) && (x' != "" ==> IsSpace(x'[0]) != space)
    requires a + x == a' + x'
    ensures a == a' && x == x'
  {
    NoShorter(a, x, a', x', space);
    NoShorter(a', x', a, x, space);
    var s := a + x;
    assert a == s[..|a|] && a' == s[..|a'|];
    assert x == s[|a|..] && x' == s[|a'|..];
  }

  lemma NoShorter(a: string, x: string, a': string, x': string, space: bool)
    requires a + x == a' + x'
    requires (forall c :: c in a' ==> IsSpace(c) == space) && (x != "" ==> IsSpace(x[0]) != space)
    ensures |a'| <= |a|
  {
    var s := a + x;
    forall k | 0 <= k < |a'| ensures IsSpace(s[k]) == space {
      assert s[k] == a'[k] && a'[k] in a';
    }
    assert |a| < |s| ==> s[|a|] == x[0];
    assert |a'| <= |s|;
  }

  /** The inner part of a line is empty or begins with white space. */
  lemma InnerStarts(l: Line)
    requires Canonical(l, false)
    ensures Render(l) != "" ==> IsSpace(Render(l)[0])
  {
    if l.Word? {
      assert Render(l)[0] == l.gap[0] && l.gap[0] in l.gap;
    } else if l.tail != "" {
      assert l.tail[0] in l.tail;
    }
  }

  lemma Unfolds(l: Line)
    requires l.Word? && l.word != "" && AllSolid(l.word)
    ensures Render(l) == l.gap + (l.word + Render(l.more)) && l.word + Render(l.more) != ""
    ensures !IsSpace((l.word + Render(l.more))[0])
  {
    assert (l.word + Render(l.more))[0] == l.word[0] && l.word[0] in l.word;
  }

  /** A line is taken apart in one way only. */
  lemma {:induction false} LinesAreUnique(a: Line, b: Line, first: bool)
    requires Canonical(a, first) && Canonical(b, first) && Render(a) == Render(b)
    ensures a == b
    decreases a
  {
    if a.Word? && b.Word? {
      Unfolds(a);
      Unfolds(b);
      GapIsUnique(a.gap, a.word + Render(a.more), b.gap, b.word + Render(b.more));
      InnerStarts(a.more);
      InnerStarts(b.more);
      WordIsUnique(a.word, Render(a.more), b.word, Render(b.more));
      LinesAreUnique(a.more, b.more, false);
    } else if a.Word? {
      HasSolid(a, b.tail);
    } else if b.Word? {
      HasSolid(b, a.tail);
    }
  }

  lemma HasSolid(l: Line, tail: string)
    requires l.Word? && l.word != "" && AllSolid(l.word) && AllSpace(tail)
    ensures Render(l) != tail
  {
    var i := |l.gap|;
    assert Render(l)[i] == l.word[0] && l.word[0] in l.word;
    assert Render(l)[i] in Render(l);
  }

  lemma LexOfRender(l: Line)
    requires Canonical(l, true)
    ensures Lex(Render(l)) == l
  {
    LexIsCanonical(Render(l), true);
    LinesAreUnique(Lex(Render(l)), l, true);
  }

  // ------------------------------------------------------------ FROM instructions

  predicate IsFrom(w: string) {
    |w| == 4 && w[0] in "fF" && w[1] in "rR" && w[2] in "oO" && w[3] in "mM"
  }

  /** The long s folds onto s. */
  predicate IsAs(w: string) {
    |w| == 2 && w[0] in "aA" && (w[1] in "sS" || w[1] == '\U{017F}')
  }

  /** --x, a flag token; a bare -- is not one. */
  predicate FlagLike(w: string) {
    |w| >= 3 && w[0] == '-' && w[1] == '-'
  }

  /** From the gap after FROM on: the flags are as many leading tokens as leave one for
      the reference, and this is the line from the reference on. */
  function Reference(l: Line): (r: Option<Line>)
    ensures r.Some? ==> r.value.Word?
  {
    match l
    case End(_) => None
    case Word(_, w, more) => if FlagLike(w) && more.Word? then Reference(more) else Some(l)
  }

  /** fromLineRe: the line from the reference on. */
  function FromLine(s: string): Option<Line> {
    match Lex(s)
    case End(_) => None
    case Word(_, kw, more) => if IsFrom(kw) then Reference(more) else None
  }

  /** asClauseRe on what follows the reference. */
  function Alias(rest: Line): Option<string> {
    match rest
    case Word(_, kw, Word(_, name, End(_))) => if IsAs(kw) then Some(name) else None
    case _ => None
  }

  /** The line with another reference in the same place. */
  function ReplaceIn(l: Line, ref: string): Line {
    match l
    case End(_) => l
    case Word(g, w, more) => if FlagLike(w) && more.Word? then Word(g, w, ReplaceIn(more, ref)) else Word(g, ref, more)
  }

  function Replace(s: string, ref: string): string {
    match Lex(s)
    case End(_) => s
    case Word(g, kw, more) => (g + kw) + Render(ReplaceIn(more, ref))
  }

  /** The text before the reference. */
  function BeforeIn(l: Line): string {
    match l
    case End(_) => ""
    case Word(g, w, more) => if FlagLike(w) && more.Word? then (g + w) + BeforeIn(more) else g
  }

  /** fromLineRe's prefix and flags. */
  function Head(s: string): string {
    match Lex(s)
    case End(_) => ""
    case Word(g, kw, more) => (g + kw) + BeforeIn(more)
  }

  function Spelled(head: string, ref: string, rest: string): string {
    head + (ref + rest)
  }

  lemma {:induction false} ReplaceInSpelled(l: Line, ref: string)
    requires Reference(l).Some?
    ensures Render(ReplaceIn(l, ref)) == Spelled(BeforeIn(l), ref, Render(Reference(l).value.more))
    decreases l
  {
    if FlagLike(l.word) && l.more.Word? {
      ReplaceInSpelled(l.more, ref);
      Regroup(l.gap + l.word, BeforeIn(l.more), ref + Render(Reference(l).value.more));
    } else {
      Regroup(l.gap, ref, Render(l.more));
    }
  }

  lemma Regroup(a: string, b: string, c: string)
    ensures (a + b) + c == a + (b + c)
  {
  }

  /** The pieces of a FROM line, put together again around any reference. */
  lemma ReplaceSpelled(s: string, ref: string)
    requires FromLine(s).Some?
    ensures Replace(s, ref) == Spelled(Head(s), ref, Render(FromLine(s).value.more))
    ensures s == Spelled(Head(s), FromLine(s).value.word, Render(FromLine(s).value.more))
  {
    LexIsCanonical(s, true);
    var l := Lex(s);
    var from, rest := FromLine(s).value, Render(FromLine(s).value.more);
    ReplaceInSpelled(l.more, ref);
    ReplaceInSpelled(l.more, from.word);
    ReplaceInSame(l.more);
    Regroup(l.gap + l.word, BeforeIn(l.more), ref + rest);
    Regroup(l.gap + l.word, BeforeIn(l.more), from.word + rest);
  }

  /** Neither white space, nor what heredocs and continuations are made of. */
  predicate Plain(s: string) {
    AllSolid(s) && '<' !in s && '\\' !in s
  }

  predicate Solid(s: string) {
    s != "" && AllSolid(s)
  }

  lemma {:induction false} ReplaceInKeeps(l: Line, ref: string)
    requires Canonical(l, false) && Solid(ref) && ref[0] != '-' && Reference(l).Some?
    ensures var l' := ReplaceIn(l, ref);
            && Canonical(l', false) && l'.Word? == l.Word?
            && Reference(l') == Some(Reference(l).value.(word := ref))
    decreases l
  {
    if FlagLike(l.word) && l.more.Word? {
      ReplaceInKeeps(l.more, ref);
    }
  }

  /** Replacing the reference of a FROM line leaves its keyword, flags and what follows
      as they are, and puts the new reference where the old one was. */
  lemma ReplaceChangesOnlyTheReference(s: string, ref: string)
    requires FromLine(s).Some? && Solid(ref) && ref[0] != '-'
    ensures FromLine(Replace(s, ref)) == Some(FromLine(s).value.(word := ref))
    ensures Lex(Replace(s, ref)) == Lex(s).(more := ReplaceIn(Lex(s).more, ref))
  {
    LexIsCanonical(s, true);
    var l := Lex(s);
    ReplaceInKeeps(l.more, ref);
    LexOfRender(l.(more := ReplaceIn(l.more, ref)));
  }

  /** Putting the same reference back changes nothing. */
  lemma {:induction false} ReplaceInSame(l: Line)
    requires Reference(l).Some?
    ensures ReplaceIn(l, Reference(l).value.word) == l
    decreases l
  {
    if FlagLike(l.word) && l.more.Word? {
      ReplaceInSame(l.more);
    }
  }

  // --------------------------------------------------- heredocs and continuations

  predicate HasMarker(s: string) {
    exists i :: 0 <= i < |s| - 1 && s[i] == '<' && s[i + 1] == '<'
  }

  /** strings.TrimRight(s, " \\t\\r"). */
  function TrimRight(s: string): string {
    if s != "" && Trims(s[|s| - 1]) then TrimRight(s[..|s| - 1]) else s
  }

  predicate Trims(c: char) {
    c == ' ' || c == '\t' || c == '\r'
  }

  predicate EndsIn(s: string, c: char) {
    s != "" && s[|s| - 1] == c
  }

  predicate Continued(s: string) {
    EndsIn(TrimRight(s), '\\')
  }

  function DropBackslash(s: string): string {
    if EndsIn(s, '\\') then s[..|s| - 1] else s
  }

  predicate Refused(s: string) {
    HasMarker(s) || EndsIn(DropBackslash(TrimRight(s)), '<')
  }

  /** Blank or a comment. */
  predicate Skipped(s: string) {
    s == "" || s[0] == '#' || (IsUnicodeSpace(s[0]) && Skipped(s[1..]))
  }

  lemma MarkerSplits(x: string, y: string)
    requires y != "" ==> IsSpace(y[0])
    ensures HasMarker(x + y) <==> HasMarker(x) || HasMarker(y)
  {
    var s := x + y;
    assert y != "" ==> s[|x|] == y[0];
    if HasMarker(s) {
      var i :| 0 <= i < |s| - 1 && s[i] == '<' && s[i + 1] == '<';
      if i + 1 < |x| {
        assert x[i] == '<' && x[i + 1] == '<';
      } else {
        assert s[i] == y[i - |x|] && s[i + 1] == y[i - |x| + 1];
      }
    }
    if HasMarker(x) {
      var i :| 0 <= i < |x| - 1 && x[i] == '<' && x[i + 1] == '<';
      assert s[i] == '<' && s[i + 1] == '<';
    }
    if HasMarker(y) {
      var i :| 0 <= i < |y| - 1 && y[i] == '<' && y[i + 1] == '<';
      assert s[|x| + i] == '<' && s[|x| + i + 1] == '<';
    }
  }

  lemma {:induction false} TrimSplits(x: string, y: string)
    ensures TrimRight(x + y) == if TrimRight(y) == "" then TrimRight(x) else x + TrimRight(y)
    decreases |y|
  {
    if y == "" {
      assert x + y == x;
    } else {
      assert (x + y)[..|x + y| - 1] == x + y[..|y| - 1] && (x + y)[|x + y| - 1] == y[|y| - 1];
      if Trims(y[|y| - 1]) {
        TrimSplits(x, y[..|y| - 1]);
      }
    }
  }

  /** What decides a line's fate besides its instruction. */
  datatype Fate = Fate(marker: bool, open: bool, continued: bool)

  function FateOf(s: string): Fate {
    Fate(HasMarker(s), EndsIn(DropBackslash(TrimRight(s)), '<'), Continued(s))
  }

  /** It is decided by the last part that is not blank. */
  lemma FateSplits(x: string, y: string)
    requires y != "" ==> IsSpace(y[0])
    ensures FateOf(x + y).marker == (HasMarker(x) || HasMarker(y))
    ensures TrimRight(y) == "" ==> FateOf(x + y).open == FateOf(x).open && Continued(x + y) == Continued(x)
    ensures TrimRight(y) != "" ==> FateOf(x + y).open == FateOf(y).open && Continued(x + y) == Continued(y)
  {
    MarkerSplits(x, y);
    TrimSplits(x, y);
    if TrimRight(y) != "" {
      TrimIsPrefix(y);
      EndingSplits(x, TrimRight(y));
    }
  }

  lemma EndingSplits(x: string, t: string)
    requires t != "" && t[0] != '\\'
    ensures EndsIn(x + t, '\\') == EndsIn(t, '\\')
    ensures EndsIn(DropBackslash(x + t), '<') == EndsIn(DropBackslash(t), '<')
  {
    assert (x + t)[|x + t| - 1] == t[|t| - 1];
    assert |t| > 1 ==> (x + t)[..|x + t| - 1] == x + t[..|t| - 1];
  }

  lemma {:induction false} TrimIsPrefix(s: string)
    ensures TrimRight(s) <= s
    decreases |s|
  {
    if TrimRight(s) != s {
      TrimIsPrefix(s[..|s| - 1]);
    }
  }

  lemma PlainEnd(gap: string, w: string)
    requires AllSpace(gap) && w != "" && Plain(w)
    ensures FateOf(gap + w) == Fate(false, false, false) && TrimRight(gap + w) != ""
  {
    var s := gap + w;
    assert s[|s| - 1] == w[|w| - 1] && w[|w| - 1] in w;
    forall i | 0 <= i < |s| ensures s[i] != '<' {
      assert s[i] == if i < |gap| then gap[i] else w[i - |gap|];
      assert i < |gap| ==> gap[i] in gap;
      assert i >= |gap| ==> w[i - |gap|] in w;
    }
  }

  lemma {:induction false} ReplaceInKeepsFate(l: Line, ref: string)
    requires Canonical(l, false) && Reference(l).Some? && Plain(Reference(l).value.word) && ref != "" && Plain(ref)
    ensures var l' := ReplaceIn(l, ref);
            && FateOf(Render(l')) == FateOf(Render(l))
            && TrimRight(Render(l)) != "" && TrimRight(Render(l')) != ""
            && Render(l) != "" && IsSpace(Render(l)[0]) && Render(l') != "" && IsSpace(Render(l')[0])
    decreases l
  {
    var x, rest := l.gap + l.word, Render(l.more);
    StartsWithGap(l.gap, l.word, rest);
    if FlagLike(l.word) && l.more.Word? {
      var rest' := Render(ReplaceIn(l.more, ref));
      ReplaceInKeepsFate(l.more, ref);
      StartsWithGap(l.gap, l.word, rest');
      FateSplits(x, rest);
      FateSplits(x, rest');
      TrimSplits(x, rest);
      TrimSplits(x, rest');
    } else {
      InnerStarts(l.more);
      StartsWithGap(l.gap, ref, rest);
      PlainEnd(l.gap, l.word);
      PlainEnd(l.gap, ref);
      FateSplits(x, rest);
      FateSplits(l.gap + ref, rest);
      TrimSplits(x, rest);
      TrimSplits(l.gap + ref, rest);
    }
  }

  lemma StartsWithGap(gap: string, w: string, rest: string)
    requires gap != "" && AllSpace(gap)
    ensures var s := (gap + w) + rest; s != "" && IsSpace(s[0])
  {
    assert ((gap + w) + rest)[0] == gap[0] && gap[0] in gap;
  }

  /** ... nor does it change whether a line is refused or continued. */
  lemma ReplaceKeepsFate(s: string, ref: string)
    requires FromLine(s).Some? && Plain(FromLine(s).value.word) && ref != "" && Plain(ref)
    ensures FateOf(Replace(s, ref)) == FateOf(s)
  {
    LexIsCanonical(s, true);
    var l := Lex(s);
    ReplaceInKeepsFate(l.more, ref);
    FateSplits(l.gap + l.word, Render(l.more));
    FateSplits(l.gap + l.word, Render(ReplaceIn(l.more, ref)));
  }

  lemma {:induction false} NotSkipped(gap: string, rest: string)
    requires AllSpace(gap) && rest != "" && rest[0] in "fF"
    ensures !Skipped(gap + rest)
    decreases |gap|
  {
    if gap == "" {
      assert gap + rest == rest;
    } else {
      assert (gap + rest)[0] == gap[0] && gap[0] in gap;
      assert (gap + rest)[1..] == gap[1..] + rest;
      NotSkipped(gap[1..], rest);
    }
  }

  lemma FromIsNotSkipped(s: string)
    requires FromLine(s).Some?
    ensures !Skipped(s)
  {
    LexIsCanonical(s, true);
    var l := Lex(s);
    Unfolds(l);
    assert (l.word + Render(l.more))[0] == l.word[0];
    NotSkipped(l.gap, l.word + Render(l.more));
  }

  // ------------------------------------------------------------------------ scan

  /** refRe. */
  predicate RefStart(c: char) {
    'A' <= c <= 'Z' || 'a' <= c <= 'z' || '0' <= c <= '9'
  }

  predicate RefShaped(ref: string) {
    ref != "" && RefStart(ref[0]) && forall c :: c in ref ==> RefStart(c) || c in "._:/@-"
  }

  function Lowered(s: string, lower: char -> char): string {
    seq(|s|, i requires 0 <= i < |s| => lower(s[i]))
  }

  predicate IsScratch(ref: string) {
    && |ref| == 7 && ref[0] in "sS" && ref[1] in "cC" && ref[2] in "rR" && ref[3] in "aA" && ref[4] in "tT"
    && ref[5] in "cC" && ref[6] in "hH"
  }

  /** An outside image on a tag that may move: not a stage, not scratch, not pinned, not
      from a build argument. `lower` is strings.ToLower on a code point. */
  predicate External(stages: set<string>, ref: string, lower: char -> char) {
    Lowered(ref, lower) !in stages && !IsScratch(ref) && '@' !in ref && '$' !in ref && RefShaped(ref)
  }

  /** baseRef: `line` is -1 for an instruction that spans a continuation. */
  datatype BaseRef = BaseRef(line: int, head: string, ref: string, rest: string)

  datatype Scan = Scan(stages: set<string>, continued: bool, found: seq<BaseRef>)

  function Staged(stages: set<string>, from: Line, lower: char -> char): set<string>
    requires from.Word?
  {
    if Alias(from.more).Some? then stages + {Lowered(Alias(from.more).value, lower)} else stages
  }

  /** The instruction the line begins, if it begins a FROM. */
  function Instruction(st: Scan, s: string): (r: Option<Line>)
    ensures r.Some? ==> r.value.Word?
  {
    if Skipped(s) || st.continued then None else FromLine(s)
  }

  function Entry(st: Scan, i: nat, s: string, lower: char -> char): Option<BaseRef> {
    var from := Instruction(st, s);
    if from.None? || !External(Staged(st.stages, from.value, lower), from.value.word, lower) then None
    else Some(BaseRef(if Continued(s) then -1 else i, Head(s), from.value.word, Render(from.value.more)))
  }

  /** One line of scanFromInstructions, refusals aside. */
  function Read(st: Scan, i: nat, s: string, lower: char -> char): Scan {
    if Skipped(s) then st
    else
      var from := Instruction(st, s);
      Scan(if from.Some? then Staged(st.stages, from.value, lower) else st.stages,
           Continued(s),
           if Entry(st, i, s, lower).Some? then st.found + [Entry(st, i, s, lower).value] else st.found)
  }

  function ReadAll(lines: seq<string>, lower: char -> char): Scan {
    if lines == [] then Scan({}, false, [])
    else Read(ReadAll(lines[..|lines| - 1], lower), |lines| - 1, lines[|lines| - 1], lower)
  }

  predicate Clean(lines: seq<string>) {
    forall i :: 0 <= i < |lines| ==> !Refused(lines[i])
  }

  /** scanFromInstructions. */
  method ScanFromInstructions(lines: seq<string>, lower: char -> char) returns (found: seq<BaseRef>, clean: bool)
    ensures clean == Clean(lines)
    ensures found == if clean then ReadAll(lines, lower).found else []
  {
    found := [];
    var stages: set<string>, continued := {}, false;
    for i := 0 to |lines|
      invariant Scan(stages, continued, found) == ReadAll(lines[..i], lower) && Clean(lines[..i])
    {
      var line := lines[i];
      if Refused(line) {
        return [], false;
      }
      assert lines[..i + 1][..i] == lines[..i];
      ghost var next := Read(Scan(stages, continued, found), i, line, lower);
      assert ReadAll(lines[..i + 1], lower) == next && Clean(lines[..i + 1]);
      if Skipped(line) {
        continue;
      }
      var wasContinued := continued;
      continued := Continued(line);
      if wasContinued {
        continue;
      }
      var from := FromLine(line);
      if from.None? {
        continue;
      }
      var alias := Alias(from.value.more);
      if alias.Some? {
        stages := stages + {Lowered(alias.value, lower)};
      }
      if External(stages, from.value.word, lower) {
        found := found + [BaseRef(if continued then -1 else i, Head(line), from.value.word, Render(from.value.more))];
      }
    }
    assert lines[..|lines|] == lines;
    clean := true;
  }

  // ------------------------------------------------------------------------ pins

  type Pins = map<string, string>

  predicate RefHasTag(ref: string) {
    LastIndex(ref, ':') > LastIndex(ref, '/')
  }

  function RefName(ref: string): string {
    if RefHasTag(ref) then ref[..LastIndex(ref, ':')] else ref
  }

  /** lookupPin: an omitted tag is latest. */
  function LookupPin(pins: Pins, ref: string): Option<string> {
    if ref in pins then Some(pins[ref])
    else if !RefHasTag(ref) && ref + ":latest" in pins then Some(pins[ref + ":latest"])
    else None
  }

  function PinnedRef(ref: string, digest: string): string {
    RefName(ref) + "@" + digest
  }

  predicate Pinnable(pins: Pins, e: BaseRef) {
    e.line >= 0 && LookupPin(pins, e.ref).Some?
  }

  function Rewritten(pins: Pins, e: BaseRef): string
    requires Pinnable(pins, e)
  {
    Spelled(e.head, PinnedRef(e.ref, LookupPin(pins, e.ref).value), e.rest)
  }

  /** What becomes of one line. */
  function PinLine(pins: Pins, e: Option<BaseRef>, s: string): string {
    if e.Some? && Pinnable(pins, e.value) then Rewritten(pins, e.value) else s
  }

  function PinAll(lines: seq<string>, pins: Pins, lower: char -> char): (r: seq<string>)
    ensures |r| == |lines|
  {
    if lines == [] then []
    else
      var n := |lines| - 1;
      PinAll(lines[..n], pins, lower) + [PinLine(pins, Entry(ReadAll(lines[..n], lower), n, lines[n], lower), lines[n])]
  }

  /** Digests carry neither white space, nor < or a backslash. */
  predicate PlainDigests(pins: Pins) {
    forall ref :: ref in pins ==> Plain(pins[ref])
  }

  lemma RefIsPlain(ref: string)
    requires RefShaped(ref)
    ensures Plain(ref)
  {
    forall c | c in ref ensures !IsSpace(c) && c != '<' && c != '\\' {
      assert c in "._:/@-" ==> c == '.' || c == '_' || c == ':' || c == '/' || c == '@' || c == '-';
    }
  }

  lemma PinnedRefIsPlain(ref: string, digest: string)
    requires RefShaped(ref) && Plain(digest)
    ensures var p := PinnedRef(ref, digest); p != "" && p[0] != '-' && p[0] == ref[0] && Plain(p) && '@' in p
  {
    RefIsPlain(ref);
    var name := RefName(ref);
    if RefHasTag(ref) {
      assert LastIndex(ref, ':') > 0;
    }
    assert name != "" && name[0] == ref[0];
    var p := PinnedRef(ref, digest);
    forall c | c in p ensures !IsSpace(c) && c != '<' && c != '\\' {
      assert c in name || c in "@" || c in digest;
      assert c in name ==> c in ref;
    }
    assert p[|name|] == '@';
  }

  /** A rewritten line: same fate, same stage alias, and no longer external. */
  lemma PinnedLine(st: Scan, i: nat, s: string, pins: Pins, lower: char -> char)
    requires PlainDigests(pins) && Entry(st, i, s, lower).Some? && Pinnable(pins, Entry(st, i, s, lower).value)
    ensures var s' := PinLine(pins, Entry(st, i, s, lower), s);
            && FateOf(s') == FateOf(s) && !Skipped(s') && !Skipped(s)
            && FromLine(s').Some? && FromLine(s').value.more == FromLine(s).value.more
            && '@' in FromLine(s').value.word
  {
    var ref := Entry(st, i, s, lower).value.ref;
    var p := PinnedRef(ref, LookupPin(pins, ref).value);
    RefIsPlain(ref);
    PinnedRefIsPlain(ref, LookupPin(pins, ref).value);
    ReplaceSpelled(s, p);
    ReplaceChangesOnlyTheReference(s, p);
    ReplaceKeepsFate(s, p);
    FromIsNotSkipped(s);
    FromIsNotSkipped(Replace(s, p));
  }

  ghost predicate NonePinnable(pins: Pins, found: seq<BaseRef>) {
    forall e :: e in found ==> !Pinnable(pins, e)
  }

  predicate Agree(a: Scan, b: Scan) {
    a.stages == b.stages && a.continued == b.continued
  }

  lemma UnpinnedReads(st: Scan, st': Scan, i: nat, s: string, pins: Pins, lower: char -> char)
    requires Agree(st, st') && NonePinnable(pins, st'.found)
    requires Entry(st, i, s, lower).Some? ==> !Pinnable(pins, Entry(st, i, s, lower).value)
    ensures Agree(Read(st, i, s, lower), Read(st', i, s, lower))
    ensures NonePinnable(pins, Read(st', i, s, lower).found)
  {
    assert Entry(st', i, s, lower) == Entry(st, i, s, lower);
  }

  lemma RewrittenReads(st: Scan, st': Scan, i: nat, s: string, s': string, lower: char -> char)
    requires Agree(st, st') && Instruction(st, s).Some? && !Skipped(s') && Continued(s') == Continued(s)
    requires FromLine(s').Some? && FromLine(s').value.more == FromLine(s).value.more && '@' in FromLine(s').value.word
    ensures Agree(Read(st, i, s, lower), Read(st', i, s', lower))
    ensures Read(st', i, s', lower).found == st'.found
  {
    assert Entry(st', i, s', lower) == None;
  }

  lemma PinnedReads(st: Scan, st': Scan, i: nat, s: string, pins: Pins, lower: char -> char)
    requires PlainDigests(pins) && Agree(st, st') && NonePinnable(pins, st'.found)
    ensures var s' := PinLine(pins, Entry(st, i, s, lower), s);
            && Refused(s') == Refused(s)
            && Agree(Read(st, i, s, lower), Read(st', i, s', lower))
            && NonePinnable(pins, Read(st', i, s', lower).found)
  {
    var e := Entry(st, i, s, lower);
    if e.Some? && Pinnable(pins, e.value) {
      PinnedLine(st, i, s, pins, lower);
      var s' := PinLine(pins, e, s);
      assert Refused(s') == (FateOf(s').marker || FateOf(s').open);
      assert FateOf(s').continued == FateOf(s).continued;
      RewrittenReads(st, st', i, s, s', lower);
    } else {
      UnpinnedReads(st, st', i, s, pins, lower);
    }
  }

  lemma PinAllSplits(lines: seq<string>, pins: Pins, lower: char -> char)
    requires lines != []
    ensures var n := |lines| - 1;
            var all := PinAll(lines, pins, lower);
            && all[..n] == PinAll(lines[..n], pins, lower)
            && all[n] == PinLine(pins, Entry(ReadAll(lines[..n], lower), n, lines[n], lower), lines[n])
  {
  }

  /** Scanning the pinned lines finds the same stages, and nothing left to pin. */
  lemma {:induction false} PinnedScan(lines: seq<string>, pins: Pins, lower: char -> char)
    requires PlainDigests(pins)
    ensures Agree(ReadAll(lines, lower), ReadAll(PinAll(lines, pins, lower), lower))
    ensures NonePinnable(pins, ReadAll(PinAll(lines, pins, lower), lower).found)
    ensures Clean(PinAll(lines, pins, lower)) == Clean(lines)
  {
    if lines == [] {
      assert PinAll(lines, pins, lower) == [];
    } else {
      var n, all := |lines| - 1, PinAll(lines, pins, lower);
      PinAllSplits(lines, pins, lower);
      PinnedScan(lines[..n], pins, lower);
      PinnedReads(ReadAll(lines[..n], lower), ReadAll(all[..n], lower), n, lines[n], pins, lower);
      assert ReadAll(all, lower) == Read(ReadAll(all[..n], lower), n, all[n], lower);
      CleanSplits(lines);
      CleanSplits(all);
    }
  }

  lemma CleanSplits(lines: seq<string>)
    requires lines != []
    ensures Clean(lines) <==> Clean(lines[..|lines| - 1]) && !Refused(lines[|lines| - 1])
  {
  }

  lemma {:induction false} NothingToPin(lines: seq<string>, pins: Pins, lower: char -> char)
    requires NonePinnable(pins, ReadAll(lines, lower).found)
    ensures PinAll(lines, pins, lower) == lines
  {
    if lines != [] {
      var n := |lines| - 1;
      NothingToPin(lines[..n], pins, lower);
      assert lines == lines[..n] + [lines[n]];
    }
  }

  /** Pinning a second time changes nothing. */
  lemma PinningIsIdempotent(lines: seq<string>, pins: Pins, lower: char -> char)
    requires PlainDigests(pins)
    ensures PinAll(PinAll(lines, pins, lower), pins, lower) == PinAll(lines, pins, lower)
    ensures Applied(PinAll(lines, pins, lower), pins, lower) == {}
  {
    PinnedScan(lines, pins, lower);
    NothingToPin(PinAll(lines, pins, lower), pins, lower);
  }

  /** The references pinning applies to, and those a scan reports. */
  function Applied(lines: seq<string>, pins: Pins, lower: char -> char): set<string> {
    AppliedOf(ReadAll(lines, lower).found, pins)
  }

  function AppliedOf(found: seq<BaseRef>, pins: Pins): set<string> {
    set e | e in found && Pinnable(pins, e) :: e.ref
  }

  lemma AppliedGrows(found: seq<BaseRef>, pins: Pins, e: BaseRef)
    ensures AppliedOf(found + [e], pins) == AppliedOf(found, pins) + if Pinnable(pins, e) then {e.ref} else {}
  {
    assert forall x :: x in found + [e] <==> x in found || x == e;
  }

  function ExternalRefs(lines: seq<string>, lower: char -> char): set<string> {
    set e | e in ReadAll(lines, lower).found :: e.ref
  }

  /** The line holds this external reference, which has a pin, and is rewritten in that
      reference alone: prefix, flags, alias and all white space stay. */
  ghost predicate OnlyReferenceChanged(s: string, s': string, pins: Pins, e: BaseRef) {
    && FromLine(s).Some? && !Continued(s) && e.ref == FromLine(s).value.word && Pinnable(pins, e)
    && s == Spelled(e.head, e.ref, e.rest)
    && s' == Spelled(e.head, PinnedRef(e.ref, LookupPin(pins, e.ref).value), e.rest)
    && FromLine(s') == Some(FromLine(s).value.(word := PinnedRef(e.ref, LookupPin(pins, e.ref).value)))
  }

  lemma RewriteIsLocal(st: Scan, i: nat, s: string, pins: Pins, lower: char -> char)
    requires PlainDigests(pins) && Entry(st, i, s, lower).Some? && Pinnable(pins, Entry(st, i, s, lower).value)
    ensures var e := Entry(st, i, s, lower).value; OnlyReferenceChanged(s, Rewritten(pins, e), pins, e)
  {
    var e := Entry(st, i, s, lower).value;
    var p := PinnedRef(e.ref, LookupPin(pins, e.ref).value);
    PinnedRefIsPlain(e.ref, LookupPin(pins, e.ref).value);
    ReplaceSpelled(s, p);
    ReplaceChangesOnlyTheReference(s, p);
  }

  /** As it was, or one of the references found gave way to its pin. */
  ghost predicate Explained(s: string, s': string, pins: Pins, found: seq<BaseRef>) {
    s' == s || exists e :: e in found && OnlyReferenceChanged(s, s', pins, e)
  }

  lemma ExplainedByMore(s: string, s': string, pins: Pins, found: seq<BaseRef>, more: seq<BaseRef>)
    requires Explained(s, s', pins, found)
    ensures Explained(s, s', pins, found + more)
  {
    if s' != s {
      var e :| e in found && OnlyReferenceChanged(s, s', pins, e);
      assert e in found + more;
    }
  }

  lemma LastLineExplained(st: Scan, n: nat, s: string, pins: Pins, lower: char -> char)
    requires PlainDigests(pins)
    ensures Explained(s, PinLine(pins, Entry(st, n, s, lower), s), pins, Read(st, n, s, lower).found)
  {
    var e := Entry(st, n, s, lower);
    if e.Some? && Pinnable(pins, e.value) {
      RewriteIsLocal(st, n, s, pins, lower);
      assert e.value in Read(st, n, s, lower).found;
    }
  }

  /** Every line is as it was, or one of the references the scan reports gave way to its
      pin there. */
  lemma {:induction false} PinningTouchesOnlyReferences(lines: seq<string>, pins: Pins, lower: char -> char, i: nat)
    requires i < |lines| && PlainDigests(pins)
    ensures Explained(lines[i], PinAll(lines, pins, lower)[i], pins, ReadAll(lines, lower).found)
  {
    var n, all := |lines| - 1, PinAll(lines, pins, lower);
    var st := ReadAll(lines[..n], lower);
    PinAllSplits(lines, pins, lower);
    if i < n {
      PinningTouchesOnlyReferences(lines[..n], pins, lower, i);
      assert all[..n][i] == all[i];
      FoundExtends(st, n, lines[n], lower);
      ExplainedByMore(lines[i], all[i], pins, st.found, Read(st, n, lines[n], lower).found[|st.found|..]);
    } else {
      LastLineExplained(st, n, lines[n], pins, lower);
    }
  }

  lemma FoundExtends(st: Scan, n: nat, s: string, lower: char -> char)
    ensures |st.found| <= |Read(st, n, s, lower).found|
    ensures st.found + Read(st, n, s, lower).found[|st.found|..] == Read(st, n, s, lower).found
  {
  }

  lemma AppliedIsReported(lines: seq<string>, pins: Pins, lower: char -> char)
    ensures Applied(lines, pins, lower) <= ExternalRefs(lines, lower)
  {
  }

  // ------------------------------------------------------------------ dockerfiles

  /** The rewriting loop, over what the scan found. */
  function RewriteAll(lines: seq<string>, found: seq<BaseRef>, pins: Pins): (r: seq<string>)
    ensures |r| == |lines|
  {
    if found == [] then lines
    else
      var r, e := RewriteAll(lines, found[..|found| - 1], pins), found[|found| - 1];
      if Pinnable(pins, e) && e.line < |lines| then r[e.line := Rewritten(pins, e)] else r
  }

  lemma FillNext(front: seq<string>, lines: seq<string>, x: string)
    requires |front| < |lines|
    ensures (front + lines[|front|..])[|front| := x] == (front + [x]) + lines[|front| + 1..]
    ensures x == lines[|front|] ==> front + lines[|front|..] == (front + [x]) + lines[|front| + 1..]
  {
  }

  lemma FoundGrows(lines: seq<string>, pins: Pins, lower: char -> char, n: nat)
    requires n < |lines|
    ensures var e := Entry(ReadAll(lines[..n], lower), n, lines[n], lower);
            && ReadAll(lines[..n + 1], lower).found
               == ReadAll(lines[..n], lower).found + (if e.Some? then [e.value] else [])
            && PinAll(lines[..n + 1], pins, lower) == PinAll(lines[..n], pins, lower) + [PinLine(pins, e, lines[n])]
            && (e.Some? ==> e.value.line == -1 || e.value.line == n)
  {
    assert lines[..n + 1][..n] == lines[..n] && lines[..n + 1][n] == lines[n];
  }

  lemma RewriteNext(lines: seq<string>, found: seq<BaseRef>, pins: Pins, e: Option<BaseRef>, front: seq<string>)
    requires |front| < |lines| && RewriteAll(lines, found, pins) == front + lines[|front|..]
    requires e.Some? ==> e.value.line == -1 || e.value.line == |front|
    ensures RewriteAll(lines, found + (if e.Some? then [e.value] else []), pins)
         == (front + [PinLine(pins, e, lines[|front|])]) + lines[|front| + 1..]
  {
    FillNext(front, lines, PinLine(pins, e, lines[|front|]));
    if e.Some? {
      assert (found + [e.value])[..|found|] == found;
    } else {
      assert found + [] == found;
    }
  }

  lemma {:induction false} RewriteIsPinAll(lines: seq<string>, pins: Pins, lower: char -> char, k: nat)
    requires k <= |lines|
    ensures RewriteAll(lines, ReadAll(lines[..k], lower).found, pins) == PinAll(lines[..k], pins, lower) + lines[k..]
    decreases k
  {
    if k == 0 {
      assert lines[..0] == [] && lines[0..] == lines && [] + lines == lines;
    } else {
      var st := ReadAll(lines[..k - 1], lower);
      RewriteIsPinAll(lines, pins, lower, k - 1);
      FoundGrows(lines, pins, lower, k - 1);
      RewriteNext(lines, st.found, pins, Entry(st, k - 1, lines[k - 1], lower), PinAll(lines[..k - 1], pins, lower));
    }
  }

  /** pinDockerfile on the split file, in place. */
  method PinLines(lines: array<string>, pins: Pins, lower: char -> char) returns (applied: set<string>, clean: bool)
    modifies lines
    ensures clean == Clean(old(lines[..]))
    ensures lines[..] == if clean then PinAll(old(lines[..]), pins, lower) else old(lines[..])
    ensures applied == if clean then Applied(old(lines[..]), pins, lower) else {}
  {
    ghost var was := lines[..];
    var found;
    found, clean := ScanFromInstructions(lines[..], lower);
    applied := {};
    if clean {
      applied := RewriteLines(lines, found, pins);
      assert was[..|was|] == was && was[|was|..] == [];
      RewriteIsPinAll(was, pins, lower, |was|);
    }
  }

  method RewriteLines(lines: array<string>, found: seq<BaseRef>, pins: Pins) returns (applied: set<string>)
    modifies lines
    ensures lines[..] == RewriteAll(old(lines[..]), found, pins)
    ensures applied == AppliedOf(found, pins)
  {
    ghost var was := lines[..];
    applied := {};
    for j := 0 to |found|
      invariant lines[..] == RewriteAll(was, found[..j], pins)
      invariant applied == AppliedOf(found[..j], pins)
    {
      AppliedGrows(found[..j], pins, found[j]);
      assert found[..j + 1][..j] == found[..j] && found[..j + 1] == found[..j] + [found[j]];
      var from := found[j];
      if from.line < 0 || LookupPin(pins, from.ref).None? {
        continue;
      }
      if from.line < lines.Length {
        lines[from.line] := Rewritten(pins, from);
      }
      applied := applied + {from.ref};
    }
    assert found[..|found|] == found;
  }

  /** strings.Split(s, "\\n"). */
  function SplitLines(s: string): (r: seq<string>)
    ensures r != []
  {
    if s == "" then [""]
    else
      var rest := SplitLines(s[1..]);
      if s[0] == '\n' then [""] + rest else [[s[0]] + rest[0]] + rest[1..]
  }

  /** strings.Join(lines, "\\n"). */
  function JoinLines(lines: seq<string>): string
    requires lines != []
  {
    if |lines| == 1 then lines[0] else lines[0] + ("\n" + JoinLines(lines[1..]))
  }

  ghost predicate OneLineEach(lines: seq<string>) {
    forall i :: 0 <= i < |lines| ==> '\n' !in lines[i]
  }

  lemma {:induction false} SplitGivesLines(s: string)
    ensures OneLineEach(SplitLines(s)) && JoinLines(SplitLines(s)) == s
  {
    if s != "" {
      var rest := SplitLines(s[1..]);
      SplitGivesLines(s[1..]);
      if s[0] == '\n' {
        assert ([""] + rest)[1..] == rest;
        assert s == "" + ("\n" + s[1..]);
      } else {
        JoinPrepends(s[0], rest);
        assert s == [s[0]] + s[1..];
      }
    }
  }

  lemma JoinPrepends(c: char, rest: seq<string>)
    requires rest != []
    ensures JoinLines([[c] + rest[0]] + rest[1..]) == [c] + JoinLines(rest)
  {
    var all := [[c] + rest[0]] + rest[1..];
    if |rest| > 1 {
      assert all[1..] == rest[1..];
      Regroup([c], rest[0], "\n" + JoinLines(rest[1..]));
    }
  }

  lemma {:induction false} SplitOfLine(line: string)
    requires '\n' !in line
    ensures SplitLines(line) == [line]
  {
    if line != "" {
      assert line[0] in line;
      SplitOfLine(line[1..]);
      assert [line[0]] + line[1..] == line;
    }
  }

  lemma {:induction false} SplitAfterLine(line: string, s: string)
    requires '\n' !in line
    ensures SplitLines(line + ("\n" + s)) == [line] + SplitLines(s)
    decreases |line|
  {
    var t := line + ("\n" + s);
    if line == "" {
      assert t == "\n" + s && t[1..] == s;
    } else {
      assert t[0] == line[0] && line[0] in line;
      assert t[1..] == line[1..] + ("\n" + s);
      SplitAfterLine(line[1..], s);
      assert [line[0]] + line[1..] == line;
      var rest := [line[1..]] + SplitLines(s);
      assert rest[1..] == SplitLines(s);
    }
  }

  lemma {:induction false} SplitOfJoin(lines: seq<string>)
    requires lines != [] && OneLineEach(lines)
    ensures SplitLines(JoinLines(lines)) == lines
  {
    if |lines| == 1 {
      SplitOfLine(lines[0]);
    } else {
      SplitOfJoin(lines[1..]);
      SplitAfterLine(lines[0], JoinLines(lines[1..]));
      assert lines == [lines[0]] + lines[1..];
    }
  }

  /** pinDockerfile. */
  function PinDockerfile(text: string, pins: Pins, lower: char -> char): (string, set<string>, bool) {
    if pins == map[] || text == "" then (text, {}, true)
    else
      var lines := SplitLines(text);
      if !Clean(lines) then (text, {}, false)
      else if Applied(lines, pins, lower) == {} then (text, {}, true)
      else (JoinLines(PinAll(lines, pins, lower)), Applied(lines, pins, lower), true)
  }

  lemma NoNewline(ref: string)
    requires Plain(ref)
    ensures '\n' !in ref
  {
    assert IsSpace('\n');
  }

  lemma PinnedLineIsOneLine(s: string, s': string, pins: Pins, e: BaseRef)
    requires PlainDigests(pins) && OnlyReferenceChanged(s, s', pins, e) && RefShaped(e.ref) && '\n' !in s
    ensures '\n' !in s'
  {
    var digest := LookupPin(pins, e.ref).value;
    PinnedRefIsPlain(e.ref, digest);
    NoNewline(PinnedRef(e.ref, digest));
    forall c | c in s' ensures c != '\n' {
      assert c in e.head || c in PinnedRef(e.ref, digest) || c in e.rest;
      assert c in e.head ==> c in s;
      assert c in e.rest ==> c in s;
    }
  }

  lemma {:induction false} FoundAreShaped(lines: seq<string>, lower: char -> char)
    ensures forall e :: e in ReadAll(lines, lower).found ==> RefShaped(e.ref)
  {
    if lines != [] {
      FoundAreShaped(lines[..|lines| - 1], lower);
    }
  }

  lemma PinnedLinesAreLines(lines: seq<string>, pins: Pins, lower: char -> char)
    requires PlainDigests(pins) && OneLineEach(lines)
    ensures OneLineEach(PinAll(lines, pins, lower))
  {
    FoundAreShaped(lines, lower);
    forall i | 0 <= i < |lines| ensures '\n' !in PinAll(lines, pins, lower)[i] {
      PinningTouchesOnlyReferences(lines, pins, lower, i);
      var s, s' := lines[i], PinAll(lines, pins, lower)[i];
      if s' != s {
        var e :| e in ReadAll(lines, lower).found && OnlyReferenceChanged(s, s', pins, e);
        PinnedLineIsOneLine(s, s', pins, e);
      }
    }
  }

  lemma NoneAppliedNonePinnable(lines: seq<string>, pins: Pins, lower: char -> char)
    requires Applied(lines, pins, lower) == {}
    ensures NonePinnable(pins, ReadAll(lines, lower).found)
  {
    forall e | e in ReadAll(lines, lower).found ensures !Pinnable(pins, e) {
      assert Pinnable(pins, e) ==> e.ref in Applied(lines, pins, lower);
    }
  }

  /** The result of pinning a whole file, line by line: as many lines, each pinned. */
  lemma PinDockerfileLines(text: string, pins: Pins, lower: char -> char)
    requires PlainDigests(pins)
    ensures var (out, applied, clean) := PinDockerfile(text, pins, lower);
            && SplitLines(out) == (if clean && pins != map[] && text != "" then PinAll(SplitLines(text), pins, lower)
                                   else SplitLines(text))
            && applied <= ExternalRefs(SplitLines(text), lower)
  {
    var lines := SplitLines(text);
    SplitGivesLines(text);
    AppliedIsReported(lines, pins, lower);
    if pins != map[] && text != "" && Clean(lines) {
      if Applied(lines, pins, lower) == {} {
        NoneAppliedNonePinnable(lines, pins, lower);
        NothingToPin(lines, pins, lower);
      } else {
        PinnedLinesAreLines(lines, pins, lower);
        SplitOfJoin(PinAll(lines, pins, lower));
      }
    }
  }

  /** Pinning a whole file a second time changes nothing and applies nothing. */
  lemma PinDockerfileTwice(text: string, pins: Pins, lower: char -> char)
    requires PlainDigests(pins)
    ensures var (out, applied, clean) := PinDockerfile(text, pins, lower);
            PinDockerfile(out, pins, lower) == (out, {}, clean)
  {
    PinDockerfileLines(text, pins, lower);
    var lines := SplitLines(text);
    if pins != map[] && text != "" && Clean(lines) {
      PinnedScan(lines, pins, lower);
      PinningIsIdempotent(lines, pins, lower);
    }
  }
}
