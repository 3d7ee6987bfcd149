/** Names that cork derives from records and later parses back: image tags,
    registry-qualified image names, stale tags and instance network names.
    Registry retention, preloading and orphan removal all rest on these names
    telling different records apart. */
module Naming {

  datatype Option<+T> = None | Some(value: T)

  // ---------------------------------------------------------------- numerals

  function DigitChar(d: nat): (c: char)
    requires d < 16
    ensures c != '-' && c != ':' && c != '/' && c != '\0'
    ensures d < 10 ==> '0' <= c <= '9'
  {
    "0123456789abcdef"[d]
  }

  function DigitValue(c: char): nat {
    if '0' <= c <= '9' then (c - '0') as nat
    else if 'a' <= c <= 'f' then (c - 'a') as nat + 10
    else 0
  }

  /** `%d` or `%x` of a non-negative number: no sign, no leading zeros. */
  function Render(n: nat, base: nat): (s: string)
    requires 2 <= base <= 16
    ensures s != [] && (forall c <- s :: c != '-' && c != ':' && c != '/' && c != '\0')
    ensures base <= 10 ==> forall c <- s :: '0' <= c <= '9'
    decreases n
  {
    if n < base then [DigitChar(n)] else Render(n / base, base) + [DigitChar(n % base)]
  }

  /** The number a numeral stands for, leading zeros allowed. */
  function Value(s: string, base: nat): nat
  {
    if s == [] then 0 else Value(s[..|s| - 1], base) * base + DigitValue(s[|s| - 1])
  }

  lemma DigitRoundTrip(d: nat)
    requires d < 16
    ensures DigitValue(DigitChar(d)) == d
  {
  }

  lemma {:induction false} ValueOfRender(n: nat, base: nat)
    requires base == 10 || base == 16
    ensures Value(Render(n, base), base) == n
    decreases n
  {
    DigitRoundTrip(n % base);
    if n < base {
      assert [DigitChar(n)][..0] == [];
    } else {
      var s := Render(n / base, base) + [DigitChar(n % base)];
      assert s[..|s| - 1] == Render(n / base, base);
      ValueOfRender(n / base, base);
    }
  }

  /** `%d` of a signed number. */
  function RenderInt(n: int): (s: string)
    ensures s != [] && forall c <- s :: c != ':' && c != '/' && c != '\0'
  {
    if n < 0 then "-" + Render(-n, 10) else Render(n, 10)
  }

  lemma RenderInjective(a: nat, b: nat)
    requires Render(a, 10) == Render(b, 10)
    ensures a == b
  {
    ValueOfRender(a, 10);
    ValueOfRender(b, 10);
  }

  lemma SignIsFirst(n: int)
    ensures n < 0 <==> RenderInt(n)[0] == '-'
    ensures n >= 0 ==> '0' <= RenderInt(n)[0] <= '9'
  {
    if n >= 0 {
      assert RenderInt(n)[0] in Render(n, 10);
    }
  }

  // ------------------------------------------------------------- separators

  /** Two texts with a one-character separator between them. */
  function Joined(x: string, sep: char, y: string): string {
    x + [sep] + y
  }

  lemma JoinAssoc(x: string, a: char, y: string, b: char, z: string)
    ensures Joined(Joined(x, a, y), b, z) == Joined(x, a, Joined(y, b, z))
  {
  }

  /** With a known left part, the right part can be read off. */
  lemma JoinCancel(x: string, sep: char, y: string, y': string)
    requires Joined(x, sep, y) == Joined(x, sep, y')
    ensures y == y'
  {
    assert Joined(x, sep, y)[|x| + 1..] == y;
    assert Joined(x, sep, y')[|x| + 1..] == y';
  }

  /** A text cut at the first separator has only one reading. */
  lemma CutUnique(x: string, y: string, x': string, y': string, sep: char)
    requires Joined(x, sep, y) == Joined(x', sep, y')
    requires sep !in x && sep !in x'
    ensures x == x' && y == y'
  {
    var s := Joined(x, sep, y);
    assert s[|x|] == sep && forall i :: 0 <= i < |x| ==> s[i] == x[i] && s[i] != sep;
    assert s[|x'|] == sep && forall i :: 0 <= i < |x'| ==> s[i] == x'[i] && s[i] != sep;
    assert |x| == |x'|;
    assert x == s[..|x|] == x';
    JoinCancel(x, sep, y, y');
  }

  // ------------------------------------------------------------- image tags

  /** dockerId: the tag of one host's image of one build generation. */
  function Tag(seed: int, checksum: nat, host: string): string {
    "s" + Joined(RenderInt(seed), '-', Joined(Render(checksum, 16), '-', host))
  }

  lemma SignedCut(d: string, rest: string, d': string, rest': string)
    requires Joined("-" + d, '-', rest) == Joined("-" + d', '-', rest')
    requires '-' !in d && '-' !in d'
    ensures d == d' && rest == rest'
  {
    assert Joined("-" + d, '-', rest)[1..] == Joined(d, '-', rest);
    assert Joined("-" + d', '-', rest')[1..] == Joined(d', '-', rest');
    CutUnique(d, rest, d', rest', '-');
  }

  lemma JoinedHead(x: string, sep: char, y: string)
    requires x != []
    ensures Joined(x, sep, y)[0] == x[0]
  {
  }

  lemma SeedSignsAgree(seed: int, rest: string, seed': int, rest': string)
    requires Joined(RenderInt(seed), '-', rest) == Joined(RenderInt(seed'), '-', rest')
    ensures seed < 0 <==> seed' < 0
  {
    SignIsFirst(seed);
    SignIsFirst(seed');
    JoinedHead(RenderInt(seed), '-', rest);
    JoinedHead(RenderInt(seed'), '-', rest');
  }

  lemma UnsignedSplits(a: nat, rest: string, b: nat, rest': string)
    requires Joined(Render(a, 10), '-', rest) == Joined(Render(b, 10), '-', rest')
    ensures a == b && rest == rest'
  {
    CutUnique(Render(a, 10), rest, Render(b, 10), rest', '-');
    RenderInjective(a, b);
  }

  lemma NegativeSplits(a: nat, rest: string, b: nat, rest': string)
    requires Joined("-" + Render(a, 10), '-', rest) == Joined("-" + Render(b, 10), '-', rest')
    ensures a == b && rest == rest'
  {
    SignedCut(Render(a, 10), rest, Render(b, 10), rest');
    RenderInjective(a, b);
  }

  lemma SignedNumeral(seed: int)
    ensures seed < 0 ==> RenderInt(seed) == "-" + Render(-seed, 10)
    ensures seed >= 0 ==> RenderInt(seed) == Render(seed, 10)
  {
  }

  lemma SeedSplits(seed: int, rest: string, seed': int, rest': string)
    requires Joined(RenderInt(seed), '-', rest) == Joined(RenderInt(seed'), '-', rest')
    ensures seed == seed' && rest == rest'
  {
    SeedSignsAgree(seed, rest, seed', rest');
    if seed < 0 {
      BothNegative(-seed, rest, -seed', rest');
    } else {
      UnsignedSplits(seed, rest, seed', rest');
    }
  }

  lemma BothNegative(a: int, rest: string, b: int, rest': string)
    requires a > 0 && b > 0 && Joined(RenderInt(-a), '-', rest) == Joined(RenderInt(-b), '-', rest')
    ensures a == b && rest == rest'
  {
    SignedNumeral(-a);
    SignedNumeral(-b);
    NegativeSplits(a, rest, b, rest');
  }

  lemma TagInjective(seed: int, sum: nat, host: string, seed': int, sum': nat, host': string)
    requires Tag(seed, sum, host) == Tag(seed', sum', host')
    ensures seed == seed' && sum == sum' && host == host'
  {
    var rest, rest' := Joined(Render(sum, 16), '-', host), Joined(Render(sum', 16), '-', host');
    assert Tag(seed, sum, host)[1..] == Joined(RenderInt(seed), '-', rest);
    assert Tag(seed', sum', host')[1..] == Joined(RenderInt(seed'), '-', rest');
    SeedSplits(seed, rest, seed', rest');
    CutUnique(Render(sum, 16), host, Render(sum', 16), host', '-');
    ValueOfRender(sum, 16);
    ValueOfRender(sum', 16);
  }

  /** imageRepository: where every image of a challenge is tagged. */
  function Repository(registry: string, challenge: string): string {
    if registry == "" then challenge else Joined(registry, '/', challenge)
  }

  /** instanceImageName. */
  function ImageName(registry: string, challenge: string, seed: int, checksum: nat, host: string): string {
    Joined(Repository(registry, challenge), ':', Tag(seed, checksum, host))
  }

  /** An image name determines the challenge, seed, checksum and host it was made
      from, for every seed, negative ones included, as long as challenge ids carry
      no colon (the loader and the hand-over check both guarantee that). */
  lemma ImageNameInjective(registry: string,
                           c: string, seed: int, sum: nat, host: string,
                           c': string, seed': int, sum': nat, host': string)
    requires ':' !in c && ':' !in c'
    requires ImageName(registry, c, seed, sum, host) == ImageName(registry, c', seed', sum', host')
    ensures c == c' && seed == seed' && sum == sum' && host == host'
  {
    var tag, tag' := Tag(seed, sum, host), Tag(seed', sum', host');
    if registry != "" {
      JoinAssoc(registry, '/', c, ':', tag);
      JoinAssoc(registry, '/', c', ':', tag');
      JoinCancel(registry, '/', Joined(c, ':', tag), Joined(c', ':', tag'));
    }
    CutUnique(c, tag, c', tag', ':');
    TagInjective(seed, sum, host, seed', sum', host');
  }

  // ------------------------------------------------- repositories and staleness

  /** strings.LastIndex of one character: -1 when it does not occur. */
  function LastIndex(s: string, c: char): (i: int)
    ensures -1 <= i < |s|
    ensures i >= 0 ==> s[i] == c
    ensures forall j :: i < j < |s| ==> s[j] != c
  {
    if s == [] then -1
    else if s[|s| - 1] == c then |s| - 1
    else LastIndex(s[..|s| - 1], c)
  }

  lemma LastIndexIs(s: string, c: char, i: nat)
    requires i < |s| && s[i] == c && forall j :: i < j < |s| ==> s[j] != c
    ensures LastIndex(s, c) == i
  {
  }

  /** imageRepo: strips the tag; a registry port is not a tag. */
  function ImageRepo(name: string): string {
    var colon := LastIndex(name, ':');
    if colon > LastIndex(name, '/') then name[..colon] else name
  }

  /** strings.TrimPrefix. */
  function TrimPrefix(s: string, p: string): string {
    if p <= s then s[|p|..] else s
  }

  /** What follows the repository of a reference. */
  function TagOf(ref: string): string {
    TrimPrefix(ref, ImageRepo(ref) + ":")
  }

  const STALE_PREFIX := "stale-"

  /** staleTag. */
  function StaleTag(ref: string): string {
    Joined(ImageRepo(ref), ':', STALE_PREFIX + TagOf(ref))
  }

  /** isStale. */
  predicate IsStale(ref: string) {
    STALE_PREFIX <= TagOf(ref)
  }

  /** A part after the last colon: neither a colon nor a slash in it. */
  predicate TagShaped(tag: string) {
    ':' !in tag && '/' !in tag
  }

  lemma RepoOfTagged(repo: string, tag: string)
    requires TagShaped(tag)
    ensures ImageRepo(Joined(repo, ':', tag)) == repo
    ensures TagOf(Joined(repo, ':', tag)) == tag
  {
    var n := Joined(repo, ':', tag);
    assert forall j :: |repo| < j < |n| ==> n[j] == tag[j - |repo| - 1];
    LastIndexIs(n, ':', |repo|);
    assert n[..|repo|] == repo;
    assert n == (repo + ":") + tag;
  }

  /** A listed reference that has a tag splits back into its repository and tag. */
  lemma TaggedSplits(ref: string)
    requires ImageRepo(ref) != ref
    ensures ref == Joined(ImageRepo(ref), ':', TagOf(ref))
    ensures TagShaped(TagOf(ref))
  {
    var colon := LastIndex(ref, ':');
    var repo := ref[..colon];
    assert repo + ":" == ref[..colon + 1];
    assert ref == (repo + ":") + ref[colon + 1..];
  }

  lemma TagIsTagShaped(seed: int, sum: nat, host: string)
    requires TagShaped(host)
    ensures TagShaped(Tag(seed, sum, host))
  {
  }

  /** Marking an image stale keeps it in its repository and is recognised. */
  lemma StaleTagFacts(ref: string)
    requires ImageRepo(ref) != ref
    ensures ImageRepo(StaleTag(ref)) == ImageRepo(ref)
    ensures IsStale(StaleTag(ref))
  {
    TaggedSplits(ref);
    RepoOfTagged(ImageRepo(ref), STALE_PREFIX + TagOf(ref));
  }

  lemma TagSecondChar(seed: int, sum: nat, host: string)
    ensures |Tag(seed, sum, host)| > 1 && Tag(seed, sum, host)[1] != 't'
  {
    SignIsFirst(seed);
    JoinedHead(RenderInt(seed), '-', Joined(Render(sum, 16), '-', host));
  }

  /** The image of a build lives in its challenge's repository, and its tag can
      never be mistaken for a stale one. */
  lemma BuildNamesAreNotStale(registry: string, c: string, seed: int, sum: nat, host: string)
    requires TagShaped(host)
    ensures ImageRepo(ImageName(registry, c, seed, sum, host)) == Repository(registry, c)
    ensures !IsStale(ImageName(registry, c, seed, sum, host))
  {
    TagIsTagShaped(seed, sum, host);
    RepoOfTagged(Repository(registry, c), Tag(seed, sum, host));
    TagSecondChar(seed, sum, host);
    assert STALE_PREFIX[1] == 't';
  }

  // -------------------------------------------------------- instance networks

  const NETWORK_PREFIX := "cmgr-"
  const INT64_MAX := 0x7fff_ffff_ffff_ffff

  /** getNetworkName. */
  function NetworkName(id: int): string {
    NETWORK_PREFIX + RenderInt(id)
  }

  /** networkInstance: digits only after the prefix, and a value ParseInt accepts. */
  function NetworkInstance(name: string): (r: Option<nat>)
    ensures r.Some? ==> NETWORK_PREFIX < name
  {
    if !(NETWORK_PREFIX <= name) then None
    else
      var digits := name[|NETWORK_PREFIX|..];
      if digits == "" || exists c <- digits :: !('0' <= c <= '9') then None
      else if Value(digits, 10) > INT64_MAX then None
      else Some(Value(digits, 10))
  }

  /** networkInstance undoes getNetworkName exactly on the ids SQLite hands out;
      a negative id, or one beyond 64 bits, is never attributed. */
  lemma NetworkRoundTrip(id: int)
    ensures NetworkInstance(NetworkName(id)) == if 0 <= id <= INT64_MAX then Some(id) else None
  {
    var name := NetworkName(id);
    assert name[|NETWORK_PREFIX|..] == RenderInt(id);
    if id < 0 {
      SignIsFirst(id);
      assert RenderInt(id)[0] in RenderInt(id);
    } else {
      ValueOfRender(id, 10);
    }
  }

  function Zeros(n: nat): (s: string)
    ensures |s| == n && forall c <- s :: c == '0'
  {
    if n == 0 then "" else Zeros(n - 1) + "0"
  }

  predicate AllDigits(s: string) {
    forall c <- s :: '0' <= c <= '9'
  }

  lemma DigitIs(c: char)
    requires '0' <= c <= '9'
    ensures DigitValue(c) < 10 && DigitChar(DigitValue(c)) == c
  {
    var d := DigitValue(c);
    assert d == 0 || d == 1 || d == 2 || d == 3 || d == 4 || d == 5 || d == 6 || d == 7 || d == 8 || d == 9;
  }

  lemma RenderAppends(v: nat, d: nat)
    requires d < 10
    ensures v > 0 ==> Render(v * 10 + d, 10) == Render(v, 10) + [DigitChar(d)]
    ensures Render(d, 10) == [DigitChar(d)]
  {
    TenTimes(v, d);
  }

  lemma TenTimes(v: nat, d: nat)
    requires d < 10
    ensures (v * 10 + d) / 10 == v && (v * 10 + d) % 10 == d
  {
  }

  lemma AppendDigit(z: nat, v: nat, c: char)
    requires '0' <= c <= '9'
    ensures var s := (Zeros(z) + Render(v, 10)) + [c];
            s == Zeros(if v == 0 then z + 1 else z) + Render(v * 10 + DigitValue(c), 10)
  {
    DigitIs(c);
    RenderAppends(v, DigitValue(c));
    if v == 0 {
      assert Render(0, 10) == "0";
    } else {
      assert (Zeros(z) + Render(v, 10)) + [c] == Zeros(z) + (Render(v, 10) + [c]);
    }
  }

  /** A string of digits is the numeral of its value behind some zeros. */
  lemma {:induction false} NumeralIs(s: string) returns (zeros: nat)
    requires s != "" && AllDigits(s)
    ensures s == Zeros(zeros) + Render(Value(s, 10), 10)
    decreases |s|
  {
    var front, c := s[..|s| - 1], s[|s| - 1];
    assert c in s && s == front + [c];
    if front == "" {
      zeros := 0;
      OneDigit(s);
    } else {
      assert forall x <- front :: x in s;
      var z := NumeralIs(front);
      AppendDigit(z, Value(front, 10), c);
      zeros := if Value(front, 10) == 0 then z + 1 else z;
    }
  }

  lemma OneDigit(s: string)
    requires |s| == 1 && '0' <= s[0] <= '9'
    ensures s == Zeros(0) + Render(Value(s, 10), 10)
  {
    DigitIs(s[0]);
    assert s[..0] == "" && Value(s, 10) == DigitValue(s[0]);
    RenderAppends(0, DigitValue(s[0]));
  }

  lemma {:induction false} LeadingZeros(zeros: nat, s: string)
    ensures Value(Zeros(zeros) + s, 10) == Value(s, 10)
    decreases zeros + |s|
  {
    var t := Zeros(zeros) + s;
    if s == "" {
      assert t == Zeros(zeros);
      if zeros > 0 {
        assert t[..|t| - 1] == Zeros(zeros - 1) + "" && t[|t| - 1] == '0';
        LeadingZeros(zeros - 1, "");
      }
    } else {
      assert t[..|t| - 1] == Zeros(zeros) + s[..|s| - 1] && t[|t| - 1] == s[|s| - 1];
      LeadingZeros(zeros, s[..|s| - 1]);
    }
  }

  /** The names attributed to an instance are exactly its network name, with any zeros
      before the number, for ids a 64-bit integer holds. */
  lemma NetworkInstanceIs(name: string, id: nat)
    ensures NetworkInstance(name) == Some(id) <==>
              id <= INT64_MAX && exists zeros: nat :: name == NETWORK_PREFIX + (Zeros(zeros) + Render(id, 10))
  {
    if NetworkInstance(name) == Some(id) {
      var digits := name[|NETWORK_PREFIX|..];
      assert name == NETWORK_PREFIX + digits;
      var zeros := NumeralIs(digits);
      assert name == NETWORK_PREFIX + (Zeros(zeros) + Render(id, 10));
    }
    if zeros: nat :| id <= INT64_MAX && name == NETWORK_PREFIX + (Zeros(zeros) + Render(id, 10)) {
      var digits := Zeros(zeros) + Render(id, 10);
      assert name[|NETWORK_PREFIX|..] == digits;
      LeadingZeros(zeros, Render(id, 10));
      ValueOfRender(id, 10);
    }
  }
}
