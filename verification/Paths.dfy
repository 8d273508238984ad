/** Repository paths: component sequences, and the `/`-separated string form that carries them. */
module Paths {
  import opened Base

  const SLASH: byte := 0x2f
  const DOT: byte := 0x2e
  const MAX_COMPONENT_BYTES := 255
  const MAX_PATH_BYTES := 4096

  /** A component as `RepoPath::parse` accepts it. */
  predicate ValidName(n: Str) {
    && 0 < |n| <= MAX_COMPONENT_BYTES
    && SLASH !in n && 0 !in n
    && n != [DOT] && n != [DOT, DOT]
  }

  type Name = n: Str | ValidName(n) witness [97]

  /** A canonical path; the empty sequence is the root. */
  type Path = seq<Name>

  function Slashed(n: Name): Str {
    [SLASH] + n
  }

  function Joined(p: Path): Str {
    if p == [] then [] else Slashed(p[0]) + Joined(p[1..])
  }

  /** The canonical string of a path: what is hashed, stored and compared. */
  function PathStr(p: Path): (s: Str)
    ensures |s| > 0 && s[0] == SLASH
  {
    if p == [] then [SLASH] else Joined(p)
  }

  /** Paths compare as strings, so `/a-b` comes before `/a/b` although component `a` precedes `a-b`. */
  function PathKey(p: Path): seq<int> {
    PathStr(p)
  }

  // ---- the string form determines the path ----

  predicate Boundary(s: Str) {
    s == [] || s[0] == SLASH
  }

  lemma JoinedBoundary(p: Path)
    ensures Boundary(Joined(p)) && (Joined(p) == [] <==> p == [])
  {
  }

  /** A slash-free prefix that ends at a boundary is determined by the string. */
  lemma SplitAtSlash(a: Str, x: Str, b: Str, y: Str)
    requires SLASH !in a && SLASH !in b && Boundary(x) && Boundary(y)
    requires a + x == b + y
    ensures a == b && x == y
  {
    var s := a + x;
    assert forall i | 0 <= i < |a| :: s[i] == a[i] != SLASH;
    assert forall i | 0 <= i < |b| :: s[i] == b[i] != SLASH;
    assert |a| < |s| ==> s[|a|] == SLASH;
    assert |b| < |s| ==> s[|b|] == SLASH;
    assert a == s[..|a|] && b == s[..|b|] && x == s[|a|..] && y == s[|b|..];
  }

  lemma SlashedTail(n: Name, rest: Str)
    ensures (Slashed(n) + rest)[1..] == n + rest
  {
  }

  lemma JoinedUnfold(p: Path)
    requires p != []
    ensures SLASH !in p[0] && p[0] != [] && Boundary(Joined(p[1..]))
    ensures |Joined(p)| >= 2 && Joined(p)[0] == SLASH && Joined(p)[1..] == p[0] + Joined(p[1..])
  {
    JoinedBoundary(p[1..]);
    SlashedTail(p[0], Joined(p[1..]));
  }

  lemma JoinedStep(p: Path, q: Path)
    requires p != [] && q != [] && Joined(p) == Joined(q)
    ensures p[0] == q[0] && Joined(p[1..]) == Joined(q[1..])
  {
    JoinedUnfold(p);
    JoinedUnfold(q);
    SplitAtSlash(p[0], Joined(p[1..]), q[0], Joined(q[1..]));
  }

  lemma {:induction false} JoinedInjective(p: Path, q: Path)
    requires Joined(p) == Joined(q)
    ensures p == q
  {
    JoinedBoundary(p);
    JoinedBoundary(q);
    if p != [] {
      JoinedStep(p, q);
      JoinedInjective(p[1..], q[1..]);
      assert p == [p[0]] + p[1..] && q == [q[0]] + q[1..];
    }
  }

  /** Two paths with one string form are one path, so ordering by string is a total order on paths. */
  lemma PathStrInjective(p: Path, q: Path)
    requires PathStr(p) == PathStr(q)
    ensures p == q
  {
    if p != [] && q != [] {
      JoinedInjective(p, q);
    } else if p != [] {
      JoinedUnfold(p);
    } else if q != [] {
      JoinedUnfold(q);
    }
  }

  lemma PathKeyInjective(s: set<Path>)
    ensures InjectiveOn(s, PathKey)
  {
    forall x, y | x in s && y in s && PathKey(x) == PathKey(y)
      ensures x == y
    {
      PathStrInjective(x, y);
    }
  }

  lemma {:induction false} JoinedConcat(p: Path, q: Path)
    ensures Joined(p + q) == Joined(p) + Joined(q)
  {
    if p == [] {
      assert p + q == q;
      assert [] + Joined(q) == Joined(q);
    } else {
      assert (p + q)[0] == p[0] && (p + q)[1..] == p[1..] + q;
      JoinedConcat(p[1..], q);
      hide Slashed;
      assert Slashed(p[0]) + (Joined(p[1..]) + Joined(q)) == Slashed(p[0]) + Joined(p[1..]) + Joined(q);
    }
  }

  /** An ancestor sorts before everything beneath it: the order RefModel's rebuild relies on. */
  lemma AncestorSortsFirst(p: Path, q: Path)
    requires |p| < |q| && p <= q
    ensures LexLt(PathKey(p), PathKey(q))
  {
    var rest := q[|p|..];
    assert q == p + rest;
    JoinedConcat(p, rest);
    JoinedBoundary(rest);
    if p == [] {
      assert |Joined(q)| >= 1 + |q[0]|;
    }
    LexPrefix(PathKey(p), PathKey(q));
  }

  // ---- string operations agree with component operations ----

  /** `RepoPath::starts_with`, on strings. */
  predicate StartsWithStr(s: Str, other: Str) {
    other == [SLASH] || s == other || other + [SLASH] <= s
  }

  lemma SplitPrefix(a: Str, x: Str, b: Str, y: Str)
    requires SLASH !in a && SLASH !in b && Boundary(x) && Boundary(y)
    requires b + y + [SLASH] <= a + x
    ensures a == b && y + [SLASH] <= x
  {
    var t := (a + x)[|b + y + [SLASH]|..];
    assert a + x == b + y + [SLASH] + t;
    var rest := y + ([SLASH] + t);
    assert b + y + [SLASH] + t == b + rest;
    assert y == [] ==> rest == [SLASH] + t;
    SplitAtSlash(a, x, b, rest);
    assert rest == y + [SLASH] + t;
  }

  lemma PrefixDrop(v: Str, u: Str)
    requires v != [] && v + [SLASH] <= u
    ensures v[1..] + [SLASH] <= u[1..]
  {
    assert (v + [SLASH])[1..] == v[1..] + [SLASH];
    assert (v + [SLASH])[1..] <= u[1..];
  }

  lemma JoinedPrefixStep(p: Path, q: Path)
    requires p != [] && q != [] && Joined(q) + [SLASH] <= Joined(p)
    ensures p[0] == q[0] && Joined(q[1..]) + [SLASH] <= Joined(p[1..])
  {
    JoinedUnfold(p);
    JoinedUnfold(q);
    hide Joined;
    PrefixDrop(Joined(q), Joined(p));
    SplitPrefix(p[0], Joined(p[1..]), q[0], Joined(q[1..]));
  }

  lemma {:induction false} JoinedPrefix(p: Path, q: Path)
    requires p != [] && Joined(q) + [SLASH] <= Joined(p)
    ensures q <= p
  {
    if q != [] {
      JoinedPrefixStep(p, q);
      if p[1..] != [] {
        JoinedPrefix(p[1..], q[1..]);
      }
      assert p == [p[0]] + p[1..] && q == [q[0]] + q[1..];
    }
  }

  /** The string test means "is `q` or lies beneath it" for components, with no false sibling match. */
  lemma StartsWithIsPrefix(p: Path, q: Path)
    ensures StartsWithStr(PathStr(p), PathStr(q)) <==> q <= p
  {
    if q <= p && q != [] {
      var rest := p[|q|..];
      assert p == q + rest;
      JoinedConcat(q, rest);
      JoinedBoundary(rest);
      if rest != [] {
        assert Joined(rest) == [SLASH] + Joined(rest)[1..];
      } else {
        assert p == q;
      }
    }
    if StartsWithStr(PathStr(p), PathStr(q)) && q != [] {
      assert |Joined(q)| >= 1 + |q[0]|;
      if PathStr(p) == PathStr(q) {
        PathStrInjective(p, q);
      } else {
        assert p != [];
        JoinedPrefix(p, q);
      }
    }
  }

  // ---- parsing ----

  /** Index of the first slash at or after `i`, or the end of the string. */
  function SlashFrom(s: Str, i: nat): (j: nat)
    requires i <= |s|
    ensures i <= j <= |s| && SLASH !in s[i..j] && (j < |s| ==> s[j] == SLASH)
    decreases |s| - i
  {
    if i == |s| then i
    else if s[i] == SLASH then i
    else
      var j := SlashFrom(s, i + 1);
      assert s[i..j] == [s[i]] + s[i + 1..j];
      j
  }

  /** `str::split('/')`: one piece more than there are slashes. */
  function Split(s: Str): (r: seq<Str>)
    ensures r != []
    decreases |s|
  {
    var j := SlashFrom(s, 0);
    if j == |s| then [s] else [s[..j]] + Split(s[j + 1..])
  }

  function TrimSlashes(s: Str): Str {
    if s != [] && s[0] == SLASH then TrimSlashes(s[1..]) else s
  }

  function Named(parts: seq<Str>): Path
    requires forall part <- parts :: ValidName(part)
  {
    if parts == [] then [] else [parts[0]] + Named(parts[1..])
  }

  /** `RepoPath::parse`. */
  function Parse(input: Str): Result<Path> {
    if 0 in input then Err(InvalidPath)
    else
      var trimmed := TrimSlashes(input);
      if trimmed == [] then Ok([])
      else
        var parts := Split(trimmed);
        if exists part <- parts :: !ValidName(part) then Err(InvalidPath)
        else if |PathStr(Named(parts))| > MAX_PATH_BYTES then Err(InvalidPath)
        else Ok(Named(parts))
  }

  /** `RepoPath::join`. */
  function Join(p: Path, name: Str): Result<Path> {
    Parse(PathStr(p) + [SLASH] + name)
  }

  lemma SplitCons(a: Str, x: Str)
    requires SLASH !in a && Boundary(x)
    ensures Split(a + x) == if x == [] then [a] else [a] + Split(x[1..])
  {
    var s := a + x;
    var j := SlashFrom(s, 0);
    assert s == s[..j] + s[j..] && s[0..j] == s[..j];
    SplitAtSlash(a, x, s[..j], s[j..]);
    hide SlashFrom;
    if x == [] {
      assert j == |s| && s == a;
    } else {
      assert s[j + 1..] == s[j..][1..] == x[1..];
    }
  }

  lemma {:induction false} SplitJoined(p: Path)
    requires p != []
    ensures Split(Joined(p)[1..]) == p
  {
    JoinedUnfold(p);
    JoinedBoundary(p[1..]);
    SplitCons(p[0], Joined(p[1..]));
    if p[1..] == [] {
      assert p == [p[0]];
    } else {
      SplitJoined(p[1..]);
      assert p == [p[0]] + p[1..];
    }
  }

  lemma SplitOnceMore(s: Str)
    ensures var j := SlashFrom(s, 0);
            && (j == |s| ==> Split(s) == [s])
            && (j < |s| ==> Split(s)[0] == s[..j] && Split(s)[1..] == Split(s[j + 1..])
                            && s == s[..j] + ([SLASH] + s[j + 1..]))
  {
    hide SlashFrom;
    var j := SlashFrom(s, 0);
    if j < |s| {
      CutAt(s, j);
      var rest := Split(s[j + 1..]);
      assert ([s[..j]] + rest)[1..] == rest;
    }
  }

  lemma CutAt(s: Str, j: nat)
    requires j < |s|
    ensures s == s[..j] + ([s[j]] + s[j + 1..])
  {
  }

  lemma NamedStep(parts: seq<Str>)
    requires parts != [] && forall part <- parts :: ValidName(part)
    ensures forall part <- parts[1..] :: ValidName(part)
    ensures Joined(Named(parts)) == [SLASH] + parts[0] + Joined(Named(parts[1..]))
  {
    hide ValidName;
  }

  /** Joining the pieces of a string gives the string back. */
  lemma {:induction false} JoinedSplit(s: Str)
    requires forall part <- Split(s) :: ValidName(part)
    ensures Joined(Named(Split(s))) == [SLASH] + s
    decreases |s|
  {
    hide Split, ValidName, Joined, Named;
    var j := SlashFrom(s, 0);
    SplitOnceMore(s);
    NamedStep(Split(s));
    if j == |s| {
      assert [s][1..] == [];
      NothingJoined();
    } else {
      JoinedSplit(s[j + 1..]);
    }
  }

  lemma NothingJoined()
    ensures Joined(Named([])) == []
  {
  }

  lemma {:induction false} NamedIs(p: Path)
    ensures (forall part <- p :: ValidName(part)) && Named(p) == p
  {
    if p != [] {
      NamedIs(p[1..]);
      assert p == [p[0]] + p[1..];
    }
  }

  lemma {:induction false} JoinedNoNul(p: Path)
    ensures 0 !in Joined(p)
  {
    if p != [] {
      JoinedNoNul(p[1..]);
    }
  }

  lemma TrimJoined(p: Path)
    requires p != []
    ensures TrimSlashes(Joined(p)) == Joined(p)[1..] != []
  {
    JoinedUnfold(p);
    assert Joined(p)[1] == p[0][0] && p[0][0] in p[0];
  }

  lemma ParseJoined(p: Path, s: Str)
    requires p != [] && 0 !in s && TrimSlashes(s) == Joined(p)[1..] != []
    ensures |PathStr(p)| <= MAX_PATH_BYTES <==> Parse(s) == Ok(p)
  {
    SplitJoined(p);
    NamedIs(p);
  }

  /** Parsing inverts rendering: exactly the paths within the length limit survive the string form. */
  lemma ParseInvertsRender(p: Path)
    ensures |PathStr(p)| <= MAX_PATH_BYTES <==> Parse(PathStr(p)) == Ok(p)
  {
    if p == [] {
      assert TrimSlashes([SLASH]) == TrimSlashes([]) == [];
    } else {
      JoinedNoNul(p);
      TrimJoined(p);
      ParseJoined(p, Joined(p));
    }
  }

  lemma JoinedOne(name: Name)
    ensures Joined([name]) == Slashed(name)
  {
    assert Slashed(name) + [] == Slashed(name);
  }

  /** The string of a path without its leading slash. */
  function Relative(p: Path): Str {
    PathStr(p)[1..]
  }

  /** `s` is `rest` behind any number of slashes. */
  ghost predicate SlashesThen(s: Str, rest: Str) {
    exists k: nat :: k <= |s| && s[k..] == rest && forall i | 0 <= i < k :: s[i] == SLASH
  }

  lemma {:induction false} TrimIs(s: Str)
    ensures SlashesThen(s, TrimSlashes(s)) && (TrimSlashes(s) == [] || TrimSlashes(s)[0] != SLASH)
    ensures forall b <- TrimSlashes(s) :: b in s
    ensures forall b <- s :: b == SLASH || b in TrimSlashes(s)
    decreases |s|
  {
    hide SlashesThen;
    if s != [] && s[0] == SLASH {
      TrimIs(s[1..]);
      OneMoreSlash(s, TrimSlashes(s));
      assert s == [s[0]] + s[1..];
    } else {
      NoSlash(s);
    }
  }

  lemma OneMoreSlash(s: Str, rest: Str)
    requires s != [] && s[0] == SLASH && SlashesThen(s[1..], rest)
    ensures SlashesThen(s, rest)
  {
    var k: nat :| k <= |s[1..]| && s[1..][k..] == rest && forall i | 0 <= i < k :: s[1..][i] == SLASH;
    assert s[k + 1..] == s[1..][k..];
    assert forall i | 0 < i < k + 1 :: s[i] == s[1..][i - 1];
  }

  lemma NoSlash(s: Str)
    ensures SlashesThen(s, s)
  {
    assert s[0..] == s;
  }

  /** Two ways to cut the leading slashes off end at one place. */
  lemma SameCut(s: Str, a: Str, b: Str)
    requires SlashesThen(s, a) && SlashesThen(s, b) && (a == [] || a[0] != SLASH) && (b == [] || b[0] != SLASH)
    ensures a == b
  {
    var j: nat :| j <= |s| && s[j..] == a && forall i | 0 <= i < j :: s[i] == SLASH;
    var k: nat :| k <= |s| && s[k..] == b && forall i | 0 <= i < k :: s[i] == SLASH;
    assert j < |s| ==> a[0] == s[j];
    assert k < |s| ==> b[0] == s[k];
  }

  /** A string parses to a path exactly when it is that path's string, up to the number of leading slashes. */
  lemma ParseExactly(s: Str, p: Path)
    ensures Parse(s) == Ok(p) <==> SlashesThen(s, Relative(p)) && |PathStr(p)| <= MAX_PATH_BYTES
  {
    hide SlashesThen, Joined;
    var trimmed := TrimSlashes(s);
    TrimIs(s);
    RelativeStarts(p);
    if SlashesThen(s, Relative(p)) {
      SameCut(s, trimmed, Relative(p));
      if p != [] {
        JoinedNoNul(p);
        ParseJoined(p, s);
      }
    }
    if Parse(s) == Ok(p) {
      if trimmed == [] {
        assert Relative([]) == [];
      } else {
        JoinedSplit(trimmed);
        assert p == Named(Split(trimmed));
        RelativeOf(p, trimmed);
      }
    }
  }

  lemma RelativeStarts(p: Path)
    ensures Relative(p) == [] || Relative(p)[0] != SLASH
    ensures p != [] ==> Relative(p) == Joined(p)[1..] && Relative(p) != []
    ensures 0 !in Relative(p)
  {
    JoinedNoNul(p);
    if p != [] {
      JoinedUnfold(p);
      assert p[0][0] in p[0];
    }
  }

  lemma RelativeOf(p: Path, rest: Str)
    requires Joined(p) == [SLASH] + rest
    ensures p != [] && Relative(p) == rest
  {
  }

  lemma JoinString(p: Path, name: Name)
    ensures var s := PathStr(p) + [SLASH] + name;
            s == if p == [] then [SLASH] + Joined([name]) else Joined(p + [name])
  {
    JoinedOne(name);
    JoinedConcat(p, [name]);
    hide Joined;
    if p != [] {
      assert Joined(p) + [SLASH] + name == Joined(p) + Slashed(name);
    }
  }

  /** Joining a component extends the sequence by one, whenever the result still fits. */
  lemma JoinExtends(p: Path, name: Name)
    requires |PathStr(p + [name])| <= MAX_PATH_BYTES
    ensures Join(p, name) == Ok(p + [name])
  {
    var q := p + [name];
    JoinString(p, name);
    JoinedNoNul(q);
    TrimJoined(q);
    hide Joined;
    if p == [] {
      assert q == [name];
      assert ([SLASH] + Joined(q))[1..] == Joined(q);
    }
    ParseJoined(q, PathStr(p) + [SLASH] + name);
  }

  /** Moving a descendant by string surgery, as both rename loops do, moves its components. */
  lemma RebaseIsSuffix(from: Path, to: Path, p: Path)
    requires from != [] && to != [] && from <= p
    ensures PathStr(from) <= PathStr(p)
    ensures PathStr(to) + PathStr(p)[|PathStr(from)|..] == PathStr(to + p[|from|..])
  {
    var rest := p[|from|..];
    assert p == from + rest;
    JoinedConcat(from, rest);
    JoinedConcat(to, rest);
  }

  // ---- moving paths from one prefix to another ----

  /** Whether a path's string form is within the limit. */
  predicate Fits(p: Path) {
    |PathStr(p)| <= MAX_PATH_BYTES
  }

  predicate Apart(from: Path, to: Path) {
    from != [] && to != [] && !(from <= to) && !(to <= from)
  }

  /** What a rename may be asked to do: move to somewhere unrelated, or stay. */
  predicate Movable(from: Path, to: Path) {
    Apart(from, to) || (from == to && from != [])
  }

  function Rebased(p: Path, from: Path, to: Path): Path
    requires from <= p
  {
    to + p[|from|..]
  }

  lemma RebasedBack(p: Path, from: Path, to: Path)
    requires from <= p
    ensures to <= Rebased(p, from, to) && Rebased(Rebased(p, from, to), to, from) == p
  {
  }

  lemma RebasedSame(p: Path, from: Path)
    requires from <= p
    ensures Rebased(p, from, from) == p
  {
  }

  /** A path is beneath at most one of two unrelated prefixes. */
  lemma NotUnderBoth(p: Path, from: Path, to: Path)
    requires Apart(from, to) && from <= p
    ensures !(to <= p)
  {
  }

  /** Parsing a rendered path gives the path back, or an error when it is too long. */
  lemma ParsedIsRebased(p: Path)
    ensures Parse(PathStr(p)) == (if Fits(p) then Ok(p) else Parse(PathStr(p)))
    ensures !Fits(p) ==> Parse(PathStr(p)).Err?
  {
    ParseInvertsRender(p);
    if p != [] && !Fits(p) {
      TooLong(p);
    }
  }

  lemma TooLong(p: Path)
    requires p != [] && !Fits(p)
    ensures Parse(PathStr(p)).Err?
  {
    JoinedNoNul(p);
    TrimJoined(p);
    SplitJoined(p);
    NamedIs(p);
  }
}
