/** The matcher of `fnmatch`, for patterns of ordinary characters, escapes, `?` and
    `*`, without FNM_PERIOD, FNM_CASEFOLD and FNM_EXTMATCH. */
module Fnmatch {
  import opened Options

  datatype Flags = Flags(fileName: bool, noEscape: bool, leadingDir: bool)

  // ---------------------------------------------------------------------------
  // What a pattern means

  datatype Elem = Lit(c: char, escaped: bool) | Any | Star

  /** The elements of a pattern; none if it ends in a backslash that escapes
      nothing, in which case it matches nothing. */
  function Compile(fl: Flags, p: string): Option<seq<Elem>> {
    if p == [] then Some([])
    else if p[0] == '?' then Cons(Any, Compile(fl, p[1..]))
    else if p[0] == '*' then Cons(Star, Compile(fl, p[1..]))
    else if p[0] == '\\' && !fl.noEscape then
      if |p| == 1 then None else Cons(Lit(p[1], true), Compile(fl, p[2..]))
    else Cons(Lit(p[0], false), Compile(fl, p[1..]))
  }

  function Cons(e: Elem, es: Option<seq<Elem>>): Option<seq<Elem>> {
    if es.None? then None else Some([e] + es.value)
  }

  /** No bracket expression begins anywhere in the pattern. */
  predicate BracketFree(fl: Flags, p: string) {
    p == [] ||
    if p[0] == '\\' && !fl.noEscape then |p| == 1 || BracketFree(fl, p[2..]) else p[0] != '[' && BracketFree(fl, p[1..])
  }

  /** A piece of the string that an element can stand for: under FNM_PATHNAME,
      wildcards do not match a slash. */
  predicate Covers(fl: Flags, e: Elem, piece: string) {
    match e
    case Lit(c, _) => piece == [c]
    case Any => |piece| == 1 && (fl.fileName ==> '/' !in piece)
    case Star => fl.fileName ==> '/' !in piece
  }

  function Concat(pieces: seq<string>): string {
    if pieces == [] then [] else pieces[0] + Concat(pieces[1..])
  }

  /** What may be left of the string after the pattern. */
  predicate RestOk(fl: Flags, rest: string) {
    rest == [] || (fl.leadingDir && rest[0] == '/')
  }

  ghost predicate Covered(fl: Flags, es: seq<Elem>, s: string, pieces: seq<string>, rest: string) {
    && |pieces| == |es| && s == Concat(pieces) + rest && RestOk(fl, rest)
    && forall i :: 0 <= i < |es| ==> Covers(fl, es[i], pieces[i])
  }

  /** The string falls into pieces, one for each element of the pattern. */
  ghost predicate Glob(fl: Flags, es: seq<Elem>, s: string) {
    exists pieces, rest :: Covered(fl, es, s, pieces, rest)
  }

  lemma CoveredTail(fl: Flags, es: seq<Elem>, s: string, pieces: seq<string>, rest: string)
    requires es != [] && Covered(fl, es, s, pieces, rest)
    ensures Covers(fl, es[0], pieces[0]) && pieces[0] <= s && Covered(fl, es[1..], s[|pieces[0]|..], pieces[1..], rest)
  {
    assert s == pieces[0] + (Concat(pieces[1..]) + rest);
    assert s[|pieces[0]|..] == Concat(pieces[1..]) + rest;
  }

  lemma GlobCons(fl: Flags, e: Elem, es: seq<Elem>, s: string, k: nat)
    requires k <= |s| && Covers(fl, e, s[..k]) && Glob(fl, es, s[k..])
    ensures Glob(fl, [e] + es, s)
  {
    var pieces, rest :| Covered(fl, es, s[k..], pieces, rest);
    var pieces' := [s[..k]] + pieces;
    assert pieces'[1..] == pieces;
    assert s == s[..k] + s[k..];
    assert Covered(fl, [e] + es, s, pieces', rest);
  }

  lemma GlobUncons(fl: Flags, e: Elem, es: seq<Elem>, s: string) returns (k: nat)
    requires Glob(fl, [e] + es, s)
    ensures k <= |s| && Covers(fl, e, s[..k]) && Glob(fl, es, s[k..])
  {
    var pieces, rest :| Covered(fl, [e] + es, s, pieces, rest);
    CoveredTail(fl, [e] + es, s, pieces, rest);
    k := |pieces[0]|;
    assert ([e] + es)[1..] == es;
    assert Covered(fl, es, s[k..], pieces[1..], rest);
  }

  lemma GlobEnd(fl: Flags, s: string)
    ensures Glob(fl, [], s) <==> RestOk(fl, s)
  {
    if RestOk(fl, s) { assert Covered(fl, [], s, [], s); }
    if Glob(fl, [], s) {
      var pieces, rest :| Covered(fl, [], s, pieces, rest);
      assert s == rest;
    }
  }

  /** A character, and `?`, match the first character of the string. */
  lemma GlobOne(fl: Flags, e: Elem, es: seq<Elem>, s: string)
    requires !e.Star?
    ensures Glob(fl, [e] + es, s) <==> s != [] && Covers(fl, e, s[..1]) && Glob(fl, es, s[1..])
  {
    if Glob(fl, [e] + es, s) { var k := GlobUncons(fl, e, es, s); assert k == 1; }
    if s != [] && Covers(fl, e, s[..1]) && Glob(fl, es, s[1..]) { GlobCons(fl, e, es, s, 1); }
  }

  /** A star takes something, or leaves the string to the rest of the pattern. */
  lemma GlobStar(fl: Flags, es: seq<Elem>, s: string)
    ensures Glob(fl, [Star] + es, s) <==>
            Glob(fl, es, s) || (s != [] && (fl.fileName ==> s[0] != '/') && Glob(fl, [Star] + es, s[1..]))
  {
    if Glob(fl, [Star] + es, s) {
      var k := GlobUncons(fl, Star, es, s);
      if k == 0 {
        assert s[0..] == s;
      } else {
        assert s[1..][k - 1..] == s[k..];
        assert forall c :: c in s[1..][..k - 1] ==> c in s[..k];
        assert s[..k][0] == s[0];
        GlobCons(fl, Star, es, s[1..], k - 1);
      }
    }
    if Glob(fl, es, s) {
      assert s[0..] == s;
      GlobCons(fl, Star, es, s, 0);
    }
    if s != [] && (fl.fileName ==> s[0] != '/') && Glob(fl, [Star] + es, s[1..]) {
      var k := GlobUncons(fl, Star, es, s[1..]);
      assert s[1..][k..] == s[k + 1..];
      assert s[..k + 1] == [s[0]] + s[1..][..k];
      GlobCons(fl, Star, es, s, k + 1);
    }
  }

  /** Another star adds nothing. */
  lemma {:induction false} GlobStarStar(fl: Flags, es: seq<Elem>, s: string)
    ensures Glob(fl, [Star] + ([Star] + es), s) <==> Glob(fl, [Star] + es, s)
    decreases |s|
  {
    GlobStar(fl, [Star] + es, s);
    GlobStar(fl, es, s);
    if s != [] { GlobStarStar(fl, es, s[1..]); }
  }

  /** A star and a question mark can change places. */
  lemma {:induction false} GlobStarAny(fl: Flags, es: seq<Elem>, s: string)
    ensures Glob(fl, [Star] + ([Any] + es), s) <==>
            s != [] && (fl.fileName ==> s[0] != '/') && Glob(fl, [Star] + es, s[1..])
    decreases |s|
  {
    GlobStar(fl, [Any] + es, s);
    GlobOne(fl, Any, es, s);
    if s != [] {
      assert s[..1] == [s[0]];
      GlobStar(fl, es, s[1..]);
      GlobStarAny(fl, es, s[1..]);
    }
  }

  /** A star at the end takes all there is, but no slash under FNM_PATHNAME. */
  lemma {:induction false} GlobLastStar(fl: Flags, s: string)
    ensures Glob(fl, [Star], s) <==> (fl.fileName && !fl.leadingDir ==> '/' !in s)
    decreases |s|
  {
    assert [Star] + [] == [Star];
    GlobStar(fl, [], s);
    GlobEnd(fl, s);
    if s != [] {
      GlobLastStar(fl, s[1..]);
      assert '/' in s <==> s[0] == '/' || '/' in s[1..];
    }
  }

  // ---------------------------------------------------------------------------
  // Where the matcher goes wrong

  /** The pattern goes on with wildcards and then an escaped slash. */
  predicate RunThenSlash(es: seq<Elem>) {
    es != [] && (es[0] == Lit('/', true) || (!es[0].Lit? && RunThenSlash(es[1..])))
  }

  /** A star is followed, possibly after more wildcards, by an escaped slash. */
  predicate SlashTrap(es: seq<Elem>) {
    es != [] && ((es[0].Star? && RunThenSlash(es[1..])) || SlashTrap(es[1..]))
  }

  /** What the matcher accepts. */
  ghost predicate Accepts(fl: Flags, es: Option<seq<Elem>>, s: string) {
    es.Some? && Glob(fl, es.value, s) && !(fl.fileName && SlashTrap(es.value))
  }

  lemma TrapCons(e: Elem, es: seq<Elem>)
    ensures SlashTrap([e] + es) <==> (e.Star? && RunThenSlash(es)) || SlashTrap(es)
    ensures RunThenSlash([e] + es) <==> e == Lit('/', true) || (!e.Lit? && RunThenSlash(es))
  {
    assert ([e] + es)[1..] == es;
  }

  lemma AcceptsOne(fl: Flags, e: Elem, es: Option<seq<Elem>>, s: string)
    requires !e.Star?
    ensures Accepts(fl, Cons(e, es), s) <==> s != [] && Covers(fl, e, [s[0]]) && Accepts(fl, es, s[1..])
  {
    if es.Some? {
      GlobOne(fl, e, es.value, s);
      TrapCons(e, es.value);
      assert s != [] ==> s[..1] == [s[0]];
    }
  }

  lemma AcceptsStarAny(fl: Flags, es: Option<seq<Elem>>, s: string)
    ensures Accepts(fl, Cons(Star, Cons(Any, es)), s) <==>
            s != [] && (fl.fileName ==> s[0] != '/') && Accepts(fl, Cons(Star, es), s[1..])
  {
    if es.Some? {
      GlobStarAny(fl, es.value, s);
      TrapCons(Any, es.value);
      TrapCons(Star, [Any] + es.value);
      TrapCons(Star, es.value);
    }
  }

  lemma AcceptsStarStar(fl: Flags, es: Option<seq<Elem>>, s: string)
    ensures Accepts(fl, Cons(Star, Cons(Star, es)), s) <==> Accepts(fl, Cons(Star, es), s)
  {
    if es.Some? {
      GlobStarStar(fl, es.value, s);
      TrapCons(Star, [Star] + es.value);
      TrapCons(Star, es.value);
    }
  }

  /** A star before a character: find the character, not beyond a slash. */
  lemma AcceptsStarLit(fl: Flags, c: char, escaped: bool, es: Option<seq<Elem>>, s: string)
    ensures Accepts(fl, Cons(Star, Cons(Lit(c, escaped), es)), s) <==>
            && !(fl.fileName && c == '/' && escaped)
            && s != []
            && ((s[0] == c && Accepts(fl, es, s[1..]))
                || ((fl.fileName ==> s[0] != '/') && Accepts(fl, Cons(Star, Cons(Lit(c, escaped), es)), s[1..])))
  {
    if es.Some? {
      var e := Lit(c, escaped);
      GlobStar(fl, [e] + es.value, s);
      GlobOne(fl, e, es.value, s);
      TrapCons(e, es.value);
      TrapCons(Star, [e] + es.value);
      assert s != [] ==> s[..1] == [s[0]];
      if s == [] { assert !Glob(fl, [e] + es.value, s); }
    }
  }

  // ---------------------------------------------------------------------------
  // The matcher

  /** The rest of the pattern, as elements. */
  ghost function From(fl: Flags, p: string, i: nat): Option<seq<Elem>>
    requires i <= |p|
  {
    Compile(fl, p[i..])
  }

  lemma FromStep(fl: Flags, p: string, i: nat)
    requires i < |p| && BracketFree(fl, p[i..])
    ensures p[i] == '?' ==> From(fl, p, i) == Cons(Any, From(fl, p, i + 1)) && BracketFree(fl, p[i + 1..])
    ensures p[i] == '*' ==> From(fl, p, i) == Cons(Star, From(fl, p, i + 1)) && BracketFree(fl, p[i + 1..])
    ensures p[i] == '\\' && !fl.noEscape ==>
              if i + 1 == |p| then From(fl, p, i) == None
              else From(fl, p, i) == Cons(Lit(p[i + 1], true), From(fl, p, i + 2)) && BracketFree(fl, p[i + 2..])
    ensures p[i] != '?' && p[i] != '*' && (p[i] == '\\' ==> fl.noEscape) ==>
              From(fl, p, i) == Cons(Lit(p[i], false), From(fl, p, i + 1)) && BracketFree(fl, p[i + 1..])
  {
    assert p[i..][1..] == p[i + 1..];
    assert i + 1 < |p| ==> p[i..][2..] == p[i + 2..];
  }

  predicate NoNul(s: string) { '\0' !in s }

  /** `FCT`: does the pattern from `i0` on match the string from `n0` on? Exactly if
      the string falls into pieces for its elements, except that under
      FNM_PATHNAME nothing matches a pattern with an escaped slash after a star. */
  method Match(p: string, i0: nat, s: string, n0: nat, fl: Flags) returns (matched: bool)
    requires i0 <= |p| && n0 <= |s| && BracketFree(fl, p[i0..]) && NoNul(s)
    ensures matched <==> Accepts(fl, From(fl, p, i0), s[n0..])
    decreases |p| - i0, 1
  {
    var i, n := i0, n0;
    hide Accepts, From, NoNul, BracketFree;
    while i < |p|
      invariant i0 <= i <= |p| && n0 <= n <= |s| && BracketFree(fl, p[i..])
      invariant Accepts(fl, From(fl, p, i), s[n..]) <==> Accepts(fl, From(fl, p, i0), s[n0..])
    {
      FromStep(fl, p, i);
      assert n < |s| ==> s[n..][0] == s[n] && s[n..][1..] == s[n + 1..];
      var c := p[i];
      i := i + 1;
      if c == '?' {
        AcceptsOne(fl, Any, From(fl, p, i), s[n..]);
        if n == |s| {
          return false;
        } else if s[n] == '/' && fl.fileName {
          return false;
        }
      } else if c == '\\' {
        ghost var escaped := !fl.noEscape;
        if !fl.noEscape {
          if i == |p| {
            AcceptsNone(fl, s[n..]);
            return false;
          }
          c := p[i];
          i := i + 1;
        }
        AcceptsOne(fl, Lit(c, escaped), From(fl, p, i), s[n..]);
        if n == |s| || s[n] != c {
          return false;
        }
      } else if c == '*' {
        matched := MatchStar(p, i, s, n, fl);
        return;
      } else {
        AcceptsOne(fl, Lit(c, false), From(fl, p, i), s[n..]);
        if n == |s| || s[n] != c {
          return false;
        }
      }
      n := n + 1;
    }
    AcceptsEnd(fl, p, s[n..]);
    assert n < |s| ==> s[n..][0] == s[n];
    return n == |s| || (fl.leadingDir && s[n] == '/');
  }

  lemma AcceptsNone(fl: Flags, s: string)
    ensures !Accepts(fl, None, s)
  {
  }

  lemma AcceptsEnd(fl: Flags, p: string, s: string)
    ensures Accepts(fl, From(fl, p, |p|), s) <==> RestOk(fl, s)
  {
    GlobEnd(fl, s);
  }

  lemma AcceptsLastStar(fl: Flags, p: string, s: string)
    ensures Accepts(fl, Cons(Star, From(fl, p, |p|)), s) <==> (fl.fileName && !fl.leadingDir ==> '/' !in s)
  {
    assert [Star] + [] == [Star];
    GlobLastStar(fl, s);
  }

  /** The rest of the case `*`: the wildcards right after it, then the backtracking
      search for the character that follows. */
  method MatchStar(p: string, i0: nat, s: string, n0: nat, fl: Flags) returns (matched: bool)
    requires i0 <= |p| && n0 <= |s| && BracketFree(fl, p[i0..]) && NoNul(s)
    ensures matched <==> Accepts(fl, Cons(Star, From(fl, p, i0)), s[n0..])
    decreases |p| - i0, 3
  {
    hide Accepts, From, NoNul, BracketFree, Cons;
    var i, n := i0, n0;
    while i < |p| && (p[i] == '?' || p[i] == '*')
      invariant i0 <= i <= |p| && n0 <= n <= |s| && BracketFree(fl, p[i..])
      invariant Accepts(fl, Cons(Star, From(fl, p, i)), s[n..]) <==> Accepts(fl, Cons(Star, From(fl, p, i0)), s[n0..])
    {
      FromStep(fl, p, i);
      AcceptsStarAny(fl, From(fl, p, i + 1), s[n..]);
      AcceptsStarStar(fl, From(fl, p, i + 1), s[n..]);
      assert n < |s| ==> s[n..][0] == s[n] && s[n..][1..] == s[n + 1..];
      if p[i] == '?' {
        if n == |s| {
          return false;
        } else if s[n] == '/' && fl.fileName {
          return false;
        }
        n := n + 1;
      }
      i := i + 1;
    }
    if i == |p| {
      AcceptsLastStar(fl, p, s[n..]);
      var e := FindChar(s, n, '/');
      assert '/' in s[n..] <==> e < |s|;
      matched := !fl.fileName || fl.leadingDir || e == |s|;
    } else if p[i] == '/' && fl.fileName {
      matched := MatchSlash(p, i, s, n, fl);
    } else {
      matched := MatchLater(p, i, s, n, fl);
    }
  }

  /** `MEMCHR`, with the end of the string for NULL. */
  method FindChar(s: string, n: nat, c: char) returns (e: nat)
    requires n <= |s|
    ensures n <= e <= |s| && c !in s[n..e] && (e < |s| ==> s[e] == c)
    ensures c in s[n..] <==> e < |s|
  {
    e := n;
    while e < |s| && s[e] != c
      invariant n <= e <= |s| && c !in s[n..e]
    {
      assert s[n..e + 1] == s[n..e] + [s[e]];
      e := e + 1;
    }
    if e < |s| {
      assert s[n..][e - n] == c;
    } else {
      assert s[n..e] == s[n..];
    }
  }

  /** A star before a slash under FNM_PATHNAME: only the next slash will do. */
  method MatchSlash(p: string, i: nat, s: string, n0: nat, fl: Flags) returns (matched: bool)
    requires i < |p| && p[i] == '/' && fl.fileName && n0 <= |s| && BracketFree(fl, p[i..]) && NoNul(s)
    ensures matched <==> Accepts(fl, Cons(Star, From(fl, p, i)), s[n0..])
    decreases |p| - i, 2
  {
    hide Accepts, From, NoNul, BracketFree, Cons;
    var n := n0;
    FromStep(fl, p, i);
    ghost var es := From(fl, p, i + 1);
    while n < |s| && s[n] != '/'
      invariant n0 <= n <= |s|
      invariant Accepts(fl, Cons(Star, From(fl, p, i)), s[n..]) <==> Accepts(fl, Cons(Star, From(fl, p, i)), s[n0..])
    {
      AcceptsStarLit(fl, '/', false, es, s[n..]);
      assert s[n..][0] == s[n] && s[n..][1..] == s[n + 1..];
      n := n + 1;
    }
    AcceptsStarLit(fl, '/', false, es, s[n..]);
    matched := false;
    if n < |s| && s[n] == '/' {
      assert s[n..][0] == s[n] && s[n..][1..] == s[n + 1..];
      matched := Match(p, i + 1, s, n + 1, fl);
    }
  }

  /** A star before another character: every occurrence up to the next slash is
      tried in turn. */
  method MatchLater(p: string, i: nat, s: string, n0: nat, fl: Flags) returns (matched: bool)
    requires i < |p| && p[i] != '?' && p[i] != '*' && !(p[i] == '/' && fl.fileName)
    requires n0 <= |s| && BracketFree(fl, p[i..]) && NoNul(s)
    ensures matched <==> Accepts(fl, Cons(Star, From(fl, p, i)), s[n0..])
    decreases |p| - i, 2
  {
    hide Accepts, From, BracketFree, Cons;
    var endp := FindChar(s, n0, if fl.fileName then '/' else '\0');
    FromStep(fl, p, i);
    var c := p[i];
    ghost var escaped := c == '\\' && !fl.noEscape;
    if c == '\\' && !fl.noEscape {
      c := if i + 1 == |p| then '\0' else p[i + 1];
    }
    ghost var broken := escaped && i + 1 == |p|;
    ghost var es := if broken then None else From(fl, p, if escaped then i + 2 else i + 1);
    assert !broken ==> From(fl, p, i) == Cons(Lit(c, escaped), es);
    assert endp < |s| ==> fl.fileName && s[endp] == '/';
    var n := n0;
    while n < endp
      invariant n0 <= n <= endp
      invariant Accepts(fl, Cons(Star, From(fl, p, i)), s[n..]) <==> Accepts(fl, Cons(Star, From(fl, p, i)), s[n0..])
    {
      assert s[n] in s[n0..endp] by { assert s[n0..endp][n - n0] == s[n]; }
      assert s[n] in s && s[n..][0] == s[n] && s[n..][1..] == s[n + 1..];
      assert s[n] != '\0';
      if !broken {
        AcceptsStarLit(fl, c, escaped, es, s[n..]);
        AcceptsStarLit(fl, c, escaped, es, s[n + 1..]);
        AcceptsOne(fl, Lit(c, escaped), es, s[n..]);
      } else {
        AcceptsBroken(fl, s[n..]);
        AcceptsBroken(fl, s[n + 1..]);
      }
      if s[n] == c {
        var found := Match(p, i, s, n, fl);
        if found {
          return true;
        }
      }
      n := n + 1;
    }
    assert n < |s| ==> s[n..][0] == s[n];
    if !broken {
      AcceptsStarLit(fl, c, escaped, es, s[n..]);
    } else {
      AcceptsBroken(fl, s[n..]);
    }
    return false;
  }

  lemma AcceptsBroken(fl: Flags, s: string)
    ensures !Accepts(fl, Cons(Star, None), s)
  {
  }

  /** The whole pattern against the whole string. */
  method Fnmatch(p: string, s: string, fl: Flags) returns (matched: bool)
    requires BracketFree(fl, p) && NoNul(s)
    ensures matched <==> Accepts(fl, Compile(fl, p), s)
  {
    assert p[0..] == p && s[0..] == s;
    matched := Match(p, 0, s, 0, fl);
  }

  // ---------------------------------------------------------------------------
  // When that is the glob relation

  /** A string that fits the elements, one character for each but the stars. */
  function Sample(es: seq<Elem>): string {
    if es == [] then []
    else match es[0] {
      case Lit(c, _) => [c] + Sample(es[1..])
      case Any => ['a'] + Sample(es[1..])
      case Star => Sample(es[1..])
    }
  }

  lemma {:induction false} SampleFits(fl: Flags, es: seq<Elem>)
    ensures Glob(fl, es, Sample(es))
  {
    if es == [] {
      GlobEnd(fl, []);
    } else {
      SampleFits(fl, es[1..]);
      assert es == [es[0]] + es[1..];
      var k := if es[0].Star? then 0 else 1;
      assert Sample(es)[k..] == Sample(es[1..]);
      GlobCons(fl, es[0], es[1..], Sample(es), k);
    }
  }

  /** The matcher is right about a pattern, for all strings, exactly if the pattern
      has no escaped slash after a star or FNM_PATHNAME is off. */
  lemma RightExactlyWhen(fl: Flags, es: seq<Elem>)
    ensures (forall s :: Accepts(fl, Some(es), s) <==> Glob(fl, es, s)) <==> !(fl.fileName && SlashTrap(es))
  {
    SampleFits(fl, es);
  }

  /** `*\/` does not match `/` under FNM_PATHNAME. */
  lemma EscapedSlashMissed()
    ensures var fl := Flags(true, false, false);
            Glob(fl, Compile(fl, "*\\/").value, "/") && !Accepts(fl, Compile(fl, "*\\/"), "/")
  {
    var fl := Flags(true, false, false);
    var p := "*\\/";
    var q := p[1..];
    assert q[0] == '\\' && q[1] == '/' && q[2..] == [];
    assert Compile(fl, []) == Some([]);
    var es := [Star, Lit('/', true)];
    assert [Lit('/', true)] + [] == [Lit('/', true)] && [Star] + [Lit('/', true)] == es;
    assert Compile(fl, q) == Some([Lit('/', true)]);
    assert Compile(fl, p) == Some(es);
    assert es[1..] == [Lit('/', true)] && es[1..][1..] == [];
    SampleFits(fl, es);
    assert Sample(es) == "/";
  }
}
