/** Path names: splitting, and the ancestors that the file system rebuilds from the pieces. */
module Paths {
  import opened Bytes

  const SLASH: byte := 47
  const TOKCOUNT := 32
  const TOKLEN := 64

  // ----- Splitting -----

  /** The tokens that `split` still finds in `s` when it already has `toks` and is inside `cur`.
      Characters beyond the 63rd of a token are dropped, and so is everything after token 32. */
  function SplitOn(s: seq<byte>, deli: byte, toks: seq<seq<byte>>, cur: seq<byte>): (r: seq<seq<byte>>)
    requires |toks| < TOKCOUNT && |cur| < TOKLEN
    ensures |toks| <= |r| <= TOKCOUNT && r[..|toks|] == toks
    ensures forall k :: |toks| <= k < |r| ==> 0 < |r[k]| < TOKLEN
    decreases |s|
  {
    if s == [] then (if cur != [] then toks + [cur] else toks)
    else if s[0] == deli then
      if cur == [] then SplitOn(s[1..], deli, toks, [])
      else if |toks| + 1 >= TOKCOUNT then toks + [cur]
      else SplitOn(s[1..], deli, toks + [cur], [])
    else SplitOn(s[1..], deli, toks, if |cur| < TOKLEN - 1 then cur + [s[0]] else cur)
  }

  function Split(s: seq<byte>, deli: byte): seq<seq<byte>> {
    SplitOn(s, deli, [], [])
  }

  /** A token that `split` can return whole. */
  predicate Token(t: seq<byte>, deli: byte) {
    0 < |t| < TOKLEN && deli !in t
  }

  function Run(deli: byte, n: nat): (r: seq<byte>)
    ensures |r| == n && forall i :: 0 <= i < n ==> r[i] == deli
  {
    seq(n, _ => deli)
  }

  /** Tokens with runs of delimiters before, between and after them. */
  function Spread(toks: seq<seq<byte>>, deli: byte, gaps: seq<nat>): seq<byte>
    requires |gaps| == |toks| + 1
  {
    if toks == [] then Run(deli, gaps[0]) else Run(deli, gaps[0]) + toks[0] + Spread(toks[1..], deli, gaps[1..])
  }

  lemma {:induction false} SkipRun(n: nat, s: seq<byte>, deli: byte, toks: seq<seq<byte>>)
    requires |toks| < TOKCOUNT
    ensures SplitOn(Run(deli, n) + s, deli, toks, []) == SplitOn(s, deli, toks, [])
    decreases n
  {
    if n == 0 {
      assert Run(deli, 0) + s == s;
    } else {
      assert (Run(deli, n) + s)[1..] == Run(deli, n - 1) + s;
      SkipRun(n - 1, s, deli, toks);
    }
  }

  lemma {:induction false} TakeToken(t: seq<byte>, s: seq<byte>, deli: byte, toks: seq<seq<byte>>, cur: seq<byte>)
    requires |toks| < TOKCOUNT && |cur| + |t| < TOKLEN && deli !in t
    ensures SplitOn(t + s, deli, toks, cur) == SplitOn(s, deli, toks, cur + t)
    decreases |t|
  {
    if t == [] {
      assert t + s == s && cur + t == cur;
    } else {
      assert (t + s)[1..] == t[1..] + s && (t + s)[0] == t[0];
      assert t[0] in t;
      TakeToken(t[1..], s, deli, toks, cur + [t[0]]);
      assert cur + [t[0]] + t[1..] == cur + t;
    }
  }

  lemma {:induction false} SplitSpread(toks: seq<seq<byte>>, deli: byte, gaps: seq<nat>, done: seq<seq<byte>>)
    requires |gaps| == |toks| + 1 && |done| + |toks| <= TOKCOUNT && |done| < TOKCOUNT
    requires forall t :: t in toks ==> Token(t, deli)
    requires forall k :: 0 < k < |toks| ==> gaps[k] > 0
    ensures SplitOn(Spread(toks, deli, gaps), deli, done, []) == done + toks
    decreases |toks|
  {
    if toks == [] {
      assert Run(deli, gaps[0]) + [] == Run(deli, gaps[0]);
      SkipRun(gaps[0], [], deli, done);
    } else {
      var t, rest := toks[0], Spread(toks[1..], deli, gaps[1..]);
      assert Run(deli, gaps[0]) + t + rest == Run(deli, gaps[0]) + (t + rest);
      SkipRun(gaps[0], t + rest, deli, done);
      assert t in toks;
      TakeToken(t, rest, deli, done, []);
      assert [] + t == t && done + [t] + toks[1..] == done + toks;
      AfterToken(toks, deli, gaps, done);
      if |toks| > 1 { SplitSpread(toks[1..], deli, gaps[1..], done + [t]); }
    }
  }

  /** A run of delimiters ends the token before it. */
  lemma EndToken(t: seq<byte>, g: nat, tail: seq<byte>, deli: byte, done: seq<seq<byte>>)
    requires 0 < |t| < TOKLEN && g > 0 && |done| + 1 < TOKCOUNT
    ensures SplitOn(Run(deli, g) + tail, deli, done, t) == SplitOn(tail, deli, done + [t], [])
  {
    assert (Run(deli, g) + tail)[1..] == Run(deli, g - 1) + tail;
    SkipRun(g - 1, tail, deli, done + [t]);
  }

  /** What `split` does right after the first token of a spread list. */
  lemma AfterToken(toks: seq<seq<byte>>, deli: byte, gaps: seq<nat>, done: seq<seq<byte>>)
    requires toks != [] && |gaps| == |toks| + 1 && |done| + |toks| <= TOKCOUNT && |done| < TOKCOUNT
    requires Token(toks[0], deli) && (|toks| > 1 ==> gaps[1] > 0)
    ensures var rest := Spread(toks[1..], deli, gaps[1..]);
            SplitOn(rest, deli, done, toks[0]) ==
            if |toks| == 1 then done + [toks[0]] else SplitOn(rest, deli, done + [toks[0]], [])
  {
    if |toks| > 1 { MoreTokens(toks, deli, gaps, done); } else { LastToken(toks[0], gaps[1], deli, done); }
  }

  lemma MoreTokens(toks: seq<seq<byte>>, deli: byte, gaps: seq<nat>, done: seq<seq<byte>>)
    requires |toks| > 1 && |gaps| == |toks| + 1 && |done| + |toks| <= TOKCOUNT && Token(toks[0], deli) && gaps[1] > 0
    ensures var rest := Spread(toks[1..], deli, gaps[1..]);
            SplitOn(rest, deli, done, toks[0]) == SplitOn(rest, deli, done + [toks[0]], [])
  {
    var t, g, tail := toks[0], gaps[1], toks[1] + Spread(toks[1..][1..], deli, gaps[1..][1..]);
    assert Spread(toks[1..], deli, gaps[1..]) == Run(deli, g) + tail;
    hide SplitOn, Spread;
    EndToken(t, g, tail, deli, done);
    SkipRun(g, tail, deli, done + [t]);
  }

  lemma LastToken(t: seq<byte>, g: nat, deli: byte, done: seq<seq<byte>>)
    requires Token(t, deli) && |done| < TOKCOUNT
    ensures SplitOn(Spread([], deli, [g]), deli, done, t) == done + [t]
  {
    assert Spread([], deli, [g]) == Run(deli, g) + [];
    if g > 0 && |done| + 1 < TOKCOUNT { EndToken(t, g, [], deli, done); }
  }

  /** Row `r` of a token table holds `t` and its terminator. */
  ghost predicate RowIs(tok: array2<byte>, r: int, t: seq<byte>)
    reads tok
  {
    && 0 <= r < tok.Length0 && |t| < tok.Length1 && tok[r, |t|] == 0
    && forall c :: 0 <= c < |t| ==> tok[r, c] == t[c]
  }

  /** The first rows hold these tokens, and the next one what has been read of another. */
  ghost predicate Rows(tok: array2<byte>, toks: seq<seq<byte>>, cur: seq<byte>)
    reads tok
  {
    && tok.Length0 == TOKCOUNT && tok.Length1 == TOKLEN && |toks| <= TOKCOUNT && |cur| < TOKLEN
    && (forall r :: 0 <= r < |toks| ==> RowIs(tok, r, toks[r]))
    && (|toks| == TOKCOUNT ==> cur == [])
    && forall k :: 0 <= k < |cur| ==> tok[|toks|, k] == cur[k]
  }

  method PutChar(tok: array2<byte>, x: byte, ghost toks: seq<seq<byte>>, ghost cur: seq<byte>, count: nat, c: nat)
    requires Rows(tok, toks, cur) && |toks| == count < TOKCOUNT && |cur| == c < TOKLEN - 1
    modifies tok
    ensures Rows(tok, toks, cur + [x])
  {
    tok[count, c] := x;
  }

  method EndRow(tok: array2<byte>, ghost toks: seq<seq<byte>>, ghost cur: seq<byte>, count: nat, c: nat)
    requires Rows(tok, toks, cur) && |toks| == count < TOKCOUNT && |cur| == c
    modifies tok
    ensures Rows(tok, toks + [cur], [])
  {
    tok[count, c] := 0;
  }

  /** `split`: the rows of the table receive the tokens. */
  method SplitInto(tok: array2<byte>, str: seq<byte>, deli: byte) returns (count: nat)
    requires tok.Length0 == TOKCOUNT && tok.Length1 == TOKLEN
    modifies tok
    ensures count == |Split(str, deli)| && forall r :: 0 <= r < count ==> RowIs(tok, r, Split(str, deli)[r])
  {
    hide RowIs;
    forall r, c | 0 <= r < TOKCOUNT && 0 <= c < TOKLEN { tok[r, c] := 0; }
    count := 0;
    var c, i, full := 0, 0, false;
    ghost var toks: seq<seq<byte>>, cur: seq<byte> := [], [];
    assert str[0..] == str;
    while i < |str| && !full
      invariant 0 <= i <= |str| && |cur| == c && |toks| == count && Rows(tok, toks, cur)
      invariant full <==> count == TOKCOUNT
      invariant full ==> toks == Split(str, deli)
      invariant !full ==> SplitOn(str[i..], deli, toks, cur) == Split(str, deli)
      decreases |str| - i, !full
    {
      SplitStep(str, i, deli, toks, cur);
      hide SplitOn, Split, Rows;
      if str[i] == deli {
        if c > 0 {
          EndRow(tok, toks, cur, count, c);
          toks, cur := toks + [cur], [];
          count, c := count + 1, 0;
          if count >= TOKCOUNT { full := true; }
        }
      } else if c < TOKLEN - 1 {
        PutChar(tok, str[i], toks, cur, count, c);
        cur := cur + [str[i]];
        c := c + 1;
      }
      i := i + 1;
    }
    if c > 0 && count < TOKCOUNT {
      EndRow(tok, toks, cur, count, c);
      toks := toks + [cur];
      count := count + 1;
    }
  }

  lemma SplitStep(str: seq<byte>, i: nat, deli: byte, toks: seq<seq<byte>>, cur: seq<byte>)
    requires i < |str| && |toks| < TOKCOUNT && |cur| < TOKLEN
    ensures SplitOn(str[i..], deli, toks, cur) ==
            if str[i] != deli then SplitOn(str[i + 1..], deli, toks, if |cur| < TOKLEN - 1 then cur + [str[i]] else cur)
            else if cur == [] then SplitOn(str[i + 1..], deli, toks, [])
            else if |toks| + 1 < TOKCOUNT then SplitOn(str[i + 1..], deli, toks + [cur], [])
            else toks + [cur]
  {
    assert str[i..][1..] == str[i + 1..];
  }

  // ----- Canonical paths -----

  /** "/", or "/a/b/.../" for the components a, b, ... */
  function DirPath(cs: seq<seq<byte>>): (r: seq<byte>)
    ensures |r| > 0 && r[|r| - 1] == SLASH
    decreases |cs|
  {
    if cs == [] then [SLASH] else DirPath(cs[..|cs| - 1]) + cs[|cs| - 1] + [SLASH]
  }

  function FilePath(cs: seq<seq<byte>>): seq<byte>
    requires cs != []
  {
    DirPath(cs[..|cs| - 1]) + cs[|cs| - 1]
  }

  ghost predicate Components(cs: seq<seq<byte>>) {
    |cs| <= TOKCOUNT && forall c :: c in cs ==> Token(c, SLASH) && 0 !in c
  }

  const MAX_PATHLEN := 3840

  /** A leading slash, single slashes between components, at most 32 components of at most 63
      characters: exactly the names that `split` takes apart without loss. */
  ghost predicate CanonicalDir(p: seq<byte>) {
    var cs := Split(p, SLASH);
    Components(cs) && p == DirPath(cs) && |p| < MAX_PATHLEN
  }

  ghost predicate CanonicalFile(p: seq<byte>) {
    var cs := Split(p, SLASH);
    cs != [] && Components(cs) && p == FilePath(cs) && |p| < MAX_PATHLEN
  }

  function Ones(n: nat): (r: seq<nat>)
    ensures |r| == n && forall i :: 0 <= i < n ==> r[i] == 1
  {
    seq(n, _ => 1)
  }

  lemma {:induction false} SpreadSnoc(toks: seq<seq<byte>>, t: seq<byte>, deli: byte, gaps: seq<nat>, g: nat)
    requires |gaps| == |toks| + 1
    ensures Spread(toks + [t], deli, gaps + [g]) == Spread(toks, deli, gaps) + t + Run(deli, g)
    decreases |toks|
  {
    var us, hs := toks + [t], gaps + [g];
    if toks == [] {
      assert us[1..] == [] && hs[1..] == [g];
    } else {
      assert us[1..] == toks[1..] + [t] && hs[1..] == gaps[1..] + [g];
      SpreadSnoc(toks[1..], t, deli, gaps[1..], g);
      var a, b := Run(deli, gaps[0]) + toks[0], Spread(toks[1..], deli, gaps[1..]);
      assert a + (b + t + Run(deli, g)) == a + b + t + Run(deli, g);
    }
  }

  lemma {:induction false} DirIsSpread(cs: seq<seq<byte>>)
    ensures DirPath(cs) == Spread(cs, SLASH, Ones(|cs| + 1))
    decreases |cs|
  {
    if cs == [] {
      assert Run(SLASH, 1) == [SLASH];
    } else {
      var n := |cs| - 1;
      DirIsSpread(cs[..n]);
      SpreadSnoc(cs[..n], cs[n], SLASH, Ones(n + 1), 1);
      assert cs[..n] + [cs[n]] == cs && Ones(n + 1) + [1] == Ones(n + 2) && Run(SLASH, 1) == [SLASH];
    }
  }

  /** `split` recovers the components of a path. */
  lemma SplitDir(cs: seq<seq<byte>>)
    requires Components(cs)
    ensures Split(DirPath(cs), SLASH) == cs
  {
    DirIsSpread(cs);
    SplitSpread(cs, SLASH, Ones(|cs| + 1), []);
    assert [] + cs == cs;
  }

  lemma SplitFile(cs: seq<seq<byte>>)
    requires Components(cs) && cs != []
    ensures Split(FilePath(cs), SLASH) == cs
  {
    var n := |cs| - 1;
    DirIsSpread(cs[..n]);
    SpreadSnoc(cs[..n], cs[n], SLASH, Ones(n + 1), 0);
    assert cs[..n] + [cs[n]] == cs;
    assert FilePath(cs) + Run(SLASH, 0) == FilePath(cs);
    SplitSpread(cs, SLASH, Ones(n + 1) + [0], []);
    assert [] + cs == cs;
  }

  lemma {:induction false} DirLength(cs: seq<seq<byte>>)
    requires Components(cs)
    ensures |DirPath(cs)| <= 1 + TOKLEN * |cs|
    decreases |cs|
  {
    if cs != [] {
      assert cs[|cs| - 1] in cs;
      DirLength(cs[..|cs| - 1]);
    }
  }

  /** The canonical names are exactly those spelled from at most 32 components of at most 63
      characters; none of them is too long for the name field. */
  lemma CanonicalNames(p: seq<byte>)
    ensures CanonicalDir(p) <==> exists cs :: Components(cs) && p == DirPath(cs)
    ensures CanonicalFile(p) <==> exists cs :: Components(cs) && cs != [] && p == FilePath(cs)
  {
    hide SplitOn, Components, DirPath, FilePath;
    forall cs | Components(cs) && p == DirPath(cs) ensures CanonicalDir(p) {
      SplitDir(cs);
      NameFits(cs);
    }
    forall cs | Components(cs) && cs != [] && p == FilePath(cs) ensures CanonicalFile(p) {
      SplitFile(cs);
      NameFits(cs);
    }
  }

  lemma {:induction false} NameFits(cs: seq<seq<byte>>)
    requires Components(cs)
    ensures |DirPath(cs)| < MAX_PATHLEN && (cs != [] ==> |FilePath(cs)| < MAX_PATHLEN)
  {
    DirLength(cs);
  }

  // ----- Ancestors -----

  predicate EndsInSlash(p: seq<byte>) {
    |p| > 0 && p[|p| - 1] == SLASH
  }

  /** A directory name above `p` other than the root, as a plain statement about the two names. */
  predicate Ancestor(a: seq<byte>, p: seq<byte>) {
    1 < |a| < |p| && a <= p && EndsInSlash(a)
  }

  lemma {:induction false} DirPrefix(cs: seq<seq<byte>>, k: nat)
    requires Components(cs) && k <= |cs|
    ensures DirPath(cs[..k]) <= DirPath(cs) && (k < |cs| ==> |DirPath(cs[..k])| < |DirPath(cs)|)
    ensures (k > 0 ==> |DirPath(cs[..k])| > 1)
    decreases |cs|
  {
    if k == |cs| {
      assert cs[..k] == cs;
    } else {
      var n := |cs| - 1;
      assert cs[..n][..k] == cs[..k];
      DirPrefix(cs[..n], k);
      assert cs[n] in cs;
    }
  }

  lemma NoSlashInside(a: seq<byte>, d: seq<byte>, t: seq<byte>)
    requires a <= d + t && EndsInSlash(a) && SLASH !in t
    ensures a <= d
  {
    assert forall j :: |d| <= j < |d + t| ==> (d + t)[j] == t[j - |d|];
    assert a[|a| - 1] == (d + t)[|a| - 1];
  }

  /** A prefix that ends in a slash ends at a component boundary. */
  lemma {:induction false} SlashPrefix(a: seq<byte>, cs: seq<seq<byte>>) returns (k: nat)
    requires Components(cs) && a <= DirPath(cs) && EndsInSlash(a)
    ensures k <= |cs| && a == DirPath(cs[..k])
    decreases |cs|
  {
    if cs == [] {
      k := 0;
    } else {
      var n := |cs| - 1;
      var d := DirPath(cs[..n]);
      assert cs[n] in cs;
      if |a| < |DirPath(cs)| {
        NoSlashInside(a, d, cs[n]);
        k := SlashPrefix(a, cs[..n]);
        assert cs[..n][..k] == cs[..k];
      } else {
        k := |cs|;
        assert cs[..k] == cs;
      }
    }
  }

  lemma AncestorIsRebuilt(cs: seq<seq<byte>>, a: seq<byte>, p: seq<byte>) returns (k: nat)
    requires Components(cs) && (p == DirPath(cs) || (cs != [] && p == FilePath(cs))) && Ancestor(a, p)
    ensures 0 < k < |cs| && a == DirPath(cs[..k])
  {
    if p == DirPath(cs) {
      k := SlashPrefix(a, cs);
      if k == |cs| { assert cs[..k] == cs; }
    } else {
      var n := |cs| - 1;
      assert cs[n] in cs;
      NoSlashInside(a, DirPath(cs[..n]), cs[n]);
      k := SlashPrefix(a, cs[..n]);
      assert cs[..n][..k] == cs[..k];
    }
  }

  lemma DirEnds(cs: seq<seq<byte>>)
    ensures EndsInSlash(DirPath(cs))
  {
  }

  lemma FileParts(cs: seq<seq<byte>>)
    requires Components(cs) && cs != []
    ensures var n := |cs| - 1; Components(cs[..n]) && FilePath(cs) == DirPath(cs[..n]) + cs[n] && cs[n] != []
  {
    assert cs[|cs| - 1] in cs;
  }

  lemma RebuiltIsAncestor(cs: seq<seq<byte>>, k: nat, p: seq<byte>)
    requires Components(cs) && (p == DirPath(cs) || (cs != [] && p == FilePath(cs))) && 0 < k < |cs|
    ensures Ancestor(DirPath(cs[..k]), p)
  {
    hide DirPath, FilePath, Components, EndsInSlash;
    DirEnds(cs[..k]);
    if p == DirPath(cs) {
      DirPrefix(cs, k);
    } else {
      var n := |cs| - 1;
      FileParts(cs);
      DirPrefix(cs[..n], k);
      assert cs[..n][..k] == cs[..k];
    }
  }

  /** The prefixes that the nested rebuild loops compare with the table are exactly the proper
      non-root ancestors of a canonical path. */
  lemma RebuiltAncestors(p: seq<byte>, a: seq<byte>)
    requires CanonicalDir(p) || CanonicalFile(p)
    ensures var cs := Split(p, SLASH);
            Ancestor(a, p) <==> exists k :: 0 < k < |cs| && a == DirPath(cs[..k])
  {
    hide SplitOn, DirPath, FilePath, Components;
    var cs := Split(p, SLASH);
    if Ancestor(a, p) {
      var k := AncestorIsRebuilt(cs, a, p);
    }
    forall k | 0 < k < |cs| && a == DirPath(cs[..k]) ensures Ancestor(a, p) {
      RebuiltIsAncestor(cs, k, p);
    }
  }
}
