/** Scope lists: their space-joined wire form, and the grant filter applied whenever a token is issued. */
module Scopes {
  import opened Prelude
  import opened Text

  predicate IsWord(w: string) {
    w != "" && forall i :: 0 <= i < |w| ==> !IsSpace(w[i])
  }

  ghost predicate AllWords(scopes: seq<string>) {
    forall i :: 0 <= i < |scopes| ==> IsWord(scopes[i])
  }

  /** The length of the run of non-space characters that starts `s`. */
  function WordLength(s: string): (n: nat)
    ensures n <= |s|
    ensures forall i :: 0 <= i < n ==> !IsSpace(s[i])
    ensures n < |s| ==> IsSpace(s[n])
  {
    if s == "" || IsSpace(s[0]) then 0 else 1 + WordLength(s[1..])
  }

  /** Split on runs of white space, dropping empty pieces. */
  function Split(s: string): seq<string>
    decreases |s|
  {
    if s == "" then []
    else if IsSpace(s[0]) then Split(s[1..])
    else [s[..WordLength(s)]] + Split(s[WordLength(s)..])
  }

  function Join(scopes: seq<string>): string {
    if scopes == [] then ""
    else if |scopes| == 1 then scopes[0]
    else scopes[0] + " " + Join(scopes[1..])
  }

  lemma {:induction false} SplitYieldsWords(s: string)
    ensures AllWords(Split(s))
    decreases |s|
  {
    if s != "" {
      if IsSpace(s[0]) {
        SplitYieldsWords(s[1..]);
      } else {
        SplitYieldsWords(s[WordLength(s)..]);
      }
    }
  }

  lemma WordLengthAtBoundary(w: string, rest: string)
    requires IsWord(w) && (rest == "" || IsSpace(rest[0]))
    ensures WordLength(w + rest) == |w|
  {
    assert forall i :: 0 <= i < |w| ==> (w + rest)[i] == w[i];
    assert rest != "" ==> (w + rest)[|w|] == rest[0];
  }

  lemma {:induction false} SplitOfJoin(scopes: seq<string>)
    requires AllWords(scopes)
    ensures Split(Join(scopes)) == scopes
  {
    if scopes != [] {
      var rest := if |scopes| == 1 then "" else " " + Join(scopes[1..]);
      var s := scopes[0] + rest;
      assert Join(scopes) == s;
      SplitTakesAWord(scopes[0], rest);
      SplitOfJoin(scopes[1..]);
      if |scopes| > 1 {
        assert rest[1..] == Join(scopes[1..]);
      }
      assert scopes == [scopes[0]] + scopes[1..];
    }
  }

  /** The wire form round-trips exactly for lists of nonempty words. */
  lemma JoinRoundTripsExactlyForWords(scopes: seq<string>)
    ensures Split(Join(scopes)) == scopes <==> AllWords(scopes)
  {
    if AllWords(scopes) {
      SplitOfJoin(scopes);
    }
    SplitYieldsWords(Join(scopes));
  }

  /** Does the user hold a grant for `scope`? `projection` is what the pod published: absent or unreadable is `None`. */
  predicate Granted(services: set<string>, scope: string, projection: Option<bool>) {
    scope in services && projection == Some(true)
  }

  /** The requested scopes that stay, the audience aside; `projections[i]` is what the i-th lookup returned. */
  function Kept(services: set<string>, requested: seq<string>, audience: string, projections: seq<Option<bool>>): seq<string>
    requires |projections| == |requested|
  {
    if requested == [] then []
    else
      var n := |requested| - 1;
      var front := Kept(services, requested[..n], audience, projections[..n]);
      if requested[n] != audience && Granted(services, requested[n], projections[n]) then front + [requested[n]] else front
  }

  /** The scopes a token carries: the audience first, then every requested service the user holds a grant for. */
  method ScopesFor(services: set<string>, requested: seq<string>, audience: string, projections: seq<Option<bool>>)
    returns (out: seq<string>)
    requires |projections| == |requested|
    ensures out == [audience] + Kept(services, requested, audience, projections)
  {
    out := [audience];
    for i := 0 to |requested|
      invariant out == [audience] + Kept(services, requested[..i], audience, projections[..i])
    {
      assert requested[..i + 1][..i] == requested[..i] && projections[..i + 1][..i] == projections[..i];
      if requested[i] != audience && Granted(services, requested[i], projections[i]) {
        out := out + [requested[i]];
      }
    }
    assert requested[..|requested|] == requested && projections[..|requested|] == projections;
  }

  lemma {:induction false} SubsequenceSnoc<T>(a: seq<T>, b: seq<T>, x: T)
    requires Subsequence(a, b)
    ensures Subsequence(a, b + [x]) && Subsequence(a + [x], b + [x])
    decreases |b|
  {
    if a == [] {
      SnocFindsTheLast(b, x);
      assert a + [x] == [x];
    } else {
      assert (b + [x])[1..] == b[1..] + [x];
      assert (a + [x])[1..] == a[1..] + [x];
      if a[0] == b[0] {
        SubsequenceSnoc(a[1..], b[1..], x);
      } else {
        SubsequenceSnoc(a, b[1..], x);
      }
    }
  }

  lemma {:induction false} SnocFindsTheLast<T>(b: seq<T>, x: T)
    ensures Subsequence([x], b + [x])
  {
    if b != [] {
      assert (b + [x])[1..] == b[1..] + [x];
      SnocFindsTheLast(b[1..], x);
    }
  }

  /** What stays is a selection of what was asked, in order; it holds no audience, and a scope stays
      exactly when some lookup for it came back granted. */
  lemma {:induction false} KeptIsTheGrantedSelection(
      services: set<string>, requested: seq<string>, audience: string, projections: seq<Option<bool>>)
    requires |projections| == |requested|
    ensures var kept := Kept(services, requested, audience, projections);
            && Subsequence(kept, requested)
            && audience !in kept
            && forall s :: s in kept <==>
                 exists i :: 0 <= i < |requested| && requested[i] == s && s != audience && s in services && projections[i] == Some(true)
  {
    if requested != [] {
      var n := |requested| - 1;
      KeptIsTheGrantedSelection(services, requested[..n], audience, projections[..n]);
      SubsequenceSnoc(Kept(services, requested[..n], audience, projections[..n]), requested[..n], requested[n]);
      assert requested == requested[..n] + [requested[n]];
      forall s
        ensures s in Kept(services, requested, audience, projections) <==>
                exists i :: 0 <= i < |requested| && requested[i] == s && s != audience && s in services && projections[i] == Some(true)
      {
        var front := Kept(services, requested[..n], audience, projections[..n]);
        if s in front {
          var i :| 0 <= i < n && requested[..n][i] == s && s != audience && s in services && projections[..n][i] == Some(true);
          assert requested[i] == s && projections[i] == Some(true);
        }
        if i :| 0 <= i < n && requested[i] == s && s != audience && s in services && projections[i] == Some(true) {
          assert requested[..n][i] == s && projections[..n][i] == Some(true);
        }
      }
    }
  }

  /** The shape every issued scope list has: the audience once, at the head. */
  ghost predicate AudienceFirst(scopes: seq<string>, audience: string) {
    scopes != [] && scopes[0] == audience && audience !in scopes[1..]
  }

  /** One refresh: the list read back from the wire, filtered again. */
  function Rescoped(services: set<string>, wire: string, audience: string, projections: seq<Option<bool>>): seq<string>
    requires |projections| == |Split(wire)|
  {
    [audience] + Kept(services, Split(wire), audience, projections)
  }

  lemma KeptSkipsTheHead(services: set<string>, scopes: seq<string>, audience: string, projections: seq<Option<bool>>)
    requires |projections| == |scopes| && scopes != [] && scopes[0] == audience
    ensures Kept(services, scopes, audience, projections) == Kept(services, scopes[1..], audience, projections[1..])
    decreases |scopes|
  {
    var n := |scopes| - 1;
    if n > 0 {
      KeptSkipsTheHead(services, scopes[..n], audience, projections[..n]);
      assert scopes[..n][1..] == scopes[1..][..n - 1] && projections[..n][1..] == projections[1..][..n - 1];
    }
  }

  /** A refresh only narrows: the new list is a selection of the old one, keeps the audience at its head,
      and stays a list the wire form can carry. */
  lemma RescopingNarrows(services: set<string>, scopes: seq<string>, audience: string, projections: seq<Option<bool>>)
    requires AllWords(scopes) && AudienceFirst(scopes, audience)
    requires |projections| == |Split(Join(scopes))|
    ensures var next := Rescoped(services, Join(scopes), audience, projections);
            Subsequence(next, scopes) && AudienceFirst(next, audience) && AllWords(next)
  {
    SplitOfJoin(scopes);
    var rest := scopes[1..];
    KeptSkipsTheHead(services, scopes, audience, projections);
    KeptIsTheGrantedSelection(services, rest, audience, projections[1..]);
    var next := Rescoped(services, Join(scopes), audience, projections);
    assert next[1..] == Kept(services, rest, audience, projections[1..]);
    assert IsWord(scopes[0]);
    SubsequenceMembers(next, scopes);
    forall i | 0 <= i < |next| ensures IsWord(next[i]) {
      assert next[i] in scopes;
    }
  }

  /** The first list, built from the scopes the client asked for, has that shape too. */
  lemma IssuedScopesAreWellFormed(services: set<string>, requested: seq<string>, audience: string, projections: seq<Option<bool>>)
    requires AllWords(requested) && IsWord(audience) && |projections| == |requested|
    ensures var scopes := [audience] + Kept(services, requested, audience, projections);
            && AllWords(scopes) && AudienceFirst(scopes, audience)
            && (forall s :: s in scopes ==> s == audience || (s in requested && s in services))
  {
    KeptIsTheGrantedSelection(services, requested, audience, projections);
    var kept := Kept(services, requested, audience, projections);
    var scopes := [audience] + kept;
    assert scopes[1..] == kept;
    forall i | 0 <= i < |scopes| ensures IsWord(scopes[i]) {
      if i > 0 {
        assert kept[i - 1] in kept;
        assert kept[i - 1] in requested;
      }
    }
  }

  /** Splitting ignores white space at the start, cuts at it elsewhere, and leaves a word whole. */
  lemma {:induction false} SplitCutsAtWhiteSpace(before: string, c: char, after: string)
    requires IsWhite(c)
    ensures Split(before + [c] + after) == Split(before) + Split(after)
    decreases |before|
  {
    var all := before + [c] + after;
    if before == "" {
      assert all[0] == c && all[1..] == after;
    } else if IsSpace(before[0]) {
      assert all[1..] == before[1..] + [c] + after;
      SplitCutsAtWhiteSpace(before[1..], c, after);
    } else {
      var n := WordLength(before);
      var word, rest := before[..n], before[n..];
      assert word + rest == before && all == word + (rest + [c] + after);
      SplitTakesAWord(word, rest);
      SplitTakesAWord(word, rest + [c] + after);
      SplitCutsAtWhiteSpace(rest, c, after);
    }
  }

  lemma SplitTakesAWord(word: string, rest: string)
    requires IsWord(word) && (rest == "" || IsSpace(rest[0]))
    ensures Split(word + rest) == [word] + Split(rest)
  {
    var s := word + rest;
    WordLengthAtBoundary(word, rest);
    assert s[0] == word[0] && s[..|word|] == word && s[|word|..] == rest;
  }

  lemma SplitOfWord(word: string)
    requires forall i :: 0 <= i < |word| ==> !IsWhite(word[i])
    ensures Split(word) == if word == "" then [] else [word]
  {
    if word != "" {
      SplitTakesAWord(word, "");
      assert word + "" == word;
    }
  }
}
