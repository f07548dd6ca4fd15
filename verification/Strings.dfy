/** The functions of Go's strings package that the modelled code uses, on texts without encoding. */
module Strings {

  function IndexOf(s: string, c: char): (k: nat)
    ensures k <= |s| && forall i :: 0 <= i < k ==> s[i] != c
    ensures k < |s| ==> s[k] == c
  {
    if s == "" || s[0] == c then 0 else 1 + IndexOf(s[1..], c)
  }

  function Split(s: string, c: char): (pieces: seq<string>)
    ensures |pieces| >= 1
    decreases |s|
  {
    var k := IndexOf(s, c);
    if k == |s| then [s] else [s[..k]] + Split(s[k + 1..], c)
  }

  function TrimPrefix(s: string, prefix: string): string {
    if prefix <= s then s[|prefix|..] else s
  }

  function TrimSuffix(s: string, suffix: string): string {
    if |suffix| <= |s| && s[|s| - |suffix|..] == suffix then s[..|s| - |suffix|] else s
  }

  function Join(pieces: seq<string>, c: char): string
    requires |pieces| >= 1
  {
    if |pieces| == 1 then pieces[0] else pieces[0] + ([c] + Join(pieces[1..], c))
  }

  lemma JoinThree(x: string, y: string, z: string, c: char)
    ensures Join([x, y, z], c) == x + [c] + y + [c] + z
  {
    assert [x, y, z][1..] == [y, z] && [y, z][1..] == [z];
    assert Join([y, z], c) == y + ([c] + z);
  }

  lemma JoinSix(u: string, v: string, w: string, x: string, y: string, z: string, c: char)
    ensures Join([u, v, w, x, y, z], c) == u + [c] + v + [c] + w + [c] + x + [c] + y + [c] + z
  {
    var tail := Join([x, y, z], c);
    assert [u, v, w, x, y, z][1..] == [v, w, x, y, z] && [v, w, x, y, z][1..] == [w, x, y, z] && [w, x, y, z][1..] == [x, y, z];
    assert Join([w, x, y, z], c) == w + ([c] + tail);
    assert Join([v, w, x, y, z], c) == v + ([c] + Join([w, x, y, z], c));
    JoinThree(x, y, z, c);
    JoinThree(u, v, w, c);
    assert Join([u, v, w, x, y, z], c) == u + [c] + v + [c] + w + ([c] + tail);
  }

  // ---------- Splitting undoes joining ----------

  lemma {:induction false} IndexOfFirst(s: string, c: char, rest: string)
    requires c !in s
    ensures IndexOf(s + ([c] + rest), c) == |s|
  {
    if s != "" {
      IndexOfFirst(s[1..], c, rest);
      assert (s + ([c] + rest))[1..] == s[1..] + ([c] + rest);
    }
  }

  lemma SplitFirst(s: string, c: char, rest: string)
    requires c !in s
    ensures Split(s + ([c] + rest), c) == [s] + Split(rest, c)
  {
    IndexOfFirst(s, c, rest);
    var whole := s + ([c] + rest);
    assert whole[..|s|] == s && whole[|s| + 1..] == rest;
  }

  lemma {:induction false} SplitJoin(pieces: seq<string>, c: char)
    requires |pieces| >= 1 && forall i :: 0 <= i < |pieces| ==> c !in pieces[i]
    ensures Split(Join(pieces, c), c) == pieces
  {
    var first, rest := pieces[0], pieces[1..];
    if rest == [] {
      SplitLast(first, c);
    } else {
      SplitJoin(rest, c);
      SplitFirst(first, c, Join(rest, c));
    }
    assert pieces == [first] + rest;
  }

  lemma SplitLast(s: string, c: char)
    requires c !in s
    ensures Split(s, c) == [s]
  {
  }

  lemma {:induction false} PiecesAreClean(s: string, c: char)
    ensures forall i :: 0 <= i < |Split(s, c)| ==> c !in Split(s, c)[i]
    decreases |s|
  {
    var k := IndexOf(s, c);
    if k < |s| { PiecesAreClean(s[k + 1..], c); }
  }
}
