/**
 CDB::ConvertQuery: the placeholders of a printf-like format become the question marks of a
 prepared statement, and their kinds are listed. The code finds the placeholders of one kind, then
 those of the other, and replaces them from the right end on; the reference reads the string once
 from the left.
 */
module ConvertQuery {

  const STRING_TARGET := "%s"
  const INT_TARGET := "%d"

  predicate Matches(s: string, i: nat, target: string) {
    i + |target| <= |s| && s[i..i + |target|] == target
  }

  /** std::string::find: the first match at or after start; -1 is npos. */
  function Find(s: string, target: string, start: nat): (r: int)
    ensures r == -1 || (start <= r && Matches(s, r, target))
    ensures forall i: nat :: start <= i && (r == -1 || i < r) ==> !Matches(s, i, target)
    decreases |s| - start
  {
    if start + |target| > |s| then -1
    else if Matches(s, start, target) then start
    else Find(s, target, start + 1)
  }

  predicate Placeholder(s: string, i: nat) {
    Matches(s, i, STRING_TARGET) || Matches(s, i, INT_TARGET)
  }

  // ----- The reference --------------------------------------------------------------------

  /** One pass from the left. */
  function Rewrite(s: string): string {
    if s == "" then ""
    else if Placeholder(s, 0) then "?" + Rewrite(s[2..])
    else [s[0]] + Rewrite(s[1..])
  }

  /** 0 for every %s and 1 for every %d, in the order of the text. */
  function Kinds(s: string): seq<nat> {
    if s == "" then []
    else (if Matches(s, 0, STRING_TARGET) then [0] else if Matches(s, 0, INT_TARGET) then [1] else []) + Kinds(s[1..])
  }

  /** A query of fixed text. */
  lemma KnownQuery()
    ensures Rewrite("x%d%s") == "x??" && Kinds("x%d%s") == [1, 0]
  {
    var s := "x%d%s";
    var p, q, r, t, u := s[1..], s[2..], s[3..], s[4..], s[5..];
    assert p[1..] == q && q[1..] == r && r[1..] == t && t[1..] == u == "";
    assert p[2..] == r && r[2..] == u;
    assert p[0..2] == "%d" && r[0..2] == "%s" && s[0..2] == "x%" && q[0..2] == "d%";
    assert !Placeholder(s, 0) && !Matches(q, 0, STRING_TARGET) && !Matches(q, 0, INT_TARGET);
    assert Rewrite(u) == "" && Rewrite(r) == "?" && Rewrite(p) == "??";
    assert Kinds(t) == [] && Kinds(r) == [0] && Kinds(q) == [0] && Kinds(p) == [1, 0];
  }

  lemma MatchesTail(s: string, i: nat, j: nat, target: string)
    requires i <= |s|
    ensures Matches(s[i..], j, target) == Matches(s, i + j, target)
  {
    if i + j + |target| <= |s| {
      assert s[i..][j..j + |target|] == s[i + j..i + j + |target|];
    }
  }

  /** Placeholders do not overlap. */
  lemma Disjoint(s: string, i: nat)
    requires Placeholder(s, i)
    ensures i + 2 <= |s| && !Placeholder(s, i + 1)
  {
    var two := s[i..i + 2];
    assert s[i + 1] == two[1];
  }

  lemma CopyOne(s: string, a: nat)
    requires a < |s| && !Placeholder(s, a)
    ensures Rewrite(s[a..]) == [s[a]] + Rewrite(s[a + 1..]) && Kinds(s[a..]) == Kinds(s[a + 1..])
  {
    MatchesTail(s, a, 0, STRING_TARGET);
    MatchesTail(s, a, 0, INT_TARGET);
    hide Matches;
    assert s[a..][1..] == s[a + 1..];
  }

  /** Text without a placeholder is copied, and has no kinds. */
  lemma {:induction false} CopyPlain(s: string, a: nat, b: nat)
    requires a <= b <= |s|
    requires forall i :: a <= i < b ==> !Placeholder(s, i)
    ensures Rewrite(s[a..]) == s[a..b] + Rewrite(s[b..]) && Kinds(s[a..]) == Kinds(s[b..])
    decreases b - a
  {
    hide Rewrite, Kinds, Placeholder;
    if a < b {
      CopyOne(s, a);
      CopyPlain(s, a + 1, b);
      assert s[a..b] == [s[a]] + s[a + 1..b];
    }
  }

  lemma AtPlaceholder(s: string, i: nat)
    requires Placeholder(s, i)
    ensures i + 2 <= |s|
    ensures Rewrite(s[i..]) == "?" + Rewrite(s[i + 2..])
    ensures Kinds(s[i..]) == [if Matches(s, i, STRING_TARGET) then 0 else 1] + Kinds(s[i + 2..])
    ensures Kinds(s[i + 1..]) == Kinds(s[i + 2..])
  {
    Disjoint(s, i);
    MatchesTail(s, i, 0, STRING_TARGET);
    MatchesTail(s, i, 0, INT_TARGET);
    assert s[i..][2..] == s[i + 2..] && s[i..][1..] == s[i + 1..];
    CopyPlain(s, i + 1, i + 2);
  }

  // ----- What the reference promises ------------------------------------------------------

  /** Every placeholder shortens the text by one character. */
  lemma {:induction false} OneShorterEach(s: string)
    ensures |Rewrite(s)| + |Kinds(s)| == |s|
  {
    hide Matches;
    if s != "" {
      assert s[0..] == s;
      if Placeholder(s, 0) {
        AtPlaceholder(s, 0);
        OneShorterEach(s[2..]);
      } else {
        OneShorterEach(s[1..]);
      }
    }
  }

  /** No placeholder is left, not even one put together from the pieces. */
  lemma {:induction false} NoneLeft(s: string, i: nat)
    ensures !Placeholder(Rewrite(s), i)
  {
    var r := Rewrite(s);
    if s != "" {
      var t := if Placeholder(s, 0) then s[2..] else s[1..];
      assert r[1..] == Rewrite(t);
      assert |r| >= 2 ==> r[0..2] == [r[0], r[1]] && r[1] == Rewrite(t)[0];
      assert |s| >= 2 ==> s[0..2] == [s[0], s[1]];
      if i > 0 {
        MatchesTail(r, 1, i - 1, STRING_TARGET);
        MatchesTail(r, 1, i - 1, INT_TARGET);
        NoneLeft(t, i - 1);
      }
    }
  }

  /** Converting again changes nothing and finds nothing. */
  lemma ConvertAgain(s: string)
    ensures Rewrite(Rewrite(s)) == Rewrite(s) && Kinds(Rewrite(s)) == []
  {
    var r := Rewrite(s);
    forall i | 0 <= i < |r| ensures !Placeholder(r, i) { NoneLeft(s, i); }
    CopyPlain(r, 0, |r|);
    assert r[0..] == r && r[0..|r|] == r && r[|r|..] == "";
  }

  // ----- The code -------------------------------------------------------------------------

  /** The positions of one kind. */
  method FindAll(str: string, target: string, kind: nat, before: map<nat, nat>) returns (m: map<nat, nat>)
    requires forall i :: i in before ==> !Matches(str, i, target)
    ensures forall i: nat :: i in m <==> i in before || Matches(str, i, target)
    ensures forall i: nat :: i in m ==> m[i] == if i in before then before[i] else kind
  {
    m := before;
    var startPos: nat := 0;
    var idx := Find(str, target, startPos);
    while idx != -1
      invariant idx == -1 || (startPos <= idx && Matches(str, idx, target))
      invariant forall i: nat :: startPos <= i && (idx == -1 || i < idx) ==> !Matches(str, i, target)
      invariant forall i: nat :: i in m <==> i in before || (i < startPos && Matches(str, i, target))
      invariant forall i: nat :: i in m ==> m[i] == if i in before then before[i] else kind
      decreases if idx == -1 then 0 else |str| - idx + 1
    {
      m := m[idx := kind];
      startPos := idx + 1;
      idx := Find(str, target, startPos);
    }
  }

  lemma OneKind(s: string, i: nat)
    requires Matches(s, i, STRING_TARGET)
    ensures !Matches(s, i, INT_TARGET)
  {
    assert s[i..i + 2][1] == 's';
  }

  /** The positions, in the map's order, and their kinds. */
  method InOrder(str: string, m: map<nat, nat>, type0: seq<nat>) returns (type1: seq<nat>, idxs: seq<nat>)
    requires forall i: nat :: i in m <==> Placeholder(str, i)
    requires forall i: nat :: i in m ==> m[i] == if Matches(str, i, STRING_TARGET) then 0 else 1
    ensures type1 == type0 + Kinds(str)
    ensures forall j, k :: 0 <= j < k < |idxs| ==> idxs[j] < idxs[k]
    ensures forall i: nat :: i in idxs <==> Placeholder(str, i)
  {
    hide Matches, Placeholder, Kinds;
    NoMore(str);
    type1, idxs := type0, [];
    assert str[0..] == str;
    for idx := 0 to |str|
      invariant type1 + Kinds(str[idx..]) == type0 + Kinds(str)
      invariant forall j, k :: 0 <= j < k < |idxs| ==> idxs[j] < idxs[k]
      invariant forall i: nat :: i in idxs <==> i < idx && Placeholder(str, i)
    {
      if idx in m {
        AtPlaceholder(str, idx);
        type1 := type1 + [m[idx]];
        assert forall j :: 0 <= j < |idxs| ==> idxs[j] in idxs;
        idxs := idxs + [idx];
      } else {
        CopyPlain(str, idx, idx + 1);
      }
    }
  }

  lemma NoMore(str: string)
    ensures Kinds(str[|str|..]) == []
    ensures forall i: nat :: Placeholder(str, i) ==> i < |str|
  {
  }

  /** The replacements, from the right end on, so that the positions on the left stay good. */
  method ReplaceAll(str: string, idxs: seq<nat>) returns (str1: string)
    requires forall j, k :: 0 <= j < k < |idxs| ==> idxs[j] < idxs[k]
    requires forall i: nat :: i in idxs <==> Placeholder(str, i)
    ensures str1 == Rewrite(str)
  {
    hide Rewrite, Kinds, Matches;
    str1 := str;
    var i := |idxs| - 1;
    ghost var p: nat := |str|;     // the part from here on is rewritten
    RewriteNothing(str);
    NoMore(str);
    assert forall k :: 0 <= k < |idxs| ==> idxs[k] in idxs;
    hide Placeholder;
    while i >= 0
      invariant -1 <= i < |idxs| && p <= |str| && (p == |str| || Placeholder(str, p))
      invariant forall k :: 0 <= k <= i ==> idxs[k] < p
      invariant forall k: nat :: k < p && Placeholder(str, k) ==> k in idxs[..i + 1]
      invariant str1 == str[..p] + Rewrite(str[p..])
    {
      var at := idxs[i];
      ReplaceLast(str, at, p, idxs[..i + 1]);
      str1 := str1[..at] + "?" + str1[at + 2..];
      p := at;
      i := i - 1;
    }
    CopyPlain(str, 0, p);
    assert str[0..] == str && str[0..p] == str[..p];
  }

  /** The whole function: the text and the kinds are those of the single pass from the left. */
  method Convert(str: string, type0: seq<nat>) returns (ok: bool, str1: string, type1: seq<nat>)
    ensures ok && str1 == Rewrite(str) && type1 == type0 + Kinds(str)
  {
    hide Rewrite, Kinds, Matches;
    var m := FindAll(str, STRING_TARGET, 0, map[]);
    forall i | i in m ensures !Matches(str, i, INT_TARGET) { OneKind(str, i); }
    m := FindAll(str, INT_TARGET, 1, m);
    var idxs;
    type1, idxs := InOrder(str, m, type0);
    str1 := ReplaceAll(str, idxs);
    ok := true;
  }

  lemma RewriteNothing(s: string)
    ensures s == s[..|s|] + Rewrite(s[|s|..])
  {
  }

  /** Replacing the last placeholder of what is not rewritten yet rewrites from there on. */
  lemma ReplaceLast(s: string, at: nat, p: nat, left: seq<nat>)
    requires p <= |s| && at < p && Placeholder(s, at)
    requires forall k: nat :: k < p && Placeholder(s, k) ==> k in left
    requires forall k :: k in left ==> k <= at
    requires p == |s| || Placeholder(s, p)
    ensures at + 2 <= p
    ensures var s1 := s[..p] + Rewrite(s[p..]);
            at + 2 <= |s1| && s1[..at] + "?" + s1[at + 2..] == s[..at] + Rewrite(s[at..])
  {
    hide Rewrite, Kinds;
    AtPlaceholder(s, at);
    Disjoint(s, at);
    CopyPlain(s, at + 2, p);
    var s1 := s[..p] + Rewrite(s[p..]);
    assert s1[at + 2..] == s[at + 2..p] + Rewrite(s[p..]);
  }
}
