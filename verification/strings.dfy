/** Python string operations the aligner uses: `str.startswith`, a prefix
    test against a list of prefixes (`any(...)`), and `str.replace`, together
    with an independent description of `str.replace` as cutting the string at
    the leftmost non-overlapping occurrences of the pattern and gluing the
    pieces back with the replacement (`rep.join(s.split(pat))`). */
module Strings {
  import opened Wrappers

  /** Python's `s.startswith(prefix)`. */
  function StartsWith(s: string, prefix: string): (b: bool)
    ensures b <==> |prefix| <= |s| && s[..|prefix|] == prefix
    decreases |prefix|
  {
    if |prefix| == 0 then true
    else if |s| == 0 || s[0] != prefix[0] then false
    else
      var b := StartsWith(s[1..], prefix[1..]);
      assert |prefix| <= |s| ==> s[..|prefix|] == [s[0]] + s[1..][..|prefix| - 1];
      assert prefix == [prefix[0]] + prefix[1..];
      b
  }

  /** A single differing position rules out a prefix. */
  lemma MismatchIsNotPrefix(s: string, prefix: string, k: int)
    requires 0 <= k < |s| && k < |prefix| && s[k] != prefix[k]
    ensures !StartsWith(s, prefix)
  {
    if |prefix| <= |s| {
      assert s[..|prefix|][k] == s[k];
    }
  }

  /** `any(s.startswith(p) for p in prefixes)`. */
  function StartsWithAny(s: string, prefixes: seq<string>): (b: bool)
    ensures b <==> exists k :: 0 <= k < |prefixes| && StartsWith(s, prefixes[k])
    decreases |prefixes|
  {
    if |prefixes| == 0 then false
    else
      var rest := StartsWithAny(s, prefixes[1..]);
      assert forall k :: 1 <= k < |prefixes| ==> prefixes[k] == prefixes[1..][k - 1];
      StartsWith(s, prefixes[0]) || rest
  }

  /** `pat` occurs in `s` starting at position `i`. */
  predicate OccursAt(s: string, pat: string, i: int)
  {
    0 <= i && i + |pat| <= |s| && s[i..i + |pat|] == pat
  }

  /** `pat in s`. */
  predicate Occurs(s: string, pat: string)
  {
    exists i | 0 <= i <= |s| :: OccursAt(s, pat, i)
  }

  /** An occurrence past the first character is an occurrence in the tail. */
  lemma OccursAtShift(s: string, pat: string, i: int)
    requires |s| > 0 && 1 <= i
    ensures OccursAt(s, pat, i) <==> OccursAt(s[1..], pat, i - 1)
  {
    if i + |pat| <= |s| {
      assert s[i..i + |pat|] == s[1..][i - 1..i - 1 + |pat|];
    }
  }

  /** Without an occurrence at the front or in the tail there is none at all. */
  lemma NoOccurrenceFromTail(s: string, pat: string)
    requires |s| > 0 && !StartsWith(s, pat) && !Occurs(s[1..], pat)
    ensures !Occurs(s, pat)
  {
    forall i | 0 <= i <= |s|
      ensures !OccursAt(s, pat, i)
    {
      if i >= 1 {
        OccursAtShift(s, pat, i);
      }
    }
  }

  /** Python's `s.find(pat)`: the leftmost position where `pat` occurs. */
  function IndexOf(s: string, pat: string): (r: Option<nat>)
    ensures r.Some? ==> OccursAt(s, pat, r.value)
    ensures r.Some? ==> forall j :: 0 <= j < r.value ==> !OccursAt(s, pat, j)
    ensures r.None? <==> !Occurs(s, pat)
    decreases |s|
  {
    if StartsWith(s, pat) then
      assert OccursAt(s, pat, 0);
      Some(0)
    else if |s| == 0 then
      assert forall i :: !OccursAt(s, pat, i);
      None
    else
      match IndexOf(s[1..], pat)
      case None =>
        NoOccurrenceFromTail(s, pat);
        None
      case Some(i) =>
        OccursAtShift(s, pat, i + 1);
        assert forall j :: 1 <= j < i + 1 ==> !OccursAt(s, pat, j) by {
          forall j | 1 <= j < i + 1
            ensures !OccursAt(s, pat, j)
          {
            OccursAtShift(s, pat, j);
          }
        }
        Some(i + 1)
  }

  /** Python's `sep.join(pieces)`. */
  function Join(pieces: seq<string>, sep: string): string
    decreases |pieces|
  {
    if |pieces| == 0 then []
    else if |pieces| == 1 then pieces[0]
    else pieces[0] + sep + Join(pieces[1..], sep)
  }

  /** Python's `s.split(pat)` for a non-empty `pat` (Python rejects an
      empty separator): the pieces between the leftmost non-overlapping
      occurrences of `pat`. No piece contains `pat`, and joining the pieces
      with `pat` gives back `s`. */
  function Split(s: string, pat: string): (r: seq<string>)
    requires |pat| > 0
    ensures |r| >= 1
    ensures |r| == 1 <==> IndexOf(s, pat).None?
    ensures |r| > 1 ==> IndexOf(s, pat) == Some(|r[0]|)
    ensures forall k :: 0 <= k < |r| ==> !Occurs(r[k], pat)
    ensures Join(r, pat) == s
    decreases |s|
  {
    match IndexOf(s, pat)
    case None => [s]
    case Some(i) =>
      var head := s[..i];
      var rest := Split(s[i + |pat|..], pat);
      assert !Occurs(head, pat) by {
        forall j | 0 <= j <= |head|
          ensures !OccursAt(head, pat, j)
        {
          if j + |pat| <= |head| {
            assert head[j..j + |pat|] == s[j..j + |pat|];
            assert j < i && !OccursAt(s, pat, j);
          }
        }
      }
      assert s == head + pat + s[i + |pat|..];
      [head] + rest
  }

  /** The leftmost occurrence is the one `IndexOf` finds. */
  lemma IndexOfLeftmost(s: string, pat: string, i: int)
    requires OccursAt(s, pat, i)
    requires forall j :: 0 <= j < i ==> !OccursAt(s, pat, j)
    ensures IndexOf(s, pat) == Some(i)
  {
    assert 0 <= i <= |s|;
    var r := IndexOf(s, pat);
    assert r.Some?;
    assert !(i < r.value);
    assert !(r.value < i);
  }

  /** Splitting the empty string gives one empty piece. */
  lemma SplitEmpty(pat: string)
    requires |pat| > 0
    ensures Split([], pat) == [[]]
  {
    assert !StartsWith([], pat);
  }

  /** `pat` placed after a string none of whose positions starts an
      occurrence splits into that string and an empty tail. */
  lemma SplitSingleTrailing(a: string, pat: string)
    requires |pat| > 0
    requires forall j :: 0 <= j < |a| ==> !OccursAt(a + pat, pat, j)
    ensures Split(a + pat, pat) == [a, []]
  {
    var s := a + pat;
    assert s[|a|..|a| + |pat|] == pat;
    IndexOfLeftmost(s, pat, |a|);
    assert s[..|a|] == a;
    assert s[|a| + |pat|..] == [];
    SplitEmpty(pat);
    assert Split(s, pat) == [a] + Split([], pat);
  }

  /** Python's `s.replace(pat, rep)`: scanning left to right, every
      non-overlapping occurrence of `pat` becomes `rep`; an empty `pat`
      inserts `rep` before every character and at the end. */
  function ReplaceAll(s: string, pat: string, rep: string): (r: string)
    ensures |pat| > 0 && !Occurs(s, pat) ==> r == s
    decreases |s|
  {
    if |pat| == 0 then
      if |s| == 0 then rep else rep + [s[0]] + ReplaceAll(s[1..], pat, rep)
    else if |s| == 0 then []
    else if StartsWith(s, pat) then
      assert OccursAt(s, pat, 0);
      rep + ReplaceAll(s[|pat|..], pat, rep)
    else
      assert Occurs(s[1..], pat) ==> Occurs(s, pat) by {
        if Occurs(s[1..], pat) {
          var i :| 0 <= i <= |s[1..]| && OccursAt(s[1..], pat, i);
          OccursAtShift(s, pat, i + 1);
        }
      }
      [s[0]] + ReplaceAll(s[1..], pat, rep)
  }

  /** Joining `[p] + rest` is `p`, the separator, and the joined rest. */
  lemma JoinCons(p: string, rest: seq<string>, sep: string)
    requires |rest| >= 1
    ensures Join([p] + rest, sep) == p + sep + Join(rest, sep)
  {
    assert ([p] + rest)[1..] == rest;
  }

  /** Splitting a string that starts with `pat` begins with an empty piece. */
  lemma SplitAtMatch(s: string, pat: string)
    requires |pat| > 0 && StartsWith(s, pat)
    ensures Split(s, pat) == [[]] + Split(s[|pat|..], pat)
  {
    assert IndexOf(s, pat) == Some(0);
  }

  /** Splitting a string that does not start with `pat` puts its first
      character in front of the first piece of the tail's split. */
  lemma {:induction false} SplitCons(s: string, pat: string)
    requires |pat| > 0 && |s| > 0 && !StartsWith(s, pat)
    ensures var t := Split(s[1..], pat);
            Split(s, pat) == [[s[0]] + t[0]] + t[1..]
  {
    match IndexOf(s[1..], pat)
    case None =>
      assert IndexOf(s, pat).None?;
      assert s == [s[0]] + s[1..];
    case Some(i) =>
      assert IndexOf(s, pat) == Some(i + 1);
      assert s[i + 1 + |pat|..] == s[1..][i + |pat|..];
      assert s[..i + 1] == [s[0]] + s[1..][..i];
  }

  /** `str.replace` with a non-empty pattern equals `rep.join(s.split(pat))`:
      the input is cut at the leftmost non-overlapping occurrences of `pat`
      and the pieces, none of which contains `pat`, are glued with `rep`. */
  lemma {:induction false} ReplaceAllIsJoinOfSplit(s: string, pat: string, rep: string)
    requires |pat| > 0
    ensures ReplaceAll(s, pat, rep) == Join(Split(s, pat), rep)
    decreases |s|
  {
    if |s| == 0 {
      SplitEmpty(pat);
    } else if StartsWith(s, pat) {
      ReplaceAllIsJoinOfSplit(s[|pat|..], pat, rep);
      ReplaceAllStepAtMatch(s, pat, rep);
    } else {
      ReplaceAllIsJoinOfSplit(s[1..], pat, rep);
      ReplaceAllStepPastChar(s, pat, rep);
    }
  }

  /** The inductive step of `ReplaceAllIsJoinOfSplit` at an occurrence. */
  lemma ReplaceAllStepAtMatch(s: string, pat: string, rep: string)
    requires |pat| > 0 && |s| > 0 && StartsWith(s, pat)
    requires ReplaceAll(s[|pat|..], pat, rep) == Join(Split(s[|pat|..], pat), rep)
    ensures ReplaceAll(s, pat, rep) == Join(Split(s, pat), rep)
  {
    var rest := s[|pat|..];
    var pieces := Split(rest, pat);
    assert ReplaceAll(s, pat, rep) == rep + ReplaceAll(rest, pat, rep);
    SplitAtMatch(s, pat);
    JoinEmptyHead(pieces, rep);
  }

  /** Joining behind an empty first piece starts with the separator. */
  lemma JoinEmptyHead(pieces: seq<string>, sep: string)
    requires |pieces| >= 1
    ensures Join([[]] + pieces, sep) == sep + Join(pieces, sep)
  {
    JoinCons([], pieces, sep);
    assert [] + sep == sep;
  }

  /** The inductive step of `ReplaceAllIsJoinOfSplit` past a character. */
  lemma ReplaceAllStepPastChar(s: string, pat: string, rep: string)
    requires |pat| > 0 && |s| > 0 && !StartsWith(s, pat)
    requires ReplaceAll(s[1..], pat, rep) == Join(Split(s[1..], pat), rep)
    ensures ReplaceAll(s, pat, rep) == Join(Split(s, pat), rep)
  {
    JoinSplitCons(s, pat, rep);
  }

  /** Gluing the split of a string that does not start with `pat` puts its
      first character in front of the glued split of its tail. */
  lemma JoinSplitCons(s: string, pat: string, rep: string)
    requires |pat| > 0 && |s| > 0 && !StartsWith(s, pat)
    ensures Join(Split(s, pat), rep) == [s[0]] + Join(Split(s[1..], pat), rep)
  {
    SplitCons(s, pat);
    JoinPrepend(s[0], Split(s[1..], pat), rep);
  }

  /** Putting a character in front of the first piece puts it in front of
      the joined string. */
  lemma JoinPrepend(c: char, t: seq<string>, sep: string)
    requires |t| >= 1
    ensures Join([[c] + t[0]] + t[1..], sep) == [c] + Join(t, sep)
  {
    var first := [c] + t[0];
    if |t| > 1 {
      var more := t[1..];
      assert t == [t[0]] + more;
      JoinCons(t[0], more, sep);
      JoinCons(first, more, sep);
      assert first + sep + Join(more, sep) == [c] + (t[0] + sep + Join(more, sep));
    }
  }

  /** A window of `pat` that meets the separator would share a character
      with it; so if the separator is non-empty and shares no character with
      `pat`, an occurrence in `a + sep + b` lies wholly in `a` or in `b`. */
  lemma ConcatAvoidsPattern(a: string, sep: string, b: string, pat: string)
    requires |pat| > 0 && |sep| > 0
    requires forall c :: c in sep ==> c !in pat
    requires !Occurs(a, pat) && !Occurs(b, pat)
    ensures !Occurs(a + sep + b, pat)
  {
    var x := a + sep + b;
    forall i | 0 <= i <= |x|
      ensures !OccursAt(x, pat, i)
    {
      if i + |pat| > |x| {
      } else if i + |pat| <= |a| {
        assert x[i..i + |pat|] == a[i..i + |pat|];
        assert !OccursAt(a, pat, i);
      } else if i >= |a| + |sep| {
        var j := i - |a| - |sep|;
        assert x[i..i + |pat|] == b[j..j + |pat|];
        assert !OccursAt(b, pat, j);
      } else {
        var k := if i < |a| then |a| else i;
        var w := x[i..i + |pat|];
        assert w[k - i] == sep[k - |a|];
        assert w[k - i] !in pat;
      }
    }
  }

  /** Gluing pattern-free pieces with a non-empty separator that shares no
      character with the pattern never creates an occurrence of it. */
  lemma {:induction false} JoinAvoidsPattern(pieces: seq<string>, sep: string, pat: string)
    requires |pat| > 0 && |sep| > 0
    requires forall c :: c in sep ==> c !in pat
    requires forall k :: 0 <= k < |pieces| ==> !Occurs(pieces[k], pat)
    ensures !Occurs(Join(pieces, sep), pat)
    decreases |pieces|
  {
    if |pieces| == 0 {
      assert !OccursAt([], pat, 0);
    } else if |pieces| > 1 {
      JoinAvoidsPattern(pieces[1..], sep, pat);
      ConcatAvoidsPattern(pieces[0], sep, Join(pieces[1..], sep), pat);
    }
  }

  /** When the replacement is non-empty and shares no character with the
      pattern, no occurrence of the pattern is left after `str.replace`. */
  lemma ReplaceAllRemovesPattern(s: string, pat: string, rep: string)
    requires |pat| > 0 && |rep| > 0
    requires forall c :: c in rep ==> c !in pat
    ensures !Occurs(ReplaceAll(s, pat, rep), pat)
  {
    ReplaceAllIsJoinOfSplit(s, pat, rep);
    JoinAvoidsPattern(Split(s, pat), rep, pat);
  }

  /** A string that does not start with `p` still does not after
      `str.replace`, provided the replacement is non-empty and its first
      character appears nowhere in `p`. */
  lemma {:induction false} ReplaceAllKeepsNonPrefix(s: string, pat: string, rep: string, p: string)
    requires |pat| > 0 && |rep| > 0 && rep[0] !in p
    requires !StartsWith(s, p)
    ensures !StartsWith(ReplaceAll(s, pat, rep), p)
    decreases |s|
  {
    if |s| > 0 {
      if StartsWith(s, pat) {
        assert ReplaceAll(s, pat, rep)[0] == rep[0];
      } else if s[0] == p[0] {
        assert !StartsWith(s[1..], p[1..]);
        assert forall c :: c in p[1..] ==> c in p;
        ReplaceAllKeepsNonPrefix(s[1..], pat, rep, p[1..]);
      }
    }
  }
}
