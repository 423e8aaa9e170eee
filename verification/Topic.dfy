/** Topic matching, and the routing loop that all exchange types share. */
module Topic {

  // ---------------------------------------------------------------- Words

  function Split(s: string): (words: seq<string>)
    ensures |words| >= 1
  {
    if s == "" then [""]
    else
      var rest := Split(s[1..]);
      if s[0] == '.' then [""] + rest else [[s[0]] + rest[0]] + rest[1..]
  }

  function Join(words: seq<string>): string
    requires |words| >= 1
  {
    if |words| == 1 then words[0] else words[0] + "." + Join(words[1..])
  }

  /** Splitting yields the only dot-free words that join to the string. */
  lemma {:induction false} SplitJoins(s: string)
    ensures Join(Split(s)) == s
    ensures forall w | w in Split(s) :: '.' !in w
  {
    if s != "" {
      SplitJoins(s[1..]);
      var rest := Split(s[1..]);
      var words := Split(s);
      if s[0] == '.' {
        assert words[1..] == rest;
        assert s == "" + "." + Join(rest);
      } else {
        assert words[1..] == rest[1..];
        assert s == [s[0]] + s[1..];
        if |rest| > 1 { assert Join(words) == [s[0]] + Join(rest); }
      }
    }
  }

  lemma {:induction false} SplitWord(w: string)
    requires '.' !in w
    ensures Split(w) == [w]
  {
    if w != "" {
      SplitWord(w[1..]);
      assert w == [w[0]] + w[1..];
    }
  }

  lemma {:induction false} SplitPrefix(w: string, s: string)
    requires '.' !in w
    ensures Split(w + "." + s) == [w] + Split(s)
  {
    if w == "" {
      assert w + "." + s == "." + s;
      assert ("." + s)[1..] == s;
    } else {
      assert (w + "." + s)[1..] == w[1..] + "." + s;
      SplitPrefix(w[1..], s);
      assert w == [w[0]] + w[1..];
      assert ([w[1..]] + Split(s))[1..] == Split(s);
    }
  }

  lemma {:induction false} JoinSplits(words: seq<string>)
    requires |words| >= 1 && forall w | w in words :: '.' !in w
    ensures Split(Join(words)) == words
  {
    if |words| == 1 {
      SplitWord(words[0]);
    } else {
      JoinSplits(words[1..]);
      SplitPrefix(words[0], Join(words[1..]));
    }
  }

  // ---------------------------------------------------------------- Meaning of a pattern

  /** `#` stands for any number of words, `*` for exactly one, any other word for itself. */
  ghost predicate Fits(p: string, segment: seq<string>) {
    if p == "#" then true else if p == "*" then |segment| == 1 else segment == [p]
  }

  function Flatten(segments: seq<seq<string>>): seq<string> {
    if segments == [] then [] else segments[0] + Flatten(segments[1..])
  }

  ghost predicate Segmentation(words: seq<string>, pattern: seq<string>, segments: seq<seq<string>>) {
    && |segments| == |pattern| && Flatten(segments) == words
    && forall i | 0 <= i < |pattern| :: Fits(pattern[i], segments[i])
  }

  /** The words can be cut into consecutive segments, one per pattern word. */
  ghost predicate Matches(words: seq<string>, pattern: seq<string>) {
    exists segments :: Segmentation(words, pattern, segments)
  }

  lemma MatchesNil(words: seq<string>)
    ensures Matches(words, []) <==> words == []
  {
    if words == [] { assert Segmentation(words, [], []); }
  }

  lemma MatchesCons(words: seq<string>, pattern: seq<string>, i: nat)
    requires pattern != [] && i <= |words| && Fits(pattern[0], words[..i]) && Matches(words[i..], pattern[1..])
    ensures Matches(words, pattern)
  {
    var tail :| Segmentation(words[i..], pattern[1..], tail);
    var segments := [words[..i]] + tail;
    assert segments[1..] == tail;
    forall k | 0 <= k < |pattern| ensures Fits(pattern[k], segments[k]) {
      if k > 0 { assert Fits(pattern[1..][k - 1], tail[k - 1]); }
    }
    assert Segmentation(words, pattern, segments);
  }

  lemma MatchesUncons(words: seq<string>, pattern: seq<string>) returns (i: nat)
    requires pattern != [] && Matches(words, pattern)
    ensures i <= |words| && Fits(pattern[0], words[..i]) && Matches(words[i..], pattern[1..])
  {
    var segments :| Segmentation(words, pattern, segments);
    i := |segments[0]|;
    assert words[..i] == segments[0] && words[i..] == Flatten(segments[1..]);
    forall k | 0 <= k < |pattern[1..]| ensures Fits(pattern[1..][k], segments[1..][k]) {
      assert Fits(pattern[k + 1], segments[k + 1]);
    }
    assert Segmentation(words[i..], pattern[1..], segments[1..]);
  }

  lemma MatchesOneWord(words: seq<string>, pattern: seq<string>)
    requires pattern != [] && pattern[0] != "#"
    ensures Matches(words, pattern) <==>
              words != [] && (pattern[0] == "*" || words[0] == pattern[0]) && Matches(words[1..], pattern[1..])
  {
    if Matches(words, pattern) {
      var i := MatchesUncons(words, pattern);
      assert |words[..i]| == 1 && words[..i][0] == words[0];
    }
    if words != [] && (pattern[0] == "*" || words[0] == pattern[0]) && Matches(words[1..], pattern[1..]) {
      assert words[..1] == [words[0]];
      MatchesCons(words, pattern, 1);
    }
  }

  lemma MatchesHash(words: seq<string>, pattern: seq<string>)
    requires pattern != [] && pattern[0] == "#"
    ensures Matches(words, pattern) <==> exists i :: 0 <= i <= |words| && Matches(words[i..], pattern[1..])
  {
    if Matches(words, pattern) {
      var i := MatchesUncons(words, pattern);
    }
    if i :| 0 <= i <= |words| && Matches(words[i..], pattern[1..]) {
      MatchesCons(words, pattern, i);
    }
  }

  // ---------------------------------------------------------------- The matcher

  method MatchParts(words: seq<string>, pattern: seq<string>) returns (ok: bool)
    ensures ok <==> Matches(words, pattern)
    decreases |pattern|
  {
    var msg, pat := words, pattern;
    while |pat| > 0
      invariant |pat| <= |pattern|
      invariant Matches(msg, pat) <==> Matches(words, pattern)
      decreases |pat|
    {
      if pat[0] == "#" {
        MatchesHash(msg, pat);
        pat := pat[1..];
        if |pat| == 0 {
          assert msg[|msg|..] == [];
          MatchesNil(msg[|msg|..]);
          return true;
        }
        var i := 0;
        while i <= |msg|
          invariant 0 <= i <= |msg| + 1
          invariant forall j | 0 <= j < i :: !Matches(msg[j..], pat)
        {
          ok := MatchParts(msg[i..], pat);
          if ok { return true; }
          i := i + 1;
        }
        return false;
      }
      MatchesOneWord(msg, pat);
      if pat[0] == "*" {
        if |msg| == 0 { return false; }
      } else {
        if |msg| == 0 || msg[0] != pat[0] { return false; }
      }
      msg, pat := msg[1..], pat[1..];
    }
    MatchesNil(msg);
    return |msg| == 0;
  }

  method MatchTopicPattern(words: seq<string>, pattern: string) returns (ok: bool)
    ensures ok <==> Matches(words, Split(pattern))
  {
    if pattern == "#" {
      SplitWord(pattern);
      assert words[|words|..] == [];
      MatchesNil(words[|words|..]);
      MatchesHash(words, Split(pattern));
      return true;
    }
    ok := MatchParts(words, Split(pattern));
  }

  // ---------------------------------------------------------------- Distinct names in first-match order

  function Distinct(names: seq<string>, seen: set<string>): seq<string> {
    if names == [] then []
    else if names[0] in seen then Distinct(names[1..], seen)
    else [names[0]] + Distinct(names[1..], seen + {names[0]})
  }

  /** `i` is where `name` first occurs. */
  ghost predicate FirstAt(names: seq<string>, name: string, i: nat) {
    i < |names| && names[i] == name && name !in names[..i]
  }

  /** Each name not yet seen appears once, and names appear in the order of their first occurrence. */
  lemma {:induction false} DistinctMeaning(names: seq<string>, seen: set<string>)
    ensures forall n :: n in Distinct(names, seen) <==> n in names && n !in seen
    ensures forall i, j | 0 <= i < j < |Distinct(names, seen)| :: Distinct(names, seen)[i] != Distinct(names, seen)[j]
    ensures forall i, j, x, y |
              && 0 <= i < j < |Distinct(names, seen)|
              && FirstAt(names, Distinct(names, seen)[i], x) && FirstAt(names, Distinct(names, seen)[j], y) :: x < y
    decreases |names|
  {
    if names != [] {
      var head, tail := names[0], names[1..];
      var d := Distinct(names, seen);
      var after := if head in seen then seen else seen + {head};
      DistinctMeaning(tail, after);
      var e := Distinct(tail, after);
      forall i, j, x, y | 0 <= i < j < |d| && FirstAt(names, d[i], x) && FirstAt(names, d[j], y) ensures x < y {
        FirstAtTail(names, d[j], y);
        if head in seen {
          FirstAtTail(names, d[i], x);
        } else if i > 0 {
          assert d[i] == e[i - 1] && d[j] == e[j - 1];
          FirstAtTail(names, d[i], x);
        } else {
          assert d[j] == e[j - 1] && x == 0;
        }
      }
    }
  }

  lemma FirstAtTail(names: seq<string>, name: string, i: nat)
    requires FirstAt(names, name, i)
    ensures name != names[0] ==> i > 0 && FirstAt(names[1..], name, i - 1)
    ensures name == names[0] ==> i == 0
  {
    if i > 0 {
      assert names[0] in names[..i];
      assert names[1..][..i - 1] == names[..i][1..];
    }
  }
}
