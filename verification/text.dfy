/**
 * The operations of Python's `str` that the proxy relies on, over
 * `string` (that is, `seq<char>`): prefix and suffix tests, ASCII
 * lower-casing, searching, `split`, `join` and `replace`.
 */
module Text {

  /** Concatenation is associative; stated once so that proofs can use it without unfolding. */
  lemma ConcatAssoc(a: string, b: string, c: string)
    ensures (a + b) + c == a + (b + c)
  {
  }

  /** `s.startswith(prefix)` */
  predicate StartsWith(s: string, prefix: string)
  {
    |prefix| <= |s| && s[..|prefix|] == prefix
  }

  /** Text begins with whatever it was built from. */
  lemma StartsWithAppended(prefix: string, t: string)
    ensures StartsWith(prefix + t, prefix)
  {
    assert (prefix + t)[..|prefix|] == prefix;
  }

  /** Text whose first character is not the prefix's does not start with it. */
  lemma DiffersAtFirst(s: string, prefix: string)
    requires prefix != "" && s != "" && s[0] != prefix[0]
    ensures !StartsWith(s, prefix)
  {
    if |prefix| <= |s| {
      assert s[..|prefix|][0] == s[0];
    }
  }

  /** `s.endswith(suffix)` */
  predicate EndsWith(s: string, suffix: string)
  {
    |suffix| <= |s| && s[|s| - |suffix|..] == suffix
  }

  /** Text ends with whatever was appended last. */
  lemma EndsWithAppended(t: string, suffix: string)
    ensures EndsWith(t + suffix, suffix)
  {
    assert (t + suffix)[|t|..] == suffix;
  }

  function LowerChar(c: char): char
  {
    if 'A' <= c <= 'Z' then (c as int + 32) as char else c
  }

  /** `s.lower()`, for ASCII letters only. */
  function Lower(s: string): (r: string)
    ensures |r| == |s|
  {
    seq(|s|, i requires 0 <= i < |s| => LowerChar(s[i]))
  }

  /** Lower-cased text has no ASCII capital left, and lower-casing it again changes nothing. */
  lemma LowerIdempotent(s: string)
    ensures forall k :: 0 <= k < |s| ==> !('A' <= Lower(s)[k] <= 'Z')
    ensures Lower(Lower(s)) == Lower(s)
  {
  }

  /** No character of `s` belongs to `cs`. */
  predicate NoneIn(s: string, cs: set<char>)
  {
    forall k :: 0 <= k < |s| ==> s[k] !in cs
  }

  /**
   * The index of the first character of `s` that belongs to `cs`, or `|s|`
   * when there is none (where Python's `find` answers -1).
   */
  function IndexOfAny(s: string, cs: set<char>): (i: nat)
    ensures i <= |s|
    ensures i < |s| ==> s[i] in cs
    ensures NoneIn(s[..i], cs)
  {
    if s == [] then 0
    else if s[0] in cs then 0
    else
      var i := 1 + IndexOfAny(s[1..], cs);
      assert s[..i] == [s[0]] + s[1..][..i - 1];
      i
  }

  /** The first character of `a + b` in `cs` is the first of `b` when `a` has none. */
  lemma IndexOfAnyAfter(a: string, b: string, cs: set<char>)
    requires NoneIn(a, cs)
    ensures IndexOfAny(a + b, cs) == |a| + IndexOfAny(b, cs)
  {
    var s := a + b;
    var i := IndexOfAny(s, cs);
    var j := IndexOfAny(b, cs);
    if j < |b| {
      assert s[|a| + j] == b[j];
    }
  }

  /** `p` occurs in `s` starting at index `i`. */
  ghost predicate OccursAt(s: string, p: string, i: int)
  {
    0 <= i && i + |p| <= |s| && s[i..i + |p|] == p
  }

  /** `p in s`: `p` occurs in `s` as a contiguous substring. */
  ghost predicate Occurs(s: string, p: string)
  {
    exists i :: OccursAt(s, p, i)
  }

  /** An occurrence in `s[1..]` is one in `s`, one place further on, and conversely. */
  lemma OccursShift(s: string, p: string, i: nat)
    requires s != []
    ensures OccursAt(s[1..], p, i) <==> OccursAt(s, p, i + 1)
  {
    if i + 1 + |p| <= |s| {
      assert s[1..][i..i + |p|] == s[i + 1..i + 1 + |p|];
    }
  }

  /**
   * `s.split(sep)` for a non-empty separator (Python refuses an empty one):
   * the first part is a prefix of `s`, and no part contains `sep`.
   * `SplitCutsLeftmost` places the first cut and `SplitTail` gives the parts
   * after it.
   */
  function Split(s: string, sep: string): (parts: seq<string>)
    requires sep != ""
    ensures |parts| >= 1
    ensures StartsWith(s, parts[0])
    ensures forall k :: 0 <= k < |parts| ==> !Occurs(parts[k], sep)
    decreases |s|
  {
    if |s| < |sep| then [s]
    else if s[..|sep|] == sep then [""] + Split(s[|sep|..], sep)
    else
      var rest := Split(s[1..], sep);
      var first := [s[0]] + rest[0];
      assert StartsWith(s, first) by {
        assert s[1..][..|rest[0]|] == rest[0];
      }
      assert !OccursAt(first, sep, 0) by {
        if |sep| <= |first| {
          assert first[..|sep|] == s[..|sep|];
        }
      }
      AbsentBehindPrefix([s[0]], rest[0], sep);
      [first] + rest[1..]
  }

  /**
   * The first cut is at the leftmost occurrence of `sep`: none starts inside
   * the first part, and one follows it at once unless the first part is all
   * of `s`.
   */
  lemma {:induction false} SplitCutsLeftmost(s: string, sep: string)
    requires sep != ""
    ensures var parts := Split(s, sep);
            && (|parts| == 1 ==> parts[0] == s)
            && (|parts| >= 2 ==> OccursAt(s, sep, |parts[0]|))
            && forall i :: 0 <= i < |parts[0]| ==> !OccursAt(s, sep, i)
    decreases |s|
  {
    if |s| >= |sep| && s[..|sep|] != sep {
      var rest := Split(s[1..], sep);
      SplitCutsLeftmost(s[1..], sep);
      SplitMiss(s, sep);
      var first := [s[0]] + rest[0];
      forall i | 0 <= i < |first|
        ensures !OccursAt(s, sep, i)
      {
        if i > 0 {
          OccursShift(s, sep, i - 1);
        }
      }
      if |rest| >= 2 {
        OccursShift(s, sep, |rest[0]|);
      }
    }
  }

  /** A separator that overlaps itself is cut where it first occurs: `"aaa".split("aa")` is `["", "a"]`. */
  lemma OverlappingSeparator()
    ensures Split("aaa", "aa") == ["", "a"]
  {
    SplitAtSep("aa", "a");
    assert "aa" + "a" == "aaa";
    assert Split("a", "aa") == ["a"];
  }

  /** Where `s` does not start with the separator, its first character joins the first part of the rest. */
  lemma SplitMiss(s: string, sep: string)
    requires sep != "" && |s| >= |sep| && s[..|sep|] != sep
    ensures var rest := Split(s[1..], sep);
            Split(s, sep)[0] == [s[0]] + rest[0] && Split(s, sep)[1..] == rest[1..]
  {
    var rest := Split(s[1..], sep);
    assert Split(s, sep) == [[s[0]] + rest[0]] + rest[1..];
  }

  /** Behind the first cut and the separator, the remaining parts are the split of the rest. */
  lemma {:induction false} SplitTail(s: string, sep: string)
    requires sep != "" && |Split(s, sep)| >= 2
    ensures var parts := Split(s, sep);
            |parts[0]| + |sep| <= |s| && parts[1..] == Split(s[|parts[0]| + |sep|..], sep)
    decreases |s|
  {
    if s[..|sep|] != sep {
      var rest := Split(s[1..], sep);
      assert Split(s, sep)[1..] == rest[1..];
      SplitTail(s[1..], sep);
      assert s[1..][|rest[0]| + |sep|..] == s[1 + |rest[0]| + |sep|..];
    }
  }

  /** `sep.join(parts)` */
  function Join(parts: seq<string>, sep: string): string
  {
    if parts == [] then ""
    else if |parts| == 1 then parts[0]
    else parts[0] + sep + Join(parts[1..], sep)
  }

  /**
   * `s.replace(pat, rep)`: scanning left to right, every occurrence of `pat`
   * that does not overlap an earlier replaced one becomes `rep`. With an empty
   * `pat`, Python puts `rep` before every character and at the end.
   */
  function Replace(s: string, pat: string, rep: string): string
    decreases |s|
  {
    if pat == "" then
      if s == [] then rep else rep + [s[0]] + Replace(s[1..], pat, rep)
    else if |s| < |pat| then s
    else if s[..|pat|] == pat then rep + Replace(s[|pat|..], pat, rep)
    else [s[0]] + Replace(s[1..], pat, rep)
  }

  /** Lower-casing leaves a string without upper-case ASCII letters as it is. */
  lemma LowerIdentity(s: string)
    requires forall k :: 0 <= k < |s| ==> !('A' <= s[k] <= 'Z')
    ensures Lower(s) == s
  {
    assert forall k :: 0 <= k < |s| ==> Lower(s)[k] == s[k];
  }

  /** A string that lacks the first character of `p` does not contain `p`. */
  lemma AbsentFirstChar(s: string, p: string)
    requires p != "" && p[0] !in s
    ensures !Occurs(s, p)
  {
  }

  /** Dropping the first character of `s` cannot create an occurrence. */
  lemma OccursInTail(s: string, p: string)
    requires s != [] && Occurs(s[1..], p)
    ensures Occurs(s, p)
  {
    var i :| OccursAt(s[1..], p, i);
    assert s[i + 1..i + 1 + |p|] == s[1..][i..i + |p|];
    assert OccursAt(s, p, i + 1);
  }

  /** An occurrence in the right operand of `a + t` is one in `a + t`. */
  lemma OccursInSuffix(a: string, t: string, p: string, i: nat)
    requires |a| <= i && i + |p| <= |a + t|
    ensures (a + t)[i..i + |p|] == t[i - |a|..i - |a| + |p|]
  {
  }

  /** Where `pat` does not occur, `replace` changes nothing. */
  lemma {:induction false} ReplaceAbsent(s: string, pat: string, rep: string)
    requires pat != "" && !Occurs(s, pat)
    ensures Replace(s, pat, rep) == s
    decreases |s|
  {
    if |s| >= |pat| {
      assert !OccursAt(s, pat, 0);
      if Occurs(s[1..], pat) {
        OccursInTail(s, pat);
      }
      ReplaceAbsent(s[1..], pat, rep);
    }
  }

  /** Where `sep` does not occur, `split` yields the whole string. */
  lemma {:induction false} SplitAbsent(s: string, sep: string)
    requires sep != "" && !Occurs(s, sep)
    ensures Split(s, sep) == [s]
    decreases |s|
  {
    if |s| >= |sep| {
      assert !OccursAt(s, sep, 0);
      if Occurs(s[1..], sep) {
        OccursInTail(s, sep);
      }
      SplitAbsent(s[1..], sep);
      assert [s[0]] + s[1..] == s;
    }
  }

  /** A string that begins with the pattern has it replaced first. */
  lemma ReplaceLeading(pat: string, t: string, rep: string)
    requires pat != ""
    ensures Replace(pat + t, pat, rep) == rep + Replace(t, pat, rep)
  {
    assert (pat + t)[..|pat|] == pat;
    assert (pat + t)[|pat|..] == t;
  }

  /** A string that begins with the separator splits into an empty first part. */
  lemma SplitLeading(s: string, sep: string)
    requires sep != "" && StartsWith(s, sep)
    ensures Split(s, sep)[0] == ""
  {
  }

  /** A leading separator cuts off an empty first piece. */
  lemma SplitAtSep(sep: string, t: string)
    requires sep != ""
    ensures Split(sep + t, sep) == [""] + Split(t, sep)
  {
    assert (sep + t)[..|sep|] == sep;
    assert (sep + t)[|sep|..] == t;
  }

  /** A character that cannot start a one-character separator joins the first piece of the rest. */
  lemma SplitAtChar(c: char, t: string, sep: string)
    requires |sep| == 1 && c != sep[0]
    ensures var rest := Split(t, sep);
            Split([c] + t, sep) == [[c] + rest[0]] + rest[1..]
  {
    assert ([c] + t)[..1] != sep;
    assert ([c] + t)[1..] == t;
  }

  /** Putting a character in front of the first part puts it in front of the joined string. */
  lemma JoinConsFirst(c: char, parts: seq<string>, sep: string)
    requires |parts| >= 1
    ensures Join([[c] + parts[0]] + parts[1..], sep) == [c] + Join(parts, sep)
  {
    var cons := [[c] + parts[0]] + parts[1..];
    assert cons[1..] == parts[1..];
  }

  /**
   * Python's identity `s.replace(pat, rep) == rep.join(s.split(pat))`:
   * replace-all is the same as cutting at every occurrence and gluing the
   * pieces back together with the replacement.
   */
  lemma {:induction false} ReplaceIsJoinOfSplit(s: string, pat: string, rep: string)
    requires pat != ""
    ensures Replace(s, pat, rep) == Join(Split(s, pat), rep)
    decreases |s|
  {
    if |s| < |pat| {
    } else if s[..|pat|] == pat {
      var rest := Split(s[|pat|..], pat);
      ReplaceIsJoinOfSplit(s[|pat|..], pat, rep);
      assert ([""] + rest)[1..] == rest;
    } else {
      var rest := Split(s[1..], pat);
      ReplaceIsJoinOfSplit(s[1..], pat, rep);
      JoinConsFirst(s[0], rest, rep);
    }
  }

  /** Replacing a pattern by itself changes nothing. */
  lemma {:induction false} ReplaceBySelf(s: string, pat: string)
    requires pat != ""
    ensures Replace(s, pat, pat) == s
    decreases |s|
  {
    if |s| >= |pat| {
      if s[..|pat|] == pat {
        ReplaceBySelf(s[|pat|..], pat);
        assert s[..|pat|] + s[|pat|..] == s;
      } else {
        ReplaceBySelf(s[1..], pat);
        assert [s[0]] + s[1..] == s;
      }
    }
  }

  /** Python's identity `sep.join(s.split(sep)) == s`. */
  lemma JoinOfSplit(s: string, sep: string)
    requires sep != ""
    ensures Join(Split(s, sep), sep) == s
  {
    ReplaceIsJoinOfSplit(s, sep, sep);
    ReplaceBySelf(s, sep);
  }

  /**
   * `p` does not occur in `a + t` when it does not occur in `t`, does not
   * start `a + t`, and its first character appears in `a` at most at the front.
   */
  lemma AbsentBehindPrefix(a: string, t: string, p: string)
    requires p != "" && !Occurs(t, p) && !OccursAt(a + t, p, 0)
    requires forall k :: 0 < k < |a| ==> a[k] != p[0]
    ensures !Occurs(a + t, p)
  {
    forall i | |a| <= i && i + |p| <= |a + t|
      ensures !OccursAt(a + t, p, i)
    {
      OccursInSuffix(a, t, p, i);
      assert !OccursAt(t, p, i - |a|);
    }
  }
}
