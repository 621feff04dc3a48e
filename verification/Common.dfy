/** Small types and sequence facts shared by the other modules. */
module Common {

  datatype Option<+T> = None | Some(value: T)

  datatype Result<+T, +E> = Ok(value: T) | Err(error: E)

  function Min(a: int, b: int): int {
    if a <= b then a else b
  }

  function Max(a: int, b: int): int {
    if a >= b then a else b
  }

  ghost predicate Distinct<T>(s: seq<T>) {
    forall i, j :: 0 <= i < j < |s| ==> s[i] != s[j]
  }

  /** How often a value occurs in a sequence. */
  ghost function Count<T>(s: seq<T>, x: T): nat {
    if s == [] then 0
    else Count(s[..|s| - 1], x) + (if s[|s| - 1] == x then 1 else 0)
  }

  lemma CountSnoc<T>(s: seq<T>, y: T, x: T)
    ensures Count(s + [y], x) == Count(s, x) + (if x == y then 1 else 0)
  {
    assert (s + [y])[..|s|] == s;
  }

  lemma {:induction false} CountZero<T>(s: seq<T>, x: T)
    ensures Count(s, x) == 0 <==> x !in s
  {
    if s != [] {
      CountZero(s[..|s| - 1], x);
      assert s == s[..|s| - 1] + [s[|s| - 1]];
    }
  }

  /** The elements of a log that belong to a given set, in log order. */
  ghost function Filter<T>(s: seq<T>, keep: set<T>): seq<T> {
    if s == [] then []
    else Filter(s[..|s| - 1], keep) + (if s[|s| - 1] in keep then [s[|s| - 1]] else [])
  }

  lemma FilterSnoc<T>(s: seq<T>, y: T, keep: set<T>)
    ensures Filter(s + [y], keep) == Filter(s, keep) + (if y in keep then [y] else [])
  {
    assert (s + [y])[..|s|] == s;
  }

  lemma {:induction false} FilterNone<T>(s: seq<T>, keep: set<T>)
    requires forall x :: x in s ==> x !in keep
    ensures Filter(s, keep) == []
  {
    if s != [] {
      FilterNone(s[..|s| - 1], keep);
    }
  }

  predicate LowerOrDigit(c: char) {
    'a' <= c <= 'z' || '0' <= c <= '9'
  }

  predicate Separator(c: char) {
    c == '.' || c == '_' || c == '-'
  }

  /** capability.IsStableID: words of lower-case letters and digits, joined by single separators. */
  predicate IsStableId(s: string) {
    && 0 < |s| <= 128 && 'a' <= s[0] <= 'z' && LowerOrDigit(s[|s| - 1])
    && (forall i :: 0 <= i < |s| ==> LowerOrDigit(s[i]) || Separator(s[i]))
    && (forall i :: 0 < i < |s| && Separator(s[i]) ==> LowerOrDigit(s[i - 1]))
  }

  // ---- identifiers as their regular expression ----

  /** The class [a-z0-9], by the numbers of its characters. */
  ghost predicate Word(c: char) {
    97 <= c as int <= 122 || 48 <= c as int <= 57
  }

  /** What may follow the first letter: letters and digits, and separators that one of them follows. */
  ghost predicate Follows(s: string, separators: string) {
    || s == ""
    || (Word(s[0]) && Follows(s[1..], separators))
    || (|s| > 1 && s[0] in separators && Word(s[1]) && Follows(s[2..], separators))
  }

  /** The expression [a-z][a-z0-9]*(?:[separators][a-z0-9]+)*, matched from the left. */
  ghost predicate MatchesWords(s: string, separators: string) {
    s != "" && 97 <= s[0] as int <= 122 && Follows(s[1..], separators)
  }

  /** The same, position by position. */
  ghost predicate Spaced(s: string, separators: string) {
    && (s != "" ==> LowerOrDigit(s[|s| - 1]))
    && (forall i :: 0 <= i < |s| ==> LowerOrDigit(s[i]) || s[i] in separators)
    && (forall i :: 0 < i < |s| && !LowerOrDigit(s[i]) ==> LowerOrDigit(s[i - 1]))
  }

  lemma {:induction false} FollowsIsSpaced(s: string, separators: string)
    requires forall c :: c in separators ==> !LowerOrDigit(c)
    ensures Follows(s, separators) <==> Spaced(s, separators)
    decreases |s|
  {
    if s != "" && LowerOrDigit(s[0]) {
      FollowsIsSpaced(s[1..], separators);
      SpacedTail(s, separators, 1);
    } else if |s| > 1 && s[0] in separators && LowerOrDigit(s[1]) {
      FollowsIsSpaced(s[2..], separators);
      SpacedTail(s, separators, 2);
    }
  }

  lemma SpacedTail(s: string, separators: string, n: nat)
    requires 0 < n <= |s| && LowerOrDigit(s[n - 1])
    requires forall i :: 0 <= i < n ==> LowerOrDigit(s[i]) || (i == 0 && s[0] in separators)
    ensures Spaced(s, separators) <==> Spaced(s[n..], separators)
  {
    forall i | n <= i < |s| ensures s[i] == s[n..][i - n] {
    }
    if Spaced(s[n..], separators) {
      forall i | 0 < i < |s| && !LowerOrDigit(s[i]) ensures LowerOrDigit(s[i - 1]) {
        if i > n {
          assert s[n..][i - n] == s[i] && s[n..][i - n - 1] == s[i - 1];
        }
      }
    }
    if Spaced(s, separators) {
      forall i | 0 < i < |s[n..]| && !LowerOrDigit(s[n..][i]) ensures LowerOrDigit(s[n..][i - 1]) {
        assert s[n..][i] == s[n + i] && s[n..][i - 1] == s[n + i - 1];
      }
    }
  }

  /** Stable identifiers are the strings of at most 128 characters that the expression matches. */
  lemma StableIdMatches(s: string)
    ensures IsStableId(s) <==> |s| <= 128 && MatchesWords(s, "._-")
  {
    if s != "" && 'a' <= s[0] <= 'z' {
      FollowsIsSpaced(s[1..], "._-");
      SpacedTail(s, "._-", 1);
    }
  }
}
