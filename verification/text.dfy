/**
 Strings as the classifier sees them: ASCII-only lower-casing (the model of
 `String.prototype.toLowerCase` on the characters that matter here), substring
 search (the model of `String.prototype.includes`), and `Array.prototype.join`.
 */
module Text {

  predicate IsUpper(c: char) {
    'A' <= c <= 'Z'
  }

  /** The lower-case form of one character; every character outside 'A'..'Z' is left alone. */
  function LowerChar(c: char): char {
    if IsUpper(c) then (c as int + 32) as char else c
  }

  /** True when `s` holds no ASCII capital letter. */
  predicate NoUpper(s: string) {
    forall i :: 0 <= i < |s| ==> !IsUpper(s[i])
  }

  /** Lower-cases every ASCII capital letter of `s`, character by character. */
  function ToLower(s: string): (r: string)
    ensures |r| == |s|
    ensures NoUpper(r)
    ensures forall i :: 0 <= i < |s| && !IsUpper(s[i]) ==> r[i] == s[i]
    ensures forall i :: 0 <= i < |s| && IsUpper(s[i]) ==> r[i] as int == s[i] as int + 32
  {
    seq(|s|, i requires 0 <= i < |s| => LowerChar(s[i]))
  }

  /** A string without capital letters is its own lower-case form. */
  lemma LowerFixes(s: string)
    requires NoUpper(s)
    ensures ToLower(s) == s
  {
  }

  lemma ToLowerIdempotent(s: string)
    ensures ToLower(ToLower(s)) == ToLower(s)
  {
    LowerFixes(ToLower(s));
  }

  /** Two strings have the same lower-case form exactly when they agree letter by letter up to ASCII case. */
  lemma SameLowerIff(s: string, t: string)
    ensures ToLower(s) == ToLower(t) <==>
              |s| == |t| && forall i :: 0 <= i < |s| ==> LowerChar(s[i]) == LowerChar(t[i])
  {
    if |s| == |t| && forall i :: 0 <= i < |s| ==> LowerChar(s[i]) == LowerChar(t[i]) {
      assert forall i :: 0 <= i < |s| ==> ToLower(s)[i] == LowerChar(s[i]);
    }
  }

  // ---------------------------------------------------------------------------
  // Substring search

  /** `n` is the slice of `h` that starts at `i`. */
  predicate OccursAt(h: string, n: string, i: int) {
    0 <= i && i + |n| <= |h| && h[i..i + |n|] == n
  }

  /** `h.includes(n)`, read declaratively: some slice of `h` equals `n`. */
  ghost predicate Infix(n: string, h: string) {
    exists k :: OccursAt(h, n, k)
  }

  /** `n[j..]`, lower-cased, sits in `h` at position `i + j`: the character comparison of the search. */
  predicate MatchesFrom(h: string, n: string, i: nat, j: nat)
    requires i + |n| <= |h| && j <= |n|
    decreases |n| - j
  {
    j == |n| || (h[i + j] == LowerChar(n[j]) && MatchesFrom(h, n, i, j + 1))
  }

  /** Scans the start positions `i`, `i + 1`, ... of `h` for the lower-cased `n`. */
  predicate IncludesFrom(h: string, n: string, i: nat)
    decreases |h| - i
  {
    i + |n| <= |h| && (MatchesFrom(h, n, i, 0) || IncludesFrom(h, n, i + 1))
  }

  /** `h.includes(n.toLowerCase())`: the search performed for every keyword `n`. */
  predicate IncludesLower(h: string, n: string) {
    IncludesFrom(h, n, 0)
  }

  lemma {:induction false} MatchesFromIff(h: string, n: string, i: nat, j: nat)
    requires i + |n| <= |h| && j <= |n|
    ensures MatchesFrom(h, n, i, j) <==> h[i + j..i + |n|] == ToLower(n)[j..]
    decreases |n| - j
  {
    if j < |n| {
      MatchesFromIff(h, n, i, j + 1);
      assert h[i + j..i + |n|] == [h[i + j]] + h[i + j + 1..i + |n|];
      assert ToLower(n)[j..] == [LowerChar(n[j])] + ToLower(n)[j + 1..];
    }
  }

  lemma {:induction false} IncludesFromIff(h: string, n: string, i: nat)
    ensures IncludesFrom(h, n, i) <==> exists k :: i <= k && OccursAt(h, ToLower(n), k)
    decreases |h| - i
  {
    if i + |n| <= |h| {
      MatchesFromIff(h, n, i, 0);
      IncludesFromIff(h, n, i + 1);
      assert OccursAt(h, ToLower(n), i) <==> MatchesFrom(h, n, i, 0);
      if exists k :: i <= k && OccursAt(h, ToLower(n), k) {
        var k :| i <= k && OccursAt(h, ToLower(n), k);
        assert k == i || (i + 1 <= k && OccursAt(h, ToLower(n), k));
      }
    }
  }

  /** The scan finds `n` exactly when the lower-cased `n` is a slice of `h`. */
  lemma IncludesLowerIff(h: string, n: string)
    ensures IncludesLower(h, n) <==> Infix(ToLower(n), h)
  {
    IncludesFromIff(h, n, 0);
  }

  /** Every character of `n` from position `j` on, lower-cased, occurs somewhere in `h`. */
  predicate CharsIn(n: string, h: string, j: nat)
    requires j <= |n|
    decreases |n| - j
  {
    j == |n| || (LowerChar(n[j]) in h && CharsIn(n, h, j + 1))
  }

  lemma {:induction false} OccursCharsIn(h: string, n: string, k: int, j: nat)
    requires OccursAt(h, ToLower(n), k) && j <= |n|
    ensures CharsIn(n, h, j)
    decreases |n| - j
  {
    if j < |n| {
      assert h[k + j] == ToLower(n)[j];
      OccursCharsIn(h, n, k, j + 1);
    }
  }

  /** A keyword can only be found when each of its lower-cased characters occurs in the title. */
  lemma IncludesLowerChars(h: string, n: string)
    ensures IncludesLower(h, n) ==> CharsIn(n, h, 0)
  {
    if IncludesLower(h, n) {
      IncludesLowerIff(h, n);
      var k :| OccursAt(h, ToLower(n), k);
      OccursCharsIn(h, n, k, 0);
    }
  }

  /** Whatever sits in the middle of a string is a slice of it. */
  lemma InfixOfConcat(p: string, n: string, q: string)
    ensures Infix(n, p + n + q)
  {
    assert OccursAt(p + n + q, n, |p|) by {
      assert (p + n + q)[|p|..|p| + |n|] == n;
    }
  }

  /** A slice of the middle part is a slice of the whole. */
  lemma InfixWithin(n: string, m: string, p: string, q: string)
    requires Infix(n, m)
    ensures Infix(n, p + m + q)
  {
    var k :| OccursAt(m, n, k);
    assert OccursAt(p + m + q, n, |p| + k) by {
      assert (p + m + q)[|p| + k..|p| + k + |n|] == m[k..k + |n|];
    }
  }

  // ---------------------------------------------------------------------------
  // Joining

  /** `xs.join(sep)`. */
  function Join(xs: seq<string>, sep: string): string
    decreases |xs|
  {
    if |xs| == 0 then ""
    else if |xs| == 1 then xs[0]
    else xs[0] + sep + Join(xs[1..], sep)
  }

  /** Every element of a joined list appears inside the joined string. */
  lemma {:induction false} JoinHasEach(xs: seq<string>, sep: string, i: nat)
    requires i < |xs|
    ensures exists p, q :: Join(xs, sep) == p + xs[i] + q
    decreases |xs|
  {
    if |xs| == 1 {
      assert Join(xs, sep) == "" + xs[0] + "";
    } else if i == 0 {
      assert Join(xs, sep) == "" + xs[0] + (sep + Join(xs[1..], sep));
    } else {
      JoinHasEach(xs[1..], sep, i - 1);
      var p, q :| Join(xs[1..], sep) == p + xs[1..][i - 1] + q;
      assert Join(xs, sep) == (xs[0] + sep + p) + xs[i] + q;
    }
  }

}
