/**
 The keyword classifier `classifyTask`: it scores a task title against each
 quadrant's keyword list, picks the first quadrant in A, B, C, D order whose
 score is the maximum, derives a confidence percentage from the score ratio,
 and explains the choice in a reasoning sentence.
 */
module Classifier {
  import opened Text
  import opened Rules

  datatype Option<T> = None | Some(value: T)

  /** The per-quadrant keyword counts (`scores` in the source). */
  datatype Scores = Scores(a: nat, b: nat, c: nat, d: nat) {

    function Of(q: Quadrant): nat {
      match q
      case A => a
      case B => b
      case C => c
      case D => d
    }

    /** `Math.max(...Object.values(scores))`. */
    function Max(): (m: nat)
      ensures forall q :: Of(q) <= m
      ensures exists q :: Of(q) == m
    {
      var ab := if a < b then b else a;
      var cd := if c < d then d else c;
      if ab < cd then
        assert Of(if c < d then D else C) == cd;
        cd
      else
        assert Of(if a < b then B else A) == ab;
        ab
    }

    /** The sum of the four scores (`totalKeywords` in the source). */
    function Total(): (t: nat)
      ensures t == 0 <==> forall q :: Of(q) == 0
      ensures Max() <= t <= 4 * Max()
    {
      assert Of(A) == a && Of(B) == b && Of(C) == c && Of(D) == d;
      a + b + c + d
    }
  }

  datatype Classification = Classification(quadrant: Quadrant, confidence: nat, reasoning: string)

  // ---------------------------------------------------------------------------
  // Scoring

  /** The positions among the first `n` keywords of `kws` found in the lower-cased title `lt`. */
  function HitSet(lt: string, kws: seq<string>, n: nat): set<nat>
    requires n <= |kws|
  {
    set i: nat | i < n && IncludesLower(lt, kws[i])
  }

  /** The score loop over the first `n` keywords of `kws`: one point per keyword found. */
  function CountHits(lt: string, kws: seq<string>, n: nat): nat
    requires n <= |kws|
  {
    if n == 0 then 0
    else if IncludesLower(lt, kws[n - 1]) then CountHits(lt, kws, n - 1) + 1
    else CountHits(lt, kws, n - 1)
  }

  /** The loop counts each found position once: its result is the size of the set of hits. */
  lemma {:induction false} CountHitsIsHitSet(lt: string, kws: seq<string>, n: nat)
    requires n <= |kws|
    ensures CountHits(lt, kws, n) == |HitSet(lt, kws, n)|
    ensures CountHits(lt, kws, n) <= n
  {
    if n > 0 {
      CountHitsIsHitSet(lt, kws, n - 1);
      assert n - 1 !in HitSet(lt, kws, n - 1);
      if IncludesLower(lt, kws[n - 1]) {
        assert HitSet(lt, kws, n) == HitSet(lt, kws, n - 1) + {n - 1};
      } else {
        assert HitSet(lt, kws, n) == HitSet(lt, kws, n - 1);
      }
    }
  }

  /** The score of `q` for the lower-cased title `lt`. */
  function Score(lt: string, q: Quadrant): nat {
    CountHits(lt, Keywords(q), |Keywords(q)|)
  }

  /** The scoring loop of `classifyTask` on the title after `toLowerCase`. */
  function ScoresOf(title: string): Scores {
    var lt := ToLower(title);
    Scores(Score(lt, A), Score(lt, B), Score(lt, C), Score(lt, D))
  }

  // ---------------------------------------------------------------------------
  // Choosing the quadrant

  /** `find` over `Order` from position `i`: the first position whose score is `m`, or `|Order|`. */
  function FindFrom(s: Scores, m: nat, i: nat): (k: nat)
    requires i <= |Order|
    ensures i <= k <= |Order|
    ensures forall j :: i <= j < k ==> s.Of(Order[j]) != m
    ensures k < |Order| ==> s.Of(Order[k]) == m
    decreases |Order| - i
  {
    if i == |Order| then i
    else if s.Of(Order[i]) == m then i
    else FindFrom(s, m, i + 1)
  }

  /** `Object.entries(scores).find(([_, score]) => score === m)`. */
  function Find(s: Scores, m: nat): (r: Option<Quadrant>)
    ensures r.None? <==> forall q :: s.Of(q) != m
    ensures r.Some? ==> s.Of(r.value) == m
    ensures r.Some? ==> forall p :: Rank(p) < Rank(r.value) ==> s.Of(p) != m
  {
    var k := FindFrom(s, m, 0);
    if k < |Order| then Some(Order[k])
    else
      assert forall q :: s.Of(q) != m by {
        forall q ensures s.Of(q) != m {
          assert Order[Rank(q)] == q;
        }
      }
      None
  }

  /** `bestQuadrant`: the found quadrant, or "D" when `find` comes back empty. */
  function Best(s: Scores): (q: Quadrant)
    ensures s.Of(q) == s.Max()
    ensures forall p :: Rank(p) < Rank(q) ==> s.Of(p) < s.Max()
  {
    match Find(s, s.Max())
    case Some(q) => q
    case None => D
  }

  // ---------------------------------------------------------------------------
  // Confidence

  /** `Math.round` on an exact value: the nearest integer, halves rounded up. */
  function MathRound(x: real): int {
    (x + 0.5).Floor
  }

  function RealMin(x: real, y: real): real {
    if x <= y then x else y
  }

  /** Integer round-half-up of the ratio `n / d`. */
  function RoundHalfUp(n: nat, d: nat): (r: nat)
    requires d > 0
    ensures r == MathRound(n as real / d as real)
  {
    var r := (2 * n + d) / (2 * d);
    RoundHalfUpBounds(n, d, r);
    r
  }

  lemma RoundHalfUpBounds(n: nat, d: nat, r: int)
    requires d > 0 && r == (2 * n + d) / (2 * d)
    ensures r == MathRound(n as real / d as real)
  {
    var x := n as real / d as real;
    var dr := d as real;
    assert 2 * d * r <= 2 * n + d < 2 * d * r + 2 * d;
    assert (2 * d * r) as real == 2.0 * dr * r as real;
    assert x * dr == n as real;
    ScaleLe(r as real, x + 0.5, 2.0 * dr);
    ScaleLt(x + 0.5, r as real + 1.0, 2.0 * dr);
  }

  lemma ScaleLe(a: real, b: real, k: real)
    requires k > 0.0 && k * a <= k * b
    ensures a <= b
  {
  }

  lemma DivLe(a: real, b: real, k: real)
    requires k > 0.0 && a <= b
    ensures a / k <= b / k
  {
  }

  lemma ScaleLt(a: real, b: real, k: real)
    requires k > 0.0 && k * a < k * b
    ensures a < b
  {
  }

  /**
   The confidence of `classifyTask`: 100 times the winner's share of all matches,
   capped at 95 and rounded, or 30 when nothing matched.
   */
  function Confidence(s: Scores): (c: nat)
    ensures s.Total() == 0 ==> c == 30
    ensures s.Total() > 0 ==>
              c == MathRound(RealMin(95.0, s.Max() as real / s.Total() as real * 100.0))
    ensures s.Total() > 0 ==> 25 <= c <= 95
  {
    if s.Total() > 0 then
      var r := RoundHalfUp(100 * s.Max(), s.Total());
      ConfidenceRounding(s.Max(), s.Total(), r);
      if r < 95 then r else 95
    else 30
  }

  /** Capping before rounding (as the source does) equals capping after it, and the result is at least 25. */
  lemma ConfidenceRounding(m: nat, t: nat, r: int)
    requires 0 < t <= 4 * m && m <= t
    requires r == MathRound((100 * m) as real / t as real)
    ensures (if r < 95 then r else 95) == MathRound(RealMin(95.0, m as real / t as real * 100.0))
    ensures 25 <= r <= 100
  {
    assert (100 * m) as real == 100.0 * m as real;
    PercentScaled(m as real, t as real);
    ShareBounds(m as real, t as real);
    RoundCap(100.0 * m as real / t as real);
  }

  /** The percentage share of the largest of four parts of a positive total lies in [25, 100]. */
  lemma ShareBounds(m: real, t: real)
    requires 0.0 < t <= 4.0 * m && m <= t
    ensures 25.0 <= 100.0 * m / t <= 100.0
  {
    var z := 100.0 * m / t;
    assert t * z == 100.0 * m;
    ScaleLe(25.0, z, t);
    assert 100.0 * t / t == 100.0;
    DivLe(100.0 * m, 100.0 * t, t);
  }

  /** `m / t * 100`, as the source writes it, is `100m / t`. */
  lemma PercentScaled(m: real, t: real)
    requires t > 0.0
    ensures m / t * 100.0 == 100.0 * m / t
  {
    var y := m / t;
    var z := 100.0 * m / t;
    assert t * y == m;
    assert t * z == 100.0 * m;
    assert t * (y * 100.0) == (t * y) * 100.0;
    ScaleLe(y * 100.0, z, t);
    ScaleLe(z, y * 100.0, t);
  }

  lemma RoundCap(x: real)
    requires 25.0 <= x <= 100.0
    ensures 25 <= MathRound(x) <= 100
    ensures (if MathRound(x) < 95 then MathRound(x) else 95) == MathRound(RealMin(95.0, x))
  {
    assert MathRound(95.0) == 95;
  }

  // ---------------------------------------------------------------------------
  // Reasoning

  /** The first `n` keywords of `kws` found in `lt`, in list order (`matchedKeywords`). */
  function Matched(lt: string, kws: seq<string>, n: nat): seq<string>
    requires n <= |kws|
  {
    if n == 0 then []
    else if IncludesLower(lt, kws[n - 1]) then Matched(lt, kws, n - 1) + [kws[n - 1]]
    else Matched(lt, kws, n - 1)
  }

  /** One matched keyword per hit: the length of the matched list is the score. */
  lemma {:induction false} MatchedLength(lt: string, kws: seq<string>, n: nat)
    requires n <= |kws|
    ensures |Matched(lt, kws, n)| == CountHits(lt, kws, n)
  {
    if n > 0 {
      MatchedLength(lt, kws, n - 1);
    }
  }

  /** Every matched keyword is one of the first `n` and occurs, lower-cased, in `lt`. */
  lemma {:induction false} MatchedSound(lt: string, kws: seq<string>, n: nat)
    requires n <= |kws|
    ensures forall k :: k in Matched(lt, kws, n) ==> k in kws[..n] && Infix(ToLower(k), lt)
  {
    if n > 0 {
      MatchedSound(lt, kws, n - 1);
      assert kws[..n] == kws[..n - 1] + [kws[n - 1]];
      IncludesLowerIff(lt, kws[n - 1]);
    }
  }

  /** Every one of the first `n` keywords whose lower-cased form occurs in `lt` is matched. */
  lemma {:induction false} MatchedComplete(lt: string, kws: seq<string>, n: nat)
    requires n <= |kws|
    ensures forall i :: 0 <= i < n && Infix(ToLower(kws[i]), lt) ==> kws[i] in Matched(lt, kws, n)
  {
    if n > 0 {
      MatchedComplete(lt, kws, n - 1);
      IncludesLowerIff(lt, kws[n - 1]);
    }
  }

  /** The sentence for a title in which nothing of the quadrant was found; it always names "D象限". */
  function NoMatchSentence(title: string, q: Quadrant): string {
    "「" + title + NoMatchTail(q)
  }

  function NoMatchTail(q: Quadrant): string {
    "」は明確な分類キーワードが見つからないため、D象限（" + Description(q) + "）に分類しました。"
  }

  /** The sentence that cites the matched keywords, joined by "、". */
  function CitedSentence(matched: seq<string>, q: Quadrant): string {
    "「" + Join(matched, "、") + CitedTail(q)
  }

  function CitedTail(q: Quadrant): string {
    "」のキーワードから、" + Description(q) + "として" + Label(q) + "象限に分類しました。"
  }

  /** The sentence for a positive score without any matched keyword. */
  function GenericSentence(q: Quadrant): string {
    "AI分析により" + Description(q) + "として" + Label(q) + "象限に分類しました。"
  }

  /** `generateReasoning(quadrant, scores, title)`. */
  function Reasoning(q: Quadrant, s: Scores, title: string): (r: string)
    ensures s.Of(q) == 0 ==> Infix(title, r)
    ensures s.Of(q) > 0 ==>
              forall k :: k in Matched(ToLower(title), Keywords(q), |Keywords(q)|) ==> Infix(k, r)
  {
    if s.Of(q) == 0 then
      InfixOfConcat("「", title, NoMatchTail(q));
      NoMatchSentence(title, q)
    else
      var matched := Matched(ToLower(title), Keywords(q), |Keywords(q)|);
      if |matched| > 0 then
        CitedIncludesEach(matched, q);
        CitedSentence(matched, q)
      else
        GenericSentence(q)
  }

  lemma CitedIncludesEach(matched: seq<string>, q: Quadrant)
    ensures forall k :: k in matched ==> Infix(k, CitedSentence(matched, q))
  {
    forall i | 0 <= i < |matched| ensures Infix(matched[i], CitedSentence(matched, q)) {
      CitedIncludes(matched, q, i);
    }
  }

  lemma CitedIncludes(matched: seq<string>, q: Quadrant, i: nat)
    requires i < |matched|
    ensures Infix(matched[i], CitedSentence(matched, q))
  {
    JoinHasEach(matched, "、", i);
    var p, rest :| Join(matched, "、") == p + matched[i] + rest;
    InfixOfConcat(p, matched[i], rest);
    InfixWithin(matched[i], Join(matched, "、"), "「", CitedTail(q));
  }

  // ---------------------------------------------------------------------------
  // The classifier

  /** `classifyTask(title)`. */
  function ClassifyTask(title: string): (r: Classification)
    ensures ScoresOf(title).Of(r.quadrant) == ScoresOf(title).Max()
    ensures forall p :: Rank(p) < Rank(r.quadrant) ==> ScoresOf(title).Of(p) < ScoresOf(title).Max()
    ensures ScoresOf(title).Total() == 0 ==> r.confidence == 30
    ensures ScoresOf(title).Total() > 0 ==> 25 <= r.confidence <= 95
  {
    var s := ScoresOf(title);
    var q := Best(s);
    Classification(q, Confidence(s), Reasoning(q, s, title))
  }
}
