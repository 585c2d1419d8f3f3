/**
 Properties of `classifyTask` over all titles: what a score counts, which
 quadrant wins, the confidence range, the no-match fallback, case
 insensitivity, and what the reasoning cites.
 */
module Properties {
  import opened Text
  import opened Rules
  import opened Classifier

  // ---------------------------------------------------------------------------
  // Scores

  /** The keywords of `q` whose lower-cased form occurs in the lower-cased title, by position in the list. */
  ghost function FoundKeywords(title: string, q: Quadrant): set<nat> {
    set i: nat | i < |Keywords(q)| && Infix(ToLower(Keywords(q)[i]), ToLower(title))
  }

  /** A quadrant's score is the number of its keywords found in the title, case-insensitively. */
  lemma ScoreCountsKeywords(title: string, q: Quadrant)
    ensures ScoresOf(title).Of(q) == |FoundKeywords(title, q)|
    ensures ScoresOf(title).Of(q) <= |Keywords(q)|
  {
    var lt, kws := ToLower(title), Keywords(q);
    assert ScoresOf(title).Of(q) == CountHits(lt, kws, |kws|);
    CountHitsIsHitSet(lt, kws, |kws|);
    assert HitSet(lt, kws, |kws|) == FoundKeywords(title, q) by {
      forall i: nat | i < |kws| ensures IncludesLower(lt, kws[i]) <==> Infix(ToLower(kws[i]), lt) {
        IncludesLowerIff(lt, kws[i]);
      }
    }
  }

  /** The scores are bounded by the list lengths: A by 19, B by 24, C by 21 and D by 17. */
  lemma ScoreBounds(title: string)
    ensures ScoresOf(title).a <= 19 && ScoresOf(title).b <= 24
    ensures ScoresOf(title).c <= 21 && ScoresOf(title).d <= 17
  {
    ScoreCountsKeywords(title, A);
    ScoreCountsKeywords(title, B);
    ScoreCountsKeywords(title, C);
    ScoreCountsKeywords(title, D);
  }

  /** Nothing matched at all exactly when the total is 0. */
  lemma NothingFoundIff(title: string)
    ensures ScoresOf(title).Total() == 0 <==> forall q :: FoundKeywords(title, q) == {}
  {
    forall q ensures ScoresOf(title).Of(q) == |FoundKeywords(title, q)| {
      ScoreCountsKeywords(title, q);
    }
  }

  // ---------------------------------------------------------------------------
  // The winner

  /** `q` wins exactly when it has the maximum score and every quadrant before it in A, B, C, D order scores less. */
  lemma BestIsFirstMaximum(s: Scores, q: Quadrant)
    ensures Best(s) == q <==>
              s.Of(q) == s.Max() && forall p :: Rank(p) < Rank(q) ==> s.Of(p) < s.Max()
  {
    var w := Best(s);
    if s.Of(q) == s.Max() && forall p :: Rank(p) < Rank(q) ==> s.Of(p) < s.Max() {
      assert Rank(w) == Rank(q);
      assert w == Order[Rank(w)] == Order[Rank(q)] == q;
    }
  }

  /** The maximum always occurs among the scores, so `find` never comes back empty and the "D" default is dead. */
  lemma DefaultNeverUsed(s: Scores)
    ensures Find(s, s.Max()).Some?
    ensures Best(s) == Find(s, s.Max()).value
  {
  }

  /** With no keyword found anywhere, the result is quadrant A (not D) at confidence 30, with the fallback sentence. */
  lemma NoMatchIsA(title: string)
    requires forall q :: FoundKeywords(title, q) == {}
    ensures ClassifyTask(title) == Classification(A, 30, NoMatchSentence(title, A))
  {
    NothingFoundIff(title);
    var s := ScoresOf(title);
    BestIsFirstMaximum(s, A);
  }

  /** Every keyword is non-empty, so the empty title matches nothing. */
  lemma EmptyTitleFindsNothing(q: Quadrant)
    ensures FoundKeywords("", q) == {}
  {
    forall i: nat | i < |Keywords(q)| ensures !Infix(ToLower(Keywords(q)[i]), ToLower("")) {
      KeywordsNonEmpty(q, i);
    }
  }

  lemma KeywordsNonEmpty(q: Quadrant, i: nat)
    requires i < |Keywords(q)|
    ensures |Keywords(q)[i]| > 0
  {
  }

  /** The empty title falls back to quadrant A with confidence 30. */
  lemma EmptyTitle()
    ensures ClassifyTask("") == Classification(A, 30, NoMatchSentence("", A))
  {
    EmptyTitleFindsNothing(A);
    EmptyTitleFindsNothing(B);
    EmptyTitleFindsNothing(C);
    EmptyTitleFindsNothing(D);
    NoMatchIsA("");
  }

  // ---------------------------------------------------------------------------
  // Confidence

  /** When only one quadrant scores, it wins with confidence exactly 95. */
  lemma SoleQuadrantIs95(s: Scores, q: Quadrant)
    requires s.Of(q) > 0
    requires forall p :: p != q ==> s.Of(p) == 0
    ensures Best(s) == q
    ensures Confidence(s) == 95
  {
    assert s.Max() == s.Of(q);
    assert s.Total() == s.Of(A) + s.Of(B) + s.Of(C) + s.Of(D);
    BestIsFirstMaximum(s, q);
    WholeShareIs95(s);
  }

  /** A winner that holds every match (ratio 1) is reported at the 95 cap. */
  lemma WholeShareIs95(s: Scores)
    requires 0 < s.Max() == s.Total()
    ensures Confidence(s) == 95
  {
    var t := s.Total();
    ConfidenceFormula(s);
    DivIs(200 * t + t, 2 * t, 100);
  }

  lemma DivIs(n: int, d: int, q: int)
    requires d > 0 && d * q <= n < d * q + d
    ensures n / d == q
  {
    var r := n / d;
    assert n == d * r + n % d && 0 <= n % d < d;
    if r < q {
      MulMono(d, r + 1, q);
    } else if q < r {
      MulMono(d, q + 1, r);
    }
  }

  lemma MulMono(d: int, a: int, b: int)
    requires d > 0 && a <= b
    ensures d * a <= d * b
  {
  }

  /** The integer confidence formula: `min(95, (200·max + total) / (2·total))` whenever something matched. */
  lemma ConfidenceFormula(s: Scores)
    requires s.Total() > 0
    ensures Confidence(s) == var r := (200 * s.Max() + s.Total()) / (2 * s.Total()); if r < 95 then r else 95
  {
    assert 2 * (100 * s.Max()) + s.Total() == 200 * s.Max() + s.Total();
  }

  // ---------------------------------------------------------------------------
  // Case insensitivity

  /**
   Titles with the same lower-case form get the same quadrant and confidence; the
   reasoning differs only in the no-match sentence, which quotes the title itself.
   */
  lemma CaseInsensitive(t1: string, t2: string)
    requires ToLower(t1) == ToLower(t2)
    ensures ClassifyTask(t1).quadrant == ClassifyTask(t2).quadrant
    ensures ClassifyTask(t1).confidence == ClassifyTask(t2).confidence
    ensures ScoresOf(t1).Max() > 0 ==> ClassifyTask(t1).reasoning == ClassifyTask(t2).reasoning
  {
    assert ScoresOf(t1) == ScoresOf(t2);
  }

  /** Changing the ASCII case of letters does not change the quadrant or the confidence. */
  lemma AsciiCaseVariants(t1: string, t2: string)
    requires |t1| == |t2|
    requires forall i :: 0 <= i < |t1| ==> LowerChar(t1[i]) == LowerChar(t2[i])
    ensures ClassifyTask(t1).quadrant == ClassifyTask(t2).quadrant
    ensures ClassifyTask(t1).confidence == ClassifyTask(t2).confidence
  {
    SameLowerIff(t1, t2);
    CaseInsensitive(t1, t2);
  }

  // ---------------------------------------------------------------------------
  // Reasoning

  /** The positions of the first `n` keywords of `kws` found in `lt`, in increasing order. */
  function HitPositions(lt: string, kws: seq<string>, n: nat): (idx: seq<nat>)
    requires n <= |kws|
    ensures forall j :: 0 <= j < |idx| ==> idx[j] < n && IncludesLower(lt, kws[idx[j]])
    ensures forall j, k :: 0 <= j < k < |idx| ==> idx[j] < idx[k]
    ensures forall i :: 0 <= i < n && IncludesLower(lt, kws[i]) ==> i in idx
  {
    if n == 0 then []
    else if IncludesLower(lt, kws[n - 1]) then HitPositions(lt, kws, n - 1) + [n - 1]
    else HitPositions(lt, kws, n - 1)
  }

  /** The matched list is the keywords at the hit positions, in list order. */
  lemma {:induction false} MatchedInListOrder(lt: string, kws: seq<string>, n: nat)
    requires n <= |kws|
    ensures |Matched(lt, kws, n)| == |HitPositions(lt, kws, n)|
    ensures forall j :: 0 <= j < |Matched(lt, kws, n)| ==>
              Matched(lt, kws, n)[j] == kws[HitPositions(lt, kws, n)[j]]
  {
    if n > 0 {
      MatchedInListOrder(lt, kws, n - 1);
      if IncludesLower(lt, kws[n - 1]) {
        assert Matched(lt, kws, n) == Matched(lt, kws, n - 1) + [kws[n - 1]];
        assert HitPositions(lt, kws, n) == HitPositions(lt, kws, n - 1) + [n - 1];
      }
    }
  }

  /**
   The reasoning of the result: the fallback sentence quoting the title when nothing
   matched; otherwise the sentence citing exactly the winner's matched keywords,
   whose number is the winner's score, so the generic sentence is never produced.
   */
  lemma ReasoningOfResult(title: string)
    ensures var r := ClassifyTask(title);
            var s := ScoresOf(title);
            var m := Matched(ToLower(title), Keywords(r.quadrant), |Keywords(r.quadrant)|);
            && (s.Max() == 0 ==> r.reasoning == NoMatchSentence(title, r.quadrant) && Infix(title, r.reasoning))
            && (s.Max() > 0 ==> |m| == s.Max() && r.reasoning == CitedSentence(m, r.quadrant))
            && (s.Max() > 0 ==> forall k :: k in m ==> Infix(k, r.reasoning))
  {
    var r := ClassifyTask(title);
    MatchedLength(ToLower(title), Keywords(r.quadrant), |Keywords(r.quadrant)|);
  }
}
