/**
 Worked titles, evaluated against the model: a clear-cut A, a tie between B
 and C, keywords that overlap, and an ASCII keyword that only matches after
 lower-casing.
 */
module Examples {
  import opened Text
  import opened Rules
  import opened Classifier
  import opened Properties

  /** Exactly the positions in `hits` of `kws` are found in `lt`. */
  predicate ExactHits(lt: string, kws: seq<string>, hits: set<nat>) {
    && (forall i :: i in hits ==> i < |kws|)
    && (forall i :: 0 <= i < |kws| ==> (IncludesLower(lt, kws[i]) <==> i in hits))
  }

  /** The score of a keyword list is the number of positions found. */
  lemma CountFromHits(lt: string, kws: seq<string>, hits: set<nat>)
    requires ExactHits(lt, kws, hits)
    ensures CountHits(lt, kws, |kws|) == |hits|
  {
    CountHitsIsHitSet(lt, kws, |kws|);
    assert HitSet(lt, kws, |kws|) == hits;
  }

  /** Two strictly increasing sequences with the same elements are equal. */
  lemma {:induction false} IncreasingUnique(a: seq<nat>, b: seq<nat>)
    requires forall j, k :: 0 <= j < k < |a| ==> a[j] < a[k]
    requires forall j, k :: 0 <= j < k < |b| ==> b[j] < b[k]
    requires forall x :: x in a <==> x in b
    ensures a == b
    decreases |a|
  {
    if |a| > 0 {
      assert a[0] in b;
    }
    if |b| > 0 {
      assert b[0] in a;
    }
    if |a| > 0 {
      assert a[0] == b[0] by {
        assert a[0] in b && b[0] in a;
      }
      forall x ensures x in a[1..] <==> x in b[1..] {
        if x in a[1..] { assert x in b && x != b[0]; }
        if x in b[1..] { assert x in a && x != a[0]; }
      }
      IncreasingUnique(a[1..], b[1..]);
      assert a == [a[0]] + a[1..] && b == [b[0]] + b[1..];
    }
  }

  /** The matched list, given the found positions listed in increasing order. */
  lemma MatchedFromHits(lt: string, kws: seq<string>, hits: set<nat>, idx: seq<nat>)
    requires ExactHits(lt, kws, hits)
    requires forall x :: x in idx <==> x in hits
    requires forall j, k :: 0 <= j < k < |idx| ==> idx[j] < idx[k]
    requires forall j :: 0 <= j < |idx| ==> idx[j] < |kws|
    ensures Matched(lt, kws, |kws|) == seq(|idx|, j requires 0 <= j < |idx| => kws[idx[j]])
  {
    var hp := HitPositions(lt, kws, |kws|);
    IncreasingUnique(hp, idx);
    MatchedInListOrder(lt, kws, |kws|);
  }

  /** A title whose winner `q` scored: the result cites exactly the matched keywords of `q`. */
  lemma ClassifiedAs(title: string, s: Scores, q: Quadrant, matched: seq<string>)
    requires ScoresOf(title) == s
    requires Best(s) == q && s.Of(q) > 0
    requires Matched(ToLower(title), Keywords(q), |Keywords(q)|) == matched
    ensures ClassifyTask(title) == Classification(q, Confidence(s), CitedSentence(matched, q))
  {
    MatchedLength(ToLower(title), Keywords(q), |Keywords(q)|);
  }

  // ---------------------------------------------------------------------------
  // "決済バグ修正": バグ, 修正 and 決済 of A, nothing else

  lemma PaymentBugFixMissesA()
    ensures forall i :: 0 <= i < |KeywordsA| && i != 0 && i != 2 && i != 13 ==> !IncludesLower("決済バグ修正", KeywordsA[i])
  {
    forall i | 0 <= i < |KeywordsA| && i != 0 && i != 2 && i != 13 ensures !IncludesLower("決済バグ修正", KeywordsA[i]) {
      IncludesLowerChars("決済バグ修正", KeywordsA[i]);
    }
  }

  lemma PaymentBugFixFoundA()
    ensures IncludesLower("決済バグ修正", KeywordsA[0])
    ensures IncludesLower("決済バグ修正", KeywordsA[2])
    ensures IncludesLower("決済バグ修正", KeywordsA[13])
  {
  }

  lemma PaymentBugFixCountA()
    ensures CountHits("決済バグ修正", KeywordsA, |KeywordsA|) == 3
  {
    PaymentBugFixMissesA();
    PaymentBugFixFoundA();
    CountFromHits("決済バグ修正", KeywordsA, {0, 2, 13});
  }

  lemma PaymentBugFixMissesB()
    ensures forall i :: 0 <= i < |KeywordsB| ==> !IncludesLower("決済バグ修正", KeywordsB[i])
  {
    forall i | 0 <= i < |KeywordsB| ensures !IncludesLower("決済バグ修正", KeywordsB[i]) {
      IncludesLowerChars("決済バグ修正", KeywordsB[i]);
    }
  }

  lemma PaymentBugFixCountB()
    ensures CountHits("決済バグ修正", KeywordsB, |KeywordsB|) == 0
  {
    PaymentBugFixMissesB();
    CountFromHits("決済バグ修正", KeywordsB, {});
  }

  lemma PaymentBugFixMissesC()
    ensures forall i :: 0 <= i < |KeywordsC| ==> !IncludesLower("決済バグ修正", KeywordsC[i])
  {
    forall i | 0 <= i < |KeywordsC| ensures !IncludesLower("決済バグ修正", KeywordsC[i]) {
      IncludesLowerChars("決済バグ修正", KeywordsC[i]);
    }
  }

  lemma PaymentBugFixCountC()
    ensures CountHits("決済バグ修正", KeywordsC, |KeywordsC|) == 0
  {
    PaymentBugFixMissesC();
    CountFromHits("決済バグ修正", KeywordsC, {});
  }

  lemma PaymentBugFixMissesD()
    ensures forall i :: 0 <= i < |KeywordsD| ==> !IncludesLower("決済バグ修正", KeywordsD[i])
  {
    forall i | 0 <= i < |KeywordsD| ensures !IncludesLower("決済バグ修正", KeywordsD[i]) {
      IncludesLowerChars("決済バグ修正", KeywordsD[i]);
    }
  }

  lemma PaymentBugFixCountD()
    ensures CountHits("決済バグ修正", KeywordsD, |KeywordsD|) == 0
  {
    PaymentBugFixMissesD();
    CountFromHits("決済バグ修正", KeywordsD, {});
  }

  lemma PaymentBugFixScores()
    ensures ScoresOf("決済バグ修正") == Scores(3, 0, 0, 0)
  {
    LowerFixes("決済バグ修正");
    PaymentBugFixCountA();
    PaymentBugFixCountB();
    PaymentBugFixCountC();
    PaymentBugFixCountD();
  }

  lemma PaymentBugFixExactA()
    ensures ExactHits("決済バグ修正", KeywordsA, {0, 2, 13})
  {
    PaymentBugFixMissesA();
    PaymentBugFixFoundA();
  }

  lemma PaymentBugFixMatched()
    ensures Matched("決済バグ修正", KeywordsA, |KeywordsA|) == ["バグ", "修正", "決済"]
  {
    PaymentBugFixExactA();
    MatchedFromHits("決済バグ修正", KeywordsA, {0, 2, 13}, [0, 2, 13]);
  }

  /** A clear-cut title: only A scores, so it wins at the 95 cap, citing its three keywords in list order. */
  lemma PaymentBugFix()
    ensures ClassifyTask("決済バグ修正") == Classification(A, 95, CitedSentence(["バグ", "修正", "決済"], A))
  {
    var s := Scores(3, 0, 0, 0);
    PaymentBugFixScores();
    assert Best(s) == A && Confidence(s) == 95;
    LowerFixes("決済バグ修正");
    PaymentBugFixMatched();
    ClassifiedAs("決済バグ修正", s, A, ["バグ", "修正", "決済"]);
  }

  // ---------------------------------------------------------------------------
  // "メール改善": 改善 of B and メール of C tie at 1

  lemma MailImprovementMissesA()
    ensures forall i :: 0 <= i < |KeywordsA| ==> !IncludesLower("メール改善", KeywordsA[i])
  {
    forall i | 0 <= i < |KeywordsA| ensures !IncludesLower("メール改善", KeywordsA[i]) {
      IncludesLowerChars("メール改善", KeywordsA[i]);
    }
  }

  lemma MailImprovementCountA()
    ensures CountHits("メール改善", KeywordsA, |KeywordsA|) == 0
  {
    MailImprovementMissesA();
    CountFromHits("メール改善", KeywordsA, {});
  }

  lemma MailImprovementMissesB()
    ensures forall i :: 0 <= i < |KeywordsB| && i != 3 ==> !IncludesLower("メール改善", KeywordsB[i])
  {
    forall i | 0 <= i < |KeywordsB| && i != 3 ensures !IncludesLower("メール改善", KeywordsB[i]) {
      IncludesLowerChars("メール改善", KeywordsB[i]);
    }
  }

  lemma MailImprovementFoundB()
    ensures IncludesLower("メール改善", KeywordsB[3])
  {
  }

  lemma MailImprovementCountB()
    ensures CountHits("メール改善", KeywordsB, |KeywordsB|) == 1
  {
    MailImprovementMissesB();
    MailImprovementFoundB();
    CountFromHits("メール改善", KeywordsB, {3});
  }

  lemma MailImprovementMissesC()
    ensures forall i :: 0 <= i < |KeywordsC| && i != 10 ==> !IncludesLower("メール改善", KeywordsC[i])
  {
    forall i | 0 <= i < |KeywordsC| && i != 10 ensures !IncludesLower("メール改善", KeywordsC[i]) {
      IncludesLowerChars("メール改善", KeywordsC[i]);
    }
  }

  lemma MailImprovementFoundC()
    ensures IncludesLower("メール改善", KeywordsC[10])
  {
  }

  lemma MailImprovementCountC()
    ensures CountHits("メール改善", KeywordsC, |KeywordsC|) == 1
  {
    MailImprovementMissesC();
    MailImprovementFoundC();
    CountFromHits("メール改善", KeywordsC, {10});
  }

  lemma MailImprovementMissesD()
    ensures forall i :: 0 <= i < |KeywordsD| ==> !IncludesLower("メール改善", KeywordsD[i])
  {
    forall i | 0 <= i < |KeywordsD| ensures !IncludesLower("メール改善", KeywordsD[i]) {
      IncludesLowerChars("メール改善", KeywordsD[i]);
    }
  }

  lemma MailImprovementCountD()
    ensures CountHits("メール改善", KeywordsD, |KeywordsD|) == 0
  {
    MailImprovementMissesD();
    CountFromHits("メール改善", KeywordsD, {});
  }

  lemma MailImprovementScores()
    ensures ScoresOf("メール改善") == Scores(0, 1, 1, 0)
  {
    LowerFixes("メール改善");
    MailImprovementCountA();
    MailImprovementCountB();
    MailImprovementCountC();
    MailImprovementCountD();
  }

  lemma MailImprovementExactB()
    ensures ExactHits("メール改善", KeywordsB, {3})
  {
    MailImprovementMissesB();
    MailImprovementFoundB();
  }

  lemma MailImprovementMatched()
    ensures Matched("メール改善", KeywordsB, |KeywordsB|) == ["改善"]
  {
    MailImprovementExactB();
    MatchedFromHits("メール改善", KeywordsB, {3}, [3]);
  }

  /** A tie between B and C goes to B, the earlier quadrant, at confidence 50. */
  lemma MailImprovement()
    ensures ClassifyTask("メール改善") == Classification(B, 50, CitedSentence(["改善"], B))
  {
    var s := Scores(0, 1, 1, 0);
    MailImprovementScores();
    assert Best(s) == B && Confidence(s) == 50;
    LowerFixes("メール改善");
    MailImprovementMatched();
    ClassifiedAs("メール改善", s, B, ["改善"]);
  }

  // ---------------------------------------------------------------------------
  // "単体テスト": テスト counts for B and C, 単体テスト for C as well

  lemma UnitTestMissesA()
    ensures forall i :: 0 <= i < |KeywordsA| ==> !IncludesLower("単体テスト", KeywordsA[i])
  {
    forall i | 0 <= i < |KeywordsA| ensures !IncludesLower("単体テスト", KeywordsA[i]) {
      IncludesLowerChars("単体テスト", KeywordsA[i]);
    }
  }

  lemma UnitTestCountA()
    ensures CountHits("単体テスト", KeywordsA, |KeywordsA|) == 0
  {
    UnitTestMissesA();
    CountFromHits("単体テスト", KeywordsA, {});
  }

  lemma UnitTestMissesB()
    ensures forall i :: 0 <= i < |KeywordsB| && i != 16 ==> !IncludesLower("単体テスト", KeywordsB[i])
  {
    forall i | 0 <= i < |KeywordsB| && i != 16 ensures !IncludesLower("単体テスト", KeywordsB[i]) {
      IncludesLowerChars("単体テスト", KeywordsB[i]);
    }
  }

  lemma UnitTestFoundB()
    ensures IncludesLower("単体テスト", KeywordsB[16])
  {
  }

  lemma UnitTestCountB()
    ensures CountHits("単体テスト", KeywordsB, |KeywordsB|) == 1
  {
    UnitTestMissesB();
    UnitTestFoundB();
    CountFromHits("単体テスト", KeywordsB, {16});
  }

  lemma UnitTestMissesC()
    ensures forall i :: 0 <= i < |KeywordsC| && i != 16 && i != 17 ==> !IncludesLower("単体テスト", KeywordsC[i])
  {
    forall i | 0 <= i < |KeywordsC| && i != 16 && i != 17 ensures !IncludesLower("単体テスト", KeywordsC[i]) {
      IncludesLowerChars("単体テスト", KeywordsC[i]);
    }
  }

  lemma UnitTestFoundC()
    ensures IncludesLower("単体テスト", KeywordsC[16])
    ensures IncludesLower("単体テスト", KeywordsC[17])
  {
  }

  lemma UnitTestCountC()
    ensures CountHits("単体テスト", KeywordsC, |KeywordsC|) == 2
  {
    UnitTestMissesC();
    UnitTestFoundC();
    CountFromHits("単体テスト", KeywordsC, {16, 17});
  }

  lemma UnitTestMissesD()
    ensures forall i :: 0 <= i < |KeywordsD| ==> !IncludesLower("単体テスト", KeywordsD[i])
  {
    forall i | 0 <= i < |KeywordsD| ensures !IncludesLower("単体テスト", KeywordsD[i]) {
      IncludesLowerChars("単体テスト", KeywordsD[i]);
    }
  }

  lemma UnitTestCountD()
    ensures CountHits("単体テスト", KeywordsD, |KeywordsD|) == 0
  {
    UnitTestMissesD();
    CountFromHits("単体テスト", KeywordsD, {});
  }

  lemma UnitTestScores()
    ensures ScoresOf("単体テスト") == Scores(0, 1, 2, 0)
  {
    LowerFixes("単体テスト");
    UnitTestCountA();
    UnitTestCountB();
    UnitTestCountC();
    UnitTestCountD();
  }

  lemma UnitTestExactC()
    ensures ExactHits("単体テスト", KeywordsC, {16, 17})
  {
    UnitTestMissesC();
    UnitTestFoundC();
  }

  lemma UnitTestMatched()
    ensures Matched("単体テスト", KeywordsC, |KeywordsC|) == ["テスト", "単体テスト"]
  {
    UnitTestExactC();
    MatchedFromHits("単体テスト", KeywordsC, {16, 17}, [16, 17]);
  }

  /** Overlapping keywords both count: C wins with two of three matches, confidence round(66.7) = 67. */
  lemma UnitTest()
    ensures ClassifyTask("単体テスト") == Classification(C, 67, CitedSentence(["テスト", "単体テスト"], C))
  {
    var s := Scores(0, 1, 2, 0);
    UnitTestScores();
    assert Best(s) == C && Confidence(s) == 67;
    LowerFixes("単体テスト");
    UnitTestMatched();
    ClassifiedAs("単体テスト", s, C, ["テスト", "単体テスト"]);
  }

  // ---------------------------------------------------------------------------
  // "Fix UI": "UI" of B matches only after lower-casing both sides; every letter
  // of "UX" occurs in the title, but not next to each other

  lemma FixUiMissesA()
    ensures forall i :: 0 <= i < |KeywordsA| ==> !IncludesLower("fix ui", KeywordsA[i])
  {
    forall i | 0 <= i < |KeywordsA| ensures !IncludesLower("fix ui", KeywordsA[i]) {
      IncludesLowerChars("fix ui", KeywordsA[i]);
    }
  }

  lemma FixUiCountA()
    ensures CountHits("fix ui", KeywordsA, |KeywordsA|) == 0
  {
    FixUiMissesA();
    CountFromHits("fix ui", KeywordsA, {});
  }

  lemma FixUiMissesB()
    ensures forall i :: 0 <= i < |KeywordsB| && i != 8 && i != 9 ==> !IncludesLower("fix ui", KeywordsB[i])
  {
    forall i | 0 <= i < |KeywordsB| && i != 8 && i != 9 ensures !IncludesLower("fix ui", KeywordsB[i]) {
      IncludesLowerChars("fix ui", KeywordsB[i]);
    }
  }

  lemma FixUiFoundB()
    ensures IncludesLower("fix ui", KeywordsB[8])
    ensures !IncludesLower("fix ui", KeywordsB[9])
  {
  }

  lemma FixUiCountB()
    ensures CountHits("fix ui", KeywordsB, |KeywordsB|) == 1
  {
    FixUiMissesB();
    FixUiFoundB();
    CountFromHits("fix ui", KeywordsB, {8});
  }

  lemma FixUiMissesC()
    ensures forall i :: 0 <= i < |KeywordsC| ==> !IncludesLower("fix ui", KeywordsC[i])
  {
    forall i | 0 <= i < |KeywordsC| ensures !IncludesLower("fix ui", KeywordsC[i]) {
      IncludesLowerChars("fix ui", KeywordsC[i]);
    }
  }

  lemma FixUiCountC()
    ensures CountHits("fix ui", KeywordsC, |KeywordsC|) == 0
  {
    FixUiMissesC();
    CountFromHits("fix ui", KeywordsC, {});
  }

  lemma FixUiMissesD()
    ensures forall i :: 0 <= i < |KeywordsD| ==> !IncludesLower("fix ui", KeywordsD[i])
  {
    forall i | 0 <= i < |KeywordsD| ensures !IncludesLower("fix ui", KeywordsD[i]) {
      IncludesLowerChars("fix ui", KeywordsD[i]);
    }
  }

  lemma FixUiCountD()
    ensures CountHits("fix ui", KeywordsD, |KeywordsD|) == 0
  {
    FixUiMissesD();
    CountFromHits("fix ui", KeywordsD, {});
  }

  lemma FixUiScores()
    ensures ScoresOf("Fix UI") == Scores(0, 1, 0, 0)
  {
    assert ToLower("Fix UI") == "fix ui";
    FixUiCountA();
    FixUiCountB();
    FixUiCountC();
    FixUiCountD();
  }

  lemma FixUiExactB()
    ensures ExactHits("fix ui", KeywordsB, {8})
  {
    FixUiMissesB();
    FixUiFoundB();
  }

  lemma FixUiMatched()
    ensures Matched("fix ui", KeywordsB, |KeywordsB|) == ["UI"]
  {
    FixUiExactB();
    MatchedFromHits("fix ui", KeywordsB, {8}, [8]);
  }

  /** The title and the keyword are both lower-cased, so "Fix UI" finds "UI"; the reasoning cites it as listed. */
  lemma FixUi()
    ensures ClassifyTask("Fix UI") == Classification(B, 95, CitedSentence(["UI"], B))
  {
    var s := Scores(0, 1, 0, 0);
    FixUiScores();
    assert Best(s) == B && Confidence(s) == 95;
    assert ToLower("Fix UI") == "fix ui";
    FixUiMatched();
    ClassifiedAs("Fix UI", s, B, ["UI"]);
  }

  // ---------------------------------------------------------------------------
  // Lowering beyond ASCII

  /**
   Only ASCII capitals are lowered: "Uİ" (U+0130) lowers to "uİ", in which B's "UI"
   is not found. `String.prototype.toLowerCase` turns the same title into "ui" plus
   U+0307, which contains "ui".
   */
  lemma UnicodeLoweringGap()
    ensures ToLower("Uİ") == "uİ"
    ensures !IncludesLower(ToLower("Uİ"), KeywordsB[8])
  {
    assert ToLower("Uİ") == "uİ";
  }

  // ---------------------------------------------------------------------------
  // Exact rounding

  /**
   With 23 of 40 hits in the winning quadrant the exact share is 57.5, which rounds
   to 58. In doubles the source's percentage is 57.49999999999999 and rounds to 57.
   */
  lemma DoubleRoundingGap()
    ensures Confidence(Scores(17, 23, 0, 0)) == 58
  {
    assert Scores(17, 23, 0, 0).Max() == 23;
    assert Scores(17, 23, 0, 0).Total() == 40;
  }
}
