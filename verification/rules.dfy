/**
 The fixed rule table of the classifier: four Eisenhower quadrants, each with a
 list of keywords (every keyword weighs 1) and a description used in the
 reasoning text.
 */
module Rules {
  import opened Text

  /** A = urgent and important, B = important only, C = urgent only, D = neither. */
  datatype Quadrant = A | B | C | D

  /** The order in which the quadrants are scored and searched: A, B, C, D. */
  const Order: seq<Quadrant> := [A, B, C, D]

  /** Position of a quadrant in `Order`. */
  function Rank(q: Quadrant): (k: nat)
    ensures k < |Order| && Order[k] == q
    ensures forall j :: 0 <= j < |Order| && Order[j] == q ==> j == k
  {
    match q
    case A => 0
    case B => 1
    case C => 2
    case D => 3
  }

  /** The quadrant's label as the reasoning sentences print it. */
  function Label(q: Quadrant): string {
    match q
    case A => "A"
    case B => "B"
    case C => "C"
    case D => "D"
  }

  /** The keyword list of each quadrant (`classificationKeywords[q].keywords`). */
  function Keywords(q: Quadrant): seq<string> {
    match q
    case A => KeywordsA
    case B => KeywordsB
    case C => KeywordsC
    case D => KeywordsD
  }

  const KeywordsA: seq<string> := [
    "バグ", "エラー", "修正", "緊急", "ブロッカー", "動かない", "壊れた",
    "デプロイ", "本番", "サーバー", "ダウン", "ログイン", "認証",
    "決済", "支払い", "課金", "セキュリティ", "脆弱性", "ハッキング"
  ]

  const KeywordsB: seq<string> := [
    "機能", "新機能", "追加", "改善", "最適化", "パフォーマンス",
    "ユーザー", "体験", "UI", "UX", "デザイン", "マーケティング",
    "分析", "データ", "統計", "A/B", "テスト", "検証", "仮説",
    "収益", "売上", "コンバージョン", "リテンション", "成長"
  ]

  const KeywordsC: seq<string> := [
    "ドキュメント", "README", "コメント", "整理", "リファクタ",
    "設定", "環境", "セットアップ", "インストール", "依存関係",
    "メール", "通知", "アラート", "ログ", "監視", "バックアップ",
    "テスト", "単体テスト", "結合テスト", "E2E", "CI/CD"
  ]

  const KeywordsD: seq<string> := [
    "アイデア", "検討", "調査", "研究", "実験", "プロトタイプ",
    "将来", "後で", "いつか", "余裕", "時間", "暇",
    "趣味", "学習", "勉強", "練習", "試行錯誤"
  ]

  function Description(q: Quadrant): string {
    match q
    case A => "ローンチを止める致命的なブロッカー"
    case B => "ROIの高い検証・グロース施策"
    case C => "任せられるOps・自動化候補"
    case D => "影響が小さいタスク・バックログ"
  }

  /** Every keyword lower-cased, as the search compares them against the lower-cased title. */
  function LoweredKeywords(q: Quadrant): (r: seq<string>)
    ensures |r| == |Keywords(q)|
    ensures forall i :: 0 <= i < |r| ==> NoUpper(r[i])
  {
    seq(|Keywords(q)|, i requires 0 <= i < |Keywords(q)| => ToLower(Keywords(q)[i]))
  }

  /** The lowered list equals the list itself when lowering leaves every keyword alone. */
  lemma LoweringFixes(q: Quadrant)
    requires forall i :: 0 <= i < |Keywords(q)| ==> ToLower(Keywords(q)[i]) == Keywords(q)[i]
    ensures LoweredKeywords(q) == Keywords(q)
  {
  }

  /** Lower-casing leaves every keyword of A untouched: they are all Japanese. */
  lemma LoweringFixesA()
    ensures LoweredKeywords(A) == Keywords(A)
  {
    forall i | 0 <= i < |KeywordsA| ensures ToLower(KeywordsA[i]) == KeywordsA[i] {
      LowerFixes(KeywordsA[i]);
    }
    LoweringFixes(A);
  }

  lemma JapaneseUnchangedB()
    ensures forall i :: 0 <= i < |KeywordsB| && i != 8 && i != 9 && i != 15 ==> ToLower(KeywordsB[i]) == KeywordsB[i]
  {
    forall i | 0 <= i < |KeywordsB| && i != 8 && i != 9 && i != 15 ensures ToLower(KeywordsB[i]) == KeywordsB[i] {
      LowerFixes(KeywordsB[i]);
    }
  }

  /** Of B's keywords only "UI", "UX" and "A/B" change under lower-casing. */
  lemma LoweringChangesB()
    ensures LoweredKeywords(B) == Keywords(B)[8 := "ui"][9 := "ux"][15 := "a/b"]
  {
    JapaneseUnchangedB();
    assert ToLower("UI") == "ui";
    assert ToLower("UX") == "ux";
    assert ToLower("A/B") == "a/b";
  }

  lemma JapaneseUnchangedC()
    ensures forall i :: 0 <= i < |KeywordsC| && i != 1 && i != 19 && i != 20 ==> ToLower(KeywordsC[i]) == KeywordsC[i]
  {
    forall i | 0 <= i < |KeywordsC| && i != 1 && i != 19 && i != 20 ensures ToLower(KeywordsC[i]) == KeywordsC[i] {
      LowerFixes(KeywordsC[i]);
    }
  }

  /** Of C's keywords only "README", "E2E" and "CI/CD" change under lower-casing. */
  lemma LoweringChangesC()
    ensures LoweredKeywords(C) == Keywords(C)[1 := "readme"][19 := "e2e"][20 := "ci/cd"]
  {
    JapaneseUnchangedC();
    assert ToLower("README") == "readme";
    assert ToLower("E2E") == "e2e";
    assert ToLower("CI/CD") == "ci/cd";
  }

  /** Lower-casing leaves every keyword of D untouched. */
  lemma LoweringFixesD()
    ensures LoweredKeywords(D) == Keywords(D)
  {
    forall i | 0 <= i < |KeywordsD| ensures ToLower(KeywordsD[i]) == KeywordsD[i] {
      LowerFixes(KeywordsD[i]);
    }
    LoweringFixes(D);
  }

  /**
   The search compares the title against exactly these lowered keywords: keyword `i`
   of `q` is found in `h` when `LoweredKeywords(q)[i]` is a slice of `h`, and only then.
   */
  lemma FoundIffLoweredInfix(h: string, q: Quadrant, i: nat)
    requires i < |Keywords(q)|
    ensures IncludesLower(h, Keywords(q)[i]) <==> Infix(LoweredKeywords(q)[i], h)
  {
    IncludesLowerIff(h, Keywords(q)[i]);
  }
}
