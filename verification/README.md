# Keyword quadrant classifier — a Dafny model

This project models the task classifier of a task-prioritisation app. The classifier is `classifyTask` in `lib/aiClassification.ts`. Despite its "AI" name, it is a fixed rule engine:

- It lower-cases a task title.
- It adds one point to a quadrant's score for every keyword of that quadrant that occurs in the title. The quadrants are those of the Eisenhower matrix: A urgent and important, B important, C urgent, D neither.
- It picks the first quadrant, in A, B, C, D order, whose score is the maximum.
- It reports a confidence percentage: the winner's share of all matches, capped at 95, or 30 when nothing matched.
- It writes a Japanese reasoning sentence (`generateReasoning`).

The model has five modules, one per concern of the source:

- `Text` (`text.dfy`): ASCII lower-casing; the substring search `h.includes(n.toLowerCase())`, together with its declarative reading as a slice; `Array.prototype.join`.
- `Rules` (`rules.dfy`): the `Quadrant` type, the keyword table and the quadrant descriptions.
- `Classifier` (`classifier.dfy`): scoring, the `find` over the scores, the confidence, the reasoning, and `ClassifyTask`.
- `Properties` (`properties.dfy`): properties over all titles. These cover what a score counts, the tie-break, the dead `"D"` default, the no-match result, the confidence range and formula, case insensitivity, and what the reasoning cites.
- `Examples` (`examples.dfy`): four titles worked through the model.

Three facts of the code shape the model:

- Every keyword weighs 1: a hit adds exactly one point (lib/aiClassification.ts:56).
- A title that matches nothing is classified as **A**. `find` (lib/aiClassification.ts:63) returns the first quadrant whose score equals the maximum; when every score is 0 that is A, so the `|| "D"` default can never fire. The fallback sentence (lib/aiClassification.ts:84) still says "D象限" but prints A's description.
- The reasoning cites every matched keyword of the winner, in keyword-list order (lib/aiClassification.ts:87-92).

The confidence is modelled with exact arithmetic. `Confidence` computes `min(95, (200·max + total) / (2·total))` on integers. Its contract ties this to `Math.round(Math.min(95, max / total * 100))` over exact reals, where `Math.round(x)` is read as `floor(x + 1/2)`.

## Model

| member | source | states |
|---|---|---|
| Text.ToLower | lib/aiClassification.ts:48 | the lowered title has the same length and no ASCII capital; every other character is kept; each capital is shifted to its lower-case letter |
| Text.ToLowerIdempotent | lib/aiClassification.ts:48 | lower-casing an already lowered title changes nothing |
| Text.SameLowerIff | lib/aiClassification.ts:48 | two titles lower to the same string exactly when they agree position by position up to ASCII case |
| Text.IncludesLowerIff | lib/aiClassification.ts:55 | the character scan finds a keyword exactly when its lower-cased form is a contiguous slice of the lowered title |
| Text.MatchesFromIff | lib/aiClassification.ts:55 | comparing the lowered keyword character by character at a start position is the same as slice equality there |
| Text.IncludesFromIff | lib/aiClassification.ts:55 | scanning from position i succeeds exactly when the lowered keyword occurs at some position at or after i |
| Text.IncludesLowerChars | lib/aiClassification.ts:55 | a keyword can only be found when every one of its lowered characters occurs in the title |
| Text.InfixOfConcat | lib/aiClassification.ts:84 | a string embedded between two others is a slice of the result, so the title is contained in the fallback sentence |
| Text.JoinHasEach | lib/aiClassification.ts:92 | every element of a joined list appears inside `join`'s result |
| Rules.Rank | lib/aiClassification.ts:10-45 | each quadrant has exactly one position in the A, B, C, D iteration order |
| Rules.LoweredKeywords | lib/aiClassification.ts:55 | the lowered keyword list has one entry per keyword, none with a capital letter |
| Rules.LoweringFixesA | lib/aiClassification.ts:13-15 | lower-casing changes none of A's keywords |
| Rules.LoweringChangesB | lib/aiClassification.ts:21-24 | of B's keywords only "UI", "UX" and "A/B" change under lower-casing, to "ui", "ux" and "a/b" |
| Rules.LoweringChangesC | lib/aiClassification.ts:30-33 | of C's keywords only "README", "E2E" and "CI/CD" change under lower-casing |
| Rules.LoweringFixesD | lib/aiClassification.ts:39-41 | lower-casing changes none of D's keywords |
| Rules.FoundIffLoweredInfix | lib/aiClassification.ts:55 | keyword i of a quadrant is found in the lowered title exactly when its entry in the lowered keyword list is a slice of it, which ties the lowered table to the search |
| Classifier.Scores.Max | lib/aiClassification.ts:62 | the maximum is at least every score and equals one of them |
| Classifier.Scores.Total | lib/aiClassification.ts:66 | the total is 0 exactly when every score is 0, and lies between the maximum and four times the maximum |
| Classifier.CountHitsIsHitSet | lib/aiClassification.ts:54-57 | the scoring loop adds one point per found keyword: its result is the number of hit positions, at most the number of keywords |
| Classifier.FindFrom | lib/aiClassification.ts:63 | the search stops at the first position from i whose score equals the target, skipping only positions that differ |
| Classifier.Find | lib/aiClassification.ts:63 | `find` fails exactly when no quadrant has the target score; otherwise it returns a quadrant with that score, and every earlier quadrant has a different one |
| Classifier.Best | lib/aiClassification.ts:62-63 | the chosen quadrant has the maximum score and every earlier quadrant scores strictly less |
| Classifier.RoundHalfUp | lib/aiClassification.ts:74 | integer round-half-up of n/d equals `floor(n/d + 1/2)` over the reals |
| Classifier.Confidence | lib/aiClassification.ts:66-67 | 30 when nothing matched; otherwise the rounded `min(95, max/total*100)` over exact reals, which lies in [25, 95]; the integer formula `min(95, (200·max + total) / (2·total))` computes it |
| Classifier.ConfidenceRounding | lib/aiClassification.ts:67-74 | capping at 95 before rounding, as the source does, equals capping after rounding, and the rounded share is at least 25 |
| Classifier.ShareBounds | lib/aiClassification.ts:66-67 | the percentage share of the largest of four scores with a positive total lies in [25, 100] |
| Classifier.PercentScaled | lib/aiClassification.ts:67 | `max / total * 100` equals `100·max / total` |
| Classifier.RoundCap | lib/aiClassification.ts:67-74 | rounding a share in [25, 100] yields a value in [25, 100], and the cap commutes with rounding |
| Classifier.MatchedLength | lib/aiClassification.ts:87-89 | the matched-keyword list has exactly as many entries as the score counted |
| Classifier.MatchedSound | lib/aiClassification.ts:87-89 | every matched keyword is from the quadrant's list and occurs, lowered, in the lowered title |
| Classifier.MatchedComplete | lib/aiClassification.ts:87-89 | every keyword of the list that occurs, lowered, in the lowered title is matched |
| Classifier.Reasoning | lib/aiClassification.ts:79-96 | with score 0 the sentence contains the title; otherwise it contains every matched keyword |
| Classifier.CitedIncludesEach | lib/aiClassification.ts:91-92 | the cited sentence contains each keyword it joins |
| Classifier.ClassifyTask | lib/aiClassification.ts:47-77 | the result's quadrant has the maximum score and earlier quadrants score less; the confidence is 30 without matches and within [25, 95] with them |
| Properties.ScoreCountsKeywords | lib/aiClassification.ts:51-59 | a quadrant's score is the number of its keywords whose lowered form is a slice of the lowered title, and at most the list's length |
| Properties.ScoreBounds | lib/aiClassification.ts:12-42 | scores are bounded by the list lengths: A by 19, B by 24, C by 21, D by 17 |
| Properties.NothingFoundIff | lib/aiClassification.ts:66 | the total is 0 exactly when no quadrant found any keyword |
| Properties.BestIsFirstMaximum | lib/aiClassification.ts:62-63 | a quadrant wins if and only if it has the maximum score and every earlier quadrant scores less, so ties go to the earliest |
| Properties.DefaultNeverUsed | lib/aiClassification.ts:63 | `find` always succeeds on the maximum, so the `"D"` default is unreachable |
| Properties.NoMatchIsA | lib/aiClassification.ts:47-85 | with no keyword found, the result is quadrant A, confidence 30 and the fallback sentence with A's description |
| Properties.EmptyTitleFindsNothing | lib/aiClassification.ts:55 | no keyword is found in the empty title |
| Properties.KeywordsNonEmpty | lib/aiClassification.ts:12-42 | every keyword in the table is non-empty |
| Properties.EmptyTitle | lib/aiClassification.ts:47-85 | the empty title is classified as A with confidence 30 and the fallback sentence |
| Properties.SoleQuadrantIs95 | lib/aiClassification.ts:62-67 | when only one quadrant scores, it wins with confidence exactly 95 |
| Properties.WholeShareIs95 | lib/aiClassification.ts:67 | a winner holding all matches gets the capped 95 |
| Properties.CaseInsensitive | lib/aiClassification.ts:48-55 | titles with the same lowered form get the same quadrant and confidence, and the same reasoning once something matched |
| Properties.AsciiCaseVariants | lib/aiClassification.ts:48 | titles that differ only in ASCII letter case get the same quadrant and confidence |
| Properties.HitPositions | lib/aiClassification.ts:87-89 | the hit positions are in range, found, strictly increasing and complete |
| Properties.MatchedInListOrder | lib/aiClassification.ts:87-89 | the matched keywords are the keywords at the hit positions, in keyword-list order |
| Properties.ReasoningOfResult | lib/aiClassification.ts:70-96 | with no match the reasoning is the fallback sentence, which contains the title; otherwise it cites exactly the winner's matched keywords, as many as its score, so the generic sentence never appears |
| Examples.CountFromHits | lib/aiClassification.ts:54-57 | when exactly the positions in a given set are found, the score of the list is the size of that set |
| Examples.MatchedFromHits | lib/aiClassification.ts:87-89 | given the increasing positions of exactly the found keywords, the matched list is the keywords at those positions |
| Examples.ClassifiedAs | lib/aiClassification.ts:47-92 | once the winner scored, the result is that winner, the confidence of the scores, and the sentence citing its matched keywords |
| Examples.PaymentBugFixScores | lib/aiClassification.ts:51-59 | "決済バグ修正" scores A=3 and 0 in B, C and D |
| Examples.PaymentBugFix | lib/aiClassification.ts:47-77 | "決済バグ修正" is A with confidence 95, citing バグ、修正、決済 |
| Examples.MailImprovementScores | lib/aiClassification.ts:51-59 | "メール改善" scores B=1 and C=1, and 0 in A and D |
| Examples.MailImprovement | lib/aiClassification.ts:62-67 | the B/C tie of "メール改善" goes to B, with confidence 50 |
| Examples.UnitTestScores | lib/aiClassification.ts:51-59 | "単体テスト" scores B=1 and C=2, and 0 in A and D |
| Examples.UnitTest | lib/aiClassification.ts:47-77 | "単体テスト" is C with confidence 67, citing テスト、単体テスト |
| Examples.FixUiScores | lib/aiClassification.ts:48-59 | "Fix UI", lowered to "fix ui", scores B=1 and 0 elsewhere |
| Examples.FixUi | lib/aiClassification.ts:47-92 | "Fix UI" is B with confidence 95, citing the keyword as listed, "UI" |
| Examples.PaymentBugFixFoundA | lib/aiClassification.ts:13-15 | "決済バグ修正" contains A's バグ, 修正 and 決済 (positions 0, 2 and 13 of the list) |
| Examples.PaymentBugFixMatched | lib/aiClassification.ts:87-89 | the matched A keywords of "決済バグ修正" are exactly バグ, 修正, 決済, in list order |
| Examples.MailImprovementFoundB | lib/aiClassification.ts:21 | "メール改善" contains B's 改善 |
| Examples.MailImprovementFoundC | lib/aiClassification.ts:32 | "メール改善" contains C's メール |
| Examples.UnitTestFoundC | lib/aiClassification.ts:33 | "単体テスト" contains both C's テスト and 単体テスト: overlapping keywords count independently |
| Examples.FixUiFoundB | lib/aiClassification.ts:22 | "fix ui" contains B's "UI" once lowered, but not "UX", although both of its letters occur |
| Examples.UnicodeLoweringGap | lib/aiClassification.ts:48 | the model lowers "Uİ" to "uİ", in which B's "UI" is not found |

## Left out

- `getRandomLoadingMessage` and `aiLoadingMessages` (lib/aiClassification.ts:99-111) are left out. They are cosmetic and draw on `Math.random`.
- Classifier.Confidence: the model does not reproduce IEEE double rounding of `(maxScore / totalKeywords) * 100` and `Math.round`; it uses exact arithmetic. Among reachable scores (each at most its list length: 19, 24, 21 and 17) exactly one pair rounds differently: max 23, total 40. In doubles `23 / 40 * 100` is 57.49999999999999, which `Math.round` turns into 57, while the model gives 58 (`Examples.DoubleRoundingGap`).
- Text.ToLower: only ASCII capitals are lowered, one character for one. `String.prototype.toLowerCase` also lowers other scripts, and some non-ASCII characters lower to ASCII letters and change the length of the string: U+0130 "İ" becomes "i" followed by U+0307, and U+212A KELVIN SIGN becomes "k". So a title can score differently: the source lowers "Uİ" to "ui̇", finds B's "UI" and returns B at 95, while the model lowers it to "uİ", finds nothing and returns A at 30 (`Examples.UnicodeLoweringGap` states the model's side). `ToLower`'s length-preserving contract does not hold for the source's lowering on such titles.
- Strings are sequences of characters. JavaScript UTF-16 code units and surrogate pairs are not modelled.
- Any mapping from a quadrant to the urgent/important flags stored with a task lives outside `lib/aiClassification.ts` and is not part of this model.
- The LLM providers (lib/ai.ts, lib/providers), the HTTP route, authentication, persistence and the UI are not part of this model. They are I/O and rendering around the classifier.
