# CredLense hybrid credit-scoring engine in Dafny

This project models the scoring engine of CredLense Malaysia, a loan-approval page. The engine scores five applicant attributes with threshold tables. It combines those sub-scores with fixed weights into a rule probability and classifies that probability into a risk tier. It then blends the rule probability 60/40 with a language model's probability, approves at 60 or above, and explains a decline by naming the weakest rule factor.

Modules, one per component of `app.py`:

- `Components` (`components.dfy`) holds the five component scorers. The four threshold scorers follow the source's chain of guarded returns, with the loan-to-income test in integer form.
  - Each of the four threshold scorers is tied by a lemma (`CreditMatchesTable`, `DtiMatchesTable`, `LtiMatchesRatio`, `IncomeMatchesTable`) to an ordered bracket table scanned once, first match wins. Monotonicity in each one's own attribute is proved once for the table scan and transferred to the scorer.
  - `LtiNonDecreasingInIncome` is proved directly.
  - `EmploymentComponent`'s contract ties it to the `EmploymentTable` map.
- `RuleEngine` (`rule_engine.dfy`) holds the factors, their weights and the breakdown. It also holds the clamp and `rule_based_probability`.
- `Risk` (`risk.dfy`) holds the four-tier classifier.
- `AiOpinion` (`ai_opinion.dfy`) holds the reply adapter. It covers Python's `str.strip`, `str.find`, `str.rfind` and slice semantics, the first-`{`/last-`}` extraction, defaults for missing keys, and the fixed fallback opinion.
- `Hybrid` (`hybrid.dfy`) holds the inline decision block of `app.py:175-209`, lifted into pure functions: blend, cutoff, weakest factor (Python `min` tie-breaking), and explanation. A decoder that reads an explanation back serves as the explanation's inverse. The module also holds the whole request as `Evaluate`.
- `Wrappers` (`wrappers.dfy`) defines `Option`.

Representation choices:

- Probabilities are exact `real`s.
- Applicant attributes are `int`s, as the page's inputs are.
- The loan-to-income brackets are tested as `5 * loan <= k * income`. `Components.LtiMatchesRatio` proves this agrees with `loan / income <= k/5` for every positive income.
- The network call is represented by its outcome, an `Option<string>`, where `None` means the call raised.
- `json.loads` is a parameter `parse: string -> Option<Parsed>`, where `None` means a parse error. The text handed to it starts with `{` whenever it could parse, so a successful parse is always a JSON object and `.get` cannot fail.

Two facts about the code worth stating outright:

- For the page's default applicant, DTI 42 falls in the `<= 50` bracket and scores 40, so the rule probability is 67. `RuleEngine.DefaultApplicant` proves the sub-scores 60/40/80/90/95 and the probability 67.
- The code does not bound `ai_probability`. The model accepts any integer, and `Hybrid.Blend` keeps the combined probability in [0, 100] for every one of them. One exception is not modelled; see `Hybrid.Blend` under "## Left out".

## Model

| member | source | states |
|---|---|---|
| Components.CreditScoreComponent | app.py:38-45 | the credit sub-score is one of the seven table values 95/85/75/60/45/30/15 |
| Components.CreditMatchesTable | app.py:38-45 | the credit scorer equals a scan of the bracket table (800, 740, 700, 650, 600, 550) with inclusive lower bounds and floor 15 |
| Components.CreditNonDecreasing | app.py:38-45 | a higher credit score never gets a lower sub-score |
| Components.CreditBoundaries | app.py:38-45 | lower bounds are inclusive: 800→95, 799→85, 740→85, 739→75, 550→30, 549→15, everything below 550→15 |
| Components.DtiComponent | app.py:47-53 | the DTI sub-score is one of 95/80/60/40/25/10 |
| Components.DtiMatchesTable | app.py:47-53 | the DTI scorer equals a scan of the table (20, 30, 40, 50, 60) with inclusive upper bounds and 10 beyond |
| Components.DtiNonIncreasing | app.py:47-53 | a higher DTI never gets a higher sub-score |
| Components.LtiComponent | app.py:55-62 | the loan-to-income sub-score is one of 95/80/60/40/15/0, and it is 0 exactly when income ≤ 0, whatever the loan |
| Components.LtiMatchesRatio | app.py:57-62 | for income > 0 the integer bracket tests agree with comparing the real ratio loan/income against 0.2/0.4/0.6/0.8 |
| Components.LtiNonIncreasingInLoan | app.py:55-62 | for a fixed positive income, a larger loan never scores higher |
| Components.LtiNonDecreasingInIncome | app.py:55-62 | for a fixed loan, a larger income never scores lower |
| Components.IncomeFloorComponent | app.py:64-69 | the income sub-score is one of 90/75/60/45/25 |
| Components.IncomeMatchesTable | app.py:64-69 | the income scorer equals a scan of the table (80000, 50000, 30000, 20000) with inclusive lower bounds and floor 25 |
| Components.IncomeNonDecreasing | app.py:64-69 | a higher income never gets a lower income sub-score |
| Components.EmploymentComponent | app.py:71-77 | each of Employed/Self-Employed/Student/Retired/Unemployed gets its table score 95/75/50/40/20, and every other string gets 30 |
| Components.ComponentsBounded | app.py:38-77 | every sub-score lies in [0, 95], inside the promised [0, 100] |
| RuleEngine.WeightsSumToOne | app.py:80-84 | the five weights are positive and sum to 1 |
| RuleEngine.Clamp | app.py:100 | `max(0, min(100, p))` lies in [0, 100] and leaves in-range values unchanged |
| RuleEngine.Scores | app.py:86-90 | each factor's sub-score comes from its own scorer applied to the matching attribute |
| RuleEngine.RuleBasedProbability | app.py:79-106 | the probability is in [0, 100] and equals the weighted sum of exactly the returned breakdown; the sum always lies in [12.75, 94.25], so the clamp never changes it |
| RuleEngine.RuleMonotoneInCredit | app.py:79-106 | a better credit score never lowers the rule probability |
| RuleEngine.RuleAntitoneInDti | app.py:79-106 | a higher DTI never raises the rule probability |
| RuleEngine.RuleAntitoneInLoan | app.py:79-106 | a larger loan never raises the rule probability |
| RuleEngine.RuleMonotoneInIncome | app.py:79-106 | a higher income never lowers the rule probability |
| RuleEngine.DefaultApplicant | app.py:119-124 | the page's default applicant (80000, 680, 25000, 42, Employed) gets sub-scores 60/40/80/90/95 and rule probability 67 |
| Risk.RiskTier | app.py:108-112 | the tier is the safest one whose inclusive floor (80/60/40) the probability reaches, and the probability is below the next safer tier's floor |
| Risk.RiskTierMonotone | app.py:108-112 | a higher probability never lands in a riskier tier |
| Risk.RiskTierLabels | app.py:108-112 | the printed tier is "Low" exactly from 80, "Medium" exactly in [60, 80), "High" exactly in [40, 60) and "Very High" exactly below 40 |
| Risk.RiskTierBoundaries | app.py:108-112 | 80→Low, 79.999→Medium, 60→Medium, 59.999→High, 40→High, 39.999→Very High |
| AiOpinion.Strip | app.py:177 | `strip()` removes only Python whitespace, only from the two ends, and leaves none at either end |
| AiOpinion.Find | app.py:178 | `find` gives the first index of the character, or -1 exactly when it is absent |
| AiOpinion.RFind | app.py:179 | `rfind` gives the last index of the character, or -1 exactly when it is absent |
| AiOpinion.Slice | app.py:180 | Python slicing with in-range indices is the ordinary subsequence |
| AiOpinion.JsonText | app.py:178-180 | when a `}` follows the first `{`, the parser gets exactly the stretch from the first `{` to the last `}` inclusive; otherwise it gets the empty text or a lone `}` |
| AiOpinion.BareJsonText | app.py:178-180 | without a `}` after the first `{`, the extracted text is `""` or `"}"` |
| AiOpinion.StripKeepsJsonText | app.py:177-180 | stripping the reply first never changes the extracted JSON text when a braced stretch exists |
| AiOpinion.GetOpinion | app.py:175-187 | a failed call or a parse error yields exactly (50, "AI parsing failed", []); after a successful parse each missing key independently defaults to 50, "" or [] |
| AiOpinion.BracelessReplyFallsBack | app.py:175-187 | a reply with no `{` at all yields exactly the fallback opinion |
| AiOpinion.UnclosedReplyFallsBack | app.py:175-187 | a reply with no `}` after its first `{` yields exactly the fallback opinion |
| Hybrid.Blend | app.py:190-191 | for any AI probability the combined probability is 0.6·rule + 0.4·ai cut back to [0, 100]: the mix itself when it is in range, 100 above, 0 below; for in-range inputs it lies between the two |
| Hybrid.BlendMonotone | app.py:190-191 | raising either input never lowers the combined probability |
| Hybrid.Decide | app.py:192-193 | the result is Approved exactly when combined ≥ 60, which is exactly when the final tier is Low or Medium |
| Hybrid.DecisionLabels | app.py:193-209 | the printed decision is "Approved" exactly when combined ≥ 60 and "Declined" exactly below; `Explanation` opens with that same word |
| Hybrid.DecideAtCutoff | app.py:193 | 60 is approved and 59.999 is declined |
| Hybrid.FirstMinFrom | app.py:203 | Python's `min` scan returns an index with the least key and every earlier key strictly greater |
| Hybrid.FirstMin | app.py:203 | the first minimum of a non-empty key list is a least key with no equal key before it |
| Hybrid.FirstMinUnique | app.py:203 | only one index satisfies the first-minimum property, so the tie-break is deterministic |
| Hybrid.Keys | app.py:196-202 | the keys follow the listing order Credit score, DTI, Loan-to-Income, Income, Employment Status |
| Hybrid.WeakestFactor | app.py:196-203 | the weakest factor's sub-score is ≤ every other; every factor listed before it scores strictly more |
| Hybrid.ApprovedWording | app.py:205-209 | `Explanation` of an approval reads "Approved — strong enough rule score and AI agrees: " followed by the AI reason |
| Hybrid.DeclinedWording | app.py:205-209 | `Explanation` of a decline reads "Declined due to weak ", the weakest factor's lower-cased label, ", AI noted: " and the AI reason, for each of the five factors |
| Hybrid.LoweredLabels | app.py:206 | the lowered labels are "credit score", "dti", "loan-to-income", "income", "employment status" |
| Hybrid.ExplanationRoundTrip | app.py:205-209 | decoding `Explanation`'s sentence gives back the decision, the weakest factor (declined only) and the AI reason |
| Hybrid.HybridDecision | app.py:189-209 | the combined probability is the clamped blend of the rule and AI probabilities; the tier is that probability's tier; approval is exactly combined ≥ 60 (tier Low or Medium); the weakest factor is the first least sub-score; the explanation is the printed sentence and decodes to the decision, factor and AI reason; the key factors are the AI's |
| Hybrid.AgreementDecides | app.py:190-193 | for any rule and AI probabilities, in range or not: if both are ≥ 60 the result is approved, and if both are < 60 it is declined |
| Hybrid.FallbackThreshold | app.py:184-193 | with the fallback opinion, approval happens exactly when the rule probability is at least 200/3 |
| Hybrid.WeakRuleAlwaysDeclined | app.py:190-193 | a rule probability below 100/3 is declined for every AI probability in [0, 100] |
| Hybrid.Evaluate | app.py:145-209 | one request's hybrid verdict is the verdict on its own rule result and AI opinion, so it is approved exactly when the blend of the two probabilities reaches 60; with a failed call the explanation carries "AI parsing failed" |
| Hybrid.DefaultApplicantWithoutModel | app.py:184-209 | the default applicant with the model unreachable: rule 67 (Medium), combined 60.2 (Medium), approved, weakest factor DTI |

## Left out

- Page setup, sidebar widgets, buttons, metrics and markdown output are not modelled. Neither are the `run_prediction`/`new_prediction` session flags (app.py:10-12, 117-150, 211-218, 248-250). They are presentation and framework state.
- The Groq/LangChain client is not modelled: the API-key check, model construction, the prompt text and `llm.invoke` (app.py:17-23, 158-176). It is a network service. Only its outcome enters the model, as `Option<string>`.
- `json.loads` is not modelled internally. It is a parameter. The fallback lemmas assume only that it rejects `""` and `"}"`, which a JSON parser does.
- AiOpinion.GetOpinion: assumes the present JSON fields already have the types the prompt asks for (integer, string, list of strings). A non-numeric `ai_probability` would make `0.4 * ai_prob` at app.py:190, outside the `try`, raise instead of falling back. A fractional one would be blended as a float. Neither case is modelled.
- The repayment estimator (app.py:220-229) is not modelled. It is floating-point exponentiation, and its zero-rate branch is unreachable because the rate input is at least 0.1.
- The session history append (app.py:232-243) is not modelled. It is a single append of a display record to a page-owned list.
- Hybrid.Blend: for an integer `ai_probability` too large for a double (magnitude about 2^1024 or more), `0.4 * ai_prob` at app.py:190 raises `OverflowError` (the int cannot be converted to a float). That line is outside the `try` of app.py:175-187, so the request aborts. The model has unbounded integers and clamps such a value to 0 or 100 instead.
- IEEE float rounding in the weighted sums is not modelled. The model uses exact reals, so it does not capture a float result landing just below 60 or 80 at an exact boundary.
- Components.LtiComponent: the integer bracket test is exact for integer loans and incomes. A float ratio within one rounding step of 0.2/0.4/0.6/0.8 is not modelled; the page's integer inputs cannot produce one.
- Hybrid.Lower: models `str.lower()` for ASCII only. That is exact for the five labels it is applied to.
