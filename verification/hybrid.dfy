/** The hybrid decision: the rule probability blended 60/40 with the model's
    probability, classified, cut at 60 into approve/decline, and explained by
    naming the weakest rule factor. */
module Hybrid {
  import opened Wrappers
  import opened RuleEngine
  import opened Risk
  import opened AiOpinion

  datatype Decision = Approved | Declined {

    function Label(): string
    {
      match this
      case Approved => "Approved"
      case Declined => "Declined"
    }
  }

  const RuleShare: real := 0.6
  const AiShare: real := 0.4

  /** The decision cutoff, shared with the floor of the Medium tier. */
  const Cutoff: real := 60.0

  function Min(a: real, b: real): real { if a <= b then a else b }
  function Max(a: real, b: real): real { if a <= b then b else a }

  /** The combined probability: the 60/40 mix of the two probabilities, cut
      back to [0, 100] when the mix leaves that range, for any model
      probability. When both inputs are in range the cut never applies and
      the result lies between them. */
  function Blend(rule: real, ai: int): (c: real)
    ensures 0.0 <= c <= 100.0
    ensures var p := RuleShare * rule + AiShare * ai as real;
            && (0.0 <= p <= 100.0 ==> c == p)
            && (p > 100.0 ==> c == 100.0)
            && (p < 0.0 ==> c == 0.0)
    ensures 0.0 <= rule <= 100.0 && 0 <= ai <= 100 ==>
              c == RuleShare * rule + AiShare * ai as real
              && Min(rule, ai as real) <= c <= Max(rule, ai as real)
  {
    Clamp(RuleShare * rule + AiShare * ai as real)
  }

  /** Approval exactly when the combined probability reaches the cutoff, which
      is exactly when its tier is Low or Medium. */
  function Decide(combined: real): (d: Decision)
    ensures d == Approved <==> combined >= Cutoff
    ensures d == Approved <==> RiskTier(combined) in {Low, Medium}
  {
    if combined >= Cutoff then Approved else Declined
  }

  lemma DecideAtCutoff()
    ensures Decide(60.0) == Approved
    ensures Decide(59.999) == Declined
  {
  }

  /** A blend never decreases when either input increases. */
  lemma BlendMonotone(r1: real, r2: real, a1: int, a2: int)
    requires r1 <= r2 && a1 <= a2
    ensures Blend(r1, a1) <= Blend(r2, a2)
  {
  }

  // ---------------------------------------------------------------------------
  // Weakest factor
  // ---------------------------------------------------------------------------

  /** `k` indexes a least key, and every earlier key is strictly greater. */
  ghost predicate IsFirstMin(keys: seq<int>, k: int)
  {
    && 0 <= k < |keys|
    && (forall j :: 0 <= j < |keys| ==> keys[k] <= keys[j])
    && (forall j :: 0 <= j < k ==> keys[j] > keys[k])
  }

  /** Python's `min` over `keys`, as an index: a left-to-right scan that keeps
      the current best `best` of `keys[..i]` and replaces it only by a
      strictly smaller key. */
  function FirstMinFrom(keys: seq<int>, i: nat, best: nat): (k: nat)
    requires best < i <= |keys|
    requires forall j :: 0 <= j < i ==> keys[best] <= keys[j]
    requires forall j :: 0 <= j < best ==> keys[j] > keys[best]
    ensures IsFirstMin(keys, k)
    decreases |keys| - i
  {
    if i == |keys| then best
    else if keys[i] < keys[best] then FirstMinFrom(keys, i + 1, i)
    else FirstMinFrom(keys, i + 1, best)
  }

  function FirstMin(keys: seq<int>): (k: nat)
    requires |keys| > 0
    ensures IsFirstMin(keys, k)
  {
    FirstMinFrom(keys, 1, 0)
  }

  /** There is only one first minimum. */
  lemma FirstMinUnique(keys: seq<int>, a: int, b: int)
    requires IsFirstMin(keys, a) && IsFirstMin(keys, b)
    ensures a == b
  {
    assert keys[a] <= keys[b] && keys[b] <= keys[a];
  }

  /** The sub-scores in the order the factors are listed. */
  function Keys(b: Breakdown): (keys: seq<int>)
    ensures |keys| == |Factors|
    ensures forall i :: 0 <= i < |Factors| ==> keys[i] == b.Score(Factors[i])
  {
    [b.credit, b.dti, b.lti, b.income, b.employment]
  }

  /** The factor with the least sub-score; a tie goes to the factor listed first. */
  function WeakestFactor(b: Breakdown): (f: Factor)
    ensures forall g :: b.Score(f) <= b.Score(g)
    ensures forall i, j :: 0 <= i < j < |Factors| && Factors[j] == f ==> b.Score(Factors[i]) > b.Score(f)
  {
    var keys := Keys(b);
    var k := FirstMin(keys);
    assert keys[k] <= keys[0] && keys[k] <= keys[1] && keys[k] <= keys[2]
        && keys[k] <= keys[3] && keys[k] <= keys[4];
    Factors[k]
  }

  // ---------------------------------------------------------------------------
  // Explanation
  // ---------------------------------------------------------------------------

  /** Python's `str.lower()` on one character, for the ASCII letters the labels use. */
  function LowerChar(c: char): char
  {
    if 'A' <= c <= 'Z' then (c as int + 32) as char else c
  }

  /** Python's `str.lower()`, for ASCII text. */
  function Lower(s: string): (r: string)
    ensures |r| == |s|
    ensures forall i :: 0 <= i < |s| ==> r[i] == LowerChar(s[i])
  {
    seq(|s|, i requires 0 <= i < |s| => LowerChar(s[i]))
  }

  const DeclinedPrefix: string := "Declined due to weak "
  const NotedSeparator: string := ", AI noted: "
  const ApprovedPrefix: string := "Approved" + " \U{2014} strong enough rule score and AI agrees: "

  /** What a declined explanation says between its prefix and the AI reason. */
  function WeakHeader(f: Factor): string
  {
    Lower(f.Label()) + NotedSeparator
  }

  /** The sentence shown with the decision. */
  function Explanation(d: Decision, weakest: Factor, reason: string): string
  {
    match d
    case Declined => DeclinedPrefix + WeakHeader(weakest) + reason
    case Approved => ApprovedPrefix + reason
  }

  /** The printed decision is "Approved" exactly at or above the cutoff, and
      the explanation opens with that same word. */
  lemma DecisionLabels(combined: real, weakest: Factor, reason: string)
    ensures Decide(combined).Label() == "Approved" <==> combined >= Cutoff
    ensures Decide(combined).Label() == "Declined" <==> combined < Cutoff
    ensures HasPrefix(Explanation(Decide(combined), weakest, reason), Decide(combined).Label())
  {
    var e := Explanation(Decide(combined), weakest, reason);
    if combined >= Cutoff {
      assert e[..8] == "Approved";
    } else {
      assert e[..8] == "Declined";
    }
  }

  /** An approval reads exactly as the page prints it. */
  lemma ApprovedWording(weakest: Factor, reason: string)
    ensures Explanation(Approved, weakest, reason)
         == "Approved" + " \U{2014} strong enough rule score and AI agrees: " + reason
  {
  }

  /** A decline reads exactly as the page prints it, with the weakest
      factor's label in lower case. */
  lemma DeclinedWording(reason: string)
    ensures Explanation(Declined, CreditScore, reason) == "Declined due to weak " + "credit score" + ", AI noted: " + reason
    ensures Explanation(Declined, Dti, reason) == "Declined due to weak " + "dti" + ", AI noted: " + reason
    ensures Explanation(Declined, LoanToIncome, reason) == "Declined due to weak " + "loan-to-income" + ", AI noted: " + reason
    ensures Explanation(Declined, Income, reason) == "Declined due to weak " + "income" + ", AI noted: " + reason
    ensures Explanation(Declined, EmploymentStatus, reason)
         == "Declined due to weak " + "employment status" + ", AI noted: " + reason
  {
    LoweredLabels();
  }

  /** What can be read back from an explanation. */
  datatype Explained = Explained(decision: Decision, weakest: Option<Factor>, reason: string)

  predicate HasPrefix(s: string, p: string)
  {
    |p| <= |s| && s[..|p|] == p
  }

  /** The first factor, among `fs`, whose header opens `s`. */
  function MatchHeader(s: string, fs: seq<Factor>): (r: Option<Factor>)
    ensures r.Some? ==> r.value in fs && HasPrefix(s, WeakHeader(r.value))
  {
    if |fs| == 0 then None
    else if HasPrefix(s, WeakHeader(fs[0])) then Some(fs[0])
    else MatchHeader(s, fs[1..])
  }

  /** Reads an explanation back into its decision, weakest factor (declined
      only) and AI reason. */
  function DecodeExplanation(s: string): Option<Explained>
  {
    if HasPrefix(s, ApprovedPrefix) then
      Some(Explained(Approved, None, s[|ApprovedPrefix|..]))
    else if HasPrefix(s, DeclinedPrefix) then
      var rest := s[|DeclinedPrefix|..];
      match MatchHeader(rest, Factors)
      case None => None
      case Some(f) => Some(Explained(Declined, Some(f), rest[|WeakHeader(f)|..]))
    else None
  }

  /** The lowered labels. */
  lemma LoweredLabels()
    ensures Lower("Credit score") == "credit score"
    ensures Lower("DTI") == "dti"
    ensures Lower("Loan-to-Income") == "loan-to-income"
    ensures Lower("Income") == "income"
    ensures Lower("Employment Status") == "employment status"
  {
    LowerMatches("Credit score", "credit score");
    LowerMatches("DTI", "dti");
    LowerMatches("Loan-to-Income", "loan-to-income");
    LowerMatches("Income", "income");
    LowerMatches("Employment Status", "employment status");
  }

  lemma LowerMatches(s: string, t: string)
    requires |s| == |t|
    requires forall i :: 0 <= i < |s| ==> LowerChar(s[i]) == t[i]
    ensures Lower(s) == t
  {
  }

  /** Each factor's header begins with a letter no other factor's header begins with. */
  lemma HeadersDiffer(f: Factor, g: Factor)
    requires f != g
    ensures |WeakHeader(f)| > 0 && |WeakHeader(g)| > 0
    ensures WeakHeader(f)[0] != WeakHeader(g)[0]
  {
    assert WeakHeader(f)[0] == LowerChar(f.Label()[0]);
    assert WeakHeader(g)[0] == LowerChar(g.Label()[0]);
  }

  lemma {:induction false} MatchHeaderFinds(f: Factor, reason: string, fs: seq<Factor>)
    requires f in fs
    ensures MatchHeader(WeakHeader(f) + reason, fs) == Some(f)
    decreases |fs|
  {
    var s := WeakHeader(f) + reason;
    assert s[..|WeakHeader(f)|] == WeakHeader(f);
    if fs[0] == f {
    } else {
      HeadersDiffer(f, fs[0]);
      assert !HasPrefix(s, WeakHeader(fs[0])) by {
        assert s[0] == WeakHeader(f)[0];
      }
      MatchHeaderFinds(f, reason, fs[1..]);
    }
  }

  /** The explanation can be read back: the decision, the weakest factor of
      a declined application, and the AI reason are recovered verbatim. */
  lemma {:induction false} ExplanationRoundTrip(d: Decision, weakest: Factor, reason: string)
    ensures DecodeExplanation(Explanation(d, weakest, reason))
         == Some(Explained(d, if d == Declined then Some(weakest) else None, reason))
  {
    var s := Explanation(d, weakest, reason);
    match d
    case Approved =>
      assert s[..|ApprovedPrefix|] == ApprovedPrefix;
      assert s[|ApprovedPrefix|..] == reason;
    case Declined =>
      DeclinedReadsBack(weakest, reason);
  }

  lemma DeclinedReadsBack(weakest: Factor, reason: string)
    ensures DecodeExplanation(Explanation(Declined, weakest, reason))
         == Some(Explained(Declined, Some(weakest), reason))
  {
    var s := Explanation(Declined, weakest, reason);
    assert s[0] == 'D';
    assert !HasPrefix(s, ApprovedPrefix) by {
      assert ApprovedPrefix[0] == 'A';
    }
    assert s[..|DeclinedPrefix|] == DeclinedPrefix;
    var rest := s[|DeclinedPrefix|..];
    assert rest == WeakHeader(weakest) + reason;
    MatchHeaderFinds(weakest, reason, Factors);
    assert rest[|WeakHeader(weakest)|..] == reason;
  }

  // ---------------------------------------------------------------------------
  // The hybrid result
  // ---------------------------------------------------------------------------

  datatype HybridResult = HybridResult(
    combined: real,
    tier: Tier,
    decision: Decision,
    weakest: Factor,
    explanation: string,
    keyFactors: seq<string>)

  /** The hybrid verdict on a rule result and an AI opinion. */
  function HybridDecision(rule: RuleResult, ai: Opinion): (h: HybridResult)
    ensures h.combined == Blend(rule.probability, ai.probability)
    ensures 0.0 <= h.combined <= 100.0
    ensures h.tier == RiskTier(h.combined)
    ensures h.decision == Approved <==> h.combined >= Cutoff
    ensures h.decision == Approved <==> h.tier in {Low, Medium}
    ensures forall g :: rule.breakdown.Score(h.weakest) <= rule.breakdown.Score(g)
    ensures forall i, j :: 0 <= i < j < |Factors| && Factors[j] == h.weakest ==>
              rule.breakdown.Score(Factors[i]) > rule.breakdown.Score(h.weakest)
    ensures DecodeExplanation(h.explanation)
         == Some(Explained(h.decision, if h.decision == Declined then Some(h.weakest) else None, ai.reason))
    ensures h.explanation == Explanation(h.decision, h.weakest, ai.reason)
    ensures h.keyFactors == ai.keyFactors
  {
    var combined := Blend(rule.probability, ai.probability);
    var decision := Decide(combined);
    var weakest := WeakestFactor(rule.breakdown);
    ExplanationRoundTrip(decision, weakest, ai.reason);
    HybridResult(combined, RiskTier(combined), decision, weakest,
                 Explanation(decision, weakest, ai.reason), ai.keyFactors)
  }

  /** When the rule engine and the model agree on which side of the cutoff
      the application falls, the blend agrees with them. */
  lemma AgreementDecides(rule: real, ai: int)
    ensures rule >= Cutoff && ai as real >= Cutoff ==> Decide(Blend(rule, ai)) == Approved
    ensures rule < Cutoff && (ai as real) < Cutoff ==> Decide(Blend(rule, ai)) == Declined
  {
  }

  /** With the neutral fallback opinion, approval needs a rule probability of
      at least 200/3. */
  lemma FallbackThreshold(rule: real)
    requires 0.0 <= rule <= 100.0
    ensures Decide(Blend(rule, Fallback.probability)) == Approved <==> 3.0 * rule >= 200.0
  {
  }

  /** A rule probability below 100/3 is declined whatever in-range
      probability the model gives. */
  lemma WeakRuleAlwaysDeclined(rule: real, ai: int)
    requires 0.0 <= rule && 3.0 * rule < 100.0
    requires 0 <= ai <= 100
    ensures Decide(Blend(rule, ai)) == Declined
  {
  }

  // ---------------------------------------------------------------------------
  // One evaluation request
  // ---------------------------------------------------------------------------

  /** The applicant fields the engine reads; tenure and the free-text reason
      only feed the prompt and the repayment estimate. */
  datatype Applicant = Applicant(
    income: int, credit: int, loan: int, dti: int, tenure: int,
    employment: string, reason: string)

  datatype Evaluation = Evaluation(rule: RuleResult, ruleTier: Tier, ai: Opinion, hybrid: HybridResult)

  /** One request: the rule result and its tier, the AI opinion read from
      the reply, and the hybrid verdict on both. */
  function Evaluate(a: Applicant, reply: Option<string>, parse: string -> Option<Parsed>): (e: Evaluation)
    ensures e.rule == RuleBasedProbability(a.income, a.credit, a.loan, a.dti, a.employment)
    ensures e.ruleTier == RiskTier(e.rule.probability)
    ensures e.ai == GetOpinion(reply, parse)
    ensures e.hybrid == HybridDecision(e.rule, e.ai)
    ensures e.hybrid.combined == Blend(e.rule.probability, e.ai.probability)
    ensures e.hybrid.decision == Approved <==> e.hybrid.combined >= Cutoff
    ensures reply.None? ==> e.hybrid.explanation == Explanation(e.hybrid.decision, e.hybrid.weakest, "AI parsing failed")
  {
    var rule := RuleBasedProbability(a.income, a.credit, a.loan, a.dti, a.employment);
    var ai := GetOpinion(reply, parse);
    Evaluation(rule, RiskTier(rule.probability), ai, HybridDecision(rule, ai))
  }

  /** The application's default applicant with the model unreachable: rule
      probability 67 (Medium), combined 0.6 * 67 + 0.4 * 50 = 60.2, approved. */
  lemma DefaultApplicantWithoutModel(parse: string -> Option<Parsed>)
    ensures var e := Evaluate(Applicant(80000, 680, 25000, 42, 5, "Employed", ""), None, parse);
            && e.rule.probability == 67.0
            && e.ruleTier == Medium
            && e.hybrid.combined == 60.2
            && e.hybrid.tier == Medium
            && e.hybrid.decision == Approved
            && e.hybrid.weakest == Dti
            && e.hybrid.explanation == ApprovedPrefix + "AI parsing failed"
  {
    DefaultApplicant();
  }
}
