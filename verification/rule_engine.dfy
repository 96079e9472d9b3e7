/** The rule engine: the five sub-scores combined with fixed weights into one
    probability in [0, 100], returned together with the breakdown. */
module RuleEngine {
  import opened Components

  /** The five rule factors, in the order the application lists them when it
      looks for the weakest one. */
  datatype Factor = CreditScore | Dti | LoanToIncome | Income | EmploymentStatus {

    /** The label shown to the user. */
    function Label(): string
    {
      match this
      case CreditScore => "Credit score"
      case Dti => "DTI"
      case LoanToIncome => "Loan-to-Income"
      case Income => "Income"
      case EmploymentStatus => "Employment Status"
    }

    /** The factor's fixed weight in the rule probability. */
    function Weight(): real
    {
      match this
      case CreditScore => 0.3
      case Dti => 0.25
      case LoanToIncome => 0.2
      case Income => 0.15
      case EmploymentStatus => 0.1
    }
  }

  /** The factors in listing order. */
  const Factors: seq<Factor> := [CreditScore, Dti, LoanToIncome, Income, EmploymentStatus]

  /** One sub-score per factor. */
  datatype Breakdown = Breakdown(credit: int, dti: int, lti: int, income: int, employment: int) {

    function Score(f: Factor): int
    {
      match f
      case CreditScore => credit
      case Dti => dti
      case LoanToIncome => lti
      case Income => income
      case EmploymentStatus => employment
    }
  }

  /** The rule probability and the sub-scores it was computed from. */
  datatype RuleResult = RuleResult(probability: real, breakdown: Breakdown)

  /** `max(0, min(100, p))`. */
  function Clamp(p: real): (r: real)
    ensures 0.0 <= r <= 100.0
    ensures 0.0 <= p <= 100.0 ==> r == p
    ensures p < 0.0 ==> r == 0.0
    ensures p > 100.0 ==> r == 100.0
  {
    if p > 100.0 then 100.0 else if p < 0.0 then 0.0 else p
  }

  /** The weighted sum of a breakdown, factor by factor. */
  function WeightedSum(b: Breakdown): real
  {
    CreditScore.Weight() * b.Score(CreditScore) as real
    + Dti.Weight() * b.Score(Dti) as real
    + LoanToIncome.Weight() * b.Score(LoanToIncome) as real
    + Income.Weight() * b.Score(Income) as real
    + EmploymentStatus.Weight() * b.Score(EmploymentStatus) as real
  }

  lemma WeightsSumToOne()
    ensures CreditScore.Weight() + Dti.Weight() + LoanToIncome.Weight()
            + Income.Weight() + EmploymentStatus.Weight() == 1.0
    ensures forall f :: f in Factors ==> f.Weight() > 0.0
  {
  }

  /** The sub-scores of an applicant, one scorer per factor. */
  function Scores(income: int, credit: int, loan: int, dti: int, employment: string): (b: Breakdown)
    ensures b.Score(CreditScore) == CreditScoreComponent(credit)
    ensures b.Score(Dti) == DtiComponent(dti)
    ensures b.Score(LoanToIncome) == LtiComponent(loan, income)
    ensures b.Score(Income) == IncomeFloorComponent(income)
    ensures b.Score(EmploymentStatus) == EmploymentComponent(employment)
  {
    Breakdown(CreditScoreComponent(credit), DtiComponent(dti), LtiComponent(loan, income),
              IncomeFloorComponent(income), EmploymentComponent(employment))
  }

  /** The rule-based approval probability with its breakdown. The probability
      is the weighted sum of exactly the returned sub-scores; the clamp never
      bites, because the sum always lies in [12.75, 94.25]. */
  function RuleBasedProbability(income: int, credit: int, loan: int, dti: int, employment: string): (r: RuleResult)
    ensures 0.0 <= r.probability <= 100.0
    ensures r.probability == WeightedSum(r.breakdown)
    ensures 12.75 <= r.probability <= 94.25
    ensures r.breakdown == Scores(income, credit, loan, dti, employment)
  {
    var b := Scores(income, credit, loan, dti, employment);
    ComponentsBounded(credit, dti, loan, income, employment);
    RuleResult(Clamp(WeightedSum(b)), b)
  }

  /** A better credit score never lowers the rule probability. */
  lemma RuleMonotoneInCredit(income: int, c1: int, c2: int, loan: int, dti: int, employment: string)
    requires c1 <= c2
    ensures RuleBasedProbability(income, c1, loan, dti, employment).probability
         <= RuleBasedProbability(income, c2, loan, dti, employment).probability
  {
    CreditNonDecreasing(c1, c2);
  }

  /** A higher debt-to-income ratio never raises the rule probability. */
  lemma RuleAntitoneInDti(income: int, credit: int, loan: int, d1: int, d2: int, employment: string)
    requires d1 <= d2
    ensures RuleBasedProbability(income, credit, loan, d2, employment).probability
         <= RuleBasedProbability(income, credit, loan, d1, employment).probability
  {
    DtiNonIncreasing(d1, d2);
  }

  /** A larger loan never raises the rule probability. */
  lemma RuleAntitoneInLoan(income: int, credit: int, l1: int, l2: int, dti: int, employment: string)
    requires l1 <= l2
    ensures RuleBasedProbability(income, credit, l2, dti, employment).probability
         <= RuleBasedProbability(income, credit, l1, dti, employment).probability
  {
    if income > 0 {
      LtiNonIncreasingInLoan(l1, l2, income);
    }
  }

  /** A higher income never lowers the rule probability: it raises both the
      income floor and the loan-to-income sub-score, or leaves them. */
  lemma RuleMonotoneInIncome(i1: int, i2: int, credit: int, loan: int, dti: int, employment: string)
    requires i1 <= i2
    ensures RuleBasedProbability(i1, credit, loan, dti, employment).probability
         <= RuleBasedProbability(i2, credit, loan, dti, employment).probability
  {
    IncomeNonDecreasing(i1, i2);
    LtiNonDecreasingInIncome(loan, i1, i2);
  }

  /** The application's default applicant: income 80000, credit score 680,
      loan 25000, DTI 42 %, employed. */
  lemma DefaultApplicant()
    ensures RuleBasedProbability(80000, 680, 25000, 42, "Employed")
         == RuleResult(67.0, Breakdown(60, 40, 80, 90, 95))
  {
  }
}
