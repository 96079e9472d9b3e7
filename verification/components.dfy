/** The five component scorers of the rule engine. Each maps one applicant
    attribute to a fixed sub-score through a threshold table.

    The four threshold scorers follow the application's chain of guarded
    returns, the loan-to-income one with its ratio test in integer form. Each
    is tied by a lemma to a data-driven reference: an ordered list of
    brackets scanned once, first match wins. Monotonicity in each one's own
    attribute is proved once for the table scan and transferred to the
    scorer. The employment scorer is a lookup in a map with a fallback. */
module Components {

  /** One row of a threshold table: the bracket's bound and its sub-score. */
  datatype Bracket = Bracket(bound: real, score: int)

  /** Scores never increase along the table and never fall below the fallback. */
  ghost predicate ScoresDescend(table: seq<Bracket>, otherwise: int)
  {
    && (forall i, j :: 0 <= i < j < |table| ==> table[i].score >= table[j].score)
    && (forall i :: 0 <= i < |table| ==> table[i].score >= otherwise)
  }

  /** The sub-scores a table can produce, fallback included. */
  function Outcomes(table: seq<Bracket>, otherwise: int): set<int>
  {
    (set i | 0 <= i < |table| :: table[i].score) + {otherwise}
  }

  /** Score of the first bracket whose bound the value reaches (`x >= bound`),
      or `otherwise` when it reaches none: the "higher is better" tables. */
  function FirstAtLeast(table: seq<Bracket>, x: real, otherwise: int): (r: int)
    ensures r in Outcomes(table, otherwise)
  {
    if |table| == 0 then otherwise
    else if x >= table[0].bound then table[0].score
    else
      var rest := FirstAtLeast(table[1..], x, otherwise);
      assert forall i :: 0 <= i < |table| - 1 ==> table[1..][i] == table[i + 1];
      rest
  }

  /** Score of the first bracket whose bound the value does not exceed
      (`x <= bound`), or `otherwise`: the "lower is better" tables. */
  function FirstAtMost(table: seq<Bracket>, x: real, otherwise: int): (r: int)
    ensures r in Outcomes(table, otherwise)
  {
    if |table| == 0 then otherwise
    else if x <= table[0].bound then table[0].score
    else
      var rest := FirstAtMost(table[1..], x, otherwise);
      assert forall i :: 0 <= i < |table| - 1 ==> table[1..][i] == table[i + 1];
      rest
  }

  /** Every outcome of a descending table is at most its first score. */
  lemma OutcomesBelowHead(table: seq<Bracket>, otherwise: int, r: int)
    requires |table| > 0
    requires ScoresDescend(table, otherwise)
    requires r in Outcomes(table, otherwise)
    ensures r <= table[0].score
  {
  }

  /** Scanning a descending "at least" table is non-decreasing in the value. */
  lemma {:induction false} FirstAtLeastMonotone(table: seq<Bracket>, x: real, y: real, otherwise: int)
    requires x <= y
    requires ScoresDescend(table, otherwise)
    ensures FirstAtLeast(table, x, otherwise) <= FirstAtLeast(table, y, otherwise)
    decreases |table|
  {
    if |table| == 0 {
    } else if x >= table[0].bound {
    } else if y >= table[0].bound {
      OutcomesBelowHead(table, otherwise, FirstAtLeast(table, x, otherwise));
    } else {
      assert ScoresDescend(table[1..], otherwise);
      FirstAtLeastMonotone(table[1..], x, y, otherwise);
    }
  }

  /** Scanning a descending "at most" table is non-increasing in the value. */
  lemma {:induction false} FirstAtMostAntitone(table: seq<Bracket>, x: real, y: real, otherwise: int)
    requires x <= y
    requires ScoresDescend(table, otherwise)
    ensures FirstAtMost(table, y, otherwise) <= FirstAtMost(table, x, otherwise)
    decreases |table|
  {
    if |table| == 0 {
    } else if y <= table[0].bound {
    } else if x <= table[0].bound {
      OutcomesBelowHead(table, otherwise, FirstAtMost(table, y, otherwise));
    } else {
      assert ScoresDescend(table[1..], otherwise);
      FirstAtMostAntitone(table[1..], x, y, otherwise);
    }
  }

  // ---------------------------------------------------------------------------
  // Credit score
  // ---------------------------------------------------------------------------

  const CreditTable: seq<Bracket> :=
    [Bracket(800.0, 95), Bracket(740.0, 85), Bracket(700.0, 75),
     Bracket(650.0, 60), Bracket(600.0, 45), Bracket(550.0, 30)]
  const CreditFloor: int := 15

  /** Sub-score for a credit score; each bracket includes its lower bound. */
  function CreditScoreComponent(credit: int): (r: int)
    ensures r in {95, 85, 75, 60, 45, 30, 15}
  {
    if credit >= 800 then 95
    else if credit >= 740 then 85
    else if credit >= 700 then 75
    else if credit >= 650 then 60
    else if credit >= 600 then 45
    else if credit >= 550 then 30
    else 15
  }

  lemma CreditMatchesTable(credit: int)
    ensures CreditScoreComponent(credit) == FirstAtLeast(CreditTable, credit as real, CreditFloor)
  {
    var x := credit as real;
    var t := CreditTable;
    assert FirstAtLeast(t[6..], x, 15) == 15;
    assert FirstAtLeast(t[5..], x, 15) == (if x >= 550.0 then 30 else 15);
    assert FirstAtLeast(t[4..], x, 15) == (if x >= 600.0 then 45 else FirstAtLeast(t[5..], x, 15));
    assert FirstAtLeast(t[3..], x, 15) == (if x >= 650.0 then 60 else FirstAtLeast(t[4..], x, 15));
    assert FirstAtLeast(t[2..], x, 15) == (if x >= 700.0 then 75 else FirstAtLeast(t[3..], x, 15));
    assert FirstAtLeast(t[1..], x, 15) == (if x >= 740.0 then 85 else FirstAtLeast(t[2..], x, 15));
  }

  lemma CreditTableDescends()
    ensures ScoresDescend(CreditTable, CreditFloor)
  {
  }

  lemma CreditNonDecreasing(a: int, b: int)
    requires a <= b
    ensures CreditScoreComponent(a) <= CreditScoreComponent(b)
  {
    CreditMatchesTable(a);
    CreditMatchesTable(b);
    CreditTableDescends();
    FirstAtLeastMonotone(CreditTable, a as real, b as real, CreditFloor);
  }

  /** Lower bounds are inclusive: each edge value lands in the higher bracket. */
  lemma CreditBoundaries()
    ensures CreditScoreComponent(800) == 95 && CreditScoreComponent(799) == 85
    ensures CreditScoreComponent(740) == 85 && CreditScoreComponent(739) == 75
    ensures CreditScoreComponent(550) == 30 && CreditScoreComponent(549) == 15
    ensures forall c :: c < 550 ==> CreditScoreComponent(c) == 15
  {
  }

  // ---------------------------------------------------------------------------
  // Debt-to-income ratio (percent)
  // ---------------------------------------------------------------------------

  const DtiTable: seq<Bracket> :=
    [Bracket(20.0, 95), Bracket(30.0, 80), Bracket(40.0, 60),
     Bracket(50.0, 40), Bracket(60.0, 25)]
  const DtiCeiling: int := 10

  /** Sub-score for a debt-to-income percentage; each bracket includes its upper bound. */
  function DtiComponent(dti: int): (r: int)
    ensures r in {95, 80, 60, 40, 25, 10}
  {
    if dti <= 20 then 95
    else if dti <= 30 then 80
    else if dti <= 40 then 60
    else if dti <= 50 then 40
    else if dti <= 60 then 25
    else 10
  }

  lemma DtiMatchesTable(dti: int)
    ensures DtiComponent(dti) == FirstAtMost(DtiTable, dti as real, DtiCeiling)
  {
    var x := dti as real;
    var t := DtiTable;
    assert FirstAtMost(t[5..], x, 10) == 10;
    assert FirstAtMost(t[4..], x, 10) == (if x <= 60.0 then 25 else 10);
    assert FirstAtMost(t[3..], x, 10) == (if x <= 50.0 then 40 else FirstAtMost(t[4..], x, 10));
    assert FirstAtMost(t[2..], x, 10) == (if x <= 40.0 then 60 else FirstAtMost(t[3..], x, 10));
    assert FirstAtMost(t[1..], x, 10) == (if x <= 30.0 then 80 else FirstAtMost(t[2..], x, 10));
  }

  lemma DtiTableDescends()
    ensures ScoresDescend(DtiTable, DtiCeiling)
  {
  }

  lemma DtiNonIncreasing(a: int, b: int)
    requires a <= b
    ensures DtiComponent(b) <= DtiComponent(a)
  {
    DtiMatchesTable(a);
    DtiMatchesTable(b);
    DtiTableDescends();
    FirstAtMostAntitone(DtiTable, a as real, b as real, DtiCeiling);
  }

  // ---------------------------------------------------------------------------
  // Loan-to-income ratio
  // ---------------------------------------------------------------------------

  /** Bounds on loan / income; the bracket k covers ratios up to k/5. */
  const LtiTable: seq<Bracket> :=
    [Bracket(0.2, 95), Bracket(0.4, 80), Bracket(0.6, 60), Bracket(0.8, 40)]
  const LtiCeiling: int := 15

  /** Sub-score for the loan-to-income ratio. A non-positive income scores 0
      instead of dividing. The ratio test `loan / income <= k/5` is written
      as `5 * loan <= k * income`, exact for a positive income. */
  function LtiComponent(loan: int, income: int): (r: int)
    ensures r in {95, 80, 60, 40, 15, 0}
    ensures income <= 0 <==> r == 0
  {
    if income <= 0 then 0
    else if 5 * loan <= income then 95
    else if 5 * loan <= 2 * income then 80
    else if 5 * loan <= 3 * income then 60
    else if 5 * loan <= 4 * income then 40
    else 15
  }

  /** For a positive divisor, `a / d <= b` exactly when `a <= b * d`. */
  lemma DivAtMost(a: real, d: real, b: real)
    requires d > 0.0
    ensures a / d <= b <==> a <= b * d
  {
    var q := a / d;
    assert q * d == a;
    if q <= b {
      assert q * d <= b * d;
    } else {
      assert q * d > b * d;
    }
  }

  /** The integer bracket tests agree with the real ratio `loan / income`
      scanned against the bracket table. */
  lemma LtiMatchesRatio(loan: int, income: int)
    requires income > 0
    ensures LtiComponent(loan, income)
         == FirstAtMost(LtiTable, loan as real / income as real, LtiCeiling)
  {
    var l := loan as real;
    var d := income as real;
    var x := l / d;
    var t := LtiTable;
    DivAtMost(l, d, 0.2);
    DivAtMost(l, d, 0.4);
    DivAtMost(l, d, 0.6);
    DivAtMost(l, d, 0.8);
    assert FirstAtMost(t[4..], x, 15) == 15;
    assert FirstAtMost(t[3..], x, 15) == (if x <= 0.8 then 40 else 15);
    assert FirstAtMost(t[2..], x, 15) == (if x <= 0.6 then 60 else FirstAtMost(t[3..], x, 15));
    assert FirstAtMost(t[1..], x, 15) == (if x <= 0.4 then 80 else FirstAtMost(t[2..], x, 15));
  }

  lemma LtiTableDescends()
    ensures ScoresDescend(LtiTable, LtiCeiling)
  {
  }

  /** For a fixed positive income, a larger loan never scores higher. */
  lemma LtiNonIncreasingInLoan(a: int, b: int, income: int)
    requires a <= b
    requires income > 0
    ensures LtiComponent(b, income) <= LtiComponent(a, income)
  {
    var d := income as real;
    LtiMatchesRatio(a, income);
    LtiMatchesRatio(b, income);
    DivMonotone(a as real, b as real, d);
    LtiTableDescends();
    FirstAtMostAntitone(LtiTable, a as real / d, b as real / d, LtiCeiling);
  }

  lemma DivMonotone(a: real, b: real, d: real)
    requires a <= b
    requires d > 0.0
    ensures a / d <= b / d
  {
    DivAtMost(a, d, b / d);
    assert b / d * d == b;
  }

  /** For a fixed loan, a larger income never scores lower (a non-positive
      income scores the minimum 0). */
  lemma LtiNonDecreasingInIncome(loan: int, a: int, b: int)
    requires a <= b
    ensures LtiComponent(loan, a) <= LtiComponent(loan, b)
  {
  }

  // ---------------------------------------------------------------------------
  // Income floor
  // ---------------------------------------------------------------------------

  const IncomeTable: seq<Bracket> :=
    [Bracket(80000.0, 90), Bracket(50000.0, 75), Bracket(30000.0, 60), Bracket(20000.0, 45)]
  const IncomeFloor: int := 25

  /** Sub-score for the annual income; each bracket includes its lower bound. */
  function IncomeFloorComponent(income: int): (r: int)
    ensures r in {90, 75, 60, 45, 25}
  {
    if income >= 80000 then 90
    else if income >= 50000 then 75
    else if income >= 30000 then 60
    else if income >= 20000 then 45
    else 25
  }

  lemma IncomeMatchesTable(income: int)
    ensures IncomeFloorComponent(income) == FirstAtLeast(IncomeTable, income as real, IncomeFloor)
  {
    var x := income as real;
    var t := IncomeTable;
    assert FirstAtLeast(t[4..], x, 25) == 25;
    assert FirstAtLeast(t[3..], x, 25) == (if x >= 20000.0 then 45 else 25);
    assert FirstAtLeast(t[2..], x, 25) == (if x >= 30000.0 then 60 else FirstAtLeast(t[3..], x, 25));
    assert FirstAtLeast(t[1..], x, 25) == (if x >= 50000.0 then 75 else FirstAtLeast(t[2..], x, 25));
  }

  lemma IncomeTableDescends()
    ensures ScoresDescend(IncomeTable, IncomeFloor)
  {
  }

  lemma IncomeNonDecreasing(a: int, b: int)
    requires a <= b
    ensures IncomeFloorComponent(a) <= IncomeFloorComponent(b)
  {
    IncomeMatchesTable(a);
    IncomeMatchesTable(b);
    IncomeTableDescends();
    FirstAtLeastMonotone(IncomeTable, a as real, b as real, IncomeFloor);
  }

  // ---------------------------------------------------------------------------
  // Employment status
  // ---------------------------------------------------------------------------

  /** The recognised statuses and their sub-scores; any other text scores `OtherStatus`. */
  const EmploymentTable: map<string, int> :=
    map["Employed" := 95, "Self-Employed" := 75, "Student" := 50,
        "Retired" := 40, "Unemployed" := 20]
  const OtherStatus: int := 30

  /** Sub-score for an employment status, compared by exact string equality. */
  function EmploymentComponent(status: string): (r: int)
    ensures status in EmploymentTable ==> r == EmploymentTable[status]
    ensures status !in EmploymentTable ==> r == OtherStatus
  {
    if status == "Employed" then 95
    else if status == "Self-Employed" then 75
    else if status == "Student" then 50
    else if status == "Retired" then 40
    else if status == "Unemployed" then 20
    else 30
  }

  /** Every scorer's sub-score lies in [0, 95]: no table reaches 100. */
  lemma ComponentsBounded(credit: int, dti: int, loan: int, income: int, status: string)
    ensures 15 <= CreditScoreComponent(credit) <= 95
    ensures 10 <= DtiComponent(dti) <= 95
    ensures 0 <= LtiComponent(loan, income) <= 95
    ensures 25 <= IncomeFloorComponent(income) <= 90
    ensures 20 <= EmploymentComponent(status) <= 95
  {
  }
}
