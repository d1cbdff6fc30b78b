/**
 * The summary statistics computed from the project list and the optional
 * bank and administrative charges rider.
 */
module Aggregate {
  import opened Wrappers
  import opened Records

  datatype Summary = Summary(
    totalProjects: nat,
    completed: nat,
    inProgress: int,
    completionRate: real,
    totalApproved: real,
    totalContract: real,
    totalDisbursed: real,
    balance: real)

  predicate IsCompleted(p: Project)
    requires Measured(p)
  {
    p.completion.value >= 100.0
  }

  /** The number of projects whose completion is at least 100 percent. */
  function CountCompleted(ps: seq<Project>): (c: nat)
    requires AllMeasured(ps)
    ensures c <= |ps|
    ensures c == 0 <==> forall i :: 0 <= i < |ps| ==> !IsCompleted(ps[i])
    ensures c == |ps| <==> forall i :: 0 <= i < |ps| ==> IsCompleted(ps[i])
  {
    if ps == [] then 0 else (if IsCompleted(ps[0]) then 1 else 0) + CountCompleted(ps[1..])
  }

  /** The positions of the completed projects. */
  function CompletedAt(ps: seq<Project>): set<nat>
    requires AllMeasured(ps)
  {
    set i: nat | i < |ps| && IsCompleted(ps[i])
  }

  /** The completed count is exactly the number of positions holding a completed project. */
  lemma {:induction false} CountCompletedExact(ps: seq<Project>)
    requires AllMeasured(ps)
    ensures CountCompleted(ps) == |CompletedAt(ps)|
  {
    if ps != [] {
      var q, last := ps[..|ps| - 1], ps[|ps| - 1];
      assert ps == q + [last];
      CountCompletedExact(q);
      CountCompletedSnoc(q, last);
      CompletedAtSnoc(q, last);
    }
  }

  /** Appending one project adds one to the count exactly when it is completed. */
  lemma CountCompletedSnoc(q: seq<Project>, last: Project)
    requires AllMeasured(q) && Measured(last)
    ensures AllMeasured(q + [last])
    ensures CountCompleted(q + [last]) == CountCompleted(q) + (if IsCompleted(last) then 1 else 0)
  {
    SumsOfConcat(q, [last]);
    assert [last][1..] == [];
  }

  /** Appending one project adds its position to the completed positions exactly when it is completed. */
  lemma CompletedAtSnoc(q: seq<Project>, last: Project)
    requires AllMeasured(q) && Measured(last)
    ensures AllMeasured(q + [last])
    ensures |CompletedAt(q + [last])| == |CompletedAt(q)| + (if IsCompleted(last) then 1 else 0)
  {
    var ps := q + [last];
    assert forall i :: 0 <= i < |q| ==> ps[i] == q[i];
    if IsCompleted(last) {
      assert CompletedAt(ps) == CompletedAt(q) + {|q|};
      assert |q| !in CompletedAt(q);
    } else {
      assert CompletedAt(ps) == CompletedAt(q);
    }
  }

  /** The summary's completed figure counts exactly the completed projects. */
  lemma SummaryCompletedExact(ps: seq<Project>, riderOn: bool, riderAmount: real)
    requires AllMeasured(ps)
    ensures Summarize(ps, riderOn, riderAmount).completed == |CompletedAt(ps)|
  {
    CountCompletedExact(ps);
  }

  function SumApproved(ps: seq<Project>): real
  {
    if ps == [] then 0.0 else ps[0].approvedCost + SumApproved(ps[1..])
  }

  function SumContract(ps: seq<Project>): real
  {
    if ps == [] then 0.0 else ps[0].contractSum + SumContract(ps[1..])
  }

  /** The money disbursed on one project: its percentage of that project's own contract sum. */
  function DisbursedAmount(p: Project): real
    requires Measured(p)
  {
    p.disbursed.value / 100.0 * p.contractSum
  }

  function SumDisbursed(ps: seq<Project>): real
    requires AllMeasured(ps)
  {
    if ps == [] then 0.0 else DisbursedAmount(ps[0]) + SumDisbursed(ps[1..])
  }

  lemma RateBounds(c: nat, t: nat)
    requires c <= t
    ensures t > 0 ==> 0.0 <= c as real / t as real * 100.0 <= 100.0
    ensures t > 0 ==> c as real / t as real * 100.0 * t as real == c as real * 100.0
  {
    if t == 0 {
      return;
    }
    var q := c as real / t as real;
    assert q * t as real == c as real;
    assert q <= 1.0 by {
      if q > 1.0 {
        assert q * t as real > 1.0 * t as real;
      }
    }
  }

  /** The completion rate in percent: c out of t, or 0 when there is nothing to count. */
  function CompletionRate(c: nat, t: nat): (r: real)
    requires c <= t
    ensures t == 0 ==> r == 0.0
    ensures t > 0 ==> r * t as real == c as real * 100.0
    ensures 0.0 <= r <= 100.0
  {
    RateBounds(c, t);
    if t > 0 then c as real / t as real * 100.0 else 0.0
  }

  /**
   * The summary of a project list. With the rider on, its amount is added to
   * the approved, contract and disbursed totals alike.
   */
  function Summarize(ps: seq<Project>, riderOn: bool, riderAmount: real): (s: Summary)
    requires AllMeasured(ps)
    ensures s.totalProjects == |ps|
    ensures s.completed == CountCompleted(ps)
    ensures s.completed <= s.totalProjects && s.completed + s.inProgress == s.totalProjects
    ensures |ps| == 0 ==> s.completionRate == 0.0
    ensures s.completionRate == CompletionRate(s.completed, s.totalProjects)
    ensures 0.0 <= s.completionRate <= 100.0
    ensures s.balance == s.totalContract - s.totalDisbursed
    ensures s.balance == SumContract(ps) - SumDisbursed(ps)
    ensures s.totalApproved == SumApproved(ps) + (if riderOn then riderAmount else 0.0)
    ensures s.totalContract == SumContract(ps) + (if riderOn then riderAmount else 0.0)
    ensures s.totalDisbursed == SumDisbursed(ps) + (if riderOn then riderAmount else 0.0)
  {
    var total := |ps|;
    var completed := CountCompleted(ps);
    var rate := CompletionRate(completed, total);
    var charge := if riderOn then riderAmount else 0.0;
    var contract := SumContract(ps) + charge;
    var disbursed := SumDisbursed(ps) + charge;
    Summary(total, completed, total - completed, rate, SumApproved(ps) + charge, contract, disbursed, contract - disbursed)
  }

  /** Every sum and count over a concatenation splits into the sums and counts over its parts. */
  lemma {:induction false} SumsOfConcat(ps: seq<Project>, qs: seq<Project>)
    requires AllMeasured(ps) && AllMeasured(qs)
    ensures AllMeasured(ps + qs)
    ensures SumApproved(ps + qs) == SumApproved(ps) + SumApproved(qs)
    ensures SumContract(ps + qs) == SumContract(ps) + SumContract(qs)
    ensures SumDisbursed(ps + qs) == SumDisbursed(ps) + SumDisbursed(qs)
    ensures CountCompleted(ps + qs) == CountCompleted(ps) + CountCompleted(qs)
  {
    if ps == [] {
      assert ps + qs == qs;
    } else {
      assert (ps + qs)[1..] == ps[1..] + qs;
      SumsOfConcat(ps[1..], qs);
    }
  }

  /** The share disbursed on one project never exceeds its contract sum when the percentage is within 0..100. */
  lemma DisbursedWithinContract(p: Project)
    requires Measured(p) && 0.0 <= p.disbursed.value <= 100.0 && p.contractSum >= 0.0
    ensures 0.0 <= DisbursedAmount(p) <= p.contractSum
  {
    var f := p.disbursed.value / 100.0;
    assert 0.0 <= f <= 1.0;
    assert p.contractSum - f * p.contractSum == (1.0 - f) * p.contractSum;
  }

  /**
   * Within the bounds the table editor enforces (percentages within 0..100,
   * contract sums not negative), the disbursed total never exceeds the
   * contract total, so the summary balance is not negative.
   */
  lemma {:induction false} BalanceNotNegative(ps: seq<Project>, riderOn: bool, riderAmount: real)
    requires AllMeasured(ps)
    requires forall i :: 0 <= i < |ps| ==> 0.0 <= ps[i].disbursed.value <= 100.0 && ps[i].contractSum >= 0.0
    ensures 0.0 <= SumDisbursed(ps) <= SumContract(ps)
    ensures Summarize(ps, riderOn, riderAmount).balance >= 0.0
  {
    if ps != [] {
      DisbursedWithinContract(ps[0]);
      BalanceNotNegative(ps[1..], riderOn, riderAmount);
    }
  }

  /** The approved and contract totals are not negative when no entry is. */
  lemma {:induction false} TotalsNotNegative(ps: seq<Project>)
    requires forall i :: 0 <= i < |ps| ==> ps[i].approvedCost >= 0.0 && ps[i].contractSum >= 0.0
    ensures SumApproved(ps) >= 0.0 && SumContract(ps) >= 0.0
  {
    if ps != [] {
      TotalsNotNegative(ps[1..]);
    }
  }

  /** Two projects, half and fully disbursed, without the rider. */
  lemma SummaryExample()
    ensures var a := Project(Some(1), "A", 1000.0, 1000.0, Num(50.0), Num(50.0), "Good", "Compliant", "", Num(40.0), "Pending", "");
            var b := Project(Some(2), "B", 2000.0, 2000.0, Num(100.0), Num(0.0), "Good", "Compliant", "", Num(100.0), "Pending", "");
            var s := Summarize([a, b], false, DefaultBankChargesAmount);
            s.totalApproved == 3000.0 && s.totalContract == 3000.0 && s.totalDisbursed == 2500.0
            && s.balance == 500.0 && s.completed == 1 && s.completionRate == 50.0
  {
    var a := Project(Some(1), "A", 1000.0, 1000.0, Num(50.0), Num(50.0), "Good", "Compliant", "", Num(40.0), "Pending", "");
    var b := Project(Some(2), "B", 2000.0, 2000.0, Num(100.0), Num(0.0), "Good", "Compliant", "", Num(100.0), "Pending", "");
    assert [a, b][1..] == [b];
    assert [b][1..] == [];
  }
}
