/** The knapsack planner: one bit width per expert, least total error within a byte budget. */
module MixedBitPlan {
  import opened Wrappers

  datatype Choice = Choice(bits: int, bytes: nat, error: real)

  type Experts = seq<seq<Choice>>

  datatype Error = BudgetNotPositive | QuantumNotPositive | BudgetBelowQuantum | NoFeasibleAssignment

  datatype Plan = Plan(picks: seq<nat>, error: real, units: nat, bytes: nat)

  /** Bytes rounded up to whole quanta. */
  function Units(c: Choice, quantum: int): nat
    requires quantum > 0
  {
    CeilDiv(c.bytes, quantum);
    (c.bytes + quantum - 1) / quantum
  }

  lemma CeilDiv(bytes: nat, quantum: int)
    requires quantum > 0
    ensures (bytes + quantum - 1) / quantum >= 0 && bytes <= (bytes + quantum - 1) / quantum * quantum
  {
    var x := bytes + quantum - 1;
    var q := x / quantum;
    assert q * quantum + x % quantum == x;
    assert q < 0 ==> q * quantum <= -quantum;
  }

  /** One available choice for each of the first `|picks|` experts. */
  predicate Assigns(experts: Experts, picks: seq<nat>) {
    |picks| <= |experts| && forall i | 0 <= i < |picks| :: picks[i] < |experts[i]|
  }

  function Used(experts: Experts, quantum: int, picks: seq<nat>): nat
    requires quantum > 0 && Assigns(experts, picks)
  {
    var k := |picks|;
    if k == 0 then 0 else Used(experts, quantum, picks[..k - 1]) + Units(experts[k - 1][picks[k - 1]], quantum)
  }

  function ErrorOf(experts: Experts, picks: seq<nat>): real
    requires Assigns(experts, picks)
  {
    var k := |picks|;
    if k == 0 then 0.0 else ErrorOf(experts, picks[..k - 1]) + experts[k - 1][picks[k - 1]].error
  }

  function BytesOf(experts: Experts, picks: seq<nat>): nat
    requires Assigns(experts, picks)
  {
    var k := |picks|;
    if k == 0 then 0 else BytesOf(experts, picks[..k - 1]) + experts[k - 1][picks[k - 1]].bytes
  }

  /** Picking another choice for one expert changes error, size and bytes by the difference of the two choices. */
  lemma {:induction false} Repick(experts: Experts, quantum: int, picks: seq<nat>, i: nat, j: nat)
    requires quantum > 0 && Assigns(experts, picks) && i < |picks| && j < |experts[i]|
    ensures var other, a, b := picks[i := j], experts[i][picks[i]], experts[i][j];
            Assigns(experts, other) &&
            ErrorOf(experts, other) == ErrorOf(experts, picks) - a.error + b.error &&
            Used(experts, quantum, other) == Used(experts, quantum, picks) - Units(a, quantum) + Units(b, quantum) &&
            BytesOf(experts, other) == BytesOf(experts, picks) - a.bytes + b.bytes
    decreases |picks|
  {
    hide Units;
    var k := |picks| - 1;
    var other := picks[i := j];
    if i < k {
      Repick(experts, quantum, picks[..k], i, j);
      assert other[..k] == picks[..k][i := j];
    } else {
      assert other[..k] == picks[..k];
    }
  }

  /** A complete assignment whose rounded-up size fits. */
  ghost predicate Fits(experts: Experts, quantum: int, units: nat, picks: seq<nat>)
    requires quantum > 0
  {
    Assigns(experts, picks) && |picks| == |experts| && Used(experts, quantum, picks) <= units
  }

  lemma UnitsCover(c: Choice, quantum: int)
    requires quantum > 0
    ensures c.bytes <= Units(c, quantum) * quantum
  {
    CeilDiv(c.bytes, quantum);
  }

  /** The units of a choice are the least number of quanta that holds its bytes. */
  lemma UnitsLeast(c: Choice, quantum: int, u: nat)
    requires quantum > 0
    ensures Units(c, quantum) <= u <==> c.bytes <= u * quantum
  {
    var x := c.bytes + quantum - 1;
    var q := x / quantum;
    assert q * quantum + x % quantum == x;
    CeilDiv(c.bytes, quantum);
    if q <= u {
      Monotone(q, u, quantum);
    } else {
      Monotone(u, q - 1, quantum);
      assert (q - 1) * quantum == q * quantum - quantum;
    }
  }

  lemma Distribute(a: nat, b: nat, quantum: int)
    ensures (a + b) * quantum == a * quantum + b * quantum
  {
  }

  lemma Monotone(a: nat, b: nat, quantum: int)
    requires a <= b && quantum > 0
    ensures a * quantum <= b * quantum
  {
    Distribute(a, b - a, quantum);
  }

  lemma {:induction false} BytesWithinUnits(experts: Experts, quantum: int, picks: seq<nat>)
    requires quantum > 0 && Assigns(experts, picks)
    ensures BytesOf(experts, picks) <= Used(experts, quantum, picks) * quantum
    decreases |picks|
  {
    hide Units;
    var k := |picks|;
    if k > 0 {
      BytesWithinUnits(experts, quantum, picks[..k - 1]);
      var c := experts[k - 1][picks[k - 1]];
      UnitsCover(c, quantum);
      Distribute(Used(experts, quantum, picks[..k - 1]), Units(c, quantum), quantum);
    }
  }

  // ---------------------------------------------------------------- the table

  type Table = map<nat, (real, seq<nat>)>

  /** Every entry is a real assignment of the first `k` experts with that size and error. */
  ghost predicate Honest(experts: Experts, quantum: int, units: nat, k: nat, dp: Table)
    requires quantum > 0
  {
    forall u | u in dp ::
      u <= units && |dp[u].1| == k && Assigns(experts, dp[u].1) &&
      Used(experts, quantum, dp[u].1) == u && ErrorOf(experts, dp[u].1) == dp[u].0
  }

  ghost predicate Beats(dp: Table, used: nat, error: real) { used in dp && dp[used].0 <= error }

  /** Every assignment of the first `k` experts that fits is matched by an entry of its size. */
  ghost predicate Complete(experts: Experts, quantum: int, units: nat, k: nat, dp: Table)
    requires quantum > 0
  {
    forall picks | Assigns(experts, picks) && |picks| == k && Used(experts, quantum, picks) <= units ::
      Beats(dp, Used(experts, quantum, picks), ErrorOf(experts, picks))
  }

  /** The transitions from entry `u` over the first `j` choices are in `nxt`. */
  ghost predicate Covered(quantum: int, units: nat, choices: seq<Choice>, dp: Table, u: nat, j: nat, nxt: Table)
    requires quantum > 0 && j <= |choices| && u in dp
  {
    forall i | 0 <= i < j && u + Units(choices[i], quantum) <= units ::
      Beats(nxt, u + Units(choices[i], quantum), dp[u].0 + choices[i].error)
  }

  lemma PicksSnoc(experts: Experts, quantum: int, picks: seq<nat>, idx: nat)
    requires quantum > 0 && Assigns(experts, picks) && |picks| < |experts| && idx < |experts[|picks|]|
    ensures var more := picks + [idx];
            Assigns(experts, more) &&
            Used(experts, quantum, more) == Used(experts, quantum, picks) + Units(experts[|picks|][idx], quantum) &&
            ErrorOf(experts, more) == ErrorOf(experts, picks) + experts[|picks|][idx].error
  {
    assert (picks + [idx])[..|picks|] == picks;
  }

  /** One relaxation: better entries only. */
  function Relax(nxt: Table, at: nat, error: real, picks: seq<nat>): Table {
    if at !in nxt || error < nxt[at].0 then nxt[at := (error, picks)] else nxt
  }

  lemma RelaxBeats(nxt: Table, at: nat, error: real, picks: seq<nat>)
    ensures Beats(Relax(nxt, at, error, picks), at, error)
    ensures forall u, e | Beats(nxt, u, e) :: Beats(Relax(nxt, at, error, picks), u, e)
  {
  }

  /** All choices of one expert, from one table entry. */
  method Extend(experts: Experts, quantum: int, units: nat, k: nat, dp: Table, u: nat, start: Table)
      returns (nxt: Table)
    requires quantum > 0 && k < |experts| && u in dp && Honest(experts, quantum, units, k, dp)
    requires Honest(experts, quantum, units, k + 1, start)
    ensures Honest(experts, quantum, units, k + 1, nxt) && Covered(quantum, units, experts[k], dp, u, |experts[k]|, nxt)
    ensures forall v, e | Beats(start, v, e) :: Beats(nxt, v, e)
  {
    hide Units, Used, ErrorOf;
    var choices := experts[k];
    var (err, picks) := dp[u];
    nxt := start;
    for idx := 0 to |choices|
      invariant Honest(experts, quantum, units, k + 1, nxt) && Covered(quantum, units, choices, dp, u, idx, nxt)
      invariant forall v, e | Beats(start, v, e) :: Beats(nxt, v, e)
    {
      var newUsed := u + Units(choices[idx], quantum);
      if newUsed <= units {
        PicksSnoc(experts, quantum, picks, idx);
        RelaxBeats(nxt, newUsed, err + choices[idx].error, picks + [idx]);
        hide Beats;
        nxt := Relax(nxt, newUsed, err + choices[idx].error, picks + [idx]);
      }
    }
  }

  /** One expert: every entry of the old table, in any order. */
  method NextTable(experts: Experts, quantum: int, units: nat, k: nat, dp: Table) returns (nxt: Table)
    requires quantum > 0 && k < |experts|
    requires Honest(experts, quantum, units, k, dp) && Complete(experts, quantum, units, k, dp)
    ensures Honest(experts, quantum, units, k + 1, nxt) && Complete(experts, quantum, units, k + 1, nxt)
  {
    hide Honest, Beats, Complete;
    nxt := map[];
    NoEntries(experts, quantum, units, k + 1);
    var todo := dp.Keys;
    while todo != {}
      invariant todo <= dp.Keys && Honest(experts, quantum, units, k + 1, nxt)
      invariant forall u | u in dp && u !in todo :: Covered(quantum, units, experts[k], dp, u, |experts[k]|, nxt)
      decreases todo
    {
      var u :| u in todo;
      ghost var before := nxt;
      nxt := Extend(experts, quantum, units, k, dp, u, nxt);
      todo := todo - {u};
      StillCovered(quantum, units, experts[k], dp, todo + {u}, before, nxt);
    }
    AllCovered(experts, quantum, units, k, dp, nxt);
  }

  lemma NoEntries(experts: Experts, quantum: int, units: nat, k: nat)
    requires quantum > 0
    ensures Honest(experts, quantum, units, k, map[])
  {
  }

  lemma StillCovered(quantum: int, units: nat, choices: seq<Choice>, dp: Table, todo: set<nat>, before: Table,
                     nxt: Table)
    requires quantum > 0 && forall v, e | Beats(before, v, e) :: Beats(nxt, v, e)
    requires forall u | u in dp && u !in todo :: Covered(quantum, units, choices, dp, u, |choices|, before)
    ensures forall u | u in dp && u !in todo :: Covered(quantum, units, choices, dp, u, |choices|, nxt)
  {
    hide Beats, Units;
  }

  lemma CompleteAt(experts: Experts, quantum: int, units: nat, k: nat, dp: Table, picks: seq<nat>)
    requires quantum > 0 && Complete(experts, quantum, units, k, dp)
    requires Assigns(experts, picks) && |picks| == k && Used(experts, quantum, picks) <= units
    ensures Used(experts, quantum, picks) in dp && dp[Used(experts, quantum, picks)].0 <= ErrorOf(experts, picks)
  {
    assert Beats(dp, Used(experts, quantum, picks), ErrorOf(experts, picks));
  }

  lemma CoveredAt(quantum: int, units: nat, choices: seq<Choice>, dp: Table, u: nat, nxt: Table, i: nat)
    requires quantum > 0 && i < |choices| && u in dp && Covered(quantum, units, choices, dp, u, |choices|, nxt)
    requires u + Units(choices[i], quantum) <= units
    ensures var v := u + Units(choices[i], quantum); v in nxt && nxt[v].0 <= dp[u].0 + choices[i].error
  {
    assert Beats(nxt, u + Units(choices[i], quantum), dp[u].0 + choices[i].error);
  }

  lemma AllCovered(experts: Experts, quantum: int, units: nat, k: nat, dp: Table, nxt: Table)
    requires quantum > 0 && k < |experts| && Complete(experts, quantum, units, k, dp)
    requires forall u | u in dp :: Covered(quantum, units, experts[k], dp, u, |experts[k]|, nxt)
    ensures Complete(experts, quantum, units, k + 1, nxt)
  {
    forall picks | Assigns(experts, picks) && |picks| == k + 1 && Used(experts, quantum, picks) <= units
      ensures Beats(nxt, Used(experts, quantum, picks), ErrorOf(experts, picks))
    {
      hide Units, Used, ErrorOf, Complete, Covered;
      var init, last := picks[..k], picks[k];
      assert picks == init + [last];
      PicksSnoc(experts, quantum, init, last);
      CompleteAt(experts, quantum, units, k, dp, init);
      CoveredAt(quantum, units, experts[k], dp, Used(experts, quantum, init), nxt, last);
    }
  }

  // ---------------------------------------------------------------- the answer

  predicate Cheaper(e1: real, u1: nat, e2: real, u2: nat) { e1 < e2 || (e1 == e2 && u1 <= u2) }

  /** The least entry by error, then by size. */
  method LeastEntry(dp: Table) returns (best: nat)
    requires dp.Keys != {}
    ensures best in dp && forall u | u in dp :: Cheaper(dp[best].0, best, dp[u].0, u)
  {
    var todo := dp.Keys;
    best :| best in todo;
    todo := todo - {best};
    while todo != {}
      invariant todo <= dp.Keys && best in dp
      invariant forall u | u in dp && u !in todo :: Cheaper(dp[best].0, best, dp[u].0, u)
      decreases todo
    {
      var u :| u in todo;
      todo := todo - {u};
      if !Cheaper(dp[best].0, best, dp[u].0, u) {
        best := u;
      }
    }
  }

  ghost predicate Best(experts: Experts, quantum: int, units: nat, p: Plan)
    requires quantum > 0
  {
    Fits(experts, quantum, units, p.picks) && p.error == ErrorOf(experts, p.picks) &&
    p.units == Used(experts, quantum, p.picks) &&
    forall q | Fits(experts, quantum, units, q) ::
      Cheaper(p.error, p.units, ErrorOf(experts, q), Used(experts, quantum, q))
  }

  /** A prefix of an assignment that fits also fits. */
  lemma {:induction false} PrefixFits(experts: Experts, quantum: int, picks: seq<nat>, k: nat)
    requires quantum > 0 && Assigns(experts, picks) && k <= |picks|
    ensures Assigns(experts, picks[..k]) && Used(experts, quantum, picks[..k]) <= Used(experts, quantum, picks)
    decreases |picks|
  {
    hide Units;
    if k < |picks| {
      var init := picks[..|picks| - 1];
      PrefixFits(experts, quantum, init, k);
      assert init[..k] == picks[..k];
    } else {
      assert picks[..k] == picks;
    }
  }

  lemma TableNotEmpty(experts: Experts, quantum: int, units: nat, k: nat, dp: Table, picks: seq<nat>)
    requires quantum > 0 && k <= |experts| && Complete(experts, quantum, units, k, dp) &&
      Fits(experts, quantum, units, picks)
    ensures dp.Keys != {}
  {
    PrefixFits(experts, quantum, picks, k);
    hide Used, Complete;
    CompleteAt(experts, quantum, units, k, dp, picks[..k]);
    assert Used(experts, quantum, picks[..k]) in dp.Keys;
  }

  lemma LeastIsBest(experts: Experts, quantum: int, units: nat, dp: Table, best: nat, bytes: nat)
    requires quantum > 0 && Honest(experts, quantum, units, |experts|, dp) &&
      Complete(experts, quantum, units, |experts|, dp)
    requires best in dp && forall u | u in dp :: Cheaper(dp[best].0, best, dp[u].0, u)
    ensures Best(experts, quantum, units, Plan(dp[best].1, dp[best].0, best, bytes))
  {
    hide Used, ErrorOf;
    forall q | Fits(experts, quantum, units, q)
      ensures Cheaper(dp[best].0, best, ErrorOf(experts, q), Used(experts, quantum, q))
    {
      CompleteAt(experts, quantum, units, |experts|, dp, q);
    }
  }

  /** `optimize`. */
  method Optimize(experts: Experts, budget: int, quantum: int) returns (r: Result<Plan, Error>)
    ensures budget <= 0 <==> r == Err(BudgetNotPositive)
    ensures budget > 0 && quantum <= 0 <==> r == Err(QuantumNotPositive)
    ensures budget > 0 && quantum > 0 && budget < quantum <==> r == Err(BudgetBelowQuantum)
    ensures 0 < quantum <= budget ==>
      var units := budget / quantum;
      units >= 0 && (r == Err(NoFeasibleAssignment) <==> !exists q :: Fits(experts, quantum, units, q)) &&
      (r.Ok? ==> Best(experts, quantum, units, r.value) && r.value.bytes == BytesOf(experts, r.value.picks) <= budget)
  {
    hide Used, ErrorOf, Honest, Complete;
    if budget <= 0 {
      return Err(BudgetNotPositive);
    }
    if quantum <= 0 {
      return Err(QuantumNotPositive);
    }
    var units := budget / quantum;
    FloorDiv(budget, quantum);
    if units <= 0 {
      return Err(BudgetBelowQuantum);
    }
    var dp: Table := map[0 := (0.0, [])];
    StartTable(experts, quantum, units);
    assert 0 in dp.Keys;
    for k := 0 to |experts|
      invariant Honest(experts, quantum, units, k, dp) && Complete(experts, quantum, units, k, dp) && dp.Keys != {}
    {
      dp := NextTable(experts, quantum, units, k, dp);
      if dp.Keys == {} {
        forall q
          ensures !Fits(experts, quantum, units, q)
        {
          if Fits(experts, quantum, units, q) {
            TableNotEmpty(experts, quantum, units, k + 1, dp, q);
          }
        }
        return Err(NoFeasibleAssignment);
      }
    }
    var best := LeastEntry(dp);
    var bytes := SumBytes(experts, quantum, units, dp, best);
    LeastIsBest(experts, quantum, units, dp, best, bytes);
    WithinBudget(experts, quantum, units, dp[best].1, budget);
    return Ok(Plan(dp[best].1, dp[best].0, best, bytes));
  }

  lemma StartTable(experts: Experts, quantum: int, units: nat)
    requires quantum > 0
    ensures Honest(experts, quantum, units, 0, map[0 := (0.0, [])]) &&
      Complete(experts, quantum, units, 0, map[0 := (0.0, [])])
  {
    var dp: Table := map[0 := (0.0, [])];
    forall picks | Assigns(experts, picks) && |picks| == 0 && Used(experts, quantum, picks) <= units
      ensures Beats(dp, Used(experts, quantum, picks), ErrorOf(experts, picks))
    {
      assert picks == [];
    }
  }

  lemma FloorDiv(budget: int, quantum: int)
    requires budget > 0 && quantum > 0
    ensures budget / quantum >= 0 && budget / quantum * quantum <= budget &&
      (budget / quantum <= 0 <==> budget < quantum)
  {
    var q := budget / quantum;
    assert q * quantum + budget % quantum == budget;
    assert q < 0 ==> q * quantum <= -quantum;
    assert q >= 1 ==> q * quantum >= quantum;
  }

  lemma WithinBudget(experts: Experts, quantum: int, units: nat, picks: seq<nat>, budget: int)
    requires quantum > 0 && Fits(experts, quantum, units, picks) && units * quantum <= budget
    ensures BytesOf(experts, picks) <= budget
  {
    hide Used, BytesOf;
    BytesWithinUnits(experts, quantum, picks);
    Monotone(Used(experts, quantum, picks), units, quantum);
  }

  /** The exact size of the returned plan. */
  method SumBytes(experts: Experts, quantum: int, units: nat, dp: Table, best: nat) returns (bytes: nat)
    requires quantum > 0 && best in dp && Honest(experts, quantum, units, |experts|, dp)
    ensures Assigns(experts, dp[best].1) && bytes == BytesOf(experts, dp[best].1)
  {
    var picks := dp[best].1;
    bytes := 0;
    for i := 0 to |picks|
      invariant bytes == BytesOf(experts, picks[..i])
    {
      assert picks[..i + 1][..i] == picks[..i];
      bytes := bytes + experts[i][picks[i]].bytes;
    }
    assert picks[..|picks|] == picks;
  }
}
