/** The gate's planned restarts: its guard, the loop that spreads them over the rounds, and the
    validator that checks each one against the restart ledger. */
module RestartSchedule {
  import opened Totals

  datatype Phase = Cold | Warm | PostRestart

  /** Restarts due before a round; both operands are non-negative, so all languages agree on /. */
  function Due(round: nat, rounds: nat, restarts: nat): nat
    requires 1 <= round && rounds >= 2
  {
    (round - 1) * restarts / (rounds - 1)
  }

  /** The validator asks about rounds there are; the first needs no division. */
  function ExpectedPhase(round: nat, rounds: nat, restarts: nat): Phase
    requires 1 <= round <= rounds
  {
    if round == 1 then Cold
    else if Due(round, rounds, restarts) > Due(round - 1, rounds, restarts) then PostRestart else Warm
  }

  lemma Succ(q: nat, d: nat)
    ensures (q + 1) * d == q * d + d
  {
  }

  lemma QuotientStep(x: nat, n: nat, d: nat)
    requires n <= d && 0 < d
    ensures x / d <= (x + n) / d <= x / d + 1
  {
    var q, m := x / d, x % d;
    Succ(q, d);
    if m + n < d { QuotientIs(x + n, d, q, m + n); } else { QuotientIs(x + n, d, q + 1, m + n - d); }
  }

  lemma ProductStep(a: nat, n: nat, d: nat)
    requires n <= d && 0 < d
    ensures a * n / d <= (a + 1) * n / d <= a * n / d + 1
  {
    Succ(a, n);
    QuotientStep(a * n, n, d);
  }

  lemma QuotientIs(x: nat, d: nat, q: nat, m: nat)
    requires 0 < d && m < d && x == q * d + m
    ensures x / d == q
  {
    var r, n := x / d, x % d;
    assert x == r * d + n;
    if r < q { assert (r + 1) * d <= q * d by { Monotone(r + 1, q, d); } }
    if q < r { assert (q + 1) * d <= r * d by { Monotone(q + 1, r, d); } }
  }

  lemma Monotone(a: nat, b: nat, d: nat)
    requires a <= b
    ensures a * d <= b * d
  {
  }

  /** From one round to the next at most one restart becomes due. */
  lemma DueGrowsByAtMostOne(round: nat, rounds: nat, restarts: nat)
    requires 2 <= round && 2 <= rounds && restarts <= rounds - 1
    ensures Due(round - 1, rounds, restarts) <= Due(round, rounds, restarts) <= Due(round - 1, rounds, restarts) + 1
  {
    ProductStep(round - 2, restarts, rounds - 1);
  }

  lemma DueAtEnds(rounds: nat, restarts: nat)
    requires 2 <= rounds
    ensures Due(1, rounds, restarts) == 0 && Due(rounds, rounds, restarts) == restarts
  {
    QuotientIs((rounds - 1) * restarts, rounds - 1, restarts, 0);
  }

  /** One round of the gate as its evidence records it: the phase, and for a restart its index. */
  datatype Round = Round(phase: Phase, restart: nat)

  /** How the gate's schedule ends: turned down by its guard, stopped by bash at a division by zero,
      short of its target, or with a log of all rounds. */
  datatype Outcome = Refused | DivisionByZero | Incomplete(planned: nat) | Finished(log: seq<Round>)

  /** What the validator expects of round r. */
  predicate AsExpected(one: Round, r: nat, rounds: nat, restarts: nat)
    requires 1 <= r <= rounds && rounds >= 2
  {
    && one.phase == ExpectedPhase(r, rounds, restarts)
    && (one.phase.PostRestart? ==> one.restart == Due(r, rounds, restarts))
  }

  /** Restarts made by the end of a round: those due, as long as one a round is enough. */
  function Made(round: nat, rounds: nat, restarts: nat): nat
    requires rounds >= 2
  {
    if round == 0 then 0 else if restarts <= rounds - 1 then Due(round, rounds, restarts) else round - 1
  }

  lemma Ahead(a: nat, n: nat, d: nat)
    requires 0 < d <= n
    ensures a * n / d >= a
  {
    Monotone(d, n, a);
    var q, m := a * n / d, a * n % d;
    assert a * n == q * d + m;
    if q < a { Monotone(q + 1, a, d); Succ(q, d); }
  }

  lemma MadeGrows(before: nat, round: nat, rounds: nat, restarts: nat)
    requires rounds >= 2 && round == before + 1
    ensures Made(round, rounds, restarts)
         == if Due(round, rounds, restarts) > Made(before, rounds, restarts) then Made(before, rounds, restarts) + 1
            else Made(before, rounds, restarts)
  {
    if round == 1 {
      DueAtEnds(rounds, restarts);
    } else if restarts <= rounds - 1 {
      DueGrowsByAtMostOne(round, rounds, restarts);
    } else {
      Ahead(round - 1, restarts, rounds - 1);
    }
  }

  lemma MadeAtEnd(rounds: nat, restarts: nat)
    requires rounds >= 2
    ensures Made(rounds, rounds, restarts) == if restarts <= rounds - 1 then restarts else rounds - 1
  {
    DueAtEnds(rounds, restarts);
  }

  /** The loop with the check that follows it, on any arguments. One restart a round reaches the
      target exactly if it is less than the number of rounds, and then every round is what the
      validator expects; a single round divides by zero. */
  method RunRounds(rounds: nat, restarts: nat) returns (r: Outcome)
    ensures r.DivisionByZero? <==> rounds == 1
    ensures r.Incomplete? <==> rounds != 1 && restarts > 0 && restarts >= rounds
    ensures r.Incomplete? ==> r.planned == if rounds == 0 then 0 else rounds - 1
    ensures r.Finished? ==> |r.log| == rounds
                            && forall i :: 0 <= i < rounds ==> AsExpected(r.log[i], i + 1, rounds, restarts)
    ensures r.Finished? ==>
              && (forall i :: 0 <= i < rounds ==> (r.log[i].phase.Cold? <==> i == 0))
              && (forall i :: 1 <= i < rounds ==>
                    (r.log[i].phase.PostRestart? <==>
                       i * restarts / (rounds - 1) > (i - 1) * restarts / (rounds - 1)))
    ensures !r.Refused?
  {
    var planned, log := 0, [];
    var round := 1;
    while round <= rounds
      invariant 1 <= round <= rounds + 1 && |log| == round - 1 && (rounds == 1 ==> round == 1)
      invariant rounds >= 2 ==> planned == Made(round - 1, rounds, restarts)
      invariant rounds == 0 ==> planned == 0
      invariant rounds >= 2 && restarts < rounds ==>
                  forall i :: 0 <= i < round - 1 ==> AsExpected(log[i], i + 1, rounds, restarts)
    {
      if rounds - 1 == 0 {
        return DivisionByZero;
      }
      MadeGrows(round - 1, round, rounds, restarts);
      var phase := if round == 1 then Cold else Warm;
      var desired := (round - 1) * restarts / (rounds - 1);
      if desired > planned {
        planned := planned + 1;
        phase := PostRestart;
      }
      log := log + [Round(phase, planned)];
      round := round + 1;
    }
    if rounds >= 2 { MadeAtEnd(rounds, restarts); }
    r := if planned < restarts then Incomplete(planned) else Finished(log);
  }

  /** The gate: its guard admits exactly what the loop can complete, and one case more - a single
      round, with no restart to plan, at which it stops with an arithmetic error. */
  method RunGate(qualifying: bool, rounds: nat, restarts: nat) returns (r: Outcome)
    ensures r.Refused? <==> rounds == 0 || restarts >= rounds || (qualifying && (rounds != 3 || restarts != 1))
    ensures r.DivisionByZero? <==> !qualifying && rounds == 1 && restarts == 0
    ensures !r.Incomplete?
    ensures r.Finished? ==> |r.log| == rounds >= 2
                            && forall i :: 0 <= i < rounds ==> AsExpected(r.log[i], i + 1, rounds, restarts)
  {
    if rounds == 0 || restarts >= rounds || (qualifying && (rounds != 3 || restarts != 1)) {
      return Refused;
    }
    r := RunRounds(rounds, restarts);
  }

  /** Ledger indices of the rounds up to n that follow a restart, in order of rounds. */
  function Indices(n: nat, rounds: nat, restarts: nat): seq<nat>
    requires n <= rounds && rounds >= 2
  {
    if n == 0 then []
    else if ExpectedPhase(n, rounds, restarts).PostRestart?
      then Indices(n - 1, rounds, restarts) + [Due(n, rounds, restarts)]
    else Indices(n - 1, rounds, restarts)
  }

  lemma {:induction false} IndicesCount(n: nat, rounds: nat, restarts: nat)
    requires n <= rounds && rounds >= 2 && restarts <= rounds - 1
    ensures Indices(n, rounds, restarts) == Counting(if n == 0 then 0 else Due(n, rounds, restarts))
    decreases n
  {
    if n == 1 {
      DueAtEnds(rounds, restarts);
      assert Indices(0, rounds, restarts) == [];
    } else if n > 1 {
      IndicesCount(n - 1, rounds, restarts);
      DueGrowsByAtMostOne(n, rounds, restarts);
    }
  }

  /** The validator binds the rounds after a restart to ledger rows 1, 2, ..., restarts: each row
      once, in order, none left over. */
  lemma EveryRestartIsBoundOnce(rounds: nat, restarts: nat)
    requires rounds >= 2 && restarts <= rounds - 1
    ensures Indices(rounds, rounds, restarts) == Counting(restarts)
  {
    IndicesCount(rounds, rounds, restarts);
    DueAtEnds(rounds, restarts);
  }
}
