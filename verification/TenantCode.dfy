/** The search for a tenant code that is not taken yet. */
module TenantCode {
  import opened Numbers

  /** The i-th code probed for a base name; an empty base is probed as "tenant" first, then as "-1", "-2", and so on. */
  function Candidate(base: string, i: nat): string {
    if i == 0 then (if base == "" then "tenant" else base) else base + "-" + Decimal(i)
  }

  /** Every probe after the first is the base name, a dash and a number that counts the probes from one. */
  lemma ProbesAreNumbered(base: string, i: nat)
    ensures i == 0 && base != "" ==> Candidate(base, i) == base
    ensures 0 < i ==> exists number: string ::
              Candidate(base, i) == base + "-" + number && (forall c | 0 <= c < |number| :: IsDigit(number[c]))
              && Parse(number) == i
  {
    if 0 < i {
      ParseOfDecimal(i);
      assert Candidate(base, i) == base + "-" + Decimal(i);
    }
  }

  lemma CandidatesDiffer(base: string, i: nat, j: nat)
    requires i < j
    ensures Candidate(base, i) != Candidate(base, j)
  {
    var b := Candidate(base, j);
    assert b[|base|] == '-';
    assert b[|base| + 1..] == Decimal(j);
    if 0 < i {
      var a := Candidate(base, i);
      assert a[|base| + 1..] == Decimal(i);
      if Decimal(i) == Decimal(j) {
        DecimalIsInjective(i, j);
      }
    }
  }

  /** The first n candidates, which are n different codes. */
  function Probed(base: string, n: nat): (r: set<string>)
    ensures forall code :: code in r <==> exists i: nat | i < n :: code == Candidate(base, i)
  {
    if n == 0 then {} else Probed(base, n - 1) + {Candidate(base, n - 1)}
  }

  lemma {:induction false} ProbedAreMany(base: string, n: nat)
    ensures |Probed(base, n)| == n
  {
    if n != 0 {
      ProbedAreMany(base, n - 1);
      forall i: nat | i < n - 1 ensures Candidate(base, i) != Candidate(base, n - 1) {
        CandidatesDiffer(base, i, n - 1);
      }
    }
  }

  lemma SubsetIsSmaller(a: set<string>, b: set<string>)
    requires a <= b
    ensures |a| <= |b|
  {
    assert b == a + (b - a);
  }

  /** If the first n candidates are all taken, there are at least n codes taken. */
  lemma TakenProbesAreCounted(taken: set<string>, base: string, n: nat)
    requires forall i: nat | i < n :: Candidate(base, i) in taken
    ensures n <= |taken|
  {
    ProbedAreMany(base, n);
    SubsetIsSmaller(Probed(base, n), taken);
  }

  /** The search stops within |taken| + 1 probes, at the first candidate that is free. */
  method GenerateTenantCode(taken: set<string>, base: string) returns (code: string, ghost probes: nat)
    ensures code !in taken
    ensures 1 <= probes <= |taken| + 1
    ensures code == Candidate(base, probes - 1) && forall i: nat | i < probes - 1 :: Candidate(base, i) in taken
  {
    var candidate := if base == "" then "tenant" else base;
    var suffix := 1;
    TakenProbesAreCounted(taken, base, 0);
    while true
      invariant 1 <= suffix && candidate == Candidate(base, suffix - 1)
      invariant forall i: nat | i < suffix - 1 :: Candidate(base, i) in taken
      invariant suffix - 1 <= |taken|
      decreases |taken| - suffix
    {
      if candidate !in taken {
        return candidate, suffix;
      }
      TakenProbesAreCounted(taken, base, suffix);
      candidate := base + "-" + Decimal(suffix);
      suffix := suffix + 1;
    }
  }
}
