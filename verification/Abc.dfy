/** ABC classes: products by descending consumption, cut at 80% and 95% of the total. */
module Abc {
  import opened Sorting

  datatype Entry = Entry(product: nat, qty: real)

  datatype AbcClass = A | B | C

  function Rank(c: AbcClass): nat {
    match c case A => 0 case B => 1 case C => 2
  }

  predicate LargerFirst(a: Entry, b: Entry) {
    a.qty >= b.qty
  }

  function Ranked(entries: seq<Entry>): seq<Entry> {
    SortBy(entries, LargerFirst)
  }

  function Sum(entries: seq<Entry>): real {
    if entries == [] then 0.0 else Sum(entries[..|entries| - 1]) + entries[|entries| - 1].qty
  }

  /** A total of zero is replaced by one. */
  function OrOne(total: real): (t: real)
    ensures t != 0.0
  {
    if total == 0.0 then 1.0 else total
  }

  function ClassOf(ratio: real): AbcClass {
    if ratio <= 0.8 then A else if ratio <= 0.95 then B else C
  }

  /** Class of the entry at position i of a ranked list: the share of everything up to and including it decides. */
  function ClassAt(ranked: seq<Entry>, i: nat): AbcClass
    requires i < |ranked|
  {
    ClassOf(Sum(ranked[..i + 1]) / OrOne(Sum(ranked)))
  }

  ghost predicate NonNegative(entries: seq<Entry>) {
    forall i | 0 <= i < |entries| :: 0.0 <= entries[i].qty
  }

  ghost predicate DistinctProducts(entries: seq<Entry>) {
    forall i, j | 0 <= i < j < |entries| :: entries[i].product != entries[j].product
  }

  // ---------- Shares ----------

  /** The sum is that of the quantities: none for nothing, its own for one entry, and additive. */
  lemma {:induction false} SumAddsUp(a: seq<Entry>, b: seq<Entry>, e: Entry)
    ensures Sum([]) == 0.0 && Sum([e]) == e.qty && Sum(a + b) == Sum(a) + Sum(b)
  {
    assert [e][..0] == [];
    if b == [] {
      assert a + b == a;
    } else {
      var n := |b| - 1;
      assert (a + b)[..|a + b| - 1] == a + b[..n];
      SumAddsUp(a, b[..n], e);
    }
  }

  lemma {:induction false} SumGrows(entries: seq<Entry>, i: nat, j: nat)
    requires NonNegative(entries) && i <= j <= |entries|
    ensures 0.0 <= Sum(entries[..i]) <= Sum(entries[..j])
    decreases j
  {
    if j > 0 {
      assert entries[..j][..j - 1] == entries[..j - 1];
      SumGrows(entries, if i < j then i else j - 1, j - 1);
    }
  }

  lemma RatioAtMost(part: real, total: real, limit: real)
    requires 0.0 <= part <= total && 0.0 <= limit
    ensures part / OrOne(total) <= limit <==> part <= limit * total
  {
    if total > 0.0 {
      var ratio := part / total;
      assert ratio * total == part;
      if ratio <= limit {
        assert (limit - ratio) * total >= 0.0;
      } else {
        assert (ratio - limit) * total > 0.0;
      }
    }
  }

  lemma ClassOfShare(part: real, total: real)
    requires 0.0 <= part <= total
    ensures ClassOf(part / OrOne(total)) == A <==> part <= 0.8 * total
    ensures ClassOf(part / OrOne(total)) != C <==> part <= 0.95 * total
  {
    RatioAtMost(part, total, 0.8);
    RatioAtMost(part, total, 0.95);
  }

  /** An entry is in A when the sum up to it is at most 80% of the total, and in A or B when it is at most 95%. */
  lemma ClassByShare(ranked: seq<Entry>, i: nat)
    requires NonNegative(ranked) && i < |ranked|
    ensures ClassAt(ranked, i) == A <==> Sum(ranked[..i + 1]) <= 0.8 * Sum(ranked)
    ensures ClassAt(ranked, i) != C <==> Sum(ranked[..i + 1]) <= 0.95 * Sum(ranked)
  {
    assert ranked[..|ranked|] == ranked;
    SumGrows(ranked, i + 1, |ranked|);
    ClassOfShare(Sum(ranked[..i + 1]), Sum(ranked));
  }

  function Count(ranked: seq<Entry>, upTo: nat, c: AbcClass): (n: nat)
    requires upTo <= |ranked|
    ensures n <= upTo
  {
    if upTo == 0 then 0 else Count(ranked, upTo - 1, c) + (if ClassAt(ranked, upTo - 1) == c then 1 else 0)
  }

  /** Down a ranked list classes only get worse. */
  lemma ClassesOnlyGetWorse(ranked: seq<Entry>, i: nat, j: nat)
    requires NonNegative(ranked) && i <= j < |ranked|
    ensures Rank(ClassAt(ranked, i)) <= Rank(ClassAt(ranked, j))
  {
    ClassByShare(ranked, i);
    ClassByShare(ranked, j);
    SumGrows(ranked, i + 1, j + 1);
  }

  lemma {:induction false} CountsArePrefixes(ranked: seq<Entry>, upTo: nat)
    requires NonNegative(ranked) && upTo <= |ranked|
    ensures var a, ab := Count(ranked, upTo, A), Count(ranked, upTo, A) + Count(ranked, upTo, B);
            && ab <= upTo
            && (forall i | 0 <= i < upTo :: ClassAt(ranked, i) == A <==> i < a)
            && (forall i | 0 <= i < upTo :: ClassAt(ranked, i) != C <==> i < ab)
  {
    if upTo > 0 {
      CountsArePrefixes(ranked, upTo - 1);
      if upTo > 1 {
        ClassesOnlyGetWorse(ranked, upTo - 2, upTo - 1);
      }
    }
  }

  /**
   * The classes form A*, B*, C*; the first k entries hold at most 80% of the consumption exactly when k is at most
   * the number of As, and at most 95% exactly when k is at most the number of As and Bs.
   */
  lemma ClassesAreLongestPrefixes(ranked: seq<Entry>)
    requires NonNegative(ranked)
    ensures var a, ab := Count(ranked, |ranked|, A), Count(ranked, |ranked|, A) + Count(ranked, |ranked|, B);
            && (forall i | 0 <= i < |ranked| :: ClassAt(ranked, i) == if i < a then A else if i < ab then B else C)
            && (forall k | 0 <= k <= |ranked| :: Sum(ranked[..k]) <= 0.8 * Sum(ranked) <==> k <= a)
            && (forall k | 0 <= k <= |ranked| :: Sum(ranked[..k]) <= 0.95 * Sum(ranked) <==> k <= ab)
  {
    var n := |ranked|;
    var a, ab := Count(ranked, n, A), Count(ranked, n, A) + Count(ranked, n, B);
    CountsArePrefixes(ranked, n);
    assert ranked[..n] == ranked;
    SumGrows(ranked, 0, n);
    forall k | 0 <= k <= n
      ensures Sum(ranked[..k]) <= 0.8 * Sum(ranked) <==> k <= a
      ensures Sum(ranked[..k]) <= 0.95 * Sum(ranked) <==> k <= ab
    {
      if k > 0 {
        ClassByShare(ranked, k - 1);
        assert ClassAt(ranked, k - 1) == A <==> k - 1 < a;
        assert ClassAt(ranked, k - 1) != C <==> k - 1 < ab;
      }
    }
  }

  /** Without consumption every product is in A. */
  lemma NothingConsumedIsAllA(ranked: seq<Entry>, i: nat)
    requires NonNegative(ranked) && Sum(ranked) == 0.0 && i < |ranked|
    ensures ClassAt(ranked, i) == A
  {
    assert ranked[..|ranked|] == ranked;
    SumGrows(ranked, i + 1, |ranked|);
  }

  lemma RankedIsSorted(entries: seq<Entry>)
    ensures SortedBy(Ranked(entries), LargerFirst) && multiset(Ranked(entries)) == multiset(entries)
    ensures NonNegative(entries) ==> NonNegative(Ranked(entries))
    ensures DistinctProducts(entries) ==> DistinctProducts(Ranked(entries))
  {
    var ranked := Ranked(entries);
    SortBySorts(entries, LargerFirst);
    forall i | 0 <= i < |ranked| ensures ranked[i] in entries {
      SameElements(ranked, entries, ranked[i]);
    }
    if DistinctProducts(entries) {
      PermutationKeepsDistinct(entries, ranked);
      forall i, j | 0 <= i < j < |ranked| ensures ranked[i].product != ranked[j].product {
        var p, q :| 0 <= p < |entries| && 0 <= q < |entries| && entries[p] == ranked[i] && entries[q] == ranked[j];
      }
    }
  }

  /** The class of every product among the first entries of a ranked list. */
  function Classified(ranked: seq<Entry>, upTo: nat): map<nat, AbcClass>
    requires upTo <= |ranked|
  {
    if upTo == 0 then map[] else Classified(ranked, upTo - 1)[ranked[upTo - 1].product := ClassAt(ranked, upTo - 1)]
  }

  lemma {:induction false} ClassifiedAt(ranked: seq<Entry>, upTo: nat, i: nat)
    requires DistinctProducts(ranked) && i < upTo <= |ranked|
    ensures ranked[i].product in Classified(ranked, upTo)
    ensures Classified(ranked, upTo)[ranked[i].product] == ClassAt(ranked, i)
  {
    if i < upTo - 1 {
      ClassifiedAt(ranked, upTo - 1, i);
    }
  }

  function AbcClasses(entries: seq<Entry>): map<nat, AbcClass> {
    Classified(Ranked(entries), |entries|)
  }

  lemma RankedPosition(entries: seq<Entry>, x: nat) returns (i: nat)
    requires x < |entries| && DistinctProducts(entries)
    ensures i < |entries| && Ranked(entries)[i] == entries[x]
    ensures entries[x].product in AbcClasses(entries)
    ensures AbcClasses(entries)[entries[x].product] == ClassAt(Ranked(entries), i)
  {
    var ranked := Ranked(entries);
    RankedIsSorted(entries);
    SameElements(ranked, entries, entries[x]);
    i :| 0 <= i < |ranked| && ranked[i] == entries[x];
    ClassifiedAt(ranked, |ranked|, i);
  }

  /** Every product gets a class, and a strictly larger consumer never a worse one. */
  lemma LargerConsumerIsNotWorse(entries: seq<Entry>, x: nat, y: nat)
    requires NonNegative(entries) && DistinctProducts(entries)
    requires x < |entries| && y < |entries| && entries[x].qty > entries[y].qty
    ensures var classes := AbcClasses(entries);
            && entries[x].product in classes && entries[y].product in classes
            && Rank(classes[entries[x].product]) <= Rank(classes[entries[y].product])
  {
    var i := RankedPosition(entries, x);
    var j := RankedPosition(entries, y);
    RankedIsSorted(entries);
    LargerComesFirst(Ranked(entries), i, j);
    ClassesOnlyGetWorse(Ranked(entries), i, j);
  }

  lemma LargerComesFirst(ranked: seq<Entry>, i: nat, j: nat)
    requires SortedBy(ranked, LargerFirst) && i < |ranked| && j < |ranked|
    ensures ranked[i].qty > ranked[j].qty ==> i < j
  {
    if j < i {
      assert LargerFirst(ranked[j], ranked[i]);
    }
  }

  method Total(entries: seq<Entry>) returns (total: real)
    ensures total == Sum(entries)
  {
    total := 0.0;
    for i := 0 to |entries|
      invariant total == Sum(entries[..i])
    {
      assert entries[..i + 1][..i] == entries[..i];
      total := total + entries[i].qty;
    }
    assert entries[..|entries|] == entries;
  }

  method CalculateAbc(entries: seq<Entry>) returns (result: map<nat, AbcClass>)
    ensures result == AbcClasses(entries)
  {
    var ranked := Ranked(entries);
    var total := Total(ranked);
    total := OrOne(total);
    var cumulative := 0.0;
    result := map[];
    for i := 0 to |ranked|
      invariant cumulative == Sum(ranked[..i])
      invariant result == Classified(ranked, i)
    {
      assert ranked[..i + 1][..i] == ranked[..i];
      cumulative := cumulative + ranked[i].qty;
      result := result[ranked[i].product := ClassOf(cumulative / total)];
    }
  }
}
