/**
 * The `knapsack_big` crate: a memoized 0/1 knapsack solver for capacities
 * too large for a dense table.
 *
 * `caching_knapsack` works on item prefixes: the last item of a prefix is
 * either skipped or taken, and the remaining prefix is solved recursively.
 * Results are cached per prefix length (slot `k - 1` for a prefix of length
 * `k`) and residual capacity, in an array of maps updated in place.
 */
module KnapsackBig {
  import opened Results
  import opened RustStr
  import Plain = Knapsack

  /** An item: an `i32` value and a `usize` weight. */
  datatype Item = Item(value: int, weight: nat)

  const USIZE_MODULUS: int := 0x1_0000_0000_0000_0000

  /** `n as usize` for an `i32` on a 64-bit target: the value modulo 2^64. */
  function UsizeOfI32(n: int): (w: nat)
    requires InI32(n)
    ensures w < USIZE_MODULUS && w % USIZE_MODULUS == n % USIZE_MODULUS
    ensures n >= 0 ==> w == n
  {
    if n >= 0 then n else n + USIZE_MODULUS
  }

  /**
   * `Item::from_line`: the same split, take-two and parse chain as the
   * `knapsack` crate's, with the second field cast to `usize`.
   */
  function FromLine(l: string): (r: Result<Item>)
    ensures r.Ok? <==> Plain.FromLine(l).Ok?
    ensures r.Err? ==> r.panic == Plain.FromLine(l).panic
    ensures r.Ok? ==> r.value.value == Plain.FromLine(l).value.value
    ensures r.Ok? ==> r.value.weight < USIZE_MODULUS
    ensures r.Ok? ==> r.value.weight % USIZE_MODULUS == Plain.FromLine(l).value.weight % USIZE_MODULUS
  {
    match Plain.FromLine(l)
    case Ok(it) => Ok(Item(it.value, UsizeOfI32(it.weight)))
    case Err(p) => Err(p)
  }

  /** Two rendered numbers, the weight non-negative, read back as value and weight. */
  lemma FromLineRoundTrip(v: int, w: nat, rest: string)
    requires InI32(v) && InI32(w)
    requires rest == [] || rest[0] == ' '
    ensures FromLine(FormatI32(v) + " " + FormatI32(w) + rest) == Ok(Item(v, w))
  {
    Plain.FromLineRoundTrip(v, w, rest);
  }

  /** A negative weight wraps around to a huge `usize`. */
  lemma FromLineNegativeWeight(v: int, w: int)
    requires InI32(v) && InI32(w) && w < 0
    ensures FromLine(FormatI32(v) + " " + FormatI32(w)) == Ok(Item(v, USIZE_MODULUS + w))
  {
    Plain.FromLineRoundTrip(v, w, "");
    assert FormatI32(v) + " " + FormatI32(w) + "" == FormatI32(v) + " " + FormatI32(w);
  }

  /** The two lines of the crate's `representation` test. */
  lemma FromLineExamples()
    ensures FromLine("10 12") == Ok(Item(10, 12))
    ensures FromLine("923 2006") == Ok(Item(923, 2006))
  {
    Plain.FromLineFirstExample();
    Plain.FromLineSecondExample();
  }

  // ---------------------------------------------------------------------------
  // The recurrence that caching_knapsack computes

  function Max(a: int, b: int): int {
    if a >= b then a else b
  }

  /**
   * The value `caching_knapsack(items, w, ..)` computes: a single item counts
   * when it fits; a longer prefix takes the better of skipping and, when it
   * fits, taking its last item.
   */
  function Recurrence(items: seq<Item>, w: nat): (r: int)
    requires |items| >= 1
    ensures items[0].weight <= w ==> items[0].value <= r
    ensures items[0].value >= 0 ==> r >= 0
    decreases |items|
  {
    var n := |items|;
    if n == 1 then
      if items[0].weight <= w then items[0].value else 0
    else
      var butlast, last := items[..n - 1], items[n - 1];
      var without := Recurrence(butlast, w);
      if last.weight > w then without
      else Max(without, Recurrence(butlast, w - last.weight) + last.value)
  }

  // ---------------------------------------------------------------------------
  // Selections of items, the independent meaning of a knapsack value

  /** The total value of the items `take` marks. */
  function SelectedValue(items: seq<Item>, take: seq<bool>): int
    requires |take| == |items|
    decreases |items|
  {
    if |items| == 0 then 0
    else
      var n := |items|;
      SelectedValue(items[..n - 1], take[..n - 1]) + (if take[n - 1] then items[n - 1].value else 0)
  }

  /** The total weight of the items `take` marks. */
  function SelectedWeight(items: seq<Item>, take: seq<bool>): nat
    requires |take| == |items|
    decreases |items|
  {
    if |items| == 0 then 0
    else
      var n := |items|;
      SelectedWeight(items[..n - 1], take[..n - 1]) + (if take[n - 1] then items[n - 1].weight else 0)
  }

  /** The selection the recurrence's choices describe. */
  function Choice(items: seq<Item>, w: nat): (take: seq<bool>)
    requires |items| >= 1
    ensures |take| == |items|
    decreases |items|
  {
    var n := |items|;
    if n == 1 then [items[0].weight <= w]
    else
      var butlast, last := items[..n - 1], items[n - 1];
      if last.weight <= w && Recurrence(butlast, w - last.weight) + last.value > Recurrence(butlast, w)
      then Choice(butlast, w - last.weight) + [true]
      else Choice(butlast, w) + [false]
  }

  /** The recurrence's value is achieved by a selection that fits. */
  lemma {:induction false} RecurrenceAchieved(items: seq<Item>, w: nat)
    requires |items| >= 1
    ensures SelectedWeight(items, Choice(items, w)) <= w
    ensures SelectedValue(items, Choice(items, w)) == Recurrence(items, w)
    decreases |items|
  {
    var n := |items|;
    if n == 1 {
      var take := Choice(items, w);
      assert take[..0] == [] && items[..0] == [];
    } else {
      var butlast, last := items[..n - 1], items[n - 1];
      if last.weight <= w && Recurrence(butlast, w - last.weight) + last.value > Recurrence(butlast, w) {
        ChoiceTakesLast(items, w);
        RecurrenceAchieved(butlast, w - last.weight);
      } else {
        ChoiceSkipsLast(items, w);
        RecurrenceAchieved(butlast, w);
      }
    }
  }

  /** When the recurrence takes the last item, value and weight follow the prefix's choice at the reduced capacity. */
  lemma ChoiceTakesLast(items: seq<Item>, w: nat)
    requires |items| >= 2
    requires var n := |items|;
      items[n - 1].weight <= w && Recurrence(items[..n - 1], w - items[n - 1].weight) + items[n - 1].value > Recurrence(items[..n - 1], w)
    ensures var n := |items|;
      var rest := Choice(items[..n - 1], w - items[n - 1].weight);
      && Recurrence(items, w) == Recurrence(items[..n - 1], w - items[n - 1].weight) + items[n - 1].value
      && SelectedValue(items, Choice(items, w)) == SelectedValue(items[..n - 1], rest) + items[n - 1].value
      && SelectedWeight(items, Choice(items, w)) == SelectedWeight(items[..n - 1], rest) + items[n - 1].weight
  {
    var n := |items|;
    var take := Choice(items, w);
    assert take[..n - 1] == Choice(items[..n - 1], w - items[n - 1].weight) && take[n - 1];
  }

  /** When the recurrence skips the last item, value and weight are the prefix's at the same capacity. */
  lemma ChoiceSkipsLast(items: seq<Item>, w: nat)
    requires |items| >= 2
    requires var n := |items|;
      !(items[n - 1].weight <= w && Recurrence(items[..n - 1], w - items[n - 1].weight) + items[n - 1].value > Recurrence(items[..n - 1], w))
    ensures var n := |items|;
      var rest := Choice(items[..n - 1], w);
      && Recurrence(items, w) == Recurrence(items[..n - 1], w)
      && SelectedValue(items, Choice(items, w)) == SelectedValue(items[..n - 1], rest)
      && SelectedWeight(items, Choice(items, w)) == SelectedWeight(items[..n - 1], rest)
  {
    var n := |items|;
    var take := Choice(items, w);
    assert take[..n - 1] == Choice(items[..n - 1], w) && !take[n - 1];
  }

  /**
   * When the first item's value is not negative, no selection that fits
   * beats the recurrence: together with RecurrenceAchieved, the recurrence
   * is the optimum of the 0/1 knapsack problem.
   */
  lemma {:induction false} RecurrenceOptimal(items: seq<Item>, w: nat, take: seq<bool>)
    requires |items| >= 1 && items[0].value >= 0
    requires |take| == |items| && SelectedWeight(items, take) <= w
    ensures SelectedValue(items, take) <= Recurrence(items, w)
    decreases |items|
  {
    var n := |items|;
    if n > 1 {
      var butlast, last := items[..n - 1], items[n - 1];
      assert butlast[0] == items[0];
      if take[n - 1] {
        RecurrenceOptimal(butlast, w - last.weight, take[..n - 1]);
      } else {
        RecurrenceOptimal(butlast, w, take[..n - 1]);
      }
    } else {
      assert take[..0] == [] && items[..0] == [];
    }
  }

  /** More capacity never lowers the value (the first item's value not negative). */
  lemma {:induction false} RecurrenceMonotone(items: seq<Item>, w: nat, w': nat)
    requires |items| >= 1 && items[0].value >= 0
    requires w <= w'
    ensures Recurrence(items, w) <= Recurrence(items, w')
    decreases |items|
  {
    var n := |items|;
    if n > 1 {
      var butlast, last := items[..n - 1], items[n - 1];
      assert butlast[0] == items[0];
      RecurrenceMonotone(butlast, w, w');
      if last.weight <= w {
        RecurrenceMonotone(butlast, w - last.weight, w' - last.weight);
      }
    }
  }

  function TotalValue(items: seq<Item>): int
    decreases |items|
  {
    if |items| == 0 then 0 else TotalValue(items[..|items| - 1]) + items[|items| - 1].value
  }

  function TotalWeight(items: seq<Item>): nat
    decreases |items|
  {
    if |items| == 0 then 0 else TotalWeight(items[..|items| - 1]) + items[|items| - 1].weight
  }

  /** With room for every item and no negative value, every item is taken. */
  lemma {:induction false} RecurrenceTakesAll(items: seq<Item>, w: nat)
    requires |items| >= 1
    requires forall k :: 0 <= k < |items| ==> items[k].value >= 0
    requires TotalWeight(items) <= w
    ensures Recurrence(items, w) == TotalValue(items)
    decreases |items|
  {
    var n := |items|;
    if n > 1 {
      var butlast, last := items[..n - 1], items[n - 1];
      RecurrenceTakesAll(butlast, w);
      RecurrenceTakesAll(butlast, w - last.weight);
    } else {
      assert items[..0] == [];
    }
  }

  /** The total value of the items that weigh nothing. */
  function ZeroWeightValue(items: seq<Item>): int
    decreases |items|
  {
    if |items| == 0 then 0
    else ZeroWeightValue(items[..|items| - 1]) + (if items[|items| - 1].weight == 0 then items[|items| - 1].value else 0)
  }

  /** With no negative value, the answer at capacity 0 is the value of the weightless items. */
  lemma {:induction false} RecurrenceZeroCapacity(items: seq<Item>)
    requires |items| >= 1
    requires forall k :: 0 <= k < |items| ==> items[k].value >= 0
    ensures Recurrence(items, 0) == ZeroWeightValue(items)
    decreases |items|
  {
    var n := |items|;
    if n > 1 {
      RecurrenceZeroCapacity(items[..n - 1]);
    } else {
      assert items[..0] == [];
    }
  }

  /** A single item counts exactly when it fits: (10, 12) is worth 0 at capacity 5 and 10 at capacity 12. */
  lemma SingleItem()
    ensures Recurrence([Item(10, 12)], 5) == 0
    ensures Recurrence([Item(10, 12)], 12) == 10
  {
  }

  /** The selection of item `k` alone. */
  function Only(n: nat, k: nat): (take: seq<bool>)
    ensures |take| == n
  {
    seq(n, i requires 0 <= i < n => i == k)
  }

  lemma {:induction false} OnlySelected(items: seq<Item>, k: nat)
    requires k < |items|
    ensures SelectedWeight(items, Only(|items|, k)) == items[k].weight
    ensures SelectedValue(items, Only(|items|, k)) == items[k].value
    decreases |items|
  {
    var n := |items|;
    var take := Only(n, k);
    if k < n - 1 {
      OnlySelected(items[..n - 1], k);
      assert take[..n - 1] == Only(n - 1, k);
    } else {
      NoneSelected(items[..n - 1]);
      assert take[..n - 1] == seq(n - 1, i => false);
    }
  }

  lemma {:induction false} NoneSelected(items: seq<Item>)
    ensures SelectedWeight(items, seq(|items|, i => false)) == 0
    ensures SelectedValue(items, seq(|items|, i => false)) == 0
    decreases |items|
  {
    var n := |items|;
    if n > 0 {
      NoneSelected(items[..n - 1]);
      assert seq(n, i => false)[..n - 1] == seq(n - 1, i => false);
    }
  }

  /** With no negative value, no selection is worth more than every item together. */
  lemma {:induction false} SelectedAtMostTotal(items: seq<Item>, take: seq<bool>)
    requires |take| == |items|
    requires forall k :: 0 <= k < |items| ==> items[k].value >= 0
    ensures SelectedValue(items, take) <= TotalValue(items)
    decreases |items|
  {
    var n := |items|;
    if n > 0 {
      SelectedAtMostTotal(items[..n - 1], take[..n - 1]);
    }
  }

  /**
   * With no negative value the recurrence lies between the best single item
   * that fits and the value of all the items together.
   */
  lemma RecurrenceBounds(items: seq<Item>, w: nat, k: nat)
    requires |items| >= 1 && k < |items|
    requires forall j :: 0 <= j < |items| ==> items[j].value >= 0
    ensures Recurrence(items, w) <= TotalValue(items)
    ensures items[k].weight <= w ==> items[k].value <= Recurrence(items, w)
  {
    RecurrenceAchieved(items, w);
    SelectedAtMostTotal(items, Choice(items, w));
    if items[k].weight <= w {
      OnlySelected(items, k);
      RecurrenceOptimal(items, w, Only(|items|, k));
    }
  }

  // ---------------------------------------------------------------------------
  // The recurrence with its base case at the empty prefix

  /**
   * The 0/1 knapsack optimum by the same recurrence, but with the empty
   * prefix (value 0) as its base case instead of the one-item prefix.
   */
  function Best(items: seq<Item>, w: nat): int
    decreases |items|
  {
    if |items| == 0 then 0
    else
      var n := |items|;
      var butlast, last := items[..n - 1], items[n - 1];
      var without := Best(butlast, w);
      if last.weight > w then without
      else Max(without, Best(butlast, w - last.weight) + last.value)
  }

  /** The selection Best's choices describe. */
  function BestChoice(items: seq<Item>, w: nat): (take: seq<bool>)
    ensures |take| == |items|
    decreases |items|
  {
    if |items| == 0 then []
    else
      var n := |items|;
      var butlast, last := items[..n - 1], items[n - 1];
      if last.weight <= w && Best(butlast, w - last.weight) + last.value > Best(butlast, w)
      then BestChoice(butlast, w - last.weight) + [true]
      else BestChoice(butlast, w) + [false]
  }

  /** Best is achieved by a selection that fits. */
  lemma {:induction false} BestAchieved(items: seq<Item>, w: nat)
    ensures SelectedWeight(items, BestChoice(items, w)) <= w
    ensures SelectedValue(items, BestChoice(items, w)) == Best(items, w)
    decreases |items|
  {
    var n := |items|;
    if n > 0 {
      var take := BestChoice(items, w);
      var butlast, last := items[..n - 1], items[n - 1];
      if last.weight <= w && Best(butlast, w - last.weight) + last.value > Best(butlast, w) {
        BestAchieved(butlast, w - last.weight);
        assert take[..n - 1] == BestChoice(butlast, w - last.weight);
      } else {
        BestAchieved(butlast, w);
        assert take[..n - 1] == BestChoice(butlast, w);
      }
    }
  }

  /** No selection that fits beats Best, whatever the signs of the values. */
  lemma {:induction false} BestOptimal(items: seq<Item>, w: nat, take: seq<bool>)
    requires |take| == |items| && SelectedWeight(items, take) <= w
    ensures SelectedValue(items, take) <= Best(items, w)
    decreases |items|
  {
    var n := |items|;
    if n > 0 {
      var butlast, last := items[..n - 1], items[n - 1];
      if take[n - 1] {
        BestOptimal(butlast, w - last.weight, take[..n - 1]);
      } else {
        BestOptimal(butlast, w, take[..n - 1]);
      }
    }
  }

  /** The two base cases agree whenever the first item's value is not negative. */
  lemma {:induction false} RecurrenceIsBest(items: seq<Item>, w: nat)
    requires |items| >= 1 && items[0].value >= 0
    ensures Recurrence(items, w) == Best(items, w)
    decreases |items|
  {
    var n := |items|;
    if n == 1 {
      assert items[..0] == [];
    } else {
      var butlast, last := items[..n - 1], items[n - 1];
      assert butlast[0] == items[0];
      RecurrenceIsBest(butlast, w);
      if last.weight <= w {
        RecurrenceIsBest(butlast, w - last.weight);
      }
    }
  }

  /**
   * An item of negative value that fits is taken by the one-item base case:
   * the recurrence answers -1 where taking nothing is worth 0.
   */
  lemma NegativeFirstItemTaken()
    ensures Recurrence([Item(-1, 0)], 0) == -1
    ensures SelectedWeight([Item(-1, 0)], [false]) <= 0 && SelectedValue([Item(-1, 0)], [false]) == 0
    ensures Best([Item(-1, 0)], 0) == 0
  {
    assert [Item(-1, 0)][..0] == [];
    assert [false][..0] == [];
  }

  // ---------------------------------------------------------------------------
  // The crate's two in-memory tests, value by value along the prefixes the recursion visits

  lemma Knapsack1Prefixes1To4(items: seq<Item>)
    requires items == [Item(4, 1), Item(2, 1), Item(6, 2), Item(7, 3)]
    ensures Recurrence(items[..1], 0) == 0 && Recurrence(items[..1], 1) == 4 &&
      Recurrence(items[..1], 2) == 4 && Recurrence(items[..1], 3) == 4 && Recurrence(items[..1], 4) == 4 &&
      Recurrence(items[..1], 5) == 4
    ensures Recurrence(items[..2], 0) == 0 && Recurrence(items[..2], 2) == 6 &&
      Recurrence(items[..2], 3) == 6 && Recurrence(items[..2], 5) == 6
    ensures Recurrence(items[..3], 2) == 6 && Recurrence(items[..3], 5) == 12
    ensures Recurrence(items, 5) == 13
  {
    assert items[..2][..1] == items[..1];
    assert items[..3][..2] == items[..2];
  }

  /** The crate's `knapsack1` test: four items, capacity 5, value 13. */
  lemma Knapsack1()
    ensures Recurrence([Item(4, 1), Item(2, 1), Item(6, 2), Item(7, 3)], 5) == 13
  {
    Knapsack1Prefixes1To4([Item(4, 1), Item(2, 1), Item(6, 2), Item(7, 3)]);
  }

  lemma Knapsack2Prefixes1To2(items: seq<Item>)
    requires items == [Item(7, 5), Item(2, 5), Item(7, 7), Item(9, 3), Item(5, 9), Item(4, 1), Item(2, 8), Item(6, 8), Item(1, 9), Item(7, 7)]
    ensures Recurrence(items[..1], 0) == 0 && Recurrence(items[..1], 1) == 0 &&
      Recurrence(items[..1], 2) == 0 && Recurrence(items[..1], 3) == 0 && Recurrence(items[..1], 4) == 0 &&
      Recurrence(items[..1], 5) == 7 && Recurrence(items[..1], 6) == 7 && Recurrence(items[..1], 7) == 7 &&
      Recurrence(items[..1], 8) == 7 && Recurrence(items[..1], 9) == 7 && Recurrence(items[..1], 10) == 7 &&
      Recurrence(items[..1], 11) == 7 && Recurrence(items[..1], 12) == 7 &&
      Recurrence(items[..1], 13) == 7 && Recurrence(items[..1], 14) == 7 &&
      Recurrence(items[..1], 15) == 7 && Recurrence(items[..1], 16) == 7 &&
      Recurrence(items[..1], 17) == 7 && Recurrence(items[..1], 18) == 7 &&
      Recurrence(items[..1], 19) == 7 && Recurrence(items[..1], 20) == 7 &&
      Recurrence(items[..1], 21) == 7 && Recurrence(items[..1], 22) == 7 &&
      Recurrence(items[..1], 23) == 7 && Recurrence(items[..1], 24) == 7 &&
      Recurrence(items[..1], 25) == 7 && Recurrence(items[..1], 26) == 7 &&
      Recurrence(items[..1], 27) == 7 && Recurrence(items[..1], 28) == 7 &&
      Recurrence(items[..1], 29) == 7 && Recurrence(items[..1], 30) == 7 &&
      Recurrence(items[..1], 31) == 7 && Recurrence(items[..1], 32) == 7 &&
      Recurrence(items[..1], 33) == 7 && Recurrence(items[..1], 34) == 7 &&
      Recurrence(items[..1], 35) == 7 && Recurrence(items[..1], 36) == 7 &&
      Recurrence(items[..1], 37) == 7 && Recurrence(items[..1], 39) == 7 && Recurrence(items[..1], 40) == 7
    ensures Recurrence(items[..2], 0) == 0 && Recurrence(items[..2], 1) == 0 &&
      Recurrence(items[..2], 2) == 0 && Recurrence(items[..2], 3) == 0 && Recurrence(items[..2], 4) == 0 &&
      Recurrence(items[..2], 5) == 7 && Recurrence(items[..2], 6) == 7 && Recurrence(items[..2], 7) == 7 &&
      Recurrence(items[..2], 8) == 7 && Recurrence(items[..2], 9) == 7 && Recurrence(items[..2], 10) == 9 &&
      Recurrence(items[..2], 11) == 9 && Recurrence(items[..2], 12) == 9 &&
      Recurrence(items[..2], 13) == 9 && Recurrence(items[..2], 14) == 9 &&
      Recurrence(items[..2], 15) == 9 && Recurrence(items[..2], 16) == 9 &&
      Recurrence(items[..2], 17) == 9 && Recurrence(items[..2], 18) == 9 &&
      Recurrence(items[..2], 19) == 9 && Recurrence(items[..2], 20) == 9 &&
      Recurrence(items[..2], 21) == 9 && Recurrence(items[..2], 22) == 9 &&
      Recurrence(items[..2], 23) == 9 && Recurrence(items[..2], 24) == 9 &&
      Recurrence(items[..2], 25) == 9 && Recurrence(items[..2], 26) == 9 &&
      Recurrence(items[..2], 27) == 9 && Recurrence(items[..2], 28) == 9 &&
      Recurrence(items[..2], 29) == 9 && Recurrence(items[..2], 30) == 9 &&
      Recurrence(items[..2], 31) == 9 && Recurrence(items[..2], 32) == 9 &&
      Recurrence(items[..2], 33) == 9 && Recurrence(items[..2], 36) == 9 &&
      Recurrence(items[..2], 37) == 9 && Recurrence(items[..2], 39) == 9 && Recurrence(items[..2], 40) == 9
  {
    assert items[..2][..1] == items[..1];
  }

  lemma Knapsack2Prefixes3To4(items: seq<Item>)
    requires items == [Item(7, 5), Item(2, 5), Item(7, 7), Item(9, 3), Item(5, 9), Item(4, 1), Item(2, 8), Item(6, 8), Item(1, 9), Item(7, 7)]
    ensures Recurrence(items[..3], 2) == 0 && Recurrence(items[..3], 3) == 0 &&
      Recurrence(items[..3], 4) == 0 && Recurrence(items[..3], 5) == 7 && Recurrence(items[..3], 6) == 7 &&
      Recurrence(items[..3], 7) == 7 && Recurrence(items[..3], 8) == 7 && Recurrence(items[..3], 10) == 9 &&
      Recurrence(items[..3], 11) == 9 && Recurrence(items[..3], 12) == 14 &&
      Recurrence(items[..3], 13) == 14 && Recurrence(items[..3], 14) == 14 &&
      Recurrence(items[..3], 15) == 14 && Recurrence(items[..3], 16) == 14 &&
      Recurrence(items[..3], 17) == 16 && Recurrence(items[..3], 18) == 16 &&
      Recurrence(items[..3], 19) == 16 && Recurrence(items[..3], 20) == 16 &&
      Recurrence(items[..3], 21) == 16 && Recurrence(items[..3], 22) == 16 &&
      Recurrence(items[..3], 23) == 16 && Recurrence(items[..3], 24) == 16 &&
      Recurrence(items[..3], 25) == 16 && Recurrence(items[..3], 27) == 16 &&
      Recurrence(items[..3], 28) == 16 && Recurrence(items[..3], 29) == 16 &&
      Recurrence(items[..3], 30) == 16 && Recurrence(items[..3], 31) == 16 &&
      Recurrence(items[..3], 32) == 16 && Recurrence(items[..3], 33) == 16 &&
      Recurrence(items[..3], 36) == 16 && Recurrence(items[..3], 37) == 16 &&
      Recurrence(items[..3], 39) == 16 && Recurrence(items[..3], 40) == 16
    ensures Recurrence(items[..4], 5) == 9 && Recurrence(items[..4], 6) == 9 &&
      Recurrence(items[..4], 7) == 9 && Recurrence(items[..4], 8) == 16 &&
      Recurrence(items[..4], 13) == 18 && Recurrence(items[..4], 14) == 18 &&
      Recurrence(items[..4], 15) == 23 && Recurrence(items[..4], 16) == 23 &&
      Recurrence(items[..4], 17) == 23 && Recurrence(items[..4], 21) == 25 &&
      Recurrence(items[..4], 22) == 25 && Recurrence(items[..4], 23) == 25 &&
      Recurrence(items[..4], 24) == 25 && Recurrence(items[..4], 25) == 25 &&
      Recurrence(items[..4], 30) == 25 && Recurrence(items[..4], 31) == 25 &&
      Recurrence(items[..4], 32) == 25 && Recurrence(items[..4], 33) == 25 &&
      Recurrence(items[..4], 39) == 25 && Recurrence(items[..4], 40) == 25
  {
    Knapsack2Prefixes1To2(items);
    assert items[..3][..2] == items[..2];
    assert items[..4][..3] == items[..3];
  }

  lemma Knapsack2Prefix5(items: seq<Item>)
    requires items == [Item(7, 5), Item(2, 5), Item(7, 7), Item(9, 3), Item(5, 9), Item(4, 1), Item(2, 8), Item(6, 8), Item(1, 9), Item(7, 7)]
    ensures Recurrence(items[..5], 7) == 9 && Recurrence(items[..5], 8) == 16 &&
      Recurrence(items[..5], 14) == 18 && Recurrence(items[..5], 15) == 23 &&
      Recurrence(items[..5], 16) == 23 && Recurrence(items[..5], 17) == 23 &&
      Recurrence(items[..5], 22) == 25 && Recurrence(items[..5], 23) == 25 &&
      Recurrence(items[..5], 24) == 28 && Recurrence(items[..5], 25) == 28 &&
      Recurrence(items[..5], 30) == 30 && Recurrence(items[..5], 31) == 30 &&
      Recurrence(items[..5], 32) == 30 && Recurrence(items[..5], 33) == 30 &&
      Recurrence(items[..5], 39) == 30 && Recurrence(items[..5], 40) == 30
  {
    Knapsack2Prefixes3To4(items);
    assert items[..5][..4] == items[..4];
  }

  lemma Knapsack2Prefix6(items: seq<Item>)
    requires items == [Item(7, 5), Item(2, 5), Item(7, 7), Item(9, 3), Item(5, 9), Item(4, 1), Item(2, 8), Item(6, 8), Item(1, 9), Item(7, 7)]
    ensures Recurrence(items[..6], 8) == 16 && Recurrence(items[..6], 15) == 23 &&
      Recurrence(items[..6], 16) == 27 && Recurrence(items[..6], 17) == 27 &&
      Recurrence(items[..6], 23) == 29 && Recurrence(items[..6], 24) == 29 &&
      Recurrence(items[..6], 25) == 32 && Recurrence(items[..6], 31) == 34 &&
      Recurrence(items[..6], 32) == 34 && Recurrence(items[..6], 33) == 34 && Recurrence(items[..6], 40) == 34
  {
    Knapsack2Prefix5(items);
    assert items[..6][..5] == items[..5];
  }

  lemma Knapsack2Prefixes7To8(items: seq<Item>)
    requires items == [Item(7, 5), Item(2, 5), Item(7, 7), Item(9, 3), Item(5, 9), Item(4, 1), Item(2, 8), Item(6, 8), Item(1, 9), Item(7, 7)]
    ensures Recurrence(items[..7], 16) == 27 && Recurrence(items[..7], 23) == 29 &&
      Recurrence(items[..7], 24) == 29 && Recurrence(items[..7], 25) == 32 &&
      Recurrence(items[..7], 31) == 34 && Recurrence(items[..7], 32) == 34 &&
      Recurrence(items[..7], 33) == 34 && Recurrence(items[..7], 40) == 36
    ensures Recurrence(items[..8], 24) == 33 && Recurrence(items[..8], 31) == 35 &&
      Recurrence(items[..8], 33) == 38 && Recurrence(items[..8], 40) == 40
  {
    Knapsack2Prefix6(items);
    assert items[..7][..6] == items[..6];
    assert items[..8][..7] == items[..7];
  }

  lemma Knapsack2Prefixes9To10(items: seq<Item>)
    requires items == [Item(7, 5), Item(2, 5), Item(7, 7), Item(9, 3), Item(5, 9), Item(4, 1), Item(2, 8), Item(6, 8), Item(1, 9), Item(7, 7)]
    ensures Recurrence(items[..9], 33) == 38 && Recurrence(items[..9], 40) == 40
    ensures Recurrence(items, 40) == 45
  {
    Knapsack2Prefixes7To8(items);
    assert items[..9][..8] == items[..8];
  }

  /** The crate's `knapsack2` test: ten items, capacity 40, value 45. */
  lemma Knapsack2()
    ensures Recurrence([Item(7, 5), Item(2, 5), Item(7, 7), Item(9, 3), Item(5, 9), Item(4, 1), Item(2, 8), Item(6, 8), Item(1, 9), Item(7, 7)], 40) == 45
  {
    Knapsack2Prefixes9To10([Item(7, 5), Item(2, 5), Item(7, 7), Item(9, 3), Item(5, 9), Item(4, 1), Item(2, 8), Item(6, 8), Item(1, 9), Item(7, 7)]);
  }

  // ---------------------------------------------------------------------------
  // The memoized solver

  /** Every entry of cache slot `i` holds the recurrence's value for the prefix of length `i + 1`. */
  ghost predicate SlotAgrees(items: seq<Item>, slots: seq<map<nat, int>>, i: nat)
    requires i < |items| && i < |slots|
  {
    forall w :: w in slots[i] ==> slots[i][w] == Recurrence(items[..i + 1], w)
  }

  /** Every cached entry, in every slot that stands for a prefix of `items`, is right. */
  ghost predicate CacheAgrees(items: seq<Item>, slots: seq<map<nat, int>>) {
    forall i :: 0 <= i < |items| && i < |slots| ==> SlotAgrees(items, slots, i)
  }

  /** Entries once made are kept. */
  ghost predicate Extends(before: map<nat, int>, after: map<nat, int>) {
    forall w :: w in before ==> w in after && after[w] == before[w]
  }

  lemma CacheAgreesPrefix(items: seq<Item>, k: nat, slots: seq<map<nat, int>>)
    requires k <= |items| && CacheAgrees(items, slots)
    ensures CacheAgrees(items[..k], slots)
  {
    forall i | 0 <= i < k && i < |slots|
      ensures SlotAgrees(items[..k], slots, i)
    {
      assert SlotAgrees(items, slots, i);
      assert items[..k][..i + 1] == items[..i + 1];
    }
  }

  /**
   * Storing the right value for the whole of `items` in its slot keeps a
   * cache whose lower slots are right for the shorter prefix.
   */
  lemma CacheAgreesInsert(items: seq<Item>, slots: seq<map<nat, int>>, weight: nat)
    requires 2 <= |items| <= |slots|
    requires CacheAgrees(items[..|items| - 1], slots)
    requires SlotAgrees(items, slots, |items| - 1)
    ensures var slot: map<nat, int> := slots[|items| - 1][weight := Recurrence(items, weight)];
      CacheAgrees(items, slots[|items| - 1 := slot])
  {
    var n := |items|;
    var slot: map<nat, int> := slots[n - 1][weight := Recurrence(items, weight)];
    var slots' := slots[n - 1 := slot];
    forall i | 0 <= i < n && i < |slots'|
      ensures SlotAgrees(items, slots', i)
    {
      if i < n - 1 {
        LowerSlotAgrees(items, slots, slots', i);
      } else {
        assert items[..n] == items;
      }
    }
  }

  /** A slot below the last is right for `items` when it is right for `items` without its last item. */
  lemma LowerSlotAgrees(items: seq<Item>, slots: seq<map<nat, int>>, slots': seq<map<nat, int>>, i: nat)
    requires i < |items| - 1 && i < |slots| && i < |slots'| && slots'[i] == slots[i]
    requires CacheAgrees(items[..|items| - 1], slots)
    ensures SlotAgrees(items, slots', i)
  {
    assert SlotAgrees(items[..|items| - 1], slots, i);
    assert items[..|items| - 1][..i + 1] == items[..i + 1];
  }

  /**
   * `caching_knapsack`: answers from slot `|items| - 1` when it holds
   * `weight`; otherwise computes the recurrence, with the two recursive
   * calls sharing the cache, and (for two or more items) stores the result
   * in that slot. Lower slots only gain entries that agree with the
   * recurrence; higher slots are not touched.
   */
  method CachingKnapsack(items: seq<Item>, weight: nat, store: array<map<nat, int>>) returns (r: int)
    requires 1 <= |items| <= store.Length
    requires CacheAgrees(items, store[..])
    modifies store
    ensures r == Recurrence(items, weight)
    ensures CacheAgrees(items, store[..])
    ensures forall i :: 0 <= i < store.Length ==> Extends(old(store[i]), store[i])
    ensures forall i :: |items| <= i < store.Length ==> store[i] == old(store[i])
    ensures store[|items| - 1] ==
      if |items| == 1 then old(store[|items| - 1]) else old(store[|items| - 1])[weight := r]
    ensures old(weight in store[|items| - 1]) ==>
      r == old(store[|items| - 1][weight]) && store[..] == old(store[..])
    decreases |items|
  {
    var n := |items|;
    assert SlotAgrees(items, store[..], n - 1);
    assert items[..n] == items;
    if weight in store[n - 1] {
      return store[n - 1][weight];
    }
    if n == 1 {
      r := if items[0].weight <= weight then items[0].value else 0;
    } else {
      var butlast, last := items[..n - 1], items[n - 1];
      CacheAgreesPrefix(items, n - 1, store[..]);
      var without := CachingKnapsack(butlast, weight, store);
      if last.weight > weight {
        r := without;
      } else {
        var with := CachingKnapsack(butlast, weight - last.weight, store);
        r := Max(without, with + last.value);
      }
      assert SlotAgrees(items, store[..], n - 1);
      CacheAgreesInsert(items, store[..], weight);
      store[n - 1] := store[n - 1][weight := r];
    }
  }

  /**
   * `knapsack`: allocates `|items| + 1` empty caches and runs
   * `caching_knapsack` over all items. With no items the subtraction
   * `items.len() - 1` underflows and panics.
   */
  method Knapsack(items: seq<Item>, weight: nat) returns (r: Result<int>)
    ensures |items| == 0 ==> r == Err(ArithmeticOverflow)
    ensures |items| >= 1 ==> r == Ok(Recurrence(items, weight))
  {
    var store := new map<nat, int>[|items| + 1](_ => map[]);
    if |items| == 0 {
      return Err(ArithmeticOverflow);
    }
    var v := CachingKnapsack(items, weight, store);
    return Ok(v);
  }
}
