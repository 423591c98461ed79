/**
 * The profit shown under the record list, and the two sums it comes from:
 *   income  = records.filter { it.type == "Income" }.sumBy { it.amount.toInt() }
 *   expense = the same for "Expense"
 *   profit  = income - expense
 * all in Kotlin `Int` arithmetic, which wraps around. Only the profit is
 * displayed; income and expense are intermediate results. `Throws` stands for the
 * `NumberFormatException` that `toInt()` throws on an amount that is not an
 * integer, which aborts the whole computation.
 */
module Totals {
  import opened Wrappers
  import opened Decimal
  import opened Records

  const Income: string := "Income"
  const Expense: string := "Expense"

  /**
   * What computing the totals does: it throws, or it yields the income and
   * expense sums and the profit, of which the screen displays the profit.
   */
  datatype Totals = Throws | Computed(income: int, expense: int, profit: int)

  /** `filter { it.type == kind }`: exact string comparison, order kept. */
  function OfKind(rs: seq<Record>, kind: string): (fs: seq<Record>)
    ensures |fs| <= |rs|
  {
    if rs == [] then []
    else
      var last := rs[|rs| - 1];
      OfKind(rs[..|rs| - 1], kind) + (if last.kind == kind then [last] else [])
  }

  /** The filtered list holds exactly the records of `rs` of that kind. */
  lemma {:induction false} OfKindMembers(rs: seq<Record>, kind: string)
    ensures forall x :: x in OfKind(rs, kind) <==> x in rs && x.kind == kind
  {
    if rs != [] {
      var init, last := rs[..|rs| - 1], rs[|rs| - 1];
      OfKindMembers(init, kind);
      assert rs == init + [last];
    }
  }

  /** True when every amount in `rs` is accepted by `toInt()`. */
  predicate AllParse(rs: seq<Record>) {
    forall i :: 0 <= i < |rs| ==> ToIntOrNull(rs[i].amount).Some?
  }

  /** `sumBy { it.amount.toInt() }`: a left-to-right `Int` accumulation. */
  function SumBy(rs: seq<Record>): (r: Option<int>)
    ensures r.Some? ==> IsInt(r.value)
  {
    if rs == [] then Some(0)
    else
      match SumBy(rs[..|rs| - 1])
      case None => None
      case Some(acc) =>
        match ToIntOrNull(rs[|rs| - 1].amount)
        case None => None
        case Some(v) => Some(Add32(acc, v))
  }

  /** The mathematical sum of the parsed amounts, without wrap-around. */
  function ExactSum(rs: seq<Record>): int
    requires AllParse(rs)
  {
    if rs == [] then 0 else ExactSum(rs[..|rs| - 1]) + ToIntOrNull(rs[|rs| - 1].amount).value
  }

  /** What computing the totals does for the day's records. */
  function DailyTotals(rs: seq<Record>): (t: Totals)
    ensures t.Computed? <==> SumBy(OfKind(rs, Income)).Some? && SumBy(OfKind(rs, Expense)).Some?
    ensures t.Computed? ==>
              SumBy(OfKind(rs, Income)) == Some(t.income) && SumBy(OfKind(rs, Expense)) == Some(t.expense) &&
              t.profit == Sub32(t.income, t.expense)
  {
    match SumBy(OfKind(rs, Income))
    case None => Throws
    case Some(income) =>
      match SumBy(OfKind(rs, Expense))
      case None => Throws
      case Some(expense) => Computed(income, expense, Sub32(income, expense))
  }

  // ---------------------------------------------------------------------
  // Properties of the totals
  // ---------------------------------------------------------------------

  /** `sumBy` succeeds exactly when every amount parses, and then it is the exact sum wrapped into `Int`. */
  lemma {:induction false} SumByMeaning(rs: seq<Record>)
    ensures SumBy(rs).Some? <==> AllParse(rs)
    ensures AllParse(rs) ==> SumBy(rs) == Some(Wrap32(ExactSum(rs)))
  {
    if rs != [] {
      var init, last := rs[..|rs| - 1], rs[|rs| - 1];
      SumByMeaning(init);
      AllParseSnoc(init, last);
      assert rs == init + [last];
      if AllParse(rs) {
        WrapAccumulate(ExactSum(init), ToIntOrNull(last.amount).value);
      }
    }
  }

  /** Every amount of `rs + [r]` parses iff every amount of `rs` and that of `r` do. */
  lemma AllParseSnoc(rs: seq<Record>, r: Record)
    ensures AllParse(rs + [r]) <==> AllParse(rs) && ToIntOrNull(r.amount).Some?
  {
    var b := rs + [r];
    if AllParse(rs) && ToIntOrNull(r.amount).Some? {
      forall i | 0 <= i < |b| ensures ToIntOrNull(b[i].amount).Some? {
        if i < |rs| { assert b[i] == rs[i]; }
      }
    }
    if AllParse(b) {
      forall i | 0 <= i < |rs| ensures ToIntOrNull(rs[i].amount).Some? {
        assert rs[i] == b[i];
      }
      assert b[|rs|] == r;
    }
  }

  /** Filtering distributes over concatenation. */
  lemma {:induction false} OfKindAppend(a: seq<Record>, b: seq<Record>, kind: string)
    ensures OfKind(a + b, kind) == OfKind(a, kind) + OfKind(b, kind)
    decreases |b|
  {
    if b == [] {
      assert a + b == a;
    } else {
      var init, last := b[..|b| - 1], b[|b| - 1];
      assert (a + b)[..|a + b| - 1] == a + init;
      assert (a + b)[|a + b| - 1] == last;
      OfKindAppend(a, init, kind);
    }
  }

  /** Every amount of the filtered list parses iff every record of that kind in `rs` has a parsing amount. */
  lemma OfKindAllParse(rs: seq<Record>, kind: string)
    ensures AllParse(OfKind(rs, kind)) <==>
            forall x :: x in rs && x.kind == kind ==> ToIntOrNull(x.amount).Some?
  {
    var fs := OfKind(rs, kind);
    OfKindMembers(rs, kind);
    if forall x :: x in rs && x.kind == kind ==> ToIntOrNull(x.amount).Some? {
      forall i | 0 <= i < |fs| ensures ToIntOrNull(fs[i].amount).Some? {
        assert fs[i] in fs;
      }
    }
    if AllParse(fs) {
      forall x | x in rs && x.kind == kind ensures ToIntOrNull(x.amount).Some? {
        assert x in fs;
        var i :| 0 <= i < |fs| && fs[i] == x;
      }
    }
  }

  /**
   * The totals are computed exactly when every record whose kind is "Income"
   * or "Expense" has an amount `toInt()` accepts; records of other kinds are
   * never parsed.
   */
  lemma TotalsDefinedIff(rs: seq<Record>)
    ensures DailyTotals(rs).Computed? <==>
            forall x :: x in rs && (x.kind == Income || x.kind == Expense) ==> ToIntOrNull(x.amount).Some?
  {
    SumByMeaning(OfKind(rs, Income));
    SumByMeaning(OfKind(rs, Expense));
    OfKindAllParse(rs, Income);
    OfKindAllParse(rs, Expense);
  }

  /** A counted record whose amount does not parse (the "" a decoded entry without amount gets) makes the totals throw. */
  lemma UnparseableAmountThrows(a: seq<Record>, r: Record, b: seq<Record>)
    requires r.kind == Income || r.kind == Expense
    requires ToIntOrNull(r.amount).None?
    ensures DailyTotals(a + [r] + b) == Throws
  {
    assert r in a + [r] + b;
    TotalsDefinedIff(a + [r] + b);
  }

  /** Inserting a record of any other kind anywhere leaves the totals unchanged. */
  lemma OtherKindsIgnored(a: seq<Record>, r: Record, b: seq<Record>)
    requires r.kind != Income && r.kind != Expense
    ensures DailyTotals(a + [r] + b) == DailyTotals(a + b)
  {
    assert OfKind([r], Income) == [] && OfKind([r], Expense) == [] by {
      assert [r][..0] == [];
    }
    assert OfKind(a + [r] + b, Income) == OfKind(a + b, Income) by {
      OfKindAppend(a + [r], b, Income);
      OfKindAppend(a, [r], Income);
      OfKindAppend(a, b, Income);
    }
    assert OfKind(a + [r] + b, Expense) == OfKind(a + b, Expense) by {
      OfKindAppend(a + [r], b, Expense);
      OfKindAppend(a, [r], Expense);
      OfKindAppend(a, b, Expense);
    }
  }

  /**
   * Appending an "Income" record, as `addRecord` does, adds its parsed amount
   * to the income (in `Int` arithmetic), leaves the expense alone and moves
   * the profit with the income.
   */
  lemma AppendIncomeTotals(rs: seq<Record>, t: Totals, r: Record, v: int)
    requires DailyTotals(rs) == t && t.Computed?
    requires r.kind == Income && ToIntOrNull(r.amount) == Some(v)
    ensures DailyTotals(rs + [r]) == Computed(Add32(t.income, v), t.expense, Sub32(Add32(t.income, v), t.expense))
  {
    assert Income[0] != Expense[0];
    OfKindSnoc(rs, r, Income);
    OfKindSnoc(rs, r, Expense);
    SumByAppend(OfKind(rs, Income), r, t.income, v);
    DailyTotalsOf(rs + [r], Add32(t.income, v), t.expense);
  }

  /** Appending an "Expense" record adds its parsed amount to the expense and leaves the income alone. */
  lemma AppendExpenseTotals(rs: seq<Record>, t: Totals, r: Record, v: int)
    requires DailyTotals(rs) == t && t.Computed?
    requires r.kind == Expense && ToIntOrNull(r.amount) == Some(v)
    ensures DailyTotals(rs + [r]) == Computed(t.income, Add32(t.expense, v), Sub32(t.income, Add32(t.expense, v)))
  {
    assert Income[0] != Expense[0];
    OfKindSnoc(rs, r, Income);
    OfKindSnoc(rs, r, Expense);
    SumByAppend(OfKind(rs, Expense), r, t.expense, v);
    DailyTotalsOf(rs + [r], t.income, Add32(t.expense, v));
  }

  lemma OfKindSnoc(rs: seq<Record>, r: Record, kind: string)
    ensures r.kind == kind ==> OfKind(rs + [r], kind) == OfKind(rs, kind) + [r]
    ensures r.kind != kind ==> OfKind(rs + [r], kind) == OfKind(rs, kind)
  {
    assert (rs + [r])[..|rs|] == rs;
  }

  lemma DailyTotalsOf(rs: seq<Record>, income: int, expense: int)
    requires SumBy(OfKind(rs, Income)) == Some(income) && SumBy(OfKind(rs, Expense)) == Some(expense)
    ensures DailyTotals(rs) == Computed(income, expense, Sub32(income, expense))
  {
  }

  /** One more element adds its parsed amount to the running `Int` sum. */
  lemma SumByAppend(fs: seq<Record>, r: Record, acc: int, v: int)
    requires SumBy(fs) == Some(acc)
    requires ToIntOrNull(r.amount) == Some(v)
    ensures IsInt(acc) && IsInt(v)
    ensures SumBy(fs + [r]) == Some(Add32(acc, v))
  {
    assert (fs + [r])[..|fs|] == fs;
  }

  lemma {:induction false} ExactSumNonNegative(rs: seq<Record>)
    requires AllParse(rs)
    requires forall i :: 0 <= i < |rs| ==> ToIntOrNull(rs[i].amount).value >= 0
    ensures ExactSum(rs) >= 0
  {
    if rs != [] {
      var init := rs[..|rs| - 1];
      assert forall i :: 0 <= i < |init| ==> init[i] == rs[i];
      ExactSumNonNegative(init);
    }
  }

  /**
   * Without overflow the totals are the plain sums: when every counted amount
   * parses to a non-negative value (as digit-only input does) and each sum
   * fits in `Int`, income and expense are the exact sums and profit is their
   * exact difference.
   */
  lemma TotalsExact(rs: seq<Record>)
    requires AllParse(OfKind(rs, Income)) && AllParse(OfKind(rs, Expense))
    requires forall x :: x in rs && (x.kind == Income || x.kind == Expense) ==>
               ToIntOrNull(x.amount).Some? && ToIntOrNull(x.amount).value >= 0
    requires ExactSum(OfKind(rs, Income)) <= MaxInt && ExactSum(OfKind(rs, Expense)) <= MaxInt
    ensures DailyTotals(rs) == Computed(ExactSum(OfKind(rs, Income)), ExactSum(OfKind(rs, Expense)),
                                            ExactSum(OfKind(rs, Income)) - ExactSum(OfKind(rs, Expense)))
  {
    var fi, fe := OfKind(rs, Income), OfKind(rs, Expense);
    SumByExact(rs, Income);
    SumByExact(rs, Expense);
    DailyTotalsOf(rs, ExactSum(fi), ExactSum(fe));
  }

  /** Without overflow, `sumBy` over one kind is the exact sum. */
  lemma SumByExact(rs: seq<Record>, kind: string)
    requires AllParse(OfKind(rs, kind))
    requires forall x :: x in rs && x.kind == kind ==> ToIntOrNull(x.amount).Some? && ToIntOrNull(x.amount).value >= 0
    requires ExactSum(OfKind(rs, kind)) <= MaxInt
    ensures SumBy(OfKind(rs, kind)) == Some(ExactSum(OfKind(rs, kind)))
    ensures ExactSum(OfKind(rs, kind)) >= 0
  {
    var fs := OfKind(rs, kind);
    forall i | 0 <= i < |fs| ensures ToIntOrNull(fs[i].amount).value >= 0 {
      OfKindMembers(rs, kind);
      assert fs[i] in fs;
    }
    ExactSumNonNegative(fs);
    SumByMeaning(fs);
  }

  /** An empty day computes all-zero totals, so it displays a profit of 0. */
  lemma EmptyDayTotals()
    ensures DailyTotals([]) == Computed(0, 0, 0)
  {
  }

  /** The digits-only input filter does not prevent a crash: ten digits overflow `Int`. */
  lemma TenDigitAmountThrows(description: string)
    ensures DailyTotals([Record(Income, "3000000000", description)]) == Throws
  {
    var s := "3000000000";
    ThreeBillion();
    DigitStringParses(s);
    UnparseableAmountThrows([], Record(Income, s, description), []);
    assert [] + [Record(Income, s, description)] + [] == [Record(Income, s, description)];
  }
}
