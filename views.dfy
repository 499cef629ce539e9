/**
 * The sidebar view of the expense table: the date range defaults to the
 * earliest and latest dates in the table, the payment methods offered are
 * the distinct methods in ascending order (all selected by default), and the
 * filtered table keeps the rows dated within the range, both ends included,
 * whose method is selected, in table order.
 */
module Views {
  import opened Seqs
  import opened Text
  import opened Ledger

  /** A row is shown when its date lies in `[first, last]` and its method is selected. */
  predicate InView(e: Entry, first: int, last: int, selected: seq<string>)
  {
    first <= e.date <= last && e.payment in selected
  }

  /** The row mask `between(first, last) & isin(selected)`. */
  function Keep(first: int, last: int, selected: seq<string>): Entry -> bool
  {
    e => InView(e, first, last, selected)
  }

  /** `df[mask]`: the rows the mask keeps, in table order. */
  function FilterRows(ledger: seq<Entry>, first: int, last: int, selected: seq<string>): seq<Entry>
  {
    Filter(ledger, Keep(first, last, selected))
  }

  /**
   * The filtered table is exactly the rows in view: row `i` is ledger row
   * `idx[i]`, the positions ascend, and a ledger row is used exactly when
   * it is in view.
   */
  lemma {:induction false} FilterRowsExact(ledger: seq<Entry>, first: int, last: int, selected: seq<string>)
    ensures var rows, idx := FilterRows(ledger, first, last, selected), KeptIndices(ledger, Keep(first, last, selected));
      && |rows| == |idx|
      && StrictlyIncreasing(idx)
      && (forall i :: 0 <= i < |idx| ==> idx[i] < |ledger| && rows[i] == ledger[idx[i]])
      && (forall j :: 0 <= j < |ledger| ==> (InView(ledger[j], first, last, selected) <==> j in idx))
  {
    FilterPicksKeptIndices(ledger, Keep(first, last, selected));
  }

  /** A row appears in the filtered table exactly when it is a ledger row in view. */
  lemma FilterRowsMembership(ledger: seq<Entry>, first: int, last: int, selected: seq<string>, e: Entry)
    ensures e in FilterRows(ledger, first, last, selected) <==> e in ledger && InView(e, first, last, selected)
  {
    FilterMembership(ledger, Keep(first, last, selected), e);
  }

  /** Deselecting every payment method empties the table. */
  lemma EmptySelectionShowsNothing(ledger: seq<Entry>, first: int, last: int)
    ensures FilterRows(ledger, first, last, []) == []
  {
    FilterDropsAll(ledger, Keep(first, last, []));
  }

  /** A range whose start lies after its end empties the table. */
  lemma EmptyRangeShowsNothing(ledger: seq<Entry>, first: int, last: int, selected: seq<string>)
    requires last < first
    ensures FilterRows(ledger, first, last, selected) == []
  {
    FilterDropsAll(ledger, Keep(first, last, selected));
  }

  /** Python's `<` on strings orders this sequence strictly, hence without repeats. */
  predicate StrictlySorted(xs: seq<string>)
  {
    forall i, j :: 0 <= i < j < |xs| ==> Less(xs[i], xs[j])
  }

  /** Adds `x` to a sorted list of methods unless it is already there. */
  function Insert(x: string, xs: seq<string>): (r: seq<string>)
    ensures forall y :: y in r <==> y == x || y in xs
  {
    if xs == [] then [x]
    else if x == xs[0] then xs
    else if Less(x, xs[0]) then [x] + xs
    else [xs[0]] + Insert(x, xs[1..])
  }

  lemma SortedCons(h: string, rest: seq<string>)
    requires StrictlySorted(rest)
    requires forall y :: y in rest ==> Less(h, y)
    ensures StrictlySorted([h] + rest)
  {
    var s := [h] + rest;
    forall i, j | 0 <= i < j < |s| ensures Less(s[i], s[j]) {
      assert s[j] == rest[j - 1];
      if i > 0 {
        assert s[i] == rest[i - 1];
      }
    }
  }

  /** Inserting into a strictly sorted list keeps it strictly sorted. */
  lemma {:induction false} InsertSorted(x: string, xs: seq<string>)
    requires StrictlySorted(xs)
    ensures StrictlySorted(Insert(x, xs))
  {
    if xs != [] && x != xs[0] {
      assert StrictlySorted(xs[1..]) by {
        forall i, j | 0 <= i < j < |xs| - 1 ensures Less(xs[1..][i], xs[1..][j]) {
          assert xs[1..][i] == xs[i + 1] && xs[1..][j] == xs[j + 1];
        }
      }
      assert xs == [xs[0]] + xs[1..];
      if Less(x, xs[0]) {
        forall y | y in xs ensures Less(x, y) {
          if y != xs[0] {
            var k :| 0 <= k < |xs| && xs[k] == y;
            LessTransitive(x, xs[0], y);
          }
        }
        SortedCons(x, xs);
      } else {
        LessTotal(x, xs[0]);
        InsertSorted(x, xs[1..]);
        forall y | y in Insert(x, xs[1..]) ensures Less(xs[0], y) {
          if y != x {
            var k :| 0 <= k < |xs[1..]| && xs[1..][k] == y;
            assert y == xs[k + 1];
          }
        }
        SortedCons(xs[0], Insert(x, xs[1..]));
      }
    }
  }

  /** Some ledger row is paid with method `m`. */
  predicate Uses(ledger: seq<Entry>, m: string)
  {
    exists i :: 0 <= i < |ledger| && ledger[i].payment == m
  }

  lemma UsesSnoc(ledger: seq<Entry>)
    requires ledger != []
    ensures forall m :: Uses(ledger, m) <==>
      Uses(ledger[..|ledger| - 1], m) || ledger[|ledger| - 1].payment == m
  {
    var init := ledger[..|ledger| - 1];
    forall m ensures Uses(ledger, m) <==> Uses(init, m) || ledger[|ledger| - 1].payment == m {
      if Uses(init, m) {
        var i :| 0 <= i < |init| && init[i].payment == m;
        assert ledger[i] == init[i];
      }
      if Uses(ledger, m) && ledger[|ledger| - 1].payment != m {
        var i :| 0 <= i < |ledger| && ledger[i].payment == m;
        assert init[i] == ledger[i];
      }
    }
  }

  /**
   * `sorted(df["forma_pagamento"].unique())`: the methods offered in the
   * sidebar are exactly the methods the ledger uses, in strictly ascending
   * order.
   */
  function PaymentMethods(ledger: seq<Entry>): (methods: seq<string>)
    ensures StrictlySorted(methods)
    ensures forall m :: m in methods <==> Uses(ledger, m)
  {
    if ledger == [] then []
    else
      var rest := PaymentMethods(ledger[..|ledger| - 1]);
      UsesSnoc(ledger);
      InsertSorted(ledger[|ledger| - 1].payment, rest);
      Insert(ledger[|ledger| - 1].payment, rest)
  }

  /** No method is offered twice. */
  lemma PaymentMethodsDistinct(ledger: seq<Entry>)
    ensures forall i, j :: 0 <= i < j < |PaymentMethods(ledger)| ==> PaymentMethods(ledger)[i] != PaymentMethods(ledger)[j]
  {
    var methods := PaymentMethods(ledger);
    forall i, j | 0 <= i < j < |methods| ensures methods[i] != methods[j] {
      LessIrreflexive(methods[i]);
    }
  }

  /** `df["data"].min()`: the earliest date in a non-empty table. */
  function MinDate(ledger: seq<Entry>): (d: int)
    requires ledger != []
    ensures forall i :: 0 <= i < |ledger| ==> d <= ledger[i].date
    ensures exists i :: 0 <= i < |ledger| && ledger[i].date == d
  {
    if |ledger| == 1 then ledger[0].date
    else
      var init := ledger[..|ledger| - 1];
      var m := MinDate(init);
      assert forall i :: 0 <= i < |init| ==> init[i] == ledger[i];
      if ledger[|ledger| - 1].date < m then ledger[|ledger| - 1].date else m
  }

  /** `df["data"].max()`: the latest date in a non-empty table. */
  function MaxDate(ledger: seq<Entry>): (d: int)
    requires ledger != []
    ensures forall i :: 0 <= i < |ledger| ==> ledger[i].date <= d
    ensures exists i :: 0 <= i < |ledger| && ledger[i].date == d
  {
    if |ledger| == 1 then ledger[0].date
    else
      var init := ledger[..|ledger| - 1];
      var m := MaxDate(init);
      assert forall i :: 0 <= i < |init| ==> init[i] == ledger[i];
      if m < ledger[|ledger| - 1].date then ledger[|ledger| - 1].date else m
  }

  /**
   * The view the sidebar opens with, the full date range and every method
   * selected, shows the whole table.
   */
  lemma DefaultViewKeepsLedger(ledger: seq<Entry>)
    requires ledger != []
    ensures FilterRows(ledger, MinDate(ledger), MaxDate(ledger), PaymentMethods(ledger)) == ledger
  {
    var keep := Keep(MinDate(ledger), MaxDate(ledger), PaymentMethods(ledger));
    forall i | 0 <= i < |ledger| ensures keep(ledger[i]) {
      assert Uses(ledger, ledger[i].payment);
    }
    FilterKeepsAll(ledger, keep);
  }
}
