/** The multi-state allocation at the end of premium_discount.py: the total
    premium T fixes the discount D(s, T) of each state's table, and each state
    with a positive subject premium P(s) receives the truncated share
    D(s, T) * P(s) / T. */
module Allocation {
  import opened Brackets
  import opened Tables

  /** One row of the calculator form: a state and its subject premium. */
  datatype SubjectPremium = SubjectPremium(state: string, premium: nat)

  /** One row of the result: a state and its allocated discount. */
  datatype StateDiscount = StateDiscount(state: string, discount: int)

  /** Python's `int(x)` on a number: truncation toward zero. */
  function Trunc(x: real): (r: int)
    ensures 0.0 <= x ==> 0 <= r && r as real <= x < r as real + 1.0
    ensures x < 0.0 ==> r <= 0 && x <= r as real < x + 1.0
  {
    if x >= 0.0 then x.Floor else -((-x).Floor)
  }

  /** The total premium T: the sum of all subject premiums. */
  function Total(rows: seq<SubjectPremium>): (t: nat)
    ensures forall k :: 0 <= k < |rows| ==> rows[k].premium <= t
    ensures t == 0 <==> forall k :: 0 <= k < |rows| ==> rows[k].premium == 0
  {
    if rows == [] then 0
    else Total(rows[..|rows| - 1]) + rows[|rows| - 1].premium
  }

  /** The rows that take part in the allocation, in input order. */
  function Positive(rows: seq<SubjectPremium>): (p: seq<SubjectPremium>)
    ensures |p| <= |rows|
    ensures forall k :: 0 <= k < |p| ==> p[k].premium > 0
    ensures p == [] <==> forall k :: 0 <= k < |rows| ==> rows[k].premium == 0
  {
    if rows == [] then []
    else
      var row := rows[|rows| - 1];
      Positive(rows[..|rows| - 1]) + if row.premium > 0 then [row] else []
  }

  /** Every participating state has a table number. */
  predicate Covered(rows: seq<SubjectPremium>, tables: map<string, int>) {
    forall k :: 0 <= k < |rows| && rows[k].premium > 0 ==> rows[k].state in tables
  }

  predicate WithinTotal(rows: seq<SubjectPremium>, total: nat) {
    forall k :: 0 <= k < |rows| ==> rows[k].premium <= total
  }

  /** A state's exact pro-rata part of `discount`: D(s, T) * P(s) / T. */
  function ProRata(discount: real, premium: nat, total: nat): real
    requires 0 < total
  {
    discount * premium as real / total as real
  }

  /** A state's truncated pro-rata part of `discount`: at least 0, never
      more than the exact part, and less than one unit below it. */
  function Share(discount: real, premium: nat, total: nat): (a: int)
    requires premium <= total && 0 < total
    ensures 0.0 <= discount ==> 0 <= a
    ensures 0.0 <= discount ==>
      a as real <= ProRata(discount, premium, total) < a as real + 1.0
    ensures 0.0 <= discount ==> a as real <= discount
  {
    var exact := ProRata(discount, premium, total);
    assert 0.0 <= discount ==> exact <= discount by {
      if 0.0 <= discount {
        assert discount * premium as real <= discount * total as real;
      }
    }
    Trunc(exact)
  }

  /** The result row for a participating state. */
  function Entry(row: SubjectPremium, tables: map<string, int>, total: nat): StateDiscount
    requires row.state in tables && 0 < row.premium <= total
  {
    StateDiscount(row.state, Share(Discount(total, TableLayers(tables[row.state])), row.premium, total))
  }

  /** What the allocation loop leaves in `res` after the given rows. */
  function Allocated(rows: seq<SubjectPremium>, tables: map<string, int>, total: nat)
    : (res: seq<StateDiscount>)
    requires Covered(rows, tables) && WithinTotal(rows, total)
    ensures |res| <= |rows|
    ensures forall k :: 0 <= k < |res| ==> 0 <= res[k].discount
  {
    if rows == [] then []
    else
      var row := rows[|rows| - 1];
      Allocated(rows[..|rows| - 1], tables, total)
        + if row.premium > 0 then
            TableLayersWellFormed(tables[row.state]);
            [Entry(row, tables, total)]
          else []
  }

  /** The allocation loop: one entry per row with a positive subject
      premium, in input order. */
  method Allocate(rows: seq<SubjectPremium>, tables: map<string, int>)
    returns (res: seq<StateDiscount>)
    requires Covered(rows, tables)
    ensures res == Allocated(rows, tables, Total(rows))
    ensures |res| == |Positive(rows)|
    ensures forall k :: 0 <= k < |res| ==>
      res[k].state == Positive(rows)[k].state && 0 <= res[k].discount
    ensures (forall k :: 0 <= k < |rows| ==> rows[k].premium == 0) ==> res == []
  {
    var total := Total(rows);
    res := [];
    for i := 0 to |rows|
      invariant res == Allocated(rows[..i], tables, total)
    {
      AllocatedNext(rows, tables, total, i);
      var row := rows[i];
      if row.premium > 0 {
        var d := PremiumDiscount(total, tables[row.state]);
        var discount := Share(d, row.premium, total);
        res := res + [StateDiscount(row.state, discount)];
      }
    }
    assert rows[..|rows|] == rows;
    AllocatedMatchesPositive(rows, tables, total);
  }

  lemma AllocatedNext(rows: seq<SubjectPremium>, tables: map<string, int>, total: nat, i: int)
    requires Covered(rows, tables) && WithinTotal(rows, total) && 0 <= i < |rows|
    ensures Allocated(rows[..i + 1], tables, total)
         == Allocated(rows[..i], tables, total)
            + if rows[i].premium > 0 then [Entry(rows[i], tables, total)] else []
  {
    assert rows[..i + 1][..i] == rows[..i];
  }

  lemma {:induction false} PositiveKeeps(rows: seq<SubjectPremium>, tables: map<string, int>, total: nat)
    requires Covered(rows, tables) && WithinTotal(rows, total)
    ensures Covered(Positive(rows), tables) && WithinTotal(Positive(rows), total)
  {
    if rows != [] {
      PositiveKeeps(rows[..|rows| - 1], tables, total);
    }
  }

  /** The allocation has exactly one entry per participating row, in input
      order, carrying that row's state and its truncated share. */
  lemma {:induction false} AllocatedMatchesPositive(rows: seq<SubjectPremium>, tables: map<string, int>, total: nat)
    requires Covered(rows, tables) && WithinTotal(rows, total)
    ensures |Allocated(rows, tables, total)| == |Positive(rows)|
    ensures Covered(Positive(rows), tables) && WithinTotal(Positive(rows), total)
    ensures forall k :: 0 <= k < |Positive(rows)| ==>
      Allocated(rows, tables, total)[k] == Entry(Positive(rows)[k], tables, total)
  {
    PositiveKeeps(rows, tables, total);
    if rows != [] {
      AllocatedMatchesPositive(rows[..|rows| - 1], tables, total);
    }
  }

  /** The policy discount of the formula sum over s of P(s) / T * D(s, T),
      in exact arithmetic. */
  function PolicyDiscount(rows: seq<SubjectPremium>, tables: map<string, int>, total: nat): real
    requires Covered(rows, tables) && 0 < total
  {
    if rows == [] then 0.0
    else
      var row := rows[|rows| - 1];
      PolicyDiscount(rows[..|rows| - 1], tables, total)
        + if row.premium > 0
          then ProRata(Discount(total, TableLayers(tables[row.state])), row.premium, total)
          else 0.0
  }

  function SumDiscounts(res: seq<StateDiscount>): int {
    if res == [] then 0
    else SumDiscounts(res[..|res| - 1]) + res[|res| - 1].discount
  }

  /** Truncation loses less than one unit per participating state: the sum
      of the allocated discounts is at most the policy discount and more
      than the policy discount minus the number of entries. */
  lemma {:induction false} AllocationConservation(rows: seq<SubjectPremium>, tables: map<string, int>, total: nat)
    requires Covered(rows, tables) && WithinTotal(rows, total) && 0 < total
    ensures SumDiscounts(Allocated(rows, tables, total)) as real <= PolicyDiscount(rows, tables, total)
    ensures |Allocated(rows, tables, total)| > 0 ==>
      PolicyDiscount(rows, tables, total)
        < (SumDiscounts(Allocated(rows, tables, total)) + |Allocated(rows, tables, total)|) as real
    ensures |Allocated(rows, tables, total)| == 0 ==> PolicyDiscount(rows, tables, total) == 0.0
  {
    if rows != [] {
      var prefix, row := rows[..|rows| - 1], rows[|rows| - 1];
      AllocationConservation(prefix, tables, total);
      var a := Allocated(prefix, tables, total);
      var pd := PolicyDiscount(prefix, tables, total);
      if row.premium > 0 {
        TableLayersWellFormed(tables[row.state]);
        var d := Discount(total, TableLayers(tables[row.state]));
        var x := ProRata(d, row.premium, total);
        var e := Entry(row, tables, total);
        assert e.discount as real <= x < e.discount as real + 1.0;
        assert PolicyDiscount(rows, tables, total) == pd + x;
        assert Allocated(rows, tables, total) == a + [e];
        assert (a + [e])[..|a|] == a;
        assert SumDiscounts(a + [e]) == SumDiscounts(a) + e.discount;
      } else {
        assert PolicyDiscount(rows, tables, total) == pd;
        assert Allocated(rows, tables, total) == a;
      }
    }
  }

  /** When every participating state uses the same table, the formula's
      policy discount is that table's discount scaled by the share of the
      total the rows carry. */
  lemma {:induction false} PolicyDiscountOneTable(rows: seq<SubjectPremium>, tables: map<string, int>, total: nat, tableNumber: int)
    requires Covered(rows, tables) && 0 < total
    requires forall k :: 0 <= k < |rows| && rows[k].premium > 0 ==> tables[rows[k].state] == tableNumber
    ensures PolicyDiscount(rows, tables, total)
         == ProRata(Discount(total, TableLayers(tableNumber)), Total(rows), total)
  {
    var d := Discount(total, TableLayers(tableNumber));
    if rows == [] {
      ProRataZero(d, total);
    } else {
      var prefix, row := rows[..|rows| - 1], rows[|rows| - 1];
      PolicyDiscountOneTable(prefix, tables, total, tableNumber);
      ProRataAdd(d, Total(prefix), row.premium, total);
      if row.premium == 0 {
        ProRataZero(d, total);
      }
    }
  }

  lemma ProRataZero(d: real, total: nat)
    requires 0 < total
    ensures ProRata(d, 0, total) == 0.0
  {
  }

  lemma ProRataAdd(d: real, a: nat, b: nat, total: nat)
    requires 0 < total
    ensures ProRata(d, a, total) + ProRata(d, b, total) == ProRata(d, a + b, total)
  {
    var t := total as real;
    calc {
      ProRata(d, a, total) + ProRata(d, b, total);
      (d * a as real) / t + (d * b as real) / t;
      (d * a as real + d * b as real) / t;
      { assert d * a as real + d * b as real == d * (a + b) as real; }
      ProRata(d, a + b, total);
    }
  }

  lemma ProRataWhole(d: real, total: nat)
    requires 0 < total
    ensures ProRata(d, total, total) == d
  {
    var t := total as real;
    assert d * t / t == d;
  }

  /** With one table for every participating state and T the sum of the
      rows, the allocated discounts add up to the discount of T, truncated,
      less at most one unit for every state beyond the first. */
  lemma SameTableConservation(rows: seq<SubjectPremium>, tables: map<string, int>, tableNumber: int)
    requires Covered(rows, tables) && 0 < Total(rows)
    requires forall k :: 0 <= k < |rows| && rows[k].premium > 0 ==> tables[rows[k].state] == tableNumber
    ensures SumDiscounts(Allocated(rows, tables, Total(rows)))
         <= Discount(Total(rows), TableLayers(tableNumber)).Floor
    ensures Discount(Total(rows), TableLayers(tableNumber)).Floor
         <= SumDiscounts(Allocated(rows, tables, Total(rows))) + |Allocated(rows, tables, Total(rows))| - 1
  {
    var total := Total(rows);
    var d := Discount(total, TableLayers(tableNumber));
    PolicyDiscountOneTable(rows, tables, total, tableNumber);
    ProRataWhole(d, total);
    AllocationConservation(rows, tables, total);
    AllocatedMatchesPositive(rows, tables, total);
    TotalOfPositive(rows);
    assert Positive(rows) != [];
  }

  lemma {:induction false} TotalOfPositive(rows: seq<SubjectPremium>)
    ensures Total(Positive(rows)) == Total(rows)
  {
    if rows != [] {
      var prefix, row := rows[..|rows| - 1], rows[|rows| - 1];
      TotalOfPositive(prefix);
      var p := Positive(prefix);
      if row.premium > 0 {
        var q := p + [row];
        assert Positive(rows) == q;
        assert q[..|q| - 1] == p;
        assert Total(q) == Total(p) + row.premium;
      } else {
        assert Positive(rows) == p;
      }
    }
  }

  /** A single participating state carries the whole total, so it receives
      the table discount of its own premium, truncated. */
  lemma SingleStateAllocation(rows: seq<SubjectPremium>, tables: map<string, int>, state: string, premium: nat)
    requires Covered(rows, tables)
    requires Positive(rows) == [SubjectPremium(state, premium)]
    ensures Total(rows) == premium
    ensures state in tables
    ensures Allocated(rows, tables, Total(rows))
         == [StateDiscount(state, Discount(premium, TableLayers(tables[state])).Floor)]
  {
    TotalOfPositive(rows);
    assert Positive(rows)[..0] == [];
    AllocatedMatchesPositive(rows, tables, premium);
    TableLayersWellFormed(tables[state]);
    ProRataWhole(Discount(premium, TableLayers(tables[state])), premium);
  }

  /** A policy written entirely in one table-1 state at 200000 gets 20925. */
  lemma SingleTable1StateAt200000(state: string, tables: map<string, int>)
    requires state in tables && tables[state] == 1
    ensures Allocated([SubjectPremium(state, 200000)], tables, 200000)
         == [StateDiscount(state, 20925)]
  {
    var rows := [SubjectPremium(state, 200000)];
    assert rows[..0] == [];
    assert Positive(rows) == rows;
    SingleStateAllocation(rows, tables, state, 200000);
    Table1At200000();
    assert TableLayers(tables[state]) == Table1;
    assert Discount(200000, Table1).Floor == 20925;
  }
}
