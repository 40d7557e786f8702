/** The three constant discount tables and the dispatch from a table number
    to its discount (`premium_discount` in premium_discount.py). */
module Tables {
  import opened Brackets

  const Table1: seq<Layer> := [
    Layer(0, 5000, 0.0),
    Layer(5000, 100000, 0.095),
    Layer(100000, 500000, 0.119),
    Layer(500000, 1000000000, 0.124)
  ]

  const Table7: seq<Layer> := [
    Layer(0, 5000, 0.0),
    Layer(5000, 100000, 0.109),
    Layer(100000, 500000, 0.126),
    Layer(500000, 1000000000, 0.144)
  ]

  const Table9: seq<Layer> := [
    Layer(0, 10000, 0.0),
    Layer(10000, 200000, 0.091),
    Layer(200000, 1750000, 0.113),
    Layer(1750000, 1000000000, 0.123)
  ]

  predicate KnownTable(tableNumber: int) {
    tableNumber == 1 || tableNumber == 7 || tableNumber == 9
  }

  /** The layers behind a table number; a number without a table has no
      layers, and so no discount. */
  function TableLayers(tableNumber: int): seq<Layer> {
    if tableNumber == 1 then Table1
    else if tableNumber == 7 then Table7
    else if tableNumber == 9 then Table9
    else []
  }

  /** Each constant table starts at 0 with a rate-0 layer, is contiguous and
      strictly ascending, and has every rate in [0, 1). */
  lemma TablesWellFormed()
    ensures WellFormed(Table1) && WellFormed(Table7) && WellFormed(Table9)
  {
  }

  /** The discount for `premium` under table `tableNumber`: the layered
      discount of tables 1, 7 and 9, and 0 for every other number. */
  method PremiumDiscount(premium: int, tableNumber: int) returns (discount: real)
    ensures discount == Discount(premium, TableLayers(tableNumber))
    ensures tableNumber == 1 ==> discount == Discount(premium, Table1)
    ensures tableNumber == 7 ==> discount == Discount(premium, Table7)
    ensures tableNumber == 9 ==> discount == Discount(premium, Table9)
    ensures !KnownTable(tableNumber) ==> discount == 0.0
    ensures 0.0 <= discount <= SumCaps(TableLayers(tableNumber))
  {
    TablesWellFormed();
    WellFormedIsSane(Table1);
    WellFormedIsSane(Table7);
    WellFormedIsSane(Table9);
    discount := 0.0;
    if tableNumber == 1 {
      discount := DiscountGivenLayers(premium, Table1);
    }
    if tableNumber == 7 {
      discount := DiscountGivenLayers(premium, Table7);
    }
    if tableNumber == 9 {
      discount := DiscountGivenLayers(premium, Table9);
    }
  }

  /** Every table's layers are well formed, or there are none. */
  lemma TableLayersWellFormed(tableNumber: int)
    ensures KnownTable(tableNumber) ==> WellFormed(TableLayers(tableNumber))
    ensures !KnownTable(tableNumber) ==> TableLayers(tableNumber) == []
    ensures AllSane(TableLayers(tableNumber))
  {
    TablesWellFormed();
    if KnownTable(tableNumber) {
      WellFormedIsSane(TableLayers(tableNumber));
    }
  }

  /** Under every table number the discount never falls as the premium grows. */
  lemma TableDiscountMonotone(p: int, q: int, tableNumber: int)
    requires p <= q
    ensures Discount(p, TableLayers(tableNumber)) <= Discount(q, TableLayers(tableNumber))
  {
    TableLayersWellFormed(tableNumber);
    DiscountMonotone(p, q, TableLayers(tableNumber));
  }

  /** No table grants a discount on a premium of 5000 or less. */
  lemma SmallPremiumNoDiscount(premium: int, tableNumber: int)
    requires premium <= 5000
    ensures Discount(premium, TableLayers(tableNumber)) == 0.0
  {
    TableLayersWellFormed(tableNumber);
    if KnownTable(tableNumber) {
      DiscountZeroInFirstLayer(premium, TableLayers(tableNumber));
    }
  }

  /** Table 1 on a premium of 200000: nothing on the first 5000,
      95000 at 9.5% and 100000 at 11.9%, that is 9025 + 11900. */
  lemma Table1At200000()
    ensures Discount(200000, Table1) == 20925.0
  {
    TablesWellFormed();
    DiscountWithinLayer(200000, Table1, 2);
    var first, second := Table1[..1], Table1[..2];
    assert first[..0] == [];
    assert SumCaps(first) == 0.0;
    assert second[..1] == first;
    assert SumCaps(second) == 9025.0;
    assert Marginal(200000, Table1[2]) == 11900.0;
  }
}
