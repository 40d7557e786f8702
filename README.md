# Premium discount — a Dafny model

This project models the calculation core of `premium_discount.py`. The
calculator works out the regulatory premium discount of a multi-state
insurance policy.

- **Brackets** (`brackets.dfy`) models `discount_given_layers`. A table is a
  list of layers `[start, end, rate]`. Each layer contributes
  `(premium - start) * rate`, raised to 0 and then lowered to the layer's cap
  `(end - start) * rate`. The contributions are added in layer order. The
  source's loop is the method `DiscountGivenLayers`. It is proved equal to
  the recursive sum `Discount`, and the lemmas state the properties of that
  sum.
- **Tables** (`tables.dfy`) holds the three constant tables
  (`table1_layers`, `table7_layers`, `table9_layers`). It also models
  `premium_discount`, which sends table numbers 1, 7 and 9 to their tables
  and gives 0 for every other number.
- **Allocation** (`allocation.dfy`) models the last part of the script. T is
  the sum of the subject premiums. Every (state, premium) row with a positive
  premium is handled in input order and gets `int(D(s, T) * P(s) / T)`. Here
  `D(s, T)` is the discount of the *total* premium under the state's table.
  The loop is the method `Allocate`, proved equal to the function
  `Allocated`. The lemmas tie `Allocated` to the formula in the script's
  explanation text: the policy discount is the sum over s of
  P(s) / T · D(s, T).

Rates are exact rationals (`real`), so `0.095` means exactly 95/1000. Python's
`int(...)` on a number truncates toward zero. That is `Trunc`, and on the
non-negative values that occur here it equals `Floor`. The state-to-table
lookup is a `map<string, int>` given as input.

## Model

| member | source | states |
|---|---|---|
| `Brackets.Contribution` | premium_discount.py:106-110 | for a layer with start <= end and rate >= 0: the contribution lies in [0, cap]; it is 0 when premium <= start, the full cap when premium >= end, and exactly (premium - start) * rate in between |
| `Brackets.ContributionMonotone` | premium_discount.py:109-110 | one layer's contribution never decreases as the premium grows |
| `Brackets.Discount` | premium_discount.py:103-112 | with every layer in order and no negative rate, the total discount lies between 0 and the sum of the layer caps |
| `Brackets.DiscountGivenLayers` | premium_discount.py:103-112 | the accumulator loop returns exactly the sum of the clamped per-layer contributions, so it lies in [0, sum of caps] |
| `Brackets.DiscountAppend` | premium_discount.py:105-111 | the discount over two runs of layers is the sum of the discounts over each run |
| `Brackets.DiscountSaturated` | premium_discount.py:109-111 | when every layer ends at or below the premium, the discount equals the sum of the caps |
| `Brackets.DiscountBelow` | premium_discount.py:109-111 | when every layer starts at or above the premium, the discount is 0 |
| `Brackets.DiscountMonotone` | premium_discount.py:105-111 | with no negative rate, a larger premium never gets a smaller discount |
| `Brackets.EndBeforeStart` | premium_discount.py:83-100 | in a well-formed table, an earlier layer ends at or before a later layer starts |
| `Brackets.DiscountWithinLayer` | premium_discount.py:104-111 | a premium inside layer k gets the full caps of layers 0..k-1 plus layer k's rate on the amount above its start (marginal, not average, rates) |
| `Brackets.DiscountZeroInFirstLayer` | premium_discount.py:104-111 | in a well-formed table, a premium no larger than the first layer's end gets discount 0 |
| `Brackets.DiscountAcrossLayer` | premium_discount.py:104-111 | continuity at the boundaries: the discount at layer k's end is the discount at its start plus its cap |
| `Brackets.DiscountBeyondLastLayer` | premium_discount.py:104-111 | at or beyond the last layer's end the discount is the sum of all caps |
| `Tables.TablesWellFormed` | premium_discount.py:83-100 | tables 1, 7 and 9 start at 0 with a rate-0 layer, are contiguous and strictly ascending, and have rates in [0, 1) |
| `Tables.TableLayersWellFormed` | premium_discount.py:114-122 | table numbers 1, 7 and 9 have well-formed layers; every other number has none |
| `Tables.PremiumDiscount` | premium_discount.py:114-122 | table numbers 1, 7 and 9 give the layered discount of their own table; any other number gives 0; the result is never negative and never above the table's sum of caps |
| `Tables.TableDiscountMonotone` | premium_discount.py:114-122 | under any table number the discount never decreases as the premium grows |
| `Tables.SmallPremiumNoDiscount` | premium_discount.py:83-100 | no table grants a discount on a premium of 5000 or less |
| `Tables.Table1At200000` | premium_discount.py:83-88 | table 1 at premium 200000 gives exactly 0 + 95000 * 0.095 + 100000 * 0.119 = 20925 |
| `Allocation.Trunc` | premium_discount.py:132 | `int(x)` truncates toward zero: for x >= 0 the result r satisfies 0 <= r <= x < r + 1; for x < 0 it satisfies x <= r <= 0 and r < x + 1 |
| `Allocation.Total` | premium_discount.py:125 | T is at least every subject premium, and T is 0 exactly when every subject premium is 0 |
| `Allocation.Positive` | premium_discount.py:128-131 | the participating rows all have positive premiums, and there are none exactly when every premium is 0 |
| `Allocation.Share` | premium_discount.py:132 | for D >= 0 and P <= T, the truncated share a satisfies 0 <= a <= D * P / T < a + 1 and a <= D |
| `Allocation.Allocated` | premium_discount.py:127-133 | the allocation has at most one entry per row, and every allocated discount is non-negative |
| `Allocation.Allocate` | premium_discount.py:124-133 | the loop gives one entry per row with a positive premium, in input order, with that row's state and a non-negative discount; an all-zero input gives an empty result, and no division by zero happens |
| `Allocation.AllocatedMatchesPositive` | premium_discount.py:127-133 | entry k of the allocation is the k-th participating row's state with its truncated share D(s, T) * P(s) / T |
| `Allocation.TotalOfPositive` | premium_discount.py:125-131 | rows with premium 0 add nothing to T |
| `Allocation.AllocationConservation` | premium_discount.py:16-19 | the allocated discounts add up to at most the policy discount, the sum over s of P(s) / T · D(s, T), and to more than that sum minus the number of entries |
| `Allocation.PolicyDiscountOneTable` | premium_discount.py:16-19 | when every participating state uses the same table, the policy discount is that table's discount scaled by the rows' share of T |
| `Allocation.SameTableConservation` | premium_discount.py:124-133 | with one table for all participating states, the allocated discounts add up to at most floor(D(T)) and at least floor(D(T)) minus one less than the number of states |
| `Allocation.SingleStateAllocation` | premium_discount.py:124-133 | with a single participating state, T is that state's premium and the state receives floor(D(s, T)) |
| `Allocation.SingleTable1StateAt200000` | premium_discount.py:124-133 | a policy written entirely in one table-1 state at 200000 is allocated 20925 |

## Left out

- The Streamlit page is not modelled: titles, text, LaTeX, columns, the select boxes, the number inputs and the result tables (premium_discount.py:5-27, 38-77, 134-160). It is presentation only.
- The chained drop-downs are not modelled (premium_discount.py:36-75). Each one removes the states already chosen. The model accepts any rows and does not need state names to be distinct.
- Reading `state_premium_tables.csv` is not modelled, and neither is its cleaning: title-casing, dropping rows without a table, and taking the last character as the table digit (premium_discount.py:28-35). The result is the input map from state to table number.
- The pandas lookup of a state's table and its `int(... .values)` conversion (premium_discount.py:132) become a map lookup. The precondition `Covered` requires every participating state to be in the map. The drop-downs only offer states that have a table, so the source's callers meet it.
- The display tables `table1.csv`, `table7.csv` and `table9.csv` (premium_discount.py:79-81) are not modelled. They are shown and never used in the calculation.
- Binary floating point is not modelled. Rates are exact rationals, so a truncation that a float rounding error pushes one unit lower in Python is not reproduced.
- The form always has exactly five (state, premium) rows (premium_discount.py:125-128). The model takes any number of rows, and five is one case.
- Premiums are whole numbers, as the number inputs with `min_value=0` deliver them. Subject premiums are `nat`. `Discount` takes any `int` premium.
- The allocation loop computes each entry through `Share`, which is `Trunc` of D * P / T. This is the source's expression `int(premium_discount(...) * subject_premium / total_premium)` under one name, not a change of behaviour.
- An unknown table number gives discount 0, as the code does (premium_discount.py:114-122). The model raises no error for it. For the same reason a negative premium is not rejected, and an all-zero input simply yields an empty result.
