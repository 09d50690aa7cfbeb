# AES round constants in Dafny

This project models `go.py`, a script that builds Rcon, the round-constant
table of the AES key expansion (FIPS-197 section 5.2). Entry i of the table,
counted from 0, is {02}^i in GF(2^8). The field arithmetic is the one of
FIPS-197 section 4.2.

The script does three things, and the model does the same:

- `multiply_in_gf2` is a carry-less shift-and-add multiplier. It reduces modulo
  a 9-bit polynomial, which is 0x11B in every call the script makes.
  `GaloisField.Multiply` models it as a `while` loop over the same three
  variables. The loop is proved equal to `Product`, a recursion over the bits
  of `b`. `Product` is then proved to give a field element, to have 0 as zero
  and 1 as unit, and to be FIPS-197 `xtime` when one operand is 2.
- The primary generator starts from `[1]` and appends
  `multiply_in_gf2(2, rc[i-1], 0x11B)` 28 times. The validator then compares
  the result with the literal `expected_rc` table.
  - `RoundConstants.PrimaryTable` builds the list. It proves the list is
    `{02}^0 .. {02}^28`, that it equals the literal table, and that its
    prefixes are the AES-128, AES-192 and AES-256 tables.
  - `RoundConstants.Validate` models the check loop. It returns which of
    Python's outcomes occurs: pass, an `AssertionError` at an index, or an
    `IndexError` when the generated list is too short.
- `compute_rc` is an alternate generator. It applies the shift/conditional-XOR
  step `round + 1` times to the seed 0xCB. `RoundConstants.ComputeRc` models
  it. The model proves `compute_rc(0) == 0x8D` and
  `compute_rc(i + 1) == rc[i]` for every i.

Field values are non-negative integers (`nat`), as in Python. The shifted
operand reaches 0x1FE before it is reduced, so nothing is truncated to a byte.
Four functions define what the source computes; the lemmas about them carry
the proved properties:

- `Bits.Xor` is Python's `^` on non-negative integers, defined one binary
  digit at a time.
- `Bits.Bit` is the bit test: `Bit(x, 8) == 1` is `x & 0x100 != 0`.
- `GaloisField.ShiftReduce` is one step of the multiplier on its left operand
  (go.py:37-39): shift left, then XOR with the modulus when bit 8 is set.
- `RoundConstants.AlternateRc` is the value `compute_rc(round)` returns,
  including the seed itself for `round < 0`.

The two generators are offset by one: `compute_rc(0) == 0x8D` while
`rc[0] == 1`, so `compute_rc(i + 1) == rc[i]`.
`RoundConstants.AlternateFirst` and
`RoundConstants.AlternateAgreesWithPrimary` state this. The offset matches the
print labels: `[i + 1]` for `rc[i]` at go.py:55, and `[i]` for `compute_rc(i)`
at go.py:70.

## Model

| member | source | states |
|---|---|---|
| Bits.XorBound | go.py:36 | XOR of two values below 2^k is below 2^k; accumulating with `^=` never leaves the byte range |
| Bits.BitXor | go.py:38-39 | bit k of `a ^ b` is the sum modulo 2 of the bits k of `a` and `b` |
| GaloisField.Multiply | go.py:32-41 | the loop terminates because `b` halves on each step, and returns `Product(a, b, mod)`; when `a` is a byte and `0x100 <= mod < 0x200`, the result is a byte |
| GaloisField.ShiftReduceBound | go.py:37-39 | for a byte `a` and a 9-bit modulus, `a` is back below 256 after the shift and the conditional reduce |
| GaloisField.ReducedBound | go.py:38-39 | XOR of a 9-bit value with bit 8 set and a 9-bit modulus clears bit 8 |
| GaloisField.ProductBound | go.py:32-41 | the product of a byte by any `b`, with a 9-bit modulus, is a byte |
| GaloisField.ProductWithZero | go.py:33-41 | `multiply_in_gf2(a, 0, mod) == 0` and `multiply_in_gf2(0, b, mod) == 0` |
| GaloisField.ProductWithOne | go.py:33-41 | `multiply_in_gf2(a, 1, mod) == a` for every `a`, and `multiply_in_gf2(1, b, mod) == b` for every byte `b` |
| GaloisField.ShiftReduceLinear | go.py:37-39 | the shift-and-reduce step distributes over XOR, for every modulus |
| GaloisField.ProductShiftLeft | go.py:32-41 | shifting and reducing `a` before multiplying equals shifting and reducing the product |
| GaloisField.ShiftReduceIsXtime | go.py:37-39 | with modulus 0x11B, one shift-and-reduce step on a byte is FIPS-197 `xtime` |
| GaloisField.XtimeBound | go.py:63-65 | `xtime`, the step `compute_rc` repeats and the multiplier computes for operand 2 at go.py:48, maps bytes to bytes |
| GaloisField.DoublingIsXtime | go.py:48 | `multiply_in_gf2(2, x, 0x11B)` and `multiply_in_gf2(x, 2, 0x11B)` equal `xtime(x)` for every byte `x`: `2 * x` below 0x80, else `(2 * x) ^ 0x11B` |
| RoundConstants.XtimePowerBound | go.py:46-48 | repeated `xtime` from a byte stays a byte |
| RoundConstants.XtimePowerAdd | go.py:62-65 | m steps of `xtime` followed by n more are m + n steps |
| RoundConstants.ExpectedStep | go.py:11-15 | each entry of `expected_rc` is `xtime` of the entry before it |
| RoundConstants.ExpectedArePowers | go.py:11-15 | `expected_rc[j] == {02}^j` for every index j of the 29-entry table |
| RoundConstants.PrimaryTable | go.py:43-48 | the list has 29 entries, `rc[0] == 1`, and `rc[i] == multiply_in_gf2(2, rc[i-1], 0x11B)` for 1 <= i <= 28; every entry is `{02}^i` and a byte; the list equals `expected_rc`; its first 10, 8 and 7 entries are `rc_for_aes_128`, `rc_for_aes_192` and `rc_for_aes_256` |
| RoundConstants.Validate | go.py:50-51 | the check passes exactly when `rc` has at least `len(expected)` entries and they equal `expected`; otherwise it names the first index where the values differ (an assertion failure) or where `rc` runs out (an IndexError), and everything before that index agrees |
| RoundConstants.ComputeRc | go.py:60-66 | the loop returns the seed 0xCB after `round + 1` `xtime` steps, or the seed itself when `round < 0` because the range is then empty; the value is a byte |
| RoundConstants.AlternateBound | go.py:60-66 | every value of `compute_rc` is a byte |
| RoundConstants.AlternateFirst | go.py:61-66 | `compute_rc(0) == 0x8D`, `compute_rc(1) == 1`, and `multiply_in_gf2(2, 0x8D, 0x11B) == 1`, so 0x8D is the inverse of {02} |
| RoundConstants.AlternateStep | go.py:62-65 | `compute_rc(r + 1) == xtime(compute_rc(r))` for every `r >= -1` |
| RoundConstants.AlternateAgreesWithPrimary | go.py:53-70 | `compute_rc(i + 1) == {02}^i`, which is `rc[i]`, for every i |
| RoundConstants.AlternateTable | go.py:68-70 | `compute_rc(i)` for i in 0..29 is 0x8D followed by the 29 entries of `expected_rc` |
| RoundConstants.RunScript | go.py:43-70 | the script's run: the primary list equals `expected_rc`, the check passes, and the alternate values are the primary list shifted by one index, after 0x8D |

## Left out

- The `print` calls and their zero-padded hex formatting (go.py:53-55, go.py:68-70). They produce console output only. `RoundConstants.AlternateTable` returns the values the second loop prints.
- Python's list is modelled as a `seq` value. The method reassigns it with one more entry per step, where `rc.append` grows the list in place. Nothing else holds a reference to the list, so aliasing cannot be observed.
- Negative operands of `multiply_in_gf2`. The model takes non-negative integers. The script never passes anything else, and for a negative `b` the Python loop would not terminate.
- GaloisField.Multiply: the byte bound is stated only for moduli in [0x100, 0x200). The script passes only 0x11B, and for other moduli the bound does not hold.
- Field algebra that the script does not rely on, such as commutativity, associativity and inverses of the product in general, is not modelled.
- The comment on go.py:27 names AES-192 above the AES-256 table. It is a typo in a comment and has no behaviour to model.
