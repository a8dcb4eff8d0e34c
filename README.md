# python-arrays: the min/max reducers and the script's loops, in Dafny

`main.py` is a teaching script about arrays and array-like structures. This
project models its computational core: the flag-controlled linear-scan reducer.
The reducer comes in three forms. `min_max` takes a required flag. `min_max2`
defaults the flag to "minimum". `minmaxpro` checks the dynamic types of its
arguments and raises `TypeError` before it scans. The project also models the
script's small loops over arrays, strings and a dictionary.

Modules:

- `Extremes` (`extremes.dfy`) holds the specification functions `Min`, `Max`
  and `Sum`. Each is a left-to-right fold with the same shape as the source's
  loops. `Extreme` picks `Min` or `Max` by the flag. The module also holds the
  lemmas that give those folds their meaning.
- `Reducer` (`reducer.dfy`) holds `MinMax`, `MinMax2` and `MinMaxPro`. Each is a
  method over a numpy integer array, modelled as `array<int>`. Each is proved
  against `Extremes`. None has a `modifies` clause, so none can change the array.
  `minmaxpro`'s arguments are tagged values: `ArrayArg` is a numpy int array, a
  Python list or another value, and `FlagArg` is a genuine bool, an int, a float
  or another value. Its exception is a `Failure(TypeError(message))` result that
  carries the source's two messages.
- `Script` (`script.dfy`) holds the top-level loops. These are the 2-D fill, the
  `people` age and gender updates, the alternating-case string, the backwards
  traversal, the total and the inline min/max scans. It also holds
  `ReducerCalls`, which makes the script's calls to the three reducers.

Python's default arguments become Dafny default parameter values:
`mini: bool := true` and `mini: FlagArg := BoolFlag(true)`. Text the script
prints is returned instead. For example, `Backwards` returns the characters it
would print, in printing order.

## Model

| member | source | states |
|---|---|---|
| `Extremes.Min` | main.py:289-291 | the priming-read scan with strict `<` yields an element of the sequence that is at most every element |
| `Extremes.Max` | main.py:295-297 | the priming-read scan with strict `>` yields an element of the sequence that is at least every element |
| `Extremes.MinCharacterized` | main.py:314-324 | a value is the scan's minimum exactly when it occurs in the sequence and bounds every element from below |
| `Extremes.MaxCharacterized` | main.py:314-324 | a value is the scan's maximum exactly when it occurs in the sequence and bounds every element from above |
| `Extremes.ExtremeSingleton` | main.py:317-319 | on a one-element sequence both modes return that element |
| `Extremes.MinAtMostMax` | main.py:288-298 | the minimum found never exceeds the maximum found |
| `Extremes.Sum` | main.py:278-280 | the total accumulated left to right from 0 equals the first element plus the total of the rest, so the direction of accumulation does not matter |
| `Extremes.SumBounds` | main.py:271-280 | if every element lies in [lo, hi], the total lies in [n·lo, n·hi]; for the random fill from 1 to 10 this gives SIZE ≤ total ≤ 10·SIZE |
| `Extremes.SumWithinExtremes` | main.py:278-298 | n·min ≤ total ≤ n·max, so the average lies between the minimum and the maximum |
| `Reducer.MinMax` | main.py:314-324 | on a non-empty array, with the flag set the result occurs in the array and is ≤ every element; with it clear the result occurs in the array and is ≥ every element; it equals the flag-selected Min/Max of the array and reads the array without changing it |
| `Reducer.MinMax2` | main.py:339-354 | the same guarantees as `MinMax` for any explicit flag; with the flag omitted the result is the minimum |
| `Reducer.MinMaxPro` | main.py:368-386 | a non-numpy-array argument fails with TypeError "array must be a Numpy integer array", whatever the flag; a numpy array with a flag that is not a genuine bool (int, float such as 1.234, other) fails with TypeError "parameter min must be Boolean"; it succeeds exactly when both checks pass, and then returns the flag-selected Min/Max, the value min_max2 returns |
| `Script.FillRows` | main.py:152-154 | after the nested loops every cell in row i holds i + 1 |
| `Script.MakeNum2d` | main.py:143-154 | a fresh ROWS x COLS array whose rows read 1,1,1,1 / 2,2,2,2 / 3,3,3,3 |
| `Script.AgeEveryone` | main.py:184-186 | same names; each person's age is one higher; gender and colour unchanged |
| `Script.Flipped` | main.py:193-196 | the new gender is 'm' exactly when the old one is not 'm', and is always 'm' or 'f' |
| `Script.FlippedTwice` | main.py:192-196 | flipping twice restores a gender of 'm' or 'f' |
| `Script.FlipGenders` | main.py:192-196 | same names; each gender flipped; age and colour unchanged |
| `Script.Upper` | main.py:244 | the upper-cased character is never a lower-case ASCII letter; a lower-case letter becomes the capital of the same letter; other characters are unchanged |
| `Script.AlternateCase` | main.py:241-246 | the new string has the old one's length; even-index characters are unchanged; odd-index characters are upper-cased |
| `Script.Backwards` | main.py:251-252 | the characters are printed in reverse order: the k-th printed is mystring[l-1-k], l of them in all |
| `Script.Total` | main.py:278-280 | the total is the sum of all elements; when every element lies in 1..10 it lies between SIZE and 10·SIZE |
| `Script.InlineMin` | main.py:288-292 | the inline scan computes the minimum, the value `MinMax(rnums, true)` returns |
| `Script.InlineMax` | main.py:294-298 | the inline scan computes the maximum, the value `MinMax(rnums, false)` returns |
| `Script.ReducerCalls` | main.py:326-412 | the inline scans, min_max, min_max2 with and without a flag, and minmaxpro on rnums all give the same min and max; the total lies between n·min and n·max; minmaxpro rejects the list [10,20,30] with the array message and the flag 1.234 with the Boolean message |

## Left out

- Empty arrays: every reducer requires a non-empty array where it reads `arr[0]`. In the source that read raises `IndexError`, and no behaviour is defined for that case. Because `minmaxpro`'s type checks run first, `MinMaxPro` excludes an empty array only when both checks pass. An empty numpy array with a flag that is not a bool is modelled: it fails with the Boolean message.
- Reducer.MinMaxPro: the source's test compares `type(arr)` with the type of an int-dtype numpy array, which is `numpy.ndarray`. So the test accepts every ndarray, whatever its dtype (bool, float, object) and whatever its number of dimensions: a 2-D array passes too. The model has only 1-D int arrays (`NumpyIntArray`), so the other ndarrays that pass the test are not modelled.
- Script.Total: does not model numpy int64 wrap-around. Totals are unbounded integers, and the source's values (five numbers from 1 to 10) cannot overflow.
- Script.Upper: models `str.upper` on ASCII letters only. Unicode case mapping is not modelled, including mappings to several characters, such as 'ß' to "SS", that would change the string's length.
- Random input generation (main.py:271-272) is nondeterministic and only builds example data. The model takes `rnums` as a parameter.
- The float average (main.py:284) is floating point. `SumWithinExtremes` states its consequence on integers instead.
- All printing and formatting, including the format string at main.py:286.
- numpy itself: `np.array`, `np.empty` and `np.zeros` are taken to provide a fixed-size int array (`array<int>`, `array2<int>`).
- The numpy, list, tuple and dictionary walkthroughs (main.py:31-130) and the loops that print `num2d` (main.py:160-167). They print, assign one cell, append or assign one key. The one exception is the loop at main.py:40-41, which sets every cell of `numbers` to 10; it is a plain fill and is left out as demonstration code.
- The colour capitalisation (main.py:202-203) calls the library `str.upper` on whole strings. Bob's colour change (main.py:209) is a single assignment.
- The `people` values are mutable Python lists. The model holds them as immutable `Person` values in a `map`, which the methods return updated. Aliasing between the lists is not modelled. The script has none.
- Concurrency and exceptions other than `TypeError`: the script has neither.
