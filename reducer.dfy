/** The flag-controlled linear-scan reducers of main.py: min_max, min_max2 (the same
    scan with the flag defaulting to "minimum") and minmaxpro, the validated form
    that checks the dynamic types of its arguments before scanning.

    A numpy integer array is an array<int>. None of the reducers has a modifies
    clause: they only read the array. */
module Reducer {
  import opened Extremes

  /** The exception minmaxpro raises, with the message it carries. */
  datatype TypeError = TypeError(message: string)

  /** Either the reducer's value or the exception raised instead of it. */
  datatype Result<T> = Success(value: T) | Failure(error: TypeError)

  const ArrayTypeMessage: string := "array must be a Numpy integer array"
  const FlagTypeMessage: string := "parameter min must be Boolean"

  /** The dynamic type of minmaxpro's first argument: a numpy integer array, a
      Python list (such as [10, 20, 30]) or any other value. */
  datatype ArrayArg = NumpyIntArray(data: array<int>) | PyList(items: seq<int>) | OtherValue

  /** The dynamic type of minmaxpro's flag: a genuine bool, or a value that Python
      would treat as true or false but whose type is not bool (an int such as 1,
      a float such as 1.234, anything else). */
  datatype FlagArg = BoolFlag(b: bool) | IntFlag(i: int) | FloatFlag(f: real) | OtherFlag

  /** min_max: a priming read of arr[0], then one pass over arr[1..] that replaces
      the accumulator by a strictly smaller (mini) or strictly greater (!mini)
      element. The flag is tested inside the loop, as in the source. */
  method MinMax(arr: array<int>, mini: bool) returns (minmax: int)
    requires arr.Length > 0
    ensures minmax in arr[..]
    ensures mini ==> forall k :: 0 <= k < arr.Length ==> minmax <= arr[k]
    ensures !mini ==> forall k :: 0 <= k < arr.Length ==> arr[k] <= minmax
    ensures minmax == Extreme(arr[..], mini)
  {
    var l := arr.Length;
    minmax := arr[0];
    assert arr[..1] == [arr[0]];
    for i := 1 to l
      invariant minmax == Extreme(arr[..i], mini)
    {
      assert arr[..i + 1][..i] == arr[..i];
      if mini {
        if arr[i] < minmax { minmax := arr[i]; }
      } else {
        if arr[i] > minmax { minmax := arr[i]; }
      }
    }
    assert arr[..l] == arr[..];
  }

  /** min_max2: the body of min_max with the flag defaulting to true, so that a
      call without a flag returns the minimum. */
  method MinMax2(arr: array<int>, mini: bool := true) returns (minmax: int)
    requires arr.Length > 0
    ensures minmax in arr[..]
    ensures mini ==> forall k :: 0 <= k < arr.Length ==> minmax <= arr[k]
    ensures !mini ==> forall k :: 0 <= k < arr.Length ==> arr[k] <= minmax
    ensures minmax == Extreme(arr[..], mini)
  {
    minmax := MinMax(arr, mini);
  }

  /** minmaxpro: rejects a first argument that is not a numpy integer array, then
      a flag that is not a genuine bool, and only then scans; the flag is tested
      once, outside two separate loops. With both checks passed it returns what
      min_max2 returns on the same array and flag. An empty numpy array is
      excluded only when both checks pass: the element read comes after them. */
  method MinMaxPro(x: ArrayArg, mini: FlagArg := BoolFlag(true)) returns (r: Result<int>)
    requires x.NumpyIntArray? && mini.BoolFlag? ==> x.data.Length > 0
    ensures !x.NumpyIntArray? ==> r == Failure(TypeError(ArrayTypeMessage))
    ensures x.NumpyIntArray? && !mini.BoolFlag? ==> r == Failure(TypeError(FlagTypeMessage))
    ensures r.Success? <==> x.NumpyIntArray? && mini.BoolFlag?
    ensures r.Success? ==> r.value == Extreme(x.data[..], mini.b)
  {
    if !x.NumpyIntArray? {
      return Failure(TypeError(ArrayTypeMessage));
    } else if !mini.BoolFlag? {
      return Failure(TypeError(FlagTypeMessage));
    }
    var arr := x.data;
    var l := arr.Length;
    var minmax := arr[0];
    assert arr[..1] == [arr[0]];
    if mini.b {
      for i := 1 to l
        invariant minmax == Min(arr[..i])
      {
        assert arr[..i + 1][..i] == arr[..i];
        if arr[i] < minmax { minmax := arr[i]; }
      }
    } else {
      for i := 1 to l
        invariant minmax == Max(arr[..i])
      {
        assert arr[..i + 1][..i] == arr[..i];
        if arr[i] > minmax { minmax := arr[i]; }
      }
    }
    assert arr[..l] == arr[..];
    r := Success(minmax);
  }
}
