/** The top-level loops of main.py that compute something over an array, a string
    or a dictionary: the 2-D fill, the people updates, the alternating-case build,
    the backwards traversal, the total and the inline min/max scans, and the calls
    the script makes to the three reducers. Output the script prints is returned
    instead. */
module Script {
  import opened Extremes
  import opened Reducer

  const ROWS: nat := 3
  const COLS: nat := 4

  ////////////////////////////////////////////////////////////////////////////
  // Multi-dimensional arrays
  ////////////////////////////////////////////////////////////////////////////

  /** Fills row i of num2d with i + 1, in place, row by row. */
  method FillRows(num2d: array2<int>)
    modifies num2d
    ensures forall i, j :: 0 <= i < num2d.Length0 && 0 <= j < num2d.Length1 ==> num2d[i, j] == i + 1
  {
    for i := 0 to num2d.Length0
      invariant forall r, c :: 0 <= r < i && 0 <= c < num2d.Length1 ==> num2d[r, c] == r + 1
    {
      for j := 0 to num2d.Length1
        invariant forall r, c :: 0 <= r < i && 0 <= c < num2d.Length1 ==> num2d[r, c] == r + 1
        invariant forall c :: 0 <= c < j ==> num2d[i, c] == i + 1
      {
        num2d[i, j] := i + 1;
      }
    }
  }

  /** A fresh ROWS x COLS array of zeros, then filled: rows 1,1,1,1 / 2,2,2,2 / 3,3,3,3. */
  method MakeNum2d() returns (num2d: array2<int>)
    ensures fresh(num2d)
    ensures num2d.Length0 == ROWS && num2d.Length1 == COLS
    ensures forall i, j :: 0 <= i < ROWS && 0 <= j < COLS ==> num2d[i, j] == i + 1
  {
    num2d := new int[ROWS, COLS]((i, j) => 0);
    FillRows(num2d);
  }

  ////////////////////////////////////////////////////////////////////////////
  // A dictionary of people
  ////////////////////////////////////////////////////////////////////////////

  /** The list [age, gender, favourite colour] stored under each name. */
  datatype Person = Person(age: int, gender: char, color: string)

  /** One more year for everyone; gender and colour stay as they were. */
  method AgeEveryone(people: map<string, Person>) returns (aged: map<string, Person>)
    ensures aged.Keys == people.Keys
    ensures forall name :: name in people ==> aged[name] == people[name].(age := people[name].age + 1)
  {
    aged := people;
    var done: set<string> := {};
    while done != people.Keys
      invariant done <= people.Keys
      invariant aged.Keys == people.Keys
      invariant forall name :: name in people ==>
        aged[name] == if name in done then people[name].(age := people[name].age + 1) else people[name]
      decreases people.Keys - done
    {
      assert exists n :: n in people.Keys && n !in done;
      var name :| name in people.Keys && name !in done;
      aged := aged[name := aged[name].(age := aged[name].age + 1)];
      done := done + {name};
    }
  }

  /** The gender flip: 'm' becomes 'f', and every other value becomes 'm'. */
  function Flipped(g: char): (h: char)
    ensures h == 'm' <==> g != 'm'
    ensures h == 'm' || h == 'f'
  {
    if g == 'm' then 'f' else 'm'
  }

  /** On the two values the data uses, flipping twice restores the gender. */
  lemma FlippedTwice(g: char)
    requires g == 'm' || g == 'f'
    ensures Flipped(Flipped(g)) == g
  {
  }

  /** Flips everyone's gender; age and colour stay as they were. */
  method FlipGenders(people: map<string, Person>) returns (flipped: map<string, Person>)
    ensures flipped.Keys == people.Keys
    ensures forall name :: name in people ==>
      flipped[name] == people[name].(gender := Flipped(people[name].gender))
  {
    flipped := people;
    var done: set<string> := {};
    while done != people.Keys
      invariant done <= people.Keys
      invariant flipped.Keys == people.Keys
      invariant forall name :: name in people ==>
        flipped[name] == if name in done then people[name].(gender := Flipped(people[name].gender)) else people[name]
      decreases people.Keys - done
    {
      assert exists n :: n in people.Keys && n !in done;
      var name :| name in people.Keys && name !in done;
      if flipped[name].gender == 'm' {
        flipped := flipped[name := flipped[name].(gender := 'f')];
      } else {
        flipped := flipped[name := flipped[name].(gender := 'm')];
      }
      done := done + {name};
    }
  }

  ////////////////////////////////////////////////////////////////////////////
  // Strings
  ////////////////////////////////////////////////////////////////////////////

  /** str.upper on a single character, for the ASCII letters: a lower-case letter
      becomes the upper-case letter at the same place in the alphabet, and every
      other character is left unchanged. */
  function Upper(c: char): (u: char)
    ensures !('a' <= u <= 'z')
    ensures 'a' <= c <= 'z' ==> 'A' <= u <= 'Z' && u as int - 'A' as int == c as int - 'a' as int
    ensures !('a' <= c <= 'z') ==> u == c
  {
    if 'a' <= c <= 'z' then (c as int - 'a' as int + 'A' as int) as char else c
  }

  /** Builds a copy of mystring with every odd-index character upper-cased,
      appending one character per step. */
  method AlternateCase(mystring: string) returns (newString: string)
    ensures |newString| == |mystring|
    ensures forall i :: 0 <= i < |mystring| && i % 2 == 0 ==> newString[i] == mystring[i]
    ensures forall i :: 0 <= i < |mystring| && i % 2 == 1 ==> newString[i] == Upper(mystring[i])
  {
    var l := |mystring|;
    newString := "";
    for i := 0 to l
      invariant |newString| == i
      invariant forall k :: 0 <= k < i && k % 2 == 0 ==> newString[k] == mystring[k]
      invariant forall k :: 0 <= k < i && k % 2 == 1 ==> newString[k] == Upper(mystring[k])
    {
      if i % 2 != 0 {
        newString := newString + [Upper(mystring[i])];
      } else {
        newString := newString + [mystring[i]];
      }
    }
  }

  /** The characters the backwards traversal prints, in the order it prints them:
      indexes l - 1 down to 0. */
  method Backwards(mystring: string) returns (printed: string)
    ensures |printed| == |mystring|
    ensures forall k :: 0 <= k < |mystring| ==> printed[k] == mystring[|mystring| - 1 - k]
  {
    var l := |mystring|;
    printed := "";
    for i := l downto 0
      invariant |printed| == l - i
      invariant forall k :: 0 <= k < |printed| ==> printed[k] == mystring[l - 1 - k]
    {
      printed := printed + [mystring[i]];
    }
  }

  ////////////////////////////////////////////////////////////////////////////
  // Total, minimum and maximum
  ////////////////////////////////////////////////////////////////////////////

  /** The running total of rnums. */
  method Total(rnums: array<int>) returns (total: int)
    ensures total == Sum(rnums[..])
    ensures (forall k :: 0 <= k < rnums.Length ==> 1 <= rnums[k] <= 10) ==>
      rnums.Length <= total <= 10 * rnums.Length
  {
    total := 0;
    for i := 0 to rnums.Length
      invariant total == Sum(rnums[..i])
    {
      assert rnums[..i + 1][..i] == rnums[..i];
      total := total + rnums[i];
    }
    assert rnums[..rnums.Length] == rnums[..];
    if forall k :: 0 <= k < rnums.Length ==> 1 <= rnums[k] <= 10 {
      SumBounds(rnums[..], 1, 10);
    }
  }

  /** The inline minimum scan: a priming read of element 0, then a replacement by
      each strictly smaller element. */
  method InlineMin(rnums: array<int>) returns (min: int)
    requires rnums.Length > 0
    ensures min == Min(rnums[..])
  {
    min := rnums[0];
    assert rnums[..1] == [rnums[0]];
    for i := 1 to rnums.Length
      invariant min == Min(rnums[..i])
    {
      assert rnums[..i + 1][..i] == rnums[..i];
      if rnums[i] < min { min := rnums[i]; }
    }
    assert rnums[..rnums.Length] == rnums[..];
  }

  /** The inline maximum scan: a priming read of element 0, then a replacement by
      each strictly greater element. */
  method InlineMax(rnums: array<int>) returns (max: int)
    requires rnums.Length > 0
    ensures max == Max(rnums[..])
  {
    max := rnums[0];
    assert rnums[..1] == [rnums[0]];
    for i := 1 to rnums.Length
      invariant max == Max(rnums[..i])
    {
      assert rnums[..i + 1][..i] == rnums[..i];
      if rnums[i] > max { max := rnums[i]; }
    }
    assert rnums[..rnums.Length] == rnums[..];
  }

  /** The script's section on totals and its calls to the reducers, in order. The
      inline scans agree with min_max, min_max2 without a flag returns the minimum,
      minmaxpro agrees with both on rnums, and rejects the list [10, 20, 30] and the
      flag 1.234 with their two messages. */
  method ReducerCalls(rnums: array<int>)
    returns (total: int, min: int, max: int, mm: (int, int), mm2: (int, int),
             pro: (Result<int>, Result<int>), onList: Result<int>, onFloat: Result<int>)
    requires rnums.Length > 0
    ensures rnums.Length * min <= total <= rnums.Length * max
    ensures mm == (min, max) && mm2 == (min, max)
    ensures pro == (Success(min), Success(max))
    ensures onList == Failure(TypeError(ArrayTypeMessage))
    ensures onFloat == Failure(TypeError(FlagTypeMessage))
  {
    total := Total(rnums);
    min := InlineMin(rnums);
    max := InlineMax(rnums);
    SumWithinExtremes(rnums[..]);

    var lo := MinMax(rnums, true);
    var hi := MinMax(rnums, false);
    mm := (lo, hi);

    lo := MinMax2(rnums);
    hi := MinMax2(rnums, false);
    mm2 := (lo, hi);

    var p1 := MinMaxPro(NumpyIntArray(rnums));
    var p2 := MinMaxPro(NumpyIntArray(rnums), BoolFlag(false));
    pro := (p1, p2);

    onList := MinMaxPro(PyList([10, 20, 30]));
    onFloat := MinMaxPro(NumpyIntArray(rnums), FloatFlag(1.234));
  }
}
