/** What each vector operation computes, stated as functions of the
    component sequence: the constructor's validation and normalisation,
    the index checks of get and remove, the elementwise arithmetic, the
    factory function createVector, the squared length and the rendering.
    The classes in module Vector are proved against these functions. */
module Components {
  import opened Js

  /** One error per distinct exception the code throws. TypeError stands
      for what the JavaScript runtime throws on a property access of null
      or undefined, or on `new` applied to undefined. */
  datatype Error =
    | NullInput          // the constructor's input is null
    | MissingValue       // an input element is null or undefined
    | NonNumber          // an element is not a number once strings are parsed
    | MissingIndex       // an index is null or undefined
    | NegativeIndex
    | FractionalIndex
    | MissingComponent   // push of null or undefined
    | MissingVector      // an arithmetic operand is null or undefined
    | DimensionMismatch
    | DivisionByZero
    | EmptyVector        // length of a vector without components
    | NoImplementation   // createVector while no implementation is set
    | TypeError

  datatype Result<+T> = Ok(value: T) | Err(error: Error)

  // ---------------------------------------------------------------------
  // Construction

  predicate IsAbsent(x: JsValue) {
    x.NullValue? || x.UndefinedValue?
  }

  /** The constructor's rewrite of one element: a string becomes what
      parseInt makes of it, anything else stays as it is. */
  function Coerce(x: JsValue): JsValue {
    match x
    case Text(s) => (match ParseInt(s) case Some(n) => Number(n as real) case None => NaN)
    case _ => x
  }

  /** What the constructor makes of its input, its three passes in order:
      reject null, undefined and absent elements; parse the strings;
      reject whatever is not a number or is NaN. */
  function Normalize(input: Arg<seq<JsValue>>): (r: Result<seq<real>>)
    ensures r.Ok? ==> input.Given? && |r.value| == |input.value|
  {
    match input
    case Null => Err(NullInput)
    case Undefined => Err(TypeError)
    case Given(xs) =>
      if exists k | 0 <= k < |xs| :: IsAbsent(xs[k]) then Err(MissingValue)
      else if exists k | 0 <= k < |xs| :: !Coerce(xs[k]).Number? then Err(NonNumber)
      else Ok(seq(|xs|, k requires 0 <= k < |xs| => Coerce(xs[k]).n))
  }

  /** The numbers the constructor accepts as they are, and the strings it
      accepts through parseInt. */
  predicate Acceptable(x: JsValue) {
    x.Number? || (x.Text? && ParseInt(x.s).Some?)
  }

  /** The constructor accepts an array exactly when every element is a
      number (NaN excluded) or a string parseInt reads; it then keeps each
      number as it is and replaces each string by its parseInt value. An
      absent element is reported before any other defect. */
  lemma NormalizeAccepts(xs: seq<JsValue>)
    ensures Normalize(Given(xs)).Ok? <==> forall k | 0 <= k < |xs| :: Acceptable(xs[k])
    ensures (exists k | 0 <= k < |xs| :: IsAbsent(xs[k])) ==> Normalize(Given(xs)) == Err(MissingValue)
    ensures Normalize(Given(xs)).Ok? ==>
      forall k | 0 <= k < |xs| ::
        (xs[k].Number? ==> Normalize(Given(xs)).value[k] == xs[k].n) &&
        (xs[k].Text? ==> ParseInt(xs[k].s) == Some(Normalize(Given(xs)).value[k].Floor) &&
                         Normalize(Given(xs)).value[k] == Normalize(Given(xs)).value[k].Floor as real)
  {
    if Normalize(Given(xs)).Ok? {
      forall k | 0 <= k < |xs| ensures Acceptable(xs[k]) {
        assert !IsAbsent(xs[k]);
        assert Coerce(xs[k]).Number?;
      }
    }
    if forall k | 0 <= k < |xs| :: Acceptable(xs[k]) {
      forall k | 0 <= k < |xs| ensures !IsAbsent(xs[k]) && Coerce(xs[k]).Number? {
        assert Acceptable(xs[k]);
      }
    }
  }

  /** An array of plain numbers, as the arithmetic hands to createVector. */
  function Numbers(s: seq<real>): seq<JsValue> {
    seq(|s|, k requires 0 <= k < |s| => Number(s[k]))
  }

  /** An array of numbers is accepted and kept component for component. */
  lemma NormalizeNumbers(s: seq<real>)
    ensures Normalize(Given(Numbers(s))) == Ok(s)
  {
    var xs := Numbers(s);
    assert forall k | 0 <= k < |xs| :: !IsAbsent(xs[k]) && Coerce(xs[k]) == Number(s[k]);
    assert seq(|xs|, k requires 0 <= k < |xs| => Coerce(xs[k]).n) == s;
  }

  lemma NoneAbsent(xs: seq<JsValue>)
    requires NullValue !in xs && UndefinedValue !in xs
    ensures !exists k | 0 <= k < |xs| :: IsAbsent(xs[k])
  {
    forall k | 0 <= k < |xs| ensures !IsAbsent(xs[k]) {
      assert xs[k] in xs;
    }
  }

  /** When every element comes out of the string pass as a number, the
      constructor accepts the array and keeps those numbers in order. */
  lemma NormalizeCoerced(xs: seq<JsValue>, vs: seq<real>)
    requires |xs| == |vs| && forall k | 0 <= k < |xs| :: Coerce(xs[k]) == Number(vs[k])
    ensures Normalize(Given(xs)) == Ok(vs)
  {
    assert forall k | 0 <= k < |xs| :: !IsAbsent(xs[k]);
    assert seq(|xs|, k requires 0 <= k < |xs| => Coerce(xs[k]).n) == vs;
  }

  /** A string holding the decimal numeral of an integer, possibly
      followed by a fraction such as ".0", becomes that integer. */
  lemma CoerceNumeral(n: int, rest: string)
    requires rest == [] || !IsDigit(rest[0], 10)
    requires n == 0 ==> rest == [] || (rest[0] != 'x' && rest[0] != 'X')
    ensures Coerce(Text(DecimalString(n) + rest)) == Number(n as real)
  {
    ParseIntOfDecimalString(n, rest);
  }

  /** An array in the shape of the test suite's string case: two strings,
      two numbers and a string, each string read by parseInt. */
  lemma NormalizeFive(s1: string, s2: string, x: real, y: real, s5: string, a: int, b: int, c: int)
    requires ParseInt(s1) == Some(a) && ParseInt(s2) == Some(b) && ParseInt(s5) == Some(c)
    ensures Normalize(Given([Text(s1), Text(s2), Number(x), Number(y), Text(s5)])) ==
            Ok([a as real, b as real, x, y, c as real])
  {
    var xs := [Text(s1), Text(s2), Number(x), Number(y), Text(s5)];
    var vs := [a as real, b as real, x, y, c as real];
    assert forall k | 0 <= k < |xs| :: Coerce(xs[k]) == Number(vs[k]);
    NormalizeCoerced(xs, vs);
  }

  /** The test suite's string case: ["1", "2", 3, 4, "5.0"] is accepted
      as [1, 2, 3, 4, 5]. */
  lemma NormalizeParsesStrings()
    ensures Normalize(Given([Text("1"), Text("2"), Number(3.0), Number(4.0), Text("5.0")])) ==
            Ok([1.0, 2.0, 3.0, 4.0, 5.0])
  {
    ParseIntSingleDigits();
    ParseIntStopsAtFraction();
    NormalizeFive("1", "2", 3.0, 4.0, "5.0", 1, 2, 5);
  }

  /** With no absent element, one element that is not a number after
      the string pass is enough for the constructor to throw. */
  lemma NormalizeRejectsAt(xs: seq<JsValue>, k: nat)
    requires k < |xs| && NullValue !in xs && UndefinedValue !in xs && !Coerce(xs[k]).Number?
    ensures Normalize(Given(xs)) == Err(NonNumber)
  {
    NoneAbsent(xs);
  }

  /** The test suite's rejection of a null and of an undefined element among
      numbers; an absent element is reported even after an unparsable
      string. */
  lemma NormalizeRejectsAbsent()
    ensures Normalize(Given([Number(1.0), Number(2.0), Number(3.0), NullValue, Number(5.0)])) == Err(MissingValue)
    ensures Normalize(Given([Number(1.0), Number(2.0), Number(3.0), UndefinedValue, Number(5.0)])) == Err(MissingValue)
    ensures Normalize(Given([Text("foo"), NullValue])) == Err(MissingValue)
  {
    var a := [Number(1.0), Number(2.0), Number(3.0), NullValue, Number(5.0)];
    var b := [Number(1.0), Number(2.0), Number(3.0), UndefinedValue, Number(5.0)];
    var c := [Text("foo"), NullValue];
    assert IsAbsent(a[3]) && IsAbsent(b[3]) && IsAbsent(c[1]);
    NormalizeAccepts(a);
    NormalizeAccepts(b);
    NormalizeAccepts(c);
  }

  /** The test suite's rejection of "foo" among numbers. */
  lemma NormalizeRejectsUnparsable()
    ensures Normalize(Given([Number(1.0), Number(2.0), Number(3.0), Text("foo"), Number(4.0), Number(5.0)])) == Err(NonNumber)
  {
    ParseIntFoo();
    NormalizeRejectsAt([Number(1.0), Number(2.0), Number(3.0), Text("foo"), Number(4.0), Number(5.0)], 3);
  }

  /** The test suite's rejection of an array nested among numbers. */
  lemma NormalizeRejectsObjects()
    ensures Normalize(Given([Number(1.0), Number(2.0), Object, Number(4.0), Number(5.0)])) == Err(NonNumber)
  {
    NormalizeRejectsAt([Number(1.0), Number(2.0), Object, Number(4.0), Number(5.0)], 2);
  }

  /** NaN is refused, null is refused, and the empty array is accepted. */
  lemma NormalizeEdgeCases()
    ensures Normalize(Given([Number(1.0), NaN])) == Err(NonNumber)
    ensures Normalize(Given([])) == Ok([])
    ensures Normalize(Null) == Err(NullInput)
    ensures Normalize(Undefined) == Err(TypeError)
  {
    var a := [Number(1.0), NaN];
    NoneAbsent(a);
    assert !Coerce(a[1]).Number?;
  }

  // ---------------------------------------------------------------------
  // Index checks of get and remove

  /** Where an index that passed the checks points. */
  datatype Slot = At(k: nat) | Beyond

  predicate IsInteger(x: real) {
    x.Floor as real == x
  }

  /** The checks get and remove run on an index, in the code's order:
      absent, then negative, then at or above the dimensions (a soft miss),
      and only then fractional. */
  function CheckIndex(i: Arg<real>, dimensions: nat): (r: Result<Slot>)
    ensures r.Ok? && r.value.At? ==> r.value.k < dimensions && i == Given(r.value.k as real)
  {
    match i
    case Null => Err(MissingIndex)
    case Undefined => Err(MissingIndex)
    case Given(x) =>
      if x < 0.0 then Err(NegativeIndex)
      else if dimensions as real <= x then Ok(Beyond)
      else if !IsInteger(x) then Err(FractionalIndex)
      else Ok(At(x.Floor))
  }

  /** What get returns for an index; None is the null of a soft miss. */
  function Lookup(s: seq<real>, i: Arg<real>): Result<Option<real>> {
    match CheckIndex(i, |s|)
    case Err(e) => Err(e)
    case Ok(Beyond) => Ok(None)
    case Ok(At(k)) => Ok(Some(s[k]))
  }

  /** The components once remove has run with an index. */
  function Removed(s: seq<real>, i: Arg<real>): seq<real> {
    match CheckIndex(i, |s|)
    case Ok(At(k)) => s[..k] + s[k + 1..]
    case _ => s
  }

  /** The five outcomes of get, each exactly characterised. */
  lemma LookupOutcomes(s: seq<real>, i: Arg<real>)
    ensures Lookup(s, i) == Err(MissingIndex) <==> !i.Given?
    ensures Lookup(s, i) == Err(NegativeIndex) <==> i.Given? && i.value < 0.0
    ensures Lookup(s, i) == Ok(None) <==> i.Given? && i.value >= |s| as real
    ensures Lookup(s, i) == Err(FractionalIndex) <==>
            i.Given? && 0.0 <= i.value < |s| as real && !IsInteger(i.value)
    ensures Lookup(s, i).Ok? && Lookup(s, i).value.Some? <==>
            i.Given? && 0.0 <= i.value < |s| as real && IsInteger(i.value)
    ensures forall k | 0 <= k < |s| :: Lookup(s, Given(k as real)) == Ok(Some(s[k]))
  {
    forall k | 0 <= k < |s| ensures Lookup(s, Given(k as real)) == Ok(Some(s[k])) {
      assert (k as real).Floor == k;
    }
  }

  /** The test suite's get cases on [1, 2, 3]: index 1 is 2, index 3 is a
      soft miss; -1, 1.1, null and undefined throw. A fractional index
      above the range is a soft miss too, because the range check runs
      before the integer check. */
  lemma LookupExamples()
    ensures Lookup([1.0, 2.0, 3.0], Given(1.0)) == Ok(Some(2.0))
    ensures Lookup([1.0, 2.0, 3.0], Given(3.0)) == Ok(None)
    ensures Lookup([1.0, 2.0, 3.0], Given(-1.0)) == Err(NegativeIndex)
    ensures Lookup([1.0, 2.0, 3.0], Given(1.1)) == Err(FractionalIndex)
    ensures Lookup([1.0, 2.0, 3.0], Given(3.5)) == Ok(None)
    ensures Lookup([1.0, 2.0, 3.0], Null) == Err(MissingIndex)
    ensures Lookup([1.0, 2.0, 3.0], Undefined) == Err(MissingIndex)
  {
    assert (1.1).Floor == 1;
  }

  /** After appending x, its index gives x and every earlier index gives
      what it gave before. */
  lemma {:induction false} LookupAfterPush(s: seq<real>, x: real, j: nat)
    ensures Lookup(s + [x], Given(|s| as real)) == Ok(Some(x))
    ensures j < |s| ==> Lookup(s + [x], Given(j as real)) == Lookup(s, Given(j as real))
    ensures j > |s| ==> Lookup(s + [x], Given(j as real)) == Ok(None)
  {
    assert (|s| as real).Floor == |s|;
    assert (j as real).Floor == j;
    assert j < |s| ==> (s + [x])[j] == s[j];
  }

  /** Removing index k shrinks the components by one and shifts the
      later ones down: afterwards index j gives what j gave before when
      j < k, what j + 1 gave before otherwise, and a soft miss at the end. */
  lemma {:induction false} LookupAfterRemove(s: seq<real>, k: nat, j: nat)
    requires k < |s|
    ensures Removed(s, Given(k as real)) == s[..k] + s[k + 1..]
    ensures |Removed(s, Given(k as real))| == |s| - 1
    ensures Lookup(Removed(s, Given(k as real)), Given(j as real)) ==
            if j < k then Ok(Some(s[j])) else if j + 1 < |s| then Ok(Some(s[j + 1])) else Ok(None)
  {
    assert (k as real).Floor == k;
    assert (j as real).Floor == j;
    var t := s[..k] + s[k + 1..];
    assert j < k ==> t[j] == s[j];
    assert k <= j < |t| ==> t[j] == s[j + 1];
  }

  /** A remove that gives a soft miss or throws changes nothing. */
  lemma RemovedUnlessFound(s: seq<real>, i: Arg<real>)
    ensures !(Lookup(s, i).Ok? && Lookup(s, i).value.Some?) ==> Removed(s, i) == s
    ensures Lookup(s, i).Ok? && Lookup(s, i).value.Some? ==> |Removed(s, i)| == |s| - 1
  {
  }

  // ---------------------------------------------------------------------
  // Elementwise arithmetic

  datatype Op = Plus | Minus | Times | Over

  function Apply(op: Op, x: real, y: real): real
    requires op == Over ==> y != 0.0
  {
    match op
    case Plus => x + y
    case Minus => x - y
    case Times => x * y
    case Over => x / y
  }

  predicate HasZero(s: seq<real>) {
    exists k | 0 <= k < |s| :: s[k] == 0.0
  }

  /** add, sub, mul and div before the result is handed to createVector:
      the operand must be present and of the same dimensions, and for
      division free of zeros; the result is `a[k] op b[k]` for every k. */
  function Combine(op: Op, a: seq<real>, b: Arg<seq<real>>): Result<seq<real>> {
    match b
    case Null => Err(MissingVector)
    case Undefined => Err(MissingVector)
    case Given(c) =>
      if |c| != |a| then Err(DimensionMismatch)
      else if op == Over && HasZero(c) then Err(DivisionByZero)
      else Ok(seq(|a|, k requires 0 <= k < |a| => Apply(op, a[k], c[k])))
  }

  /** Every way Combine fails, each exactly characterised, and the
      components of its result. */
  lemma CombineOutcomes(op: Op, a: seq<real>, b: Arg<seq<real>>)
    ensures Combine(op, a, b) == Err(MissingVector) <==> !b.Given?
    ensures Combine(op, a, b) == Err(DimensionMismatch) <==> b.Given? && |b.value| != |a|
    ensures Combine(op, a, b) == Err(DivisionByZero) <==>
            b.Given? && |b.value| == |a| && op == Over && HasZero(b.value)
    ensures Combine(op, a, b).Ok? <==>
            b.Given? && |b.value| == |a| && !(op == Over && HasZero(b.value))
    ensures Combine(op, a, b).Ok? ==>
            |Combine(op, a, b).value| == |a| &&
            forall k | 0 <= k < |a| :: Combine(op, a, b).value[k] == Apply(op, a[k], b.value[k])
  {
  }

  /** Subtracting b and adding it back gives the original components. */
  lemma SubtractThenAdd(a: seq<real>, b: seq<real>)
    requires |a| == |b|
    ensures Combine(Minus, a, Given(b)).Ok?
    ensures Combine(Plus, Combine(Minus, a, Given(b)).value, Given(b)) == Ok(a)
  {
    var d := Combine(Minus, a, Given(b)).value;
    assert seq(|d|, k requires 0 <= k < |d| => Apply(Plus, d[k], b[k])) == a;
  }

  /** Dividing by a zero-free b and multiplying back gives the original
      components. */
  lemma DivideThenMultiply(a: seq<real>, b: seq<real>)
    requires |a| == |b| && !HasZero(b)
    ensures Combine(Over, a, Given(b)).Ok?
    ensures Combine(Times, Combine(Over, a, Given(b)).value, Given(b)) == Ok(a)
  {
    var q := Combine(Over, a, Given(b)).value;
    forall k | 0 <= k < |a| ensures q[k] * b[k] == a[k] {
      assert q[k] == a[k] / b[k];
    }
    assert seq(|q|, k requires 0 <= k < |q| => Apply(Times, q[k], b[k])) == a;
  }

  /** Addition and multiplication do not depend on the operand order. */
  lemma PlusAndTimesCommute(a: seq<real>, b: seq<real>)
    requires |a| == |b|
    ensures Combine(Plus, a, Given(b)) == Combine(Plus, b, Given(a))
    ensures Combine(Times, a, Given(b)) == Combine(Times, b, Given(a))
  {
    assert Combine(Plus, a, Given(b)).value == Combine(Plus, b, Given(a)).value;
    assert Combine(Times, a, Given(b)).value == Combine(Times, b, Given(a)).value;
  }

  /** The test suite's arithmetic on [1, 2, 3] and [4, 5, 6], a zero
      divisor, and operands of different dimensions. */
  lemma CombineExamples()
    ensures Combine(Plus, [1.0, 2.0, 3.0], Given([4.0, 5.0, 6.0])) == Ok([5.0, 7.0, 9.0])
    ensures Combine(Minus, [1.0, 2.0, 3.0], Given([4.0, 5.0, 6.0])) == Ok([-3.0, -3.0, -3.0])
    ensures Combine(Times, [1.0, 2.0, 3.0], Given([4.0, 5.0, 6.0])) == Ok([4.0, 10.0, 18.0])
    ensures Combine(Over, [1.0, 2.0, 3.0], Given([4.0, 5.0, 6.0])) == Ok([0.25, 0.4, 0.5])
    ensures Combine(Over, [1.0, 2.0, 3.0], Given([0.0, 1.0, 2.0])) == Err(DivisionByZero)
    ensures Combine(Plus, [1.0, 2.0, 3.0], Given([1.0, 2.0])) == Err(DimensionMismatch)
    ensures Combine(Over, [1.0, 2.0, 3.0], Null) == Err(MissingVector)
  {
    var a, b := [1.0, 2.0, 3.0], [4.0, 5.0, 6.0];
    assert !HasZero(b);
    assert seq(3, k requires 0 <= k < 3 => Apply(Plus, a[k], b[k])) == [5.0, 7.0, 9.0];
    assert seq(3, k requires 0 <= k < 3 => Apply(Minus, a[k], b[k])) == [-3.0, -3.0, -3.0];
    assert seq(3, k requires 0 <= k < 3 => Apply(Times, a[k], b[k])) == [4.0, 10.0, 18.0];
    assert seq(3, k requires 0 <= k < 3 => Apply(Over, a[k], b[k])) == [0.25, 0.4, 0.5];
    assert [0.0, 1.0, 2.0][0] == 0.0;
  }

  // ---------------------------------------------------------------------
  // createVector and the arithmetic's hand-over to it

  /** What the module-level `constructor` variable of Vector.ts holds: null,
      undefined, or the class VectorImpl. */
  datatype Backend = NullBackend | UndefinedBackend | VectorImplBackend

  /** What createVector makes of its arguments under a backend. */
  function Created(backend: Backend, args: Arg<seq<JsValue>>): Result<seq<real>> {
    match backend
    case NullBackend => Err(NoImplementation)
    case UndefinedBackend => Err(TypeError)
    case VectorImplBackend => Normalize(args)
  }

  /** add, sub, mul or div end to end: Combine, then createVector on the
      array of results. */
  function Arithmetic(op: Op, a: seq<real>, b: Arg<seq<real>>, backend: Backend): Result<seq<real>> {
    match Combine(op, a, b)
    case Err(e) => Err(e)
    case Ok(c) => Created(backend, Given(Numbers(c)))
  }

  /** With the default implementation the hand-over to createVector
      changes nothing; without one, an arithmetic operation that would
      succeed fails, and its own errors still come first. */
  lemma ArithmeticThroughBackend(op: Op, a: seq<real>, b: Arg<seq<real>>)
    ensures Arithmetic(op, a, b, VectorImplBackend) == Combine(op, a, b)
    ensures Combine(op, a, b).Ok? ==> Arithmetic(op, a, b, NullBackend) == Err(NoImplementation)
    ensures Combine(op, a, b).Ok? ==> Arithmetic(op, a, b, UndefinedBackend) == Err(TypeError)
    ensures Combine(op, a, b).Err? ==> forall backend :: Arithmetic(op, a, b, backend) == Combine(op, a, b)
  {
    if Combine(op, a, b).Ok? {
      NormalizeNumbers(Combine(op, a, b).value);
    }
  }

  // ---------------------------------------------------------------------
  // Equality

  /** What equals compares once the dimensions agree: every position
      holds the same value in both vectors. */
  predicate Agree(s: seq<real>, t: seq<real>) {
    |s| == |t| && forall k | 0 <= k < |s| :: s[k] == t[k]
  }

  /** Agreement is exactly equality of the component sequences, so it is
      reflexive and symmetric and it depends on the order. */
  lemma AgreeIsEquality(s: seq<real>, t: seq<real>)
    ensures Agree(s, t) <==> s == t
    ensures Agree(s, s)
    ensures Agree(s, t) <==> Agree(t, s)
  {
    if Agree(s, t) {
      assert s == t;
    }
  }

  /** The test suite's cases: [1, 2, 3] equals itself, but neither
      [1, 3, 2], with two components swapped, nor the longer [1, 2, 3, 4]. */
  lemma AgreeExamples()
    ensures Agree([1.0, 2.0, 3.0], [1.0, 2.0, 3.0])
    ensures !Agree([1.0, 2.0, 3.0], [1.0, 3.0, 2.0])
    ensures !Agree([1.0, 2.0, 3.0], [1.0, 2.0, 3.0, 4.0])
  {
    assert [1.0, 2.0, 3.0][1] != [1.0, 3.0, 2.0][1];
  }

  // ---------------------------------------------------------------------
  // Length

  /** The sum of the squared components, added from the first to the last
      as the code's reduce does. */
  function SumOfSquares(s: seq<real>): real {
    if s == [] then 0.0 else SumOfSquares(s[..|s| - 1]) + Square(s[|s| - 1])
  }

  function Square(x: real): real {
    x * x
  }

  /** The squared length is never negative, and it is zero exactly when
      every component is. */
  lemma {:induction false} SumOfSquaresZero(s: seq<real>)
    ensures SumOfSquares(s) >= 0.0
    ensures SumOfSquares(s) == 0.0 <==> forall k | 0 <= k < |s| :: s[k] == 0.0
  {
    if s != [] {
      var p, x := s[..|s| - 1], s[|s| - 1];
      SumOfSquaresZero(p);
      SquareSign(x);
      assert (forall k | 0 <= k < |s| :: s[k] == 0.0) <==>
             (forall k | 0 <= k < |p| :: p[k] == 0.0) && x == 0.0 by {
        assert forall k | 0 <= k < |p| :: p[k] == s[k];
      }
    }
  }

  lemma SquareSign(x: real)
    ensures Square(x) >= 0.0
    ensures Square(x) == 0.0 <==> x == 0.0
  {
    if x < 0.0 {
      calc {
        Square(x);
        ==
        (-x) * (-x);
        > { PositiveProduct(-x, -x); }
        0.0;
      }
    } else if x > 0.0 {
      calc {
        Square(x);
        ==
        x * x;
        > { PositiveProduct(x, x); }
        0.0;
      }
    }
  }

  lemma PositiveProduct(x: real, y: real)
    requires x > 0.0 && y > 0.0
    ensures x * y > 0.0
  {
  }

  /** The test suite's [1, 2, 3]: its squared length is 14. */
  lemma SumOfSquaresExample()
    ensures SumOfSquares([1.0, 2.0, 3.0]) == 14.0
  {
    assert [1.0, 2.0, 3.0][..2] == [1.0, 2.0];
    assert [1.0, 2.0][..1] == [1.0];
    assert [1.0][..0] == [];
  }

  // ---------------------------------------------------------------------
  // Rendering

  /** Array.prototype.join with a one-character separator. */
  function Join(parts: seq<string>, sep: char): string {
    if parts == [] then "" else if |parts| == 1 then parts[0] else parts[0] + [sep] + Join(parts[1..], sep)
  }

  /** String.prototype.split with a one-character separator. */
  function Split(s: string, sep: char): (r: seq<string>)
    ensures |r| > 0
  {
    if s == [] then [""]
    else if s[0] == sep then [""] + Split(s[1..], sep)
    else var t := Split(s[1..], sep); [[s[0]] + t[0]] + t[1..]
  }

  lemma {:induction false} SplitAfterPart(p: string, rest: string, sep: char)
    requires sep !in p
    ensures Split(p + rest, sep) == [p + Split(rest, sep)[0]] + Split(rest, sep)[1..]
  {
    var t := Split(rest, sep);
    if p != [] {
      assert (p + rest)[0] == p[0];
      assert (p + rest)[1..] == p[1..] + rest;
      SplitAfterPart(p[1..], rest, sep);
      assert [p[0]] + (p[1..] + t[0]) == p + t[0];
    } else {
      assert p + rest == rest;
      assert p + t[0] == t[0];
      assert [t[0]] + t[1..] == t;
    }
  }

  /** Splitting a join at the separator gives the parts back, provided no
      part holds the separator. */
  lemma {:induction false} SplitJoin(parts: seq<string>, sep: char)
    requires |parts| > 0
    requires forall k | 0 <= k < |parts| :: sep !in parts[k]
    ensures Split(Join(parts, sep), sep) == parts
  {
    if |parts| == 1 {
      SplitAfterPart(parts[0], "", sep);
      assert parts[0] + "" == parts[0];
    } else {
      var rest := Join(parts[1..], sep);
      assert Join(parts, sep) == parts[0] + ([sep] + rest);
      SplitJoin(parts[1..], sep);
      SplitAfterPart(parts[0], [sep] + rest, sep);
      assert ([sep] + rest)[0] == sep && ([sep] + rest)[1..] == rest;
      assert Split([sep] + rest, sep) == [""] + parts[1..];
      assert parts[0] + "" == parts[0];
      assert [parts[0]] + parts[1..] == parts;
    }
  }

  /** The components as the number formatting renders them. */
  function Formatted(s: seq<real>, format: real -> string): seq<string> {
    seq(|s|, k requires 0 <= k < |s| => format(s[k]))
  }

  /** toString: "Vector[Empty]" without components, otherwise the
      formatted components between "Vector[" and "]", separated by spaces. */
  function Render(s: seq<real>, format: real -> string): string {
    "Vector[" + (if s == [] then "Empty" else Join(Formatted(s, format), ' ')) + "]"
  }

  /** An empty vector renders as "Vector[Empty]"; any other rendering
      lies between "Vector[" and "]", and splitting what lies between at
      the spaces gives the formatted components back whenever the
      formatting never produces a space. */
  lemma RenderRecoversComponents(s: seq<real>, format: real -> string)
    requires forall k | 0 <= k < |s| :: ' ' !in format(s[k])
    ensures s == [] ==> Render(s, format) == "Vector[Empty]"
    ensures |Render(s, format)| >= 8 && Render(s, format)[..7] == "Vector[" &&
            Render(s, format)[|Render(s, format)| - 1] == ']'
    ensures s != [] ==> Split(Render(s, format)[7..|Render(s, format)| - 1], ' ') == Formatted(s, format)
  {
    var inner := if s == [] then "Empty" else Join(Formatted(s, format), ' ');
    var r := Render(s, format);
    assert r == "Vector[" + inner + "]";
    assert r[..7] == "Vector[";
    assert r[7..|r| - 1] == inner;
    if s != [] {
      forall k | 0 <= k < |s| ensures ' ' !in Formatted(s, format)[k] {
        assert Formatted(s, format)[k] == format(s[k]);
      }
      SplitJoin(Formatted(s, format), ' ');
    }
  }
}
