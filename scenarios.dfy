/** The test suite's scenarios replayed against the classes: each method
    returns what the suite observes, and its contract states the values
    the suite expects. */
module Scenarios {
  import opened Js
  import opened Components
  import opened Vector

  /** createVector of an array of numbers under the default
      implementation. */
  method Create(registry: Registry, s: seq<real>) returns (v: VectorImpl)
    requires registry.backend == VectorImplBackend
    ensures v.values == s && v.Valid() && fresh(v)
  {
    NormalizeNumbers(s);
    var r := registry.CreateVector(Given(Numbers(s)));
    v := r.value;
  }

  /** Without an implementation createVector throws; init() restores the
      default, which accepts the empty array and refuses null. */
  method Lifecycle() returns (refused: Result<VectorImpl>, restored: Result<VectorImpl>, fromNull: Result<VectorImpl>)
    ensures refused == Err(NoImplementation)
    ensures restored.Ok? && restored.value.values == [] && restored.value.dimensions == 0
    ensures fromNull == Err(NullInput)
  {
    var registry := new Registry();
    registry.SetImplementation(NullBackend);
    refused := registry.CreateVector(Given([]));
    registry.Init();
    NormalizeEdgeCases();
    restored := registry.CreateVector(Given([]));
    fromNull := registry.CreateVector(Null);
  }

  /** Pushing 4 onto [1, 2, 3] returns index 3, raises the dimensions to
      4 and makes get(3) give 4; null and undefined are refused. */
  method PushComponent() returns (index: Result<nat>, pushedNull: Result<nat>, pushedUndefined: Result<nat>,
                                  dimensions: nat, got: Result<Option<real>>)
    ensures index == Ok(3) && pushedNull == Err(MissingComponent) && pushedUndefined == Err(MissingComponent)
    ensures dimensions == 4 && got == Ok(Some(4.0))
  {
    var registry := new Registry();
    var a := Create(registry, [1.0, 2.0, 3.0]);
    index := a.Push(Given(4.0));
    pushedNull := a.Push(Null);
    pushedUndefined := a.Push(Undefined);
    dimensions := a.dimensions;
    LookupAfterPush([1.0, 2.0, 3.0], 4.0, 0);
    got := a.Get(Given(3.0));
  }

  /** Removing index 2 from [1, 2, 3] returns 3 and leaves two
      components; afterwards -1, null, undefined and 1.1 throw, while 3
      and 2 are soft misses. */
  method RemoveComponent() returns (removed: Result<Option<real>>, negative: Result<Option<real>>,
                                    beyond: Result<Option<real>>, fractional: Result<Option<real>>,
                                    absent: Result<Option<real>>, undefinedIndex: Result<Option<real>>,
                                    dimensions: nat, got: Result<Option<real>>)
    ensures removed == Ok(Some(3.0)) && dimensions == 2
    ensures negative == Err(NegativeIndex) && beyond == Ok(None) && got == Ok(None)
    ensures fractional == Err(FractionalIndex) && absent == Err(MissingIndex) && undefinedIndex == Err(MissingIndex)
  {
    var registry := new Registry();
    var a := Create(registry, [1.0, 2.0, 3.0]);
    assert (2.0).Floor == 2;
    removed := a.Remove(Given(2.0));
    assert a.values == [1.0, 2.0];
    negative := a.Remove(Given(-1.0));
    beyond := a.Remove(Given(3.0));
    assert (1.1).Floor == 1;
    fractional := a.Remove(Given(1.1));
    absent := a.Remove(Null);
    undefinedIndex := a.Remove(Undefined);
    dimensions := a.dimensions;
    got := a.Get(Given(2.0));
  }

  /** clear() empties [1, 2, 3], returns the same vector, and get(0) is a
      soft miss afterwards. */
  method ClearComponents() returns (same: bool, dimensions: nat, got: Result<Option<real>>)
    ensures same && dimensions == 0 && got == Ok(None)
  {
    var registry := new Registry();
    var a := Create(registry, [1.0, 2.0, 3.0]);
    var r := a.Clear();
    same := r == a;
    dimensions := a.dimensions;
    got := a.Get(Given(0.0));
  }

  /** a.add(b).equals(c) for a = [1, 2, 3], b = [4, 5, 6] and c = [5, 7, 9],
      and likewise for sub, mul and div; a zero divisor, a shorter operand
      and a null operand are refused (one call each here; RefusedOperands
      replays every refused operand of the suite). */
  method Operations() returns (added: Result<bool>, subtracted: Result<bool>, multiplied: Result<bool>,
                               divided: Result<bool>, byZero: Result<VectorImpl>, mismatched: Result<VectorImpl>,
                               missing: Result<VectorImpl>)
    ensures added == Ok(true) && subtracted == Ok(true) && multiplied == Ok(true) && divided == Ok(true)
    ensures byZero == Err(DivisionByZero) && mismatched == Err(DimensionMismatch) && missing == Err(MissingVector)
  {
    var registry := new Registry();
    var a := Create(registry, [1.0, 2.0, 3.0]);
    var b := Create(registry, [4.0, 5.0, 6.0]);
    CombineExamples();
    NormalizeNumbers([5.0, 7.0, 9.0]);
    NormalizeNumbers([-3.0, -3.0, -3.0]);
    NormalizeNumbers([4.0, 10.0, 18.0]);
    NormalizeNumbers([0.25, 0.4, 0.5]);
    AgreeIsEquality([5.0, 7.0, 9.0], [5.0, 7.0, 9.0]);
    AgreeIsEquality([-3.0, -3.0, -3.0], [-3.0, -3.0, -3.0]);
    AgreeIsEquality([4.0, 10.0, 18.0], [4.0, 10.0, 18.0]);
    AgreeIsEquality([0.25, 0.4, 0.5], [0.25, 0.4, 0.5]);

    var sum := a.Add(Given(b), registry);
    var c := Create(registry, [5.0, 7.0, 9.0]);
    added := sum.value.Equals(Given(c));

    var difference := a.Sub(Given(b), registry);
    c := Create(registry, [-3.0, -3.0, -3.0]);
    subtracted := difference.value.Equals(Given(c));

    var product := a.Mul(Given(b), registry);
    c := Create(registry, [4.0, 10.0, 18.0]);
    multiplied := product.value.Equals(Given(c));

    var quotient := a.Div(Given(b), registry);
    c := Create(registry, [1.0 / 4.0, 2.0 / 5.0, 1.0 / 2.0]);
    divided := quotient.value.Equals(Given(c));

    var d := Create(registry, [0.0, 1.0, 2.0]);
    byZero := a.Div(Given(d), registry);
    var e := Create(registry, [1.0, 2.0]);
    mismatched := a.Add(Given(e), registry);
    missing := a.Sub(Null, registry);
  }

  /** Every operation refuses a null and an undefined operand, and an
      operand of other dimensions: [1, 2, 3] against [1, 2]. The refusals
      come in the order add, sub, mul, div, null before undefined. */
  method RefusedOperands() returns (missing: seq<Result<VectorImpl>>, mismatched: seq<Result<VectorImpl>>)
    ensures missing == [Err(MissingVector), Err(MissingVector), Err(MissingVector), Err(MissingVector),
                        Err(MissingVector), Err(MissingVector), Err(MissingVector), Err(MissingVector)]
    ensures mismatched == [Err(DimensionMismatch), Err(DimensionMismatch), Err(DimensionMismatch), Err(DimensionMismatch)]
  {
    var registry := new Registry();
    var a := Create(registry, [1.0, 2.0, 3.0]);
    var r1 := a.Add(Null, registry);
    var r2 := a.Add(Undefined, registry);
    var r3 := a.Sub(Null, registry);
    var r4 := a.Sub(Undefined, registry);
    var r5 := a.Mul(Null, registry);
    var r6 := a.Mul(Undefined, registry);
    var r7 := a.Div(Null, registry);
    var r8 := a.Div(Undefined, registry);
    missing := [r1, r2, r3, r4, r5, r6, r7, r8];
    var d := Create(registry, [1.0, 2.0, 3.0]);
    var e := Create(registry, [1.0, 2.0]);
    var m1 := d.Add(Given(e), registry);
    var m2 := d.Sub(Given(e), registry);
    var m3 := d.Mul(Given(e), registry);
    var m4 := d.Div(Given(e), registry);
    mismatched := [m1, m2, m3, m4];
  }

  /** [1, 2, 3] equals another [1, 2, 3], but not [1, 3, 2] nor
      [1, 2, 3, 4]. */
  method Equality() returns (equal: Result<bool>, reordered: Result<bool>, longer: Result<bool>)
    ensures equal == Ok(true) && reordered == Ok(false) && longer == Ok(false)
  {
    var registry := new Registry();
    var a := Create(registry, [1.0, 2.0, 3.0]);
    var b := Create(registry, [1.0, 2.0, 3.0]);
    var c := Create(registry, [1.0, 2.0, 3.0, 4.0]);
    var d := Create(registry, [1.0, 3.0, 2.0]);
    AgreeIsEquality([1.0, 2.0, 3.0], [1.0, 2.0, 3.0]);
    equal := a.Equals(Given(b));
    assert [1.0, 2.0, 3.0][1] != [1.0, 3.0, 2.0][1];
    reordered := a.Equals(Given(d));
    longer := a.Equals(Given(c));
  }

  /** ["1", "2", 3, 4, "5.0"] builds a vector equal to [1, 2, 3, 4, 5]. */
  method ParsedStrings() returns (equal: Result<bool>)
    ensures equal == Ok(true)
  {
    var registry := new Registry();
    NormalizeParsesStrings();
    var parsed := registry.CreateVector(Given([Text("1"), Text("2"), Number(3.0), Number(4.0), Text("5.0")]));
    var r := Create(registry, [1.0, 2.0, 3.0, 4.0, 5.0]);
    AgreeIsEquality([1.0, 2.0, 3.0, 4.0, 5.0], [1.0, 2.0, 3.0, 4.0, 5.0]);
    equal := parsed.value.Equals(Given(r));
  }

  /** The squared length of [1, 2, 3] is 14; the empty vector has none. */
  method Lengths() returns (squared: Result<real>, empty: Result<real>)
    ensures squared == Ok(14.0) && empty == Err(EmptyVector)
  {
    var registry := new Registry();
    var a := Create(registry, [1.0, 2.0, 3.0]);
    SumOfSquaresExample();
    squared := a.Length();
    var v := Create(registry, []);
    empty := v.Length();
  }
}
