/** The vector class and the module-level factory around it. A VectorImpl
    owns its components and a separate dimensions counter, kept equal to
    the number of components; a Registry holds the module-level
    `constructor` variable that createVector reads. Both live in one
    module because each uses the other: the arithmetic hands its results
    to createVector, and createVector constructs a VectorImpl. */
module Vector {
  import opened Js
  import opened Components

  /** A vector's components, or null or undefined as the argument was. */
  function ValuesOf(v: Arg<VectorImpl>): Arg<seq<real>>
    reads if v.Given? then {v.value} else {}
  {
    if v.Null? then Null else if v.Undefined? then Undefined else Given(v.value.values)
  }

  /** A constructed vector agrees with an outcome computed on components:
      the same error, or a consistent vector holding those components. */
  ghost predicate Delivers(r: Result<VectorImpl>, spec: Result<seq<real>>)
    reads if r.Ok? then {r.value} else {}
  {
    if r.Err? then spec == Err(r.error) else spec.Ok? && r.value.values == spec.value && r.value.Valid()
  }

  class VectorImpl {
    var values: seq<real>
    var dimensions: nat

    /** The counter always matches the components. */
    ghost predicate Valid()
      reads this
    {
      dimensions == |values|
    }

    /** The state the constructor leaves behind once its checks passed. */
    constructor FromComponents(vs: seq<real>)
      ensures values == vs && dimensions == |vs| && Valid()
    {
      values := vs;
      dimensions := |vs|;
    }

    /** The constructor's three passes over its input: reject null,
        undefined and absent elements, overwrite each string with what
        parseInt makes of it, then reject whatever is not a number. */
    static method ParseInput(input: Arg<seq<JsValue>>) returns (r: Result<seq<real>>)
      ensures r == Normalize(input)
    {
      if input.Null? {
        return Err(NullInput);
      }
      if input.Undefined? {
        return Err(TypeError);
      }
      var xs := input.value;

      var k := 0;
      while k < |xs|
        invariant k <= |xs|
        invariant forall j | 0 <= j < k :: !IsAbsent(xs[j])
      {
        if IsAbsent(xs[k]) {
          return Err(MissingValue);
        }
        k := k + 1;
      }

      var slots := xs;
      k := 0;
      while k < |xs|
        invariant k <= |xs| && |slots| == |xs|
        invariant forall j | 0 <= j < k :: slots[j] == Coerce(xs[j])
        invariant forall j | k <= j < |xs| :: slots[j] == xs[j]
      {
        if xs[k].Text? {
          slots := slots[k := Coerce(xs[k])];
        }
        k := k + 1;
      }

      var numbers: seq<real> := [];
      k := 0;
      while k < |slots|
        invariant k <= |slots| && |numbers| == k
        invariant forall j | 0 <= j < k :: slots[j].Number? && numbers[j] == slots[j].n
      {
        if !slots[k].Number? {
          return Err(NonNumber);
        }
        numbers := numbers + [slots[k].n];
        k := k + 1;
      }
      assert numbers == seq(|xs|, j requires 0 <= j < |xs| => Coerce(xs[j]).n);
      r := Ok(numbers);
    }

    /** `new VectorImpl(input)`: a fresh vector holding the normalised
        input, or the error the constructor throws. */
    static method New(input: Arg<seq<JsValue>>) returns (r: Result<VectorImpl>)
      ensures Delivers(r, Normalize(input))
      ensures r.Ok? ==> fresh(r.value)
    {
      var parsed := ParseInput(input);
      if parsed.Err? {
        return Err(parsed.error);
      }
      var v := new VectorImpl.FromComponents(parsed.value);
      r := Ok(v);
    }

    /** get(i): the index checks in the code's order, on the counter. */
    method Get(i: Arg<real>) returns (r: Result<Option<real>>)
      requires Valid()
      ensures r == Lookup(values, i)
    {
      if !i.Given? {
        return Err(MissingIndex);
      }
      var x := i.value;
      if x < 0.0 {
        return Err(NegativeIndex);
      }
      if dimensions as real <= x {
        return Ok(None);
      }
      if x.Floor as real != x {
        return Err(FractionalIndex);
      }
      r := Ok(Some(values[x.Floor]));
    }

    /** push(o): append a present component and return its index. */
    method Push(o: Arg<real>) returns (r: Result<nat>)
      requires Valid()
      modifies this
      ensures Valid()
      ensures o.Given? ==> r == Ok(old(|values|)) && values == old(values) + [o.value]
      ensures !o.Given? ==> r == Err(MissingComponent) && values == old(values)
    {
      if !o.Given? {
        return Err(MissingComponent);
      }
      dimensions := dimensions + 1;
      values := values + [o.value];
      r := Ok(dimensions - 1);
    }

    /** remove(i): the checks of get, then cut the component out and
        return it. */
    method Remove(i: Arg<real>) returns (r: Result<Option<real>>)
      requires Valid()
      modifies this
      ensures Valid()
      ensures r == Lookup(old(values), i)
      ensures values == Removed(old(values), i)
    {
      if !i.Given? {
        return Err(MissingIndex);
      }
      var x := i.value;
      if x < 0.0 {
        return Err(NegativeIndex);
      }
      if dimensions as real <= x {
        return Ok(None);
      }
      if x.Floor as real != x {
        return Err(FractionalIndex);
      }
      var k := x.Floor;
      var removed := values[k];
      dimensions := dimensions - 1;
      values := values[..k] + values[k + 1..];
      r := Ok(Some(removed));
    }

    /** clear(): drop every component and return the same vector. */
    method Clear() returns (r: VectorImpl)
      requires Valid()
      modifies this
      ensures r == this && Valid()
      ensures values == [] && dimensions == 0
    {
      dimensions := 0;
      values := [];
      r := this;
    }

    /** The shared part of add, sub, mul and div: check the operand, then
        combine the components one index at a time, reading the operand's
        through its get; a division stops at the first zero divisor. */
    method Combined(op: Op, v: Arg<VectorImpl>) returns (r: Result<seq<real>>)
      requires Valid() && (v.Given? ==> v.value.Valid())
      ensures r == Combine(op, values, ValuesOf(v))
    {
      if !v.Given? {
        return Err(MissingVector);
      }
      var w := v.value;
      if w.dimensions != dimensions {
        return Err(DimensionMismatch);
      }
      var a, c := values, w.values;
      LookupOutcomes(c, Given(0.0));
      var res: seq<real> := [];
      var k := 0;
      while k < |a|
        invariant k <= |a| && |res| == k
        invariant forall j | 0 <= j < k :: op == Over ==> c[j] != 0.0
        invariant forall j | 0 <= j < k :: res[j] == Apply(op, a[j], c[j])
      {
        var got := w.Get(Given(k as real));
        assert got == Ok(Some(c[k]));
        var y := got.value.value;
        if op == Over && y == 0.0 {
          assert HasZero(c);
          return Err(DivisionByZero);
        }
        res := res + [Apply(op, a[k], y)];
        k := k + 1;
      }
      assert res == seq(|a|, j requires 0 <= j < |a| => Apply(op, a[j], c[j]));
      r := Ok(res);
    }

    /** One of the four operations, its result handed to createVector. */
    method Operate(op: Op, v: Arg<VectorImpl>, registry: Registry) returns (r: Result<VectorImpl>)
      requires Valid() && (v.Given? ==> v.value.Valid())
      ensures Delivers(r, Arithmetic(op, values, ValuesOf(v), registry.backend))
      ensures r.Ok? ==> fresh(r.value)
    {
      var c := Combined(op, v);
      if c.Err? {
        return Err(c.error);
      }
      r := registry.CreateVector(Given(Numbers(c.value)));
    }

    method Add(v: Arg<VectorImpl>, registry: Registry) returns (r: Result<VectorImpl>)
      requires Valid() && (v.Given? ==> v.value.Valid())
      ensures Delivers(r, Arithmetic(Plus, values, ValuesOf(v), registry.backend))
      ensures r.Ok? ==> fresh(r.value)
    {
      r := Operate(Plus, v, registry);
    }

    method Sub(v: Arg<VectorImpl>, registry: Registry) returns (r: Result<VectorImpl>)
      requires Valid() && (v.Given? ==> v.value.Valid())
      ensures Delivers(r, Arithmetic(Minus, values, ValuesOf(v), registry.backend))
      ensures r.Ok? ==> fresh(r.value)
    {
      r := Operate(Minus, v, registry);
    }

    method Mul(v: Arg<VectorImpl>, registry: Registry) returns (r: Result<VectorImpl>)
      requires Valid() && (v.Given? ==> v.value.Valid())
      ensures Delivers(r, Arithmetic(Times, values, ValuesOf(v), registry.backend))
      ensures r.Ok? ==> fresh(r.value)
    {
      r := Operate(Times, v, registry);
    }

    method Div(v: Arg<VectorImpl>, registry: Registry) returns (r: Result<VectorImpl>)
      requires Valid() && (v.Given? ==> v.value.Valid())
      ensures Delivers(r, Arithmetic(Over, values, ValuesOf(v), registry.backend))
      ensures r.Ok? ==> fresh(r.value)
    {
      r := Operate(Over, v, registry);
    }

    /** length() before the square root: refused without components,
        otherwise the squares summed from the first component on. */
    method Length() returns (r: Result<real>)
      requires Valid()
      ensures values == [] ==> r == Err(EmptyVector)
      ensures values != [] ==> r == Ok(SumOfSquares(values))
    {
      if dimensions == 0 {
        return Err(EmptyVector);
      }
      var acc := 0.0;
      var k := 0;
      while k < |values|
        invariant k <= |values| && acc == SumOfSquares(values[..k])
      {
        assert values[..k + 1][..k] == values[..k];
        acc := acc + Square(values[k]);
        k := k + 1;
      }
      assert values[..k] == values;
      r := Ok(acc);
    }

    /** toString(), with the number formatting as a parameter; the empty
        case is decided on the counter. */
    function ToString(format: real -> string): (r: string)
      reads this
      requires Valid()
      ensures r == Render(values, format)
    {
      "Vector[" + (if dimensions == 0 then "Empty" else Join(Formatted(values, format), ' ')) + "]"
    }

    /** equals(a): compare the counters, then every component against
        the other vector's get. A null or undefined argument fails on
        its missing dimensions. */
    method Equals(a: Arg<VectorImpl>) returns (r: Result<bool>)
      requires Valid() && (a.Given? ==> a.value.Valid())
      ensures !a.Given? ==> r == Err(TypeError)
      ensures a.Given? ==> r == Ok(Agree(values, a.value.values))
    {
      if !a.Given? {
        return Err(TypeError);
      }
      var w := a.value;
      if w.dimensions != dimensions {
        return Ok(false);
      }
      LookupOutcomes(w.values, Given(0.0));
      var same := true;
      var k := 0;
      while k < |values|
        invariant k <= |values|
        invariant same <==> forall j | 0 <= j < k :: w.values[j] == values[j]
      {
        var got := w.Get(Given(k as real));
        assert got == Ok(Some(w.values[k]));
        if got.value.value != values[k] {
          same := false;
        }
        k := k + 1;
      }
      r := Ok(same);
    }
  }

  /** The module-level `constructor` variable and the functions that set
      and read it. */
  class Registry {
    var backend: Backend

    /** Loading the module: the variable is declared null, but the
        module's last statement calls init(), so every caller finds the
        default implementation installed. */
    constructor ()
      ensures backend == VectorImplBackend
    {
      backend := VectorImplBackend;
    }

    method SetImplementation(c: Backend)
      modifies this
      ensures backend == c
    {
      backend := c;
    }

    method Init()
      modifies this
      ensures backend == VectorImplBackend
    {
      backend := VectorImplBackend;
    }

    /** createVector(args): refused while the variable is null, otherwise
        `new constructor(args)`, which fails on undefined. */
    method CreateVector(args: Arg<seq<JsValue>>) returns (r: Result<VectorImpl>)
      ensures Delivers(r, Created(backend, args))
      ensures r.Ok? ==> fresh(r.value)
    {
      if backend == NullBackend {
        return Err(NoImplementation);
      }
      if backend == UndefinedBackend {
        return Err(TypeError);
      }
      r := VectorImpl.New(args);
    }
  }
}
