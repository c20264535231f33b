# jest-vectors in Dafny

A model of the variable-length numeric vector of jest-vectors, and proofs
about it. The TypeScript class `VectorImpl` holds a `values` array and a
`dimensions` counter. Its constructor validates the input array and parses
strings with `parseInt`. `get`, `push`, `remove` and `clear` read or change
the components in place. `add`, `sub`, `mul` and `div` build a new vector
through the factory `createVector`. `equals`, `length` and `toString`
observe a vector. The module `Vector.ts` holds a mutable module-level
variable `constructor`, which `setImplementation` and `init` assign and
`createVector` reads.

The project has four files:

- `js.dfy` (module `Js`) models the part of JavaScript the code relies on:
  - arguments that may be `null` or `undefined`;
  - array elements of any run-time type;
  - the global `parseInt` called without a radix, as ECMA-262 defines it
    (leading white space, a sign, the `0x` prefix, the longest digit run);
  - the decimal numeral of an integer, a numeral that `parseInt` reads back
    as the same integer (a right inverse: many strings give the same number).
- `components.dfy` (module `Components`) states what every operation
  computes, as pure functions over the component sequence, and proves
  their properties.
- `vector.dfy` (module `Vector`) holds the two classes:
  - `VectorImpl` has the fields `values: seq<real>` and `dimensions: nat`,
    with the invariant `Valid()` (`dimensions == |values|`);
  - `Registry` holds the module-level `constructor` variable.

  Every method is proved against the functions of `Components`. Each forEach,
  filter and reduce of the source is a `while` loop with its invariants;
  the `join` of toString is the recursive function `Join`.
- `scenarios.dfy` (module `Scenarios`) replays the test suite's cases
  against the classes. Each method returns what a test observes, and its
  contract states what the test expects.

The JavaScript constructor either builds the object or throws. In Dafny,
the static method `VectorImpl.New` returns a `Result`. Every exception is
an `Err` value, with one error per distinct message. A null or undefined
value wherever the runtime itself throws (a property access,
or `new undefined`) is `TypeError`.

## Model

| member | source | states |
|---|---|---|
| Js.TrimStartFacts | src/VectorImpl.ts:26 | parseInt's white-space skip: the result is a suffix of the input, everything dropped is white space, and what is left does not start with white space |
| Js.DigitPrefixFacts | src/VectorImpl.ts:26 | the digits parseInt reads: a prefix made only of digits of the radix, and the longest such prefix |
| Js.NatString | src/VectorImpl.ts:26 | the decimal numeral of a natural number: decimal digits only, non-empty, no leading zero |
| Js.DigitsValueOfNatString | src/VectorImpl.ts:26 | reading a natural number's numeral digit by digit gives the number back |
| Js.ParseIntOfDecimalString | src/VectorImpl.ts:26 | parseInt reads back the decimal numeral of every integer, negative ones included, followed by anything that does not continue it: no digit, and no x or X right after a lone 0, which would switch parseInt to radix 16 |
| Js.ParseIntSkipsWhiteSpace | src/VectorImpl.ts:26 | leading white space never changes what parseInt returns |
| Js.ParseIntWithoutDigits | src/VectorImpl.ts:26 | a string that starts with no white space, no sign and no digit gives NaN |
| Js.ParseIntFoo | test/Vector.test.ts:66-73 | "foo" gives NaN |
| Js.ParseIntHex | src/VectorImpl.ts:26 | a sign followed by a hexadecimal numeral with the 0x prefix: "-0x1A" gives -26 |
| Js.ParseIntSingleDigits | test/Vector.test.ts:56-64 | "1" gives 1 and "2" gives 2 |
| Js.ParseIntStopsAtFraction | test/Vector.test.ts:56-64 | "5.0" gives 5: the fraction ends the digits |
| Js.ParseIntIgnoresTail | src/VectorImpl.ts:26 | "12abc" gives 12 |
| Components.Normalize | src/VectorImpl.ts:10-30 | a successful construction keeps one component per input element |
| Components.NormalizeAccepts | src/VectorImpl.ts:10-30 | the input array is accepted if and only if every element is a number other than NaN or a string parseInt reads; numbers are kept, strings become their parseInt value, and an absent element is reported before any other defect |
| Components.NormalizeNumbers | src/VectorImpl.ts:10-30 | an array of numbers is accepted unchanged |
| Components.NormalizeCoerced | src/VectorImpl.ts:19-30 | when every element comes out of the string pass as a number, those numbers are the components, in order |
| Components.CoerceNumeral | src/VectorImpl.ts:20-27 | the string pass turns the decimal numeral of any integer, followed by a tail such as ".0" that does not continue it (no digit, and no x or X right after a lone 0), into that integer |
| Components.NormalizeFive | src/VectorImpl.ts:10-30 | two parsable strings, two numbers and a parsable string are accepted as the parsed integers and the numbers |
| Components.NormalizeParsesStrings | test/Vector.test.ts:56-64 | ["1", "2", 3, 4, "5.0"] gives the components [1, 2, 3, 4, 5] |
| Components.NormalizeRejectsAbsent | test/Vector.test.ts:42-54 | a null or undefined element throws, even when an unparsable string comes before it |
| Components.NormalizeRejectsAt | src/VectorImpl.ts:29-30 | with no absent element, one element that is not a number after the string pass makes construction throw |
| Components.NormalizeRejectsUnparsable | test/Vector.test.ts:66-73 | [1, 2, 3, "foo", 4, 5] throws |
| Components.NormalizeRejectsObjects | test/Vector.test.ts:75-81 | an array nested among the numbers throws |
| Components.NormalizeEdgeCases | src/VectorImpl.ts:10-30 | NaN throws, the empty array gives the empty vector, null input throws its own error, and undefined input throws a TypeError |
| Components.CheckIndex | src/VectorImpl.ts:41-51 | an index that passes every check is a natural number below the dimensions |
| Components.LookupOutcomes | src/VectorImpl.ts:39-54 | get's five outcomes, each with an if-and-only-if: absent index, negative index, null at or above the dimensions (fractional or not), fractional index below the dimensions, and the component itself at every integral index below the dimensions |
| Components.LookupExamples | test/Vector.test.ts:85-123 | the test suite's get cases on [1, 2, 3], plus index 3.5, a soft miss because the range check runs before the integer check |
| Components.LookupAfterPush | src/VectorImpl.ts:56-65 | after a push, the new index gives the pushed value, earlier indexes give what they gave before, and later ones are soft misses |
| Components.LookupAfterRemove | src/VectorImpl.ts:67-86 | removing index k takes out exactly that component: indexes below k are kept, later ones shift down by one, and the last index becomes a soft miss |
| Components.RemovedUnlessFound | src/VectorImpl.ts:67-86 | a remove that throws or misses changes nothing; one that finds its component shortens the vector by one |
| Components.CombineOutcomes | src/VectorImpl.ts:97-157 | each error of the arithmetic, with an if-and-only-if: absent operand, then different dimensions, then a zero divisor for a division; otherwise the result has the same dimensions and component k is this[k] op v[k] |
| Components.SubtractThenAdd | src/VectorImpl.ts:111-123 | subtracting a vector and adding it back gives back the components |
| Components.DivideThenMultiply | src/VectorImpl.ts:139-157 | dividing by a vector without zeros and multiplying back gives back the components |
| Components.PlusAndTimesCommute | src/VectorImpl.ts:97-137 | addition and multiplication give the same result in either operand order |
| Components.CombineExamples | test/Vector.test.ts:226-305 | the test suite's sums, differences, products and quotients of [1, 2, 3] and [4, 5, 6]; a zero divisor, a shorter operand and a null operand are refused |
| Components.ArithmeticThroughBackend | src/VectorImpl.ts:105-108 | handing the result to createVector changes nothing under the default implementation; without one, an operation that would succeed throws, and the operation's own errors come first |
| Components.AgreeIsEquality | src/VectorImpl.ts:172-188 | equals' component comparison holds exactly when the sequences are equal, so it is reflexive and symmetric and it depends on the order |
| Components.AgreeExamples | test/Vector.test.ts:345-363 | [1, 2, 3] equals [1, 2, 3] but not [1, 3, 2] nor [1, 2, 3, 4] |
| Components.SumOfSquaresZero | src/VectorImpl.ts:164 | the sum of squares under length's square root is never negative, and it is zero exactly when every component is zero |
| Components.SumOfSquaresExample | test/Vector.test.ts:311-315 | the sum of squares of [1, 2, 3] is 14 |
| Components.SplitJoin | src/VectorImpl.ts:169 | splitting the space-joined components at the spaces gives them back, when no part holds a space |
| Components.RenderRecoversComponents | src/VectorImpl.ts:168-170 | toString gives "Vector[Empty]" without components; otherwise it is "Vector[", the parts, then "]", and the parts split at the spaces give back each component's rendering |
| Vector.VectorImpl.FromComponents | src/VectorImpl.ts:17-32 | the state after the checks: the components, and a counter equal to their number |
| Vector.VectorImpl.ParseInput | src/VectorImpl.ts:10-30 | the constructor's three loops (absent check, string overwrite, number check) compute exactly Normalize |
| Vector.VectorImpl.New | src/VectorImpl.ts:7-33 | `new VectorImpl(input)` gives a fresh, consistent vector holding Normalize's components, or Normalize's error |
| Vector.VectorImpl.Get | src/VectorImpl.ts:39-54 | get, with its checks on the counter, returns exactly Lookup of the components |
| Vector.VectorImpl.Push | src/VectorImpl.ts:56-65 | push of a present value appends it, keeps the counter in step and returns the new last index; null and undefined throw and change nothing |
| Vector.VectorImpl.Remove | src/VectorImpl.ts:67-86 | remove returns what get would have returned before it, leaves exactly Removed of the old components and keeps the counter in step |
| Vector.VectorImpl.Clear | src/VectorImpl.ts:88-95 | clear leaves no components and a zero counter, and returns the same object |
| Vector.VectorImpl.Combined | src/VectorImpl.ts:97-157 | the checks and the loop shared by the four operations, which reads the operand through its get and stops at the first zero divisor, compute exactly Combine |
| Vector.VectorImpl.Operate | src/VectorImpl.ts:105-108 | the loop's result handed to createVector gives exactly Arithmetic, as a fresh vector |
| Vector.VectorImpl.Add | src/VectorImpl.ts:97-109 | add is Arithmetic with the sum |
| Vector.VectorImpl.Sub | src/VectorImpl.ts:111-123 | sub is Arithmetic with the difference |
| Vector.VectorImpl.Mul | src/VectorImpl.ts:125-137 | mul is Arithmetic with the product |
| Vector.VectorImpl.Div | src/VectorImpl.ts:139-157 | div is Arithmetic with the quotient, refused on a zero divisor |
| Vector.VectorImpl.Length | src/VectorImpl.ts:159-166 | length throws without components; otherwise the loop that sums the squares from the first component on computes SumOfSquares |
| Vector.VectorImpl.ToString | src/VectorImpl.ts:168-170 | toString, which tests the counter for the empty case, agrees with Render of the components |
| Vector.VectorImpl.Equals | src/VectorImpl.ts:172-188 | equals is false on different counters; otherwise its flag loop over the other vector's get returns Agree of the components; a null or undefined argument throws a TypeError |
| Vector.Registry.constructor | src/Vector.ts:25-29 | the module starts with the default implementation, because its last statement calls init() |
| Vector.Registry.SetImplementation | src/Vector.ts:9-11 | setImplementation stores its argument |
| Vector.Registry.Init | src/Vector.ts:25-27 | init restores the default implementation |
| Vector.Registry.CreateVector | src/Vector.ts:18-23 | createVector throws while the variable is null and a TypeError when it is undefined; otherwise it gives exactly what `new VectorImpl(args)` gives, as a fresh vector |
| Scenarios.Lifecycle | test/Vector.test.ts:6-26 | with no implementation createVector throws; after init() it builds the empty vector, and null input throws |
| Scenarios.PushComponent | test/Vector.test.ts:127-149 | pushing 4 onto [1, 2, 3] returns 3, gives 4 dimensions and get(3) is 4; null and undefined are refused |
| Scenarios.RemoveComponent | test/Vector.test.ts:153-194 | remove(2) on [1, 2, 3] returns 3 and leaves 2 dimensions; then -1, null, undefined and 1.1 throw, and 3 and 2 are soft misses |
| Scenarios.ClearComponents | test/Vector.test.ts:198-219 | clear on [1, 2, 3] returns the same vector, leaves 0 dimensions, and get(0) is a soft miss |
| Scenarios.Operations | test/Vector.test.ts:226-305 | a.add(b).equals(c) and likewise for sub, mul and div; a zero divisor, a shorter operand and a null operand are refused |
| Scenarios.RefusedOperands | test/Vector.test.ts:228-253 | add, sub, mul and div each refuse a null and an undefined operand, and each refuses [1, 2] as the operand of [1, 2, 3] |
| Scenarios.Equality | test/Vector.test.ts:345-363 | [1, 2, 3] equals [1, 2, 3], but not [1, 3, 2] nor [1, 2, 3, 4] |
| Scenarios.ParsedStrings | test/Vector.test.ts:56-64 | the vector built from ["1", "2", 3, 4, "5.0"] equals [1, 2, 3, 4, 5] |
| Scenarios.Lengths | test/Vector.test.ts:309-322 | the sum of squares of [1, 2, 3] is 14, and the empty vector's length throws |

## Left out

- Floating point: components are unbounded reals, not IEEE doubles. Rounding, Infinity and NaN produced by arithmetic are not modelled. A NaN in the input is a value of its own, which the constructor refuses.
- Vector.VectorImpl.Length: returns the sum of squares, not its square root: `Math.sqrt` and `Math.pow` on doubles have no exact model. The suite's expected 3.7416573867739413 is therefore stated as the squared length 14.
- Vector.VectorImpl.ToString: the JavaScript number-to-string conversion is a parameter `format`, so only the frame of the rendering is proved ("Vector[Empty]", the brackets, the spaces).
- Js.ParseInt: reads every numeral exactly, with no rounding for magnitudes above 2^53.
- Vector.VectorImpl.Push, Vector.VectorImpl.Get and Vector.VectorImpl.Remove: a component or an index is a real or absent. NaN, Infinity and non-number values passed there are not modelled; in particular remove and get with a NaN index, which the code refuses through its integer check, cannot be expressed.
- Array holes: an input array is a sequence of values, so a sparse array such as `new Array(2)` cannot be expressed. In the code, `filter` and `forEach` skip holes while `length` counts them, so such an array is accepted with `dimensions` counting the holes and `get` returning undefined for them.
- Array aliasing: the code stores the caller's array as `values` and overwrites its string slots in place, and the storage stays shared after construction. A later `push` by the caller on that array changes `values` but not `dimensions`, breaking `dimensions == values.length`, and the vector's own `push`, `remove` and `clear` change the caller's array. The model copies the input into a sequence the vector owns, so the caller's array is never changed, `Valid()` holds only because of that ownership, and the private `input` field is not kept.
- setImplementation with an arbitrary user-supplied constructor: the variable can hold only null, undefined or VectorImpl here.
- The module-level variable of `Vector.ts` is the field of a `Registry` object. Callers pass the registry to the arithmetic methods, which read it through createVector.
- The `Vector` interface as a type for other implementations: operands are always `VectorImpl` objects, and they are assumed consistent (`Valid()`).
- "Neither operand is modified" by add, sub, mul and div is guaranteed structurally: those methods have no `modifies` clause.
