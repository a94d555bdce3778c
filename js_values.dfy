/**
 * JavaScript values as the workflow runner, the config merger and the command
 * adapters see them: `undefined`, `null`, booleans, numbers, strings, arrays
 * and plain objects, with the language's truthiness, `typeof`, property
 * lookup (`v[key]`) and own-property enumeration (`Object.entries`, `for...in`).
 */
module JsValues {

  datatype Value =
    | Undefined
    | Null
    | Bool(b: bool)
    | Num(n: int)
    | Str(chars: string)
    | Arr(elems: seq<Value>)
    | Obj(props: map<string, Value>)

  /** Errors a run can end with. */
  datatype Error =
    | Thrown(message: string)          // `throw new Error(message)` in the source
    | TypeError                        // property read on null/undefined, `.map` of undefined, ...
    | ReferenceError(name: string)     // use of an undeclared identifier
    | LoadFailed(key: Value)           // a service loader found no valid module for `key`
    | Failed(reason: string)           // a rejection from a collaborator (command, service)

  datatype Result<+T> = Ok(value: T) | Err(error: Error) {
    predicate IsFailure() { Err? }
    function PropagateFailure<U>(): Result<U> requires Err? { Err(error) }
    function Extract(): T requires Ok? { value }
  }

  datatype Option<+T> = None | Some(value: T)

  /** `!!v` */
  predicate Truthy(v: Value)
  {
    match v
    case Undefined => false
    case Null => false
    case Bool(b) => b
    case Num(n) => n != 0
    case Str(s) => s != ""
    case Arr(_) => true
    case Obj(_) => true
  }

  /** `v === null || v === undefined`: the values `??` and `?.` skip, and the
      ones whose properties cannot be read. */
  predicate Nullish(v: Value)
  {
    v.Undefined? || v.Null?
  }

  /** `typeof v` (functions are not values of this model). */
  function TypeOf(v: Value): (t: string)
    ensures t == "object" <==> v.Null? || v.Arr? || v.Obj?
  {
    match v
    case Undefined => "undefined"
    case Null => "object"
    case Bool(_) => "boolean"
    case Num(_) => "number"
    case Str(_) => "string"
    case Arr(_) => "object"
    case Obj(_) => "object"
  }

  /** `a || b` */
  function Or(a: Value, b: Value): (r: Value)
    ensures Truthy(a) ==> r == a
    ensures !Truthy(a) ==> r == b
  {
    if Truthy(a) then a else b
  }

  /** `a ?? b` */
  function Coalesce(a: Value, b: Value): (r: Value)
    ensures !Nullish(a) ==> r == a
    ensures Nullish(a) ==> r == b
  {
    if Nullish(a) then b else a
  }

  function DigitChar(d: nat): char
    requires d < 10
  {
    "0123456789"[d]
  }

  /** The decimal spelling of a non-negative integer, which is the property
      key under which an array or string holds its element `n`. */
  function NatToString(n: nat): (s: string)
    ensures |s| >= 1
    ensures (|s| == 1) == (n < 10)
    decreases n
  {
    if n < 10 then [DigitChar(n)] else NatToString(n / 10) + [DigitChar(n % 10)]
  }

  lemma {:induction false} NatToStringInjectivePair(i: nat, j: nat)
    requires NatToString(i) == NatToString(j)
    ensures i == j
    decreases i
  {
    if i < 10 || j < 10 {
      assert i < 10 && j < 10;
      assert NatToString(i)[0] == DigitChar(i) && NatToString(j)[0] == DigitChar(j);
    } else {
      var si, sj := NatToString(i), NatToString(j);
      assert si == NatToString(i / 10) + [DigitChar(i % 10)];
      assert sj == NatToString(j / 10) + [DigitChar(j % 10)];
      assert si[..|si| - 1] == NatToString(i / 10);
      assert sj[..|sj| - 1] == NatToString(j / 10);
      assert si[|si| - 1] == DigitChar(i % 10) && sj[|sj| - 1] == DigitChar(j % 10);
      NatToStringInjectivePair(i / 10, j / 10);
    }
  }

  /** Distinct indices are distinct property keys. */
  lemma NatToStringInjective()
    ensures forall i: nat, j: nat :: NatToString(i) == NatToString(j) ==> i == j
  {
    forall i: nat, j: nat | NatToString(i) == NatToString(j) ensures i == j {
      NatToStringInjectivePair(i, j);
    }
  }

  /** Own index-keyed properties of an array or string: key `NatToString(i)`
      holds element `i`. */
  function IndexProps<T>(xs: seq<T>, f: T -> Value): map<string, Value>
    decreases |xs|
  {
    if xs == [] then map[]
    else IndexProps(xs[..|xs| - 1], f)[NatToString(|xs| - 1) := f(xs[|xs| - 1])]
  }

  /** Each position's spelling is a key holding that position's element. */
  lemma {:induction false} IndexPropsValues<T>(xs: seq<T>, f: T -> Value)
    ensures forall i :: 0 <= i < |xs| ==>
      NatToString(i) in IndexProps(xs, f) && IndexProps(xs, f)[NatToString(i)] == f(xs[i])
    decreases |xs|
  {
    if xs != [] {
      var n := |xs| - 1;
      var front := xs[..n];
      IndexPropsValues(front, f);
      var m := IndexProps(xs, f);
      assert m == IndexProps(front, f)[NatToString(n) := f(xs[n])];
      forall i | 0 <= i < |xs|
        ensures NatToString(i) in m && m[NatToString(i)] == f(xs[i])
      {
        if i < n {
          if NatToString(i) == NatToString(n) {
            NatToStringInjectivePair(i, n);
          }
          assert front[i] == xs[i];
        }
      }
    }
  }

  /** Every key is the spelling of some position. */
  lemma {:induction false} IndexPropsKeys<T>(xs: seq<T>, f: T -> Value)
    ensures forall k :: k in IndexProps(xs, f) ==> exists i :: 0 <= i < |xs| && k == NatToString(i)
    decreases |xs|
  {
    if xs != [] {
      var n := |xs| - 1;
      var front := xs[..n];
      IndexPropsKeys(front, f);
      var m := IndexProps(xs, f);
      assert m == IndexProps(front, f)[NatToString(n) := f(xs[n])];
      forall k | k in m
        ensures exists i :: 0 <= i < |xs| && k == NatToString(i)
      {
        if k != NatToString(n) {
          assert k in IndexProps(front, f);
          var j :| 0 <= j < |front| && k == NatToString(j);
          assert 0 <= j < |xs|;
        } else {
          assert 0 <= n < |xs| && k == NatToString(n);
        }
      }
      assert forall k :: k in IndexProps(xs, f) ==> exists i :: 0 <= i < |xs| && k == NatToString(i);
    }
  }

  /** The index keys are exactly the spellings of the positions, each holding
      its element. */
  lemma IndexPropsSpec<T>(xs: seq<T>, f: T -> Value)
    ensures forall i :: 0 <= i < |xs| ==>
      NatToString(i) in IndexProps(xs, f) && IndexProps(xs, f)[NatToString(i)] == f(xs[i])
    ensures forall k :: k in IndexProps(xs, f) ==> exists i :: 0 <= i < |xs| && k == NatToString(i)
  {
    IndexPropsValues(xs, f);
    IndexPropsKeys(xs, f);
  }

  /** The own enumerable properties `Object.entries(v)` and `for (k in v)`
      visit (for null and undefined `for...in` visits nothing). */
  function OwnProps(v: Value): map<string, Value>
  {
    match v
    case Obj(m) => m
    case Arr(es) => IndexProps(es, (e: Value) => e)
    case Str(cs) => IndexProps(cs, (c: char) => Str([c]))
    case _ => map[]
  }

  /** An array's own properties: its elements under their index keys. */
  lemma ArrProps(es: seq<Value>)
    ensures forall i :: 0 <= i < |es| ==>
      NatToString(i) in OwnProps(Arr(es)) && OwnProps(Arr(es))[NatToString(i)] == es[i]
    ensures forall k :: k in OwnProps(Arr(es)) ==> exists i :: 0 <= i < |es| && k == NatToString(i)
  {
    IndexPropsSpec(es, (e: Value) => e);
  }

  /** A string's own properties: its one-character strings under their
      index keys. */
  lemma StrProps(cs: string)
    ensures forall i :: 0 <= i < |cs| ==>
      NatToString(i) in OwnProps(Str(cs)) && OwnProps(Str(cs))[NatToString(i)] == Str([cs[i]])
    ensures forall k :: k in OwnProps(Str(cs)) ==> exists i :: 0 <= i < |cs| && k == NatToString(i)
  {
    IndexPropsSpec(cs, (c: char) => Str([c]));
  }

  /** `v[key]`: reading a property of null or undefined throws; a missing
      property reads as `undefined`; arrays and strings also have `length`. */
  function Get(v: Value, key: string): (r: Result<Value>)
    ensures r.Err? <==> Nullish(v)
    ensures r.Err? ==> r.error == TypeError
    ensures r.Ok? && key in OwnProps(v) ==> r.value == OwnProps(v)[key]
    ensures r.Ok? && v.Obj? && key !in v.props ==> r.value == Undefined
  {
    if Nullish(v) then Err(TypeError)
    else if key in OwnProps(v) then Ok(OwnProps(v)[key])
    else match v
      case Arr(es) => Ok(if key == "length" then Num(|es|) else Undefined)
      case Str(cs) => Ok(if key == "length" then Num(|cs|) else Undefined)
      case _ => Ok(Undefined)
  }

  /** `v[key]` on a value known not to be null or undefined. */
  function Prop(v: Value, key: string): Value
    requires !Nullish(v)
  {
    Get(v, key).value
  }

  /** `v[i]` for a number `i`: the key is the decimal spelling of `i`. */
  function GetIndex(v: Value, i: nat): Result<Value>
  {
    Get(v, NatToString(i))
  }

  /** Indexing an array by position reads its elements, and past the end reads
      `undefined`; so does every other non-nullish, non-array value whose own
      properties do not spell that index. */
  lemma GetIndexSpec(v: Value, i: nat)
    ensures v.Arr? && i < |v.elems| ==> GetIndex(v, i) == Ok(v.elems[i])
    ensures v.Arr? && i >= |v.elems| ==> GetIndex(v, i) == Ok(Undefined)
    ensures v.Str? && i < |v.chars| ==> GetIndex(v, i) == Ok(Str([v.chars[i]]))
    ensures (v.Bool? || v.Num?) ==> GetIndex(v, i) == Ok(Undefined)
  {
    var k := NatToString(i);
    if v.Arr? {
      ArrProps(v.elems);
    } else if v.Str? {
      StrProps(v.chars);
    }
    if v.Arr? && i >= |v.elems| {
      if k in OwnProps(v) {
        var j :| 0 <= j < |v.elems| && k == NatToString(j);
        NatToStringInjectivePair(i, j);
      }
      assert k != "length" by {
        assert k[0] in "0123456789" by { NatToStringFirstDigit(i); }
      }
    }
  }

  lemma {:induction false} NatToStringFirstDigit(n: nat)
    ensures NatToString(n)[0] in "0123456789"
    decreases n
  {
    if n >= 10 {
      NatToStringFirstDigit(n / 10);
    }
  }

  /** A plain JavaScript object whose properties are updated in place. */
  class JsObject {
    var props: map<string, Value>

    /** `{ ...from }`: a fresh object with the same own properties. */
    constructor (from: map<string, Value>)
      ensures props == from
    {
      props := from;
    }

    /** `this[key] = v` */
    method Set(key: string, v: Value)
      modifies this
      ensures props == old(props)[key := v]
    {
      props := props[key := v];
    }
  }
}
