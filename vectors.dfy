/** The vector abstraction of the clustering engine (vector.go): dynamically typed
    dimension values, their coercion to numbers, and the built-in `Coordinate`
    vector with its memoised signature. */
module Vectors {
  import opened Wrappers

  /** A dimension value: what a Go `interface{}` holds. The numeric kinds keep their
      value as a mathematical number; every other kind the source does not coerce is
      represented by a few typical ones (`Int32`, `Uint`, `Str`, `Bool`). */
  datatype Value =
    | Nil
    | Float64(f: real)
    | Float32(f: real)
    | Int64(n: int)
    | Int(n: int)
    | Uintptr(u: nat)
    | Int32(n: int)
    | Uint(u: nat)
    | Str(s: string)
    | Bool(b: bool)
  {
    /** The kinds the coercion converts to a number: float64, float32, int64, int and uintptr. */
    predicate IsCoercible() {
      Float64? || Float32? || Int64? || Int? || Uintptr?
    }
  }

  /** Coerces a dimension value to a number (quantifyAsFloat64). A transformer, when
      present, decides alone; otherwise the five numeric kinds give their value and
      nil and every other kind give 0. */
  function QuantifyAsFloat64(transformer: Option<Value -> real>, v: Value): (r: real)
    ensures transformer.Some? ==> r == transformer.value(v)
    ensures transformer.None? && !v.IsCoercible() ==> r == 0.0
    ensures transformer.None? && (v.Float64? || v.Float32?) ==> r == v.f
    ensures transformer.None? && (v.Int64? || v.Int?) ==> r == v.n as real
    ensures transformer.None? && v.Uintptr? ==> r == v.u as real
  {
    if transformer.Some? then transformer.value(v)
    else
      match v
      case Float64(x) => x
      case Float32(x) => x
      case Int64(n) => n as real
      case Int(n) => n as real
      case Uintptr(u) => u as real
      case _ => 0.0
  }

  /** What the clustering engine sees of any Go `Vector`: the value `Dimension(i)`
      returns for each `i < Len()`, and the value of `Signature()`. */
  datatype Vector = Vector(dims: seq<Value>, signature: string)

  datatype DimensionError = DimensionIndexOutOfBounds

  /** Go's strings.Join. */
  function Join(parts: seq<string>, sep: string): string
    decreases |parts|
  {
    if |parts| == 0 then ""
    else if |parts| == 1 then parts[0]
    else Join(parts[..|parts| - 1], sep) + sep + parts[|parts| - 1]
  }

  /** Each dimension formatted by `format`, which stands for Go's `%#v` verb. */
  function FormatAll(format: Value -> string, dims: seq<Value>): (r: seq<string>)
    ensures |r| == |dims|
    ensures forall i :: 0 <= i < |dims| ==> r[i] == format(dims[i])
    decreases |dims|
  {
    if |dims| == 0 then []
    else FormatAll(format, dims[..|dims| - 1]) + [format(dims[|dims| - 1])]
  }

  /** The signature of a coordinate: its formatted dimensions joined with "-". */
  function SignatureOf(format: Value -> string, dims: seq<Value>): string {
    Join(FormatAll(format, dims), "-")
  }

  /** The built-in vector. `memoizedSignature` is `None` until the first Signature call. */
  class Coordinate {
    var dims: seq<Value>
    var memoizedSignature: Option<string>

    constructor (dims: seq<Value>)
      ensures this.dims == dims && memoizedSignature == None
    {
      this.dims := dims;
      memoizedSignature := None;
    }

    /** The memo, once set, holds the signature of the current dimensions. */
    ghost predicate Valid(format: Value -> string)
      reads this
    {
      memoizedSignature.Some? ==> memoizedSignature.value == SignatureOf(format, dims)
    }

    /** Returns the memo when there is one; otherwise formats the dimensions, joins
        them with "-", stores the result and returns it. */
    method Signature(format: Value -> string) returns (s: string)
      modifies this`memoizedSignature
      ensures old(memoizedSignature).Some? ==> s == old(memoizedSignature).value
      ensures old(memoizedSignature).None? ==> s == SignatureOf(format, dims)
      ensures memoizedSignature == Some(s)
      ensures old(Valid(format)) ==> Valid(format) && s == SignatureOf(format, dims)
    {
      if memoizedSignature.Some? {
        return memoizedSignature.value;
      }
      var allStrings: seq<string> := [];
      for i := 0 to |dims|
        invariant allStrings == FormatAll(format, dims[..i])
      {
        assert dims[..i + 1][..i] == dims[..i];
        allStrings := allStrings + [format(dims[i])];
      }
      assert dims[..|dims|] == dims;
      s := Join(allStrings, "-");
      memoizedSignature := Some(s);
    }
  }

  /** Builds a coordinate from its dimensions, in argument order (NewCoordinate). */
  method NewCoordinate(dims: seq<Value>) returns (c: Coordinate)
    ensures fresh(c)
    ensures c.dims == dims && c.memoizedSignature == None
    ensures Len(c) == |dims|
    ensures forall i :: 0 <= i < |dims| ==> Dimension(c, i) == Success(dims[i])
    ensures forall i :: |dims| <= i ==> Dimension(c, i) == Failure(DimensionIndexOutOfBounds)
  {
    c := new Coordinate(dims);
  }

  /** The number of dimensions; 0 for a nil coordinate. */
  function Len(c: Coordinate?): (n: nat)
    reads c
    ensures c == null ==> n == 0
    ensures c != null ==> n == |c.dims|
  {
    if c == null then 0 else |c.dims|
  }

  /** The i-th dimension, or DimensionIndexOutOfBounds when `i >= Len(c)`. A negative
      index is not checked by the source (it panics), hence the precondition. */
  function Dimension(c: Coordinate?, i: int): (r: Result<Value, DimensionError>)
    reads c
    requires 0 <= i
    ensures r.Failure? <==> i >= Len(c)
    ensures r.Failure? ==> r.error == DimensionIndexOutOfBounds
    ensures r.Success? ==> c != null && r.value == c.dims[i]
  {
    if i >= Len(c) then Failure(DimensionIndexOutOfBounds) else Success(c.dims[i])
  }

  /** How the clustering engine sees a coordinate whose memo is consistent. */
  function AsVector(c: Coordinate, format: Value -> string): (v: Vector)
    reads c
    requires c.Valid(format)
    ensures |v.dims| == Len(c)
    ensures forall i :: 0 <= i < Len(c) ==> Dimension(c, i) == Success(v.dims[i])
    ensures v.signature == SignatureOf(format, c.dims)
  {
    Vector(c.dims, SignatureOf(format, c.dims))
  }

  /** Asking a coordinate with a consistent memo for its signature returns the
      signature of its engine view, and the view stays the same. */
  method SignatureOfView(c: Coordinate, format: Value -> string) returns (s: string)
    requires c.Valid(format)
    modifies c`memoizedSignature
    ensures c.Valid(format)
    ensures s == old(AsVector(c, format)).signature
    ensures AsVector(c, format) == old(AsVector(c, format))
  {
    s := c.Signature(format);
  }

  /** Two coordinates with the same dimensions report the same signature, whether
      or not their memos are already set (as long as each memo is consistent), and
      asking again returns the stored value. */
  method SignaturesAgree(a: Coordinate, b: Coordinate, format: Value -> string)
      returns (sa: string, sb: string, sa2: string)
    requires a.dims == b.dims
    requires a.Valid(format) && b.Valid(format)
    modifies a`memoizedSignature, b`memoizedSignature
    ensures sa == sb == sa2
  {
    sa := a.Signature(format);
    sb := b.Signature(format);
    sa2 := a.Signature(format);
  }
}
