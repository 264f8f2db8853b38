/** The structural type system of the compiler: integers, pointers to a type,
    and fixed-size arrays of a type. Multi-level pointers are nested `Pointer`
    nodes and N-dimensional arrays are nested `Array` nodes. */
module Types {
  import opened MachineInt
  import opened Wrappers

  /** `SType` of the implementation. The C++ record carries an inner-type
      pointer and an array size for every tag; only the fields a tag uses are
      kept here, since no operation reads the others. */
  datatype Type = Integer | Pointer(inner: Type) | Array(inner: Type, size: u32)

  /** `SType::operator==`: the tags must agree, then the payloads of that tag. */
  predicate Equal(a: Type, b: Type)
  {
    match a
    case Integer => b.Integer?
    case Array(ai, an) => b.Array? && an == b.size && Equal(ai, b.inner)
    case Pointer(ai) => b.Pointer? && Equal(ai, b.inner)
  }

  /** `SType::operator!=`. */
  predicate NotEqual(a: Type, b: Type)
  {
    !Equal(a, b)
  }

  /** The hand-written comparison is exactly structural equality of values. */
  lemma {:induction false} EqualIsStructural(a: Type, b: Type)
    ensures Equal(a, b) <==> a == b
  {
    match a
    case Integer =>
    case Array(ai, _) =>
      if b.Array? {
        EqualIsStructural(ai, b.inner);
      }
    case Pointer(ai) =>
      if b.Pointer? {
        EqualIsStructural(ai, b.inner);
      }
  }

  /** `!=` is the negation of `==`, and `==` is an equivalence. */
  lemma EqualIsEquivalence(a: Type, b: Type, c: Type)
    ensures NotEqual(a, b) <==> a != b
    ensures Equal(a, a)
    ensures Equal(a, b) <==> Equal(b, a)
    ensures Equal(a, b) && Equal(b, c) ==> Equal(a, c)
  {
    EqualIsStructural(a, b);
    EqualIsStructural(a, a);
    EqualIsStructural(b, a);
    EqualIsStructural(b, c);
    EqualIsStructural(a, c);
  }

  /** How `==` decides, tag by tag: different tags never compare equal, all
      integers are equal, arrays compare size and element type, pointers
      compare their target type. */
  lemma EqualByTag(a: Type, b: Type)
    ensures a.Integer? != b.Integer? || a.Array? != b.Array? ==> !Equal(a, b)
    ensures a.Integer? && b.Integer? ==> Equal(a, b)
    ensures a.Array? && b.Array? ==>
      (Equal(a, b) <==> a.size == b.size && a.inner == b.inner)
    ensures a.Pointer? && b.Pointer? ==> (Equal(a, b) <==> a.inner == b.inner)
  {
    EqualIsStructural(a, b);
  }

  /** The number of words a value of type `t` occupies, over unbounded
      integers. */
  function Size(t: Type): nat
  {
    match t
    case Integer => 1
    case Pointer(_) => 1
    case Array(inner, n) => n * Size(inner)
  }

  /** `GetSize`: the same word count in `uint32_t` arithmetic, so the product
      of an array's size and its element size wraps around at 2^32. */
  function GetSize(t: Type): (r: u32)
    ensures r == Size(t) % TWO_32
    ensures !t.Array? ==> r == 1
  {
    match t
    case Integer => 1
    case Pointer(_) => 1
    case Array(inner, n) =>
      var e := GetSize(inner);
      MulMod(n, Size(inner));
      ToU32(n * e)
  }

  /** `(a * (b mod m)) mod m == (a * b) mod m` for m = 2^32. */
  lemma MulMod(a: nat, b: nat)
    ensures (a * (b % TWO_32)) % TWO_32 == (a * b) % TWO_32
  {
    var q := b / TWO_32;
    var r := b % TWO_32;
    assert b == q * TWO_32 + r;
    assert a * b == a * r + (a * q) * TWO_32;
    ShiftMod(a * r, a * q);
  }

  lemma ShiftMod(x: nat, k: nat)
    ensures (x + k * TWO_32) % TWO_32 == x % TWO_32
  {
  }

  function Product(dims: seq<u32>): nat
  {
    if |dims| == 0 then 1 else dims[0] * Product(dims[1..])
  }

  /** `BuildMultiLevelPointerType`: `level` pointer nodes wrapped around
      `inner`. */
  function BuildMultiLevelPointerType(level: u32, inner: Type): (r: Type)
    ensures level == 0 ==> r == inner
    ensures level > 0 ==> r.Pointer? && GetSize(r) == 1
  {
    if level == 0 then inner
    else Pointer(BuildMultiLevelPointerType(level - 1, inner))
  }

  /** Removes `n` pointer levels, failing on a type that has fewer. */
  function StripPointers(t: Type, n: nat): Option<Type>
  {
    if n == 0 then Some(t)
    else if t.Pointer? then StripPointers(t.inner, n - 1)
    else None
  }

  /** Stripping as many levels as were built gives back the base type. */
  lemma {:induction false} PointerRoundTrip(level: u32, inner: Type)
    ensures StripPointers(BuildMultiLevelPointerType(level, inner), level) == Some(inner)
  {
    if level > 0 {
      PointerRoundTrip(level - 1, inner);
    }
  }

  /** Building in two steps is building once with the summed level. */
  lemma {:induction false} PointerLevelsAdd(m: u32, n: u32, inner: Type)
    requires m + n < TWO_32
    ensures BuildMultiLevelPointerType(m, BuildMultiLevelPointerType(n, inner))
         == BuildMultiLevelPointerType(m + n, inner)
  {
    if m > 0 {
      PointerLevelsAdd(m - 1, n, inner);
    }
  }

  /** `BuildNDimArrayType`: the dimensions `dims[start..]` wrapped around
      `inner`, the first of them outermost. */
  function BuildNDimArrayType(dims: seq<u32>, start: nat, inner: Type): (r: Type)
    requires start <= |dims|
    ensures start == |dims| ==> r == inner
    ensures start < |dims| ==> r.Array? && r.size == dims[start]
    decreases |dims| - start
  {
    if start == |dims| then inner
    else Array(BuildNDimArrayType(dims, start + 1, inner), dims[start])
  }

  /** The sizes of the nested array levels of a type, outermost first. */
  function Dimensions(t: Type): seq<u32>
  {
    if t.Array? then [t.size] + Dimensions(t.inner) else []
  }

  /** The type under all array levels. */
  function ElementType(t: Type): Type
  {
    if t.Array? then ElementType(t.inner) else t
  }

  /** Reading back the dimensions of a built array type yields the suffix
      of the dimension list it was built from, and its non-array base. */
  lemma {:induction false} ArrayRoundTrip(dims: seq<u32>, start: nat, inner: Type)
    requires start <= |dims|
    requires !inner.Array?
    ensures Dimensions(BuildNDimArrayType(dims, start, inner)) == dims[start..]
    ensures ElementType(BuildNDimArrayType(dims, start, inner)) == inner
    decreases |dims| - start
  {
    if start < |dims| {
      ArrayRoundTrip(dims, start + 1, inner);
      assert dims[start..] == [dims[start]] + dims[start + 1..];
    }
  }

  /** Every type is the array type built from its own dimensions. */
  lemma {:induction false} ArrayRebuild(t: Type)
    ensures BuildNDimArrayType(Dimensions(t), 0, ElementType(t)) == t
  {
    if t.Array? {
      ArrayRebuild(t.inner);
      ArrayBuildShift(Dimensions(t.inner), [t.size], ElementType(t));
    }
  }

  /** Building from a longer list starting one later is building from the
      shorter list. */
  lemma {:induction false} ArrayBuildShift(dims: seq<u32>, prefix: seq<u32>, inner: Type)
    ensures BuildNDimArrayType(prefix + dims, |prefix|, inner)
         == BuildNDimArrayType(dims, 0, inner)
    decreases |dims|
  {
    if |dims| > 0 {
      ArrayBuildShift(dims[1..], prefix + [dims[0]], inner);
      assert prefix + [dims[0]] + dims[1..] == prefix + dims;
      ArrayBuildShift(dims[1..], [dims[0]], inner);
      assert [dims[0]] + dims[1..] == dims;
    }
  }

  /** The word count of an N-dimensional array is the product of its
      dimensions times its element size. */
  lemma {:induction false} ArraySizeIsProduct(dims: seq<u32>, start: nat, inner: Type)
    requires start <= |dims|
    ensures Size(BuildNDimArrayType(dims, start, inner)) == Product(dims[start..]) * Size(inner)
    decreases |dims| - start
  {
    if start < |dims| {
      ArraySizeIsProduct(dims, start + 1, inner);
      assert dims[start..][1..] == dims[start + 1..];
      var rest := Product(dims[start + 1..]);
      calc {
        Size(BuildNDimArrayType(dims, start, inner));
        dims[start] * (rest * Size(inner));
        (dims[start] * rest) * Size(inner);
      }
    }
  }

  /** `GetSize(BuildNDimArrayType(dims, 0, Integer))` is the product of the
      dimensions, reduced modulo 2^32 as `uint32_t` arithmetic does. */
  lemma IntegerArraySize(dims: seq<u32>)
    ensures GetSize(BuildNDimArrayType(dims, 0, Integer)) == Product(dims) % TWO_32
  {
    ArraySizeIsProduct(dims, 0, Integer);
    assert dims[0..] == dims;
    var t := BuildNDimArrayType(dims, 0, Integer);
    var n := Product(dims);
    assert Size(t) == n * 1 == n;
  }

  /** While the product of the dimensions fits in 32 bits, `GetSize` of the
      integer array is exactly that product. */
  lemma IntegerArraySizeFits(dims: seq<u32>)
    requires Product(dims) < TWO_32
    ensures GetSize(BuildNDimArrayType(dims, 0, Integer)) == Product(dims)
  {
    IntegerArraySize(dims);
    var n := Product(dims);
    assert 0 <= n < TWO_32 ==> n % TWO_32 == n;
  }
}
