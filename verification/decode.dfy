/**
 * Conversions from parsed values to typed data: scalars, sequences, sets,
 * pairs and string-keyed maps. A conversion either yields the typed value or
 * a `DecodeError` naming what went wrong and where; composite conversions
 * take the element conversion as a parameter, as the generic conversions of
 * the parser module do.
 */
module Decode {
  import opened Wrappers
  import opened LuaAst

  /** The variant a conversion expected. */
  datatype Kind = MapKind | ArrayKind | BoolKind | StrKind | IntKind | FloatKind | ExprKind

  /** One constructor per kind of error message the conversions produce. */
  datatype DecodeError =
    | NotA(kind: Kind)
    | InvalidSizedArray
    | FirstArgBad
    | SecondArgBad
    | BadChild(index: nat, cause: DecodeError)
    | BadSetElement(index: nat)
    | BadEntry(key: string, cause: DecodeError)
    | MissingKey(key: string)
    | NoResultEntry
    | CannotDecodeIngredient

  type Decoded<T> = Result<T, DecodeError>

  /**
   * A floating-point number as read from a value: the text of a float
   * numeral, or an integer promoted to floating point. The arithmetic value is
   * not modelled.
   */
  datatype Float64 = FloatText(text: string) | IntValue(i: int)

  // ---------------------------------------------------------------------------
  // Scalars

  function DecodeBool(o: LuaObject): (r: Decoded<bool>)
    ensures r.Success? <==> o.Bool?
    ensures r.Success? ==> o == Bool(r.value)
    ensures r.Failure? ==> r.error == NotA(BoolKind)
  {
    match o
    case Bool(b) => Success(b)
    case _ => Failure(NotA(BoolKind))
  }

  function DecodeStr(o: LuaObject): (r: Decoded<string>)
    ensures r.Success? <==> o.Str?
    ensures r.Success? ==> o == Str(r.value)
    ensures r.Failure? ==> r.error == NotA(StrKind)
  {
    match o
    case Str(s) => Success(s)
    case _ => Failure(NotA(StrKind))
  }

  function DecodeInt(o: LuaObject): (r: Decoded<int>)
    ensures r.Success? <==> o.Int?
    ensures r.Success? ==> o == Int(r.value)
    ensures r.Failure? ==> r.error == NotA(IntKind)
  {
    match o
    case Int(i) => Success(i)
    case _ => Failure(NotA(IntKind))
  }

  /** A float, or an integer promoted to floating point. */
  function DecodeFloat(o: LuaObject): (r: Decoded<Float64>)
    ensures r.Success? <==> o.Float? || o.Int?
    ensures r.Success? ==> EncodeFloat(r.value) == o
    ensures r.Failure? ==> r.error == NotA(FloatKind)
  {
    match o
    case Float(t) => Success(FloatText(t))
    case Int(i) => Success(IntValue(i))
    case _ => Failure(NotA(FloatKind))
  }

  /** The value a number is written back as. */
  function EncodeFloat(x: Float64): LuaObject {
    match x
    case FloatText(t) => Float(t)
    case IntValue(i) => Int(i)
  }

  function DecodeExpr(o: LuaObject): (r: Decoded<LuaExpr>)
    ensures r.Success? <==> o.Expr?
    ensures r.Success? ==> o == LuaObject.Expr(r.value)
    ensures r.Failure? ==> r.error == NotA(ExprKind)
  {
    match o
    case Expr(e) => Success(e)
    case _ => Failure(NotA(ExprKind))
  }

  /** A map whose values are kept as they are; this conversion fails only on a non-map. */
  function DecodeRawMap(o: LuaObject): (r: Decoded<map<string, LuaObject>>)
    ensures r.Success? <==> o.Map?
    ensures r.Success? ==> o == Map(r.value)
    ensures r.Failure? ==> r.error == NotA(MapKind)
  {
    match o
    case Map(m) => Success(m)
    case _ => Failure(NotA(MapKind))
  }

  /** `Float64` written back and read again is itself. */
  lemma FloatRoundTrip(x: Float64)
    ensures DecodeFloat(EncodeFloat(x)) == Success(x)
  {
  }

  /**
   * The conversions expect simplified values: a literal still wrapped as an
   * expression is refused by every scalar conversion, and simplifying it
   * first makes the conversion see the literal.
   */
  lemma WrappedLiteralNeedsSimplify(x: LuaObject)
    requires x.Int? || x.Str? || x.Bool?
    ensures DecodeInt(LuaObject.Expr(Literal(x))).Failure?
    ensures DecodeStr(LuaObject.Expr(Literal(x))).Failure?
    ensures DecodeBool(LuaObject.Expr(Literal(x))).Failure?
    ensures Simplify(LuaObject.Expr(Literal(x))) == x
  {
  }

  // ---------------------------------------------------------------------------
  // Sequences and sets

  /** Every element from index `i` on converts. */
  predicate AllDecodeFrom<T>(a: seq<LuaObject>, dec: LuaObject -> Decoded<T>, i: nat) {
    forall j :: i <= j < |a| ==> dec(a[j]).Success?
  }

  /**
   * Converts `a[i..]` element by element, stopping at the first element that
   * fails; the error names that element's index in `a` and its own error.
   */
  function DecodeElems<T>(a: seq<LuaObject>, dec: LuaObject -> Decoded<T>, i: nat): (r: Decoded<seq<T>>)
    requires i <= |a|
    ensures r.Success? <==> AllDecodeFrom(a, dec, i)
    ensures r.Success? ==> |r.value| == |a| - i
    ensures r.Success? ==> forall j :: i <= j < |a| ==> r.value[j - i] == dec(a[j]).value
    ensures r.Failure? ==> r.error.BadChild? && i <= r.error.index < |a|
    ensures r.Failure? ==> dec(a[r.error.index]) == Failure(r.error.cause)
    ensures r.Failure? ==> forall j :: i <= j < r.error.index ==> dec(a[j]).Success?
    decreases |a| - i
  {
    if i == |a| then Success([])
    else
      match dec(a[i])
      case Failure(e) => Failure(BadChild(i, e))
      case Success(v) =>
        match DecodeElems(a, dec, i + 1)
        case Failure(e) => Failure(e)
        case Success(vs) => Success([v] + vs)
  }

  /** A sequence: an array whose every element converts. */
  function DecodeVec<T>(o: LuaObject, dec: LuaObject -> Decoded<T>): (r: Decoded<seq<T>>)
    ensures !o.Array? ==> r == Failure(NotA(ArrayKind))
    ensures o.Array? ==> r == DecodeElems(o.items, dec, 0)
  {
    match o
    case Array(a) => DecodeElems(a, dec, 0)
    case _ => Failure(NotA(ArrayKind))
  }

  /** The elements of a sequence, as a set. */
  function Elements<T>(vs: seq<T>): set<T> {
    set j | 0 <= j < |vs| :: vs[j]
  }

  /**
   * A set: an array whose every element converts. The error names the index
   * of the first element that fails, without that element's own error.
   */
  function DecodeSet<T(==)>(o: LuaObject, dec: LuaObject -> Decoded<T>): (r: Decoded<set<T>>)
    ensures r.Success? <==> o.Array? && AllDecodeFrom(o.items, dec, 0)
    ensures r.Success? ==> r.value == set j | 0 <= j < |o.items| :: dec(o.items[j]).value
    ensures r.Failure? && o.Array? ==>
      && r.error.BadSetElement? && r.error.index < |o.items|
      && dec(o.items[r.error.index]).Failure?
      && forall j :: 0 <= j < r.error.index ==> dec(o.items[j]).Success?
    ensures !o.Array? ==> r == Failure(NotA(ArrayKind))
  {
    match o
    case Array(a) => (
      match DecodeElems(a, dec, 0)
      case Success(vs) =>
        assert Elements(vs) == set j | 0 <= j < |a| :: dec(a[j]).value by {
          forall x | x in Elements(vs) ensures x in set j | 0 <= j < |a| :: dec(a[j]).value {
            var j :| 0 <= j < |vs| && vs[j] == x;
            assert dec(a[j]).value == x;
          }
        }
        Success(Elements(vs))
      case Failure(e) => Failure(BadSetElement(e.index)))
    case _ => Failure(NotA(ArrayKind))
  }

  /** An array of exactly two elements, converted one after the other. */
  function DecodePair<A, B>(o: LuaObject, decA: LuaObject -> Decoded<A>, decB: LuaObject -> Decoded<B>): (r: Decoded<(A, B)>)
    ensures r.Success? <==> o.Array? && |o.items| == 2 && decA(o.items[0]).Success? && decB(o.items[1]).Success?
    ensures r.Success? ==> r.value == (decA(o.items[0]).value, decB(o.items[1]).value)
    ensures !o.Array? ==> r == Failure(NotA(ArrayKind))
    ensures o.Array? && |o.items| != 2 ==> r == Failure(InvalidSizedArray)
    ensures o.Array? && |o.items| == 2 && decA(o.items[0]).Failure? ==> r == Failure(FirstArgBad)
    ensures o.Array? && |o.items| == 2 && decA(o.items[0]).Success? && decB(o.items[1]).Failure? ==> r == Failure(SecondArgBad)
  {
    match o
    case Array(a) =>
      if |a| != 2 then Failure(InvalidSizedArray)
      else (
        match decA(a[0])
        case Failure(_) => Failure(FirstArgBad)
        case Success(x) =>
          match decB(a[1])
          case Failure(_) => Failure(SecondArgBad)
          case Success(y) => Success((x, y)))
    case _ => Failure(NotA(ArrayKind))
  }

  /**
   * A string-keyed map whose every value converts. When several values fail,
   * the source reports whichever it meets first in hash order, which is not
   * determined; the model names some failing key.
   */
  ghost function DecodeMap<T>(o: LuaObject, dec: LuaObject -> Decoded<T>): (r: Decoded<map<string, T>>)
    ensures r.Success? <==> o.Map? && forall k :: k in o.fields ==> dec(o.fields[k]).Success?
    ensures r.Success? ==> r.value.Keys == o.fields.Keys
    ensures r.Success? ==> forall k :: k in r.value ==> dec(o.fields[k]) == Success(r.value[k])
    ensures r.Failure? && o.Map? ==>
      && r.error.BadEntry? && r.error.key in o.fields
      && dec(o.fields[r.error.key]) == Failure(r.error.cause)
    ensures !o.Map? ==> r == Failure(NotA(MapKind))
  {
    match o
    case Map(m) =>
      if forall k :: k in m ==> dec(m[k]).Success? then
        Success(map k | k in m :: dec(m[k]).value)
      else
        var k :| k in m && dec(m[k]).Failure?;
        Failure(BadEntry(k, dec(m[k]).error))
    case _ => Failure(NotA(MapKind))
  }

  // ---------------------------------------------------------------------------
  // Writing typed data back, and reading it again

  function EncodeSeq<T>(vs: seq<T>, enc: T -> LuaObject): (o: LuaObject)
    ensures o.Array? && |o.items| == |vs|
    ensures forall j :: 0 <= j < |vs| ==> o.items[j] == enc(vs[j])
  {
    Array(seq(|vs|, j requires 0 <= j < |vs| => enc(vs[j])))
  }

  /** An element conversion that undoes `enc` makes the sequence conversion undo `EncodeSeq`. */
  lemma VecRoundTrip<T>(vs: seq<T>, enc: T -> LuaObject, dec: LuaObject -> Decoded<T>)
    requires forall x :: dec(enc(x)) == Success(x)
    ensures DecodeVec(EncodeSeq(vs, enc), dec) == Success(vs)
  {
    var o := EncodeSeq(vs, enc);
    var r := DecodeVec(o, dec);
    assert AllDecodeFrom(o.items, dec, 0) by {
      forall j | 0 <= j < |o.items| ensures dec(o.items[j]).Success? {
        assert dec(enc(vs[j])) == Success(vs[j]);
      }
    }
    assert forall j :: 0 <= j < |vs| ==> r.value[j] == vs[j] by {
      forall j | 0 <= j < |vs| ensures r.value[j] == vs[j] {
        assert dec(enc(vs[j])) == Success(vs[j]);
      }
    }
    assert r.value == vs;
  }

  /** A pair written as a two-element array is read back. */
  lemma PairRoundTrip<A, B>(x: A, y: B, encA: A -> LuaObject, encB: B -> LuaObject,
                            decA: LuaObject -> Decoded<A>, decB: LuaObject -> Decoded<B>)
    requires decA(encA(x)) == Success(x) && decB(encB(y)) == Success(y)
    ensures DecodePair(Array([encA(x), encB(y)]), decA, decB) == Success((x, y))
  {
  }

  /**
   * Reading a map with the identity conversion is the raw map conversion:
   * the values are kept and no entry can fail.
   */
  lemma RawMapIsIdentityMap(o: LuaObject)
    ensures DecodeMap(o, (x: LuaObject) => Success(x)) == DecodeRawMap(o)
  {
    if o.Map? {
      var r := DecodeMap(o, (x: LuaObject) => Success(x));
      assert r.value == o.fields;
    }
  }
}
