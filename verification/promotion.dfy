/**
 * The numeric promotion rules declared by the number families of
 * src/expressions/values.ts, written as tables keyed by operand kinds, and the
 * lattice they follow: within one family an integral kind (int, stringInt)
 * promotes to its fractional partner (double, stringDouble) whenever the other
 * operand is fractional or the operation leaves the integers.
 */
module Promotion {

  import opened Options
  import opened ValueTypes

  datatype ArithOp = Add | Subtract | Multiply | Divide | Mod | Power | Logn | Roundn | MinValue | MaxValue | Atan2

  datatype NumberFn = Abs | Ceil | Floor | Round | Exp | Ln | Log10 | Sqrt | Cbrt | Sign | Acos | Asin | Atan | Cos | Cot | Sin | Tan

  datatype Conversion = AsStringNumber | AsStringInt | AsDouble | AsStringDouble

  /** The number families; the two unchecked families (number, string-number) never mix with the others. */
  datatype Family = Native | Encoded | Loose | LooseString

  function FamilyOf(k: Kind): Option<Family>
  {
    match k
    case Int => Some(Native)
    case Double => Some(Native)
    case StringInt => Some(Encoded)
    case StringDouble => Some(Encoded)
    case Number => Some(Loose)
    case StringNumber => Some(LooseString)
    case _ => None
  }

  predicate IsFractional(k: Kind)
  {
    k == Double || k == StringDouble
  }

  /** 1 for the fractional kinds, 0 for every other kind. */
  function Rank(k: Kind): nat
  {
    if IsFractional(k) then 1 else 0
  }

  /** The fractional partner of an integral kind. */
  function Fractional(k: Kind): Kind
  {
    match k
    case Int => Double
    case StringInt => StringDouble
    case _ => k
  }

  /** The integral partner of a fractional kind. */
  function Integral(k: Kind): Kind
  {
    match k
    case Double => Int
    case StringDouble => StringInt
    case _ => k
  }

  /** Operations whose result stays integral when both operands are. */
  predicate StaysIntegral(op: ArithOp)
  {
    op == Add || op == Subtract || op == Multiply || op == Mod || op == MinValue || op == MaxValue
  }

  predicate IsRounding(f: NumberFn)
  {
    f == Ceil || f == Floor || f == Round
  }

  predicate IsTranscendental(f: NumberFn)
  {
    f == Exp || f == Ln || f == Log10 || f == Sqrt || f == Cbrt
    || f == Acos || f == Asin || f == Atan || f == Cos || f == Cot || f == Sin || f == Tan
  }

  /**
   * Independent reference: the promotion lattice. Both operands must be of one
   * family; roundn only accepts an integral digit count; a fractional operand or
   * a non-closed operation yields the fractional partner of the receiver.
   */
  function PromotedKind(op: ArithOp, l: Kind, r: Kind): (k: Option<Kind>)
    ensures k.Some? <==> FamilyOf(l).Some? && FamilyOf(l) == FamilyOf(r) && !(op == Roundn && IsFractional(r))
    ensures k.Some? ==> FamilyOf(k.value) == FamilyOf(l) && Rank(k.value) >= Rank(l) && Rank(k.value) >= Rank(r)
    ensures k.Some? && !IsFractional(l) && !IsFractional(r) && StaysIntegral(op) ==> k.value == l
  {
    if FamilyOf(l).None? || FamilyOf(l) != FamilyOf(r) then None
    else if l == Number || l == StringNumber then Some(l)
    else if op == Roundn && IsFractional(r) then None
    else if IsFractional(l) || IsFractional(r) || !StaysIntegral(op) then Some(Fractional(l))
    else Some(l)
  }

  /**
   * The declared result kind of receiver.op(argument) for the two-operand
   * number methods, one row per receiver interface (None where no overload
   * accepts the argument).
   */
  function ArithKind(op: ArithOp, l: Kind, r: Kind): (k: Option<Kind>)
    ensures k == PromotedKind(op, l, r)
  {
    match l
    case Number => if r == Number then Some(Number) else None
    case StringNumber => if r == StringNumber then Some(StringNumber) else None
    case Int =>
      if r == Int then (if StaysIntegral(op) then Some(Int) else Some(Double))
      else if r == Double && op != Roundn then Some(Double)
      else None
    case Double =>
      if r == Int || (r == Double && op != Roundn) then Some(Double) else None
    case StringInt =>
      if r == StringInt then (if StaysIntegral(op) then Some(StringInt) else Some(StringDouble))
      else if r == StringDouble && op != Roundn then Some(StringDouble)
      else None
    case StringDouble =>
      if r == StringInt || (r == StringDouble && op != Roundn) then Some(StringDouble) else None
    case _ => None
  }

  /** The declared result kind of a zero-argument number function on a receiver of kind k. */
  function NumberFunctionKind(f: NumberFn, k: Kind): (r: Option<Kind>)
    ensures r.Some? <==> IsNumeric(k)
    ensures r.Some? && f == Abs ==> r.value == k
    ensures r.Some? && IsRounding(f) ==> r.value == Integral(k)
    ensures r.Some? && IsTranscendental(f) ==> r.value == Fractional(k)
    ensures r.Some? && f == Sign ==> r.value == (if k == Number || k == StringNumber then Number else Int)
  {
    match k
    case Number => Some(Number)
    case StringNumber => if f == Sign then Some(Number) else Some(StringNumber)
    case Int => if f == Abs || IsRounding(f) || f == Sign then Some(Int) else Some(Double)
    case Double => if IsRounding(f) || f == Sign then Some(Int) else Some(Double)
    case StringInt =>
      if f == Abs || IsRounding(f) then Some(StringInt)
      else if f == Sign then Some(Int)
      else Some(StringDouble)
    case StringDouble =>
      if IsRounding(f) then Some(StringInt)
      else if f == Sign then Some(Int)
      else Some(StringDouble)
    case _ => None
  }

  /** The kind each asXxx() conversion names. */
  function Target(c: Conversion): Kind
  {
    match c
    case AsStringNumber => StringNumber
    case AsStringInt => StringInt
    case AsDouble => Double
    case AsStringDouble => StringDouble
  }

  /**
   * The declared result kind of the asXxx() conversions. asStringNumber exists
   * only on number; the others convert within the int/double/stringInt/
   * stringDouble kinds, never to the receiver's own kind, never from fractional
   * to integral, and never from the string-encoded family back to the native one.
   */
  function ConversionKind(c: Conversion, k: Kind): (r: Option<Kind>)
    ensures r.Some? ==> r.value == Target(c)
    ensures r.Some? <==>
              (c == AsStringNumber && k == Number)
              || (c != AsStringNumber && (FamilyOf(k) == Some(Native) || FamilyOf(k) == Some(Encoded))
                  && k != Target(c) && Rank(k) <= Rank(Target(c))
                  && !(FamilyOf(k) == Some(Encoded) && FamilyOf(Target(c)) == Some(Native)))
    ensures r.Some? ==> IsNumeric(k) && IsNumeric(r.value) && r.value != k
    ensures r.Some? ==> Rank(r.value) >= Rank(k)
    ensures r.Some? && k != Number ==> FamilyOf(r.value) == Some(Encoded) || r.value == Double
  {
    match (c, k)
    case (AsStringNumber, Number) => Some(StringNumber)
    case (AsStringInt, Int) => Some(StringInt)
    case (AsDouble, Int) => Some(Double)
    case (AsStringDouble, Int) => Some(StringDouble)
    case (AsStringDouble, Double) => Some(StringDouble)
    case (AsStringDouble, StringInt) => Some(StringDouble)
    case _ => None
  }

}
