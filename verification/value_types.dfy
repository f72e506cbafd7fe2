/**
 * The tag every value source carries in the query builder's type layer:
 * its kind (which value-source interface it implements), whether it may be
 * null, the tables it references, and whether it is an ordinary value or an
 * "if-value" predicate (an optional filter that degrades to a no-op when its
 * filter operand is absent).
 */
module ValueTypes {

  import opened Refs

  /** One constructor per value-source interface of src/expressions/values.ts. */
  datatype Kind =
    | Boolean
    | Int | Double | StringInt | StringDouble | Number | StringNumber
    | String | TypeSafeString
    | Date | Time | DateTime | LocalDate | LocalTime | LocalDateTime
    | Comparable | Equalable | Nullable

  /** TYPE versus TYPE | null | undefined. */
  datatype Opt = Mandatory | Optional

  /** A ValueSource versus an IfValueSource. */
  datatype Form = Ordinary | IfValue

  datatype Tag = Tag(form: Form, kind: Kind, opt: Opt, tables: set<Ref>)

  /** A literal operand: an ordinary value that references no table. */
  function Literal(k: Kind, o: Opt): Tag
  {
    Tag(Ordinary, k, o, {})
  }

  /** The optionality of a result built from two operands: TYPE | null | undefined as soon as one side is. */
  function JoinOpt(a: Opt, b: Opt): Opt
  {
    if a == Optional || b == Optional then Optional else Mandatory
  }

  // Capability layers. Every value source is a NullableValueSource (a bare
  // ValueSource is remapped to one); the layers above it narrow the kinds.

  /** EqualableValueSource and everything that extends it. */
  predicate IsEqualable(k: Kind)
  {
    k != Nullable
  }

  /** ComparableValueSource and everything that extends it (BooleanValueSource extends EqualableValueSource only). */
  predicate IsComparable(k: Kind)
  {
    k != Nullable && k != Equalable && k != Boolean
  }

  /** The six number families. */
  predicate IsNumeric(k: Kind)
  {
    k == Int || k == Double || k == StringInt || k == StringDouble || k == Number || k == StringNumber
  }

  /** StringValueSource and TypeSafeStringValueSource. */
  predicate IsText(k: Kind)
  {
    k == String || k == TypeSafeString
  }

  /** The six date and time families. */
  predicate IsTemporal(k: Kind)
  {
    k == Date || k == Time || k == DateTime || k == LocalDate || k == LocalTime || k == LocalDateTime
  }

}
