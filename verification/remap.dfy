/**
 * The type-level maps of src/expressions/values.ts that re-home a value
 * source: RemapValueSourceType and its AsOptional/AsMandatory variants, and
 * MapArgumentToTypeSafe, which turns a declared SQL function argument into
 * the value source it accepts.
 */
module Remap {

  import opened Refs
  import opened Options
  import opened ValueTypes
  import opened Operations

  /**
   * The value source of the same interface placed on `target`, with nullability
   * `o`. An if-value is not a ValueSource and maps to never (None).
   */
  function Rehome(target: set<Ref>, v: Tag, o: Opt): (r: Option<Tag>)
    ensures r.Some? <==> v.form == Ordinary
    ensures r.Some? ==> r.value.kind == v.kind && r.value.tables == target && r.value.opt == o && r.value.form == Ordinary
  {
    if v.form == Ordinary then Some(Tag(Ordinary, v.kind, o, target)) else None
  }

  /** RemapValueSourceType: same interface and value type, on `target`. */
  function RemapValueSourceType(target: set<Ref>, v: Tag): (r: Option<Tag>)
    ensures r == Rehome(target, v, v.opt)
  {
    if v.form == Ordinary then Some(v.(tables := target)) else None
  }

  /** RemapValueSourceTypeAsOptional: same interface, value type T | null | undefined, on `target`. */
  function RemapAsOptional(target: set<Ref>, v: Tag): (r: Option<Tag>)
    ensures r == Rehome(target, v, Optional)
  {
    if v.form == Ordinary then Some(Tag(Ordinary, v.kind, Optional, target)) else None
  }

  /** RemapValueSourceTypeAsMandatory: same interface, value type MandatoryTypeOf<T>, on `target`. */
  function RemapAsMandatory(target: set<Ref>, v: Tag): (r: Option<Tag>)
    ensures r == Rehome(target, v, Mandatory)
  {
    if v.form == Ordinary then Some(Tag(Ordinary, v.kind, Mandatory, target)) else None
  }

  /** Remapping a value source onto its own tables changes nothing. */
  lemma RemapOntoOwnTables(v: Tag)
    requires v.form == Ordinary
    ensures RemapValueSourceType(v.tables, v) == Some(v)
  {
  }

  /** Remapping twice is remapping once onto the last target, for every variant. */
  lemma RemapComposes(t1: set<Ref>, t2: set<Ref>, v: Tag)
    requires v.form == Ordinary
    ensures RemapValueSourceType(t2, RemapValueSourceType(t1, v).value) == RemapValueSourceType(t2, v)
    ensures RemapAsOptional(t2, RemapAsMandatory(t1, v).value) == RemapAsOptional(t2, v)
    ensures RemapAsMandatory(t2, RemapAsOptional(t1, v).value) == RemapAsMandatory(t2, v)
  {
  }

  /** The asOptional() method is RemapValueSourceTypeAsOptional onto the receiver's own tables. */
  lemma AsOptionalIsRemapAsOptional(t: Typing, v: Tag)
    ensures ResultTag(t, AsOptional, v, []) == RemapAsOptional(v.tables, v)
  {
  }

  /** valueWhenNull with a non-null literal is RemapValueSourceTypeAsMandatory onto the receiver's own tables. */
  lemma ValueWhenNullIsRemapAsMandatory(t: Typing, v: Tag)
    requires v.form == Ordinary
    ensures ResultTag(t, ValueWhenNull, v, [Literal(v.kind, Mandatory)]) == RemapAsMandatory(v.tables, v)
  {
    var lit := Literal(v.kind, Mandatory);
    assert ResultTag(t, ValueWhenNull, v, [lit]) == BinaryTag(t, ValueWhenNull, v, lit);
    assert v.tables + lit.tables == v.tables;
  }

  // ---------------------------------------------------------------------
  // Declared SQL function arguments

  datatype ArgumentType =
    | BooleanArg | StringIntArg | IntArg | StringDoubleArg | DoubleArg | StringArg
    | LocalDateTimeArg | LocalDateArg | LocalTimeArg | CustomComparableArg | EnumArg | CustomArg

  datatype ArgumentRequire = RequiredArg | OptionalArg

  datatype Argument = Argument(argType: ArgumentType, required: ArgumentRequire)

  /** TypeOf<REQUIRED, T>: T when required, T | null | undefined otherwise. */
  function TypeOf(req: ArgumentRequire): (o: Opt)
    ensures o == Mandatory <==> req == RequiredArg
  {
    if req == RequiredArg then Mandatory else Optional
  }

  /** The value-source interface MapArgumentToTypeSafe assigns to each argument type. */
  function ArgumentKind(t: ArgumentType): (k: Kind)
    ensures k != Nullable && k != Number && k != StringNumber && k != String
    ensures !(k == Date || k == Time || k == DateTime)
  {
    match t
    case BooleanArg => Boolean
    case StringIntArg => StringInt
    case IntArg => Int
    case StringDoubleArg => StringDouble
    case DoubleArg => Double
    case StringArg => TypeSafeString
    case LocalDateTimeArg => LocalDateTime
    case LocalDateArg => LocalDate
    case LocalTimeArg => LocalTime
    case CustomComparableArg => Comparable
    case EnumArg => Equalable
    case CustomArg => Equalable
  }

  /** MapArgumentToTypeSafe<TABLE_OR_VIEW, ARG>: an ordinary value source on `target`. */
  function MapArgumentToTypeSafe(target: set<Ref>, arg: Argument): (r: Tag)
    ensures r.form == Ordinary && r.tables == target
    ensures r.kind == ArgumentKind(arg.argType)
    ensures r.opt == Mandatory <==> arg.required == RequiredArg
  {
    Tag(Ordinary, ArgumentKind(arg.argType), TypeOf(arg.required), target)
  }

  /** Inverse of ArgumentKind; custom arguments share the equalable interface with enums and come back as enums. */
  function ArgumentTypeOf(k: Kind): (r: Option<ArgumentType>)
    ensures r.Some? ==> ArgumentKind(r.value) == k
    ensures r.Some? ==> r.value != CustomArg
  {
    match k
    case Boolean => Some(BooleanArg)
    case StringInt => Some(StringIntArg)
    case Int => Some(IntArg)
    case StringDouble => Some(StringDoubleArg)
    case Double => Some(DoubleArg)
    case TypeSafeString => Some(StringArg)
    case LocalDateTime => Some(LocalDateTimeArg)
    case LocalDate => Some(LocalDateArg)
    case LocalTime => Some(LocalTimeArg)
    case Comparable => Some(CustomComparableArg)
    case Equalable => Some(EnumArg)
    case _ => None
  }

  /** Inverse of TypeOf. */
  function RequireOf(o: Opt): (r: ArgumentRequire)
    ensures TypeOf(r) == o
  {
    if o == Mandatory then RequiredArg else OptionalArg
  }

  /** Decoding the value source a declared argument maps to recovers the argument, up to custom = enum. */
  lemma ArgumentRoundTrip(target: set<Ref>, arg: Argument)
    ensures var v := MapArgumentToTypeSafe(target, arg);
            ArgumentTypeOf(v.kind) == Some(if arg.argType == CustomArg then EnumArg else arg.argType)
            && RequireOf(v.opt) == arg.required
  {
  }

  /** Distinct argument types map to distinct interfaces, except custom and enum. */
  lemma ArgumentKindInjective(a: ArgumentType, b: ArgumentType)
    requires ArgumentKind(a) == ArgumentKind(b)
    ensures a == b || (a in {CustomArg, EnumArg} && b in {CustomArg, EnumArg})
  {
  }

}
