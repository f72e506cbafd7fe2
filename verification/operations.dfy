/**
 * The result tag of every value-source operation declared in
 * src/expressions/values.ts. Each overload group becomes one case of
 * ResultTag: the receiver is the value source the method is called on, the
 * arguments are the value sources (or literals, see ValueTypes.Literal) it is
 * given, and the result is None when no declared overload accepts them.
 */
module Operations {

  import opened Refs
  import opened Options
  import opened ValueTypes
  import opened Promotion

  datatype TextFn = Lower | Upper | Trim | LTrim | RTrim | Reverse

  datatype DatePart = FullYear | Month | DayOfMonth | DayOfWeek | Hours | Minutes | Seconds | Milliseconds | EpochMillis

  /** The string predicates; each also exists negated (notLike, notContains, ...). */
  datatype TextTest =
    | EqualsInsensitive | Like | LikeInsensitive | StartWith | StartWithInsensitive
    | EndWith | EndWithInsensitive | Contains | ContainsInsensitive

  datatype Comparator =
    | Equals | NotEquals | Is | IsNot | In | NotIn
    | Smaller | Larger | SmallAs | LargeAs
    | TextComparison(test: TextTest, negated: bool)

  datatype Op =
    // no argument
    | IsNull | IsNotNull | AsOptional | Negate
    | NumberFunction(f: NumberFn) | Convert(c: Conversion)
    | TextFunction(t: TextFn) | Length | GetPart(p: DatePart)
    | CompareIfValue(cmp: Comparator) | ConcatIfValue | ReplaceIfValue
    // one argument
    | Arith(a: ArithOp) | Compare(cmp: Comparator) | InSelect(negated: bool)
    | And | Or | Concat | SubstringToEnd | ReplaceIfValueWith | ValueWhenNull
    // two arguments
    | Between(negated: bool) | Substring | Replace

  /** The number of value-source or literal arguments an operation takes. */
  function Arity(op: Op): nat
  {
    if op.Arith? || op.Compare? || op.InSelect? || op == And || op == Or
       || op == Concat || op == SubstringToEnd || op == ReplaceIfValueWith || op == ValueWhenNull then 1
    else if op.Between? || op == Substring || op == Replace then 2
    else 0
  }

  predicate IsConnective(op: Op)
  {
    op == And || op == Or
  }

  /** SQL `is` and `is not` compare null-safely and never yield null. */
  predicate IsNullSafe(c: Comparator)
  {
    c == Is || c == IsNot
  }

  /**
   * Two readings of the declarations. AsDeclared is the typing values.ts states,
   * overload by overload. AsIntended corrects its three discrepancies (see the
   * Findings section of OperationLaws): length() and the date getters keep the
   * receiver's nullability, isIfValue is typed like `is`, and
   * valueWhenNull(valueSource) records the replacement's tables.
   */
  datatype Typing = AsDeclared | AsIntended

  /** The operations a typing corrects; everywhere else the two typings agree. */
  predicate IsCorrected(op: Op)
  {
    op == Length || op.GetPart? || op == CompareIfValue(Is) || op == ValueWhenNull
  }

  /** Operations whose result is never null, whatever the operands. */
  predicate NeverNull(t: Typing, op: Op)
  {
    op == IsNull || op == IsNotNull || op.InSelect?
    || (op.Compare? && IsNullSafe(op.cmp))
    || op == CompareIfValue(IsNot)
    || (t == AsIntended && op == CompareIfValue(Is))
    || (t == AsDeclared && (op == Length || op.GetPart?))
  }

  /** Operations whose result has the receiver's kind. */
  predicate PreservesKind(op: Op)
  {
    op == AsOptional || op == Negate || op.TextFunction? || op == ConcatIfValue || op == ReplaceIfValue
    || op == Concat || op == SubstringToEnd || op == ReplaceIfValueWith || op == ValueWhenNull
    || op == Substring || op == Replace
  }

  /** Operations whose result is a boolean. */
  predicate IsPredicate(op: Op)
  {
    op == IsNull || op == IsNotNull || op == Negate || op.CompareIfValue? || op.Compare? || op.InSelect?
    || op == And || op == Or || op.Between?
  }

  /** Which comparisons each capability layer declares. */
  predicate Accepts(c: Comparator, k: Kind)
  {
    match c
    case Equals | NotEquals | Is | IsNot | In | NotIn => IsEqualable(k)
    case TextComparison(_, _) => IsText(k)
    case _ => IsComparable(k)
  }

  /** The kind of a position argument of substring/substringToEnd. */
  function IndexKind(k: Kind): Kind
  {
    if k == TypeSafeString then Int else Number
  }

  predicate IsCalendarPart(p: DatePart)
  {
    p == FullYear || p == Month || p == DayOfMonth || p == DayOfWeek
  }

  predicate IsClockPart(p: DatePart)
  {
    p == Hours || p == Minutes || p == Seconds || p == Milliseconds
  }

  /** The getters each date family declares, and the kind they return. */
  function PartKind(p: DatePart, k: Kind): (r: Option<Kind>)
    ensures r.Some? ==> IsTemporal(k) && IsNumeric(r.value)
    ensures r.Some? ==> r.value == (if k == LocalDate || k == LocalTime || k == LocalDateTime then Int else Number)
  {
    match k
    case Date => if IsCalendarPart(p) then Some(Number) else None
    case Time => if IsClockPart(p) then Some(Number) else None
    case DateTime => Some(Number)
    case LocalDate => if IsCalendarPart(p) then Some(Int) else None
    case LocalTime => if IsClockPart(p) then Some(Int) else None
    case LocalDateTime => Some(Int)
    case _ => None
  }

  /** The kind produced by length() and the date getters. */
  function ExtractedKind(op: Op, k: Kind): (r: Option<Kind>)
    ensures r.Some? ==> op == Length || op.GetPart?
    ensures op == Length ==> (r.Some? <==> IsText(k))
    ensures op == Length && r.Some? ==> r.value == IndexKind(k)
  {
    match op
    case Length => if IsText(k) then Some(IndexKind(k)) else None
    case GetPart(p) => PartKind(p, k)
    case _ => None
  }

  /** length() and the date getters as declared: the result is typed as never null. */
  function ExtractionTagAsWritten(op: Op, recv: Tag): (r: Option<Tag>)
    ensures r.Some? ==> r.value.opt == Mandatory && r.value.tables == recv.tables
  {
    match ExtractedKind(op, recv.kind)
    case Some(k) => Some(Tag(Ordinary, k, Mandatory, recv.tables))
    case None => None
  }

  /** length() and the date getters with the receiver's nullability kept: the length of a null string is null. */
  function ExtractionTag(op: Op, recv: Tag): (r: Option<Tag>)
    ensures r.Some? <==> ExtractionTagAsWritten(op, recv).Some?
    ensures r.Some? ==> r.value == ExtractionTagAsWritten(op, recv).value.(opt := recv.opt)
  {
    match ExtractedKind(op, recv.kind)
    case Some(k) => Some(Tag(Ordinary, k, recv.opt, recv.tables))
    case None => None
  }

  /** BooleanOrNullOf over the operand types of a two-operand comparison; `is` and `isNot` yield plain boolean. */
  function PlainComparisonOpt(c: Comparator, a: Opt, b: Opt): (r: Opt)
    ensures r == Optional <==> !IsNullSafe(c) && (a == Optional || b == Optional)
  {
    if IsNullSafe(c) then Mandatory else JoinOpt(a, b)
  }

  /** The if-value comparisons as declared: isNotIfValue yields boolean, every other one (isIfValue included) BooleanOrNullOf<TYPE>. */
  function IfValueComparisonOptAsWritten(c: Comparator, o: Opt): (r: Opt)
    ensures c == IsNot ==> r == Mandatory
    ensures c != IsNot ==> r == o
  {
    if c == IsNot then Mandatory else o
  }

  /**
   * The if-value comparisons, with isIfValue typed like `is`: when the value is
   * present the predicate is the plain comparison against a non-null literal.
   */
  function IfValueComparisonOpt(c: Comparator, o: Opt): (r: Opt)
    ensures r == PlainComparisonOpt(c, o, Mandatory)
    ensures c != Is ==> r == IfValueComparisonOptAsWritten(c, o)
  {
    if IsNullSafe(c) then Mandatory else o
  }

  /** valueWhenNull(valueSource) as declared: the replacement's tables are not recorded. */
  function ValueWhenNullAsWritten(recv: Tag, arg: Tag): (r: Option<Tag>)
    ensures r.Some? <==> recv.form == Ordinary && arg.form == Ordinary && arg.kind == recv.kind
    ensures r.Some? ==> r.value.kind == recv.kind && r.value.opt == arg.opt && r.value.tables == recv.tables
  {
    if recv.form == Ordinary && arg.form == Ordinary && arg.kind == recv.kind
    then Some(Tag(Ordinary, recv.kind, arg.opt, recv.tables))
    else None
  }

  /** valueWhenNull(value): the receiver's kind, the replacement's nullability, the tables of both. */
  function ValueWhenNullTag(recv: Tag, arg: Tag): (r: Option<Tag>)
    ensures r.Some? <==> ValueWhenNullAsWritten(recv, arg).Some?
    ensures r.Some? ==> r.value == ValueWhenNullAsWritten(recv, arg).value.(tables := recv.tables + arg.tables)
  {
    if recv.form == Ordinary && arg.form == Ordinary && arg.kind == recv.kind
    then Some(Tag(Ordinary, recv.kind, arg.opt, recv.tables + arg.tables))
    else None
  }

  /** The tables referenced by a list of operands. */
  function ArgTables(args: seq<Tag>): set<Ref>
  {
    if |args| == 0 then {} else args[0].tables + ArgTables(args[1..])
  }

  /** TYPE | null | undefined as soon as one of the operands is. */
  function AnyOptional(operands: seq<Tag>): Opt
  {
    if |operands| == 0 then Mandatory else JoinOpt(operands[0].opt, AnyOptional(operands[1..]))
  }

  lemma AnyOptionalOfOne(recv: Tag)
    ensures AnyOptional([recv] + []) == recv.opt
  {
    assert [recv] + [] == [recv];
  }

  lemma AnyOptionalOfTwo(recv: Tag, arg: Tag)
    ensures AnyOptional([recv] + [arg]) == JoinOpt(recv.opt, arg.opt)
  {
    assert ([recv] + [arg])[1..] == [arg];
    assert AnyOptional([arg]) == arg.opt by { assert [arg][1..] == []; }
  }

  lemma AnyOptionalOfThree(recv: Tag, a: Tag, b: Tag)
    ensures AnyOptional([recv] + [a, b]) == JoinOpt(recv.opt, JoinOpt(a.opt, b.opt))
  {
    assert ([recv] + [a, b])[1..] == [a, b];
    assert [a, b][1..] == [b];
    assert AnyOptional([b]) == b.opt by { assert [b][1..] == []; }
  }

  lemma ArgTablesOfTwo(a: Tag, b: Tag)
    ensures ArgTables([a, b]) == a.tables + b.tables
  {
    assert [a, b][1..] == [b];
    assert ArgTables([b]) == b.tables by { assert [b][1..] == []; }
  }

  /** A table is referenced by a list of operands exactly when one of them references it. */
  lemma {:induction false} ArgTablesMembership(args: seq<Tag>, table: Ref)
    ensures table in ArgTables(args) <==> exists i :: 0 <= i < |args| && table in args[i].tables
  {
    if |args| > 0 {
      ArgTablesMembership(args[1..], table);
      if table in ArgTables(args[1..]) {
        var j :| 0 <= j < |args[1..]| && table in args[1..][j].tables;
        assert table in args[j + 1].tables;
      }
      if exists i :: 0 <= i < |args| && table in args[i].tables {
        var i :| 0 <= i < |args| && table in args[i].tables;
        if i > 0 {
          assert table in args[1..][i - 1].tables;
        }
      }
    }
  }

  lemma ArgTablesMembershipAll(args: seq<Tag>)
    ensures forall table :: table in ArgTables(args) <==> exists i :: 0 <= i < |args| && table in args[i].tables
  {
    forall table
      ensures table in ArgTables(args) <==> exists i :: 0 <= i < |args| && table in args[i].tables
    {
      ArgTablesMembership(args, table);
    }
  }

  /** A list of operands is optional exactly when one of them is. */
  lemma {:induction false} AnyOptionalMembership(operands: seq<Tag>)
    ensures AnyOptional(operands) == Optional <==> exists i :: 0 <= i < |operands| && operands[i].opt == Optional
  {
    if |operands| > 0 {
      AnyOptionalMembership(operands[1..]);
      if AnyOptional(operands[1..]) == Optional {
        var j :| 0 <= j < |operands[1..]| && operands[1..][j].opt == Optional;
        assert operands[j + 1].opt == Optional;
      }
      if exists i :: 0 <= i < |operands| && operands[i].opt == Optional {
        var i :| 0 <= i < |operands| && operands[i].opt == Optional;
        if i > 0 {
          assert operands[1..][i - 1].opt == Optional;
        }
      }
    }
  }

  /**
   * The nullability a typing gives the result of recv.op(args...): never null
   * for the null-safe operations, always possibly null for asOptional, the
   * replacement's for valueWhenNull, and otherwise possibly null exactly when
   * one operand (receiver included) is.
   */
  function ExpectedOpt(t: Typing, op: Op, recv: Tag, args: seq<Tag>): (r: Opt)
    ensures NeverNull(t, op) ==> r == Mandatory
    ensures !NeverNull(t, op) && op == AsOptional ==> r == Optional
    ensures !NeverNull(t, op) && op == ValueWhenNull && |args| > 0 ==> r == args[0].opt
    ensures !NeverNull(t, op) && op != AsOptional && !(op == ValueWhenNull && |args| > 0) ==>
              (r == Optional <==> recv.opt == Optional || exists i :: 0 <= i < |args| && args[i].opt == Optional)
  {
    AnyOptionalMembership([recv] + args);
    assert forall i :: 0 <= i < |args| ==> ([recv] + args)[i + 1] == args[i];
    if NeverNull(t, op) then Mandatory
    else if op == AsOptional then Optional
    else if op == ValueWhenNull && |args| > 0 then args[0].opt
    else AnyOptional([recv] + args)
  }

  /** The tables a typing records for recv.op(args...): all the operands' tables, except in declared valueWhenNull. */
  function ExpectedTables(t: Typing, op: Op, recv: Tag, args: seq<Tag>): (r: set<Ref>)
    ensures forall table :: table in r <==>
              table in recv.tables
              || (!(t == AsDeclared && op == ValueWhenNull) && exists i :: 0 <= i < |args| && table in args[i].tables)
  {
    ArgTablesMembershipAll(args);
    if t == AsDeclared && op == ValueWhenNull then recv.tables else recv.tables + ArgTables(args)
  }

  /** Only a comparison's IfValue variant, or an if-value combined with an if-value, is an if-value. */
  predicate ProducesIfValue(op: Op, recv: Tag, args: seq<Tag>)
  {
    op.CompareIfValue? || (IsConnective(op) && recv.form == IfValue && |args| > 0 && args[0].form == IfValue)
  }

  /** With no argument, the expected nullability is the receiver's unless the operation fixes it. */
  lemma ExpectedOptOfReceiver(t: Typing, op: Op, recv: Tag)
    ensures ExpectedOpt(t, op, recv, []) == (if NeverNull(t, op) then Mandatory else if op == AsOptional then Optional else recv.opt)
  {
    AnyOptionalOfOne(recv);
  }

  /** length() and the date getters under a typing. */
  function TypedExtraction(t: Typing, op: Op, recv: Tag): (r: Option<Tag>)
    requires op == Length || op.GetPart?
    ensures r.Some? <==> ExtractedKind(op, recv.kind).Some?
    ensures r.Some? ==> r.value.form == Ordinary && r.value.tables == recv.tables
    ensures r.Some? ==> r.value.opt == (if t == AsDeclared then Mandatory else recv.opt)
  {
    if t == AsDeclared then ExtractionTagAsWritten(op, recv) else ExtractionTag(op, recv)
  }

  /** The nullability of an if-value comparison under a typing. */
  function TypedIfValueComparisonOpt(t: Typing, c: Comparator, o: Opt): (r: Opt)
    ensures r == Mandatory <==> c == IsNot || (t == AsIntended && c == Is) || o == Mandatory
  {
    match t
    case AsDeclared => IfValueComparisonOptAsWritten(c, o)
    case AsIntended => IfValueComparisonOpt(c, o)
  }

  function UnaryTag(t: Typing, op: Op, recv: Tag): (r: Option<Tag>)
    ensures r.Some? ==> Arity(op) == 0
    ensures r.Some? ==> recv.form == Ordinary
    ensures r.Some? ==> r.value.tables == recv.tables
    ensures r.Some? ==> r.value.opt == ExpectedOpt(t, op, recv, [])
    ensures r.Some? ==> (r.value.form == IfValue <==> op.CompareIfValue?)
    ensures r.Some? && PreservesKind(op) ==> r.value.kind == recv.kind
    ensures r.Some? && IsPredicate(op) ==> r.value.kind == Boolean
  {
    ExpectedOptOfReceiver(t, op, recv);
    if recv.form != Ordinary then None
    else
      var k := recv.kind;
      match op
      case IsNull => Some(Tag(Ordinary, Boolean, Mandatory, recv.tables))
      case IsNotNull => Some(Tag(Ordinary, Boolean, Mandatory, recv.tables))
      case AsOptional => Some(recv.(opt := Optional))
      case Negate => if k == Boolean then Some(recv) else None
      case NumberFunction(f) =>
        (match NumberFunctionKind(f, k)
         case Some(k2) => Some(recv.(kind := k2))
         case None => None)
      case Convert(c) =>
        (match ConversionKind(c, k)
         case Some(k2) => Some(recv.(kind := k2))
         case None => None)
      case TextFunction(_) => if IsText(k) then Some(recv) else None
      case Length => TypedExtraction(t, op, recv)
      case GetPart(_) => TypedExtraction(t, op, recv)
      case CompareIfValue(c) =>
        if !Accepts(c, k) then None
        else Some(Tag(IfValue, Boolean, TypedIfValueComparisonOpt(t, c, recv.opt), recv.tables))
      case ConcatIfValue => if IsText(k) then Some(recv) else None
      case ReplaceIfValue => if IsText(k) then Some(recv) else None
      case _ => None
  }

  function BinaryTag(t: Typing, op: Op, recv: Tag, arg: Tag): (r: Option<Tag>)
    ensures r.Some? ==> Arity(op) == 1
    ensures r.Some? ==> r.value.tables == if t == AsDeclared && op == ValueWhenNull then recv.tables else recv.tables + arg.tables
    ensures r.Some? ==> r.value.opt == ExpectedOpt(t, op, recv, [arg])
    ensures r.Some? ==> (r.value.form == IfValue <==> ProducesIfValue(op, recv, [arg]))
    ensures (recv.form == IfValue || arg.form == IfValue) && !IsConnective(op) ==> r.None?
    ensures r.Some? && PreservesKind(op) ==> r.value.kind == recv.kind
    ensures r.Some? && IsPredicate(op) ==> r.value.kind == Boolean
  {
    AnyOptionalOfTwo(recv, arg);
    var k := recv.kind;
    var both := recv.tables + arg.tables;
    var join := JoinOpt(recv.opt, arg.opt);
    if IsConnective(op) then
      if k == Boolean && arg.kind == Boolean
      then Some(Tag(if recv.form == IfValue && arg.form == IfValue then IfValue else Ordinary, Boolean, join, both))
      else None
    else if recv.form == IfValue || arg.form == IfValue then None
    else
      match op
      case Arith(a) =>
        (match ArithKind(a, k, arg.kind)
         case Some(k2) => Some(Tag(Ordinary, k2, join, both))
         case None => None)
      case Compare(c) =>
        if Accepts(c, k) && arg.kind == k then Some(Tag(Ordinary, Boolean, PlainComparisonOpt(c, recv.opt, arg.opt), both)) else None
      case InSelect(_) =>
        if IsEqualable(k) && arg.kind == k then Some(Tag(Ordinary, Boolean, Mandatory, both)) else None
      case Concat => if IsText(k) && arg.kind == k then Some(Tag(Ordinary, k, join, both)) else None
      case ReplaceIfValueWith => if IsText(k) && arg.kind == k then Some(Tag(Ordinary, k, join, both)) else None
      case SubstringToEnd => if IsText(k) && arg.kind == IndexKind(k) then Some(Tag(Ordinary, k, join, both)) else None
      case ValueWhenNull => if t == AsDeclared then ValueWhenNullAsWritten(recv, arg) else ValueWhenNullTag(recv, arg)
      case _ => None
  }

  function TernaryTag(op: Op, recv: Tag, a: Tag, b: Tag): (r: Option<Tag>)
    ensures r.Some? ==> Arity(op) == 2 && recv.form == Ordinary && a.form == Ordinary && b.form == Ordinary
    ensures r.Some? ==> r.value.tables == recv.tables + (a.tables + b.tables)
    ensures r.Some? ==> r.value.opt == AnyOptional([recv] + [a, b])
    ensures r.Some? ==> r.value.form == Ordinary
    ensures r.Some? && PreservesKind(op) ==> r.value.kind == recv.kind
    ensures r.Some? && IsPredicate(op) ==> r.value.kind == Boolean
  {
    AnyOptionalOfThree(recv, a, b);
    var k := recv.kind;
    var all := recv.tables + (a.tables + b.tables);
    var join := JoinOpt(recv.opt, JoinOpt(a.opt, b.opt));
    if recv.form != Ordinary || a.form != Ordinary || b.form != Ordinary then None
    else
      var kind :=
        if op.Between? && IsComparable(k) && a.kind == k && b.kind == k then Some(Boolean)
        else if op == Substring && IsText(k) && a.kind == IndexKind(k) && b.kind == IndexKind(k) then Some(k)
        else if op == Replace && IsText(k) && a.kind == k && b.kind == k then Some(k)
        else None;
      if kind.None? then None else Some(Tag(Ordinary, kind.value, join, all))
  }

  /**
   * The tag of recv.op(args...) under typing t, or None when no declared
   * overload accepts these operands. The laws every overload obeys are stated
   * here once; ExpectedOpt and ExpectedTables name where the declared typing
   * departs from them.
   */
  function ResultTag(t: Typing, op: Op, recv: Tag, args: seq<Tag>): (r: Option<Tag>)
    ensures r.Some? ==> |args| == Arity(op)
    ensures r.Some? ==> r.value.tables == ExpectedTables(t, op, recv, args)
    ensures r.Some? ==> r.value.opt == ExpectedOpt(t, op, recv, args)
    ensures r.Some? ==> (r.value.form == IfValue <==> ProducesIfValue(op, recv, args))
    ensures recv.form == IfValue && !IsConnective(op) ==> r.None?
    ensures r.Some? && PreservesKind(op) ==> r.value.kind == recv.kind
    ensures r.Some? && IsPredicate(op) ==> r.value.kind == Boolean
  {
    if |args| != Arity(op) then None
    else if |args| == 0 then
      assert args == [];
      UnaryTag(t, op, recv)
    else if |args| == 1 then
      assert args == [args[0]];
      assert args[1..] == [];
      assert ArgTables(args) == args[0].tables;
      BinaryTag(t, op, recv, args[0])
    else
      assert args == [args[0], args[1]];
      ArgTablesOfTwo(args[0], args[1]);
      TernaryTag(op, recv, args[0], args[1])
  }

}
