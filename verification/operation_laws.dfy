/**
 * Properties of the value-typing algebra that relate several operations or
 * hold for all operands: the promotion rules of the number families, how
 * nullability and table references flow through every operation, and how
 * if-value predicates combine. A law stated for every typing t holds of the
 * declarations as written; the last section relates the declared typing to the
 * intended one where they differ.
 */
module OperationLaws {

  import opened Refs
  import opened Options
  import opened ValueTypes
  import opened Promotion
  import opened Operations

  // ---------------------------------------------------------------------
  // Number promotion

  /** The promotion table does not depend on operand order, except for roundn, whose argument must be integral. */
  lemma ArithKindSymmetric(op: ArithOp, l: Kind, r: Kind)
    requires op != Roundn
    ensures ArithKind(op, l, r) == ArithKind(op, r, l)
  {
  }

  /** A promoted result stays in the operands' family and is at least as wide as either operand. */
  lemma PromotionNeverNarrows(op: ArithOp, l: Kind, r: Kind)
    requires ArithKind(op, l, r).Some?
    ensures FamilyOf(ArithKind(op, l, r).value) == FamilyOf(l) == FamilyOf(r)
    ensures Rank(ArithKind(op, l, r).value) >= Rank(l)
    ensures Rank(ArithKind(op, l, r).value) >= Rank(r)
  {
  }

  /** int add/substract/multiply/mod/minValue/maxValue: int with an int operand, double with a double one. */
  lemma IntArithmeticStaysIntegral(t: Typing, a: ArithOp, o1: Opt, o2: Opt, ts1: set<Ref>, ts2: set<Ref>)
    requires StaysIntegral(a)
    ensures ResultTag(t, Arith(a), Tag(Ordinary, Int, o1, ts1), [Tag(Ordinary, Int, o2, ts2)])
            == Some(Tag(Ordinary, Int, JoinOpt(o1, o2), ts1 + ts2))
    ensures ResultTag(t, Arith(a), Tag(Ordinary, Int, o1, ts1), [Tag(Ordinary, Double, o2, ts2)])
            == Some(Tag(Ordinary, Double, JoinOpt(o1, o2), ts1 + ts2))
  {
    assert [Tag(Ordinary, Int, o2, ts2)][1..] == [];
    assert [Tag(Ordinary, Double, o2, ts2)][1..] == [];
  }

  /** int divide yields double whether the divisor is int or double. */
  lemma IntDivideYieldsDouble(t: Typing, divisor: Kind, o1: Opt, o2: Opt, ts1: set<Ref>, ts2: set<Ref>)
    requires divisor == Int || divisor == Double
    ensures ResultTag(t, Arith(Divide), Tag(Ordinary, Int, o1, ts1), [Tag(Ordinary, divisor, o2, ts2)])
            == Some(Tag(Ordinary, Double, JoinOpt(o1, o2), ts1 + ts2))
  {
    assert [Tag(Ordinary, divisor, o2, ts2)][1..] == [];
  }

  /** stringInt with a stringDouble operand promotes to stringDouble; stringInt divide always does. */
  lemma StringIntPromotion(t: Typing, a: ArithOp, o1: Opt, o2: Opt, ts1: set<Ref>, ts2: set<Ref>)
    requires a != Roundn
    ensures ResultTag(t, Arith(a), Tag(Ordinary, StringInt, o1, ts1), [Tag(Ordinary, StringDouble, o2, ts2)])
            == Some(Tag(Ordinary, StringDouble, JoinOpt(o1, o2), ts1 + ts2))
    ensures ResultTag(t, Arith(Divide), Tag(Ordinary, StringInt, o1, ts1), [Tag(Ordinary, StringInt, o2, ts2)])
            == Some(Tag(Ordinary, StringDouble, JoinOpt(o1, o2), ts1 + ts2))
  {
    assert [Tag(Ordinary, StringDouble, o2, ts2)][1..] == [];
    assert [Tag(Ordinary, StringInt, o2, ts2)][1..] == [];
  }

  /** roundn accepts only an integral digit count. */
  lemma RoundnNeedsIntegralDigits(t: Typing, recv: Tag, arg: Tag)
    requires IsFractional(arg.kind)
    ensures ResultTag(t, Arith(Roundn), recv, [arg]).None?
  {
  }

  /** double ceil/floor/round/sign yield int and stringDouble ceil/floor/round yield stringInt, nullability kept. */
  lemma RoundingYieldsIntegral(t: Typing, f: NumberFn, o: Opt, ts: set<Ref>)
    requires IsRounding(f)
    ensures ResultTag(t, NumberFunction(f), Tag(Ordinary, Double, o, ts), []) == Some(Tag(Ordinary, Int, o, ts))
    ensures ResultTag(t, NumberFunction(Sign), Tag(Ordinary, Double, o, ts), []) == Some(Tag(Ordinary, Int, o, ts))
    ensures ResultTag(t, NumberFunction(f), Tag(Ordinary, StringDouble, o, ts), []) == Some(Tag(Ordinary, StringInt, o, ts))
  {
  }

  // ---------------------------------------------------------------------
  // Tables and nullability

  /**
   * Every table an operand references is referenced by the result, and no
   * other; the declared valueWhenNull(valueSource) alone drops the argument's.
   */
  lemma ResultReferencesOperandTables(t: Typing, op: Op, recv: Tag, args: seq<Tag>, table: Ref)
    requires ResultTag(t, op, recv, args).Some?
    ensures table in ResultTag(t, op, recv, args).value.tables
            <==> table in recv.tables
                 || (!(t == AsDeclared && op == ValueWhenNull) && exists i :: 0 <= i < |args| && table in args[i].tables)
  {
    ArgTablesMembership(args, table);
  }

  /** Literal arguments reference no table, so the result references exactly the receiver's tables. */
  lemma LiteralArgumentsAddNoTables(t: Typing, op: Op, recv: Tag, args: seq<Tag>)
    requires forall i :: 0 <= i < |args| ==> args[i].tables == {}
    requires ResultTag(t, op, recv, args).Some?
    ensures ResultTag(t, op, recv, args).value.tables == recv.tables
  {
    forall table | table in ArgTables(args)
      ensures false
    {
      ArgTablesMembership(args, table);
    }
  }

  /**
   * Outside asOptional and valueWhenNull, the result may be null exactly when
   * the operation is not one that never yields null (under that typing) and one
   * of the operands (receiver included) may be.
   */
  lemma NullabilityPropagates(t: Typing, op: Op, recv: Tag, args: seq<Tag>)
    requires ResultTag(t, op, recv, args).Some?
    requires op != AsOptional && op != ValueWhenNull
    ensures ResultTag(t, op, recv, args).value.opt == Optional
            <==> !NeverNull(t, op) && (recv.opt == Optional || exists i :: 0 <= i < |args| && args[i].opt == Optional)
  {
    var operands := [recv] + args;
    AnyOptionalMembership(operands);
    if exists i :: 0 <= i < |args| && args[i].opt == Optional {
      var i :| 0 <= i < |args| && args[i].opt == Optional;
      assert operands[i + 1].opt == Optional;
    }
    if exists i :: 0 <= i < |operands| && operands[i].opt == Optional {
      var i :| 0 <= i < |operands| && operands[i].opt == Optional;
      if i > 0 {
        assert args[i - 1].opt == Optional;
      }
    }
  }

  /** Comparisons follow BooleanOrNullOf: null-capable exactly when an operand is, except `is`/`isNot`, which never are. */
  lemma ComparisonNullability(t: Typing, c: Comparator, recv: Tag, arg: Tag)
    requires recv.form == Ordinary && arg.form == Ordinary
    requires Accepts(c, recv.kind) && arg.kind == recv.kind
    ensures ResultTag(t, Compare(c), recv, [arg]).Some?
    ensures ResultTag(t, Compare(c), recv, [arg]).value.kind == Boolean
    ensures ResultTag(t, Compare(c), recv, [arg]).value.opt == Mandatory
            <==> IsNullSafe(c) || (recv.opt == Mandatory && arg.opt == Mandatory)
  {
    AnyOptionalOfTwo(recv, arg);
  }

  /** between/notBetween: null-capable exactly when one of its three operands is. */
  lemma BetweenNullability(t: Typing, negated: bool, recv: Tag, lo: Tag, hi: Tag)
    requires recv.form == Ordinary && lo.form == Ordinary && hi.form == Ordinary
    requires IsComparable(recv.kind) && lo.kind == recv.kind && hi.kind == recv.kind
    ensures ResultTag(t, Between(negated), recv, [lo, hi]).Some?
    ensures ResultTag(t, Between(negated), recv, [lo, hi]).value.kind == Boolean
    ensures ResultTag(t, Between(negated), recv, [lo, hi]).value.opt == Optional
            <==> recv.opt == Optional || lo.opt == Optional || hi.opt == Optional
  {
    AnyOptionalOfThree(recv, lo, hi);
  }

  /**
   * valueWhenNull keeps the receiver's kind and takes the replacement's
   * nullability (the declared overloads record only the receiver's tables);
   * asOptional always gives optional.
   */
  lemma ValueWhenNullLaws(t: Typing, recv: Tag, arg: Tag)
    requires recv.form == Ordinary && arg.form == Ordinary && arg.kind == recv.kind
    ensures ResultTag(t, ValueWhenNull, recv, [arg])
            == Some(Tag(Ordinary, recv.kind, arg.opt, if t == AsDeclared then recv.tables else recv.tables + arg.tables))
    ensures ResultTag(t, AsOptional, recv, []) == Some(recv.(opt := Optional))
  {
    assert [arg][1..] == [];
  }

  /** A non-null replacement makes any receiver non-null; replacing twice is decided by the last replacement. */
  lemma ValueWhenNullLastWins(t: Typing, recv: Tag, first: Tag, second: Tag)
    requires recv.form == Ordinary && first.form == Ordinary && second.form == Ordinary
    requires first.kind == recv.kind && second.kind == recv.kind
    ensures ResultTag(t, ValueWhenNull, ResultTag(t, ValueWhenNull, recv, [first]).value, [second]).value.opt == second.opt
  {
    ValueWhenNullLaws(t, recv, first);
    ValueWhenNullLaws(t, ResultTag(t, ValueWhenNull, recv, [first]).value, second);
  }

  // ---------------------------------------------------------------------
  // If-value predicates

  /**
   * and/or of two booleans: an if-value combined with an if-value stays an
   * if-value; every other combination is an ordinary boolean. The tables are
   * always unioned.
   */
  lemma IfValueCombination(t: Typing, op: Op, x: Tag, y: Tag)
    requires IsConnective(op) && x.kind == Boolean && y.kind == Boolean
    ensures ResultTag(t, op, x, [y]).Some?
    ensures ResultTag(t, op, x, [y]).value.form == IfValue <==> x.form == IfValue && y.form == IfValue
    ensures ResultTag(t, op, x, [y]).value.kind == Boolean
    ensures ResultTag(t, op, x, [y]).value.tables == x.tables + y.tables
    ensures ResultTag(t, op, x, [y]).value.opt == JoinOpt(x.opt, y.opt)
  {
    assert [y][1..] == [];
    AnyOptionalOfTwo(x, y);
  }

  /** An if-value accepts nothing but and/or, and cannot be the argument of anything else either. */
  lemma IfValueOnlyCombines(t: Typing, op: Op, x: Tag, y: Tag)
    requires !IsConnective(op) && (x.form == IfValue || y.form == IfValue)
    ensures ResultTag(t, op, x, [y]).None?
  {
    assert [y][1..] == [];
  }

  /** Each comparison's IfValue variant is an if-value over the receiver's tables alone. */
  lemma IfValueComparisonTables(t: Typing, c: Comparator, recv: Tag)
    requires ResultTag(t, CompareIfValue(c), recv, []).Some?
    ensures ResultTag(t, CompareIfValue(c), recv, []).value.form == IfValue
    ensures ResultTag(t, CompareIfValue(c), recv, []).value.tables == recv.tables
  {
  }

  /**
   * When its value is present, an if-value comparison has the same tag as the
   * plain comparison against that (non-null) literal, except for the form:
   * always under the intended typing, and for every comparison but `is` as declared.
   */
  lemma IfValueComparisonAgreesWithPlain(t: Typing, c: Comparator, recv: Tag, k: Kind)
    requires recv.form == Ordinary && k == recv.kind && Accepts(c, k)
    requires t == AsIntended || c != Is
    ensures ResultTag(t, CompareIfValue(c), recv, []).Some?
    ensures ResultTag(t, Compare(c), recv, [Literal(k, Mandatory)]).Some?
    ensures ResultTag(t, CompareIfValue(c), recv, []).value
            == ResultTag(t, Compare(c), recv, [Literal(k, Mandatory)]).value.(form := IfValue)
  {
    var lit := Literal(k, Mandatory);
    assert ResultTag(t, CompareIfValue(c), recv, []) == UnaryTag(t, CompareIfValue(c), recv);
    assert UnaryTag(t, CompareIfValue(c), recv) == Some(Tag(IfValue, Boolean, IfValueComparisonOpt(c, recv.opt), recv.tables));
    assert ResultTag(t, Compare(c), recv, [lit]) == BinaryTag(t, Compare(c), recv, lit);
    assert BinaryTag(t, Compare(c), recv, lit) == Some(Tag(Ordinary, Boolean, PlainComparisonOpt(c, recv.opt, Mandatory), recv.tables + {}));
  }

  // ---------------------------------------------------------------------
  // Date families

  /**
   * A date has exactly the calendar getters and a time exactly the clock
   * getters; a date-time has both, plus getTime; each local family mirrors its
   * counterpart.
   */
  lemma DatePartsCompose(p: DatePart)
    ensures PartKind(p, Date).Some? <==> IsCalendarPart(p)
    ensures PartKind(p, Time).Some? <==> IsClockPart(p)
    ensures PartKind(p, DateTime).Some? <==> PartKind(p, Date).Some? || PartKind(p, Time).Some? || p == EpochMillis
    ensures PartKind(p, LocalDate).Some? <==> PartKind(p, Date).Some?
    ensures PartKind(p, LocalTime).Some? <==> PartKind(p, Time).Some?
    ensures PartKind(p, LocalDateTime).Some? <==> PartKind(p, DateTime).Some?
  {
  }

  // ---------------------------------------------------------------------
  // AsDeclared and intended typing

  /** The two typings accept exactly the same calls, and agree on every operation they do not correct. */
  lemma TypingsAgreeElsewhere(op: Op, recv: Tag, args: seq<Tag>)
    ensures ResultTag(AsDeclared, op, recv, args).Some? <==> ResultTag(AsIntended, op, recv, args).Some?
    ensures !IsCorrected(op) ==> ResultTag(AsDeclared, op, recv, args) == ResultTag(AsIntended, op, recv, args)
  {
    if |args| == 1 {
      assert args == [args[0]];
    } else if |args| == 2 {
      assert args == [args[0], args[1]];
    }
  }

  /** As declared, the length of a possibly-null string is typed as a non-null number. */
  lemma LengthAsWrittenDropsNull()
    ensures ResultTag(AsDeclared, Length, Tag(Ordinary, String, Optional, {}), []) == Some(Tag(Ordinary, Number, Mandatory, {}))
  {
  }

  /** Corrected: length() and every date getter keep the receiver's nullability. */
  lemma ExtractionKeepsNullability(op: Op, recv: Tag)
    requires recv.form == Ordinary && ExtractedKind(op, recv.kind).Some?
    ensures ResultTag(AsIntended, op, recv, []).Some?
    ensures ResultTag(AsIntended, op, recv, []).value.opt == recv.opt
    ensures ResultTag(AsIntended, op, recv, []).value.kind == (if op == Length then IndexKind(recv.kind) else PartKind(op.p, recv.kind).value)
  {
  }

  /** The intended length() and date getters differ from the declared ones in nullability alone. */
  lemma ExtractionCorrection(op: Op, recv: Tag)
    requires recv.form == Ordinary && ExtractedKind(op, recv.kind).Some?
    ensures ResultTag(AsDeclared, op, recv, []).Some?
    ensures ResultTag(AsIntended, op, recv, []) == Some(ResultTag(AsDeclared, op, recv, []).value.(opt := recv.opt))
  {
  }

  /** As declared, valueWhenNull(valueSource) forgets the tables the replacement references. */
  lemma ValueWhenNullAsWrittenForgetsTables()
    ensures var recv := Tag(Ordinary, Int, Optional, {Named("TCompany")});
            var arg := Tag(Ordinary, Int, Mandatory, {Named("TCustomer")});
            Named("TCustomer") !in ResultTag(AsDeclared, ValueWhenNull, recv, [arg]).value.tables
            && Named("TCustomer") in ResultTag(AsIntended, ValueWhenNull, recv, [arg]).value.tables
  {
    var arg := Tag(Ordinary, Int, Mandatory, {Named("TCustomer")});
    assert [arg][1..] == [];
  }

  /** The intended valueWhenNull differs from the declared one in recording the replacement's tables alone. */
  lemma ValueWhenNullCorrection(recv: Tag, arg: Tag)
    requires recv.form == Ordinary && arg.form == Ordinary && arg.kind == recv.kind
    ensures ResultTag(AsDeclared, ValueWhenNull, recv, [arg]).Some?
    ensures ResultTag(AsIntended, ValueWhenNull, recv, [arg])
            == Some(ResultTag(AsDeclared, ValueWhenNull, recv, [arg]).value.(tables := recv.tables + arg.tables))
  {
    ValueWhenNullLaws(AsDeclared, recv, arg);
    ValueWhenNullLaws(AsIntended, recv, arg);
  }

  /** As declared, isIfValue on a possibly-null receiver is typed as possibly null, although `is` never yields null. */
  lemma IsIfValueAsWrittenDisagrees()
    ensures var recv := Tag(Ordinary, Int, Optional, {});
            ResultTag(AsDeclared, CompareIfValue(Is), recv, []).value.opt == Optional
            && ResultTag(AsDeclared, Compare(Is), recv, [Literal(Int, Mandatory)]).value.opt == Mandatory
  {
    assert [Literal(Int, Mandatory)][1..] == [];
  }

  /** The intended isIfValue differs from the declared one in never yielding null alone. */
  lemma IsIfValueCorrection(recv: Tag)
    requires recv.form == Ordinary && IsEqualable(recv.kind)
    ensures ResultTag(AsDeclared, CompareIfValue(Is), recv, []).Some?
    ensures ResultTag(AsIntended, CompareIfValue(Is), recv, [])
            == Some(ResultTag(AsDeclared, CompareIfValue(Is), recv, []).value.(opt := Mandatory))
  {
  }

}
