# ts-sql-query value typing and table descriptors, in Dafny

ts-sql-query is a TypeScript query builder. Its safety comes from its type declarations: every column, expression and predicate is a *value source*, and each method declares the type of the value source it returns. That type fixes four things:

- the **kind**, meaning which value-source interface it implements: boolean, int, double, stringInt, stringDouble, number, stringNumber, string, type-safe string, the date and time families, comparable, equalable or nullable;
- whether the value **may be null**;
- the **tables and views** it references;
- whether it is an ordinary value or an **if-value**: an optional-filter predicate that disappears when its filter value is absent.

This project models that algebra as data and proves the laws the declarations follow. It covers two files:

- `src/expressions/values.ts`: the value sources, the number families, BooleanOrNullOf, the RemapValueSourceType maps and MapArgumentToTypeSafe.
- `src/utils/tableOrViewUtils.ts`: the derivations of a table or view descriptor (alias, old values, outer-join side, customised name, with-view) and the column classifications used by insert and update.

Files:

- `refs.dfy`: table and view identities, including the derived ones (alias, old values, outer-join source, customised name).
- `value_types.dfy`: `Tag(form, kind, opt, tables)`, the tag of a value source.
- `promotion.dfy`: the number families as promotion tables, and the lattice they follow.
- `operations.dfy`: `Operations.ResultTag(t, op, recv, args)`, the tag of `recv.op(args…)` under typing `t`. It is `None` when no declared overload accepts the operands. Its helpers work by arity.
- `operation_laws.dfy`: laws over all operands covering promotion, nullability, table references and if-values, plus the findings.
- `remap.dfy`: RemapValueSourceType and its variants; MapArgumentToTypeSafe and its inverse.
- `descriptors.dfy` and `descriptor_laws.dfy`: descriptors, their derivations and the laws they obey.
- `column_sets.dfy`: ColumnsOf, ColumnsForSetOf, RequiredColumnsForSetOf, OptionalColumnsForSetOf and AutogeneratedPrimaryKeyColumnsTypesOf.
- `company_table.dfy`: the `TCompany` table of the MariaDB example as a worked instance.

Modelling conventions:

- A literal argument (a plain TypeScript value) is an ordinary tag that references no table.
- An overload with a literal or nullable argument and one with a value-source argument differ only in the argument's tag. One case of `ResultTag` therefore covers the whole overload group.
- A method declared for a capability layer (Nullable, Equalable, Comparable) applies to every kind that extends that layer.
- Every typing function takes a `Typing`:
  - `AsDeclared` is the typing the declarations state, overload by overload.
  - `AsIntended` corrects the three discrepancies listed under "## Findings".
  - The two typings accept the same calls and differ only at length() and the date getters, isIfValue, and valueWhenNull (`OperationLaws.TypingsAgreeElsewhere`).
  - A law stated for every typing holds of the declarations as written.
- The two files come from different versions of the library:
  - In `values.ts`, a value type is either `T` or `T | null | undefined`. This is `Opt`.
  - In `tableOrViewUtils.ts`, a value source carries an optional-type marker `'required' | 'optional' | 'originallyRequired'`. This is `Presence`.
  - `Descriptors.PresenceOpt` bridges the two: only `'required'` is non-null.

## Model

| member | source | states |
|---|---|---|
| Promotion.ArithKind | src/expressions/values.ts:178-694 | The per-family overload table of the two-operand number methods (add, substract, multiply, divide, mod, power, logn, roundn, minValue, maxValue, atan2) equals the promotion lattice `PromotedKind`. Operands must share a family; number and stringNumber are closed; roundn rejects a fractional digit count; a fractional operand, or an operation that leaves the integers, gives the fractional partner of the receiver. |
| Promotion.PromotedKind | src/expressions/values.ts:178-694 | Reference lattice for the promotion table. A result exists exactly when both operands belong to the same number family and roundn does not get a fractional digit count. The result stays in that family and is never narrower than either operand. It is the receiver's own kind when both operands are integral and the operation stays integral. |
| Promotion.NumberFunctionKind | src/expressions/values.ts:178-694 | The zero-argument number functions exist exactly on the six number kinds. abs keeps the kind. ceil, floor and round give the integral partner (double to int, stringDouble to stringInt). The transcendental functions give the fractional partner. sign gives number on number and stringNumber, and int on every other family. |
| Promotion.ConversionKind | src/expressions/values.ts:182-508 | Each asXxx() yields exactly the kind it names. asStringNumber exists only on number. asStringInt, asDouble and asStringDouble exist exactly on an int, double, stringInt or stringDouble receiver of another kind, when the conversion neither goes from fractional to integral nor from the string-encoded family back to the native one. So int has all three, and double and stringInt have only asStringDouble. |
| Operations.PartKind | src/expressions/values.ts:943-1063 | A date getter exists only on a date or time family. It returns int on the Local families and number on Date, Time and DateTime. |
| Operations.ExtractedKind | src/expressions/values.ts:772-778 | length() exists exactly on the two string kinds. It returns int on the type-safe string and number on the plain string. |
| Operations.ExtractionTagAsWritten | src/expressions/values.ts:774 | length() and the date getters, as declared: the result is typed non-null, whatever the receiver. |
| Operations.ExtractionTag | src/expressions/values.ts:898 | Corrected length() and date getters: the result differs from the as-declared one only in taking the receiver's nullability. |
| Operations.PlainComparisonOpt | src/expressions/values.ts:54-68 | BooleanOrNullOf for two-operand comparisons: the result may be null exactly when the comparison is not `is`/`isNot` and one operand may be null. |
| Operations.IfValueComparisonOptAsWritten | src/expressions/values.ts:53-65 | The if-value comparisons as declared: isNotIfValue yields a non-null boolean; every other one, isIfValue included, keeps the receiver's nullability. |
| Operations.IfValueComparisonOpt | src/expressions/values.ts:61-65 | Corrected if-value comparisons: each is typed like the plain comparison against a non-null value. They agree with the declarations everywhere except isIfValue. |
| Operations.ValueWhenNullAsWritten | src/expressions/values.ts:45-47 | valueWhenNull as declared: the same kind, the replacement's nullability, and only the receiver's tables. Defined exactly on ordinary operands of the same kind. |
| Operations.ValueWhenNullTag | src/expressions/values.ts:41-43 | Corrected valueWhenNull: the same as declared, except that the replacement's tables join the receiver's, as the commented-out generic signatures say. |
| Operations.UnaryTag | src/expressions/values.ts:35-48 | Zero-argument methods (isNull, isNotNull, asOptional, negate, number functions, conversions, string functions, length, getters, the xxxIfValue comparisons, concatIfValue, replaceIfValue). They take no if-value and keep the receiver's tables. Their nullability is `ExpectedOpt` for the typing: as declared, length() and the getters are never null and isIfValue keeps the receiver's nullability. Only the IfValue comparisons give an if-value. Kind-preserving methods keep the kind and predicates give a boolean. |
| Operations.BinaryTag | src/expressions/values.ts:51-97 | One-argument methods. Tables are the union of both operands' tables, except that the declared valueWhenNull keeps only the receiver's. Nullability follows `ExpectedOpt`. Only and/or accept an if-value operand, and the result is an if-value exactly when both of their operands are. Kind and predicate laws as in UnaryTag. |
| Operations.TernaryTag | src/expressions/values.ts:116-133 | between/notBetween, substring and replace: ordinary operands only; tables are the union of all three; the result may be null exactly when one operand may be; between gives a boolean; substring and replace keep the kind. |
| Operations.ExpectedOpt | src/expressions/values.ts:35-1063 | The nullability each typing gives a result:<br>• Never null for isNull, isNotNull, `is`, isNot, in(select) and isNotIfValue; also for isIfValue as intended, and for length() and the getters as declared.<br>• asOptional is always nullable.<br>• valueWhenNull takes the replacement's nullability.<br>• Otherwise nullable exactly when the receiver or some argument is (BooleanOrNullOf, AsType). |
| Operations.ExpectedTables | src/expressions/values.ts:45-56 | A table is recorded exactly when the receiver references it, or when an argument does and the call is not the declared valueWhenNull. |
| Operations.ResultTag | src/expressions/values.ts:35-1063 | The dispatcher over every declared overload group, under either typing. Its laws:<br>• An accepted call has the declared number of arguments.<br>• The result references `ExpectedTables`: every operand's tables, except that the declared valueWhenNull(valueSource) keeps only the receiver's.<br>• Its nullability is `ExpectedOpt`.<br>• Only the IfValue comparisons, and and/or of two if-values, give an if-value.<br>• An if-value receiver accepts only and/or.<br>• Kind-preserving methods keep the kind, and predicates give a boolean. |
| OperationLaws.ArithKindSymmetric | src/expressions/values.ts:363-487 | Apart from roundn, the promotion table is symmetric: int with double and double with int both give double, and likewise for the string-encoded family. |
| OperationLaws.PromotionNeverNarrows | src/expressions/values.ts:556-583 | A promoted result stays in the operands' family and is never narrower (integral) than a fractional operand. |
| OperationLaws.IntArithmeticStaysIntegral | src/expressions/values.ts:363-392 | int add/substract/multiply/mod/minValue/maxValue with an int operand give int; with a double operand they give double. Nullability is joined and tables are unioned. |
| OperationLaws.IntDivideYieldsDouble | src/expressions/values.ts:381-386 | int divide gives double whether the divisor is int or double. |
| OperationLaws.StringIntPromotion | src/expressions/values.ts:556-579 | stringInt arithmetic with a stringDouble operand gives stringDouble, and stringInt divided by stringInt gives stringDouble. |
| OperationLaws.RoundnNeedsIntegralDigits | src/expressions/values.ts:444-446 | Under either typing, roundn rejects a fractional digit count on every receiver. |
| OperationLaws.RoundingYieldsIntegral | src/expressions/values.ts:414-422 | double ceil/floor/round/sign give int, and stringDouble ceil/floor/round give stringInt, with the receiver's nullability (AsType) and tables. |
| Operations.ArgTablesMembership | src/expressions/values.ts:53-56 | A table is referenced by an argument list exactly when one argument references it. |
| Operations.AnyOptionalMembership | src/expressions/values.ts:116-133 | An operand list may be null exactly when one operand may be. |
| OperationLaws.ResultReferencesOperandTables | src/expressions/values.ts:53-56 | Under either typing, a table is referenced by the result exactly when the receiver references it, or when an argument does and the call is not the declared valueWhenNull(valueSource). |
| OperationLaws.LiteralArgumentsAddNoTables | src/expressions/values.ts:54 | Under either typing, with literal arguments only, the result references exactly the receiver's tables. |
| OperationLaws.NullabilityPropagates | src/expressions/values.ts:363-368 | Under either typing, apart from asOptional and valueWhenNull, the result may be null exactly when two things hold: the operation is not never-null under that typing, and the receiver or some argument may be null. As declared, length() and the getters are never-null and isIfValue is not. |
| OperationLaws.ComparisonNullability | src/expressions/values.ts:1080 | Under either typing, a comparison between two ordinary operands of the same kind, where the kind offers that comparison, is accepted and gives a boolean. The boolean is non-null exactly when the comparison is `is`/`isNot` or both operands are non-null. |
| OperationLaws.BetweenNullability | src/expressions/values.ts:116-124 | Under either typing, between/notBetween on three ordinary operands of one comparable kind is accepted and gives a boolean. That boolean may be null exactly when one of the three operands may be. |
| OperationLaws.ValueWhenNullLaws | src/expressions/values.ts:45-48 | valueWhenNull keeps the receiver's kind and takes the replacement's nullability. It references the receiver's tables as declared, and both operands' tables as intended. asOptional always gives an optional value. |
| OperationLaws.ValueWhenNullLastWins | src/expressions/values.ts:45-47 | Chained valueWhenNull calls: the last replacement decides the nullability. |
| OperationLaws.IfValueCombination | src/expressions/values.ts:141-175 | and/or of two booleans always succeeds. It gives an if-value exactly when both operands are if-values, and an ordinary boolean otherwise. Tables are unioned and nullability joined. |
| OperationLaws.IfValueOnlyCombines | src/expressions/values.ts:161-175 | An if-value accepts only and/or, and can only be the argument of and/or. |
| OperationLaws.IfValueComparisonTables | src/expressions/values.ts:53 | An xxxIfValue comparison is an if-value over the receiver's tables alone. |
| OperationLaws.IfValueComparisonAgreesWithPlain | src/expressions/values.ts:52-65 | Whenever its value is present, an if-value comparison has the tag of the plain comparison against that non-null value, apart from the form. This holds under the intended typing for every comparison, and as declared for every comparison but `is`. |
| OperationLaws.DatePartsCompose | src/expressions/values.ts:943-1063 | A date has exactly the calendar getters and a time exactly the clock getters. A date-time has both, plus getTime. Each Local family has the getters of its counterpart. |
| OperationLaws.LengthAsWrittenDropsNull | src/expressions/values.ts:774 | Counterexample: the declared typing gives length() of a possibly-null string a non-null number. |
| OperationLaws.ExtractionKeepsNullability | src/expressions/values.ts:946-1057 | Corrected: on every ordinary receiver that has them, length() and every date getter are accepted, keep the receiver's nullability and return the kind the declaration names. |
| OperationLaws.ValueWhenNullAsWrittenForgetsTables | src/expressions/values.ts:46 | Counterexample: as declared, valueWhenNull of a TCompany column with a replacement column from TCustomer gives a value that does not reference TCustomer; as intended, it does. |
| OperationLaws.IsIfValueAsWrittenDisagrees | src/expressions/values.ts:61-62 | Counterexample: as declared, isIfValue on a possibly-null int may be null, although `is` against a non-null int never is. |
| OperationLaws.TypingsAgreeElsewhere | src/expressions/values.ts:35-1063 | The declared and intended typings accept exactly the same calls. They give the same tag for every operation except length(), the date getters, isIfValue and valueWhenNull. |
| OperationLaws.ExtractionCorrection | src/expressions/values.ts:946-1057 | On every receiver that has length() or the getter, the intended tag is the declared one with the receiver's nullability instead of non-null. |
| OperationLaws.ValueWhenNullCorrection | src/expressions/values.ts:41-47 | On every accepted valueWhenNull, the intended tag is the declared one with the replacement's tables added. |
| OperationLaws.IsIfValueCorrection | src/expressions/values.ts:61-64 | On every equalable receiver, the intended isIfValue tag is the declared one made non-null, as `is` is. |
| Remap.Rehome | src/expressions/values.ts:1083-1105 | Reference definition for the remaps. A value source maps to the same interface on the target tables with the requested nullability. An if-value (not a ValueSource) maps to never. |
| Remap.RemapValueSourceType | src/expressions/values.ts:1083-1105 | The value source moves onto the target tables with its kind and nullability unchanged. |
| Remap.RemapAsOptional | src/expressions/values.ts:1107-1129 | The value source moves onto the target tables with its kind unchanged, and becomes nullable. |
| Remap.RemapAsMandatory | src/expressions/values.ts:1131-1153 | The value source moves onto the target tables with its kind unchanged, and becomes non-null (MandatoryTypeOf). |
| Remap.RemapOntoOwnTables | src/expressions/values.ts:1083-1105 | Remapping a value source onto its own tables changes nothing. |
| Remap.RemapComposes | src/expressions/values.ts:1083-1153 | Remapping twice is remapping once onto the last target; the last nullability requested wins. |
| Remap.AsOptionalIsRemapAsOptional | src/expressions/values.ts:44-48 | Under either typing, asOptional() is RemapValueSourceTypeAsOptional onto the receiver's own tables, as the commented-out signature says. |
| Remap.ValueWhenNullIsRemapAsMandatory | src/expressions/values.ts:41-45 | Under either typing, valueWhenNull with a non-null literal is RemapValueSourceTypeAsMandatory onto the receiver's own tables. |
| Remap.TypeOf | src/expressions/values.ts:1175 | TypeOf is non-null exactly for 'required' arguments. |
| Remap.ArgumentKind | src/expressions/values.ts:1178-1193 | The argument types map only to type-safe interfaces: never nullable-only, number, stringNumber, plain string, or the non-Local date families. |
| Remap.MapArgumentToTypeSafe | src/expressions/values.ts:1178-1193 | A declared argument becomes an ordinary value source on the given tables. Its kind is its argument type's interface (for example 'int' to int, 'string' to type-safe string). It is non-null exactly when the argument is 'required'. |
| Remap.ArgumentTypeOf | src/expressions/values.ts:1159 | Inverse of ArgumentKind on the argument types, choosing 'enum' for the equalable interface. |
| Remap.RequireOf | src/expressions/values.ts:1160 | Inverse of TypeOf. |
| Remap.ArgumentRoundTrip | src/expressions/values.ts:1159-1193 | Decoding the value source an argument maps to gives back the argument's type and requiredness. The only exception is that 'custom' comes back as 'enum'. |
| Remap.ArgumentKindInjective | src/expressions/values.ts:1189-1190 | Distinct argument types map to distinct interfaces, except 'enum' and 'custom', which share EqualableValueSource. |
| Descriptors.OuterOptional | src/utils/tableOrViewUtils.ts:17-22 | OuterOptionalTypeOf always gives a nullable marker. It is 'originallyRequired' exactly when the marker was 'required' (or already 'originallyRequired'), and 'optional' exactly when it was 'optional'. |
| Descriptors.Names | src/utils/tableOrViewUtils.ts:7 | The property names of a member list, position by position. |
| Descriptors.Retag | src/utils/tableOrViewUtils.ts:10-13 | Each member keeps its name and optional-type marker, moves to the target identity, and is exactly RemapValueSourceType of the original onto that identity. |
| Descriptors.OuterRetag | src/utils/tableOrViewUtils.ts:15-16 | Each member keeps its name, gets the OuterOptionalTypeOf marker, and is exactly RemapValueSourceTypeAsOptional of the original onto the outer-join identity. |
| Descriptors.OldValues | src/utils/tableOrViewUtils.ts:10 | OldValues gives the OLD shape and identity, without alias methods. Every member keeps its name and is RemapValueSourceType of the original onto OLD of the reference. |
| Descriptors.Aliased | src/utils/tableOrViewUtils.ts:12 | AliasedTableOrView gives the alias shape and identity, without alias methods. Every member keeps its name and is RemapValueSourceType of the original onto the alias. |
| Descriptors.OuterJoinSourceOf | src/utils/tableOrViewUtils.ts:15 | OuterJoinSourceOf gives the outer-join-source shape on OUTER_JOIN_SOURCE of the reference and alias. Every member keeps its name, gets the OuterOptionalTypeOf marker, and is RemapValueSourceTypeAsOptional of the original. |
| Descriptors.OuterJoinTableOrView | src/utils/tableOrViewUtils.ts:16 | OuterJoinTableOrView is the same as OuterJoinSourceOf, on the outer-joined shape. |
| Descriptors.WithView | src/utils/tableOrViewUtils.ts:13-35 | WithView gives a declared with-view on WITH_VIEW of the name, with the alias methods. Every column keeps its name and is RemapValueSourceType of the selected value source onto the with-view. |
| Descriptors.CustomizedRefFor | src/utils/tableOrViewUtils.ts:49-51 | CustomizedTableOrViewRefFor is an alias exactly when the reference is. It is the no-alias customised reference, with the alias re-applied when there was one. |
| Descriptors.CustomizedRefNoAlias | src/utils/tableOrViewUtils.ts:53-55 | CustomizedTableOrViewRefForWitNoAlias customises the reference under its alias (or the reference itself) with the given name. |
| Descriptors.Customize | src/utils/tableOrViewUtils.ts:59-63 | CustomizedTableOrView is defined exactly for tables, views and with-views, aliased or not. It keeps the shape and the alias methods. Its identity is the no-alias customised reference, re-aliased when the shape is an alias. Every member keeps its name and is RemapValueSourceType of the original onto CustomizedTableOrViewRefFor. |
| Descriptors.CustomizedShape | src/utils/tableOrViewUtils.ts:37-47 | CustomizedTableOrViewType keeps the shape, and is defined exactly for tables, views and with-views, aliased or not. |
| Descriptors.As | src/utils/tableOrViewUtils.ts:29-30 | `as` exists exactly on descriptors with the alias methods, and gives the aliased descriptor. |
| Descriptors.ForUseInLeftJoin | src/utils/tableOrViewUtils.ts:29-31 | forUseInLeftJoin exists exactly on descriptors with the alias methods, and gives the outer-join source with the empty alias. |
| Descriptors.ForUseInLeftJoinAs | src/utils/tableOrViewUtils.ts:29-32 | forUseInLeftJoinAs exists exactly on descriptors with the alias methods, and gives the outer-join source with that alias. |
| DescriptorLaws.AliasedKeepsMembers | src/utils/tableOrViewUtils.ts:12 | Aliasing keeps every member's name, kind and optionality, and moves it to TABLE_OR_VIEW_ALIAS of the reference and alias. |
| DescriptorLaws.OldValuesKeepsMembers | src/utils/tableOrViewUtils.ts:10 | The old-values view keeps every member's name, kind and optionality, and moves it to OLD of the reference. |
| DescriptorLaws.OuterJoinMakesNullable | src/utils/tableOrViewUtils.ts:15-22 | On the outer-join side every member may be null, keeps its name and kind, and sits on OUTER_JOIN_SOURCE. It is marked 'originallyRequired' exactly when it was not declared optional. |
| DescriptorLaws.OuterOptionalIdempotent | src/utils/tableOrViewUtils.ts:17-22 | Widening for an outer join twice is widening once. |
| DescriptorLaws.OuterJoinFormsAgree | src/utils/tableOrViewUtils.ts:15-16 | OuterJoinSourceOf and OuterJoinTableOrView have the same members on the same identity. |
| DescriptorLaws.LeftJoinWithoutAlias | src/utils/tableOrViewUtils.ts:31-32 | forUseInLeftJoin() is forUseInLeftJoinAs(''). |
| DescriptorLaws.RetagKeepsUniqueNames | src/utils/tableOrViewUtils.ts:10-16 | Retagging a member list for a derived identity, plain or for an outer join, keeps distinct property names distinct. |
| DescriptorLaws.DerivationsPreserveWellFormed | src/utils/tableOrViewUtils.ts:10-16 | Alias, old values and both outer-join forms of a well-formed descriptor are well-formed. Well-formed means distinct member names, every member on the descriptor's identity, and an identity that mirrors the shape. |
| DescriptorLaws.WithViewWellFormed | src/utils/tableOrViewUtils.ts:13-35 | A with-view over distinctly named columns is a well-formed declared with-view. It has the alias methods and the columns' names. |
| DescriptorLaws.CustomizeLaws | src/utils/tableOrViewUtils.ts:37-63 | Customising a name is defined exactly for tables, views and with-views, aliased or not. It keeps the shape and the member names. It keeps the alias methods exactly when the source had `as`, and gives a well-formed descriptor. |
| DescriptorLaws.CustomizeCommutesWithAlias | src/utils/tableOrViewUtils.ts:49-57 | Customising an aliased table equals aliasing the customised table: the new name goes under the alias, and the alias is re-applied. |
| DescriptorLaws.DerivedAliasMethods | src/utils/tableOrViewUtils.ts:59-63 | Aliases, old values and outer-join sides have no alias methods. A customised descriptor has `as` exactly when its source had it. |
| ColumnSets.SelectMembership | src/utils/tableOrViewUtils.ts:76-106 | Each classification keeps exactly the members that are columns of the descriptor's own identity and satisfy its brand test, and invents none (sub-multiset). The tests are: settable = not computed; required = not computed, not optional, no default; optional = not computed and optional or defaulted; autogenerated key = not computed and autogenerated primary key. |
| ColumnSets.SelectedNames | src/utils/tableOrViewUtils.ts:76-105 | The names a selection lists are exactly the names of the members that satisfy it. |
| ColumnSets.ColumnsOf | src/utils/tableOrViewUtils.ts:7 | A name is listed exactly when a member of that name is a column on the descriptor's own identity. |
| ColumnSets.ColumnsForSetOf | src/utils/tableOrViewUtils.ts:76-80 | A name is listed exactly when a member of that name is a non-computed column of the descriptor. |
| ColumnSets.RequiredColumnsForSetOf | src/utils/tableOrViewUtils.ts:82-93 | A name is listed exactly when a member of that name is a non-computed, non-optional column without a default. |
| ColumnSets.OptionalColumnsForSetOf | src/utils/tableOrViewUtils.ts:95-105 | A name is listed exactly when a member of that name is a non-computed column that is optional or has a default. |
| ColumnSets.AutogeneratedPrimaryKeyColumnsTypesOf | src/utils/tableOrViewUtils.ts:65-74 | The autogenerated-key value types (ValueSourceValueType: kind and nullability) are exactly those of the non-computed autogenerated-primary-key columns of the descriptor. |
| ColumnSets.HeadPartition | src/utils/tableOrViewUtils.ts:82-106 | A single member is settable exactly when it is required-for-set or optional-for-set, and never both. |
| ColumnSets.ForSetPartition | src/utils/tableOrViewUtils.ts:76-106 | The required-for-set and optional-for-set columns together are exactly the settable columns (as multisets). |
| ColumnSets.RequiredOptionalDisjoint | src/utils/tableOrViewUtils.ts:82-106 | No member is both required and optional for set. |
| ColumnSets.RequiredOptionalNamesDisjoint | src/utils/tableOrViewUtils.ts:82-106 | With distinct property names, no name is both a required and an optional column for set. |
| ColumnSets.AutogeneratedKeysAreSettable | src/utils/tableOrViewUtils.ts:65-80 | Every autogenerated primary key is a settable column. |
| ColumnSets.NoColumnsNoneSelected | src/utils/tableOrViewUtils.ts:7 | Members that are not columns appear in no classification. |
| ColumnSets.DerivedDescriptorsHaveNoColumns | src/utils/tableOrViewUtils.ts:10-16 | Aliases, old values, outer-join sides, with-views and customised descriptors have no columns: nothing of them can be inserted or updated. |
| CompanyTable.Company | src/examples/MariaDBExample-modern.ts:23-30 | The TCompany table (autogenerated int `id`, string `name`, optional int `parentId`) is a well-formed table descriptor. |
| CompanyTable.CompanyColumnSets | src/examples/MariaDBExample-modern.ts:23-30 | For TCompany, all three columns are settable. An insert must set `name`; `id` and `parentId` may be omitted. The generated key's value type is a non-null int. |
| CompanyTable.CompanyLeftJoin | src/utils/tableOrViewUtils.ts:31 | forUseInLeftJoin illustrated on TCompany (the example itself left-joins TCustomer). Every column of the left-join side may be null, `id` and `name` are 'originallyRequired', and no column remains. |
| CompanyTable.ParentCompanyJoinCondition | src/examples/MariaDBExample-modern.ts:780-816 | As declared, `parentId.equals(parentCompany.id)` on the `parentCompany` alias of TCompany is an ordinary boolean that may be null, referencing both TCompany and the alias. |

## Left out

- Query execution, SQL text emission, query runners and the examples' database I/O. Only the declared types are modelled, never values.
- The numeric semantics of the math functions. Only their result kinds are modelled.
- The `this[typeof database]` constraint: the model assumes a single database. Symbol brands and `__getValueSourcePrivate` are also out.
- TypeAdapter: it changes how values are converted, never a tag.
- null versus undefined: both are "may be null" (`Optional`).
- TypeScript's structural assignability between interfaces. A comparison, concatenation or replacement requires an argument of the receiver's own kind. A number brand that TypeScript would accept structurally in place of another is not modelled.
- MapArgumentToTypeUnsafe, TypeOfArgument, ColumnsOf/TypeOfColumn/InputTypeOfColumn of values.ts, and StringOrNullOf: they are not used by the modelled operations.
- `in`/`notIn` with an array of literals is treated as one literal argument. `inN`/`notInN` with several value sources are treated as `in` with one, as their declarations say ("only one source table").
- The replaceIfValue overloads that mix a literal and a value source are modelled as `ReplaceIfValueWith` with one value-source argument. Under that model the literal's nullability never reaches the result, as the declarations say.
- src/utils/Column.ts and src/utils/ITableOrView.ts are not part of this model. Two behaviours from them are assumed:
  - Column brands are lost when a member is remapped, so derived descriptors have no columns.
  - Aliases, old values and outer-join forms do not carry the alias methods.
- `autogeneratedPrimaryKey` columns are assumed to carry a default value (CompanyTable.IdColumn). This is why `id` is optional for insert.

## Findings

| source | as written | input that shows it | evidently intended | confidence | as-written member | corrected member |
|---|---|---|---|---|---|---|
| src/expressions/values.ts:774 | `length()` of a string, and every date getter (lines 946-1057), returns a non-null `number`/`int` whatever the receiver's type | `optionalColumn('name', 'string').length()` is typed non-null, though SQL `LENGTH(NULL)` is null | the receiver's nullability is kept (`AsType<TYPE, number>`, as the number functions do) | not executed | Operations.ExtractionTagAsWritten, OperationLaws.LengthAsWrittenDropsNull | Operations.ExtractionTag, OperationLaws.ExtractionCorrection |
| src/expressions/values.ts:46 | `valueWhenNull(value: ValueSource<TABLE_OR_VIEW2, …>)` returns a value source on `TABLE_OR_VIEW` only | an optional column of TCompany with a replacement column of TCustomer gives a value that does not reference TCustomer | the result references `TABLE_OR_VIEW \| TABLE_OR_VIEW2`, as in the commented-out signature at lines 42-43 | not executed | Operations.ValueWhenNullAsWritten, OperationLaws.ValueWhenNullAsWrittenForgetsTables | Operations.ValueWhenNullTag, OperationLaws.ValueWhenNullCorrection |
| src/expressions/values.ts:61 | `isIfValue` returns `IfValueSource<TABLE_OR_VIEW, BooleanOrNullOf<TYPE>>` | `isIfValue` on an optional column is typed possibly-null, while `is` (62-64) and `isNotIfValue` (65) give `boolean` | `IfValueSource<TABLE_OR_VIEW, boolean>`, like `isNotIfValue` | not executed | Operations.IfValueComparisonOptAsWritten, OperationLaws.IsIfValueAsWrittenDisagrees | Operations.IfValueComparisonOpt, OperationLaws.IsIfValueCorrection |
