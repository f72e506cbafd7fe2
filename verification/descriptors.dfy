/**
 * Table and view descriptors and the derivations of
 * src/utils/tableOrViewUtils.ts: aliasing, old values, the two outer-join
 * forms, customised names and with-views. A descriptor is its shape (which
 * interface it implements), its identity reference and its value-source
 * members; each derivation maps every member onto the derived identity.
 */
module Descriptors {

  import opened Refs
  import opened Options
  import opened ValueTypes
  import opened Remap

  /** The optional-type marker of a value source: 'required' | 'optional' | 'originallyRequired'. */
  datatype Presence = IsRequired | IsOptional | IsOriginallyRequired

  /** Only 'required' value sources are non-null; 'originallyRequired' ones sit on the nullable side of an outer join. */
  function PresenceOpt(p: Presence): Opt
  {
    if p == IsRequired then Mandatory else Optional
  }

  /** OuterOptionalTypeOf: 'required' becomes 'originallyRequired', other markers are kept. */
  function OuterOptional(p: Presence): (r: Presence)
    ensures PresenceOpt(r) == Optional
    ensures r == IsOriginallyRequired <==> p == IsRequired || p == IsOriginallyRequired
    ensures r == IsOptional <==> p == IsOptional
  {
    if p == IsRequired then IsOriginallyRequired else p
  }

  /** The brands a declared column may carry: ComputedColumn, OptionalColumn, ColumnWithDefaultValue, PrimaryKeyAutogeneratedColumn. */
  datatype ColumnFlags = ColumnFlags(computed: bool, optional: bool, hasDefault: bool, autogeneratedKey: bool)

  /** A member is a Column only when it was declared as one on a table or view. */
  datatype ColumnMarker = NotColumn | Column(flags: ColumnFlags)

  /** A value-source property of a table or view. */
  datatype Member = Member(name: string, kind: Kind, presence: Presence, ref: Ref, column: ColumnMarker)

  /** The value-source tag of a member. */
  function MemberTag(m: Member): Tag
  {
    Tag(Ordinary, m.kind, PresenceOpt(m.presence), {m.ref})
  }

  datatype Base = TableBase | ViewBase | WithViewBase

  /** Which interface a descriptor implements. */
  datatype Shape =
    | Declared(base: Base)                    // ITable<REF>, IView<REF>, IWithView<REF>
    | Alias(inner: Shape, alias: string)      // TableOrViewAlias<T, ALIAS>
    | Old(inner: Shape)                       // OldTableOrView<T>
    | OuterJoinSource(inner: Shape, alias: string) // OuterJoinSource<T, ALIAS>
    | OuterJoin(inner: Shape, alias: string)  // TableOrViewOuterJoin<T, ALIAS>

  /** aliasMethods: whether the descriptor has as/forUseInLeftJoin/forUseInLeftJoinAs. */
  datatype Descriptor = Descriptor(shape: Shape, ref: Ref, members: seq<Member>, aliasMethods: bool)

  /** The identity reference of a descriptor mirrors how its shape was derived. */
  predicate ShapeMatchesRef(s: Shape, r: Ref)
  {
    match s
    case Declared(_) => !r.AliasRef? && !r.OldRef? && !r.OuterJoinRef?
    case Alias(inner, a) => r.AliasRef? && r.alias == a && ShapeMatchesRef(inner, r.of)
    case Old(inner) => r.OldRef? && ShapeMatchesRef(inner, r.of)
    case OuterJoinSource(inner, a) => r.OuterJoinRef? && r.alias == a && ShapeMatchesRef(inner, r.of)
    case OuterJoin(inner, a) => r.OuterJoinRef? && r.alias == a && ShapeMatchesRef(inner, r.of)
  }

  predicate UniqueNames(ms: seq<Member>)
  {
    forall i, j :: 0 <= i < j < |ms| ==> ms[i].name != ms[j].name
  }

  predicate AllOn(ms: seq<Member>, r: Ref)
  {
    forall i :: 0 <= i < |ms| ==> ms[i].ref == r
  }

  /** A descriptor whose members are distinct properties, all on the descriptor's own identity. */
  predicate WellFormed(d: Descriptor)
  {
    ShapeMatchesRef(d.shape, d.ref) && UniqueNames(d.members) && AllOn(d.members, d.ref)
  }

  function Names(ms: seq<Member>): (r: seq<string>)
    ensures |r| == |ms| && forall i :: 0 <= i < |ms| ==> r[i] == ms[i].name
  {
    seq(|ms|, i requires 0 <= i < |ms| => ms[i].name)
  }

  /**
   * The members remapped with RemapValueSourceType onto `target`: the same
   * names, interfaces and value types, on the new identity, no longer columns.
   */
  function Retag(ms: seq<Member>, target: Ref): (r: seq<Member>)
    ensures |r| == |ms| && AllOn(r, target)
    ensures forall i :: 0 <= i < |ms| ==>
              r[i].name == ms[i].name && r[i].presence == ms[i].presence && r[i].column == NotColumn
              && Some(MemberTag(r[i])) == RemapValueSourceType({target}, MemberTag(ms[i]))
  {
    seq(|ms|, i requires 0 <= i < |ms| => Member(ms[i].name, ms[i].kind, ms[i].presence, target, NotColumn))
  }

  /**
   * The members remapped onto `target` with their optional type replaced by
   * OuterOptionalTypeOf: every one becomes nullable.
   */
  function OuterRetag(ms: seq<Member>, target: Ref): (r: seq<Member>)
    ensures |r| == |ms| && AllOn(r, target)
    ensures forall i :: 0 <= i < |ms| ==>
              r[i].name == ms[i].name && r[i].presence == OuterOptional(ms[i].presence) && r[i].column == NotColumn
              && Some(MemberTag(r[i])) == RemapAsOptional({target}, MemberTag(ms[i]))
  {
    seq(|ms|, i requires 0 <= i < |ms| => Member(ms[i].name, ms[i].kind, OuterOptional(ms[i].presence), target, NotColumn))
  }

  /** AliasedTableOrView<T, ALIAS>: every value source remapped onto the alias, without the alias methods. */
  function Aliased(d: Descriptor, alias: string): (r: Descriptor)
    ensures r.shape == Alias(d.shape, alias) && r.ref == AliasRef(d.ref, alias) && !r.aliasMethods
    ensures |r.members| == |d.members|
    ensures forall i :: 0 <= i < |d.members| ==>
              r.members[i].name == d.members[i].name
              && Some(MemberTag(r.members[i])) == RemapValueSourceType({r.ref}, MemberTag(d.members[i]))
  {
    var target := AliasRef(d.ref, alias);
    Descriptor(Alias(d.shape, alias), target, Retag(d.members, target), false)
  }

  /** OldValues<T>: every value source remapped onto OLD of the table. */
  function OldValues(d: Descriptor): (r: Descriptor)
    ensures r.shape == Old(d.shape) && r.ref == OldRef(d.ref) && !r.aliasMethods
    ensures |r.members| == |d.members|
    ensures forall i :: 0 <= i < |d.members| ==>
              r.members[i].name == d.members[i].name
              && Some(MemberTag(r.members[i])) == RemapValueSourceType({r.ref}, MemberTag(d.members[i]))
  {
    var target := OldRef(d.ref);
    Descriptor(Old(d.shape), target, Retag(d.members, target), false)
  }

  /** OuterJoinSourceOf<T, ALIAS>: what forUseInLeftJoin returns; every value source becomes nullable. */
  function OuterJoinSourceOf(d: Descriptor, alias: string): (r: Descriptor)
    ensures r.shape == OuterJoinSource(d.shape, alias) && r.ref == OuterJoinRef(d.ref, alias) && !r.aliasMethods
    ensures |r.members| == |d.members|
    ensures forall i :: 0 <= i < |d.members| ==>
              r.members[i].name == d.members[i].name && r.members[i].presence == OuterOptional(d.members[i].presence)
              && Some(MemberTag(r.members[i])) == RemapAsOptional({r.ref}, MemberTag(d.members[i]))
  {
    var target := OuterJoinRef(d.ref, alias);
    Descriptor(OuterJoinSource(d.shape, alias), target, OuterRetag(d.members, target), false)
  }

  /** OuterJoinTableOrView<T, ALIAS>: the outer-joined table as seen by the query; every value source becomes nullable. */
  function OuterJoinTableOrView(d: Descriptor, alias: string): (r: Descriptor)
    ensures r.shape == OuterJoin(d.shape, alias) && r.ref == OuterJoinRef(d.ref, alias) && !r.aliasMethods
    ensures |r.members| == |d.members|
    ensures forall i :: 0 <= i < |d.members| ==>
              r.members[i].name == d.members[i].name && r.members[i].presence == OuterOptional(d.members[i].presence)
              && Some(MemberTag(r.members[i])) == RemapAsOptional({r.ref}, MemberTag(d.members[i]))
  {
    var target := OuterJoinRef(d.ref, alias);
    Descriptor(OuterJoin(d.shape, alias), target, OuterRetag(d.members, target), false)
  }

  /** WithView<WITH_VIEW<DB, NAME>, COLUMNS>: the columns of a select, on the with-view, with the alias methods. */
  function WithView(name: string, columns: seq<Member>): (r: Descriptor)
    ensures r.shape == Declared(WithViewBase) && r.ref == WithRef(name) && r.aliasMethods
    ensures |r.members| == |columns|
    ensures forall i :: 0 <= i < |columns| ==>
              r.members[i].name == columns[i].name
              && Some(MemberTag(r.members[i])) == RemapValueSourceType({r.ref}, MemberTag(columns[i]))
  {
    Descriptor(Declared(WithViewBase), WithRef(name), Retag(columns, WithRef(name)), true)
  }

  // Customised names

  /** CustomizedTableOrViewRefFor: the members' new identity; an alias is re-applied around the customised table. */
  function CustomizedRefFor(r: Ref, name: string): (c: Ref)
    ensures c.AliasRef? <==> r.AliasRef?
    ensures r.AliasRef? ==> c == AliasRef(CustomizedRefNoAlias(r, name), r.alias)
    ensures !r.AliasRef? ==> c == CustomizedRefNoAlias(r, name)
  {
    if r.AliasRef? then AliasRef(CustomizedRef(r.of, name), r.alias) else CustomizedRef(r, name)
  }

  /** CustomizedTableOrViewRefForWitNoAlias: the customised table underneath any alias. */
  function CustomizedRefNoAlias(r: Ref, name: string): (c: Ref)
    ensures c.CustomizedRef? && c.customName == name
    ensures c.of == (if r.AliasRef? then r.of else r)
  {
    if r.AliasRef? then CustomizedRef(r.of, name) else CustomizedRef(r, name)
  }

  /** CustomizedTableOrViewType: tables, views and with-views, aliased or not, keep their shape; anything else is never. */
  function CustomizedShape(s: Shape): (r: Option<Shape>)
    ensures r.Some? ==> r.value == s
    ensures r.Some? <==> s.Declared? || (s.Alias? && s.inner.Declared?)
  {
    match s
    case Declared(_) => Some(s)
    case Alias(Declared(_), _) => Some(s)
    case _ => None
  }

  /** CustomizedTableOrView<T, NAME>; alias methods only when T already had `as`. */
  function Customize(d: Descriptor, name: string): (r: Option<Descriptor>)
    ensures r.Some? <==> d.shape.Declared? || (d.shape.Alias? && d.shape.inner.Declared?)
    ensures r.Some? ==> r.value.shape == d.shape && r.value.aliasMethods == d.aliasMethods
    ensures r.Some? ==> r.value.ref == (if d.shape.Alias? then AliasRef(CustomizedRefNoAlias(d.ref, name), d.shape.alias)
                                        else CustomizedRefNoAlias(d.ref, name))
    ensures r.Some? ==> |r.value.members| == |d.members|
    ensures r.Some? ==> forall i :: 0 <= i < |d.members| ==>
              r.value.members[i].name == d.members[i].name
              && Some(MemberTag(r.value.members[i])) == RemapValueSourceType({CustomizedRefFor(d.ref, name)}, MemberTag(d.members[i]))
  {
    match CustomizedShape(d.shape)
    case None => None
    case Some(s) =>
      var base := CustomizedRefNoAlias(d.ref, name);
      var ref := if s.Alias? then AliasRef(base, s.alias) else base;
      Some(Descriptor(s, ref, Retag(d.members, CustomizedRefFor(d.ref, name)), d.aliasMethods))
  }

  // AddAliasMethods

  function As(d: Descriptor, alias: string): (r: Option<Descriptor>)
    ensures r.Some? <==> d.aliasMethods
    ensures r.Some? ==> r.value == Aliased(d, alias)
  {
    if d.aliasMethods then Some(Aliased(d, alias)) else None
  }

  function ForUseInLeftJoin(d: Descriptor): (r: Option<Descriptor>)
    ensures r.Some? <==> d.aliasMethods
    ensures r.Some? ==> r.value == OuterJoinSourceOf(d, "")
  {
    if d.aliasMethods then Some(OuterJoinSourceOf(d, "")) else None
  }

  function ForUseInLeftJoinAs(d: Descriptor, alias: string): (r: Option<Descriptor>)
    ensures r.Some? <==> d.aliasMethods
    ensures r.Some? ==> r.value == OuterJoinSourceOf(d, alias)
  {
    if d.aliasMethods then Some(OuterJoinSourceOf(d, alias)) else None
  }

}
