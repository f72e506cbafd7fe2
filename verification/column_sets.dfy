/**
 * The column classifications of src/utils/tableOrViewUtils.ts used by insert
 * and update: the columns of a descriptor, the settable ones, those an insert
 * must set, those it may omit, and the autogenerated primary keys.
 */
module ColumnSets {

  import opened Refs
  import opened Options
  import opened ValueTypes
  import opened Descriptors

  datatype Selection = AllColumns | ForSet | RequiredForSet | OptionalForSet | AutogeneratedKeys

  /** ValueSourceOf<T[tableOrViewRef]> & Column: a column declared on the descriptor's own identity. */
  predicate IsColumnOf(r: Ref, m: Member)
  {
    m.ref == r && m.column.Column?
  }

  predicate Selects(s: Selection, r: Ref, m: Member)
  {
    IsColumnOf(r, m)
    && match s
       case AllColumns => true
       case ForSet => !m.column.flags.computed
       case RequiredForSet => !m.column.flags.computed && !m.column.flags.optional && !m.column.flags.hasDefault
       case OptionalForSet => !m.column.flags.computed && (m.column.flags.optional || m.column.flags.hasDefault)
       case AutogeneratedKeys => !m.column.flags.computed && m.column.flags.autogeneratedKey
  }

  /** The selected head of a member list: the member itself or nothing. */
  function Head(s: Selection, r: Ref, m: Member): seq<Member>
  {
    if Selects(s, r, m) then [m] else []
  }

  /** The members the selection keeps, in declaration order. */
  function Select(s: Selection, r: Ref, ms: seq<Member>): seq<Member>
    decreases |ms|
  {
    if |ms| == 0 then [] else Head(s, r, ms[0]) + Select(s, r, ms[1..])
  }

  /** A selection keeps exactly the members that satisfy it, and invents none. */
  lemma {:induction false} SelectMembership(s: Selection, r: Ref, ms: seq<Member>)
    ensures forall m :: m in Select(s, r, ms) <==> m in ms && Selects(s, r, m)
    ensures multiset(Select(s, r, ms)) <= multiset(ms)
    decreases |ms|
  {
    if |ms| > 0 {
      SelectMembership(s, r, ms[1..]);
      assert ms == [ms[0]] + ms[1..];
    }
  }

  /** The names of the selected members are exactly the names of the members that satisfy the selection. */
  lemma SelectedNames(s: Selection, r: Ref, ms: seq<Member>)
    ensures forall n :: n in Names(Select(s, r, ms)) <==> exists m :: m in ms && Selects(s, r, m) && m.name == n
  {
    SelectMembership(s, r, ms);
    var sel := Select(s, r, ms);
    forall n
      ensures n in Names(sel) <==> exists m :: m in ms && Selects(s, r, m) && m.name == n
    {
      if n in Names(sel) {
        var i :| 0 <= i < |sel| && Names(sel)[i] == n;
        assert sel[i] in sel;
      }
      if exists m :: m in ms && Selects(s, r, m) && m.name == n {
        var m :| m in ms && Selects(s, r, m) && m.name == n;
        assert m in sel;
        var i :| 0 <= i < |sel| && sel[i] == m;
        assert Names(sel)[i] == n;
      }
    }
  }

  /** ColumnsOf<T>: the names of the columns declared on the descriptor's own identity. */
  function ColumnsOf(d: Descriptor): (r: seq<string>)
    ensures forall n :: n in r <==> exists m :: m in d.members && IsColumnOf(d.ref, m) && m.name == n
  {
    SelectedNames(AllColumns, d.ref, d.members);
    Names(Select(AllColumns, d.ref, d.members))
  }

  /** ColumnsForSetOf<T>: the non-computed columns. */
  function ColumnsForSetOf(d: Descriptor): (r: seq<string>)
    ensures forall n :: n in r <==>
              exists m :: m in d.members && IsColumnOf(d.ref, m) && !m.column.flags.computed && m.name == n
  {
    SelectedNames(ForSet, d.ref, d.members);
    Names(Select(ForSet, d.ref, d.members))
  }

  /** RequiredColumnsForSetOf<T>: non-computed columns that are neither optional nor defaulted. */
  function RequiredColumnsForSetOf(d: Descriptor): (r: seq<string>)
    ensures forall n :: n in r <==>
              exists m :: m in d.members && IsColumnOf(d.ref, m) && !m.column.flags.computed
                           && !m.column.flags.optional && !m.column.flags.hasDefault && m.name == n
  {
    SelectedNames(RequiredForSet, d.ref, d.members);
    Names(Select(RequiredForSet, d.ref, d.members))
  }

  /** OptionalColumnsForSetOf<T>: non-computed columns that are optional or defaulted. */
  function OptionalColumnsForSetOf(d: Descriptor): (r: seq<string>)
    ensures forall n :: n in r <==>
              exists m :: m in d.members && IsColumnOf(d.ref, m) && !m.column.flags.computed
                           && (m.column.flags.optional || m.column.flags.hasDefault) && m.name == n
  {
    SelectedNames(OptionalForSet, d.ref, d.members);
    Names(Select(OptionalForSet, d.ref, d.members))
  }

  /** ValueSourceValueType<T[K]>: the TypeScript value type of a value source, its kind and whether it may be null. */
  datatype ValueType = ValueType(kind: Kind, opt: Opt)

  function ValueTypeOf(m: Member): ValueType
  {
    ValueType(m.kind, PresenceOpt(m.presence))
  }

  /** AutogeneratedPrimaryKeyColumnsTypesOf<T>: the value types of the non-computed autogenerated primary keys. */
  function AutogeneratedPrimaryKeyColumnsTypesOf(d: Descriptor): (r: set<ValueType>)
    ensures forall v :: v in r <==>
              exists m :: m in d.members && IsColumnOf(d.ref, m) && !m.column.flags.computed
                           && m.column.flags.autogeneratedKey && v == ValueTypeOf(m)
  {
    SelectMembership(AutogeneratedKeys, d.ref, d.members);
    set m | m in Select(AutogeneratedKeys, d.ref, d.members) :: ValueTypeOf(m)
  }

  /** A settable member is either required or optional for set, never both; any other member is neither. */
  lemma HeadPartition(r: Ref, m: Member)
    ensures multiset(Head(RequiredForSet, r, m)) + multiset(Head(OptionalForSet, r, m)) == multiset(Head(ForSet, r, m))
  {
    if !Selects(ForSet, r, m) {
      assert Head(RequiredForSet, r, m) == [] && Head(OptionalForSet, r, m) == [] && Head(ForSet, r, m) == [];
    } else if Selects(RequiredForSet, r, m) {
      assert Head(RequiredForSet, r, m) == [m] && Head(OptionalForSet, r, m) == [] && Head(ForSet, r, m) == [m];
    } else {
      assert Head(RequiredForSet, r, m) == [] && Head(OptionalForSet, r, m) == [m] && Head(ForSet, r, m) == [m];
    }
  }

  /** The required-for-set and optional-for-set columns split the settable columns: together they are exactly the settable ones. */
  lemma {:induction false} ForSetPartition(r: Ref, ms: seq<Member>)
    ensures multiset(Select(RequiredForSet, r, ms)) + multiset(Select(OptionalForSet, r, ms)) == multiset(Select(ForSet, r, ms))
    decreases |ms|
  {
    if |ms| > 0 {
      var m := ms[0];
      ForSetPartition(r, ms[1..]);
      assert Select(RequiredForSet, r, ms) == Head(RequiredForSet, r, m) + Select(RequiredForSet, r, ms[1..]);
      assert Select(OptionalForSet, r, ms) == Head(OptionalForSet, r, m) + Select(OptionalForSet, r, ms[1..]);
      assert Select(ForSet, r, ms) == Head(ForSet, r, m) + Select(ForSet, r, ms[1..]);
      HeadPartition(r, m);
    }
  }

  /** No member is both required and optional for set. */
  lemma RequiredOptionalDisjoint(r: Ref, ms: seq<Member>, m: Member)
    ensures !(m in Select(RequiredForSet, r, ms) && m in Select(OptionalForSet, r, ms))
  {
    SelectMembership(RequiredForSet, r, ms);
    SelectMembership(OptionalForSet, r, ms);
  }

  /** With distinct member names, no column name is both required and optional for set. */
  lemma RequiredOptionalNamesDisjoint(d: Descriptor, name: string)
    requires UniqueNames(d.members)
    ensures !(name in RequiredColumnsForSetOf(d) && name in OptionalColumnsForSetOf(d))
  {
    var req := Select(RequiredForSet, d.ref, d.members);
    var opt := Select(OptionalForSet, d.ref, d.members);
    SelectMembership(RequiredForSet, d.ref, d.members);
    SelectMembership(OptionalForSet, d.ref, d.members);
    forall i, j | 0 <= i < |req| && 0 <= j < |opt|
      ensures req[i].name != opt[j].name
    {
      RequiredOptionalDisjoint(d.ref, d.members, req[i]);
      assert req[i] in req && opt[j] in opt;
      assert req[i] != opt[j];
      var p :| 0 <= p < |d.members| && d.members[p] == req[i];
      var q :| 0 <= q < |d.members| && d.members[q] == opt[j];
    }
  }

  /** Autogenerated primary keys are settable columns. */
  lemma AutogeneratedKeysAreSettable(r: Ref, ms: seq<Member>, m: Member)
    requires m in Select(AutogeneratedKeys, r, ms)
    ensures m in Select(ForSet, r, ms)
  {
    SelectMembership(AutogeneratedKeys, r, ms);
    SelectMembership(ForSet, r, ms);
  }

  /** Members that are not columns contribute to no column set. */
  lemma NoColumnsNoneSelected(s: Selection, r: Ref, ms: seq<Member>)
    requires forall i :: 0 <= i < |ms| ==> ms[i].column == NotColumn
    ensures Select(s, r, ms) == []
  {
    assert forall m | m in ms :: m.column == NotColumn;
    SelectMembership(s, r, ms);
  }

  /** Aliases, old values, outer-join sides and with-views expose value sources, not columns: nothing to insert or update. */
  lemma DerivedDescriptorsHaveNoColumns(d: Descriptor, alias: string, name: string, columns: seq<Member>)
    ensures ColumnsOf(Aliased(d, alias)) == []
    ensures ColumnsOf(OldValues(d)) == []
    ensures ColumnsOf(OuterJoinSourceOf(d, alias)) == []
    ensures ColumnsOf(WithView(name, columns)) == []
    ensures Customize(d, name).Some? ==> ColumnsOf(Customize(d, name).value) == []
  {
    NoColumnsNoneSelected(AllColumns, AliasRef(d.ref, alias), Aliased(d, alias).members);
    NoColumnsNoneSelected(AllColumns, OldRef(d.ref), OldValues(d).members);
    NoColumnsNoneSelected(AllColumns, OuterJoinRef(d.ref, alias), OuterJoinSourceOf(d, alias).members);
    NoColumnsNoneSelected(AllColumns, WithRef(name), WithView(name, columns).members);
    if Customize(d, name).Some? {
      var c := Customize(d, name).value;
      NoColumnsNoneSelected(AllColumns, c.ref, c.members);
    }
  }

}
