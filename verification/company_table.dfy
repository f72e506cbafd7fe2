/**
 * A worked instance: the company table of the MariaDB example
 * (src/examples/MariaDBExample-modern.ts), an autogenerated int primary key
 * `id`, a required string `name` and an optional int `parentId`, together
 * with its left-join side and its `parentCompany` alias.
 */
module CompanyTable {

  import opened Refs
  import opened Options
  import opened ValueTypes
  import opened Operations
  import opened Descriptors
  import opened ColumnSets

  const CompanyRef: Ref := Named("TCompany")

  /** autogeneratedPrimaryKey columns carry a default value. */
  const IdColumn: Member := Member("id", Int, IsRequired, CompanyRef, Column(ColumnFlags(false, false, true, true)))
  const NameColumn: Member := Member("name", String, IsRequired, CompanyRef, Column(ColumnFlags(false, false, false, false)))
  /** optionalColumn columns are optional. */
  const ParentIdColumn: Member := Member("parentId", Int, IsOptional, CompanyRef, Column(ColumnFlags(false, true, false, false)))

  const CompanyColumns: seq<Member> := [IdColumn, NameColumn, ParentIdColumn]

  function Company(): (d: Descriptor)
    ensures WellFormed(d)
  {
    Descriptor(Declared(TableBase), CompanyRef, [IdColumn, NameColumn, ParentIdColumn], true)
  }

  /** An insert must set `name`; `id` and `parentId` may be omitted; `id` is the generated key. */
  lemma CompanyColumnSets()
    ensures ColumnsForSetOf(Company()) == ["id", "name", "parentId"]
    ensures RequiredColumnsForSetOf(Company()) == ["name"]
    ensures OptionalColumnsForSetOf(Company()) == ["id", "parentId"]
    ensures AutogeneratedPrimaryKeyColumnsTypesOf(Company()) == {ValueType(Int, Mandatory)}
  {
    assert Company().members == CompanyColumns;
    CompanySettable();
    CompanyRequired();
    CompanyOptional();
    CompanyKeyTypes();
  }

  lemma CompanySettable()
    ensures Names(Select(ForSet, CompanyRef, CompanyColumns)) == ["id", "name", "parentId"]
  {
    SettableSelect();
    var names := Names(CompanyColumns);
    assert names[0] == "id" && names[1] == "name" && names[2] == "parentId";
  }

  lemma CompanyRequired()
    ensures Names(Select(RequiredForSet, CompanyRef, CompanyColumns)) == ["name"]
  {
    RequiredSelect();
    assert Names([NameColumn])[0] == "name";
  }

  lemma CompanyOptional()
    ensures Names(Select(OptionalForSet, CompanyRef, CompanyColumns)) == ["id", "parentId"]
  {
    OptionalSelect();
    var names := Names([IdColumn, ParentIdColumn]);
    assert names[0] == "id" && names[1] == "parentId";
  }

  lemma SettableSelect()
    ensures Select(ForSet, CompanyRef, CompanyColumns) == CompanyColumns
  {
    assert Head(ForSet, CompanyRef, IdColumn) == [IdColumn];
    assert Head(ForSet, CompanyRef, NameColumn) == [NameColumn];
    assert Head(ForSet, CompanyRef, ParentIdColumn) == [ParentIdColumn];
    SelectOfThree(ForSet, CompanyRef, IdColumn, NameColumn, ParentIdColumn);
  }

  lemma RequiredSelect()
    ensures Select(RequiredForSet, CompanyRef, CompanyColumns) == [NameColumn]
  {
    assert Head(RequiredForSet, CompanyRef, IdColumn) == [];
    assert Head(RequiredForSet, CompanyRef, NameColumn) == [NameColumn];
    assert Head(RequiredForSet, CompanyRef, ParentIdColumn) == [];
    SelectOfThree(RequiredForSet, CompanyRef, IdColumn, NameColumn, ParentIdColumn);
  }

  lemma OptionalSelect()
    ensures Select(OptionalForSet, CompanyRef, CompanyColumns) == [IdColumn, ParentIdColumn]
  {
    assert Head(OptionalForSet, CompanyRef, IdColumn) == [IdColumn];
    assert Head(OptionalForSet, CompanyRef, NameColumn) == [];
    assert Head(OptionalForSet, CompanyRef, ParentIdColumn) == [ParentIdColumn];
    SelectOfThree(OptionalForSet, CompanyRef, IdColumn, NameColumn, ParentIdColumn);
  }

  lemma CompanyKeyTypes()
    ensures AutogeneratedPrimaryKeyColumnsTypesOf(Company()) == {ValueType(Int, Mandatory)}
  {
    var key := ValueType(Int, Mandatory);
    var r := AutogeneratedPrimaryKeyColumnsTypesOf(Company());
    assert ValueTypeOf(IdColumn) == key;
    assert IdColumn in Company().members && IsColumnOf(CompanyRef, IdColumn);
    assert key in r;
    forall v | v in r
      ensures v == key
    {
      var m :| m in CompanyColumns && IsColumnOf(CompanyRef, m) && !m.column.flags.computed
               && m.column.flags.autogeneratedKey && v == ValueTypeOf(m);
      assert m == IdColumn;
    }
  }

  /** Selecting from a three-member list concatenates the selected heads. */
  lemma SelectOfThree(s: Selection, r: Ref, a: Member, b: Member, c: Member)
    ensures Select(s, r, [a, b, c]) == Head(s, r, a) + Head(s, r, b) + Head(s, r, c)
  {
    assert [a, b, c][1..] == [b, c];
    assert [b, c][1..] == [c];
    assert [c][1..] == [];
    assert Select(s, r, [c]) == Head(s, r, c);
  }

  /** On the left-join side every company column is nullable; `id` and `name` remember they were required. */
  lemma CompanyLeftJoin()
    ensures ForUseInLeftJoin(Company()).Some?
    ensures var j := ForUseInLeftJoin(Company()).value;
            j.ref == OuterJoinRef(CompanyRef, "")
            && |j.members| == 3
            && j.members[0].presence == IsOriginallyRequired
            && j.members[1].presence == IsOriginallyRequired
            && j.members[2].presence == IsOptional
            && ColumnsOf(j) == []
  {
    var j := ForUseInLeftJoin(Company()).value;
    NoColumnsNoneSelected(AllColumns, j.ref, j.members);
  }

  /** Comparing a company's parentId with the id of its `parentCompany` alias references both identities and may be null. */
  lemma ParentCompanyJoinCondition()
    ensures As(Company(), "parentCompany").Some?
    ensures var parent := As(Company(), "parentCompany").value;
            var parentId := MemberTag(Company().members[2]);
            var parentKey := MemberTag(parent.members[0]);
            ResultTag(AsDeclared, Compare(Equals), parentId, [parentKey])
            == Some(Tag(Ordinary, Boolean, Optional, {CompanyRef, AliasRef(CompanyRef, "parentCompany")}))
  {
    var parent := As(Company(), "parentCompany").value;
    var parentId := MemberTag(Company().members[2]);
    var parentKey := MemberTag(parent.members[0]);
    assert parentId == Tag(Ordinary, Int, Optional, {CompanyRef});
    assert parentKey == Tag(Ordinary, Int, Mandatory, {AliasRef(CompanyRef, "parentCompany")});
    assert ResultTag(AsDeclared, Compare(Equals), parentId, [parentKey]) == BinaryTag(AsDeclared, Compare(Equals), parentId, parentKey);
    assert parentId.tables + parentKey.tables == {CompanyRef, AliasRef(CompanyRef, "parentCompany")};
  }

}
