/**
 * Properties of the descriptor derivations: each keeps the member list (names,
 * interfaces, value types) and moves it onto the derived identity, the
 * outer-join forms make every member nullable while remembering which ones
 * were required, and customising a name commutes with aliasing.
 */
module DescriptorLaws {

  import opened Refs
  import opened Options
  import opened ValueTypes
  import opened Descriptors

  /** Aliasing keeps every member's name, kind and optionality and moves it to TABLE_OR_VIEW_ALIAS<ref, ALIAS>. */
  lemma AliasedKeepsMembers(d: Descriptor, alias: string)
    ensures var r := Aliased(d, alias);
            Names(r.members) == Names(d.members)
            && forall i :: 0 <= i < |d.members| ==>
                 r.members[i].kind == d.members[i].kind && r.members[i].presence == d.members[i].presence
                 && r.members[i].ref == AliasRef(d.ref, alias)
  {
  }

  /** The old-values view keeps every member's name, kind and optionality and moves it to OLD<ref>. */
  lemma OldValuesKeepsMembers(d: Descriptor)
    ensures var r := OldValues(d);
            Names(r.members) == Names(d.members)
            && forall i :: 0 <= i < |d.members| ==>
                 r.members[i].kind == d.members[i].kind && r.members[i].presence == d.members[i].presence
                 && r.members[i].ref == OldRef(d.ref)
  {
  }

  /**
   * The outer-join side makes every member nullable; a member is marked
   * 'originallyRequired' exactly when it was not declared optional, and keeps
   * its kind.
   */
  lemma OuterJoinMakesNullable(d: Descriptor, alias: string)
    ensures var r := OuterJoinSourceOf(d, alias);
            Names(r.members) == Names(d.members)
            && forall i :: 0 <= i < |d.members| ==>
                 PresenceOpt(r.members[i].presence) == Optional
                 && (r.members[i].presence == IsOriginallyRequired <==> d.members[i].presence != IsOptional)
                 && r.members[i].kind == d.members[i].kind
                 && r.members[i].ref == OuterJoinRef(d.ref, alias)
  {
  }

  /** Widening for an outer join twice is widening once. */
  lemma OuterOptionalIdempotent(p: Presence)
    ensures OuterOptional(OuterOptional(p)) == OuterOptional(p)
  {
  }

  /** The outer-join source handed to a left join and the joined table it becomes have the same members. */
  lemma OuterJoinFormsAgree(d: Descriptor, alias: string)
    ensures OuterJoinSourceOf(d, alias).members == OuterJoinTableOrView(d, alias).members
    ensures OuterJoinSourceOf(d, alias).ref == OuterJoinTableOrView(d, alias).ref
  {
  }

  /** forUseInLeftJoin() is forUseInLeftJoinAs('') */
  lemma LeftJoinWithoutAlias(d: Descriptor)
    ensures ForUseInLeftJoin(d) == ForUseInLeftJoinAs(d, "")
  {
  }

  lemma RetagKeepsUniqueNames(ms: seq<Member>, target: Ref)
    requires UniqueNames(ms)
    ensures UniqueNames(Retag(ms, target)) && UniqueNames(OuterRetag(ms, target))
  {
  }

  /** Every derivation of a well-formed descriptor is well-formed. */
  lemma DerivationsPreserveWellFormed(d: Descriptor, alias: string)
    requires WellFormed(d)
    ensures WellFormed(Aliased(d, alias))
    ensures WellFormed(OldValues(d))
    ensures WellFormed(OuterJoinSourceOf(d, alias))
    ensures WellFormed(OuterJoinTableOrView(d, alias))
  {
    RetagKeepsUniqueNames(d.members, AliasRef(d.ref, alias));
    RetagKeepsUniqueNames(d.members, OldRef(d.ref));
    RetagKeepsUniqueNames(d.members, OuterJoinRef(d.ref, alias));
  }

  /** A with-view over distinctly named select columns is a well-formed declared with-view that has the alias methods. */
  lemma WithViewWellFormed(name: string, columns: seq<Member>)
    requires UniqueNames(columns)
    ensures WellFormed(WithView(name, columns))
    ensures WithView(name, columns).aliasMethods
    ensures Names(WithView(name, columns).members) == Names(columns)
  {
    RetagKeepsUniqueNames(columns, WithRef(name));
  }

  /**
   * Customising a name keeps the table/view/with-view category and the alias
   * shape, keeps the alias methods exactly when the source had `as`, and gives
   * a well-formed descriptor whose identity agrees with its members'.
   */
  lemma CustomizeLaws(d: Descriptor, name: string)
    requires WellFormed(d)
    ensures Customize(d, name).Some? <==> d.shape.Declared? || (d.shape.Alias? && d.shape.inner.Declared?)
    ensures Customize(d, name).Some? ==>
              var r := Customize(d, name).value;
              r.shape == d.shape && r.aliasMethods == d.aliasMethods && WellFormed(r)
              && Names(r.members) == Names(d.members)
  {
    RetagKeepsUniqueNames(d.members, CustomizedRefFor(d.ref, name));
  }

  /** An aliased customised table is the alias of the customisation: the new name goes under the alias. */
  lemma CustomizeCommutesWithAlias(d: Descriptor, alias: string, name: string)
    requires WellFormed(d) && d.shape.Declared?
    ensures Customize(d, name).Some?
    ensures Customize(Aliased(d, alias), name) == Some(Aliased(Customize(d, name).value, alias))
  {
    var c := Customize(d, name).value;
    var lhs := Customize(Aliased(d, alias), name).value;
    var rhs := Aliased(c, alias);
    assert lhs.members == rhs.members;
  }

  /** Derived descriptors only have alias methods when derived by customising a name of one that had them. */
  lemma DerivedAliasMethods(d: Descriptor, alias: string, name: string)
    ensures !Aliased(d, alias).aliasMethods && !OldValues(d).aliasMethods
    ensures !OuterJoinSourceOf(d, alias).aliasMethods && !OuterJoinTableOrView(d, alias).aliasMethods
    ensures Customize(d, name).Some? ==> (As(Customize(d, name).value, alias).Some? <==> As(d, alias).Some?)
  {
  }

}
