/**
 * Table and view identity tags.
 *
 * Every value of the query builder carries the set of table/view references it
 * depends on. A reference is either the identity of a declared table, view or
 * with-view, or one of the derived identities the descriptor derivations build:
 * an alias, the "old values" of a table, the outer-join side of a table, or a
 * customised name.
 */
module Refs {

  datatype Ref =
    | Named(name: string)                        // a declared table or view
    | WithRef(viewName: string)                  // WITH_VIEW<DB, NAME>
    | AliasRef(of: Ref, alias: string)           // TABLE_OR_VIEW_ALIAS<REF, ALIAS>
    | OldRef(of: Ref)                            // OLD<REF>
    | OuterJoinRef(of: Ref, alias: string)       // OUTER_JOIN_SOURCE<REF, ALIAS>
    | CustomizedRef(of: Ref, customName: string) // CUSTOMIZED_TABLE_OR_VIEW<REF, NAME>

}
