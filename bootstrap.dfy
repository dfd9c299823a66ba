/** The bootstrap comparator registry: the immutable catalogue the global
    registry falls back to. Its source is not part of this model; it is taken to
    be two fixed maps, one from OID to comparator and one from OID to the name of
    the schema that contributed it. */
module Bootstrap {
  import opened Errors

  class BootstrapComparatorRegistry<C> {
    const comparators: map<string, C>
    const oidToSchema: map<string, string>

    constructor (comparators: map<string, C>, oidToSchema: map<string, string>)
      ensures this.comparators == comparators && this.oidToSchema == oidToSchema
    {
      this.comparators := comparators;
      this.oidToSchema := oidToSchema;
    }

    /** Every OID with a comparator also has a schema name. */
    ghost predicate Covers() {
      comparators.Keys <= oidToSchema.Keys
    }

    predicate HasComparator(oid: string) {
      oid in comparators
    }

    function Lookup(oid: string): Result<C> {
      if oid in comparators then Ok(comparators[oid]) else Err(NotFound(oid))
    }

    function GetSchemaName(oid: string): Result<string> {
      if oid in oidToSchema then Ok(oidToSchema[oid]) else Err(NotFound(oid))
    }
  }
}
