/** GlobalComparatorRegistry: the mutable comparator registry that layers
    runtime registrations over a bootstrap registry. */
module Global {
  import opened Errors
  import opened Bootstrap
  import Layered

  /** The registry object. Its methods follow the Java methods statement by
      statement over the fields; the Layered functions are their specification,
      and each method is proved to agree with its function. */
  class GlobalComparatorRegistry<C> {
    /** the comparators registered at run time, by OID */
    var comparators: map<string, C>
    /** the schema name of each OID registered at run time */
    var oidToSchema: map<string, string>
    /** the registry misses are delegated to */
    const bootstrap: BootstrapComparatorRegistry<C>

    /** The dynamic layer as a value. */
    function Layer(): Layered.Dynamic<C>
      reads this
    {
      Layered.Dynamic(comparators, oidToSchema)
    }

    ghost predicate Valid()
      reads this
    {
      Layered.Valid(Layer(), bootstrap)
    }

    constructor (bootstrap: BootstrapComparatorRegistry<C>)
      ensures Valid()
      ensures comparators == map[] && oidToSchema == map[]
      ensures this.bootstrap == bootstrap
    {
      oidToSchema := map[];
      comparators := map[];
      this.bootstrap := bootstrap;
    }

    /** Construction: a null bootstrap registry is refused; otherwise the
        registry starts with both dynamic maps empty. */
    static method Create(bootstrap: BootstrapComparatorRegistry?<C>) returns (r: Result<GlobalComparatorRegistry<C>>)
      ensures r.Err? <==> bootstrap == null
      ensures r.Err? ==> r.error == NullBootstrap
      ensures r.Ok? ==> && fresh(r.value) && r.value.Valid()
                        && r.value.comparators == map[] && r.value.oidToSchema == map[]
                        && r.value.bootstrap == bootstrap
    {
      if bootstrap == null {
        return Err(NullBootstrap);
      }
      var reg := new GlobalComparatorRegistry(bootstrap);
      return Ok(reg);
    }

    /** register: fails, changing nothing, when either layer already knows the
        OID; otherwise adds oid -> schema and oid -> comparator to the dynamic
        maps and keeps the invariant. */
    method Register(schema: string, oid: string, comparator: C) returns (r: Outcome)
      requires Valid()
      modifies this
      ensures Valid()
      ensures r.Fail? <==> old(Layered.Has(Layer(), bootstrap, oid))
      ensures var spec := Layered.Register(old(Layer()), bootstrap, schema, oid, comparator);
              if spec.Ok? then r == Pass && Layer() == spec.value
              else r == Fail(spec.error) && comparators == old(comparators) && oidToSchema == old(oidToSchema)
    {
      if oid in comparators || bootstrap.HasComparator(oid) {
        return Fail(AlreadyRegistered(oid));
      }
      oidToSchema := oidToSchema[oid := schema];
      comparators := comparators[oid := comparator];
      r := Pass;
    }

    /** lookup: the dynamic comparator, else the bootstrap's, else NotFound. */
    method Lookup(oid: string) returns (r: Result<C>)
      ensures r == Layered.Lookup(Layer(), bootstrap, oid)
      ensures r.Ok? <==> Layered.Has(Layer(), bootstrap, oid)
    {
      if oid in comparators {
        return Ok(comparators[oid]);
      }
      if bootstrap.HasComparator(oid) {
        return bootstrap.Lookup(oid);
      }
      return Err(NotFound(oid));
    }

    /** hasComparator: either layer knows the OID. */
    method HasComparator(oid: string) returns (has: bool)
      ensures has <==> oid in comparators || oid in bootstrap.comparators
      ensures has == Layered.Has(Layer(), bootstrap, oid)
    {
      has := oid in comparators || bootstrap.HasComparator(oid);
    }

    /** getSchemaName: refuses an OID that does not start with a digit, then
        asks the dynamic layer, then the bootstrap. */
    method GetSchemaName(oid: string) returns (r: Result<string>)
      ensures r == Layered.SchemaName(Layer(), bootstrap, oid)
    {
      if oid == [] {
        return Err(EmptyOid);
      }
      if !Layered.IsDigit(oid[0]) {
        return Err(NotNumeric(oid));
      }
      if oid in oidToSchema {
        return Ok(oidToSchema[oid]);
      }
      if bootstrap.HasComparator(oid) {
        return bootstrap.GetSchemaName(oid);
      }
      return Err(NotFound(oid));
    }
  }
}
