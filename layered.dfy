/** The two-layer resolution rules of the global comparator registry, stated on
    values: the dynamic layer is a pair of maps, the bootstrap registry the
    immutable catalogue below it. The class in module Global is proved against
    these functions. */
module Layered {
  import opened Errors
  import opened Bootstrap

  /** The dynamic layer: what register has added since construction. */
  datatype Dynamic<C> = Dynamic(comparators: map<string, C>, oidToSchema: map<string, string>)

  /** The registry invariant: both dynamic maps have the same OIDs, and no
      dynamic OID is also a bootstrap OID. */
  ghost predicate Valid<C>(d: Dynamic<C>, b: BootstrapComparatorRegistry<C>) {
    && d.comparators.Keys == d.oidToSchema.Keys
    && d.comparators.Keys !! b.comparators.Keys
  }

  /** hasComparator: the OID is known to the dynamic layer or to the bootstrap. */
  predicate Has<C>(d: Dynamic<C>, b: BootstrapComparatorRegistry<C>, oid: string) {
    oid in d.comparators || b.HasComparator(oid)
  }

  /** register: accepted only for an OID neither layer knows; then both dynamic
      maps gain that OID. */
  function Register<C>(d: Dynamic<C>, b: BootstrapComparatorRegistry<C>,
                       schema: string, oid: string, c: C): (r: Result<Dynamic<C>>)
    ensures r.Err? <==> Has(d, b, oid)
    ensures r.Err? ==> r.error == AlreadyRegistered(oid)
    ensures r.Ok? ==> && r.value.comparators.Keys == d.comparators.Keys + {oid}
                      && r.value.oidToSchema.Keys == d.oidToSchema.Keys + {oid}
                      && r.value.comparators[oid] == c
                      && r.value.oidToSchema[oid] == schema
    ensures r.Ok? ==> forall o :: o in d.comparators ==> r.value.comparators[o] == d.comparators[o]
    ensures r.Ok? ==> forall o :: o in d.oidToSchema && o != oid ==> r.value.oidToSchema[o] == d.oidToSchema[o]
    ensures r.Ok? && Valid(d, b) ==> Valid(r.value, b)
    ensures r.Ok? ==> Has(r.value, b, oid)
    ensures r.Ok? ==> forall o :: Has(d, b, o) ==> Has(r.value, b, o)
  {
    if oid in d.comparators || b.HasComparator(oid) then
      Err(AlreadyRegistered(oid))
    else
      Ok(Dynamic(d.comparators[oid := c], d.oidToSchema[oid := schema]))
  }

  /** lookup: the dynamic entry if there is one, else the bootstrap's, else
      NotFound; never a default. */
  function Lookup<C>(d: Dynamic<C>, b: BootstrapComparatorRegistry<C>, oid: string): (r: Result<C>)
    ensures r.Ok? <==> Has(d, b, oid)
    ensures r.Err? ==> r.error == NotFound(oid)
    ensures oid in d.comparators ==> r == Ok(d.comparators[oid])
    ensures oid !in d.comparators && oid in b.comparators ==> r == Ok(b.comparators[oid])
  {
    if oid in d.comparators then Ok(d.comparators[oid])
    else if b.HasComparator(oid) then b.Lookup(oid)
    else Err(NotFound(oid))
  }

  /** The test getSchemaName applies to the first character of an OID. Only
      ASCII digits are recognised. */
  predicate IsDigit(ch: char) {
    '0' <= ch <= '9'
  }

  /** getSchemaName: rejects the empty OID and one that does not start with a
      digit; then the dynamic schema name, else the bootstrap's if the
      bootstrap has a comparator for the OID, else NotFound. */
  function SchemaName<C>(d: Dynamic<C>, b: BootstrapComparatorRegistry<C>, oid: string): (r: Result<string>)
    ensures oid == [] ==> r == Err(EmptyOid)
    ensures oid != [] && !IsDigit(oid[0]) ==> r == Err(NotNumeric(oid))
    ensures r.Ok? ==> oid != [] && IsDigit(oid[0])
    ensures r.Ok? ==> ((oid in d.oidToSchema && r.value == d.oidToSchema[oid])
                       || (oid !in d.oidToSchema && oid in b.comparators && oid in b.oidToSchema
                           && r.value == b.oidToSchema[oid]))
    ensures oid != [] && IsDigit(oid[0]) && !(oid in d.oidToSchema || b.HasComparator(oid))
            ==> r == Err(NotFound(oid))
    ensures oid != [] && IsDigit(oid[0]) && oid in d.oidToSchema ==> r == Ok(d.oidToSchema[oid])
    ensures oid != [] && IsDigit(oid[0]) && oid !in d.oidToSchema && b.HasComparator(oid)
            ==> r == b.GetSchemaName(oid)
  {
    if oid == [] then Err(EmptyOid)
    else if !IsDigit(oid[0]) then Err(NotNumeric(oid))
    else if oid in d.oidToSchema then Ok(d.oidToSchema[oid])
    else if b.HasComparator(oid) then b.GetSchemaName(oid)
    else Err(NotFound(oid))
  }

  // ---------------------------------------------------------------------------
  // Properties of single operations
  // ---------------------------------------------------------------------------

  /** A freshly constructed registry (both dynamic maps empty) satisfies the
      invariant whatever bootstrap it wraps, and knows exactly what the
      bootstrap knows. */
  lemma EmptyIsValid<C>(b: BootstrapComparatorRegistry<C>, oid: string)
    ensures Valid(Dynamic(map[], map[]), b)
    ensures Has(Dynamic(map[], map[]), b, oid) == b.HasComparator(oid)
    ensures Lookup(Dynamic(map[], map[]), b, oid) == b.Lookup(oid)
  {
  }

  /** Once an OID is registered, every later register of it fails, whatever
      schema and comparator it carries, and the registry stays as it was. */
  lemma SecondRegisterFails<C>(d: Dynamic<C>, b: BootstrapComparatorRegistry<C>,
                               s1: string, s2: string, oid: string, c1: C, c2: C)
    requires Register(d, b, s1, oid, c1).Ok?
    ensures Register(Register(d, b, s1, oid, c1).value, b, s2, oid, c2) == Err(AlreadyRegistered(oid))
  {
  }

  /** No override: an OID the bootstrap knows cannot be registered, and lookup
      keeps returning the bootstrap's comparator for it. */
  lemma NoOverride<C>(d: Dynamic<C>, b: BootstrapComparatorRegistry<C>, schema: string, oid: string, c: C)
    requires Valid(d, b)
    requires b.HasComparator(oid)
    ensures Register(d, b, schema, oid, c) == Err(AlreadyRegistered(oid))
    ensures Lookup(d, b, oid) == b.Lookup(oid) == Ok(b.comparators[oid])
  {
  }

  /** A successful register makes the new OID resolve to its comparator and
      schema name and changes the answer for no other OID. */
  lemma RegisterEffect<C>(d: Dynamic<C>, b: BootstrapComparatorRegistry<C>,
                          schema: string, oid: string, c: C, other: string)
    requires Valid(d, b)
    requires Register(d, b, schema, oid, c).Ok?
    ensures var d' := Register(d, b, schema, oid, c).value;
            && Lookup(d', b, oid) == Ok(c)
            && (oid != [] && IsDigit(oid[0]) ==> SchemaName(d', b, oid) == Ok(schema))
            && (other != oid ==> && Has(d', b, other) == Has(d, b, other)
                                 && Lookup(d', b, other) == Lookup(d, b, other)
                                 && SchemaName(d', b, other) == SchemaName(d, b, other))
  {
  }

  /** Lookup reads the two layers as one map. Under the invariant the layers
      are disjoint, so it does not matter which is consulted first: checking
      the dynamic layer first only saves work and never decides a conflict. */
  lemma LookupIsUnion<C>(d: Dynamic<C>, b: BootstrapComparatorRegistry<C>, oid: string)
    requires Valid(d, b)
    ensures b.comparators + d.comparators == d.comparators + b.comparators
    ensures var all := d.comparators + b.comparators;
            Lookup(d, b, oid) == if oid in all then Ok(all[oid]) else Err(NotFound(oid))
  {
  }

  /** getSchemaName succeeds exactly for a numeric OID that hasComparator
      reports, provided the bootstrap names a schema for each of its
      comparators. */
  lemma SchemaNameSucceedsIff<C>(d: Dynamic<C>, b: BootstrapComparatorRegistry<C>, oid: string)
    requires Valid(d, b)
    requires b.Covers()
    ensures SchemaName(d, b, oid).Ok? <==> oid != [] && IsDigit(oid[0]) && Has(d, b, oid)
    ensures SchemaName(d, b, oid).Ok? <==> oid != [] && IsDigit(oid[0]) && Lookup(d, b, oid).Ok?
  {
  }

  // ---------------------------------------------------------------------------
  // Series of registrations
  // ---------------------------------------------------------------------------

  /** One register call's arguments. */
  datatype Entry<C> = Entry(schema: string, oid: string, comparator: C)

  /** No two entries share an OID. */
  ghost predicate DistinctOids<C>(es: seq<Entry<C>>) {
    forall i, j :: 0 <= i < j < |es| ==> es[i].oid != es[j].oid
  }

  /** No entry's OID is known to the registry yet. */
  ghost predicate AllUnknown<C>(d: Dynamic<C>, b: BootstrapComparatorRegistry<C>, es: seq<Entry<C>>) {
    forall i :: 0 <= i < |es| ==> !Has(d, b, es[i].oid)
  }

  /** Calls register once per entry, in order, as schema loading does; the
      first failure ends the series. */
  function RegisterEach<C>(d: Dynamic<C>, b: BootstrapComparatorRegistry<C>, es: seq<Entry<C>>): Result<Dynamic<C>>
    decreases |es|
  {
    if es == [] then Ok(d)
    else match Register(d, b, es[0].schema, es[0].oid, es[0].comparator)
      case Err(e) => Err(e)
      case Ok(d1) => RegisterEach(d1, b, es[1..])
  }

  /** A series of registrations succeeds if and only if its OIDs are distinct
      and none of them was known before: uniqueness across both layers. */
  lemma {:induction false} RegisterEachSucceedsIff<C>(d: Dynamic<C>, b: BootstrapComparatorRegistry<C>, es: seq<Entry<C>>)
    ensures RegisterEach(d, b, es).Ok? <==> DistinctOids(es) && AllUnknown(d, b, es)
    decreases |es|
  {
    if es != [] {
      var e := es[0];
      var r := Register(d, b, e.schema, e.oid, e.comparator);
      if r.Ok? {
        var d1 := r.value;
        RegisterEachSucceedsIff(d1, b, es[1..]);
        // Has(d1, o) is Has(d, o) or o == e.oid.
        if DistinctOids(es) && AllUnknown(d, b, es) {
          assert DistinctOids(es[1..]);
          forall i | 0 <= i < |es[1..]| ensures !Has(d1, b, es[1..][i].oid) {
            assert es[1..][i] == es[i + 1];
            assert es[i + 1].oid != es[0].oid;
            assert !Has(d, b, es[i + 1].oid);
          }
        }
        if DistinctOids(es[1..]) && AllUnknown(d1, b, es[1..]) {
          forall i, j | 0 <= i < j < |es| ensures es[i].oid != es[j].oid {
            if i == 0 {
              assert es[j] == es[1..][j - 1];
              assert Has(d1, b, e.oid);
            } else {
              assert es[i] == es[1..][i - 1] && es[j] == es[1..][j - 1];
            }
          }
          forall i | 0 <= i < |es| ensures !Has(d, b, es[i].oid) {
            if i > 0 {
              assert es[i] == es[1..][i - 1];
            }
          }
        }
      } else {
        assert !AllUnknown(d, b, es) by { assert Has(d, b, es[0].oid); }
      }
    }
  }

  /** No entry is lost: after registering entries with distinct, unknown OIDs,
      every one of them resolves to its own comparator and schema name, every
      other OID resolves as before, and the invariant still holds. */
  lemma {:induction false} RegisterEachResolvable<C>(d: Dynamic<C>, b: BootstrapComparatorRegistry<C>, es: seq<Entry<C>>)
    requires Valid(d, b)
    requires DistinctOids(es) && AllUnknown(d, b, es)
    ensures RegisterEach(d, b, es).Ok?
    ensures Valid(RegisterEach(d, b, es).value, b)
    ensures forall i :: 0 <= i < |es| ==>
              && Lookup(RegisterEach(d, b, es).value, b, es[i].oid) == Ok(es[i].comparator)
              && RegisterEach(d, b, es).value.oidToSchema[es[i].oid] == es[i].schema
              && (es[i].oid != [] && IsDigit(es[i].oid[0]) ==>
                    SchemaName(RegisterEach(d, b, es).value, b, es[i].oid) == Ok(es[i].schema))
    ensures forall o :: (forall i :: 0 <= i < |es| ==> es[i].oid != o) ==>
              && Lookup(RegisterEach(d, b, es).value, b, o) == Lookup(d, b, o)
              && SchemaName(RegisterEach(d, b, es).value, b, o) == SchemaName(d, b, o)
              && (o in d.oidToSchema ==> RegisterEach(d, b, es).value.oidToSchema[o] == d.oidToSchema[o])
    decreases |es|
  {
    if es != [] {
      var e := es[0];
      var d1 := Register(d, b, e.schema, e.oid, e.comparator).value;
      var rest := es[1..];
      assert DistinctOids(rest) by {
        forall i, j | 0 <= i < j < |rest| ensures rest[i].oid != rest[j].oid {
          assert rest[i] == es[i + 1] && rest[j] == es[j + 1];
        }
      }
      forall i | 0 <= i < |rest| ensures !Has(d1, b, rest[i].oid) {
        assert rest[i] == es[i + 1];
        assert es[i + 1].oid != es[0].oid;
        assert !Has(d, b, es[i + 1].oid);
      }
      RegisterEachResolvable(d1, b, rest);
      var dn := RegisterEach(d, b, es).value;
      assert dn == RegisterEach(d1, b, rest).value;
      forall i | 0 <= i < |es|
        ensures && Lookup(dn, b, es[i].oid) == Ok(es[i].comparator)
                && dn.oidToSchema[es[i].oid] == es[i].schema
                && (es[i].oid != [] && IsDigit(es[i].oid[0]) ==> SchemaName(dn, b, es[i].oid) == Ok(es[i].schema))
      {
        if i == 0 {
          forall k | 0 <= k < |rest| ensures rest[k].oid != e.oid {
            assert rest[k] == es[k + 1];
          }
        } else {
          assert es[i] == rest[i - 1];
        }
      }
      forall o | (forall i :: 0 <= i < |es| ==> es[i].oid != o)
        ensures && Lookup(dn, b, o) == Lookup(d, b, o)
                && SchemaName(dn, b, o) == SchemaName(d, b, o)
                && (o in d.oidToSchema ==> dn.oidToSchema[o] == d.oidToSchema[o])
      {
        assert es[0].oid != o;
        forall k | 0 <= k < |rest| ensures rest[k].oid != o {
          assert rest[k] == es[k + 1];
        }
      }
    }
  }
}
