# Global comparator registry, modelled in Dafny

This project models the global comparator registry of the Apache Directory
Server schema subsystem (`GlobalComparatorRegistry`). The registry maps a
numeric OID to a comparator. It also records, for each OID, the name of the
schema that contributed that comparator. It has two layers:

- a **dynamic layer**, two maps (`comparators` and `oidToSchema`) that grow
  through `register`;
- the **bootstrap registry**, an immutable catalogue that the global registry
  consults whenever the dynamic layer misses.

Files:

- `errors.dfy` (module `Errors`): the exceptions the registry throws, as an
  `Error` datatype, plus the `Result` and `Outcome` wrappers.
- `bootstrap.dfy` (module `Bootstrap`): the bootstrap registry as a class with
  two constant maps. `BootstrapComparatorRegistry` is not part of this model.
  Its behaviour is assumed to be:
  - `hasComparator` means "the OID is a key of its comparator map";
  - `lookup` and `getSchemaName` answer from its maps, or fail with `NotFound`.
- `layered.dfy` (module `Layered`): the rules of the two layers, stated on
  values:
  - the dynamic layer as a `Dynamic` datatype;
  - the registry invariant `Valid`;
  - `Has`, `Register`, `Lookup` and `SchemaName`;
  - lemmas about single operations and about a series of registrations
    (`RegisterEach`, which stands for a schema loader calling `register` once
    per element).
- `global.dfy` (module `Global`): the registry class itself. It has:
  - the two map fields, which `Register` reassigns;
  - a constant reference to the bootstrap;
  - read-only methods `Lookup`, `HasComparator` and `GetSchemaName`, each
    proved equal to the corresponding `Layered` function;
  - a static `Create`, which models the constructor's null check as an error
    result.

Two details of the code shape the model:

- `getSchemaName` falls back to the bootstrap only when the bootstrap reports
  `hasComparator` for the OID, that is, when it has a comparator and not just
  a schema name (GlobalComparatorRegistry.java:146-148). It then returns
  whatever the bootstrap's `getSchemaName` returns.
- The registry takes no lock, so registration is modelled as sequential.

## Model

| member | source | states |
|---|---|---|
| `Global.GlobalComparatorRegistry.Create` | core/src/main/java/org/apache/directory/server/core/schema/global/GlobalComparatorRegistry.java:62-73 | fails with NullBootstrap exactly when the bootstrap is null; otherwise returns a fresh registry that wraps that bootstrap, has both dynamic maps empty and satisfies the invariant |
| `Global.GlobalComparatorRegistry.constructor` | core/src/main/java/org/apache/directory/server/core/schema/global/GlobalComparatorRegistry.java:62-73 | starts with both dynamic maps empty, wraps the given bootstrap and establishes the invariant |
| `Global.GlobalComparatorRegistry.Register` | core/src/main/java/org/apache/directory/server/core/schema/global/GlobalComparatorRegistry.java:81-95 | fails with AlreadyRegistered exactly when the OID is in the dynamic map or the bootstrap has it, and then leaves both maps unchanged; otherwise adds exactly oid -> schema and oid -> comparator (as Layered.Register says); the invariant is kept either way |
| `Global.GlobalComparatorRegistry.Lookup` | core/src/main/java/org/apache/directory/server/core/schema/global/GlobalComparatorRegistry.java:98-125 | returns the answer of Layered.Lookup on the current maps, and succeeds exactly when hasComparator holds |
| `Global.GlobalComparatorRegistry.HasComparator` | core/src/main/java/org/apache/directory/server/core/schema/global/GlobalComparatorRegistry.java:128-131 | true exactly when the OID is in the dynamic comparator map or among the bootstrap's comparators |
| `Global.GlobalComparatorRegistry.GetSchemaName` | core/src/main/java/org/apache/directory/server/core/schema/global/GlobalComparatorRegistry.java:134-152 | returns the answer of Layered.SchemaName on the current maps. So a numeric OID in the dynamic schema map returns its dynamic schema name. Otherwise, if the bootstrap has a comparator for the OID, it returns the bootstrap's schema name. The errors are EmptyOid, NotNumeric and NotFound |
| `Layered.Register` | core/src/main/java/org/apache/directory/server/core/schema/global/GlobalComparatorRegistry.java:83-90 | fails with AlreadyRegistered iff either layer knows the OID; on success both key sets grow by exactly the OID, which maps to the given comparator and schema, while every other entry keeps its value; the invariant is preserved; the OID and every OID known before are known afterwards |
| `Layered.Lookup` | core/src/main/java/org/apache/directory/server/core/schema/global/GlobalComparatorRegistry.java:103-124 | succeeds iff hasComparator holds; a dynamic entry wins, otherwise the bootstrap's comparator is returned; every failure is NotFound for that OID, so no default is ever returned |
| `Layered.SchemaName` | core/src/main/java/org/apache/directory/server/core/schema/global/GlobalComparatorRegistry.java:136-151 | the empty OID fails with EmptyOid; an OID whose first character is not a digit fails with NotNumeric; a success returns the dynamic schema name, or else the bootstrap's name for an OID the bootstrap has a comparator for; a numeric OID in the dynamic schema map returns that name; otherwise, if the bootstrap has a comparator for it, the bootstrap's getSchemaName answer is returned; a numeric OID that neither source knows fails with NotFound |
| `Layered.EmptyIsValid` | core/src/main/java/org/apache/directory/server/core/schema/global/GlobalComparatorRegistry.java:62-73 | the empty dynamic layer satisfies the invariant over any bootstrap, and then hasComparator and lookup answer exactly as the bootstrap does |
| `Layered.SecondRegisterFails` | core/src/main/java/org/apache/directory/server/core/schema/global/GlobalComparatorRegistry.java:83-90 | after a successful register of an OID, the next register of that OID fails with AlreadyRegistered, whatever schema and comparator it carries. Layered.Register also keeps every known OID known, so any later register of it fails too |
| `Layered.NoOverride` | core/src/main/java/org/apache/directory/server/core/schema/global/GlobalComparatorRegistry.java:83-87 | under the invariant, registering an OID the bootstrap has fails, and lookup of it still returns the bootstrap's comparator |
| `Layered.RegisterEffect` | core/src/main/java/org/apache/directory/server/core/schema/global/GlobalComparatorRegistry.java:89-90 | after a successful register, lookup of the OID returns the new comparator and getSchemaName (for a numeric OID) returns the new schema; for every other OID, hasComparator, lookup and getSchemaName answer as before |
| `Layered.LookupIsUnion` | core/src/main/java/org/apache/directory/server/core/schema/global/GlobalComparatorRegistry.java:103-121 | under the invariant, the layers' union is the same in either order, and lookup is lookup in that union (NotFound outside it): the dynamic-first order never decides a conflict |
| `Layered.SchemaNameSucceedsIff` | core/src/main/java/org/apache/directory/server/core/schema/global/GlobalComparatorRegistry.java:128-151 | under the invariant, and with a bootstrap that names a schema for each of its comparators, getSchemaName succeeds iff the OID is non-empty, starts with a digit and hasComparator holds; equivalently, iff lookup succeeds for it |
| `Layered.RegisterEachSucceedsIff` | core/src/main/java/org/apache/directory/server/core/schema/global/GlobalComparatorRegistry.java:83-90 | a series of register calls all succeed iff their OIDs are pairwise distinct and none was known before (uniqueness across both layers) |
| `Layered.RegisterEachResolvable` | core/src/main/java/org/apache/directory/server/core/schema/global/GlobalComparatorRegistry.java:83-90 | registering entries with distinct, previously unknown OIDs keeps the invariant and loses no entry: each OID then resolves to its own comparator and records its schema name, which getSchemaName returns for a numeric OID; every other OID resolves as before |

## Left out

- `SerializableComparator.setRegistry(this)` in the constructor is not modelled. It is a call into a class outside this model that sets process-wide static state; the registry's maps do not depend on it.
- Debug logging in `register` and `lookup` is not modelled; it only produces output.
- Concurrency is not modelled. The source takes no lock, so the model is sequential. A series of registrations (`RegisterEach`) stands in for many callers registering distinct OIDs.
- Comparator behaviour is not modelled. The registry stores comparators without ever calling them, so the comparator type is an opaque type parameter.
- Null arguments are not modelled: a null OID, a null schema name and a null comparator cannot be expressed with Dafny strings and with an opaque comparator type. A null bootstrap is modelled, through `Create`.
- `BootstrapComparatorRegistry` is not part of this model. Its three queries are assumed to read two fixed maps.
- `Layered.IsDigit` (used by `Layered.SchemaName` and `Global.GlobalComparatorRegistry.GetSchemaName`) accepts only the ASCII digits '0' to '9'. Java's `Character.isDigit` also accepts other Unicode decimal digits, such as Arabic-Indic digits. For an OID that starts with one of those, the model reports NotNumeric where the source goes on to the lookup.
- `LdapPrincipal` and the `AddITest` integration test are not part of this model. The first is a value object over external library types; the second needs a running directory server.
