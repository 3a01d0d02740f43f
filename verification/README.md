# Wizard.Container registry, modelled in Dafny

Wizard.Container is a minimal inversion-of-control container. A `Wizard` object keeps a table
from a `MappingKey` to a factory delegate. A `MappingKey` is a requested type plus an optional
instance name. The container registers factories with insert-if-absent semantics: the first
registration of a key wins. It can remove one key or every key, report whether a key is present
and how many keys there are, and create an instance by looking up a key's factory and invoking it
with the caller's argument bundle.

The project has four modules:

- `Wrappers` (`wrappers.dfy`): `Option` stands for a nullable reference. `Result` and `Outcome`
  stand for a call that returns normally or throws.
- `MappingKeys` (`mapping_key.dfy`): the key as an immutable datatype. Its constructor rejects a
  null type. `Equals(object)` is modelled over a small object model (null, another class, or a key
  object with a reference id), so the reference-equality shortcut is kept. The culture-aware
  case-insensitive name comparison is a case-fold function passed in as a parameter.
  `GetHashCode` is modelled with explicit two's-complement 32-bit wrap-around. `Type.GetHashCode`,
  `string.GetHashCode` and the hash of the `MappingKey` class itself are inputs.
- `Registry` (`registry.dfy`): the table as a value (`map<MappingKey<Ty>, Factory<A, O>>`). It holds
  the dictionary operations the container performs (`TryAdd`, `TryRemove`, lookup-then-invoke as
  `Resolve`) and lemmas about them. These include a sequential model of many registrations
  (`RegisterEach`), which stands in for the multi-threaded registration test.
- `Container` (`wizard.dfy`): class `Wizard`, whose field `mappings` is reassigned in place by the
  registration and removal methods. Each method's postcondition states the whole new table as a
  `Registry` function of the old table, together with the error cases.

Types are an opaque identity `Ty`. Argument bundles are an opaque `A`, and null arguments are
`None`. Created objects are an opaque `O`. A factory is a Dafny function `Option<A> -> O`. The
runtime assignability check is a predicate parameter `isAssignableFrom(from, to)`.
`Activator.CreateInstance` is a parameter `construct: Ty -> O`, wrapped in `DefaultFactory`, which
ignores its arguments.

The registry is keyed on the exact (type, instance name) pair, not on case-insensitive equality.
`Equals` ignores the case of names, but `GetHashCode` hashes the name case-sensitively.
`EqualKeysMayHashApart` shows that two keys can be equal and still hash differently. The
dictionary normally looks a key up by its hash bucket first. So registering under "Foo" and then
asking for "foo" cannot be relied on to find the entry, although `Equals`
(`MappingKey.cs:69-70`) calls the two keys equal. This model follows the hash and keys the table on
exact names.

## Model

| member | source | states |
|---|---|---|
| `MappingKeys.NewKey` | src/Wizard.Container/MappingKey.cs:16-22 | construction fails with ArgumentNullException("type") exactly when the type is null; otherwise the key keeps the type and the instance name as given |
| `MappingKeys.NamesEqual` | src/Wizard.Container/MappingKey.cs:69-70 | a null name equals only a null name, on either side; identical names are always equal |
| `MappingKeys.KeyEqualsIsEquivalence` | src/Wizard.Container/MappingKey.cs:65-70 | key equality is reflexive, symmetric and transitive for every case-fold function |
| `MappingKeys.Equals` | src/Wizard.Container/MappingKey.cs:59-71 | `Equals(object)` is false for null and for objects of another class; against a key object, including the same reference, it holds exactly when the types are identical and the names are equal ignoring case |
| `MappingKeys.Wrap32` | src/Wizard.Container/MappingKey.cs:40-48 | `unchecked` arithmetic yields a 32-bit value congruent to the exact result modulo 2^32, and leaves in-range values unchanged |
| `MappingKeys.HashClosedForm` | src/Wizard.Container/MappingKey.cs:38-50 | the step-by-step wrapped hash equals the 32-bit wrap of `(classHash*31 + typeHash)*31 + nameHash`, where a null name contributes 0 |
| `MappingKeys.HashAgreesOnIdenticalNames` | src/Wizard.Container/MappingKey.cs:43-46 | keys with the same type and identical names are equal and have equal hashes; the hash depends only on the type and the name |
| `MappingKeys.EqualKeysMayHashApart` | src/Wizard.Container/MappingKey.cs:46-70 | when two names fold alike but their string hashes differ, the two keys are equal yet their hashes differ |
| `Registry.DefaultFactoryIgnoresArgs` | src/Wizard.Container/Wizard.cs:54 | the factory stored by a type-pair registration returns the default instance of `to` whatever arguments it gets, null included |
| `Registry.TryAddRegisters` | src/Wizard.Container/Wizard.cs:84-86 | after a registration the key is present; if it was absent, the new factory is stored and the count grows by exactly one |
| `Registry.TryAddFirstWins` | src/Wizard.Container/Wizard.cs:86 | registering a key that is already present leaves the table and the count unchanged |
| `Registry.TryAddKeepsOthers` | src/Wizard.Container/Wizard.cs:86 | a registration changes neither the presence nor the factory of any other key |
| `Registry.TryRemoveUnregisters` | src/Wizard.Container/Wizard.cs:137-140 | after removal the key is absent; removing an absent key is a no-op; removing a present key lowers the count by one |
| `Registry.TryRemoveKeepsOthers` | src/Wizard.Container/Wizard.cs:137-140 | a removal changes neither the presence nor the factory of any other key |
| `Registry.ResolveInvokesStoredFactory` | src/Wizard.Container/Wizard.cs:187-195 | a lookup succeeds exactly for a registered key and returns that key's factory applied to exactly the given arguments; otherwise it fails with InvalidOperationException |
| `Registry.SecondRegistrationIgnored` | src/Wizard.Container/Wizard.cs:84-86 | after two registrations of one key with different factories, creation runs the first factory and the count grew by one |
| `Registry.RegisterCreateUnregister` | src/Wizard.Container/Wizard.cs:84-140 | register, create, then unregister: the creation returns the new factory's output, and the table (so the count) returns to its earlier value, with the key absent |
| `Registry.RegisterEachKeys` | src/Wizard.Container/Wizard.cs:86 | after any run of registration attempts, the registered keys are the earlier keys plus every attempted key, with none lost |
| `Registry.RegisterEachKeepsExisting` | src/Wizard.Container/Wizard.cs:86 | a key registered before a run of attempts keeps its factory through all of them |
| `Registry.RegisterEachFirstWins` | src/Wizard.Container/Wizard.cs:86 | for a key that was absent, the stored factory is the one from the first attempt that names the key |
| `Registry.RegisterEachCount` | src/Wizard.Container.Tests/WizardTests.cs:380-411 | starting from an empty table, the count after any number of attempts is the number of distinct keys attempted |
| `Container.Wizard.constructor` | src/Wizard.Container/Wizard.cs:22 | a new container has an empty table |
| `Container.Wizard.Count` | src/Wizard.Container/Wizard.cs:27 | the count is zero exactly when nothing is registered |
| `Container.Wizard.Register` | src/Wizard.Container/Wizard.cs:78-87 | a null type or a null delegate is rejected with ArgumentNullException and stores nothing; otherwise the table becomes `TryAdd` of the old table, the key is present, and the count grows by one when the key was absent and stays the same otherwise |
| `Container.Wizard.RegisterType` | src/Wizard.Container/Wizard.cs:44-56 | a null `to` (ArgumentNullException "to"), a null `from` (ArgumentNullException "type") and a `to` not assignable to `from` (InvalidOperationException) are rejected before anything is stored; otherwise the default factory of `to` is added if the key is absent |
| `Container.Wizard.RegisterSelf` | src/Wizard.Container/Wizard.cs:34 | a null type is rejected as a null `to`; a type not assignable to itself is rejected with InvalidOperationException and stores nothing; a type assignable to itself is registered with its own default factory |
| `Container.Wizard.RegisterPair` | src/Wizard.Container/Wizard.cs:64-65 | the generic type-pair registration always succeeds and adds the default factory of `TTo` under `TFrom` if the key is absent |
| `Container.Wizard.Unregister` | src/Wizard.Container/Wizard.cs:133-141 | a null type is rejected with ArgumentNullException("from"); otherwise the key is absent afterwards, nothing changes if it was absent, and the count drops by one if it was present |
| `Container.Wizard.UnregisterAll` | src/Wizard.Container/Wizard.cs:146 | the table is empty and the count is 0 |
| `Container.Wizard.IsRegistered` | src/Wizard.Container/Wizard.cs:158-164 | a null type is rejected with ArgumentNullException("type"); otherwise the answer is true exactly when the (type, name) key is in the table |
| `Container.Wizard.Create` | src/Wizard.Container/Wizard.cs:185-196 | a null type fails with ArgumentNullException("type"); an unregistered key fails with InvalidOperationException; a registered key returns its factory applied to exactly the given arguments; the table is not changed |
| `Container.Wizard.CreateWithoutArgs` | src/Wizard.Container/Wizard.cs:204 | like `Create`, with the factory receiving a null argument bundle: a null type fails with ArgumentNullException("type"), an unregistered key fails with InvalidOperationException, a registered key returns its factory applied to null |

## Left out

- Concurrency: the table is a `ConcurrentDictionary`. Every operation is modelled as one sequential step. `Unregister`'s `ContainsKey`-then-`TryRemove` is modelled as a plain removal. The multi-threaded registration test is modelled as a sequence of registrations (`RegisterEach`).
- Case-insensitive lookup: the table is keyed on the exact (type, name) pair. Because the name hash is case-sensitive, the real dictionary finds a key whose name differs only in case only when the two hashes happen to land in the same bucket. That collision is not modelled.
- Culture-aware case folding, `Type.GetHashCode`, `string.GetHashCode` and the hash of the `MappingKey` class are parameters of the model, not implementations.
- Reflection: the `IsAssignableFrom` check and `Activator.CreateInstance` are parameters. A failure raised by a default constructor or by a caller's factory is not modelled, because factories are total functions here.
- `RegisterType`: a null `from` is reported as ArgumentNullException("type"), the exception raised by the reflection call `GetTypeInfo` on a null type.
- The generic overloads `Register<T>()`, `Register<T>(delegate)`, `IsRegistered<T>`, `Unregister<T>` and `Create<T>` are not separate members. `typeof(T)` is never null, so each is the `Type` overload called with a present type. The one exception is `Register<TFrom, TTo>`, modelled as `RegisterPair`.
- The `as Func<dynamic, object>` conversion in `Register<T>(delegate)` is not modelled. It yields null for value-type results.
- The `(T)` casts of the generic `Create` overloads and the `dynamic`/`ExpandoObject` argument bundles are not modelled. Arguments are an opaque type and results are returned unchecked.
- `Container.Wizard.Count`: the count is an unbounded `nat`, not a 32-bit `int`. A table with more than 2^31 - 1 entries is not considered.
- `ToString` and `ToTraceString` produce diagnostic text only and are not modelled.
