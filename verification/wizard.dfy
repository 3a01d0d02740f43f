/**
  The container: an object holding the table of registrations, which its methods update in place.
  The C# overloads that take a `Type` are modelled with `Option<Ty>` so that a null type can be passed;
  the generic overloads (`Register<T>`, `Create<T>`, ...) pass `typeof(T)`, which is never null.
 */
module Container {
  import opened Wrappers
  import opened MappingKeys
  import opened Registry

  class Wizard<Ty(==), A, O> {
    var mappings: Mappings<Ty, A, O>

    constructor ()
      ensures mappings == map[]
    {
      mappings := map[];
    }

    /** The number of registered keys; zero exactly when nothing is registered. */
    function Count(): (n: nat)
      reads this
      ensures n == 0 <==> mappings == map[]
    {
      |mappings|
    }

    /** Register a factory for `ty` under `instanceName`, unless that key is already registered. */
    method Register(ty: Option<Ty>, createInstance: Option<Factory<A, O>>, instanceName: Option<string>)
      returns (r: Outcome<Error>)
      modifies this
      ensures ty.None? ==> r == Fail(ArgumentNull("type"))
      ensures ty.Some? && createInstance.None? ==> r == Fail(ArgumentNull("createInstanceDelegate"))
      ensures r.Fail? ==> mappings == old(mappings)
      ensures ty.Some? && createInstance.Some? ==>
                r == Pass
                && mappings == TryAdd(old(mappings), MappingKey(ty.value, instanceName), createInstance.value)
      ensures r.Pass? ==> MappingKey(ty.value, instanceName) in mappings
      ensures r.Pass? && MappingKey(ty.value, instanceName) !in old(mappings) ==>
                mappings[MappingKey(ty.value, instanceName)] == createInstance.value && Count() == old(Count()) + 1
      ensures r.Pass? && MappingKey(ty.value, instanceName) in old(mappings) ==> mappings == old(mappings)
    {
      if ty.None? {
        return Fail(ArgumentNull("type"));
      }
      if createInstance.None? {
        return Fail(ArgumentNull("createInstanceDelegate"));
      }
      var key := MappingKey(ty.value, instanceName);
      TryAddRegisters(mappings, key, createInstance.value);
      mappings := TryAdd(mappings, key, createInstance.value);
      r := Pass;
    }

    /**
      Register that requests for `from` are served by default-constructing `to`, which must be
      assignable to `from`. `isAssignableFrom(from, to)` stands for the runtime's assignability check
      and `construct` for its default construction of a type.
     */
    method RegisterType(from: Option<Ty>, to: Option<Ty>, instanceName: Option<string>,
                        isAssignableFrom: (Ty, Ty) -> bool, construct: Ty -> O)
      returns (r: Outcome<Error>)
      modifies this
      ensures to.None? ==> r == Fail(ArgumentNull("to"))
      ensures to.Some? && from.None? ==> r == Fail(ArgumentNull("type"))
      ensures to.Some? && from.Some? && !isAssignableFrom(from.value, to.value) ==>
                r == Fail(InvalidOperation(NotAssignable))
      ensures r.Fail? ==> mappings == old(mappings)
      ensures to.Some? && from.Some? && isAssignableFrom(from.value, to.value) ==>
                r == Pass
                && mappings == TryAdd(old(mappings), MappingKey(from.value, instanceName), DefaultFactory(to.value, construct))
    {
      if to.None? {
        return Fail(ArgumentNull("to"));
      }
      if from.None? {
        // the reflection call on a null `from` rejects it as a null argument named "type"
        return Fail(ArgumentNull("type"));
      }
      if !isAssignableFrom(from.value, to.value) {
        return Fail(InvalidOperation(NotAssignable));
      }
      r := Register(from, Some(DefaultFactory(to.value, construct)), instanceName);
    }

    /** Register `ty` as served by default-constructing itself. */
    method RegisterSelf(ty: Option<Ty>, instanceName: Option<string>, isAssignableFrom: (Ty, Ty) -> bool, construct: Ty -> O)
      returns (r: Outcome<Error>)
      modifies this
      ensures ty.None? ==> r == Fail(ArgumentNull("to")) && mappings == old(mappings)
      ensures ty.Some? && !isAssignableFrom(ty.value, ty.value) ==>
                r == Fail(InvalidOperation(NotAssignable)) && mappings == old(mappings)
      ensures ty.Some? && isAssignableFrom(ty.value, ty.value) ==>
                r == Pass
                && mappings == TryAdd(old(mappings), MappingKey(ty.value, instanceName), DefaultFactory(ty.value, construct))
    {
      r := RegisterType(ty, ty, instanceName, isAssignableFrom, construct);
    }

    /**
      `Register<TFrom, TTo>`: the compiler's constraint `TTo : TFrom` guarantees assignability,
      so the registration always goes through.
     */
    method RegisterPair(from: Ty, to: Ty, instanceName: Option<string>, isAssignableFrom: (Ty, Ty) -> bool, construct: Ty -> O)
      returns (r: Outcome<Error>)
      requires isAssignableFrom(from, to)
      modifies this
      ensures r == Pass
      ensures mappings == TryAdd(old(mappings), MappingKey(from, instanceName), DefaultFactory(to, construct))
    {
      r := RegisterType(Some(from), Some(to), instanceName, isAssignableFrom, construct);
    }

    /** Remove the registration of `from` under `instanceName`, if there is one. */
    method Unregister(from: Option<Ty>, instanceName: Option<string>) returns (r: Outcome<Error>)
      modifies this
      ensures from.None? ==> r == Fail(ArgumentNull("from")) && mappings == old(mappings)
      ensures from.Some? ==> r == Pass && mappings == TryRemove(old(mappings), MappingKey(from.value, instanceName))
      ensures from.Some? ==> MappingKey(from.value, instanceName) !in mappings
      ensures from.Some? && MappingKey(from.value, instanceName) !in old(mappings) ==> mappings == old(mappings)
      ensures from.Some? && MappingKey(from.value, instanceName) in old(mappings) ==> Count() == old(Count()) - 1
    {
      if from.None? {
        return Fail(ArgumentNull("from"));
      }
      var key := MappingKey(from.value, instanceName);
      TryRemoveUnregisters(mappings, key);
      r := Pass;
      if key !in mappings {
        return;
      }
      mappings := TryRemove(mappings, key);
    }

    /** Remove every registration. */
    method UnregisterAll()
      modifies this
      ensures mappings == map[]
      ensures Count() == 0
    {
      mappings := map[];
    }

    /** Whether `ty` is registered under exactly `instanceName`. */
    method IsRegistered(ty: Option<Ty>, instanceName: Option<string>) returns (r: Result<bool, Error>)
      ensures ty.None? <==> r.Failure?
      ensures r.Failure? ==> r.error == ArgumentNull("type")
      ensures ty.Some? ==> r.value == (MappingKey(ty.value, instanceName) in mappings)
    {
      if ty.None? {
        return Failure(ArgumentNull("type"));
      }
      var key := MappingKey(ty.value, instanceName);
      r := Success(key in mappings);
    }

    /**
      Look up the factory registered for `ty` under `instanceName` and invoke it with `args`,
      unchanged; fail when the key has no registration. The table is not changed.
     */
    method Create(ty: Option<Ty>, args: Option<A>, instanceName: Option<string>) returns (r: Result<O, Error>)
      ensures ty.None? ==> r == Failure(ArgumentNull("type"))
      ensures ty.Some? ==> r == Resolve(mappings, MappingKey(ty.value, instanceName), args)
      ensures r.Success? <==> ty.Some? && MappingKey(ty.value, instanceName) in mappings
      ensures r.Success? ==> r.value == mappings[MappingKey(ty.value, instanceName)](args)
    {
      var made := NewKey(ty, instanceName);
      if made.Failure? {
        return Failure(made.error);
      }
      var key := made.value;
      if key !in mappings {
        return Failure(InvalidOperation(NoMapping));
      }
      var createInstance := mappings[key];
      r := Success(createInstance(args));
    }

    /** Create without arguments: the factory receives a null argument bundle. */
    method CreateWithoutArgs(ty: Option<Ty>, instanceName: Option<string>) returns (r: Result<O, Error>)
      ensures ty.None? ==> r == Failure(ArgumentNull("type"))
      ensures ty.Some? ==> r == Resolve(mappings, MappingKey(ty.value, instanceName), None)
      ensures r.Success? <==> ty.Some? && MappingKey(ty.value, instanceName) in mappings
      ensures r.Success? ==> r.value == mappings[MappingKey(ty.value, instanceName)](None)
    {
      r := Create(ty, None, instanceName);
    }
  }
}
