/**
  The container's table as a value: a map from exact (type, instance name) pairs to factories,
  and the dictionary operations the container performs on it.
 */
module Registry {
  import opened Wrappers
  import opened MappingKeys

  /** A `Func<dynamic, object>`; the argument bundle may be null (None). */
  type Factory<-A, O> = Option<A> -> O

  type Mappings<Ty(==), -A, O> = map<MappingKey<Ty>, Factory<A, O>>

  /** `ConcurrentDictionary.TryAdd`: store `f` under `k` only when `k` is absent. */
  function TryAdd<Ty(==), A, O>(m: Mappings<Ty, A, O>, k: MappingKey<Ty>, f: Factory<A, O>): (r: Mappings<Ty, A, O>)
  {
    if k in m then m else m[k := f]
  }

  /** `ConcurrentDictionary.TryRemove`: drop `k` if present. */
  function TryRemove<Ty(==), A, O>(m: Mappings<Ty, A, O>, k: MappingKey<Ty>): (r: Mappings<Ty, A, O>)
  {
    m - {k}
  }

  /** `TryGetValue` followed by invoking the factory found, or the "could not find mapping" failure. */
  function Resolve<Ty(==), A, O>(m: Mappings<Ty, A, O>, k: MappingKey<Ty>, args: Option<A>): (r: Result<O, Error>)
  {
    if k in m then Success(m[k](args)) else Failure(InvalidOperation(NoMapping))
  }

  /** The factory the type-pair registration stores: default-construct `to`, ignoring the arguments. */
  function DefaultFactory<Ty, A, O>(to: Ty, construct: Ty -> O): (f: Factory<A, O>)
  {
    _ => construct(to)
  }

  /** The default factory yields the default instance of `to` whatever arguments it is given, null included. */
  lemma DefaultFactoryIgnoresArgs<Ty, A, O>(to: Ty, construct: Ty -> O, args: Option<A>)
    ensures DefaultFactory<Ty, A, O>(to, construct)(args) == DefaultFactory<Ty, A, O>(to, construct)(None)
    ensures DefaultFactory(to, construct)(args) == construct(to)
  {
  }

  // ---------------------------------------------------------------- insert-if-absent

  /** After a registration the key is present, and its factory is the new one exactly when the key was absent. */
  lemma TryAddRegisters<Ty, A, O>(m: Mappings<Ty, A, O>, k: MappingKey<Ty>, f: Factory<A, O>)
    ensures k in TryAdd(m, k, f)
    ensures k !in m ==> TryAdd(m, k, f)[k] == f && |TryAdd(m, k, f)| == |m| + 1
  {
  }

  /** Registering a key already present changes nothing: the first registration wins. */
  lemma TryAddFirstWins<Ty, A, O>(m: Mappings<Ty, A, O>, k: MappingKey<Ty>, f: Factory<A, O>)
    requires k in m
    ensures TryAdd(m, k, f) == m
    ensures |TryAdd(m, k, f)| == |m|
  {
  }

  /** Registration leaves every other key, and its factory, as it was. */
  lemma TryAddKeepsOthers<Ty, A, O>(m: Mappings<Ty, A, O>, k: MappingKey<Ty>, f: Factory<A, O>, j: MappingKey<Ty>)
    requires j != k
    ensures j in TryAdd(m, k, f) <==> j in m
    ensures j in m ==> TryAdd(m, k, f)[j] == m[j]
  {
  }

  // ---------------------------------------------------------------- removal

  /** After removal the key is absent; removing an absent key is a no-op; otherwise the count drops by one. */
  lemma TryRemoveUnregisters<Ty, A, O>(m: Mappings<Ty, A, O>, k: MappingKey<Ty>)
    ensures k !in TryRemove(m, k)
    ensures k !in m ==> TryRemove(m, k) == m
    ensures k in m ==> |TryRemove(m, k)| == |m| - 1
  {
    if k in m {
      assert TryRemove(m, k).Keys == m.Keys - {k};
    }
  }

  /** Removal leaves every other key, and its factory, as it was. */
  lemma TryRemoveKeepsOthers<Ty, A, O>(m: Mappings<Ty, A, O>, k: MappingKey<Ty>, j: MappingKey<Ty>)
    requires j != k
    ensures j in TryRemove(m, k) <==> j in m
    ensures j in m ==> TryRemove(m, k)[j] == m[j]
  {
  }

  // ---------------------------------------------------------------- lookup-then-invoke

  /** A lookup succeeds exactly on a registered key and returns that factory's output for exactly these arguments. */
  lemma ResolveInvokesStoredFactory<Ty, A, O>(m: Mappings<Ty, A, O>, k: MappingKey<Ty>, args: Option<A>)
    ensures Resolve(m, k, args).Success? <==> k in m
    ensures k in m ==> Resolve(m, k, args).value == m[k](args)
    ensures k !in m ==> Resolve(m, k, args) == Failure(InvalidOperation(NoMapping))
  {
  }

  /** Two registrations under one key: creation runs the first factory, never the second. */
  lemma SecondRegistrationIgnored<Ty, A, O>(m: Mappings<Ty, A, O>, k: MappingKey<Ty>,
                                               f: Factory<A, O>, g: Factory<A, O>, args: Option<A>)
    requires k !in m
    ensures Resolve(TryAdd(TryAdd(m, k, f), k, g), k, args) == Success(f(args))
    ensures |TryAdd(TryAdd(m, k, f), k, g)| == |m| + 1
  {
    TryAddRegisters(m, k, f);
    TryAddFirstWins(TryAdd(m, k, f), k, g);
  }

  /** Register, create, unregister: the creation runs the new factory and the table returns to what it was. */
  lemma RegisterCreateUnregister<Ty, A, O>(m: Mappings<Ty, A, O>, k: MappingKey<Ty>, f: Factory<A, O>, args: Option<A>)
    requires k !in m
    ensures Resolve(TryAdd(m, k, f), k, args) == Success(f(args))
    ensures TryRemove(TryAdd(m, k, f), k) == m
    ensures k !in TryRemove(TryAdd(m, k, f), k)
  {
    assert TryRemove(TryAdd(m, k, f), k).Keys == m.Keys;
  }

  // ---------------------------------------------------------------- many registrations

  /** A registration attempt: a key and the factory offered for it. */
  type Attempt<Ty, -A, O> = (MappingKey<Ty>, Factory<A, O>)

  /** The keys named by a run of registration attempts. */
  function AttemptedKeys<Ty(==), A, O>(attempts: seq<Attempt<Ty, A, O>>): (keys: set<MappingKey<Ty>>)
  {
    set i | 0 <= i < |attempts| :: attempts[i].0
  }

  /** The table after the attempts are made one after another. */
  function RegisterEach<Ty(==), A, O>(m: Mappings<Ty, A, O>, attempts: seq<Attempt<Ty, A, O>>): (r: Mappings<Ty, A, O>)
    decreases |attempts|
  {
    if attempts == [] then m
    else RegisterEach(TryAdd(m, attempts[0].0, attempts[0].1), attempts[1..])
  }

  /** The keys afterwards are the keys before plus every attempted key. */
  lemma {:induction false} RegisterEachKeys<Ty, A, O>(m: Mappings<Ty, A, O>, attempts: seq<Attempt<Ty, A, O>>)
    ensures RegisterEach(m, attempts).Keys == m.Keys + AttemptedKeys(attempts)
    decreases |attempts|
  {
    if attempts != [] {
      var m' := TryAdd(m, attempts[0].0, attempts[0].1);
      RegisterEachKeys(m', attempts[1..]);
      assert AttemptedKeys(attempts) == {attempts[0].0} + AttemptedKeys(attempts[1..]) by {
        forall k | k in AttemptedKeys(attempts) ensures k in {attempts[0].0} + AttemptedKeys(attempts[1..]) {
          var i :| 0 <= i < |attempts| && attempts[i].0 == k;
          if i > 0 { assert attempts[1..][i - 1].0 == k; }
        }
      }
    }
  }

  /** A key registered before the attempts keeps its factory through all of them. */
  lemma {:induction false} RegisterEachKeepsExisting<Ty, A, O>(m: Mappings<Ty, A, O>, attempts: seq<Attempt<Ty, A, O>>,
                                                                    k: MappingKey<Ty>)
    requires k in m
    ensures k in RegisterEach(m, attempts) && RegisterEach(m, attempts)[k] == m[k]
    decreases |attempts|
  {
    if attempts != [] {
      RegisterEachKeepsExisting(TryAdd(m, attempts[0].0, attempts[0].1), attempts[1..], k);
    }
  }

  /** For a key absent before, the factory stored is the one of the first attempt that names it. */
  lemma {:induction false} RegisterEachFirstWins<Ty, A, O>(m: Mappings<Ty, A, O>, attempts: seq<Attempt<Ty, A, O>>, i: nat)
    requires i < |attempts| && attempts[i].0 !in m
    requires forall j :: 0 <= j < i ==> attempts[j].0 != attempts[i].0
    ensures attempts[i].0 in RegisterEach(m, attempts)
    ensures RegisterEach(m, attempts)[attempts[i].0] == attempts[i].1
    decreases i
  {
    var m' := TryAdd(m, attempts[0].0, attempts[0].1);
    if i == 0 {
      RegisterEachKeepsExisting(m', attempts[1..], attempts[0].0);
    } else {
      assert attempts[1..][i - 1] == attempts[i];
      RegisterEachFirstWins(m', attempts[1..], i - 1);
    }
  }

  /** Starting from an empty table, the count is the number of distinct keys attempted, however many attempts there were. */
  lemma RegisterEachCount<Ty, A, O>(attempts: seq<Attempt<Ty, A, O>>)
    ensures |RegisterEach(map[], attempts)| == |AttemptedKeys(attempts)|
  {
    RegisterEachKeys(map[], attempts);
    assert RegisterEach(map[], attempts).Keys == AttemptedKeys(attempts);
  }
}
