/** The constitutive-relationship service
    (Kelvin/src/ConstitutiveRelationshipService.cpp): a process-wide map
    from material ids to constitutive relationships. The map is passed
    around as a value here. */
module Registry {
  import opened Results

  datatype Registry<T> = Registry(entries: map<int, T>)

  /** The service before anything is registered. */
  function EmptyRegistry<T>(): (r: Registry<T>)
    ensures forall id :: id !in r.entries
  {
    Registry(map[])
  }

  /** The `runtime_error`s of the service. */
  datatype RegistryError = AlreadyExists(id: int) | NotFound(id: int)

  /** `add(id, relationship)`: an unused id gets the relationship; a used
      one throws, and the registry is left as it was. */
  function Add<T>(reg: Registry<T>, id: int, rel: T): (r: Result<Registry<T>, RegistryError>)
    ensures r.Failure? <==> id in reg.entries
    ensures r.Failure? ==> r.error == AlreadyExists(id)
    ensures r.Success? ==> id in r.value.entries && r.value.entries[id] == rel
    ensures r.Success? ==> forall k :: k != id ==> (k in r.value.entries <==> k in reg.entries)
    ensures r.Success? ==> forall k :: k != id && k in reg.entries ==> r.value.entries[k] == reg.entries[k]
  {
    if id in reg.entries then Failure(AlreadyExists(id))
    else Success(Registry(reg.entries[id := rel]))
  }

  /** Relationships under distinct ids coexist, in whichever order they are
      added, and adding either id again fails. */
  lemma {:induction false} DistinctIdsCoexist<T>(reg: Registry<T>, a: int, ra: T, b: int, rb: T)
    requires a != b && a !in reg.entries && b !in reg.entries
    ensures Add(reg, a, ra).Success? && Add(Add(reg, a, ra).value, b, rb).Success?
    ensures Add(reg, b, rb).Success? && Add(Add(reg, b, rb).value, a, ra).Success?
    ensures Add(Add(reg, a, ra).value, b, rb).value == Add(Add(reg, b, rb).value, a, ra).value
    ensures var both := Add(Add(reg, a, ra).value, b, rb).value;
      && both.entries[a] == ra && both.entries[b] == rb
      && Add(both, a, ra).Failure? && Add(both, b, rb).Failure?
  {
    var ab := Add(Add(reg, a, ra).value, b, rb).value;
    var ba := Add(Add(reg, b, rb).value, a, ra).value;
    assert ab.entries == ba.entries;
  }

  /** `get(id)` as written: it returns the relationship under id 0 whatever
      id it is asked for. Indexing the map with a missing key would insert
      a null entry and dereference it, so id 0 must be registered. */
  function GetAsWritten<T>(reg: Registry<T>, id: int): (r: T)
    requires 0 in reg.entries
    ensures r == reg.entries[0]
  {
    reg.entries[0]
  }

  /** `get(id)` as documented: the relationship registered under id, or a
      `runtime_error` when there is none. */
  function Lookup<T>(reg: Registry<T>, id: int): (r: Result<T, RegistryError>)
    ensures r.Success? <==> id in reg.entries
    ensures r.Success? ==> r.value == reg.entries[id]
    ensures r.Failure? ==> r.error == NotFound(id)
  {
    if id in reg.entries then Success(reg.entries[id]) else Failure(NotFound(id))
  }

  /** What was added is what is found, and an id never added is not found. */
  lemma {:induction false} LookupAfterAdd<T>(reg: Registry<T>, id: int, rel: T, other: int)
    requires id !in reg.entries
    ensures Lookup(Add(reg, id, rel).value, id) == Success(rel)
    ensures other != id ==> Lookup(Add(reg, id, rel).value, other) == Lookup(reg, other)
  {
  }

  /** The input that tells the two readings apart: with relationships under
      ids 0 and 1, asking for id 1 gets id 0's relationship as written and
      id 1's as documented. When only id 1 is registered, as the solver's
      test does, the as-written lookup has no entry 0 to return at all. */
  lemma {:induction false} GetIgnoresId()
    ensures var reg := Add(Add(EmptyRegistry(), 0, 10).value, 1, 11).value;
      GetAsWritten(reg, 1) == 10 && Lookup(reg, 1) == Success(11)
    ensures var reg := Add(EmptyRegistry(), 1, 11).value;
      0 !in reg.entries && Lookup(reg, 1) == Success(11)
  {
  }
}
