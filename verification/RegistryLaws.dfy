/**
  What a caller sees of the registry when nobody else is at work: laws between its operations, each
  one a small client of the registry object.
 */
module RegistryLaws {
  import opened Outcomes
  import opened StateStore
  import opened Registry

  /** The names in a team's index. */
  ghost function Names(s: View<Doc>, team: string): seq<string>
    requires LoadView(s, IndexKey(team)).Ok?
  {
    LoadView(s, IndexKey(team)).value.0
  }

  /** A name that is no index, on a team whose index can be read. */
  ghost predicate Usable(s: View<Doc>, team: string, name: string)
  {
    name != "" && name != "_index" && LoadView(s, IndexKey(team)).Ok?
  }

  function TeamOf(ref: Option<RegistryRef>): string
  {
    if GivesTeam(ref) then ref.value.team else "default"
  }

  lemma RecordIsNoIndex(team: string, name: string)
    requires name != "_index"
    ensures AgentKey(team, name) != IndexKey(team)
  {
    KeyParts(team, "_index");
    KeysOfOneTeam(team, name, team, "_index");
  }

  /** A document that stays at its key while the index is updated. */
  lemma UpdateKeepsRecord(s: View<Doc>, team: string, name: string, m: Mutation)
    requires Usable(s, team, name)
    ensures var (s', err) := Update(s, IndexKey(team), m, NobodyElse);
            && err == None && Usable(s', team, name) && Names(s', team) == Applied(m, Names(s, team))
            && (AgentKey(team, name) in s' <==> AgentKey(team, name) in s)
            && (AgentKey(team, name) in s ==> s'[AgentKey(team, name)] == s[AgentKey(team, name)])
  {
    var k, key := AgentKey(team, name), IndexKey(team);
    RecordIsNoIndex(team, name);
    UpdateAlone(s, key, m);
    var s' := Update(s, key, m, NobodyElse).0;
    assert k in s' <==> k in s' - {key};
    assert k in s <==> k in s - {key};
    assert k in s ==> (s' - {key})[k] == (s - {key})[k];
  }

  /** Registering leaves the record with its blanks filled in, and the name in the index. */
  method RegisterAlone(reg: Registry, rec: AgentRecord)
    requires reg.store.Valid() && Usable(reg.store.Contents(), TeamOf(rec.registry), rec.name)
    modifies reg.store, rec
    ensures reg.store.Valid() && rec.name == old(rec.name) && rec.body == old(rec.body)
    ensures rec.registry.Some? && rec.registry.value.team == TeamOf(old(rec.registry)) != ""
    ensures rec.registry.value.resourceName ==
            if GivesResource(old(rec.registry)) then old(rec.registry).value.resourceName else reg.store.name
    ensures var team, s := rec.registry.value.team, reg.store.Contents();
            && Usable(s, team, rec.name)
            && Names(s, team) == Applied(Add(rec.name), old(Names(reg.store.Contents(), TeamOf(rec.registry))))
            && AgentKey(team, rec.name) in s
            && s[AgentKey(team, rec.name)].value == Record(RecordDoc(rec.name, rec.registry.value, rec.body))
  {
    ghost var before, team := reg.store.Contents(), TeamOf(rec.registry);
    var err := reg.Register(rec, NobodyElse);
    ghost var saved := Put(before, AgentKey(team, rec.name), Record(RecordDoc(rec.name, rec.registry.value, rec.body)));
    RecordIsNoIndex(team, rec.name);
    UpdateKeepsRecord(saved, team, rec.name, Add(rec.name));
  }

  /** What Get finds after Register is the record as Register left it with the caller. */
  method GetAfterRegister(reg: Registry, rec: AgentRecord) returns (got: Option<RecordDoc>, found: bool)
    requires reg.store.Valid() && Usable(reg.store.Contents(), TeamOf(rec.registry), rec.name)
    modifies reg.store, rec
    ensures reg.store.Valid() && found && rec.registry.Some?
    ensures got == Some(RecordDoc(old(rec.name), rec.registry.value, old(rec.body)))
  {
    RegisterAlone(reg, rec);
    got, found := reg.Get(rec.registry.value.team, rec.name);
  }

  /** Registering what Get returned changes neither the record nor the names. */
  method RegisterWhatGetReturned(reg: Registry, rec: AgentRecord)
    returns (first: Option<RecordDoc>, second: Option<RecordDoc>, again: AgentRecord)
    requires reg.store.Valid() && Usable(reg.store.Contents(), TeamOf(rec.registry), rec.name)
    modifies reg.store, rec
    ensures reg.store.Valid() && first.Some? && second == first
    ensures rec.name == old(rec.name)
    ensures fresh(again) && again.registry == Some(first.value.registry)
    ensures var team := first.value.registry.team;
            && Usable(reg.store.Contents(), team, rec.name)
            && Names(reg.store.Contents(), team) ==
               Applied(Add(rec.name), old(Names(reg.store.Contents(), TeamOf(rec.registry))))
  {
    RegisterAlone(reg, rec);
    var found;
    first, found := reg.Get(rec.registry.value.team, rec.name);
    again := new AgentRecord(first.value.name, Some(first.value.registry), first.value.body);
    ghost var list := Names(reg.store.Contents(), rec.registry.value.team);
    assert rec.name in list;
    RegisterAlone(reg, again);
    second, found := reg.Get(again.registry.value.team, again.name);
  }

  /** Listing after registering a new agent adds its name at the end. */
  method ListAfterRegister(reg: Registry, rec: AgentRecord) returns (names: Result<seq<string>, Error>)
    requires reg.store.Valid() && Usable(reg.store.Contents(), TeamOf(rec.registry), rec.name)
    modifies reg.store, rec
    ensures var before := old(Names(reg.store.Contents(), TeamOf(rec.registry)));
            names == Ok(if old(rec.name) in before then before else before + [old(rec.name)])
  {
    RegisterAlone(reg, rec);
    names := reg.List(rec.registry.value.team);
  }

  /** Deregistering a newly registered agent restores the names, and its record is gone. */
  method DeregisterAfterRegister(reg: Registry, rec: AgentRecord)
    returns (names: Result<seq<string>, Error>, found: bool)
    requires reg.store.Valid() && Usable(reg.store.Contents(), TeamOf(rec.registry), rec.name)
    requires rec.name !in Names(reg.store.Contents(), TeamOf(rec.registry))
    modifies reg.store, rec
    ensures names == Ok(old(Names(reg.store.Contents(), TeamOf(rec.registry)))) && !found
  {
    ghost var before := Names(reg.store.Contents(), TeamOf(rec.registry));
    RegisterAlone(reg, rec);
    ghost var s, team := reg.store.Contents(), rec.registry.value.team;
    var err := reg.Deregister(rec.registry.value.team, rec.name, NobodyElse);
    RecordIsNoIndex(team, rec.name);
    ghost var erased := s - {AgentKey(team, rec.name)};
    assert LoadView(erased, IndexKey(team)) == LoadView(s, IndexKey(team));
    UpdateKeepsRecord(erased, team, rec.name, Remove(rec.name));
    RemoveUndoesAdd(before, rec.name);
    names := reg.List(rec.registry.value.team);
    var got;
    got, found := reg.Get(rec.registry.value.team, rec.name);
  }
}
