/**
  The agent directory (registry/registry.go): one record per agent and one name list ("index") per
  team, kept in a versioned store. The index is changed by read-modify-write with a bounded number
  of compare-and-set attempts.
 */
module Registry {
  import opened Outcomes
  import opened StateStore

  const DEFAULT_TEAM := "default"
  const MAX_ETAG_ATTEMPTS := 10
  const FIRST_ATTEMPT: nat := 1

  // ---------- documents ----------

  datatype RegistryRef = RegistryRef(team: string, resourceName: string)

  /** The stored form of a record; body stands for the fields the registry does not look at. */
  datatype RecordDoc = RecordDoc(name: string, registry: RegistryRef, body: string)

  /** What a key holds: an index, a record, nothing at all, or bytes that are not an index document. */
  datatype Doc = Index(agents: seq<string>) | Record(rec: RecordDoc) | Blank | Unreadable

  datatype Error = NameRequired | UnreadableIndex | RetriesExhausted

  // ---------- keys ----------

  function EffectiveTeam(team: string): string
  {
    if team == "" then DEFAULT_TEAM else team
  }

  function AgentKey(team: string, name: string): string
  {
    "agents:" + EffectiveTeam(team) + ":" + name
  }

  function IndexKey(team: string): string
  {
    "agents:" + EffectiveTeam(team) + ":_index"
  }

  predicate ColonFree(team: string)
  {
    ':' !in team
  }

  /** How keys read; the team without a name is the team "default". */
  lemma KeysRead(t: string, n: string)
    ensures t == "" ==> AgentKey(t, n) == "agents:default:" + n && IndexKey(t) == "agents:default:_index"
    ensures t != "" ==> AgentKey(t, n) == "agents:" + t + ":" + n && IndexKey(t) == "agents:" + t + ":_index"
  {
    assert "agents:" + "default" + ":" == "agents:default:";
    assert "agents:" + "default" + ":_index" == "agents:default:_index";
  }

  /** Exactly when two teams' keys can be confused: one is the other up to a colon. */
  predicate Overlap(e: string, e': string)
  {
    e + ":" <= e' || e' + ":" <= e
  }

  lemma KeyParts(t: string, n: string)
    ensures AgentKey(t, n)[7..] == EffectiveTeam(t) + ":" + n
    ensures AgentKey(t, n) == "agents:" + (EffectiveTeam(t) + ":" + n)
    ensures IndexKey(t) == AgentKey(t, "_index")
  {
  }

  lemma SharedKeyOverlaps(e: string, n: string, e': string, n': string)
    requires e + ":" + n == e' + ":" + n' && e != e'
    ensures Overlap(e, e')
    ensures |e| < |e'| ==> e + ":" <= e' && ':' in n
  {
    var k := e + ":" + n;
    assert e + ":" == k[..|e| + 1] && e' + ":" == k[..|e'| + 1];
    assert e == k[..|e|] && e' == k[..|e'|];
    if |e| < |e'| {
      assert e' == k[..|e'|] && k[..|e'|][..|e| + 1] == e + ":";
      assert n == k[|e| + 1..] && n[|e'| - |e| - 1] == k[|e'|] == ':';
    } else if |e'| < |e| {
      assert k[..|e|][..|e'| + 1] == e' + ":";
    }
  }

  lemma SharedKey(t: string, t': string)
    requires EffectiveTeam(t) + ":" <= EffectiveTeam(t')
    ensures forall n': string :: AgentKey(t, EffectiveTeam(t')[|EffectiveTeam(t)| + 1..] + ":" + n') == AgentKey(t', n')
  {
    var e, e' := EffectiveTeam(t), EffectiveTeam(t');
    forall n': string ensures AgentKey(t, e'[|e| + 1..] + ":" + n') == AgentKey(t', n') {
      KeyParts(t, e'[|e| + 1..] + ":" + n');
      KeyParts(t', n');
      assert e + ":" + e'[|e| + 1..] == e';
      assert e + ":" + (e'[|e| + 1..] + ":" + n') == e' + ":" + n';
    }
  }

  /** Some record keys of two different teams coincide if and only if one team is the other up to a colon. */
  lemma RecordKeysCollideIff(t: string, t': string)
    requires EffectiveTeam(t) != EffectiveTeam(t')
    ensures (exists n, n' :: AgentKey(t, n) == AgentKey(t', n')) <==> Overlap(EffectiveTeam(t), EffectiveTeam(t'))
  {
    var e, e' := EffectiveTeam(t), EffectiveTeam(t');
    if n, n' :| AgentKey(t, n) == AgentKey(t', n') {
      KeyParts(t, n);
      KeyParts(t', n');
      SharedKeyOverlaps(e, n, e', n');
    }
    if e + ":" <= e' {
      SharedKey(t, t');
      assert AgentKey(t, e'[|e| + 1..] + ":" + "") == AgentKey(t', "");
    } else if e' + ":" <= e {
      SharedKey(t', t);
      assert AgentKey(t', e[|e'| + 1..] + ":" + "") == AgentKey(t, "");
    }
  }

  /** A record of team t can sit on the index key of another team if and only if t is that team up to a colon. */
  lemma RecordHitsIndexIff(t: string, t': string)
    requires EffectiveTeam(t) != EffectiveTeam(t')
    ensures (exists n :: AgentKey(t, n) == IndexKey(t')) <==> EffectiveTeam(t) + ":" <= EffectiveTeam(t')
  {
    var e, e' := EffectiveTeam(t), EffectiveTeam(t');
    KeyParts(t', "_index");
    if n :| AgentKey(t, n) == IndexKey(t') {
      KeyParts(t, n);
      SharedKeyOverlaps(e, n, e', "_index");
      SharedKeyOverlaps(e', "_index", e, n);
      assert ':' !in "_index";
    }
    if e + ":" <= e' {
      SharedKey(t, t');
      assert AgentKey(t, e'[|e| + 1..] + ":" + "_index") == AgentKey(t', "_index");
    }
  }

  /** Within one team keys are always kept apart, and index keys always tell teams apart. */
  lemma KeysOfOneTeam(t: string, n: string, t': string, n': string)
    ensures EffectiveTeam(t) == EffectiveTeam(t') ==> (AgentKey(t, n) == AgentKey(t', n') <==> n == n')
    ensures IndexKey(t) == IndexKey(t') <==> EffectiveTeam(t) == EffectiveTeam(t')
  {
    var e, e' := EffectiveTeam(t), EffectiveTeam(t');
    KeyParts(t, n);
    KeyParts(t', n');
    KeyParts(t, "_index");
    KeyParts(t', "_index");
    if e == e' && AgentKey(t, n) == AgentKey(t', n') {
      assert n == (e + ":" + n)[|e| + 1..] && n' == (e' + ":" + n')[|e| + 1..];
    }
    if IndexKey(t) == IndexKey(t') {
      assert |e| == |e'|;
      assert e == (e + ":" + "_index")[..|e|] && e' == (e' + ":" + "_index")[..|e|];
    }
  }

  /** Unless the teams overlap, a record key determines team and name, and is an index key only for _index. */
  lemma KeysAreApart(t: string, n: string, t': string, n': string)
    requires !Overlap(EffectiveTeam(t), EffectiveTeam(t'))
    ensures AgentKey(t, n) == AgentKey(t', n') <==> EffectiveTeam(t) == EffectiveTeam(t') && n == n'
    ensures AgentKey(t, n) == IndexKey(t') <==> EffectiveTeam(t) == EffectiveTeam(t') && n == "_index"
  {
    KeyParts(t', n');
    KeysOfOneTeam(t, n, t', n');
    KeysOfOneTeam(t, n, t', "_index");
    if EffectiveTeam(t) != EffectiveTeam(t') {
      RecordKeysCollideIff(t, t');
    }
  }

  lemma OverlapNeedsColon(e: string, e': string)
    requires Overlap(e, e')
    ensures ':' in e || ':' in e'
  {
    if e + ":" <= e' {
      assert e'[|e|] == (e + ":")[|e|];
    } else {
      assert e[|e'|] == (e' + ":")[|e'|];
    }
  }

  /** Colon-free teams never overlap. */
  lemma KeysAreInjective(t: string, n: string, t': string, n': string)
    requires ColonFree(t) && ColonFree(t')
    ensures AgentKey(t, n) == AgentKey(t', n') <==> EffectiveTeam(t) == EffectiveTeam(t') && n == n'
    ensures AgentKey(t, n) == IndexKey(t') <==> EffectiveTeam(t) == EffectiveTeam(t') && n == "_index"
    ensures IndexKey(t) == IndexKey(t') <==> EffectiveTeam(t) == EffectiveTeam(t')
  {
    var e, e' := EffectiveTeam(t), EffectiveTeam(t');
    assert ColonFree(e) && ColonFree(e');
    if Overlap(e, e') {
      OverlapNeedsColon(e, e');
    }
    KeysAreApart(t, n, t', n');
    KeysOfOneTeam(t, n, t', n');
  }

  /** With overlapping teams a record can sit on another team's index key. */
  lemma ColonInTeamCollides()
    ensures AgentKey("a", "b:_index") == IndexKey("a:b")
  {
    RecordHitsIndexIff("a", "a:b");
    assert AgentKey("a", "b:_index") == "agents:a:b:_index";
  }

  // ---------- the index mutations ----------

  datatype Mutation = Add(name: string) | Remove(name: string)

  function RemoveFirst(list: seq<string>, name: string): seq<string>
  {
    if list == [] then []
    else if list[0] == name then list[1..]
    else [list[0]] + RemoveFirst(list[1..], name)
  }

  predicate Changes(m: Mutation, list: seq<string>)
  {
    match m
    case Add(name) => name !in list
    case Remove(name) => name in list
  }

  function Applied(m: Mutation, list: seq<string>): seq<string>
  {
    match m
    case Add(name) => if name in list then list else list + [name]
    case Remove(name) => RemoveFirst(list, name)
  }

  ghost predicate NoDuplicates(list: seq<string>)
  {
    forall i, j :: 0 <= i < j < |list| ==> list[i] != list[j]
  }

  /** The first occurrence of a name is at index i. */
  ghost predicate FirstAt(list: seq<string>, name: string, i: int)
  {
    0 <= i < |list| && list[i] == name && name !in list[..i]
  }

  lemma {:induction false} RemoveFirstAt(list: seq<string>, i: nat)
    requires i < |list| && list[i] !in list[..i]
    ensures RemoveFirst(list, list[i]) == list[..i] + list[i + 1..]
  {
    if 0 < i {
      assert list[0] != list[i] by { assert list[0] == list[..i][0]; }
      assert list[1..][..i - 1] == list[..i][1..];
      RemoveFirstAt(list[1..], i - 1);
      assert list[..i] + list[i + 1..] == [list[0]] + (list[1..][..i - 1] + list[1..][i..]);
    }
  }

  lemma {:induction false} RemoveAbsent(list: seq<string>, name: string)
    requires name !in list
    ensures RemoveFirst(list, name) == list
  {
    if list != [] {
      RemoveAbsent(list[1..], name);
    }
  }

  lemma {:induction false} RemoveMember(list: seq<string>, name: string)
    requires NoDuplicates(list)
    ensures NoDuplicates(RemoveFirst(list, name))
    ensures forall x :: x in RemoveFirst(list, name) <==> x in list && x != name
  {
    if list != [] {
      var rest := list[1..];
      assert list == [list[0]] + rest;
      if list[0] == name {
        assert forall x :: x in list <==> x == name || x in rest;
      } else {
        RemoveMember(rest, name);
        var r := RemoveFirst(rest, name);
        assert forall x :: x in [list[0]] + r <==> x == list[0] || x in r;
        assert list[0] !in r;
      }
    }
  }

  /** What a mutation does to a duplicate-free list: only its own name changes, and no duplicate appears. */
  lemma MutationEffect(m: Mutation, list: seq<string>)
    requires NoDuplicates(list)
    ensures NoDuplicates(Applied(m, list))
    ensures forall x :: x in Applied(m, list) <==> if x == m.name then m.Add? else x in list
  {
    if m.Remove? {
      RemoveMember(list, m.name);
    }
  }

  /** Unchanged mutations leave the list alone, duplicates or not. */
  lemma NoChangeNoEffect(m: Mutation, list: seq<string>)
    requires !Changes(m, list)
    ensures Applied(m, list) == list
  {
    if m.Remove? {
      RemoveAbsent(list, m.name);
    }
  }

  /** Registering a new name and then removing it restores the list. */
  lemma {:induction false} RemoveUndoesAdd(list: seq<string>, name: string)
    requires name !in list
    ensures Applied(Remove(name), Applied(Add(name), list)) == list
  {
    var added := list + [name];
    assert added[..|list|] == list;
    RemoveFirstAt(added, |list|);
    assert added[..|list|] + added[|list| + 1..] == list;
  }

  // ---------- reading the index ----------

  /** The list and etag a client sees; a missing or blank index reads as the empty list. */
  function LoadView(s: View<Doc>, key: string): Result<(seq<string>, string), Error>
  {
    var tag := EtagString(VersionOf(s, key));
    if key !in s then Ok(([], tag))
    else match s[key].value
         case Index(agents) => Ok((agents, tag))
         case Blank => Ok(([], tag))
         case _ => Err(UnreadableIndex)
  }

  /** What the other clients do before our k-th store call. */
  type Interference = (nat, View<Doc>) -> View<Doc>

  /** How one attempt leaves the store: with the update over, or refused by the etag check. */
  datatype Tried = Over(s: View<Doc>, err: Option<Error>) | Refused(s: View<Doc>)

  function Attempt(s: View<Doc>, key: string, m: Mutation, others: Interference, attempt: nat): Tried
  {
    var s1 := others(2 * attempt, s);
    match LoadView(s1, key)
    case Err(e) => Over(s1, Some(e))
    case Ok((list, tag)) =>
      if !Changes(m, list) then Over(s1, None) else
      var (s2, stored) := TrySet(others(2 * attempt + 1, s1), key, Index(Applied(m, list)), tag);
      if stored then Over(s2, None) else Refused(s2)
  }

  /** What the numbered attempts do to the store. */
  type Attempts = (nat, View<Doc>) -> Tried

  function AttemptsOn(key: string, m: Mutation, others: Interference): Attempts
  {
    (attempt: nat, s) => Attempt(s, key, m, others, attempt)
  }

  /** What attempts number attempt does to store s is one load, mutate, compare-and-set. */
  ghost predicate IsAttempt(
      tries: Attempts, key: string, m: Mutation, others: Interference, attempt: nat, s: View<Doc>)
  {
    tries(attempt, s) == Attempt(s, key, m, others, attempt)
  }

  ghost predicate AreAttempts(tries: Attempts, key: string, m: Mutation, others: Interference)
  {
    forall attempt: nat, s :: IsAttempt(tries, key, m, others, attempt, s)
  }

  /** The update loop from a given attempt on, as the final store and error. */
  function UpdateFrom(tries: Attempts, s: View<Doc>, attempt: nat): (View<Doc>, Option<Error>)
    decreases MAX_ETAG_ATTEMPTS + 1 - attempt
  {
    if attempt > MAX_ETAG_ATTEMPTS then (s, Some(RetriesExhausted)) else
    match tries(attempt, s)
    case Over(s', err) => (s', err)
    case Refused(s') => UpdateFrom(tries, s', attempt + 1)
  }

  /** The whole read-modify-write of an index, retries included. */
  function Update(s: View<Doc>, key: string, m: Mutation, others: Interference): (View<Doc>, Option<Error>)
  {
    UpdateFrom(AttemptsOn(key, m, others), s, FIRST_ATTEMPT)
  }

  const NobodyElse: Interference := (k, s) => s

  /** Alone on the store, an update of a readable index succeeds and applies its mutation exactly once. */
  lemma UpdateAlone(s: View<Doc>, key: string, m: Mutation)
    requires LoadView(s, key).Ok?
    ensures var (s', err) := Update(s, key, m, NobodyElse);
            && err == None
            && LoadView(s', key).Ok?
            && LoadView(s', key).value.0 == Applied(m, LoadView(s, key).value.0)
            && s' - {key} == s - {key}
  {
    var list := LoadView(s, key).value.0;
    if Changes(m, list) {
      TrySetSucceedsIffCurrent(s, key, Index(Applied(m, list)), VersionOf(s, key));
    } else {
      NoChangeNoEffect(m, list);
    }
  }

  /** The others leave key k as it is. */
  ghost predicate Spares(others: Interference, k: string)
  {
    forall i: nat, s: View<Doc> :: others(i, s) - (others(i, s).Keys - {k}) == s - (s.Keys - {k})
  }

  lemma AttemptTouchesOnlyItsKey(
      s: View<Doc>, key: string, m: Mutation, others: Interference, attempt: nat, k: string)
    requires k != key && Spares(others, k)
    ensures var s' := Attempt(s, key, m, others, attempt).s;
            s' - (s'.Keys - {k}) == s - (s.Keys - {k})
  {
    var s1 := others(2 * attempt, s);
    assert s1 - (s1.Keys - {k}) == s - (s.Keys - {k});
    if LoadView(s1, key).Ok? {
      var (list, tag) := LoadView(s1, key).value;
      if Changes(m, list) {
        var before := others(2 * attempt + 1, s1);
        assert before - (before.Keys - {k}) == s1 - (s1.Keys - {k});
        var s2 := TrySet(before, key, Index(Applied(m, list)), tag).0;
        assert s2 - (s2.Keys - {k}) == before - (before.Keys - {k});
      }
    }
  }

  /** Each of the attempts leaves key k as it is. */
  ghost predicate AttemptsSpare(tries: Attempts, k: string)
  {
    forall i: nat, s: View<Doc> :: tries(i, s).s - (tries(i, s).s.Keys - {k}) == s - (s.Keys - {k})
  }

  lemma {:induction false} LoopTouchesOnlyItsKey(tries: Attempts, s: View<Doc>, attempt: nat, k: string)
    requires AttemptsSpare(tries, k)
    ensures var s' := UpdateFrom(tries, s, attempt).0;
            s' - (s'.Keys - {k}) == s - (s.Keys - {k})
    decreases MAX_ETAG_ATTEMPTS + 1 - attempt
  {
    if attempt <= MAX_ETAG_ATTEMPTS && tries(attempt, s).Refused? {
      LoopTouchesOnlyItsKey(tries, tries(attempt, s).s, attempt + 1, k);
    }
  }

  /** An update never touches any key but its own, whatever the outcome. */
  lemma UpdateTouchesOnlyItsKey(s: View<Doc>, key: string, m: Mutation, others: Interference, k: string)
    requires k != key && Spares(others, k)
    ensures var s' := Update(s, key, m, others).0;
            s' - (s'.Keys - {k}) == s - (s.Keys - {k})
  {
    var tries := AttemptsOn(key, m, others);
    forall i: nat, v: View<Doc> ensures tries(i, v).s - (tries(i, v).s.Keys - {k}) == v - (v.Keys - {k}) {
      AttemptTouchesOnlyItsKey(v, key, m, others, i, k);
    }
    LoopTouchesOnlyItsKey(tries, s, FIRST_ATTEMPT, k);
  }

  // ---------- the registry object ----------

  /** The caller's record; Register fills in its team and store name. */
  class AgentRecord {
    var name: string
    var registry: Option<RegistryRef>
    var body: string

    constructor (name: string, registry: Option<RegistryRef>, body: string)
      ensures this.name == name && this.registry == registry && this.body == body
    {
      this.name, this.registry, this.body := name, registry, body;
    }
  }

  predicate GivesTeam(ref: Option<RegistryRef>)
  {
    ref.Some? && ref.value.team != ""
  }

  predicate GivesResource(ref: Option<RegistryRef>)
  {
    ref.Some? && ref.value.resourceName != ""
  }

  /** The reference a record ends up with: the given one, its blanks filled in. */
  function Backfilled(ref: Option<RegistryRef>, storeName: string): RegistryRef
  {
    var team := if ref.Some? then ref.value.team else "";
    var resource := if ref.Some? then ref.value.resourceName else "";
    RegistryRef(EffectiveTeam(team), if resource == "" then storeName else resource)
  }

  class Registry {
    const store: MemoryStore<Doc>

    constructor (store: MemoryStore<Doc>)
      ensures this.store == store
    {
      this.store := store;
    }

    method LoadAt(key: string) returns (r: Result<(seq<string>, string), Error>)
      requires store.Valid()
      ensures r == LoadView(store.Contents(), key)
    {
      var value, tag := store.Get(key);
      match value
      case None => r := Ok(([], tag));
      case Some(Index(agents)) => r := Ok((agents, tag));
      case Some(Blank) => r := Ok(([], tag));
      case Some(_) => r := Err(UnreadableIndex);
    }

    method LoadIndex(team: string) returns (r: Result<(seq<string>, string), Error>)
      requires store.Valid()
      ensures r == LoadView(store.Contents(), IndexKey(team))
      ensures IndexKey(team) !in store.Contents() ==> r == Ok(([], ""))
      ensures IndexKey(team) in store.Contents() ==>
                var entry := store.Contents()[IndexKey(team)];
                match entry.value
                case Index(agents) => r == Ok((agents, EtagString(entry.version)))
                case Blank => r == Ok(([], EtagString(entry.version)))
                case _ => r == Err(UnreadableIndex)
    {
      r := LoadAt(IndexKey(team));
    }

    /** The loop of the mutate closures: find the name, then append it or cut it out. */
    static method Mutate(m: Mutation, list: seq<string>) returns (newList: seq<string>, changed: bool)
      ensures changed == Changes(m, list)
      ensures newList == Applied(m, list)
      ensures m.Add? ==> changed == (m.name !in list) && newList == if changed then list + [m.name] else list
      ensures m.Remove? && m.name !in list ==> !changed && newList == list
      ensures m.Remove? && m.name in list ==>
                changed && exists i :: FirstAt(list, m.name, i) && newList == list[..i] + list[i + 1..]
    {
      for i := 0 to |list|
        invariant m.name !in list[..i]
      {
        if list[i] == m.name {
          if m.Add? {
            return list, false;
          }
          RemoveFirstAt(list, i);
          assert FirstAt(list, m.name, i);
          return list[..i] + list[i + 1..], true;
        }
      }
      assert list[..|list|] == list;
      if m.Add? {
        return list + [m.name], true;
      }
      RemoveAbsent(list, m.name);
      return list, false;
    }

    /** The body of the retry loop: load, mutate, compare-and-set. */
    method TryUpdate(key: string, m: Mutation, others: Interference, attempt: nat, ghost tries: Attempts)
      returns (over: bool, err: Option<Error>)
      requires store.Valid() && AreAttempts(tries, key, m, others)
      modifies store
      ensures store.Valid()
      ensures tries(attempt, old(store.Contents())) ==
              if over then Over(store.Contents(), err) else Refused(store.Contents())
    {
      assert IsAttempt(tries, key, m, others, attempt, store.Contents());
      store.Interfere(others(2 * attempt, store.Contents()));
      var loaded := LoadAt(key);
      if loaded.Err? {
        return true, Some(loaded.error);
      }
      var (list, tag) := loaded.value;
      var newList, changed := Mutate(m, list);
      if !changed {
        return true, None;
      }
      store.Interfere(others(2 * attempt + 1, store.Contents()));
      over := store.Set(key, Index(newList), tag);
      err := None;
    }

    /** The retry loop, over attempts it knows nothing about but that TryUpdate carries them out. */
    method Retry(key: string, m: Mutation, others: Interference, ghost tries: Attempts) returns (err: Option<Error>)
      requires store.Valid() && AreAttempts(tries, key, m, others)
      modifies store
      ensures store.Valid()
      ensures (store.Contents(), err) == UpdateFrom(tries, old(store.Contents()), FIRST_ATTEMPT)
    {
      ghost var view := store.Contents();
      ghost var whole := UpdateFrom(tries, view, FIRST_ATTEMPT);
      var attempt := FIRST_ATTEMPT;
      while attempt <= MAX_ETAG_ATTEMPTS
        invariant 1 <= attempt <= MAX_ETAG_ATTEMPTS + 1
        invariant store.Valid() && store.Contents() == view
        invariant UpdateFrom(tries, view, attempt) == whole
      {
        var over, e := TryUpdate(key, m, others, attempt, tries);
        if over {
          return e;
        }
        view := store.Contents();
        attempt := attempt + 1;
      }
      return Some(RetriesExhausted);
    }

    method UpdateIndex(team: string, m: Mutation, others: Interference) returns (err: Option<Error>)
      requires store.Valid()
      modifies store
      ensures store.Valid()
      ensures (store.Contents(), err) == Update(old(store.Contents()), IndexKey(team), m, others)
    {
      ghost var tries := AttemptsOn(IndexKey(team), m, others);
      assert AreAttempts(tries, IndexKey(team), m, others);
      err := Retry(IndexKey(team), m, others, tries);
    }

    method Register(rec: AgentRecord, others: Interference) returns (err: Option<Error>)
      requires store.Valid()
      modifies store, rec
      ensures store.Valid()
      ensures rec.name == old(rec.name) && rec.body == old(rec.body)
      ensures rec.name == "" ==>
                && err == Some(NameRequired) && rec.registry == old(rec.registry)
                && store.Contents() == old(store.Contents())
      ensures rec.name != "" ==>
                var ref := Backfilled(old(rec.registry), store.name);
                var saved := Put(others(0, old(store.Contents())), AgentKey(ref.team, rec.name),
                                 Record(RecordDoc(rec.name, ref, rec.body)));
                && rec.registry == Some(ref)
                && ref.team == (if GivesTeam(old(rec.registry)) then old(rec.registry).value.team else "default")
                && ref.resourceName ==
                   (if GivesResource(old(rec.registry)) then old(rec.registry).value.resourceName else store.name)
                && (store.Contents(), err) == Update(saved, IndexKey(ref.team), Add(rec.name), others)
    {
      if rec.name == "" {
        return Some(NameRequired);
      }
      if rec.registry == None {
        rec.registry := Some(RegistryRef("", ""));
      }
      var team := EffectiveTeam(rec.registry.value.team);
      rec.registry := Some(rec.registry.value.(team := team));
      if rec.registry.value.resourceName == "" {
        rec.registry := Some(rec.registry.value.(resourceName := store.name));
      }
      store.Interfere(others(0, store.Contents()));
      var _ := store.Set(AgentKey(team, rec.name), Record(RecordDoc(rec.name, rec.registry.value, rec.body)), "");
      err := UpdateIndex(team, Add(rec.name), others);
    }

    method Deregister(team: string, name: string, others: Interference) returns (err: Option<Error>)
      requires store.Valid()
      modifies store
      ensures store.Valid()
      ensures (store.Contents(), err) ==
              Update(others(0, old(store.Contents())) - {AgentKey(team, name)}, IndexKey(team), Remove(name), others)
    {
      var t := EffectiveTeam(team);
      assert AgentKey(t, name) == AgentKey(team, name) && IndexKey(t) == IndexKey(team);
      store.Interfere(others(0, store.Contents()));
      store.Delete(AgentKey(t, name));
      err := UpdateIndex(t, Remove(name), others);
    }

    method List(team: string) returns (r: Result<seq<string>, Error>)
      requires store.Valid()
      ensures r == match LoadView(store.Contents(), IndexKey(team))
                   case Ok((list, _)) => Ok(list)
                   case Err(e) => Err(e)
      ensures IndexKey(team) !in store.Contents() ==> r == Ok([])
      ensures IndexKey(team) in store.Contents() && store.Contents()[IndexKey(team)].value.Index? ==>
                r == Ok(store.Contents()[IndexKey(team)].value.agents)
    {
      var loaded := LoadIndex(team);
      match loaded
      case Ok((list, _)) => r := Ok(list);
      case Err(e) => r := Err(e);
    }

    /** One agent's record: found with its content, absent, or present but not a record document. */
    method Get(team: string, name: string) returns (rec: Option<RecordDoc>, found: bool)
      requires store.Valid()
      ensures found == (AgentKey(team, name) in store.Contents())
      ensures found && store.Contents()[AgentKey(team, name)].value.Record? ==>
                rec == Some(store.Contents()[AgentKey(team, name)].value.rec)
      ensures found && !store.Contents()[AgentKey(team, name)].value.Record? ==> rec == None
      ensures !found ==> rec == None
    {
      var value, _ := store.Get(AgentKey(EffectiveTeam(team), name));
      match value
      case None => return None, false;
      case Some(Record(r)) => return Some(r), true;
      case Some(_) => return None, true;
    }
  }
}
