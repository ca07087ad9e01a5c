/**
  The versioned key-value store behind the agent registry (registry/store.go).

  A store is a map from keys to entries; an entry carries the number of times its key has been
  written. Every store call locks, so one call is one atomic step on that map.
 */
module StateStore {
  import opened Outcomes

  /** Version counters start at 1 with the first write; version 0 stands for a missing key. */
  type pos = n: nat | 0 < n witness 1

  datatype Entry<+V> = Entry(value: V, version: pos)

  type View<+V> = map<string, Entry<V>>

  // ---------- etags ----------

  function Digit(d: nat): char
    requires d < 10
  {
    "0123456789"[d]
  }

  function Decimal(v: nat): string
  {
    if v < 10 then [Digit(v)] else Decimal(v / 10) + [Digit(v % 10)]
  }

  /** The etag a version counter is rendered as; version 0 has no etag. */
  function EtagString(v: nat): string
  {
    if v == 0 then "" else Decimal(v)
  }

  lemma DecimalLength(v: nat)
    ensures 0 < |Decimal(v)|
    ensures |Decimal(v)| == 1 <==> v < 10
  {
    if 10 <= v {
      DecimalLength(v / 10);
    }
  }

  lemma {:induction false} DecimalInjective(a: nat, b: nat)
    requires Decimal(a) == Decimal(b)
    ensures a == b
    decreases a
  {
    DecimalLength(a);
    DecimalLength(b);
    var da, db := Decimal(a), Decimal(b);
    assert da[|da| - 1] == Digit(a % 10) && db[|db| - 1] == Digit(b % 10);
    if 10 <= a {
      assert da[..|da| - 1] == Decimal(a / 10);
      assert db[..|db| - 1] == Decimal(b / 10);
      DecimalInjective(a / 10, b / 10);
    }
  }

  /** The number a string of digits stands for. */
  function Read(s: string): nat
    requires forall i :: 0 <= i < |s| ==> '0' <= s[i] <= '9'
  {
    if s == [] then 0 else 10 * Read(s[..|s| - 1]) + (s[|s| - 1] as int - '0' as int)
  }

  lemma DigitReads(d: nat)
    requires d < 10
    ensures '0' <= Digit(d) <= '9' && Digit(d) as int - '0' as int == d
  {
    assert "0123456789"[0] == '0' && "0123456789"[1] == '1' && "0123456789"[2] == '2' && "0123456789"[3] == '3';
    assert "0123456789"[4] == '4' && "0123456789"[5] == '5' && "0123456789"[6] == '6' && "0123456789"[7] == '7';
    assert "0123456789"[8] == '8' && "0123456789"[9] == '9';
  }

  /** An etag is its version in decimal, without leading zeros. */
  lemma {:induction false} EtagIsDecimal(v: nat)
    requires v != 0
    ensures var s := EtagString(v);
            && (forall i :: 0 <= i < |s| ==> '0' <= s[i] <= '9')
            && Read(s) == v && s != "" && s[0] != '0'
  {
    if v < 10 {
      DigitReads(v);
      assert [Digit(v)][..0] == [];
    } else {
      EtagIsDecimal(v / 10);
      DigitReads(v % 10);
      var front := Decimal(v / 10);
      assert Decimal(v)[..|Decimal(v)| - 1] == front;
    }
  }

  /** A matching etag means a matching version: two versions share an etag only if they are equal. */
  lemma EtagInjective(a: nat, b: nat)
    ensures EtagString(a) == EtagString(b) <==> a == b
    ensures EtagString(a) == "" <==> a == 0
  {
    DecimalLength(a);
    DecimalLength(b);
    if EtagString(a) == EtagString(b) && a != 0 && b != 0 {
      DecimalInjective(a, b);
    }
  }

  // ---------- the three store calls, on views ----------

  function VersionOf<V>(s: View<V>, key: string): nat
  {
    if key in s then s[key].version else 0
  }

  function Put<V>(s: View<V>, key: string, value: V): View<V>
  {
    s[key := Entry(value, VersionOf(s, key) + 1)]
  }

  /** Compare-and-set: an empty etag writes unconditionally, any other must match the stored version. */
  function TrySet<V>(s: View<V>, key: string, value: V, etag: string): (View<V>, bool)
  {
    if etag != "" && EtagString(VersionOf(s, key)) != etag then (s, false)
    else (Put(s, key, value), true)
  }

  /** What a compare-and-set leaves behind: the value at its key and nothing else, or nothing at all. */
  lemma TrySetWrites<V>(s: View<V>, key: string, value: V, etag: string)
    ensures var (s', stored) := TrySet(s, key, value, etag);
            && (stored <==> etag == "" || etag == EtagString(if key in s then s[key].version else 0))
            && (stored ==> key in s' && s'[key].value == value && s' - {key} == s - {key})
            && (!stored ==> s' == s)
  {
  }

  /** A compare-and-set carrying the etag of version v succeeds exactly when v is 0 or still current. */
  lemma TrySetSucceedsIffCurrent<V>(s: View<V>, key: string, value: V, v: nat)
    ensures TrySet(s, key, value, EtagString(v)).1 <==> v == 0 || v == VersionOf(s, key)
    ensures VersionOf(TrySet(s, key, value, EtagString(v)).0, key) ==
            VersionOf(s, key) + if TrySet(s, key, value, EtagString(v)).1 then 1 else 0
  {
    EtagInjective(v, VersionOf(s, key));
  }

  // ---------- the store object ----------

  /** The in-process store: two maps kept in step, one for values and one for version counters. */
  class MemoryStore<V> {
    const name: string
    var data: map<string, V>
    var etag: map<string, int>

    ghost predicate Valid()
      reads this
    {
      data.Keys == etag.Keys && forall k :: k in etag ==> 0 < etag[k]
    }

    function Contents(): View<V>
      requires Valid()
      reads this
    {
      map k | k in data :: Entry(data[k], etag[k])
    }

    constructor (name: string)
      ensures Valid() && Contents() == map[]
      ensures this.name == if name == "" then "memory" else name
    {
      this.name := if name == "" then "memory" else name;
      data := map[];
      etag := map[];
    }

    method Get(key: string) returns (value: Option<V>, tag: string)
      requires Valid()
      ensures key in Contents() ==> value == Some(Contents()[key].value)
      ensures key !in Contents() ==> value == None
      ensures tag == EtagString(VersionOf(Contents(), key))
    {
      if key !in data {
        return None, "";
      }
      return Some(data[key]), EtagString(etag[key]);
    }

    method Set(key: string, value: V, tag: string) returns (stored: bool)
      requires Valid()
      modifies this
      ensures Valid()
      ensures (Contents(), stored) == TrySet(old(Contents()), key, value, tag)
      ensures stored ==> key in Contents() && Contents()[key].value == value
      ensures Contents() - {key} == old(Contents()) - {key}
      ensures !stored ==> Contents() == old(Contents())
    {
      var version := if key in etag then etag[key] else 0;
      if tag != "" && EtagString(version) != tag {
        return false;
      }
      data := data[key := value];
      etag := etag[key := version + 1];
      assert Contents() == Put(old(Contents()), key, value);
      return true;
    }

    method Delete(key: string)
      requires Valid()
      modifies this
      ensures Valid()
      ensures Contents() == old(Contents()) - {key}
    {
      data := data - {key};
      etag := etag - {key};
    }

    /** What other clients' calls did to the store between two calls of ours. */
    method Interfere(next: View<V>)
      modifies this
      ensures Valid() && Contents() == next
    {
      data := map k | k in next :: next[k].value;
      etag := map k | k in next :: next[k].version;
    }
  }
}
