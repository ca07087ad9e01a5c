/**
  Channel values and their JSON form (agent/state.go).

  In process a channel may hold Go values that JSON cannot tell apart: a nil slice of any is not nil
  but encodes as null, and a []string is not a []any but encodes as the same array. Encode is the
  effect of one encode/decode trip, which is what every activity boundary of a durable run does.
 */
module Values {
  /**
    The types JSON decodes into, the nil slice of any, and every other serializable Go value: a typed
    slice, map, struct, number or nil pointer, known by its Go type and by what it encodes as.
   */
  datatype Value =
    | Null
    | Bool(b: bool)
    | Num(n: int)
    | Str(s: string)
    | List(items: seq<Value>)
    | Object(fields: map<string, Value>)
    | NilList
    | Native(goType: string, json: Value)

  function Encode(v: Value): Value
  {
    match v
    case List(items) => List(seq(|items|, i requires 0 <= i < |items| => Encode(items[i])))
    case Object(fields) => Object(map k | k in fields :: Encode(fields[k]))
    case NilList => Null
    case Native(_, json) => Encode(json)
    case _ => v
  }

  /** Values JSON gives back as they were. */
  predicate JsonNormal(v: Value)
  {
    match v
    case List(items) => forall i :: 0 <= i < |items| ==> JsonNormal(items[i])
    case Object(fields) => forall k :: k in fields ==> JsonNormal(fields[k])
    case NilList => false
    case Native(_, _) => false
    case _ => true
  }

  lemma {:induction false} EncodeIsNormal(v: Value)
    ensures JsonNormal(Encode(v))
  {
    match v
    case List(items) => forall i | 0 <= i < |items| { EncodeIsNormal(items[i]); }
    case Object(fields) => forall k | k in fields { EncodeIsNormal(fields[k]); }
    case Native(_, json) => EncodeIsNormal(json);
    case _ =>
  }

  lemma {:induction false} NormalIsFixed(v: Value)
    requires JsonNormal(v)
    ensures Encode(v) == v
  {
    match v
    case List(items) => forall i | 0 <= i < |items| { NormalIsFixed(items[i]); }
    case Object(fields) => forall k | k in fields { NormalIsFixed(fields[k]); }
    case _ =>
  }

  /** The normal values are exactly those the JSON trip leaves unchanged. */
  lemma NormalIffFixed(v: Value)
    ensures JsonNormal(v) <==> Encode(v) == v
  {
    EncodeIsNormal(v);
    if JsonNormal(v) {
      NormalIsFixed(v);
    }
  }

  lemma EncodeTwice(v: Value)
    ensures Encode(Encode(v)) == Encode(v)
  {
    EncodeIsNormal(v);
    NormalIffFixed(Encode(v));
  }

  // ---------- AppendReducer ----------

  /** The elements a value contributes to an accumulating channel. */
  function AsList(v: Value): seq<Value>
  {
    match v
    case Null => []
    case NilList => []
    case List(items) => items
    case _ => [v]
  }

  /** The slice that holds some elements; appending nothing to nothing leaves Go's nil slice. */
  function Slice(items: seq<Value>): Value
  {
    if items == [] then NilList else List(items)
  }

  /** Appends update to existing. */
  function AppendReducer(existing: Value, update: Value): Value
  {
    var head := if existing == Null then []
                else if existing.List? then existing.items
                else if existing == NilList then []
                else [existing];
    var out := if update.List? then head + update.items
               else if update == NilList then head
               else if update != Null then head + [update]
               else head;
    Slice(out)
  }

  lemma AppendByLists(a: Value, b: Value)
    ensures AppendReducer(a, b) == Slice(AsList(a) + AsList(b))
  {
    assert AsList(a) + [] == AsList(a);
  }

  lemma AppendConcatenates(a: Value, b: Value)
    ensures AsList(AppendReducer(a, b)) == AsList(a) + AsList(b)
    ensures AppendReducer(a, b) == NilList <==> AsList(a) + AsList(b) == []
  {
    AppendByLists(a, b);
  }

  lemma SameListsSameAppend(a: Value, b: Value, c: Value, ab: Value, bc: Value)
    requires AsList(ab) == AsList(a) + AsList(b) && AsList(bc) == AsList(b) + AsList(c)
    ensures AppendReducer(ab, c) == AppendReducer(a, bc)
  {
    AppendByLists(ab, c);
    AppendByLists(a, bc);
    assert AsList(a) + AsList(b) + AsList(c) == AsList(a) + (AsList(b) + AsList(c));
  }

  lemma NullIsUnit(a: Value)
    ensures AsList(AppendReducer(Null, a)) == AsList(AppendReducer(a, Null)) == AsList(a)
  {
    AppendConcatenates(Null, a);
    AppendConcatenates(a, Null);
    assert [] + AsList(a) == AsList(a) == AsList(a) + [];
  }

  /** Under the list view AppendReducer is concatenation, hence associative with null as its unit. */
  lemma AppendIsConcatenation(a: Value, b: Value, c: Value)
    ensures AsList(AppendReducer(a, b)) == AsList(a) + AsList(b)
    ensures AppendReducer(AppendReducer(a, b), c) == AppendReducer(a, AppendReducer(b, c))
    ensures AsList(AppendReducer(Null, a)) == AsList(AppendReducer(a, Null)) == AsList(a)
    ensures AppendReducer(a, b) == NilList <==> AsList(a) + AsList(b) == []
  {
    AppendConcatenates(a, b);
    AppendConcatenates(b, c);
    SameListsSameAppend(a, b, c, AppendReducer(a, b), AppendReducer(b, c));
    NullIsUnit(a);
  }

  // ---------- appending and JSON ----------

  function EncodeAll(vs: seq<Value>): seq<Value>
  {
    seq(|vs|, i requires 0 <= i < |vs| => Encode(vs[i]))
  }

  /** What a slice of elements encodes as. */
  function JsonSlice(items: seq<Value>): Value
  {
    if items == [] then Null else List(items)
  }

  /** Not a native value that encodes as an array or as null. */
  predicate Steady(v: Value)
  {
    v.Native? ==> !Encode(v).List? && Encode(v) != Null
  }

  /** A native value of which JSON leaves nothing: it encodes as null or as the empty array. */
  predicate Blank(v: Value)
  {
    v.Native? && (Encode(v) == Null || Encode(v) == List([]))
  }

  lemma NoListHoldsItself(items: seq<Value>, i: nat)
    requires i < |items|
    ensures items[i] != List(items)
  {
    var v := List(items);
    assert v.items[i] < v;
  }

  /** The steady values are exactly those that contribute the same elements before and after the JSON trip. */
  lemma SteadyIffSameList(v: Value)
    ensures Steady(v) <==> EncodeAll(AsList(v)) == AsList(Encode(v))
    ensures !Steady(v) ==> EncodeAll(AsList(v)) == [Encode(v)]
  {
    if v.Native? {
      EncodeIsNormal(v);
      assert EncodeAll([v]) == [Encode(v)];
      if Encode(v).List? && |Encode(v).items| == 1 {
        NoListHoldsItself(Encode(v).items, 0);
        assert [Encode(v)][0] == Encode(v);
      }
    }
  }

  lemma EncodeAllConcat(a: seq<Value>, b: seq<Value>)
    ensures EncodeAll(a + b) == EncodeAll(a) + EncodeAll(b)
    ensures Encode(Slice(a + b)) == JsonSlice(EncodeAll(a) + EncodeAll(b))
  {
    assert forall i :: 0 <= i < |a + b| ==> EncodeAll(a + b)[i] == (EncodeAll(a) + EncodeAll(b))[i];
  }

  lemma AppendEncoded(e: Value, u: Value)
    ensures Encode(AppendReducer(e, u)) == JsonSlice(EncodeAll(AsList(e)) + EncodeAll(AsList(u)))
  {
    AppendByLists(e, u);
    EncodeAllConcat(AsList(e), AsList(u));
  }

  /** The elements of an encoded value are already encoded. */
  lemma EncodedElementsFixed(v: Value)
    ensures EncodeAll(AsList(Encode(v))) == AsList(Encode(v))
  {
    EncodeIsNormal(v);
    var items := AsList(Encode(v));
    forall i | 0 <= i < |items| ensures Encode(items[i]) == items[i] {
      NormalIffFixed(items[i]);
    }
  }

  lemma FirstUnsteadyShows(a: Value, b: Value)
    requires !Steady(a)
    ensures EncodeAll(AsList(a)) + EncodeAll(AsList(b)) != AsList(Encode(a)) + AsList(Encode(b))
  {
    SteadyIffSameList(a);
    SteadyIffSameList(b);
    var x, y := EncodeAll(AsList(a)), EncodeAll(AsList(b));
    var x', y' := AsList(Encode(a)), AsList(Encode(b));
    if x' != [] {
      NoListHoldsItself(x', 0);
      assert (x + y)[0] == List(x') != (x' + y')[0];
    } else if Steady(b) || |y'| != 2 {
      assert |x + y| != |x' + y'|;
    } else {
      NoListHoldsItself(y', 1);
      assert (x + y)[1] == List(y') != (x' + y')[1];
    }
  }

  lemma SecondUnsteadyShows(a: Value, b: Value)
    requires Steady(a) && !Steady(b)
    ensures EncodeAll(AsList(a)) + EncodeAll(AsList(b)) != AsList(Encode(a)) + AsList(Encode(b))
  {
    SteadyIffSameList(a);
    SteadyIffSameList(b);
    var x, y, y' := EncodeAll(AsList(a)), EncodeAll(AsList(b)), AsList(Encode(b));
    if |y'| != 1 {
      assert |x + y| != |x + y'|;
    } else {
      NoListHoldsItself(y', 0);
      assert (x + y)[|x|] == List(y') != (x + y')[|x|];
    }
  }

  /** Two unsteady contributions never make up for each other. */
  lemma UnsteadyShows(a: Value, b: Value)
    ensures EncodeAll(AsList(a)) + EncodeAll(AsList(b)) == AsList(Encode(a)) + AsList(Encode(b))
            <==> Steady(a) && Steady(b)
  {
    SteadyIffSameList(a);
    SteadyIffSameList(b);
    if !Steady(a) {
      FirstUnsteadyShows(a, b);
    } else if !Steady(b) {
      SecondUnsteadyShows(a, b);
    }
  }

  /**
    Appending commutes with the JSON trip exactly if both operands are steady: appending in process
    and then encoding, or encoding first and then appending, give the same JSON.
   */
  lemma AppendCommutesIffSteady(e: Value, u: Value)
    ensures Encode(AppendReducer(e, u)) == Encode(AppendReducer(Encode(e), Encode(u))) <==> Steady(e) && Steady(u)
  {
    AppendEncoded(e, u);
    AppendEncoded(Encode(e), Encode(u));
    EncodedElementsFixed(e);
    EncodedElementsFixed(u);
    UnsteadyShows(e, u);
  }

  /** On steady operands the JSON of an append depends only on the JSON of its operands. */
  lemma AppendRespectsEncoding(e: Value, u: Value, e': Value, u': Value)
    requires Steady(e) && Steady(u) && Steady(e') && Steady(u')
    requires Encode(e) == Encode(e') && Encode(u) == Encode(u')
    ensures Encode(AppendReducer(e, u)) == Encode(AppendReducer(e', u'))
    ensures Steady(AppendReducer(e, u))
  {
    AppendCommutesIffSteady(e, u);
    AppendCommutesIffSteady(e', u');
  }
}
