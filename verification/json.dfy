/**
  The key/value document a plugin record is stored in.

  Android's `org.json.JSONObject` keeps its members in insertion order: putting
  an existing key replaces the value where it stands, putting a new key appends
  it, removing a key drops it. A document is therefore an ordered list of
  members; lookups read the first member with the key, and every operation
  here keeps keys distinct when they were distinct before.
*/
module Json {
  import opened Wrappers

  /** A JSON value. Arrays and floating-point numbers are not part of this model. */
  datatype Value =
    | Null
    | Bool(b: bool)
    | Num(n: int)
    | Str(s: string)
    | Obj(members: Doc)

  datatype Member = Member(key: string, value: Value)

  /** A JSON object: its members in order. */
  type Doc = seq<Member>

  /** The keys a document holds. */
  function Keys(d: Doc): set<string>
  {
    if |d| == 0 then {} else {d[0].key} + Keys(d[1..])
  }

  /** No key occurs twice, as in a hash-map-backed object. */
  predicate DistinctKeys(d: Doc)
  {
    |d| == 0 || (d[0].key !in Keys(d[1..]) && DistinctKeys(d[1..]))
  }

  /** `JSONObject.has`. */
  predicate Has(d: Doc, k: string)
  {
    k in Keys(d)
  }

  /** `JSONObject.opt`: the value stored under `k`, `None` when the key is absent. */
  function Get(d: Doc, k: string): (r: Option<Value>)
    ensures r.Some? <==> Has(d, k)
    ensures r.Some? ==> Member(k, r.value) in d
  {
    if |d| == 0 then None
    else if d[0].key == k then Some(d[0].value)
    else Get(d[1..], k)
  }

  /** `JSONObject.put`: binds `k` to `v`, in place when `k` is present, appended otherwise. */
  function Put(d: Doc, k: string, v: Value): (r: Doc)
    ensures Get(r, k) == Some(v)
    ensures forall k' :: k' != k ==> Get(r, k') == Get(d, k')
    ensures Keys(r) == Keys(d) + {k}
    ensures Has(d, k) ==> |r| == |d|
    ensures !Has(d, k) ==> r == d + [Member(k, v)]
    ensures DistinctKeys(d) ==> DistinctKeys(r)
    ensures MembersWellFormed(d) && WellFormed(v) ==> MembersWellFormed(r)
  {
    if |d| == 0 then [Member(k, v)]
    else
      ConsFacts(d[0], d[1..]);
      SplitFirst(d);
      if d[0].key == k then
        ConsFacts(Member(k, v), d[1..]);
        [Member(k, v)] + d[1..]
      else
        var tail := Put(d[1..], k, v);
        ConsFacts(d[0], tail);
        ConsAppend(d, Member(k, v));
        [d[0]] + tail
  }

  /** `JSONObject.remove`: drops `k`; the document is unchanged when `k` is absent. */
  function Remove(d: Doc, k: string): (r: Doc)
    ensures Get(r, k) == None
    ensures forall k' :: k' != k ==> Get(r, k') == Get(d, k')
    ensures Keys(r) == Keys(d) - {k}
    ensures !Has(d, k) ==> r == d
    ensures DistinctKeys(d) ==> DistinctKeys(r)
    ensures MembersWellFormed(d) ==> MembersWellFormed(r)
  {
    if |d| == 0 then []
    else
      var tail := Remove(d[1..], k);
      ConsFacts(d[0], d[1..]);
      SplitFirst(d);
      if d[0].key == k then tail
      else
        ConsFacts(d[0], tail);
        [d[0]] + tail
  }

  /** What a document with `m` in front holds, in terms of the rest. */
  lemma ConsFacts(m: Member, d: Doc)
    ensures ([m] + d)[0] == m && ([m] + d)[1..] == d
    ensures Keys([m] + d) == {m.key} + Keys(d)
    ensures forall k :: Get([m] + d, k) == if m.key == k then Some(m.value) else Get(d, k)
    ensures DistinctKeys([m] + d) <==> m.key !in Keys(d) && DistinctKeys(d)
    ensures MembersWellFormed([m] + d) <==> WellFormed(m.value) && MembersWellFormed(d)
  {
    assert ([m] + d)[1..] == d;
  }

  lemma SplitFirst(d: Doc)
    requires |d| > 0
    ensures d == [d[0]] + d[1..]
  {
  }

  lemma ConsAppend(d: Doc, m: Member)
    requires |d| > 0
    ensures [d[0]] + (d[1..] + [m]) == d + [m]
  {
  }

  /** Every object at every depth has distinct keys. */
  predicate WellFormed(v: Value)
    decreases v
  {
    match v
    case Obj(ms) => DistinctKeys(ms) && MembersWellFormed(ms)
    case _ => true
  }

  /** A document whose keys are distinct at every depth. */
  predicate WellFormedDoc(d: Doc)
  {
    WellFormed(Obj(d))
  }

  predicate MembersWellFormed(d: Doc)
    decreases d
  {
    |d| == 0 || (WellFormed(d[0].value) && MembersWellFormed(d[1..]))
  }

  lemma {:induction false} KeysAppend(a: Doc, b: Doc)
    ensures Keys(a + b) == Keys(a) + Keys(b)
  {
    if |a| > 0 {
      assert (a + b)[1..] == a[1..] + b;
      KeysAppend(a[1..], b);
    } else {
      assert a + b == b;
    }
  }

  /** Two documents can be concatenated without a repeated key exactly when each has distinct keys and they share none. */
  lemma {:induction false} DistinctKeysAppend(a: Doc, b: Doc)
    ensures DistinctKeys(a + b) <==> DistinctKeys(a) && DistinctKeys(b) && Keys(a) !! Keys(b)
  {
    if |a| > 0 {
      assert (a + b)[1..] == a[1..] + b;
      DistinctKeysAppend(a[1..], b);
      KeysAppend(a[1..], b);
    } else {
      assert a + b == b;
    }
  }

  lemma {:induction false} MembersWellFormedAppend(a: Doc, b: Doc)
    ensures MembersWellFormed(a + b) <==> MembersWellFormed(a) && MembersWellFormed(b)
  {
    if |a| > 0 {
      assert (a + b)[1..] == a[1..] + b;
      MembersWellFormedAppend(a[1..], b);
    } else {
      assert a + b == b;
    }
  }

  /** Putting the value a key already has changes nothing. */
  lemma {:induction false} PutPresent(d: Doc, k: string, v: Value)
    requires Get(d, k) == Some(v)
    ensures Put(d, k, v) == d
  {
    if d[0].key != k {
      PutPresent(d[1..], k, v);
      assert [d[0]] + d[1..] == d;
    } else {
      assert [Member(k, v)] + d[1..] == d;
    }
  }
}
