/** The JavaScript values that `JSON.parse` produces, and the few
    JavaScript operations the CLI applies to them: property access,
    truthiness and `||`. */
module Json {
  import opened Results

  /** A parsed JSON value. An object keeps its members in source order, as
      JavaScript objects keep string keys; a repeated key is allowed. */
  datatype Json =
    | JNull
    | JBool(b: bool)
    | JNum(n: real)
    | JStr(s: string)
    | JArr(items: seq<Json>)
    | JObj(members: seq<(string, Json)>)

  /** The value of the last member named `key` (JSON.parse lets a later
      member overwrite an earlier one), or None (undefined). */
  function Lookup(members: seq<(string, Json)>, key: string): (v: Option<Json>)
    ensures v.Some? <==> exists i :: 0 <= i < |members| && members[i].0 == key
  {
    if members == [] then None
    else if members[|members| - 1].0 == key then Some(members[|members| - 1].1)
    else Lookup(members[..|members| - 1], key)
  }

  /** `v[key]` for a value that is not null: an object's own member, and
      undefined for every other kind of value. */
  function Get(v: Json, key: string): (r: Option<Json>)
    requires !v.JNull?
    ensures r.Some? ==> v.JObj?
  {
    if v.JObj? then Lookup(v.members, key) else None
  }

  /** JavaScript truthiness; None is undefined. */
  predicate Truthy(v: Option<Json>)
  {
    match v
    case None => false
    case Some(JNull) => false
    case Some(JBool(b)) => b
    case Some(JNum(n)) => n != 0.0
    case Some(JStr(s)) => s != ""
    case Some(_) => true
  }

  /** JavaScript `a || b`. */
  function Or(a: Option<Json>, b: Option<Json>): Option<Json>
  {
    if Truthy(a) then a else b
  }

  /** The object literal `{ k1: v1, ... }`, with distinct keys, as
      JSON.stringify sees it: a property whose value is undefined is left
      out. */
  function ObjectOf(props: seq<(string, Option<Json>)>): (r: Json)
    ensures r.JObj?
  {
    if props == [] then JObj([])
    else
      var front := ObjectOf(props[..|props| - 1]);
      var (k, v) := props[|props| - 1];
      match v
      case None => front
      case Some(j) => JObj(front.members + [(k, j)])
  }

  /** Member `key` of an object literal is the value given for its last
      occurrence, and undefined when it is not given or given as undefined. */
  lemma {:induction false} LookupObjectOf(props: seq<(string, Option<Json>)>, key: string)
    ensures Lookup(ObjectOf(props).members, key) == LastValue(props, key)
  {
    if props != [] {
      var front := props[..|props| - 1];
      LookupObjectOf(front, key);
      var (k, v) := props[|props| - 1];
      if v.Some? {
        var ms := ObjectOf(front).members + [(k, v.value)];
        assert ms[..|ms| - 1] == ObjectOf(front).members;
      }
    }
  }

  /** The value given for the last occurrence of `key`, when it is defined. */
  function LastValue(props: seq<(string, Option<Json>)>, key: string): Option<Json>
  {
    if props == [] then None
    else if props[|props| - 1].0 == key && props[|props| - 1].1.Some? then props[|props| - 1].1
    else LastValue(props[..|props| - 1], key)
  }

  /** The value given for a key that occurs once is that occurrence's. */
  lemma {:induction false} LastValueAt(props: seq<(string, Option<Json>)>, i: nat, key: string)
    requires i < |props| && props[i].0 == key
    requires forall j :: 0 <= j < |props| && j != i ==> props[j].0 != key
    ensures LastValue(props, key) == props[i].1
  {
    if i < |props| - 1 {
      LastValueAt(props[..|props| - 1], i, key);
    } else if props[i].1.None? {
      LastValueAbsent(props[..|props| - 1], key);
    }
  }

  /** A key that is not given has no value. */
  lemma {:induction false} LastValueAbsent(props: seq<(string, Option<Json>)>, key: string)
    requires forall j :: 0 <= j < |props| ==> props[j].0 != key
    ensures LastValue(props, key) == None
  {
    if props != [] {
      LastValueAbsent(props[..|props| - 1], key);
    }
  }
}
