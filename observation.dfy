/** The registrar-level vocabulary of the observation runtime: property keys,
    onChange closures as opaque ids, the registrar's key-to-closure table and
    the two table operations behind `access` and `withMutation`. */
module Observation {

  /** The two stored properties of a Suspect; they stand for the key paths
      `\.name` and `\.suspiciousness`. */
  datatype Key = Name | Suspiciousness

  /** An onChange closure, known only by its identity. */
  type CallbackId = nat

  datatype Option<T> = None | Some(value: T)

  /** The registrar's `registry`: for each key, the closure that fires on its next mutation. */
  type Table = map<Key, CallbackId>

  /** `t` and `u` agree on key `k`: both lack it, or both map it to the same closure. */
  predicate Same(t: Table, u: Table, k: Key)
  {
    (k in t <==> k in u) && (k in t ==> t[k] == u[k])
  }

  /** The effect of `ObservationRegistrar.access` on the table: with no closure
      installed nothing is recorded; otherwise the installed closure is recorded
      under the key read, replacing any earlier entry for that key. */
  function Access(table: Table, installed: Option<CallbackId>, k: Key): (r: Table)
    ensures installed == None ==> r == table
    ensures installed.Some? ==> k in r && r[k] == installed.value
    ensures forall j :: j != k ==> Same(table, r, j)
  {
    match installed
    case None => table
    case Some(c) => table[k := c]
  }

  /** The table after reading `keys` in order with the same closure installed:
      every key read now maps to that closure, and every other key is as before. */
  function AccessAll(table: Table, installed: Option<CallbackId>, keys: seq<Key>): (r: Table)
    ensures installed == None ==> r == table
    ensures installed.Some? ==> forall k :: k in keys ==> k in r && r[k] == installed.value
    ensures forall j :: j !in keys ==> Same(table, r, j)
    decreases |keys|
  {
    if keys == [] then table
    else
      var next := Access(table, installed, keys[0]);
      var r := AccessAll(next, installed, keys[1..]);
      assert forall j :: j !in keys ==> j != keys[0] && j !in keys[1..] && Same(next, r, j);
      r
  }

  /** The `registry.removeValue(forKey:)` at the head of `withMutation`: the
      closure pending under `k`, if there is one, and the table without it. */
  function Take(table: Table, k: Key): (r: (Table, Option<CallbackId>))
    ensures k !in r.0
    ensures r.1.Some? <==> k in table
    ensures r.1.Some? ==> r.1.value == table[k]
    ensures forall j :: j != k ==> Same(table, r.0, j)
  {
    if k in table then (table - {k}, Some(table[k])) else (table, None)
  }

  /** Taking a key twice with nothing in between yields nothing the second time. */
  lemma TakeIsOneShot(table: Table, k: Key)
    ensures Take(Take(table, k).0, k) == (Take(table, k).0, None)
  {
  }

  /** A Suspect's stored fields `_name` and `_suspiciousness`. */
  datatype Fields = Fields(name: string, suspiciousness: int)

  /** A value a getter returns. */
  datatype Value = Text(text: string) | Number(number: int)

  /** The stored field behind key `k`. */
  function Stored(f: Fields, k: Key): Value
  {
    match k
    case Name => Text(f.name)
    case Suspiciousness => Number(f.suspiciousness)
  }

  /** The mutation closure a setter hands to `withMutation`: one field assignment. */
  datatype Assignment = AssignName(name: string) | AssignSuspiciousness(suspiciousness: int)
  {
    /** The key whose stored field the assignment writes. */
    function Target(): Key
    {
      match this
      case AssignName(_) => Name
      case AssignSuspiciousness(_) => Suspiciousness
    }

    /** The value the assignment writes. */
    function Written(): Value
    {
      match this
      case AssignName(s) => Text(s)
      case AssignSuspiciousness(n) => Number(n)
    }
  }

  /** Running the mutation closure: the target field holds the written value,
      the other field is unchanged. */
  function Apply(f: Fields, m: Assignment): (r: Fields)
    ensures Stored(r, m.Target()) == m.Written()
    ensures forall k :: k != m.Target() ==> Stored(r, k) == Stored(f, k)
  {
    match m
    case AssignName(s) => f.(name := s)
    case AssignSuspiciousness(n) => f.(suspiciousness := n)
  }

  /** One call of an onChange closure: which closure, on behalf of which
      subject and key, and the subject's stored fields at the moment it ran. */
  datatype Firing = Firing(callback: CallbackId, subject: nat, key: Key, seen: Fields)

  /** What calling the closure taken by `Take` adds to the firing log: one
      firing when a closure was pending, none otherwise. */
  function Fire(taken: Option<CallbackId>, subject: nat, k: Key, seen: Fields): (r: seq<Firing>)
    ensures |r| <= 1
    ensures |r| == 1 <==> taken.Some?
    ensures |r| == 1 ==> r[0] == Firing(taken.value, subject, k, seen)
  {
    match taken
    case None => []
    case Some(c) => [Firing(c, subject, k, seen)]
  }
}
