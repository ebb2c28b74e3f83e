/** The whole runtime as a state machine over values: the global onChange
    slot, every Suspect's fields and registrar table, and the log of closure
    calls. Runs of tracking calls, reads and writes are what the lemmas here
    are about. */
module Traces {
  import opened Observation

  /** One Suspect and its registrar. */
  datatype Observed = Observed(fields: Fields, registry: Table)

  /** The runtime: the global `ON_CHANGE_CLOSURE`, the Suspects by index, and
      the closure calls so far. */
  datatype World = World(installed: Option<CallbackId>, suspects: seq<Observed>, fired: seq<Firing>)

  /** A getter call on one Suspect. */
  datatype Read = Read(subject: nat, key: Key)

  /** A step of the program: a tracking call whose probe performs the given
      reads, a read outside tracking, or a setter call. */
  datatype Op =
    | Track(onChange: CallbackId, probe: seq<Read>)
    | Get(read: Read)
    | Set(subject: nat, mutation: Assignment)

  /** The Suspects `op` touches all exist. */
  predicate Fits(n: nat, op: Op)
  {
    match op
    case Track(_, probe) => forall r :: r in probe ==> r.subject < n
    case Get(r) => r.subject < n
    case Set(i, _) => i < n
  }

  predicate AllFit(n: nat, ops: seq<Op>)
  {
    forall op :: op in ops ==> Fits(n, op)
  }

  /** A getter: the registrar of that Suspect records the installed closure
      under the key; nothing else changes. */
  function ReadOne(w: World, r: Read): (w': World)
    requires r.subject < |w.suspects|
    ensures w'.installed == w.installed && w'.fired == w.fired && |w'.suspects| == |w.suspects|
    ensures w'.suspects[r.subject]
         == w.suspects[r.subject].(registry := Access(w.suspects[r.subject].registry, w.installed, r.key))
    ensures forall j :: 0 <= j < |w.suspects| && j != r.subject ==> w'.suspects[j] == w.suspects[j]
  {
    var o := w.suspects[r.subject];
    w.(suspects := w.suspects[r.subject := o.(registry := Access(o.registry, w.installed, r.key))])
  }

  /** The probe: its reads, in order. */
  function Probe(w: World, probe: seq<Read>): (w': World)
    requires forall r :: r in probe ==> r.subject < |w.suspects|
    ensures w'.installed == w.installed && w'.fired == w.fired && |w'.suspects| == |w.suspects|
    decreases |probe|
  {
    if probe == [] then w
    else Probe(ReadOne(w, probe[0]), probe[1..])
  }

  /** A setter: `withMutation` takes the closure pending under the target key
      and calls it while the fields still hold their old values, then stores
      the new value. */
  function Mutate(w: World, i: nat, m: Assignment): (w': World)
    requires i < |w.suspects|
    ensures w'.installed == w.installed && |w'.suspects| == |w.suspects|
    ensures |w.fired| <= |w'.fired| <= |w.fired| + 1 && w'.fired[..|w.fired|] == w.fired
    ensures |w'.fired| == |w.fired| + 1 <==> m.Target() in w.suspects[i].registry
    ensures |w'.fired| == |w.fired| + 1 ==>
              w'.fired[|w.fired|] == Firing(w.suspects[i].registry[m.Target()], i, m.Target(), w.suspects[i].fields)
    ensures w'.suspects[i].fields == Apply(w.suspects[i].fields, m)
    ensures m.Target() !in w'.suspects[i].registry
    ensures forall k :: k != m.Target() ==> Same(w.suspects[i].registry, w'.suspects[i].registry, k)
    ensures forall j :: 0 <= j < |w.suspects| && j != i ==> w'.suspects[j] == w.suspects[j]
  {
    var o := w.suspects[i];
    var (rest, taken) := Take(o.registry, m.Target());
    w.(suspects := w.suspects[i := Observed(Apply(o.fields, m), rest)],
       fired := w.fired + Fire(taken, i, m.Target(), o.fields))
  }

  function Step(w: World, op: Op): (w': World)
    requires Fits(|w.suspects|, op)
    ensures |w'.suspects| == |w.suspects|
  {
    match op
    case Track(c, probe) => Probe(w.(installed := Some(c)), probe)
    case Get(r) => ReadOne(w, r)
    case Set(i, m) => Mutate(w, i, m)
  }

  function Run(w: World, ops: seq<Op>): (w': World)
    requires AllFit(|w.suspects|, ops)
    ensures |w'.suspects| == |w.suspects|
    decreases |ops|
  {
    if ops == [] then w
    else Run(Step(w, ops[0]), ops[1..])
  }

  /** Running `a` then `b` is running `a + b`. */
  lemma {:induction false} RunAppend(w: World, a: seq<Op>, b: seq<Op>)
    requires AllFit(|w.suspects|, a + b)
    ensures AllFit(|w.suspects|, a) && AllFit(|w.suspects|, b)
    ensures Run(w, a + b) == Run(Run(w, a), b)
    decreases |a|
  {
    assert forall op :: op in a ==> op in a + b;
    assert forall op :: op in b ==> op in a + b;
    if a != [] {
      assert (a + b)[0] == a[0] && (a + b)[1..] == a[1..] + b;
      assert forall op :: op in a[1..] + b ==> op in a + b;
      var w1 := Step(w, a[0]);
      RunAppend(w1, a[1..], b);
      assert Run(w, a + b) == Run(w1, a[1..] + b);
    } else {
      assert a + b == b;
    }
  }

  // ---------------------------------------------------------------------------
  // The probe registers exactly the keys it reads.

  /** The keys the probe reads on Suspect `i`, in order. */
  function KeysOf(probe: seq<Read>, i: nat): (keys: seq<Key>)
    ensures forall k :: k in keys <==> Read(i, k) in probe
    decreases |probe|
  {
    if probe == [] then []
    else
      var rest := KeysOf(probe[1..], i);
      assert forall r :: r in probe <==> r == probe[0] || r in probe[1..];
      if probe[0].subject == i then [probe[0].key] + rest else rest
  }

  /** Running a probe does to each Suspect's registrar what reading that
      Suspect's keys, in order, does; the fields are untouched. */
  lemma {:induction false} ProbeIsAccessAll(w: World, probe: seq<Read>, i: nat)
    requires forall r :: r in probe ==> r.subject < |w.suspects|
    requires i < |w.suspects|
    ensures Probe(w, probe).suspects[i]
         == Observed(w.suspects[i].fields, AccessAll(w.suspects[i].registry, w.installed, KeysOf(probe, i)))
    decreases |probe|
  {
    if probe != [] {
      var w1 := ReadOne(w, probe[0]);
      ProbeIsAccessAll(w1, probe[1..], i);
      var keys := KeysOf(probe, i);
      if probe[0].subject == i {
        assert keys[0] == probe[0].key && keys[1..] == KeysOf(probe[1..], i);
      }
    }
  }

  /** `withObservationTracking(probe, c)` leaves `c` installed, maps every key
      the probe read to `c`, leaves every key it did not read as it was, and
      neither changes a field nor calls a closure. */
  lemma TrackRegistersEveryRead(w: World, c: CallbackId, probe: seq<Read>)
    requires Fits(|w.suspects|, Track(c, probe))
    ensures Step(w, Track(c, probe)).installed == Some(c)
    ensures Step(w, Track(c, probe)).fired == w.fired
    ensures forall r :: r in probe ==>
              r.key in Step(w, Track(c, probe)).suspects[r.subject].registry
              && Step(w, Track(c, probe)).suspects[r.subject].registry[r.key] == c
    ensures forall i, k :: 0 <= i < |w.suspects| && Read(i, k) !in probe ==>
              Same(w.suspects[i].registry, Step(w, Track(c, probe)).suspects[i].registry, k)
    ensures forall i :: 0 <= i < |w.suspects| ==>
              Step(w, Track(c, probe)).suspects[i].fields == w.suspects[i].fields
  {
    var w0 := w.(installed := Some(c));
    forall i | 0 <= i < |w.suspects|
      ensures Probe(w0, probe).suspects[i]
           == Observed(w.suspects[i].fields, AccessAll(w.suspects[i].registry, Some(c), KeysOf(probe, i)))
    {
      ProbeIsAccessAll(w0, probe, i);
    }
    forall r | r in probe
      ensures r.key in KeysOf(probe, r.subject)
    {
      assert Read(r.subject, r.key) == r;
    }
  }

  // ---------------------------------------------------------------------------
  // One-shot firing: after a write, a key fires again only once it is read again.

  /** The firings in `log` on behalf of key `k` of Suspect `i`. */
  function FiringsOn(log: seq<Firing>, i: nat, k: Key): (r: seq<Firing>)
    ensures forall f :: f in r <==> f in log && f.subject == i && f.key == k
    decreases |log|
  {
    if log == [] then []
    else
      var rest := FiringsOn(log[1..], i, k);
      assert forall f :: f in log <==> f == log[0] || f in log[1..];
      if log[0].subject == i && log[0].key == k then [log[0]] + rest else rest
  }

  lemma {:induction false} FiringsOnAppend(a: seq<Firing>, b: seq<Firing>, i: nat, k: Key)
    ensures FiringsOn(a + b, i, k) == FiringsOn(a, i, k) + FiringsOn(b, i, k)
    decreases |a|
  {
    if a != [] {
      assert (a + b)[0] == a[0] && (a + b)[1..] == a[1..] + b;
      FiringsOnAppend(a[1..], b, i, k);
      assert FiringsOn(a + b, i, k) == (if a[0].subject == i && a[0].key == k then [a[0]] else []) + FiringsOn(a[1..] + b, i, k);
    } else {
      assert a + b == b;
    }
  }

  /** `op` reads key `k` of Suspect `i`. */
  predicate ReadsKey(op: Op, i: nat, k: Key)
  {
    match op
    case Track(_, probe) => Read(i, k) in probe
    case Get(r) => r == Read(i, k)
    case Set(_, _) => false
  }

  lemma StepQuiet(w: World, op: Op, i: nat, k: Key)
    requires Fits(|w.suspects|, op) && i < |w.suspects|
    requires k !in w.suspects[i].registry && !ReadsKey(op, i, k)
    ensures k !in Step(w, op).suspects[i].registry
    ensures FiringsOn(Step(w, op).fired, i, k) == FiringsOn(w.fired, i, k)
  {
    match op
    case Track(c, probe) =>
      TrackRegistersEveryRead(w, c, probe);
    case Get(r) =>
    case Set(j, m) =>
      var w' := Mutate(w, j, m);
      var added := Fire(Take(w.suspects[j].registry, m.Target()).1, j, m.Target(), w.suspects[j].fields);
      assert w'.fired == w.fired + added;
      FiringsOnAppend(w.fired, added, i, k);
      assert FiringsOn(added, i, k) == [] by {
        if |added| == 1 {
          assert added == [added[0]] && (added[0].subject != i || added[0].key != k);
        }
      }
  }

  /** If key `k` of Suspect `i` has no pending closure and no step reads it,
      it still has none afterwards and no closure fires on its behalf. */
  lemma {:induction false} QuietUntilRead(w: World, ops: seq<Op>, i: nat, k: Key)
    requires AllFit(|w.suspects|, ops) && i < |w.suspects|
    requires k !in w.suspects[i].registry
    requires forall op :: op in ops ==> !ReadsKey(op, i, k)
    ensures k !in Run(w, ops).suspects[i].registry
    ensures FiringsOn(Run(w, ops).fired, i, k) == FiringsOn(w.fired, i, k)
    decreases |ops|
  {
    if ops != [] {
      assert ops[0] in ops;
      StepQuiet(w, ops[0], i, k);
      assert forall op :: op in ops[1..] ==> op in ops;
      QuietUntilRead(Step(w, ops[0]), ops[1..], i, k);
    }
  }

  /** A write of key `k` fires at most one closure for it, however many writes
      of `k` follow, as long as nothing reads `k` in between. */
  lemma OneShot(w: World, i: nat, m: Assignment, ops: seq<Op>)
    requires i < |w.suspects| && AllFit(|w.suspects|, ops)
    requires forall op :: op in ops ==> !ReadsKey(op, i, m.Target())
    ensures |FiringsOn(Run(w, [Set(i, m)] + ops).fired, i, m.Target())|
         <= |FiringsOn(w.fired, i, m.Target())| + 1
  {
    var k := m.Target();
    var w1 := Mutate(w, i, m);
    assert AllFit(|w.suspects|, [Set(i, m)] + ops);
    RunAppend(w, [Set(i, m)], ops);
    assert Run(w, [Set(i, m)]) == w1;
    QuietUntilRead(w1, ops, i, k);
    var added := w1.fired[|w.fired|..];
    assert w1.fired == w.fired + added;
    FiringsOnAppend(w.fired, added, i, k);
    assert |FiringsOn(added, i, k)| <= 1 by {
      if |added| == 1 {
        assert added == [added[0]];
      }
    }
  }

  // ---------------------------------------------------------------------------
  // Every closure call uses up one registry entry, and every entry comes from a read.

  /** The number of pending entries over all registrars. */
  function Pending(s: seq<Observed>): nat
    decreases |s|
  {
    if s == [] then 0 else |s[0].registry| + Pending(s[1..])
  }

  lemma {:induction false} PendingUpdate(s: seq<Observed>, i: nat, o: Observed)
    requires i < |s|
    ensures Pending(s[i := o]) + |s[i].registry| == Pending(s) + |o.registry|
    decreases |s|
  {
    if i == 0 {
      assert s[i := o][1..] == s[1..];
    } else {
      assert s[i := o][1..] == s[1..][i - 1 := o];
      PendingUpdate(s[1..], i - 1, o);
    }
  }

  /** The number of getter calls `ops` makes. */
  function ReadCount(ops: seq<Op>): nat
    decreases |ops|
  {
    if ops == [] then 0
    else
      (match ops[0]
       case Track(_, probe) => |probe|
       case Get(_) => 1
       case Set(_, _) => 0)
      + ReadCount(ops[1..])
  }

  lemma ReadOneAddsAtMostOne(w: World, r: Read)
    requires r.subject < |w.suspects|
    ensures Pending(ReadOne(w, r).suspects) <= Pending(w.suspects) + 1
  {
    var o := w.suspects[r.subject];
    var t := Access(o.registry, w.installed, r.key);
    assert |t| <= |o.registry| + 1 by {
      if w.installed.Some? {
        assert t.Keys == o.registry.Keys + {r.key};
      }
    }
    PendingUpdate(w.suspects, r.subject, o.(registry := t));
  }

  lemma {:induction false} ProbeAddsAtMostItsReads(w: World, probe: seq<Read>)
    requires forall r :: r in probe ==> r.subject < |w.suspects|
    ensures Pending(Probe(w, probe).suspects) <= Pending(w.suspects) + |probe|
    decreases |probe|
  {
    if probe != [] {
      assert probe[0] in probe;
      ReadOneAddsAtMostOne(w, probe[0]);
      ProbeAddsAtMostItsReads(ReadOne(w, probe[0]), probe[1..]);
    }
  }

  lemma MutateUsesUpWhatFires(w: World, i: nat, m: Assignment)
    requires i < |w.suspects|
    ensures |Mutate(w, i, m).fired| - |w.fired| + Pending(Mutate(w, i, m).suspects) == Pending(w.suspects)
  {
    var o := w.suspects[i];
    var t := Take(o.registry, m.Target()).0;
    if m.Target() in o.registry {
      assert t.Keys == o.registry.Keys - {m.Target()};
    } else {
      assert t == o.registry;
    }
    PendingUpdate(w.suspects, i, Observed(Apply(o.fields, m), t));
  }

  /** Closure calls during a run never outnumber the entries pending at its
      start plus the reads it performs: no entry fires twice. The log only
      grows. */
  lemma {:induction false} FiringsBounded(w: World, ops: seq<Op>)
    requires AllFit(|w.suspects|, ops)
    ensures |w.fired| <= |Run(w, ops).fired| && Run(w, ops).fired[..|w.fired|] == w.fired
    ensures |Run(w, ops).fired| - |w.fired| + Pending(Run(w, ops).suspects)
         <= Pending(w.suspects) + ReadCount(ops)
    decreases |ops|
  {
    if ops != [] {
      assert ops[0] in ops;
      var w1 := Step(w, ops[0]);
      match ops[0] {
        case Track(c, probe) =>
          ProbeAddsAtMostItsReads(w.(installed := Some(c)), probe);
        case Get(r) =>
          ReadOneAddsAtMostOne(w, r);
        case Set(i, m) =>
          MutateUsesUpWhatFires(w, i, m);
      }
      assert forall op :: op in ops[1..] ==> op in ops;
      FiringsBounded(w1, ops[1..]);
      assert Run(w1, ops[1..]).fired[..|w1.fired|][..|w.fired|] == Run(w1, ops[1..]).fired[..|w.fired|];
    }
  }

  // ---------------------------------------------------------------------------
  // Only closures handed to a tracking call ever fire.

  /** The closures handed to tracking calls in `ops`. */
  function Tracked(ops: seq<Op>): set<CallbackId>
    decreases |ops|
  {
    if ops == [] then {}
    else (if ops[0].Track? then {ops[0].onChange} else {}) + Tracked(ops[1..])
  }

  /** Every closure in the slot, in a registrar or in the log is among `allowed`. */
  ghost predicate Within(w: World, allowed: set<CallbackId>)
  {
    && (w.installed.Some? ==> w.installed.value in allowed)
    && (forall i, k :: 0 <= i < |w.suspects| && k in w.suspects[i].registry ==> w.suspects[i].registry[k] in allowed)
    && (forall f :: f in w.fired ==> f.callback in allowed)
  }

  lemma {:induction false} ProbeStaysWithin(w: World, probe: seq<Read>, allowed: set<CallbackId>)
    requires forall r :: r in probe ==> r.subject < |w.suspects|
    requires Within(w, allowed)
    ensures Within(Probe(w, probe), allowed)
    decreases |probe|
  {
    if probe != [] {
      assert probe[0] in probe;
      ProbeStaysWithin(ReadOne(w, probe[0]), probe[1..], allowed);
    }
  }

  lemma MutateStaysWithin(w: World, i: nat, m: Assignment, allowed: set<CallbackId>)
    requires i < |w.suspects| && Within(w, allowed)
    ensures Within(Mutate(w, i, m), allowed)
  {
  }

  /** Starting from a runtime whose closures are all in `allowed`, every
      closure anywhere afterwards, and so every closure that fired, is in
      `allowed` or was handed to a tracking call of the run. */
  lemma {:induction false} OnlyTrackedCallbacksFire(w: World, ops: seq<Op>, allowed: set<CallbackId>)
    requires AllFit(|w.suspects|, ops) && Within(w, allowed)
    ensures Within(Run(w, ops), allowed + Tracked(ops))
    decreases |ops|
  {
    if ops != [] {
      assert ops[0] in ops;
      var more := allowed + (if ops[0].Track? then {ops[0].onChange} else {});
      var w1 := Step(w, ops[0]);
      match ops[0] {
        case Track(c, probe) =>
          ProbeStaysWithin(w.(installed := Some(c)), probe, more);
        case Get(r) =>
          ProbeStaysWithin(w, [r], more);
        case Set(i, m) =>
          MutateStaysWithin(w, i, m, more);
      }
      assert forall op :: op in ops[1..] ==> op in ops;
      OnlyTrackedCallbacksFire(w1, ops[1..], more);
      assert more + Tracked(ops[1..]) == allowed + Tracked(ops);
    }
  }

  // ---------------------------------------------------------------------------
  // The global slot holds the last tracked closure and is never cleared.

  /** The closure in the slot after `ops`: the one from the last tracking call,
      or the initial one when there was none. */
  function LastTracked(initial: Option<CallbackId>, ops: seq<Op>): (r: Option<CallbackId>)
    ensures initial.Some? ==> r.Some?
    ensures (exists j :: 0 <= j < |ops| && ops[j].Track?) ==> r.Some?
    decreases |ops|
  {
    if ops == [] then initial
    else if ops[|ops| - 1].Track? then Some(ops[|ops| - 1].onChange)
    else
      var front := ops[..|ops| - 1];
      assert forall j :: 0 <= j < |ops| - 1 ==> front[j] == ops[j];
      LastTracked(initial, front)
  }

  lemma {:induction false} InstalledIsLastTracked(w: World, ops: seq<Op>)
    requires AllFit(|w.suspects|, ops)
    ensures Run(w, ops).installed == LastTracked(w.installed, ops)
    decreases |ops|
  {
    if ops != [] {
      var n := |ops| - 1;
      assert ops == ops[..n] + [ops[n]];
      RunAppend(w, ops[..n], [ops[n]]);
      InstalledIsLastTracked(w, ops[..n]);
    }
  }

  // ---------------------------------------------------------------------------
  // Scenarios.

  /** The program's run as written: a Suspect "Darth Vader" with
      suspiciousness 33; track a probe that reads `name`; set `name` once.
      The closure fires once, seeing the old fields. The commented-out write
      of `suspiciousness` that follows in the program would fire nothing. */
  lemma DemoScenario(c: CallbackId)
    ensures Run(World(None, [Observed(Fields("Darth Vader", 33), map[])], []),
                [Track(c, [Read(0, Name)]),
                 Set(0, AssignName("New Name"))]).fired
         == [Firing(c, 0, Name, Fields("Darth Vader", 33))]
    ensures Run(World(None, [Observed(Fields("Darth Vader", 33), map[])], []),
                [Track(c, [Read(0, Name)]),
                 Set(0, AssignName("New Name")),
                 Set(0, AssignSuspiciousness(12))]).fired
         == [Firing(c, 0, Name, Fields("Darth Vader", 33))]
  {
    var w0 := World(None, [Observed(Fields("Darth Vader", 33), map[])], []);
    var w1 := Step(w0, Track(c, [Read(0, Name)]));
    assert w1.suspects[0].registry == map[Name := c];
    var w2 := Step(w1, Set(0, AssignName("New Name")));
    assert w2.fired == [Firing(c, 0, Name, Fields("Darth Vader", 33))];
    assert w2.suspects[0].registry == map[];
    var w3 := Step(w2, Set(0, AssignSuspiciousness(12)));
    assert w3.fired == w2.fired;
    var ops := [Track(c, [Read(0, Name)]), Set(0, AssignName("New Name"))];
    assert Run(w0, ops) == Run(w1, ops[1..]) == Run(w2, []);
    var more := ops + [Set(0, AssignSuspiciousness(12))];
    assert Run(w0, more) == Run(w1, more[1..]) == Run(w2, more[2..]) == Run(w3, []);
  }

  /** An extended scenario: track a probe that reads `name`; set
      `suspiciousness` (nothing fires); set `name` (the closure fires once,
      seeing the old name and the new suspiciousness); set `name` again
      (nothing more fires). */
  lemma ExtendedScenario(c: CallbackId)
    ensures Run(World(None, [Observed(Fields("Darth Vader", 33), map[])], []),
                [Track(c, [Read(0, Name)]),
                 Set(0, AssignSuspiciousness(12)),
                 Set(0, AssignName("New Name")),
                 Set(0, AssignName("New Name"))]).fired
         == [Firing(c, 0, Name, Fields("Darth Vader", 12))]
  {
    var w0 := World(None, [Observed(Fields("Darth Vader", 33), map[])], []);
    var w1 := Step(w0, Track(c, [Read(0, Name)]));
    assert w1.suspects[0].registry == map[Name := c];
    var w2 := Step(w1, Set(0, AssignSuspiciousness(12)));
    assert w2.fired == [] && w2.suspects[0] == Observed(Fields("Darth Vader", 12), map[Name := c]);
    var w3 := Step(w2, Set(0, AssignName("New Name")));
    assert w3.fired == [Firing(c, 0, Name, Fields("Darth Vader", 12))];
    assert w3.suspects[0].registry == map[];
    var w4 := Step(w3, Set(0, AssignName("New Name")));
    assert w4.fired == w3.fired;
    var ops := [Track(c, [Read(0, Name)]), Set(0, AssignSuspiciousness(12)),
                Set(0, AssignName("New Name")), Set(0, AssignName("New Name"))];
    assert Run(w0, ops) == Run(w1, ops[1..]) == Run(w2, ops[2..]) == Run(w3, ops[3..]) == Run(w4, []);
  }

  /** Entries fire per key: a probe that reads both keys leaves the closure
      pending twice, and writing each key calls it once more. */
  lemma PerKeyFiring(c: CallbackId, f: Fields, a: string, b: int)
    ensures Run(World(None, [Observed(f, map[])], []),
                [Track(c, [Read(0, Name), Read(0, Suspiciousness)]),
                 Set(0, AssignName(a)),
                 Set(0, AssignSuspiciousness(b))]).fired
         == [Firing(c, 0, Name, f), Firing(c, 0, Suspiciousness, f.(name := a))]
  {
    var w0 := World(None, [Observed(f, map[])], []);
    var w1 := Step(w0, Track(c, [Read(0, Name), Read(0, Suspiciousness)]));
    assert w1.suspects[0] == Observed(f, map[Name := c, Suspiciousness := c]);
    var w2 := Step(w1, Set(0, AssignName(a)));
    assert w2.suspects[0] == Observed(f.(name := a), map[Suspiciousness := c]);
    var w3 := Step(w2, Set(0, AssignSuspiciousness(b)));
    var ops := [Track(c, [Read(0, Name), Read(0, Suspiciousness)]),
                Set(0, AssignName(a)), Set(0, AssignSuspiciousness(b))];
    assert Run(w0, ops) == Run(w1, ops[1..]) == Run(w2, ops[2..]) == Run(w3, []);
  }

  /** Registrars do not cancel one another: with a probe reading `name` of
      one Suspect and `suspiciousness` of another, writing each calls the
      same closure, once per registrar. */
  lemma NoCrossRegistrarCancellation(c: CallbackId, f0: Fields, f1: Fields, a: string, b: int)
    ensures Run(World(None, [Observed(f0, map[]), Observed(f1, map[])], []),
                [Track(c, [Read(0, Name), Read(1, Suspiciousness)]),
                 Set(1, AssignSuspiciousness(b)),
                 Set(0, AssignName(a))]).fired
         == [Firing(c, 1, Suspiciousness, f1), Firing(c, 0, Name, f0)]
  {
    var w0 := World(None, [Observed(f0, map[]), Observed(f1, map[])], []);
    var w1 := Step(w0, Track(c, [Read(0, Name), Read(1, Suspiciousness)]));
    assert w1.suspects == [Observed(f0, map[Name := c]), Observed(f1, map[Suspiciousness := c])];
    var w2 := Step(w1, Set(1, AssignSuspiciousness(b)));
    assert w2.suspects[0] == Observed(f0, map[Name := c]);
    var w3 := Step(w2, Set(0, AssignName(a)));
    var ops := [Track(c, [Read(0, Name), Read(1, Suspiciousness)]),
                Set(1, AssignSuspiciousness(b)), Set(0, AssignName(a))];
    assert Run(w0, ops) == Run(w1, ops[1..]) == Run(w2, ops[2..]) == Run(w3, []);
  }
}
