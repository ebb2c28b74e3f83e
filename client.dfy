/** The observation runtime as objects: the process-wide onChange slot, one
    registrar per observable object, the observable `Suspect`, and the
    tracking entry point. */
module Client {
  import opened Observation

  /** The process-wide state: the global `ON_CHANGE_CLOSURE` slot, and the
      log of closure calls, which stands for the closures' own effects. */
  class Runtime {
    var onChangeClosure: Option<CallbackId>
    var fired: seq<Firing>

    /** At process start no closure is installed and none has run. */
    constructor ()
      ensures onChangeClosure == None && fired == []
    {
      onChangeClosure := None;
      fired := [];
    }
  }

  class ObservationRegistrar {
    var registry: Table

    constructor ()
      ensures registry == map[]
    {
      registry := map[];
    }

    /** A read of `k`: remember the installed closure under `k`, if any. */
    method Access(rt: Runtime, k: Key)
      modifies this
      ensures registry == Observation.Access(old(registry), rt.onChangeClosure, k)
    {
      match rt.onChangeClosure {
        case Some(closure) =>
          registry := registry[k := closure];
        case None =>
      }
    }

    /** A write of `k`: remove the closure pending under `k` and call it, then
        run the mutation on `subject`. The closure sees the fields as they
        were before the mutation. */
    method WithMutation(subject: Suspect, k: Key, mutation: Assignment, rt: Runtime)
      modifies this, subject, rt
      ensures registry == Take(old(registry), k).0
      ensures rt.fired == old(rt.fired) + Fire(Take(old(registry), k).1, subject.id, k, old(subject.Snapshot()))
      ensures rt.onChangeClosure == old(rt.onChangeClosure)
      ensures subject.Snapshot() == Apply(old(subject.Snapshot()), mutation)
    {
      if k in registry {
        var closure := registry[k];
        registry := registry - {k};
        rt.fired := rt.fired + [Firing(closure, subject.id, k, subject.Snapshot())];
      }
      subject.Mutate(mutation);
    }
  }

  /** The observable object: two stored fields behind getters that report a
      read and setters that route the write through the registrar. */
  class Suspect {
    var name: string
    var suspiciousness: int
    const registrar: ObservationRegistrar
    /** Identity token naming this object in the firing log. */
    const id: nat

    constructor (name: string, suspiciousness: int, id: nat)
      ensures Snapshot() == Fields(name, suspiciousness) && this.id == id
      ensures fresh(registrar) && registrar.registry == map[]
    {
      this.name := name;
      this.suspiciousness := suspiciousness;
      this.id := id;
      registrar := new ObservationRegistrar();
    }

    /** The stored fields as a value. */
    function Snapshot(): Fields
      reads this
    {
      Fields(name, suspiciousness)
    }

    /** The body of a setter's mutation closure: store one field. */
    method Mutate(m: Assignment)
      modifies this
      ensures Snapshot() == Apply(old(Snapshot()), m)
    {
      match m {
        case AssignName(s) => name := s;
        case AssignSuspiciousness(n) => suspiciousness := n;
      }
    }

    method GetName(rt: Runtime) returns (v: string)
      modifies registrar
      ensures Text(v) == Stored(Snapshot(), Name)
      ensures registrar.registry == Observation.Access(old(registrar.registry), rt.onChangeClosure, Name)
    {
      registrar.Access(rt, Name);
      v := name;
    }

    method SetName(v: string, rt: Runtime)
      modifies this, registrar, rt
      ensures Snapshot() == Apply(old(Snapshot()), AssignName(v))
      ensures registrar.registry == Take(old(registrar.registry), Name).0
      ensures rt.fired == old(rt.fired) + Fire(Take(old(registrar.registry), Name).1, id, Name, old(Snapshot()))
      ensures rt.onChangeClosure == old(rt.onChangeClosure)
    {
      registrar.WithMutation(this, Name, AssignName(v), rt);
    }

    method GetSuspiciousness(rt: Runtime) returns (v: int)
      modifies registrar
      ensures Number(v) == Stored(Snapshot(), Suspiciousness)
      ensures registrar.registry == Observation.Access(old(registrar.registry), rt.onChangeClosure, Suspiciousness)
    {
      registrar.Access(rt, Suspiciousness);
      v := suspiciousness;
    }

    method SetSuspiciousness(v: int, rt: Runtime)
      modifies this, registrar, rt
      ensures Snapshot() == Apply(old(Snapshot()), AssignSuspiciousness(v))
      ensures registrar.registry == Take(old(registrar.registry), Suspiciousness).0
      ensures rt.fired == old(rt.fired) + Fire(Take(old(registrar.registry), Suspiciousness).1, id, Suspiciousness, old(Snapshot()))
      ensures rt.onChangeClosure == old(rt.onChangeClosure)
    {
      registrar.WithMutation(this, Suspiciousness, AssignSuspiciousness(v), rt);
    }

    /** A getter by key, as a probe calls it. */
    method Get(k: Key, rt: Runtime) returns (v: Value)
      modifies registrar
      ensures v == Stored(Snapshot(), k)
      ensures registrar.registry == Observation.Access(old(registrar.registry), rt.onChangeClosure, k)
    {
      match k {
        case Name =>
          var s := GetName(rt);
          v := Text(s);
        case Suspiciousness =>
          var n := GetSuspiciousness(rt);
          v := Number(n);
      }
    }
  }

  /** `withObservationTracking(apply, onChange)`: install `onChange` in the
      global slot, then run the probe, here the getters of `subject` named by
      `probe`, in order. The probe's result is the values it read. The slot
      keeps `onChange` afterwards. */
  method WithObservationTracking(rt: Runtime, onChange: CallbackId, subject: Suspect, probe: seq<Key>)
    returns (result: seq<Value>)
    modifies rt, subject.registrar
    ensures rt.onChangeClosure == Some(onChange) && rt.fired == old(rt.fired)
    ensures subject.registrar.registry == AccessAll(old(subject.registrar.registry), Some(onChange), probe)
    ensures |result| == |probe|
    ensures forall j :: 0 <= j < |probe| ==> result[j] == Stored(subject.Snapshot(), probe[j])
  {
    rt.onChangeClosure := Some(onChange);
    result := [];
    var j := 0;
    while j < |probe|
      invariant 0 <= j <= |probe| && |result| == j
      invariant rt.onChangeClosure == Some(onChange) && rt.fired == old(rt.fired)
      invariant AccessAll(old(subject.registrar.registry), Some(onChange), probe)
             == AccessAll(subject.registrar.registry, Some(onChange), probe[j..])
      invariant forall i :: 0 <= i < j ==> result[i] == Stored(subject.Snapshot(), probe[i])
    {
      var v := subject.Get(probe[j], rt);
      result := result + [v];
      j := j + 1;
    }
    assert probe[j..] == [];
  }

  /** The program's run as written: track a probe that reads `name`, then
      set `name` once; the closure fires once, seeing the old name. */
  method Demo() returns (log: seq<Firing>)
    ensures log == [Firing(1, 0, Name, Fields("Darth Vader", 33))]
  {
    var rt := new Runtime();
    var suspect := new Suspect("Darth Vader", 33, 0);
    var seen := WithObservationTracking(rt, 1, suspect, [Name]);
    assert seen == [Text("Darth Vader")];
    suspect.SetName("New Name", rt);
    log := rt.fired;
  }

  /** An extended scenario: track a probe that reads `name`, then set
      `suspiciousness` (nothing fires), set `name` (the closure fires once,
      seeing the old name), and set `name` again (nothing more fires). */
  method ExtendedDemo() returns (log: seq<Firing>)
    ensures log == [Firing(1, 0, Name, Fields("Darth Vader", 12))]
  {
    var rt := new Runtime();
    var suspect := new Suspect("Darth Vader", 33, 0);
    var seen := WithObservationTracking(rt, 1, suspect, [Name]);
    assert seen == [Text("Darth Vader")];
    suspect.SetSuspiciousness(12, rt);
    suspect.SetName("New Name", rt);
    suspect.SetName("New Name", rt);
    log := rt.fired;
  }
}
