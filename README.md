# Observation tracking runtime, modelled in Dafny

The program is a small, hand-rolled imitation of Swift's observation
machinery. It has three parts:

- A per-object `ObservationRegistrar`. It keeps a dictionary `registry` from
  property key path to a pending `onChange` closure.
- A global slot `ON_CHANGE_CLOSURE` that holds the closure of the last
  tracking call.
- `withObservationTracking(apply, onChange)`, which installs `onChange` in
  that slot and runs `apply`.

The observable class `Suspect` has two stored fields, `_name` and
`_suspiciousness`. Its getters call `access`. That call files the installed
closure under the key read. Its setters go through `withMutation`. That call
removes the closure pending under the key, calls it, and only then runs the
assignment.

The model has three modules:

- `Observation` (`observation.dfy`) holds the shared vocabulary:
  - the keys (`Name`, `Suspiciousness`);
  - closures as opaque ids (`CallbackId`);
  - the registrar table (`map<Key, CallbackId>`);
  - the table operations behind `access` (`Access`, and `AccessAll` for a
    probe's reads) and behind `registry.removeValue` (`Take`);
  - the setters' mutation closures (`Assignment`, `Apply`);
  - the record of one closure call (`Firing`).
- `Client` (`client.dfy`) holds the program's objects as classes with
  mutable fields:
  - `Runtime` holds the global slot and the log of closure calls;
  - `ObservationRegistrar` holds `registry`;
  - `Suspect` holds `name`, `suspiciousness` and its registrar;
  - `WithObservationTracking`, the program's own run (`Demo`) and an extended scenario (`ExtendedDemo`) sit beside them.

  Each method's `ensures` ties the new state to the `Observation` functions
  applied to the old state.
- `Traces` (`traces.dfy`) is the whole runtime as a state machine over
  values. A `World` holds the slot, every Suspect's fields and table, and the
  firing log. `Run` executes a sequence of tracking calls, reads and writes.
  The lemmas there state what the program guarantees over whole runs:
  - a probe registers exactly the keys it reads;
  - a write fires at most once per key until that key is read again;
  - closure calls never outnumber the pending entries plus the reads;
  - only tracked closures ever fire;
  - the slot holds the last tracked closure and is never cleared.

A closure call is modelled as appending a `Firing` to the log. It records the
closure, the subject, the key and the subject's stored fields at the moment
of the call. Because the setter stores its value only after the call,
`seen` is always the old fields.

The model follows the code where the design this program imitates promises
more:

- Each key's entry fires on its own. Nothing cancels the same closure's
  entries for other keys or in other registrars (`PerKeyFiring`,
  `NoCrossRegistrarCancellation`). A tracking call that reads `s1.name` and
  `s2.suspiciousness` therefore fires once for each of them.
- There is no access session. The global slot is never cleared, so reads
  after tracking keep filing the last closure.
- The closure runs before the new value is stored, not after.

## Model

| member | source | states |
|---|---|---|
| `Observation.Access` | Sources/ObservationsClient/main.swift:65-73 | with no closure installed the table is unchanged; otherwise the key read maps to the installed closure, replacing any earlier entry, and every other key is as before |
| `Observation.AccessAll` | Sources/ObservationsClient/main.swift:65-73 | after reading a sequence of keys with one closure installed, every key read maps to that closure and every key not read is as before; with none installed nothing changes |
| `Observation.Take` | Sources/ObservationsClient/main.swift:82 | `removeValue` yields the pending closure exactly when the key has an entry, and that entry's closure; afterwards the key has no entry and every other key is untouched |
| `Observation.TakeIsOneShot` | Sources/ObservationsClient/main.swift:82-84 | removing the same key twice with nothing in between yields no closure the second time and leaves the table alone |
| `Observation.Apply` | Sources/ObservationsClient/main.swift:19-35 | a setter's mutation closure makes its own field hold the new value and leaves the other field unchanged |
| `Observation.Fire` | Sources/ObservationsClient/main.swift:82-84 | calling the removed closure adds exactly one firing of that closure when one was pending and none otherwise |
| `Client.Runtime.constructor` | Sources/ObservationsClient/main.swift:59 | at start the global slot is empty and no closure has run |
| `Client.ObservationRegistrar.constructor` | Sources/ObservationsClient/main.swift:63 | a new registrar has an empty `registry` |
| `Client.ObservationRegistrar.Access` | Sources/ObservationsClient/main.swift:65-73 | `registry` becomes `Access` of the old `registry`, the current global slot and the key read |
| `Client.ObservationRegistrar.WithMutation` | Sources/ObservationsClient/main.swift:76-86 | the key's entry is removed, the removed closure (if any) is logged once with the subject's fields from before the mutation, then the subject's fields become the mutation applied to the old fields; the slot is unchanged |
| `Client.Suspect.constructor` | Sources/ObservationsClient/main.swift:38-41 | the stored fields hold the given values and the object owns a fresh, empty registrar |
| `Client.Suspect.Mutate` | Sources/ObservationsClient/main.swift:19-35 | the setter's closure body: the fields become the assignment applied to the old fields |
| `Client.Suspect.GetName` | Sources/ObservationsClient/main.swift:15-18 | returns the stored name unchanged and performs `access` for `Name` on its registrar |
| `Client.Suspect.SetName` | Sources/ObservationsClient/main.swift:19-23 | the name becomes the new value, the other field is unchanged, the `Name` entry is taken and its closure logged with the old fields |
| `Client.Suspect.GetSuspiciousness` | Sources/ObservationsClient/main.swift:27-30 | returns the stored suspiciousness unchanged and performs `access` for `Suspiciousness` |
| `Client.Suspect.SetSuspiciousness` | Sources/ObservationsClient/main.swift:31-35 | the suspiciousness becomes the new value, the name is unchanged, the `Suspiciousness` entry is taken and its closure logged with the old fields |
| `Client.Suspect.Get` | Sources/ObservationsClient/main.swift:14-30 | a getter chosen by key: returns the field behind that key and performs `access` for it |
| `Client.WithObservationTracking` | Sources/ObservationsClient/main.swift:92-103 | the slot holds `onChange` afterwards and is not cleared; the registrar maps every key the probe read to `onChange` (others as before); nothing fires; the result is the values the probe read |
| `Client.Demo` | Sources/ObservationsClient/main.swift:107-113 | the program's run as written: after tracking a read of `name`, setting `name` once calls the closure exactly once, for `name`, seeing the old fields ("Darth Vader", 33) |
| `Client.ExtendedDemo` | Sources/ObservationsClient/main.swift:107-114 | an extended scenario: after tracking a read of `name`, setting `suspiciousness`, then `name`, then `name` again calls the closure exactly once, for `name`, seeing the old name and the new suspiciousness |
| `Traces.ReadOne` | Sources/ObservationsClient/main.swift:65-73 | a getter's registrar becomes `Access` of its table, the installed closure and the key read, so reads after tracking keep filing the slot's closure; the fields, every other Suspect, the slot and the log are unchanged |
| `Traces.Probe` | Sources/ObservationsClient/main.swift:100 | running the probe's reads changes neither the slot nor the log |
| `Traces.Mutate` | Sources/ObservationsClient/main.swift:76-86 | a setter fires exactly when its key has an entry, that entry's closure, seeing the fields before the assignment; the log only grows; the key's entry is gone, other keys and other Suspects are untouched, and the fields become the assignment applied |
| `Traces.Step` | Sources/ObservationsClient/main.swift:92-114 | one tracking call, read or write keeps the same Suspects |
| `Traces.Run` | Sources/ObservationsClient/main.swift:107-114 | a run of the program keeps the same Suspects |
| `Traces.KeysOf` | Sources/ObservationsClient/main.swift:100 | a key is among those the probe reads on a Suspect exactly when the probe contains that read |
| `Traces.ProbeIsAccessAll` | Sources/ObservationsClient/main.swift:92-103 | a probe over several Suspects does to each registrar exactly what `AccessAll` of that Suspect's reads does, and leaves the fields alone |
| `Traces.TrackRegistersEveryRead` | Sources/ObservationsClient/main.swift:92-103 | after tracking, `onChange` is installed, every key the probe read maps to it, every key it did not read is as before, no field changes and nothing fires |
| `Traces.QuietUntilRead` | Sources/ObservationsClient/main.swift:82-84 | a key with no entry that no later step reads stays without an entry, and no closure fires on its behalf |
| `Traces.OneShot` | Sources/ObservationsClient/main.swift:82-85 | after a write of a key, any number of further writes with no read of that key in between add no firing for it: at most one in all |
| `Traces.FiringsBounded` | Sources/ObservationsClient/main.swift:70-84 | the log only grows, and the closure calls of a run plus the entries left pending never exceed the entries pending at the start plus the getter calls made: no entry fires twice |
| `Traces.OnlyTrackedCallbacksFire` | Sources/ObservationsClient/main.swift:70-83 | every closure in the slot, in any registrar or in the log after a run was present at the start or handed to a tracking call of the run |
| `Traces.LastTracked` | Sources/ObservationsClient/main.swift:97 | the last closure handed to a tracking call, or the initial slot; it is set whenever the slot started set or any tracking call occurred, so once set it is never empty again |
| `Traces.InstalledIsLastTracked` | Sources/ObservationsClient/main.swift:97-102 | after any run the global slot holds the last tracked closure; nothing ever clears it |
| `Traces.DemoScenario` | Sources/ObservationsClient/main.swift:107-114 | the program's run as written, on values: track a read of `name`, set `name` once; the log holds one firing, for `name`, seeing ("Darth Vader", 33); the commented-out write of `suspiciousness` after it would add nothing |
| `Traces.ExtendedScenario` | Sources/ObservationsClient/main.swift:107-114 | an extended scenario: track a read of `name`, set `suspiciousness`, set `name` twice; the log holds one firing, for `name`, seeing the old name and the new suspiciousness |
| `Traces.PerKeyFiring` | Sources/ObservationsClient/main.swift:70-84 | a probe that reads both keys leaves the closure pending under each, and writing each key calls it once more |
| `Traces.NoCrossRegistrarCancellation` | Sources/ObservationsClient/main.swift:61-87 | with one closure filed in two Suspects' registrars, writing one Suspect's key does not cancel the other's entry; the closure fires once per registrar |

## Left out

- The `print` diagnostics in `access`, `withMutation`, `withObservationTracking`, the probe and the `onChange` closure are console output. They have no effect on state.
- `@Sendable`, `@unchecked Sendable` and `nonisolated` are concurrency annotations. The program has no locking to model.
- The `Observable` protocol and the generic `KeyPath`/`AnyKeyPath` machinery are replaced by the enumeration `Key` of the two properties.
- `Client.ObservationRegistrar.WithMutation`: the generic `rethrows -> T` result of the mutation closure is not modelled. The only mutation closures in the program are the two setters' field assignments, which cannot fail and return `Void`. The model's mutation is the datatype `Assignment`, and the method returns nothing.
- `Client.WithObservationTracking`: `apply` is an arbitrary closure in the program. Here it is a sequence of getter calls on one Suspect, and its result is the values they return. Probes over several Suspects are modelled on values in `Traces` (`Probe`, `ProbeIsAccessAll`).
- What an `onChange` closure does when called is not modelled. That covers its own output and any re-entrant read or write it might perform. A call is recorded as a `Firing` in the runtime's log.
- The global `ON_CHANGE_CLOSURE` is a field of a `Runtime` object passed to every operation, not a global variable.
- `Suspect` carries an identity number `id` that the program does not have. It only names the subject in the firing log.
- `suspiciousness` is a Swift `Int`. The program only stores and returns it with no arithmetic, so the model uses an unbounded `int` with nothing to wrap.
