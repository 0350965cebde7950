/** The bridge registry and the health monitor that moves bridges between active and error. */
module Bridges {
  import opened Common

  datatype BridgeState = Registered | Active | Inactive | Error | Unregistered

  // ---------------------------------------------------------------- specification

  /** The live bridges, the rows stored for them, and the monitor's streak counters. */
  datatype World = World(
    live: map<string, BridgeState>, rows: map<string, BridgeState>,
    failures: map<string, nat>, successes: map<string, nat>)
  {
    /** A bridge enters a state, in memory and in storage; a row that does not exist is not made. */
    function Enter(id: string, state: BridgeState): World {
      this.(live := live[id := state], rows := if id in rows then rows[id := state] else rows)
    }

    function Streak(counts: map<string, nat>, id: string): nat {
      if id in counts then counts[id] else 0
    }
  }

  datatype Outcome = Done | AlreadyRegistered | InvalidManifest | NotRegistered | ActivationFailed

  function Register(w: World, id: string, bindable: bool): (World, Outcome) {
    if id in w.live then (w, AlreadyRegistered)
    else if !bindable then (w, InvalidManifest)
    else (w.(live := w.live[id := Registered], rows := w.rows[id := Registered]), Done)
  }

  function Activate(w: World, id: string, hookSucceeds: bool): (World, Outcome) {
    if id !in w.live then (w, NotRegistered)
    else if w.live[id].Active? then (w, Done)
    else if hookSucceeds then (w.Enter(id, Active), Done)
    else (w.Enter(id, Error), ActivationFailed)
  }

  function Deactivate(w: World, id: string): (World, Outcome) {
    if id !in w.live then (w, NotRegistered)
    else if w.live[id].Inactive? then (w, Done)
    else (w.Enter(id, Inactive), Done)
  }

  function Unregister(w: World, id: string): (World, Outcome) {
    if id !in w.live then (w, NotRegistered)
    else (w.Enter(id, Unregistered).(live := w.live - {id}), Done)
  }

  datatype Thresholds = Thresholds(unhealthy: int, recovery: int)

  /** What a check does to the counters and the state of the one bridge it looks at. */
  datatype Health = Health(state: BridgeState, failures: nat, successes: nat)

  function HealthStep(h: Health, healthy: bool, t: Thresholds): Health {
    if healthy then
      Health(if h.state.Error? && h.successes + 1 >= t.recovery then Active else h.state, 0, h.successes + 1)
    else
      Health(if h.state.Active? && h.failures + 1 >= t.unhealthy then Error else h.state, h.failures + 1, 0)
  }

  function Check(w: World, id: string, healthy: bool, t: Thresholds): World {
    if id !in w.live then w
    else
      var h := HealthStep(Health(w.live[id], w.Streak(w.failures, id), w.Streak(w.successes, id)), healthy, t);
      var counted := w.(failures := w.failures[id := h.failures], successes := w.successes[id := h.successes]);
      if h.state == w.live[id] then counted else counted.Enter(id, h.state)
  }

  function Reset(w: World, id: string): World {
    if id == "" then w.(failures := map[], successes := map[])
    else w.(failures := w.failures - {id}, successes := w.successes - {id})
  }

  // ---------------------------------------------------------------- objects

  class Plugin {
    const bridgeId: string
    var state: BridgeState

    constructor (id: string)
      ensures bridgeId == id && state == Registered
    {
      bridgeId, state := id, Registered;
    }
  }

  class BridgeStorage {
    var rows: map<string, BridgeState>

    constructor ()
      ensures rows == map[]
    {
      rows := map[];
    }

    /** Inserts, or overwrites the row of a bridge registered before. */
    method InsertBridge(id: string, state: BridgeState)
      modifies this
      ensures rows == old(rows)[id := state]
    {
      rows := rows[id := state];
    }

    method UpdateBridgeState(id: string, state: BridgeState)
      modifies this
      ensures rows == if id in old(rows) then old(rows)[id := state] else old(rows)
    {
      if id in rows {
        rows := rows[id := state];
      }
    }
  }

  class Registry {
    const storage: BridgeStorage
    var bridges: map<string, Plugin>
    var manifests: set<string>
    var hooks: map<string, Plugin>

    constructor (storage: BridgeStorage)
      ensures this.storage == storage && bridges == map[] && Valid()
    {
      this.storage := storage;
      bridges, manifests, hooks := map[], {}, map[];
    }

    /** Bridges, manifests and hook registrations have the same keys, and name the same plugins. */
    ghost predicate Valid()
      reads this
    {
      hooks == bridges && manifests == bridges.Keys && forall id :: id in bridges ==> bridges[id].bridgeId == id
    }

    function States(): map<string, BridgeState>
      reads this, bridges.Values
    {
      map id | id in bridges :: bridges[id].state
    }

    /** The registry's part of the world; it does not know the monitor's counters. */
    ghost function Seen(w: World): World
      reads this, storage, bridges.Values
    {
      w.(live := States(), rows := storage.rows)
    }

    method RegisterBridge(id: string, bindable: bool, ghost w: World) returns (outcome: Outcome)
      requires Valid()
      modifies this, storage
      ensures Valid() && (Seen(w), outcome) == Register(old(Seen(w)), id, bindable)
    {
      if id in manifests {
        return AlreadyRegistered;
      }
      if !bindable {
        return InvalidManifest;
      }
      ghost var before := States();
      var plugin := new Plugin(id);
      storage.InsertBridge(id, Registered);
      bridges := bridges[id := plugin];
      hooks := hooks[plugin.bridgeId := plugin];
      manifests := manifests + {id};
      assert States() == before[id := Registered];
      return Done;
    }

    method EnterState(bridge: Plugin, state: BridgeState, ghost w: World)
      requires Valid() && bridge.bridgeId in bridges && bridges[bridge.bridgeId] == bridge
      modifies bridge, storage
      ensures Valid() && Seen(w) == old(Seen(w)).Enter(bridge.bridgeId, state)
      ensures bridge.state == state
    {
      ghost var before := States();
      bridge.state := state;
      storage.UpdateBridgeState(bridge.bridgeId, state);
      assert States() == before[bridge.bridgeId := state];
    }

    method ActivateBridge(id: string, hookSucceeds: bool, ghost w: World) returns (outcome: Outcome)
      requires Valid()
      modifies bridges.Values, storage
      ensures Valid() && (Seen(w), outcome) == Activate(old(Seen(w)), id, hookSucceeds)
    {
      if id !in manifests {
        return NotRegistered;
      }
      var bridge := bridges[id];
      if bridge.state == Active {
        return Done;
      }
      if hookSucceeds {
        EnterState(bridge, Active, w);
        return Done;
      } else {
        EnterState(bridge, Error, w);
        return ActivationFailed;
      }
    }

    /** Deactivation goes on even if the plugin's own hook fails. */
    method DeactivateBridge(id: string, ghost w: World) returns (outcome: Outcome)
      requires Valid()
      modifies bridges.Values, storage
      ensures Valid() && (Seen(w), outcome) == Deactivate(old(Seen(w)), id)
    {
      if id !in bridges {
        return NotRegistered;
      }
      var bridge := bridges[id];
      if bridge.state == Inactive {
        return Done;
      }
      EnterState(bridge, Inactive, w);
      return Done;
    }

    /** Takes the bridge out of memory and marks its row. */
    method Forget(id: string, ghost w: World)
      requires Valid() && id in bridges
      modifies this, storage
      ensures Valid() && Seen(w) == old(Seen(w)).Enter(id, Unregistered).(live := old(States()) - {id})
    {
      ghost var before := States();
      hooks := hooks - {id};
      bridges := bridges - {id};
      manifests := manifests - {id};
      storage.UpdateBridgeState(id, Unregistered);
      assert States() == before - {id};
    }

    /** Only an active bridge is deactivated on the way out. */
    method UnregisterBridge(id: string, ghost w: World) returns (outcome: Outcome)
      requires Valid()
      modifies this, bridges.Values, storage
      ensures Valid() && (Seen(w), outcome) == Unregister(old(Seen(w)), id)
    {
      if id !in manifests {
        return NotRegistered;
      }
      if bridges[id].state == Active {
        ghost var before := Seen(w);
        var _ := DeactivateBridge(id, w);
        LeavingThroughInactive(before, id);
      }
      Forget(id, w);
      return Done;
    }
  }

  /** Deactivating first leaves no trace once the bridge is gone. */
  lemma LeavingThroughInactive(w: World, id: string)
    requires id in w.live
    ensures Unregister(w.Enter(id, Inactive), id) == Unregister(w, id)
  {
    var first := w.Enter(id, Inactive);
    assert first.live - {id} == w.live - {id};
    assert first.Enter(id, Unregistered).rows == w.Enter(id, Unregistered).rows;
  }

  class HealthMonitor {
    const registry: Registry
    const thresholds: Thresholds
    var failures: map<string, nat>
    var successes: map<string, nat>

    constructor (registry: Registry, thresholds: Thresholds)
      ensures this.registry == registry && this.thresholds == thresholds && failures == map[] && successes == map[]
    {
      this.registry, this.thresholds := registry, thresholds;
      failures, successes := map[], map[];
    }

    ghost function Now(): World
      reads this, registry, registry.storage, registry.bridges.Values
    {
      World(registry.States(), registry.storage.rows, failures, successes)
    }

    /** Moves a bridge between active and error; the counters stay. */
    method Transition(bridge: Plugin, state: BridgeState)
      requires registry.Valid() && bridge.bridgeId in registry.bridges && registry.bridges[bridge.bridgeId] == bridge
      modifies bridge, registry.storage
      ensures registry.Valid() && bridge.state == state
      ensures Now() == old(Now()).Enter(bridge.bridgeId, state)
    {
      registry.EnterState(bridge, state, Now());
    }

    method CountSuccess(id: string) returns (streak: nat)
      modifies this
      ensures streak == old(Now()).Streak(old(successes), id) + 1
      ensures Now() == old(Now()).(failures := old(failures)[id := 0], successes := old(successes)[id := streak])
    {
      streak := (if id in successes then successes[id] else 0) + 1;
      failures := failures[id := 0];
      successes := successes[id := streak];
    }

    method CountFailure(id: string) returns (streak: nat)
      modifies this
      ensures streak == old(Now()).Streak(old(failures), id) + 1
      ensures Now() == old(Now()).(failures := old(failures)[id := streak], successes := old(successes)[id := 0])
    {
      streak := (if id in failures then failures[id] else 0) + 1;
      successes := successes[id := 0];
      failures := failures[id := streak];
    }

    /** A check that raises counts as an unhealthy one. */
    method CheckBridgeHealth(id: string, raised: bool, reported: bool) returns (healthy: bool)
      requires registry.Valid()
      modifies this, registry.bridges.Values, registry.storage
      ensures registry.Valid() && Now() == Check(old(Now()), id, reported && !raised, thresholds)
      ensures healthy <==> id in registry.bridges && reported && !raised
    {
      if id !in registry.bridges {
        return false;
      }
      var bridge := registry.bridges[id];
      healthy := reported && !raised;
      assert Now().live[id] == bridge.state;
      if healthy {
        var streak := CountSuccess(id);
        if bridge.state == Error && streak >= thresholds.recovery {
          Transition(bridge, Active);
        }
      } else {
        var streak := CountFailure(id);
        if bridge.state == Active && streak >= thresholds.unhealthy {
          Transition(bridge, Error);
        }
      }
    }

    /** The counters of one bridge, or of all of them for an empty id. */
    method ResetCounts(id: string)
      modifies this
      ensures Now() == Reset(old(Now()), id)
    {
      if id != "" {
        failures := failures - {id};
        successes := successes - {id};
      } else {
        failures := map[];
        successes := map[];
      }
    }
  }
}
