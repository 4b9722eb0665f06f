/** How the controller's handlers keep the metadata store and the event index in step, as a state machine. */
module Coherence {
  import opened EventLog
  import opened Storage

  /** The stored records, the log behind the event index, and the engine ids handed out so far. */
  datatype State = State(store: Storage.Bucket, log: seq<Entry>, used: set<string>)

  /** The entries of a deployment in the index, bucket by bucket and in order, are those its record gives. */
  ghost predicate RecordInStep(st: State, id: string)
    requires id in st.store
  {
    && st.store[id].camundaDeploymentId == id
    && forall d, s :: Own(Filed(st.log, d, s), id) == Filed(Entries(st.store[id]), d, s)
  }

  ghost predicate Coherent(st: State) {
    forall id :: id in st.store ==> RecordInStep(st, id)
  }

  /** Ids in the store and in the index have been handed out. */
  predicate AllUsed(st: State) {
    st.store.Keys <= st.used && forall i :: 0 <= i < |st.log| ==> st.log[i].event.deploymentId in st.used
  }

  /** One handler, run to its end; the flags say whether its storage transaction goes through. */
  datatype Op =
    | Create(m: Metadata, works: bool)
    | Update(id: string, events: seq<EventDesc>, devices: map<string, string>, services: map<string, string>,
             works: bool)
    | Delete(id: string, works: bool)
    | Sync(ids: seq<string>, works: bool)
    | Restart

  function Updated(m: Metadata, events: seq<EventDesc>, devices: map<string, string>,
                   services: map<string, string>): Metadata {
    m.(deployment := m.deployment.(events := events, deviceIdToLocalId := devices, serviceIdToLocalId := services))
  }

  function Stored(store: Storage.Bucket, m: Metadata, works: bool): Storage.Bucket {
    if works && m.camundaDeploymentId != "" then store[m.camundaDeploymentId := m] else store
  }

  /** The log after adding the deployments one after another. */
  function LogOf(ms: seq<Metadata>): seq<Entry> {
    if ms == [] then [] else LogOf(ms[..|ms| - 1]) + Entries(ms[|ms| - 1])
  }

  function Next(st: State, op: Op): State {
    match op
    case Create(m, works) =>
      State(Stored(st.store, m, works), st.log + Entries(m), st.used + {m.camundaDeploymentId})
    case Update(id, events, devices, services, works) =>
      if id !in st.store then st
      else
        var m := Updated(st.store[id], events, devices, services);
        if !works || m.camundaDeploymentId == "" then st
        else st.(store := Stored(st.store, m, works), log := Purged(st.log, id) + Entries(m))
    case Delete(id, works) =>
      st.(store := if works then st.store - {id} else st.store, log := Purged(st.log, id))
    case Sync(ids, works) => if works then st.(store := Restricted(st.store, ids)) else st
    case Restart => st.(log := LogOf(Listing(st.store)))
  }

  /** The engine never hands out an id twice. */
  predicate Fresh(st: State, op: Op) {
    op.Create? ==> op.m.camundaDeploymentId !in st.used
  }

  /** A record is gone from the store before its events are taken out of the index. */
  predicate Removing(st: State, op: Op) {
    op.Delete? ==> op.works || op.id !in st.store || Entries(st.store[op.id]) == []
  }

  // ---------------------------------------------------------------- single steps

  lemma {:induction false} OwnUnused(log: seq<Entry>, d: string, s: string, id: string)
    requires forall i :: 0 <= i < |log| ==> log[i].event.deploymentId != id
    ensures Own(Filed(log, d, s), id) == []
  {
    if log != [] {
      OwnUnused(log[1..], d, s, id);
      OwnConcat(if log[0].device == d && log[0].service == s then [log[0].event] else [], Filed(log[1..], d, s), id);
    }
  }

  /** What a deployment adds belongs to it alone. */
  lemma OwnAdded(log: seq<Entry>, m: Metadata, d: string, s: string, id: string)
    ensures Own(Filed(log + Entries(m), d, s), id) ==
            Own(Filed(log, d, s), id) + if id == m.camundaDeploymentId then Filed(Entries(m), d, s) else []
  {
    hide Entries;
    EntriesOwn(m);
    FiledConcat(log, Entries(m), d, s);
    OwnConcat(Filed(log, d, s), Filed(Entries(m), d, s), id);
    OwnFiled(Entries(m), m.camundaDeploymentId, d, s, id);
  }

  lemma OwnWithout(log: seq<Entry>, gone: string, d: string, s: string, id: string)
    ensures Own(Filed(Purged(log, gone), d, s), id) == if id == gone then [] else Own(Filed(log, d, s), id)
  {
    FiledWithout(log, gone, d, s);
    OwnOfOthers(Filed(log, d, s), gone, id);
  }

  lemma CreateKeeps(st: State, op: Op)
    requires Coherent(st) && AllUsed(st) && op.Create? && Fresh(st, op)
    ensures Coherent(Next(st, op))
  {
    hide Entries, Filed, Own;
    var r, m := Next(st, op), op.m;
    forall id | id in r.store ensures RecordInStep(r, id) {
      forall d, s ensures Own(Filed(r.log, d, s), id) == Filed(Entries(r.store[id]), d, s) {
        OwnAdded(st.log, m, d, s, id);
        if id == m.camundaDeploymentId {
          OwnUnused(st.log, d, s, id);
        } else {
          assert RecordInStep(st, id);
        }
      }
      if id != m.camundaDeploymentId {
        assert RecordInStep(st, id);
      }
    }
  }

  lemma UpdateKeeps(st: State, op: Op)
    requires Coherent(st) && op.Update?
    ensures Coherent(Next(st, op))
  {
    hide Entries, Filed, Own, Purged;
    var r := Next(st, op);
    if op.id in st.store && op.works {
      assert RecordInStep(st, op.id);
      var m := Updated(st.store[op.id], op.events, op.devices, op.services);
      if op.id != "" {
        forall id | id in r.store ensures RecordInStep(r, id) {
          assert RecordInStep(st, id);
          forall d, s ensures Own(Filed(r.log, d, s), id) == Filed(Entries(r.store[id]), d, s) {
            OwnAdded(Purged(st.log, op.id), m, d, s, id);
            OwnWithout(st.log, op.id, d, s, id);
          }
        }
      }
    }
  }

  lemma FiledSomewhere(log: seq<Entry>)
    requires log != []
    ensures Filed(log, log[0].device, log[0].service) != []
  {
  }

  /**
   * A delete notification keeps store and index in step exactly when the record is removed, or had nothing in
   * the index: the handler only logs a failing removal and takes the events out of the index all the same.
   */
  lemma DeleteKeepsIff(st: State, op: Op)
    requires Coherent(st) && op.Delete?
    ensures Coherent(Next(st, op)) <==> Removing(st, op)
  {
    hide Entries, Own, Purged;
    var r := Next(st, op);
    forall id | id in r.store ensures RecordInStep(r, id) <==> id != op.id || Entries(r.store[id]) == [] {
      assert RecordInStep(st, id);
      forall d, s ensures Own(Filed(r.log, d, s), id) == if id == op.id then [] else Own(Filed(st.log, d, s), id) {
        OwnWithout(st.log, op.id, d, s, id);
      }
      if id == op.id && Entries(r.store[id]) != [] {
        FiledSomewhere(Entries(r.store[id]));
      }
    }
  }

  lemma SyncKeeps(st: State, op: Op)
    requires Coherent(st) && op.Sync?
    ensures Coherent(Next(st, op))
  {
    hide Entries, Filed, Own;
    forall id | id in Next(st, op).store ensures RecordInStep(Next(st, op), id) {
      assert RecordInStep(st, id);
    }
  }

  // ---------------------------------------------------------------- restart

  /** After listed deployments with different ids have been added, each has exactly its own entries. */
  lemma {:induction false} LogOfOwn(ms: seq<Metadata>, d: string, s: string, id: string)
    requires forall i, j :: 0 <= i < j < |ms| ==> ms[i].camundaDeploymentId != ms[j].camundaDeploymentId
    ensures (forall i :: 0 <= i < |ms| ==> ms[i].camundaDeploymentId != id) ==> Own(Filed(LogOf(ms), d, s), id) == []
    ensures forall i :: 0 <= i < |ms| && ms[i].camundaDeploymentId == id ==>
              Own(Filed(LogOf(ms), d, s), id) == Filed(Entries(ms[i]), d, s)
  {
    if ms == [] {
      OwnUnused([], d, s, id);
    } else {
      hide Entries, Filed, Own;
      var n := |ms| - 1;
      assert forall i :: 0 <= i < n ==> ms[..n][i] == ms[i];
      LogOfOwn(ms[..n], d, s, id);
      OwnAdded(LogOf(ms[..n]), ms[n], d, s, id);
    }
  }

  lemma RestartKeeps(st: State, op: Op)
    requires Coherent(st) && op.Restart?
    ensures Coherent(Next(st, op))
  {
    hide Entries, Filed, Own, LogOf;
    var keys, ms := Ascending(st.store.Keys), Listing(st.store);
    var r := Next(st, op);
    forall i | 0 <= i < |ms| ensures ms[i].camundaDeploymentId == keys[i] && keys[i] in st.store {
      assert keys[i] in keys;
      assert RecordInStep(st, keys[i]);
    }
    forall id | id in r.store ensures RecordInStep(r, id) {
      assert RecordInStep(st, id);
      assert id in keys;
      var i :| 0 <= i < |keys| && keys[i] == id;
      forall d, s ensures Own(Filed(r.log, d, s), id) == Filed(Entries(r.store[id]), d, s) {
        LogOfOwn(ms, d, s, id);
      }
    }
  }

  /** The index is filled from the listed records as by that many calls of AddDeployment. */
  lemma {:induction false} LogOfAdds(ms: seq<Metadata>)
    ensures LogOf(ms) == After([], seq(|ms|, i requires 0 <= i < |ms| => Add(ms[i])))
  {
    hide Entries;
    var calls := seq(|ms|, i requires 0 <= i < |ms| => Add(ms[i]));
    if ms != [] {
      var n := |ms| - 1;
      LogOfAdds(ms[..n]);
      assert calls[..n] == seq(n, i requires 0 <= i < n => Add(ms[..n][i]));
      assert calls == calls[..n] + [Add(ms[n])];
      AfterConcat([], calls[..n], [Add(ms[n])]);
      assert [Add(ms[n])][1..] == [];
    }
  }

  // ---------------------------------------------------------------- what a handler does to a deployment

  /** The entries of a deployment in one bucket of the index. */
  function OwnIn(st: State, id: string, d: string, s: string): seq<EventDesc> {
    Own(Filed(st.log, d, s), id)
  }

  /** A create adds the deployment's events to whatever the index holds, whether or not it can be stored. */
  lemma CreateDoes(st: State, m: Metadata, works: bool, id: string, d: string, s: string)
    ensures var r := Next(st, Create(m, works));
            && r.store == (if works && m.camundaDeploymentId != "" then st.store[m.camundaDeploymentId := m]
                           else st.store)
            && OwnIn(r, id, d, s) ==
               OwnIn(st, id, d, s) + if id == m.camundaDeploymentId then Filed(Entries(m), d, s) else []
  {
    hide Entries, Filed, Own;
    OwnAdded(st.log, m, d, s, id);
  }

  /** An update that is stored gives the record its three new parts and the index the entries that go with them. */
  lemma UpdateDoes(st: State, op: Op, id: string, d: string, s: string)
    requires op.Update? && (op.id in st.store ==> st.store[op.id].camundaDeploymentId == op.id)
    ensures var r := Next(st, op);
            if op.id in st.store && op.works && op.id != "" then
              && r.store.Keys == st.store.Keys
              && (forall k :: k in st.store && k != op.id ==> r.store[k] == st.store[k])
              && r.store[op.id] == Metadata(op.id, DeploymentModel(op.events, op.devices, op.services,
                                                                   st.store[op.id].deployment.content))
              && OwnIn(r, id, d, s) ==
                 if id == op.id then Filed(Entries(r.store[op.id]), d, s) else OwnIn(st, id, d, s)
            else r == st
  {
    hide Entries, Filed, Own, Purged;
    if op.id in st.store && op.works && op.id != "" {
      var m := Updated(st.store[op.id], op.events, op.devices, op.services);
      OwnAdded(Purged(st.log, op.id), m, d, s, id);
      OwnWithout(st.log, op.id, d, s, id);
    }
  }

  /** A delete notification takes the deployment's events out of the index whatever becomes of the record. */
  lemma DeleteDoes(st: State, gone: string, works: bool, id: string, d: string, s: string)
    ensures var r := Next(st, Delete(gone, works));
            && (works ==> gone !in r.store && forall k :: k != gone ==> Lookup(r.store, k) == Lookup(st.store, k))
            && (!works ==> r.store == st.store)
            && OwnIn(r, id, d, s) == if id == gone then [] else OwnIn(st, id, d, s)
  {
    hide Filed, Own, Purged;
    OwnWithout(st.log, gone, d, s, id);
  }

  /** A restart leaves in the index what the records give, and nothing else. */
  lemma RestartDoes(st: State, id: string, d: string, s: string)
    requires forall k :: k in st.store ==> st.store[k].camundaDeploymentId == k
    ensures var r := Next(st, Restart);
            && r.store == st.store
            && OwnIn(r, id, d, s) == if id in st.store then Filed(Entries(st.store[id]), d, s) else []
  {
    hide Entries, Filed, Own, LogOf;
    var keys, ms := Ascending(st.store.Keys), Listing(st.store);
    assert forall i :: 0 <= i < |keys| ==> keys[i] in keys;
    LogOfOwn(ms, d, s, id);
    if id in st.store {
      assert id in keys;
      var i :| 0 <= i < |keys| && keys[i] == id;
      assert ms[i] == st.store[id];
    }
  }

  // ---------------------------------------------------------------- whole runs

  lemma {:induction false} PurgedUsed(log: seq<Entry>, id: string, used: set<string>)
    requires forall i :: 0 <= i < |log| ==> log[i].event.deploymentId in used
    ensures forall i :: 0 <= i < |Purged(log, id)| ==> Purged(log, id)[i].event.deploymentId in used
  {
    if log != [] {
      PurgedUsed(log[1..], id, used);
    }
  }

  lemma {:induction false} LogOfUsed(ms: seq<Metadata>, used: set<string>)
    requires forall i :: 0 <= i < |ms| ==> ms[i].camundaDeploymentId in used
    ensures forall i :: 0 <= i < |LogOf(ms)| ==> LogOf(ms)[i].event.deploymentId in used
  {
    hide Entries;
    if ms != [] {
      LogOfUsed(ms[..|ms| - 1], used);
      EntriesOwn(ms[|ms| - 1]);
    }
  }

  lemma StaysUsed(st: State, op: Op)
    requires Coherent(st) && AllUsed(st)
    ensures AllUsed(Next(st, op)) && st.used <= Next(st, op).used
  {
    hide Entries, Purged, LogOf, Filed, Own;
    match op
    case Create(m, works) => EntriesOwn(m);
    case Update(id, events, devices, services, works) =>
      if id in st.store {
        assert RecordInStep(st, id);
        EntriesOwn(Updated(st.store[id], events, devices, services));
        PurgedUsed(st.log, id, st.used);
      }
    case Delete(id, works) => PurgedUsed(st.log, id, st.used);
    case Sync(ids, works) =>
    case Restart =>
      var keys, ms := Ascending(st.store.Keys), Listing(st.store);
      forall i | 0 <= i < |ms| ensures ms[i].camundaDeploymentId in st.used {
        assert keys[i] in keys;
        assert RecordInStep(st, keys[i]);
      }
      LogOfUsed(ms, st.used);
  }

  lemma StepKeeps(st: State, op: Op)
    requires Coherent(st) && AllUsed(st) && Fresh(st, op)
    ensures Coherent(Next(st, op)) <==> Removing(st, op)
  {
    hide Coherent, AllUsed, Next;
    match op
    case Create(_, _) => CreateKeeps(st, op);
    case Update(_, _, _, _, _) => UpdateKeeps(st, op);
    case Delete(_, _) => DeleteKeepsIff(st, op);
    case Sync(_, _) => SyncKeeps(st, op);
    case Restart => RestartKeeps(st, op);
  }

  function Run(st: State, ops: seq<Op>): State
    decreases |ops|
  {
    if ops == [] then st else Run(Next(st, ops[0]), ops[1..])
  }

  /** Every create gets a fresh id, and every delete removes its record. */
  predicate Lawful(st: State, ops: seq<Op>)
    decreases |ops|
  {
    ops == [] || (Fresh(st, ops[0]) && Removing(st, ops[0]) && Lawful(Next(st, ops[0]), ops[1..]))
  }

  /** Store and index stay in step over every run of handlers, from the empty state or any coherent one. */
  lemma {:induction false} RunsStayCoherent(st: State, ops: seq<Op>)
    requires Coherent(st) && AllUsed(st) && Lawful(st, ops)
    ensures Coherent(Run(st, ops)) && AllUsed(Run(st, ops))
    decreases |ops|
  {
    hide Coherent, AllUsed, Next, Fresh, Removing;
    if ops != [] {
      StepKeeps(st, ops[0]);
      StaysUsed(st, ops[0]);
      RunsStayCoherent(Next(st, ops[0]), ops[1..]);
    }
  }

  /** The deployment is neither in the store nor in the index. */
  ghost predicate Gone(st: State, id: string) {
    id !in st.store && forall d, s :: OwnIn(st, id, d, s) == []
  }

  lemma GoneStays(st: State, op: Op, id: string)
    requires Coherent(st) && Gone(st, id) && (op.Create? ==> op.m.camundaDeploymentId != id)
    ensures Gone(Next(st, op), id)
  {
    hide Entries, Filed, Own, Purged, LogOf;
    forall k | k in st.store ensures st.store[k].camundaDeploymentId == k {
      assert RecordInStep(st, k);
    }
    hide Coherent;
    forall d, s ensures id !in Next(st, op).store && OwnIn(Next(st, op), id, d, s) == [] {
      assert OwnIn(st, id, d, s) == [];
      match op
      case Create(m, works) => CreateDoes(st, m, works, id, d, s);
      case Update(_, _, _, _, _) => UpdateDoes(st, op, id, d, s);
      case Delete(gone, works) => DeleteDoes(st, gone, works, id, d, s);
      case Sync(_, _) =>
      case Restart => RestartDoes(st, id, d, s);
    }
  }

  lemma {:induction false} GoneForRuns(st: State, ops: seq<Op>, id: string)
    requires Coherent(st) && AllUsed(st) && Lawful(st, ops) && Gone(st, id) && id in st.used
    ensures Gone(Run(st, ops), id)
    decreases |ops|
  {
    hide Coherent, AllUsed, Next, Removing, Gone;
    if ops != [] {
      StepKeeps(st, ops[0]);
      StaysUsed(st, ops[0]);
      GoneStays(st, ops[0], id);
      GoneForRuns(Next(st, ops[0]), ops[1..], id);
    }
  }

  /** Once a deployment has been deleted, no run of handlers brings its record or any of its events back. */
  lemma DeletedForGood(st: State, id: string, ops: seq<Op>)
    requires Coherent(st) && AllUsed(st) && id in st.used && Lawful(Next(st, Delete(id, true)), ops)
    ensures Gone(Run(Next(st, Delete(id, true)), ops), id)
  {
    hide Coherent, AllUsed, Lawful, Run, Filed, Own, Purged;
    var r := Next(st, Delete(id, true));
    StepKeeps(st, Delete(id, true));
    StaysUsed(st, Delete(id, true));
    forall d, s ensures OwnIn(r, id, d, s) == [] {
      DeleteDoes(st, id, true, id, d, s);
    }
    GoneForRuns(r, ops, id);
  }

  const INITIAL := State(map[], [], {})

  lemma RunsFromStart(ops: seq<Op>)
    requires Lawful(INITIAL, ops)
    ensures Coherent(Run(INITIAL, ops))
  {
    hide Lawful, Run;
    RunsStayCoherent(INITIAL, ops);
  }
}
