/** EventRepo of pkg/events/repo/repo.go; the mutex makes each method atomic. */
module EventRepo {
  import opened EventLog

  /** addEvent: file an event, creating the device's map if there is none. */
  function AddEvent(ix: Index, device: string, service: string, event: EventDesc): (r: Index)
    ensures NoEmpty(ix) ==> NoEmpty(r)
    ensures forall d, s :: Bucket(r, d, s) ==
              if d == device && s == service then Bucket(ix, d, s) + [event.(userId := USER_ID)] else Bucket(ix, d, s)
  {
    var services := if device in ix then ix[device] else map[];
    var bucket := if service in services then services[service] else [];
    ix[device := services[service := bucket + [event.(userId := USER_ID)]]]
  }

  class Repo {
    var events: Index
    ghost var log: seq<Entry>

    ghost predicate Valid()
      reads this
    {
      Indexes(events, log)
    }

    constructor ()
      ensures Valid() && log == []
    {
      events, log := map[], [];
    }

    method AddDeployment(m: Metadata)
      requires Valid()
      modifies this
      ensures Valid() && log == old(log) + Entries(m)
      ensures forall d, s :: Bucket(events, d, s) == old(Bucket(events, d, s)) + Filed(Entries(m), d, s)
    {
      var es := m.deployment.events;
      ghost var was := log;
      ResolvedUser(m, es);
      assert was + ResolvedAll(m, es[..0]) == was;
      for i := 0 to |es|
        invariant Valid() && log == was + ResolvedAll(m, es[..i])
      {
        AddResolved(m, es[i]);
        assert es[..i + 1] == es[..i] + [es[i]];
        ResolvedConcat(m, es[..i], [es[i]]);
        assert ResolvedAll(m, [es[i]]) == Resolved(m, es[i]);
      }
      assert es[..|es|] == es;
      forall d, s ensures Filed(log, d, s) == Filed(was, d, s) + Filed(Entries(m), d, s) {
        FiledConcat(was, Entries(m), d, s);
      }
    }

    /** The body of the loop in addDeployment. */
    method AddResolved(m: Metadata, e: EventDesc)
      requires Valid()
      modifies this
      ensures Valid() && log == old(log) + Resolved(m, e)
    {
      if e.deviceId !in m.deployment.deviceIdToLocalId || e.serviceId !in m.deployment.serviceIdToLocalId {
        return;
      }
      var device := m.deployment.deviceIdToLocalId[e.deviceId];
      var service := m.deployment.serviceIdToLocalId[e.serviceId];
      var event := e.(deploymentId := m.camundaDeploymentId);
      events := AddEvent(events, device, service, event);
      EventAdded(old(events), log, device, service, event);
      assert Resolved(m, e) == [Entry(device, service, event.(userId := USER_ID))];
      log := log + Resolved(m, e);
    }

    /** Builds the index anew from what other deployments have in it, in whatever order the maps are iterated. */
    method RemoveDeployment(deploymentId: string)
      requires Valid()
      modifies this
      ensures Valid() && log == Purged(old(log), deploymentId)
      ensures forall d, s :: Bucket(events, d, s) == Others(old(Bucket(events, d, s)), deploymentId)
    {
      hide Indexes, NoEmpty, Bucket;
      NothingFiled(events, deploymentId);
      var newEvents: Index := map[];
      var devices := events.Keys;
      while devices != {}
        invariant events == old(events) && log == old(log) && Valid()
        invariant devices <= events.Keys && NoEmpty(newEvents)
        invariant forall d, s :: Bucket(newEvents, d, s) ==
                    if d in devices then [] else Others(Bucket(events, d, s), deploymentId)
        decreases devices
      {
        var device :| device in devices;
        newEvents := KeepOthers(newEvents, device, deploymentId);
        devices := devices - {device};
      }
      Rebuilt(events, log, newEvents, deploymentId);
      events := newEvents;
      log := Purged(log, deploymentId);
    }

    method Find(device: string, service: string) returns (result: seq<EventDesc>)
      requires Valid()
      ensures result == Filed(log, device, service)
    {
      assert Bucket(events, device, service) == Filed(log, device, service);
      if device !in events {
        return [];
      }
      if service !in events[device] {
        return [];
      }
      return events[device][service];
    }

    /** The middle loop of RemoveDeployment: the services of one device. */
    method KeepOthers(ix: Index, device: string, deploymentId: string) returns (r: Index)
      requires Valid() && device in events && NoEmpty(ix) && forall s :: Bucket(ix, device, s) == []
      ensures NoEmpty(r)
      ensures forall d, s :: Bucket(r, d, s) ==
                if d == device then Others(Bucket(events, d, s), deploymentId) else Bucket(ix, d, s)
    {
      hide Indexes, NoEmpty, Others;
      r := ix;
      var services := events[device].Keys;
      NothingOthers(deploymentId);
      while services != {}
        invariant events == old(events) && log == old(log)
        invariant services <= events[device].Keys && NoEmpty(r)
        invariant forall d, s :: Bucket(r, d, s) ==
                    if d == device && s !in services then Others(Bucket(events, d, s), deploymentId)
                    else Bucket(ix, d, s)
        decreases services
      {
        var service :| service in services;
        BucketUsers(events, log, device, service);
        r := KeepBucket(r, device, service, events[device][service], deploymentId);
        services := services - {service};
      }
    }
  }

  /** The inner loop of RemoveDeployment: the events of one bucket. */
  method KeepBucket(ix: Index, device: string, service: string, es: seq<EventDesc>, deploymentId: string)
    returns (r: Index)
    requires NoEmpty(ix) && forall i :: 0 <= i < |es| ==> es[i].userId == USER_ID
    ensures NoEmpty(r)
    ensures forall d, s :: Bucket(r, d, s) ==
              Bucket(ix, d, s) + if d == device && s == service then Others(es, deploymentId) else []
  {
    hide Bucket, AddEvent, NoEmpty;
    r := ix;
    for i := 0 to |es|
      invariant NoEmpty(r)
      invariant forall d, s :: Bucket(r, d, s) ==
                  Bucket(ix, d, s) + if d == device && s == service then Others(es[..i], deploymentId) else []
    {
      assert es[..i + 1] == es[..i] + [es[i]];
      OthersConcat(es[..i], [es[i]], deploymentId);
      if es[i].deploymentId != deploymentId {
        r := AddEvent(r, device, service, es[i]);
      }
    }
    assert es[..|es|] == es;
  }

  lemma EventAdded(ix: Index, log: seq<Entry>, device: string, service: string, event: EventDesc)
    requires Indexes(ix, log)
    ensures Indexes(AddEvent(ix, device, service, event), log + [Entry(device, service, event.(userId := USER_ID))])
  {
    hide AddEvent;
    var entry := Entry(device, service, event.(userId := USER_ID));
    forall d, s
      ensures Filed(log + [entry], d, s) == Filed(log, d, s) + if d == device && s == service then [entry.event] else []
    {
      FiledConcat(log, [entry], d, s);
    }
  }

  lemma NothingOthers(id: string)
    ensures Others([], id) == []
  {
  }

  /** Before the loop nothing is filed, and nothing is filed under devices without a map. */
  lemma NothingFiled(ix: Index, id: string)
    ensures NoEmpty(map[]) && forall d, s :: Bucket(map[], d, s) == []
    ensures forall d, s :: d !in ix ==> Others(Bucket(ix, d, s), id) == []
  {
  }

  lemma BucketUsers(ix: Index, log: seq<Entry>, d: string, s: string)
    requires Indexes(ix, log) && d in ix && s in ix[d]
    ensures forall i :: 0 <= i < |ix[d][s]| ==> ix[d][s][i].userId == USER_ID
  {
    FiledUser(log, d, s);
    assert Bucket(ix, d, s) == Filed(log, d, s);
  }

  lemma Rebuilt(ix: Index, log: seq<Entry>, r: Index, id: string)
    requires Indexes(ix, log) && NoEmpty(r)
    requires forall d, s :: Bucket(r, d, s) == Others(Bucket(ix, d, s), id)
    ensures Indexes(r, Purged(log, id))
  {
    hide NoEmpty;
    WithoutUser(log, id);
    forall d, s ensures Bucket(r, d, s) == Filed(Purged(log, id), d, s) {
      FiledWithout(log, id, d, s);
    }
  }
}
