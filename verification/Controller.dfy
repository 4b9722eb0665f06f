/**
 * The effects of the handlers in pkg/controller on the metadata store and the event index. Each handler runs
 * to its end before the next; the parameter `works` says whether its storage transaction goes through.
 */
module Controller {
  import opened EventLog
  import opened EventRepo
  import opened Storage
  import opened Coherence

  class Ctrl {
    const metadata: Db
    var events: Repo
    ghost var used: set<string>  // the ids that the engine has handed out

    ghost predicate Valid()
      reads this, metadata, events
    {
      && events.Valid()
      && (metadata.placeholder ==> metadata.data == map[] && events.log == [])
    }

    ghost function Abstract(): State
      reads this, metadata, events
    {
      State(metadata.data, events.log, used)
    }

    /** A first start, with an empty store. */
    constructor (placeholder: bool)
      ensures Valid() && fresh(metadata) && fresh(events) && metadata.placeholder == placeholder
      ensures Abstract() == INITIAL
    {
      metadata := new Db(placeholder);
      events := new Repo();
      used := {};
    }

    // -------------------------------------------------------------- messageevent.go

    method DeployConditionalEventOperators(m: Metadata)
      requires Valid()
      modifies events
      ensures events.Valid()
      ensures events.log == if metadata.placeholder then old(events.log) else old(events.log) + Entries(m)
    {
      if metadata.placeholder {
        return;
      }
      events.AddDeployment(m);
    }

    method RemoveConditionalEventOperators(deploymentId: string)
      requires events.Valid()
      modifies events
      ensures events.Valid()
      ensures events.log == if metadata.placeholder then old(events.log) else Purged(old(events.log), deploymentId)
    {
      if metadata.placeholder {
        return;
      }
      events.RemoveDeployment(deploymentId);
    }

    // -------------------------------------------------------------- deployment.go

    /** CreateDeployment from the moment the engine has answered with an id; a failing Store is only logged. */
    method CreateDeployment(id: string, deployment: DeploymentModel, works: bool)
      requires Valid()
      modifies this`used, metadata, events
      ensures Valid() && events == old(events)
      ensures used == old(used) + {id}
      ensures Abstract() == if metadata.placeholder then old(Abstract()).(used := used)
                            else Next(old(Abstract()), Create(Metadata(id, deployment), works))
      ensures !metadata.placeholder ==>
                metadata.data == if works && id != "" then old(metadata.data)[id := Metadata(id, deployment)]
                                 else old(metadata.data)
      ensures !metadata.placeholder ==>
                forall d, s :: Filed(events.log, d, s) ==
                               old(Filed(events.log, d, s)) + Filed(Entries(Metadata(id, deployment)), d, s)
    {
      hide Entries, Filed;
      var m := Metadata(id, deployment);
      used := used + {id};
      var _ := metadata.Store(m, works);
      DeployConditionalEventOperators(m);
      forall d, s ensures Filed(old(events.log) + Entries(m), d, s) ==
                          old(Filed(events.log, d, s)) + Filed(Entries(m), d, s) {
        FiledConcat(old(events.log), Entries(m), d, s);
      }
    }

    /** NotifyDeploymentDelete: a failing Remove is only logged. */
    method NotifyDeploymentDelete(id: string, works: bool)
      requires Valid()
      modifies metadata, events
      ensures Valid() && events == old(events)
      ensures Abstract() == if metadata.placeholder then old(Abstract()) else Next(old(Abstract()), Delete(id, works))
      ensures works ==> id !in metadata.data
      ensures forall d, s :: Own(Filed(events.log, d, s), id) == []
      ensures forall d, s, k :: k != id ==> Own(Filed(events.log, d, s), k) == old(Own(Filed(events.log, d, s), k))
    {
      hide Filed, Own, Purged;
      ghost var was := Abstract();
      var _ := metadata.Remove(id, works);
      RemoveConditionalEventOperators(id);
      forall d, s, k ensures Own(Filed(events.log, d, s), k) == if k == id then [] else Own(Filed(was.log, d, s), k) {
        DeleteDoes(was, id, works, k, d, s);
        NothingOwn(d, s, k);
      }
    }

    /** SendCurrentDeployments: the store is cut down to what the engine knows, and what is left is returned. */
    method SendCurrentDeployments(ids: seq<string>, works: bool, fetched: nat) returns (ok: bool, known: seq<Metadata>)
      requires Valid()
      modifies metadata
      ensures Valid()
      ensures Abstract() == if metadata.placeholder then old(Abstract()) else Next(old(Abstract()), Sync(ids, works))
      ensures ok && !metadata.placeholder ==> known == Listing(metadata.data)
      ensures ok && !metadata.placeholder ==>
                (forall k :: k in metadata.data <==> k in old(metadata.data) && k in ids) &&
                forall k :: k in metadata.data ==> metadata.data[k] == old(metadata.data)[k]
    {
      ok, known := metadata.EnsureKnownDeployments(ids, works, fetched);
    }

    // -------------------------------------------------------------- eventupdate.go

    method UpdateDeploymentEvents(id: string, descriptions: seq<EventDesc>, devices: map<string, string>,
                                  services: map<string, string>, works: bool) returns (ok: bool)
      requires Valid() && forall k :: k in metadata.data ==> metadata.data[k].camundaDeploymentId == k
      modifies metadata, events
      ensures Valid() && events == old(events)
      ensures Abstract() == if metadata.placeholder then old(Abstract())
                            else Next(old(Abstract()), Update(id, descriptions, devices, services, works))
      ensures ok <==> metadata.placeholder || id !in old(metadata.data) || (works && id != "")
      ensures metadata.data.Keys == old(metadata.data.Keys)
      ensures forall k :: k in metadata.data && k != id ==> metadata.data[k] == old(metadata.data)[k]
      ensures ok && id in metadata.data ==>
                metadata.data[id] == Metadata(id, DeploymentModel(descriptions, devices, services,
                                                                  old(metadata.data)[id].deployment.content))
      ensures ok && id in metadata.data ==>
                forall d, s :: Own(Filed(events.log, d, s), id) == Filed(Entries(metadata.data[id]), d, s)
      ensures forall d, s, k :: k != id ==> Own(Filed(events.log, d, s), k) == old(Own(Filed(events.log, d, s), k))
    {
      hide Entries, Filed, Own, Purged;
      ghost var was := Abstract();
      if metadata.placeholder {
        return true;
      }
      var read := metadata.Read(id);
      if read.None? {
        return true;
      }
      var m := Updated(read.value, descriptions, devices, services);
      var stored := metadata.Store(m, works);
      if !stored {
        return false;
      }
      RemoveConditionalEventOperators(id);
      DeployConditionalEventOperators(m);
      forall d, s, k ensures Own(Filed(events.log, d, s), k) ==
                             if k == id then Filed(Entries(metadata.data[id]), d, s) else Own(Filed(was.log, d, s), k) {
        UpdateDoes(was, Update(id, descriptions, devices, services, works), k, d, s);
      }
      return true;
    }

    // -------------------------------------------------------------- controller.go

    /** The loop of New: the stored deployments go into an empty index. */
    method Refill() returns (repo: Repo)
      ensures fresh(repo) && repo.Valid()
      ensures repo.log == if metadata.placeholder then [] else LogOf(Listing(metadata.data))
    {
      hide Entries, Listing;
      repo := new Repo();
      var known := metadata.List();
      for i := 0 to |known|
        invariant repo.Valid() && repo.log == LogOf(known[..i])
      {
        repo.AddDeployment(known[i]);
        assert known[..i + 1][..i] == known[..i] && known[..i + 1][i] == known[i];
      }
      assert known[..|known|] == known;
    }

    /** New on an existing store. */
    method Restart()
      requires Valid()
      modifies this`events
      ensures Valid() && fresh(events)
      ensures Abstract() == if metadata.placeholder then old(Abstract()) else Next(old(Abstract()), Op.Restart)
    {
      hide Entries;
      events := Refill();
    }
  }

  lemma NothingOwn(d: string, s: string, id: string)
    ensures Own(Filed([], d, s), id) == []
  {
  }
}
