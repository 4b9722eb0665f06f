/** The event index of pkg/events/repo/repo.go, seen as a plain log of resolved events. */
module EventLog {

  /** The fields that the index looks at, and the others in one. */
  datatype EventDesc = EventDesc(
    userId: string,
    deploymentId: string,
    deviceId: string,
    serviceId: string,
    content: string)

  datatype DeploymentModel = DeploymentModel(
    events: seq<EventDesc>,
    deviceIdToLocalId: map<string, string>,
    serviceIdToLocalId: map<string, string>,
    content: string)

  datatype Metadata = Metadata(camundaDeploymentId: string, deployment: DeploymentModel)

  const USER_ID := "senergy"

  /** Events by local device id and local service id. */
  type Index = map<string, map<string, seq<EventDesc>>>

  /** One event with the place it is filed under. */
  datatype Entry = Entry(device: string, service: string, event: EventDesc)

  function Bucket(ix: Index, device: string, service: string): seq<EventDesc> {
    if device in ix && service in ix[device] then ix[device][service] else []
  }

  /** No device without services, no service without events. */
  predicate NoEmpty(ix: Index) {
    forall d :: d in ix ==> ix[d] != map[] && forall s :: s in ix[d] ==> ix[d][s] != []
  }

  /** Where an event of a deployment is filed, and as what; nothing if its device or service is unknown. */
  function Resolved(m: Metadata, e: EventDesc): seq<Entry> {
    var d := m.deployment;
    if e.deviceId in d.deviceIdToLocalId && e.serviceId in d.serviceIdToLocalId then
      [Entry(d.deviceIdToLocalId[e.deviceId], d.serviceIdToLocalId[e.serviceId],
             e.(deploymentId := m.camundaDeploymentId, userId := USER_ID))]
    else []
  }

  function ResolvedAll(m: Metadata, es: seq<EventDesc>): seq<Entry> {
    if es == [] then [] else Resolved(m, es[0]) + ResolvedAll(m, es[1..])
  }

  /** The log entries that a deployment contributes. */
  function Entries(m: Metadata): seq<Entry> {
    ResolvedAll(m, m.deployment.events)
  }

  /** The events filed under a device and service, oldest first. */
  function Filed(log: seq<Entry>, device: string, service: string): seq<EventDesc> {
    if log == [] then []
    else (if log[0].device == device && log[0].service == service then [log[0].event] else []) +
         Filed(log[1..], device, service)
  }

  /** The log without the entries of a deployment. */
  function Purged(log: seq<Entry>, deploymentId: string): seq<Entry> {
    if log == [] then []
    else (if log[0].event.deploymentId != deploymentId then [log[0]] else []) + Purged(log[1..], deploymentId)
  }

  /** The events of other deployments. */
  function Others(es: seq<EventDesc>, deploymentId: string): seq<EventDesc> {
    if es == [] then []
    else (if es[0].deploymentId != deploymentId then [es[0]] else []) + Others(es[1..], deploymentId)
  }

  /** The events of one deployment. */
  function Own(es: seq<EventDesc>, deploymentId: string): seq<EventDesc> {
    if es == [] then []
    else (if es[0].deploymentId == deploymentId then [es[0]] else []) + Own(es[1..], deploymentId)
  }

  /** The index holds exactly what the log says, bucket by bucket and in order, and no empty bucket. */
  ghost predicate Indexes(ix: Index, log: seq<Entry>) {
    && NoEmpty(ix)
    && (forall d, s :: Bucket(ix, d, s) == Filed(log, d, s))
    && (forall i :: 0 <= i < |log| ==> log[i].event.userId == USER_ID)
  }

  /** So the log determines the index. */
  lemma IndexDetermined(a: Index, b: Index, log: seq<Entry>)
    requires Indexes(a, log) && Indexes(b, log)
    ensures a == b
  {
    forall d, s ensures (d in a && s in a[d]) <==> (d in b && s in b[d]) {
      assert Bucket(a, d, s) == Bucket(b, d, s);
    }
    forall d ensures d in a <==> d in b {
      if d in a {
        var s :| s in a[d];
        assert d in b && s in b[d];
      }
      if d in b {
        var s :| s in b[d];
        assert d in a && s in a[d];
      }
    }
    forall d | d in a ensures a[d] == b[d] {
      forall s | s in a[d] ensures a[d][s] == b[d][s] {
        assert Bucket(a, d, s) == Bucket(b, d, s);
      }
    }
  }

  // ---------------------------------------------------------------- the functions split over concatenation

  lemma {:induction false} FiledConcat(a: seq<Entry>, b: seq<Entry>, d: string, s: string)
    ensures Filed(a + b, d, s) == Filed(a, d, s) + Filed(b, d, s)
  {
    if a == [] {
      assert a + b == b;
    } else {
      assert (a + b)[1..] == a[1..] + b;
      FiledConcat(a[1..], b, d, s);
    }
  }

  lemma {:induction false} ResolvedConcat(m: Metadata, a: seq<EventDesc>, b: seq<EventDesc>)
    ensures ResolvedAll(m, a + b) == ResolvedAll(m, a) + ResolvedAll(m, b)
  {
    hide Resolved;
    if a == [] {
      assert a + b == b;
    } else {
      assert (a + b)[1..] == a[1..] + b;
      ResolvedConcat(m, a[1..], b);
    }
  }

  lemma {:induction false} OthersConcat(a: seq<EventDesc>, b: seq<EventDesc>, id: string)
    ensures Others(a + b, id) == Others(a, id) + Others(b, id)
  {
    if a == [] {
      assert a + b == b;
    } else {
      assert (a + b)[1..] == a[1..] + b;
      OthersConcat(a[1..], b, id);
      var head := if a[0].deploymentId != id then [a[0]] else [];
      assert head + (Others(a[1..], id) + Others(b, id)) == (head + Others(a[1..], id)) + Others(b, id);
    }
  }

  lemma {:induction false} OwnConcat(a: seq<EventDesc>, b: seq<EventDesc>, id: string)
    ensures Own(a + b, id) == Own(a, id) + Own(b, id)
  {
    if a == [] {
      assert a + b == b;
    } else {
      assert (a + b)[1..] == a[1..] + b;
      OwnConcat(a[1..], b, id);
      var head := if a[0].deploymentId == id then [a[0]] else [];
      assert head + (Own(a[1..], id) + Own(b, id)) == (head + Own(a[1..], id)) + Own(b, id);
    }
  }

  /** Removing a deployment from the log removes it from every bucket. */
  lemma {:induction false} FiledWithout(log: seq<Entry>, id: string, d: string, s: string)
    ensures Filed(Purged(log, id), d, s) == Others(Filed(log, d, s), id)
  {
    if log != [] {
      var e := log[0];
      FiledWithout(log[1..], id, d, s);
      FiledConcat(if e.event.deploymentId != id then [e] else [], Purged(log[1..], id), d, s);
      OthersConcat(if e.device == d && e.service == s then [e.event] else [], Filed(log[1..], d, s), id);
    }
  }

  lemma {:induction false} ResolvedUser(m: Metadata, es: seq<EventDesc>)
    ensures forall i :: 0 <= i < |ResolvedAll(m, es)| ==>
              ResolvedAll(m, es)[i].event.userId == USER_ID &&
              ResolvedAll(m, es)[i].event.deploymentId == m.camundaDeploymentId
  {
    if es != [] {
      ResolvedUser(m, es[1..]);
    }
  }

  lemma {:induction false} WithoutUser(log: seq<Entry>, id: string)
    requires forall i :: 0 <= i < |log| ==> log[i].event.userId == USER_ID
    ensures forall i :: 0 <= i < |Purged(log, id)| ==> Purged(log, id)[i].event.userId == USER_ID
  {
    if log != [] {
      WithoutUser(log[1..], id);
    }
  }

  lemma {:induction false} FiledUser(log: seq<Entry>, d: string, s: string)
    requires forall i :: 0 <= i < |log| ==> log[i].event.userId == USER_ID
    ensures forall i :: 0 <= i < |Filed(log, d, s)| ==> Filed(log, d, s)[i].userId == USER_ID
  {
    if log != [] {
      FiledUser(log[1..], d, s);
    }
  }

  // ---------------------------------------------------------------- where the events of a deployment are filed

  /** The device map takes the event's device to d, and the service map its service to s. */
  predicate Belongs(m: Metadata, e: EventDesc, d: string, s: string) {
    && e.deviceId in m.deployment.deviceIdToLocalId && m.deployment.deviceIdToLocalId[e.deviceId] == d
    && e.serviceId in m.deployment.serviceIdToLocalId && m.deployment.serviceIdToLocalId[e.serviceId] == s
  }

  /** The places, in order, of the events that belong to d and s. */
  ghost predicate PicksOut(at: seq<nat>, m: Metadata, es: seq<EventDesc>, d: string, s: string) {
    && (forall i, j :: 0 <= i < j < |at| ==> at[i] < at[j])
    && (forall i :: 0 <= i < |at| ==> at[i] < |es|)
    && (forall n :: 0 <= n < |es| ==> (n in at <==> Belongs(m, es[n], d, s)))
  }

  /** The events at the given places, each with the user and the deployment it is filed for. */
  predicate Delivered(filed: seq<EventDesc>, id: string, es: seq<EventDesc>, at: seq<nat>)
    requires forall i :: 0 <= i < |at| ==> at[i] < |es|
  {
    && |filed| == |at|
    && forall i :: 0 <= i < |at| ==>
         var e := es[at[i]]; filed[i] == EventDesc("senergy", id, e.deviceId, e.serviceId, e.content)
  }

  lemma OneMorePicked(at: seq<nat>, m: Metadata, es: seq<EventDesc>, e: EventDesc, d: string, s: string)
    requires PicksOut(at, m, es, d, s)
    ensures PicksOut(if Belongs(m, e, d, s) then at + [|es|] else at, m, es + [e], d, s)
  {
    hide Belongs;
    assert forall n :: n in at + [|es|] <==> n in at || n == |es|;
    assert forall n :: n in at ==> n < |es|;
  }

  lemma OneMoreDelivered(filed: seq<EventDesc>, id: string, es: seq<EventDesc>, at: seq<nat>, e: EventDesc)
    requires (forall i :: 0 <= i < |at| ==> at[i] < |es|) && Delivered(filed, id, es, at)
    ensures Delivered(filed, id, es + [e], at)
    ensures Delivered(filed + [EventDesc("senergy", id, e.deviceId, e.serviceId, e.content)], id, es + [e], at + [|es|])
  {
  }

  lemma {:induction false} PlacesOf(m: Metadata, es: seq<EventDesc>, d: string, s: string) returns (at: seq<nat>)
    ensures PicksOut(at, m, es, d, s) && Delivered(Filed(ResolvedAll(m, es), d, s), m.camundaDeploymentId, es, at)
    decreases |es|
  {
    if es == [] {
      at := [];
    } else {
      hide Filed, ResolvedAll, Belongs, Delivered;
      var n := |es| - 1;
      assert es == es[..n] + [es[n]];
      at := PlacesOf(m, es[..n], d, s);
      ResolvedConcat(m, es[..n], [es[n]]);
      var before := Filed(ResolvedAll(m, es[..n]), d, s);
      FiledConcat(ResolvedAll(m, es[..n]), ResolvedAll(m, [es[n]]), d, s);
      OneFiled(m, es[n], d, s);
      OneMorePicked(at, m, es[..n], es[n], d, s);
      OneMoreDelivered(before, m.camundaDeploymentId, es[..n], at, es[n]);
      hide PicksOut;
      if Belongs(m, es[n], d, s) {
        at := at + [n];
      } else {
        assert before + [] == before;
      }
    }
  }

  lemma OneFiled(m: Metadata, e: EventDesc, d: string, s: string)
    ensures Filed(ResolvedAll(m, [e]), d, s) ==
            if Belongs(m, e, d, s)
            then [EventDesc("senergy", m.camundaDeploymentId, e.deviceId, e.serviceId, e.content)] else []
  {
    assert ResolvedAll(m, [e]) == Resolved(m, e);
  }

  /**
   * Under a device and a service are filed exactly those events of a deployment whose ids its two maps take there, in
   * the order of the deployment, with user and deployment overwritten and everything else as it is.
   */
  lemma FiledAre(m: Metadata, d: string, s: string)
    ensures exists at :: PicksOut(at, m, m.deployment.events, d, s) &&
                         Delivered(Filed(Entries(m), d, s), m.camundaDeploymentId, m.deployment.events, at)
  {
    hide Filed, ResolvedAll, Belongs;
    var _ := PlacesOf(m, m.deployment.events, d, s);
  }

  // ---------------------------------------------------------------- what a deployment has in the index

  lemma {:induction false} OwnOfOthers(es: seq<EventDesc>, id: string, other: string)
    ensures Own(Others(es, id), other) == if other == id then [] else Own(es, other)
  {
    if es != [] {
      OwnOfOthers(es[1..], id, other);
      OwnConcat(if es[0].deploymentId != id then [es[0]] else [], Others(es[1..], id), other);
    }
  }

  lemma {:induction false} OwnFiled(log: seq<Entry>, id: string, d: string, s: string, other: string)
    requires forall i :: 0 <= i < |log| ==> log[i].event.deploymentId == id
    ensures Own(Filed(log, d, s), other) == if other == id then Filed(log, d, s) else []
  {
    if log != [] {
      OwnFiled(log[1..], id, d, s, other);
      OwnConcat(if log[0].device == d && log[0].service == s then [log[0].event] else [], Filed(log[1..], d, s), other);
    }
  }

  // ---------------------------------------------------------------- whole runs of the index

  datatype Call = Add(m: Metadata) | Remove(deploymentId: string)

  /** The log after some calls of AddDeployment and RemoveDeployment. */
  function After(log: seq<Entry>, calls: seq<Call>): seq<Entry>
    decreases |calls|
  {
    if calls == [] then log
    else
      match calls[0]
      case Add(m) => After(log + Entries(m), calls[1..])
      case Remove(id) => After(Purged(log, id), calls[1..])
  }

  lemma {:induction false} AfterConcat(log: seq<Entry>, a: seq<Call>, b: seq<Call>)
    ensures After(log, a + b) == After(After(log, a), b)
    decreases |a|
  {
    hide Entries, Purged;
    if a == [] {
      assert a + b == b;
    } else {
      assert (a + b)[1..] == a[1..] + b;
      AfterConcat(match a[0] { case Add(m) => log + Entries(m) case Remove(id) => Purged(log, id) }, a[1..], b);
    }
  }

  predicate Removes(calls: seq<Call>, id: string) {
    exists i :: 0 <= i < |calls| && calls[i] == Remove(id)
  }

  /** What was added and not removed by a later call, in the order in which it was added. */
  function Surviving(calls: seq<Call>): seq<Entry> {
    if calls == [] then []
    else (if calls[0].Add? && !Removes(calls[1..], calls[0].m.camundaDeploymentId) then Entries(calls[0].m) else []) +
         Surviving(calls[1..])
  }

  /** The entries that no call removes. */
  function Unremoved(log: seq<Entry>, calls: seq<Call>): seq<Entry> {
    if log == [] then []
    else (if Removes(calls, log[0].event.deploymentId) then [] else [log[0]]) + Unremoved(log[1..], calls)
  }

  lemma {:induction false} UnremovedConcat(a: seq<Entry>, b: seq<Entry>, calls: seq<Call>)
    ensures Unremoved(a + b, calls) == Unremoved(a, calls) + Unremoved(b, calls)
  {
    hide Removes;
    if a == [] {
      assert a + b == b;
    } else {
      assert (a + b)[1..] == a[1..] + b;
      UnremovedConcat(a[1..], b, calls);
    }
  }

  lemma {:induction false} UnremovedSame(log: seq<Entry>, id: string, calls: seq<Call>)
    requires forall i :: 0 <= i < |log| ==> log[i].event.deploymentId == id
    ensures Unremoved(log, calls) == if Removes(calls, id) then [] else log
  {
    hide Removes;
    if log != [] {
      UnremovedSame(log[1..], id, calls);
    }
  }

  lemma RemovesNext(calls: seq<Call>, id: string)
    requires calls != []
    ensures Removes(calls, id) <==> calls[0] == Remove(id) || Removes(calls[1..], id)
  {
    assert forall i :: 0 < i < |calls| ==> calls[i] == calls[1..][i - 1];
  }

  lemma {:induction false} UnremovedNext(log: seq<Entry>, calls: seq<Call>)
    requires calls != []
    ensures Unremoved(log, calls) ==
            if calls[0].Add? then Unremoved(log, calls[1..])
            else Unremoved(Purged(log, calls[0].deploymentId), calls[1..])
  {
    hide Removes;
    if log != [] {
      RemovesNext(calls, log[0].event.deploymentId);
      UnremovedNext(log[1..], calls);
      if calls[0].Remove? {
        var id := calls[0].deploymentId;
        var one := if log[0].event.deploymentId != id then [log[0]] else [];
        UnremovedConcat(one, Purged(log[1..], id), calls[1..]);
        assert Purged(log, id) == one + Purged(log[1..], id);
        assert one != [] ==> one[1..] == [];
      }
    }
  }

  lemma SurvivingNext(calls: seq<Call>)
    requires calls != []
    ensures Surviving(calls) ==
            (if calls[0].Add? then Unremoved(Entries(calls[0].m), calls[1..]) else []) + Surviving(calls[1..])
  {
    hide Unremoved, Removes, Entries;
    if calls[0].Add? {
      EntriesOwn(calls[0].m);
      UnremovedSame(Entries(calls[0].m), calls[0].m.camundaDeploymentId, calls[1..]);
    }
  }

  lemma {:induction false} AfterFrom(log: seq<Entry>, calls: seq<Call>)
    ensures After(log, calls) == Unremoved(log, calls) + Surviving(calls)
    decreases |calls|
  {
    if calls == [] {
      hide Unremoved;
      UnremovedAll(log);
      assert log + [] == log;
    } else {
      hide Unremoved, Purged, Removes, Entries, Surviving;
      UnremovedNext(log, calls);
      SurvivingNext(calls);
      var rest := calls[1..];
      match calls[0]
      case Remove(id) =>
        AfterFrom(Purged(log, id), rest);
      case Add(m) =>
        AfterFrom(log + Entries(m), rest);
        UnremovedConcat(log, Entries(m), rest);
        ThreeInARow(Unremoved(log, rest), Unremoved(Entries(m), rest), Surviving(rest));
    }
  }

  lemma ThreeInARow(a: seq<Entry>, b: seq<Entry>, c: seq<Entry>)
    ensures (a + b) + c == a + (b + c)
  {
  }

  lemma EntriesOwn(m: Metadata)
    ensures forall i :: 0 <= i < |Entries(m)| ==> Entries(m)[i].event.deploymentId == m.camundaDeploymentId
  {
    ResolvedUser(m, m.deployment.events);
  }

  lemma {:induction false} UnremovedAll(log: seq<Entry>)
    ensures Unremoved(log, []) == log
  {
    if log != [] {
      UnremovedAll(log[1..]);
    }
  }

  /** After any run the log is what was added and not removed later. */
  lemma AfterIsSurviving(calls: seq<Call>)
    ensures After([], calls) == Surviving(calls)
  {
    AfterFrom([], calls);
  }
}
