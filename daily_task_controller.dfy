/**
 * The DailyTask controller: the status write with its existence check and
 * fallback, and the list/watch loop that keeps the resource-version token and
 * decides which resources are reconciled.
 *
 * The Kubernetes client is not modelled: a call is recorded in a trace, and
 * whether it returns or throws is an input. Payloads arrive as JSON values.
 */
module DailyTaskController {
  import opened Wrappers
  import opened Models
  import Json

  const Group: string := "example.com"
  const Version: string := "v1"
  const Plural: string := "dailytasks"

  // ---------------------------------------------------------------------------
  // Status write

  /** The wall clock as the status needs it: the time formatted `HH:mm:ss` and
      the name of the day of the week. */
  datatype Clock = Clock(time: string, day: string)

  /** The status written for every resource: today's time and day, rated `Good`. */
  function ComputeStatus(clock: Clock): V1DailyTaskStatus {
    V1DailyTaskStatus(Some(DayInfo(Some(clock.time), Some(clock.day), Good)))
  }

  /** The merge-patch document `{ "status": … }`. */
  function PatchBody(status: V1DailyTaskStatus): Json.Value {
    Json.Object([("status", EncodeStatus(status))])
  }

  datatype PatchType = MergePatch

  datatype V1Patch = V1Patch(content: Json.Value, patchType: PatchType)

  /** The group, version, namespace, plural and name a request addresses. */
  datatype Target = Target(group: string, version: string, namespace: string, plural: string, name: Option<string>)

  datatype ApiCall =
    | GetObject(target: Target)
    | PatchStatus(patch: V1Patch, target: Target)
    | PatchObject(patch: V1Patch, target: Target)

  /** Whether each client call, if it is made, returns or throws. */
  datatype CallOutcomes = CallOutcomes(getSucceeds: bool, statusPatchSucceeds: bool, patchSucceeds: bool)

  /** How a status write ended; each is only logged, none reaches the caller. */
  datatype Report =
    | NullReference       // the resource or its metadata was null
    | ExistenceCheckFailed
    | StatusPatched
    | FallbackPatched
    | BothPatchesFailed

  datatype UpdateResult = UpdateResult(calls: seq<ApiCall>, report: Report)

  /** Every request addresses the resource's own namespace when it has one, else the
      controller's, and the resource's own name. */
  function TargetOf(controllerNamespace: string, meta: ObjectMeta): Target {
    Target(Group, Version, meta.namespace.GetOr(controllerNamespace), Plural, meta.name)
  }

  /** `UpdateStatus`: the calls made for one resource, given how each call turns out. */
  function UpdateStatus(controllerNamespace: string, task: Option<V1DailyTask>, clock: Clock,
                        outcomes: CallOutcomes): (r: UpdateResult)
    ensures |r.calls| <= 3
    ensures r.calls != [] ==> r.calls[0].GetObject?
    ensures forall i :: 0 < i < |r.calls| ==> !r.calls[i].GetObject?
  {
    if task.None? || task.value.metadata.None? then UpdateResult([], NullReference)
    else
      var target := TargetOf(controllerNamespace, task.value.metadata.value);
      var patch := StatusPatch(clock);
      if !outcomes.getSucceeds then
        UpdateResult([GetObject(target)], ExistenceCheckFailed)
      else if outcomes.statusPatchSucceeds then
        UpdateResult([GetObject(target), PatchStatus(patch, target)], StatusPatched)
      else
        UpdateResult([GetObject(target), PatchStatus(patch, target), PatchObject(patch, target)],
                     if outcomes.patchSucceeds then FallbackPatched else BothPatchesFailed)
  }

  predicate IsPatch(c: ApiCall) {
    c.PatchStatus? || c.PatchObject?
  }

  /** The patch every write sends: the computed status as a merge patch. */
  function StatusPatch(clock: Clock): V1Patch {
    V1Patch(PatchBody(ComputeStatus(clock)), MergePatch)
  }

  /** A non-null resource always gets the existence check; when it fails the write
      ends there, and neither patch endpoint is called. */
  lemma NoPatchAfterFailedGet(ns: string, task: Option<V1DailyTask>, clock: Clock, outcomes: CallOutcomes)
    requires !outcomes.getSucceeds
    ensures forall c :: c in UpdateStatus(ns, task, clock, outcomes).calls ==> !IsPatch(c)
    ensures task.Some? && task.value.metadata.Some? ==>
      UpdateStatus(ns, task, clock, outcomes) ==
        UpdateResult([GetObject(TargetOf(ns, task.value.metadata.value))], ExistenceCheckFailed)
  {
  }

  /** After a passing existence check the status-subresource patch is always made,
      first; the whole-object patch is made only when it failed. */
  lemma StatusPatchFirst(ns: string, task: Option<V1DailyTask>, clock: Clock, outcomes: CallOutcomes)
    ensures var calls := UpdateStatus(ns, task, clock, outcomes).calls;
      && (forall i :: 0 <= i < |calls| && IsPatch(calls[i]) ==> i > 0 && calls[1].PatchStatus?)
      && (outcomes.statusPatchSucceeds ==> forall c :: c in calls ==> !c.PatchObject?)
    ensures task.Some? && task.value.metadata.Some? && outcomes.getSucceeds && outcomes.statusPatchSucceeds ==>
      var target := TargetOf(ns, task.value.metadata.value);
      UpdateStatus(ns, task, clock, outcomes) ==
        UpdateResult([GetObject(target), PatchStatus(StatusPatch(clock), target)], StatusPatched)
  {
  }

  /** After the existence check succeeds and the status patch fails, the whole-object
      patch is made exactly once, last, with the same merge-patch document. */
  lemma FallbackExactlyOnce(ns: string, task: V1DailyTask, clock: Clock, outcomes: CallOutcomes)
    requires task.metadata.Some?
    requires outcomes.getSucceeds && !outcomes.statusPatchSucceeds
    ensures var calls := UpdateStatus(ns, Some(task), clock, outcomes).calls;
      && |calls| == 3
      && (forall i :: 0 <= i < |calls| ==> (calls[i].PatchObject? <==> i == 2))
      && calls[1].PatchStatus? && calls[2].patch == calls[1].patch
      && calls[1].patch.patchType == MergePatch
  {
  }

  /** Failures are swallowed: the write always ends normally, and it ends in
      `BothPatchesFailed` exactly when the existence check passed and both patches threw. */
  lemma FailuresSwallowed(ns: string, task: Option<V1DailyTask>, clock: Clock, outcomes: CallOutcomes)
    ensures var r := UpdateStatus(ns, task, clock, outcomes);
      r.report == BothPatchesFailed <==>
        task.Some? && task.value.metadata.Some? && outcomes.getSucceeds &&
        !outcomes.statusPatchSucceeds && !outcomes.patchSucceeds
    ensures var r := UpdateStatus(ns, task, clock, outcomes);
      r.report == NullReference <==> r.calls == []
  {
  }

  /** Every call addresses the resource's namespace (else the controller's) and its name. */
  lemma CallsTargetTheResource(ns: string, task: Option<V1DailyTask>, clock: Clock, outcomes: CallOutcomes)
    ensures forall c :: c in UpdateStatus(ns, task, clock, outcomes).calls ==>
      && task.Some? && task.value.metadata.Some?
      && c.target.namespace == (if task.value.metadata.value.namespace.Some?
                                then task.value.metadata.value.namespace.value else ns)
      && c.target.name == task.value.metadata.value.name
      && c.target.group == "example.com" && c.target.version == "v1" && c.target.plural == "dailytasks"
  {
  }

  /** Every patch is a merge patch whose `status` reads back as today's time and day
      rated `Good`, whatever the resource's spec and status. */
  lemma PatchCarriesComputedStatus(ns: string, task: Option<V1DailyTask>, clock: Clock, outcomes: CallOutcomes)
    ensures forall c :: c in UpdateStatus(ns, task, clock, outcomes).calls && IsPatch(c) ==>
      && c.patch.patchType == MergePatch
      && c.patch.content.Object?
      && Json.Get(c.patch.content.fields, "status").Some?
      && Json.Get(c.patch.content.fields, "status").value.Object?
      && ReadStatus(NewStatus, Json.Get(c.patch.content.fields, "status").value.fields)
         == Success(V1DailyTaskStatus(Some(DayInfo(Some(clock.time), Some(clock.day), Good))))
  {
    var status := ComputeStatus(clock);
    StatusRoundTrip(status);
  }

  /** The write depends on the resource only through its metadata: two resources with
      the same metadata produce the same calls, whatever their spec and status. */
  lemma UpdateIgnoresSpecAndStatus(ns: string, t1: V1DailyTask, t2: V1DailyTask, clock: Clock, outcomes: CallOutcomes)
    requires t1.metadata == t2.metadata
    ensures UpdateStatus(ns, Some(t1), clock, outcomes) == UpdateStatus(ns, Some(t2), clock, outcomes)
  {
  }

  // ---------------------------------------------------------------------------
  // List and watch

  datatype WatchEventType = Added | Modified | Deleted | Bookmark | Error

  /** A status write started for a listed resource (awaited in list order) or for a
      watch event (started without waiting; the resource may be null). */
  datatype Dispatch = Awaited(task: V1DailyTask) | Spawned(item: Option<V1DailyTask>)

  /** What the loop keeps between list and watch: the token and the writes started so far. */
  datatype LoopState = LoopState(resourceVersion: Option<string>, dispatched: seq<Dispatch>)

  /** `item?.Metadata?.ResourceVersion`. */
  function ItemVersion(item: Option<V1DailyTask>): Option<string> {
    if item.Some? && item.value.metadata.Some? then item.value.metadata.value.resourceVersion else None
  }

  predicate AllDecode(items: seq<Json.Value>) {
    forall i :: 0 <= i < |items| ==> DecodeTask(items[i]).Success?
  }

  /** The awaited writes for listed items: one per item that reads as a non-null
      resource, in list order, up to the first item that cannot be read. */
  function ListDispatches(items: seq<Json.Value>): seq<Dispatch> {
    if items == [] then []
    else
      var d := DecodeTask(items[0]);
      if d.Failure? then [] else ItemDispatch(d.value) + ListDispatches(items[1..])
  }

  /** The awaited write for one listed item that was read: none for `null`. */
  function ItemDispatch(item: Option<V1DailyTask>): seq<Dispatch> {
    if item.Some? then [Awaited(item.value)] else []
  }

  /** Reading the listed items one after the other: the writes for a prefix that reads
      completely are followed by those for the rest. */
  lemma {:induction false} ListDispatchesAppend(a: seq<Json.Value>, b: seq<Json.Value>)
    requires AllDecode(a)
    ensures ListDispatches(a + b) == ListDispatches(a) + ListDispatches(b)
  {
    if a != [] {
      assert (a + b)[0] == a[0];
      assert (a + b)[1..] == a[1..] + b;
      var d := DecodeTask(a[0]);
      assert d.Success?;
      assert AllDecode(a[1..]) by {
        forall i | 0 <= i < |a| - 1 ensures DecodeTask(a[1..][i]).Success? {
          assert a[1..][i] == a[i + 1];
        }
      }
      ListDispatchesAppend(a[1..], b);
      calc {
        ListDispatches(a + b);
        ItemDispatch(d.value) + ListDispatches(a[1..] + b);
        ItemDispatch(d.value) + (ListDispatches(a[1..]) + ListDispatches(b));
        ListDispatches(a) + ListDispatches(b);
      }
    } else {
      assert a + b == b;
    }
  }

  /** One listed item starts a write exactly when it reads as a non-null resource. */
  lemma ListDispatchesOne(x: Json.Value)
    ensures DecodeTask(x) == Success(None) ==> ListDispatches([x]) == []
    ensures DecodeTask(x).Success? && DecodeTask(x).value.Some? ==>
      ListDispatches([x]) == [Awaited(DecodeTask(x).value.value)]
  {
    assert [x][1..] == [];
  }

  /** An item that cannot be read stops the list: nothing after it is reconciled. */
  lemma ListStopsAtUnreadable(a: seq<Json.Value>, x: Json.Value, b: seq<Json.Value>)
    requires AllDecode(a)
    requires DecodeTask(x).Failure?
    ensures ListDispatches(a + [x] + b) == ListDispatches(a)
  {
    ListDispatchesAppend(a, [x] + b);
    assert a + [x] + b == a + ([x] + b);
    assert ListDispatches([x] + b) == [];
    assert ListDispatches(a) + [] == ListDispatches(a);
  }

  /** The token part of the list step: `metadata.resourceVersion` replaces the token
      when present (`null` included); a value that is not a string, or a `metadata`
      that is not an object, throws. */
  function AfterListVersion(st: LoopState, fs: seq<(string, Json.Value)>): (LoopState, bool) {
    match Json.Get(fs, "metadata")
    case None => (st, true)
    case Some(Object(mfs)) =>
      (match Json.Get(mfs, "resourceVersion")
       case None => (st, true)
       case Some(String(s)) => (st.(resourceVersion := Some(s)), true)
       case Some(Null) => (st.(resourceVersion := None), true)
       case Some(_) => (st, false))
    case Some(_) => (st, false)
  }

  /** The items part of the list step: one awaited write per readable non-null item;
      an `items` that is not an array, or an unreadable item, throws. */
  function AfterListItems(st: LoopState, fs: seq<(string, Json.Value)>): (LoopState, bool) {
    match Json.Get(fs, "items")
    case None => (st, true)
    case Some(Array(items)) => (st.(dispatched := st.dispatched + ListDispatches(items)), AllDecode(items))
    case Some(_) => (st, false)
  }

  /** The list step: token first, then items. `false` means it threw and the outer
      loop backs off; a `null` response is skipped. */
  function AfterList(st: LoopState, response: Json.Value): (LoopState, bool) {
    match response
    case Null => (st, true)
    case Object(fs) =>
      var (st1, ok) := AfterListVersion(st, fs);
      if !ok then (st1, false) else AfterListItems(st1, fs)
    case _ => (st, false)
  }

  /** What reading an event's payload gives: a resource, `null`, or an error. */
  type Read = Result<Option<V1DailyTask>, string>

  /** One watch event once its payload is read: an unreadable payload changes nothing;
      otherwise the token takes the resource's version when it has one, and a write is
      started for `Added` and `Modified` only. */
  function Step(st: LoopState, kind: WatchEventType, r: Read): LoopState {
    match r
    case Failure(_) => st
    case Success(item) =>
      LoopState(
        if ItemVersion(item).Some? then ItemVersion(item) else st.resourceVersion,
        st.dispatched + (if kind == Added || kind == Modified then [Spawned(item)] else []))
  }

  /** The events of one watch, each with its payload read, in the order they arrive. */
  function Steps(st: LoopState, events: seq<(WatchEventType, Read)>): LoopState
    decreases |events|
  {
    if events == [] then st
    else
      var last := events[|events| - 1];
      Step(Steps(st, events[..|events| - 1]), last.0, last.1)
  }

  /** Reads the payload of every event. */
  function ReadEvents(events: seq<(WatchEventType, Json.Value)>): (rs: seq<(WatchEventType, Read)>)
    ensures |rs| == |events|
    ensures forall k :: 0 <= k < |events| ==> rs[k] == (events[k].0, DecodeTask(events[k].1))
  {
    if events == [] then [] else [(events[0].0, DecodeTask(events[0].1))] + ReadEvents(events[1..])
  }

  /** A watch delivering `events`. */
  function AfterEvents(st: LoopState, events: seq<(WatchEventType, Json.Value)>): LoopState {
    Steps(st, ReadEvents(events))
  }

  /** The version an event carries: that of the resource its payload reads as, if any. */
  function EventVersion(e: (WatchEventType, Read)): Option<string> {
    if e.1.Success? then ItemVersion(e.1.value) else None
  }

  /** After a run of events the token is the version of the last event that carries one,
      and unchanged when none does. */
  lemma {:induction false} TokenAfterEvents(st: LoopState, events: seq<(WatchEventType, Read)>)
    ensures var rv := Steps(st, events).resourceVersion;
      (forall k :: 0 <= k < |events| ==> EventVersion(events[k]).None?) ==> rv == st.resourceVersion
    ensures var rv := Steps(st, events).resourceVersion;
      (exists k :: 0 <= k < |events| && EventVersion(events[k]).Some?) ==>
        exists k :: 0 <= k < |events| && EventVersion(events[k]).Some? && rv == EventVersion(events[k]) &&
          forall j :: k < j < |events| ==> EventVersion(events[j]).None?
    decreases |events|
  {
    if events != [] {
      var n := |events| - 1;
      var init := events[..n];
      TokenAfterEvents(st, init);
      assert forall k :: 0 <= k < n ==> init[k] == events[k];
      if EventVersion(events[n]).None? {
        if exists k :: 0 <= k < |events| && EventVersion(events[k]).Some? {
          var k :| 0 <= k < |events| && EventVersion(events[k]).Some?;
          assert k < n && EventVersion(init[k]).Some?;
        }
      }
    }
  }

  /** The writes a run of events starts: one per readable `Added` or `Modified` event,
      in event order. */
  function EventDispatches(events: seq<(WatchEventType, Read)>): seq<Dispatch> {
    if events == [] then []
    else
      var e := events[0];
      (if e.1.Success? && (e.0 == Added || e.0 == Modified) then [Spawned(e.1.value)] else [])
      + EventDispatches(events[1..])
  }

  lemma {:induction false} EventDispatchesSnoc(events: seq<(WatchEventType, Read)>, e: (WatchEventType, Read))
    ensures EventDispatches(events + [e]) == EventDispatches(events) + EventDispatches([e])
  {
    if events != [] {
      assert (events + [e])[0] == events[0];
      assert (events + [e])[1..] == events[1..] + [e];
      EventDispatchesSnoc(events[1..], e);
    } else {
      assert events + [e] == [e];
    }
  }

  /** A run of events only appends, and what it appends is one write per readable
      `Added` or `Modified` event, in order. */
  lemma {:induction false} DispatchesAfterEvents(st: LoopState, events: seq<(WatchEventType, Read)>)
    ensures Steps(st, events).dispatched == st.dispatched + EventDispatches(events)
    decreases |events|
  {
    if events != [] {
      var n := |events| - 1;
      DispatchesAfterEvents(st, events[..n]);
      EventDispatchesSnoc(events[..n], events[n]);
      assert events[..n] + [events[n]] == events;
      assert [events[n]][1..] == [];
    }
  }

  /** `Deleted`, `Bookmark` and `Error` events start no write. */
  lemma {:induction false} OtherEventsStartNothing(events: seq<(WatchEventType, Read)>)
    requires forall k :: 0 <= k < |events| ==> events[k].0 != Added && events[k].0 != Modified
    ensures EventDispatches(events) == []
  {
    if events != [] {
      OtherEventsStartNothing(events[1..]);
    }
  }

  // ---------------------------------------------------------------------------
  // One pass of the outer loop

  /** The list call either returns a payload or throws. */
  datatype Listing = ListThrew | Listed(response: Json.Value)

  /** The watch request either opens a stream that delivers these events or throws. */
  datatype Watching = WatchThrew | Watched(events: seq<(WatchEventType, Json.Value)>)

  /** The delay before the next pass: the 30-minute watch window, or the 5-second
      back-off after an error. */
  datatype Wait = WatchWindow | Backoff

  function AfterCycle(st: LoopState, listing: Listing, watching: Watching): (LoopState, Wait) {
    match listing
    case ListThrew => (st, Backoff)
    case Listed(response) =>
      var (st1, ok) := AfterList(st, response);
      if !ok then (st1, Backoff)
      else
        match watching
        case WatchThrew => (st1, Backoff)
        case Watched(events) => (AfterEvents(st1, events), WatchWindow)
  }

  /** A list response at version `rv` holding the given items. */
  function ListResponse(rv: string, items: seq<Json.Value>): Json.Value {
    Json.Object([("metadata", Json.Object([("resourceVersion", Json.String(rv))])), ("items", Json.Array(items))])
  }

  /** Listing one resource takes the list's token and awaits one write for it. */
  lemma ListOneResource(st: LoopState, rv: string, t: V1DailyTask)
    ensures AfterList(st, ListResponse(rv, [EncodeTask(t)])) ==
      (LoopState(Some(rv), st.dispatched + [Awaited(t)]), true)
  {
    var fs := ListResponse(rv, [EncodeTask(t)]).fields;
    Json.GetDistinct(fs, 0);
    Json.GetDistinct(fs, 1);
    TaskRoundTrip(t);
    ListDispatchesOne(EncodeTask(t));
    var st1 := st.(resourceVersion := Some(rv));
    assert AfterListVersion(st, fs) == (st1, true);
    assert AfterListItems(st1, fs) == (st1.(dispatched := st.dispatched + [Awaited(t)]), true);
  }

  /** One `Modified` event for a resource with a version moves the token to it and
      starts one write. */
  lemma ModifiedEvent(st: LoopState, t: V1DailyTask)
    requires t.metadata.Some? && t.metadata.value.resourceVersion.Some?
    ensures AfterEvents(st, [(Modified, EncodeTask(t))]) ==
      LoopState(t.metadata.value.resourceVersion, st.dispatched + [Spawned(Some(t))])
  {
    TaskRoundTrip(t);
    var readEvents := ReadEvents([(Modified, EncodeTask(t))]);
    assert readEvents == [(Modified, Success(Some(t)))];
    assert readEvents[..0] == [];
    assert Steps(st, readEvents) == Step(st, Modified, Success(Some(t)));
  }

  /** Passes of the outer loop one after the other; the state carries over, so a
      failed pass keeps whatever token it had already taken. */
  function AfterCycles(st: LoopState, passes: seq<(Listing, Watching)>): LoopState
    decreases |passes|
  {
    if passes == [] then st
    else
      var last := passes[|passes| - 1];
      AfterCycle(AfterCycles(st, passes[..|passes| - 1]), last.0, last.1).0
  }

  /** What a run of read events leaves: the writes so far followed by the events'
      writes, and the token of the last event that carries one, else the old token. */
  lemma StepsSummary(st: LoopState, rs: seq<(WatchEventType, Read)>)
    ensures Steps(st, rs).dispatched == st.dispatched + EventDispatches(rs)
    ensures (forall k :: 0 <= k < |rs| ==> EventVersion(rs[k]).None?) ==>
      Steps(st, rs).resourceVersion == st.resourceVersion
    ensures forall k ::
      (0 <= k < |rs| && EventVersion(rs[k]).Some? && forall j :: k < j < |rs| ==> EventVersion(rs[j]).None?)
      ==> Steps(st, rs).resourceVersion == EventVersion(rs[k])
  {
    DispatchesAfterEvents(st, rs);
    TokenAfterEvents(st, rs);
  }

  /** A pass whose listing completes and whose watch opens runs the events from the
      state the listing left and waits out the watch window. */
  lemma CycleWithWatchSteps(st: LoopState, response: Json.Value, events: seq<(WatchEventType, Json.Value)>)
    requires AfterList(st, response).1
    ensures AfterCycle(st, Listed(response), Watched(events)) ==
      (Steps(AfterList(st, response).0, ReadEvents(events)), WatchWindow)
  {
  }

  /** A pass whose listing completes and whose watch opens waits out the watch window.
      Its writes are the listing's followed by one per readable `Added` or `Modified`
      event, in event order; its token is the version of the last event that carries
      one, else the token the listing left. */
  lemma CycleWithWatch(st: LoopState, response: Json.Value, events: seq<(WatchEventType, Json.Value)>)
    requires AfterList(st, response).1
    ensures var listed := AfterList(st, response).0;
      var rs := ReadEvents(events);
      var after := AfterCycle(st, Listed(response), Watched(events));
      && after.1 == WatchWindow
      && after.0.dispatched == listed.dispatched + EventDispatches(rs)
      && ((forall k :: 0 <= k < |rs| ==> EventVersion(rs[k]).None?) ==>
            after.0.resourceVersion == listed.resourceVersion)
      && (forall k ::
            (0 <= k < |rs| && EventVersion(rs[k]).Some? && forall j :: k < j < |rs| ==> EventVersion(rs[j]).None?)
            ==> after.0.resourceVersion == EventVersion(rs[k]))
  {
    CycleWithWatchSteps(st, response, events);
    StepsSummary(AfterList(st, response).0, ReadEvents(events));
  }

  /** A listing at version "100" with one resource, then a watch that delivers a
      `Modified` event for it at version "101": the token ends at "101", and two writes
      are started for the resource, the awaited one first. */
  lemma ListThenModifiedScenario(t0: V1DailyTask, t1: V1DailyTask)
    requires t1.metadata.Some? && t1.metadata.value.resourceVersion == Some("101")
    ensures
      var (st, wait) := AfterCycle(LoopState(Some(""), []), Listed(ListResponse("100", [EncodeTask(t0)])),
                                   Watched([(Modified, EncodeTask(t1))]));
      && st.resourceVersion == Some("101")
      && st.dispatched == [Awaited(t0), Spawned(Some(t1))]
      && wait == WatchWindow
  {
    var st0 := LoopState(Some(""), []);
    var st1 := LoopState(Some("100"), [Awaited(t0)]);
    var response := ListResponse("100", [EncodeTask(t0)]);
    var events := [(Modified, EncodeTask(t1))];
    ListOneResource(st0, "100", t0);
    assert st0.dispatched + [Awaited(t0)] == [Awaited(t0)];
    assert AfterList(st0, response) == (st1, true);
    ModifiedEvent(st1, t1);
    assert [Awaited(t0)] + [Spawned(Some(t1))] == [Awaited(t0), Spawned(Some(t1))];
    assert AfterEvents(st1, events) == LoopState(Some("101"), [Awaited(t0), Spawned(Some(t1))]);
    assert AfterCycle(st0, Listed(response), Watched(events)) == (AfterEvents(st1, events), WatchWindow);
  }

  /** The state `StartAsync` keeps in its locals. */
  class WatchLoop {
    var resourceVersion: Option<string>
    var dispatched: seq<Dispatch>

    function State(): LoopState
      reads this
    {
      LoopState(resourceVersion, dispatched)
    }

    /** Starts with the empty token and no writes. */
    constructor ()
      ensures State() == LoopState(Some(""), [])
    {
      resourceVersion := Some("");
      dispatched := [];
    }

    /** Handles the list response; `completed` is false when handling it threw. */
    method OnList(response: Json.Value) returns (completed: bool)
      modifies this
      ensures (State(), completed) == AfterList(old(State()), response)
    {
      if response.Null? {
        return true;
      }
      if !response.Object? {
        return false;
      }
      completed := ReadListVersion(response.fields);
      if completed {
        completed := ReconcileListed(response.fields);
      }
    }

    /** Takes the token from the list's `metadata.resourceVersion`. */
    method ReadListVersion(fs: seq<(string, Json.Value)>) returns (ok: bool)
      modifies this
      ensures (State(), ok) == AfterListVersion(old(State()), fs)
    {
      ok := true;
      var meta := Json.Get(fs, "metadata");
      if meta.Some? {
        if !meta.value.Object? {
          return false;
        }
        var rv := Json.Get(meta.value.fields, "resourceVersion");
        if rv.Some? {
          match rv.value {
            case String(s) => resourceVersion := Some(s);
            case Null => resourceVersion := None;
            case _ => ok := false;
          }
        }
      }
    }

    /** Reads the listed items in order and awaits a write for each non-null one. */
    method ReconcileListed(fs: seq<(string, Json.Value)>) returns (ok: bool)
      modifies this
      ensures (State(), ok) == AfterListItems(old(State()), fs)
    {
      var itemsField := Json.Get(fs, "items");
      if itemsField.None? {
        return true;
      }
      if !itemsField.value.Array? {
        return false;
      }
      var items := itemsField.value.items;
      var i := 0;
      while i < |items|
        invariant 0 <= i <= |items|
        invariant AllDecode(items[..i])
        invariant resourceVersion == old(resourceVersion)
        invariant dispatched == old(dispatched) + ListDispatches(items[..i])
      {
        var decoded := DecodeTask(items[i]);
        assert items[..i + 1] == items[..i] + [items[i]];
        if decoded.Failure? {
          ListStopsAtUnreadable(items[..i], items[i], items[i + 1..]);
          assert items == items[..i] + [items[i]] + items[i + 1..];
          return false;
        }
        ListDispatchesAppend(items[..i], [items[i]]);
        ListDispatchesOne(items[i]);
        if decoded.value.Some? {
          dispatched := dispatched + [Awaited(decoded.value.value)];
        }
        i := i + 1;
      }
      assert items[..i] == items;
      ok := true;
    }

    /** Handles one watch event; an event whose payload cannot be read is logged and dropped. */
    method OnEvent(kind: WatchEventType, payload: Json.Value)
      modifies this
      ensures State() == Step(old(State()), kind, DecodeTask(payload))
    {
      var decoded := DecodeTask(payload);
      if decoded.Failure? {
        return;
      }
      var item := decoded.value;
      if item.Some? && item.value.metadata.Some? && item.value.metadata.value.resourceVersion.Some? {
        resourceVersion := item.value.metadata.value.resourceVersion;
      }
      if kind == Added || kind == Modified {
        dispatched := dispatched + [Spawned(item)];
      }
    }

    /** One pass of the outer loop: list, then watch, then wait. */
    method RunCycle(listing: Listing, watching: Watching) returns (wait: Wait)
      modifies this
      ensures (State(), wait) == AfterCycle(old(State()), listing, watching)
    {
      if listing.ListThrew? {
        return Backoff;
      }
      var completed := OnList(listing.response);
      if !completed {
        return Backoff;
      }
      if watching.WatchThrew? {
        return Backoff;
      }
      ghost var listed := State();
      var events := watching.events;
      ghost var readEvents := ReadEvents(events);
      var i := 0;
      while i < |events|
        invariant 0 <= i <= |events|
        invariant State() == Steps(listed, readEvents[..i])
      {
        OnEvent(events[i].0, events[i].1);
        assert readEvents[..i + 1][..i] == readEvents[..i];
        i := i + 1;
      }
      assert readEvents[..i] == readEvents;
      wait := WatchWindow;
    }

    /** The outer loop, run for as many passes as happen before cancellation; returns
        the delay chosen after each pass. */
    method Run(passes: seq<(Listing, Watching)>) returns (waits: seq<Wait>)
      modifies this
      ensures State() == AfterCycles(old(State()), passes)
      ensures |waits| == |passes|
      ensures forall k :: 0 <= k < |passes| ==>
        waits[k] == AfterCycle(AfterCycles(old(State()), passes[..k]), passes[k].0, passes[k].1).1
    {
      waits := [];
      var i := 0;
      while i < |passes|
        invariant 0 <= i <= |passes|
        invariant |waits| == i
        invariant State() == AfterCycles(old(State()), passes[..i])
        invariant forall k :: 0 <= k < i ==>
          waits[k] == AfterCycle(AfterCycles(old(State()), passes[..k]), passes[k].0, passes[k].1).1
      {
        var wait := RunCycle(passes[i].0, passes[i].1);
        assert passes[..i + 1][..i] == passes[..i];
        waits := waits + [wait];
        i := i + 1;
      }
      assert passes[..i] == passes;
    }
  }
}
