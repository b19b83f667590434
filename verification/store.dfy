/** The app's health store: the permission round, the guarded range sync
    with its error messages, the queue flush, and what survives a restart. */
module Store {
  import opened Wrappers
  import opened Vitals
  import opened TimeWindow
  import opened Permissions

  // ---------------------------------------------------------------------
  // State

  /** A `DailyRow`: the date and the thirteen summary metrics of a day. */
  function ToDailyRow(d: DailyMetrics): (r: DailyMetrics)
    ensures r.date == d.date
    ensures forall g :: Get(r.fields, g) == if RowField(g) then Get(d.fields, g) else None
  {
    DailyMetrics(d.date, Restrict(d.fields, RowField))
  }

  function ToDailyRows(ds: seq<DailyMetrics>): (r: seq<DailyMetrics>)
    ensures |r| == |ds|
    ensures forall i :: 0 <= i < |ds| ==> r[i] == ToDailyRow(ds[i])
  {
    seq(|ds|, i requires 0 <= i < |ds| => ToDailyRow(ds[i]))
  }

  datatype HealthState = HealthState(
    permissionResult: Option<PermissionResult>, metrics: Option<Summary>, daily: seq<DailyMetrics>,
    syncing: bool, error: Option<string>, initialSynced: bool)

  const Initial: HealthState := HealthState(None, None, [], false, None, false)

  const PERMISSIONS_REQUIRED: string := "Health permissions are required to sync vitals."
  const PERMISSION_REQUEST_FAILED: string := "Permission request failed. Check device availability."
  const SYNC_FAILED: string := "Sync failed. Ensure permissions are granted and try again."

  /** The cached permission result says granted (`permissionResult?.granted`). */
  predicate Granted(p: Option<PermissionResult>)
  {
    p.Some? && p.value.granted
  }

  // ---------------------------------------------------------------------
  // Permissions

  /** `requestPermissions`, given how the platform request settled: its
      result, or `None` when it rejected. */
  function RequestPermissions(s: HealthState, reply: Option<PermissionResult>): (r: HealthState)
    // a rejected request keeps the cached result and reports the failure
    ensures reply.None? ==> r == s.(error := Some(PERMISSION_REQUEST_FAILED))
    // a settled one is cached, with an error exactly when it was refused
    ensures reply.Some? ==> r.permissionResult == reply
    ensures reply.Some? ==> (r.error.None? <==> reply.value.granted)
    ensures reply.Some? && !reply.value.granted ==> r.error == Some(PERMISSIONS_REQUIRED)
    // nothing else changes
    ensures r.metrics == s.metrics && r.daily == s.daily && r.syncing == s.syncing && r.initialSynced == s.initialSynced
  {
    match reply
    case None => s.(error := Some(PERMISSION_REQUEST_FAILED))
    case Some(p) => s.(permissionResult := Some(p), error := if p.granted then None else Some(PERMISSIONS_REQUIRED))
  }

  // ---------------------------------------------------------------------
  // The range sync

  /** What a range sync asks for. */
  datatype SyncRequest = SyncRequest(key: RangeKey, customStart: Option<string>, customEnd: Option<string>)

  /** What the world answers during a sync: the platform, how HealthKit's
      initialisation ends on iOS, how the Android permission request settles
      (`None` when it rejects), the clock, the date parser and the health
      service's range sync for a window. */
  datatype SyncEnv = SyncEnv(
    isIos: bool, healthKit: HealthKitInit, androidReply: Option<PermissionResult>, now: Instant,
    parse: string -> Option<Instant>, rangeSync: Window -> RangeOutcome)

  /** How `requestPlatformPermissions` settles. On iOS every branch of its
      promise resolves, so the request never rejects there. */
  function PlatformReply(env: SyncEnv): (r: Option<PermissionResult>)
    ensures env.isIos ==> r.Some? && r.value.platform == Ios && (r.value.granted <==> env.healthKit == InitOk)
    ensures !env.isIos ==> r == env.androidReply
  {
    if env.isIos then Some(RequestHealthKitPermissions(env.healthKit)) else env.androidReply
  }

  /** The payload `enqueueSync` stores (its `syncedAt` stamp is left out). */
  datatype QueueItem = QueueItem(deviceId: string, platform: Platform, summary: Summary, daily: seq<DailyMetrics>)

  const LOCAL_DEVICE: string := "local-device"

  /** A sync's new state, the day records handed to `saveDaily`, and the
      payload handed to `enqueueSync`, if any. */
  datatype SyncStep = SyncStep(state: HealthState, saved: seq<DailyMetrics>, queued: Option<QueueItem>)

  /** The state once the permission check of a sync is done: re-requested
      on iOS every time, elsewhere only when the cache is not granted. */
  function AfterPermissionCheck(s: HealthState, env: SyncEnv): HealthState
  {
    if !Granted(s.permissionResult) || env.isIos then RequestPermissions(s, PlatformReply(env)) else s
  }

  /** The window the sync reads, when it gets that far. */
  function SyncWindow(req: SyncRequest, env: SyncEnv): Window
  {
    ComputeRange(req.key, env.now, req.customStart, req.customEnd, env.parse)
  }

  /** Whether a started sync holds a granted permission after its check. */
  predicate PermittedAfterCheck(s: HealthState, env: SyncEnv)
  {
    Granted(AfterPermissionCheck(s.(syncing := true, error := None), env).permissionResult)
  }

  /** `syncRange(rangeKey, customStart, customEnd)`. */
  function SyncRange(s: HealthState, req: SyncRequest, env: SyncEnv): (r: SyncStep)
    // a sync in flight makes another a no-op
    ensures s.syncing ==> r == SyncStep(s, [], None)
    // otherwise the flag is cleared at the end, whatever happened
    ensures !s.syncing ==> !r.state.syncing
    ensures r.state.initialSynced == s.initialSynced
    // it succeeds exactly when the permission check ends granted and the
    // range sync resolves; then everything shown, saved and queued comes
    // from the range sync's result
    ensures !s.syncing ==>
      (r.queued.Some? <==> PermittedAfterCheck(s, env) && env.rangeSync(SyncWindow(req, env)).Resolved?)
    ensures r.queued.Some? ==>
      var res := env.rangeSync(SyncWindow(req, env)).result;
      && r.state.metrics == Some(res.summary)
      && r.state.daily == ToDailyRows(res.daily)
      && r.saved == res.daily
      && r.queued == Some(QueueItem(LOCAL_DEVICE, res.platform, res.summary, res.daily))
    // a failure reports the one sync error and keeps what was shown
    ensures !s.syncing && r.queued.None? ==>
      && r.state.error == Some(SYNC_FAILED)
      && r.state.metrics == s.metrics && r.state.daily == s.daily
      && r.saved == []
    // the error is cleared on entry, and a success leaves it cleared
    ensures r.queued.Some? ==> r.state.error.None?
    // off iOS a cached grant is trusted and no new request is made
    ensures !env.isIos && Granted(s.permissionResult) ==> r.state.permissionResult == s.permissionResult
    // a request that settles replaces the cached result
    ensures !s.syncing && (env.isIos || !Granted(s.permissionResult)) && PlatformReply(env).Some? ==>
      r.state.permissionResult == PlatformReply(env)
    // on iOS the request is made on every sync, so a cached grant cannot
    // carry a sync whose HealthKit initialisation now fails
    ensures !s.syncing && env.isIos ==> r.state.permissionResult == PlatformReply(env)
    ensures env.isIos && r.queued.Some? ==> env.healthKit == InitOk
  {
    if s.syncing then SyncStep(s, [], None)
    else
      var started := s.(syncing := true, error := None);
      var checked := AfterPermissionCheck(started, env);
      if !Granted(checked.permissionResult) then
        SyncStep(checked.(error := Some(SYNC_FAILED), syncing := false), [], None)
      else
        match env.rangeSync(SyncWindow(req, env))
        case Rejected(_) => SyncStep(checked.(error := Some(SYNC_FAILED), syncing := false), [], None)
        case Resolved(res) =>
          SyncStep(checked.(metrics := Some(res.summary), daily := ToDailyRows(res.daily), syncing := false),
                   res.daily, Some(QueueItem(LOCAL_DEVICE, res.platform, res.summary, res.daily)))
  }

  // ---------------------------------------------------------------------
  // Flushing the queue

  /** A pending row of `sync_queue`. */
  datatype Pending = Pending(id: int, payload: QueueItem)

  /** The ids of the items whose push succeeded, in queue order. */
  function Succeeded(pending: seq<Pending>, push: QueueItem -> bool): (ids: seq<int>)
    ensures |ids| <= |pending|
  {
    if |pending| == 0 then []
    else Succeeded(pending[..|pending| - 1], push) +
         (if push(pending[|pending| - 1].payload) then [pending[|pending| - 1].id] else [])
  }

  /** `flushQueue`, given the pending rows and the outcome of `pushVitals`
      for each payload (it never rejects: failures come back `false`).
      Returns the ids handed to `markSynced`, or `None` when it is not
      called. */
  method FlushQueue(pending: seq<Pending>, push: QueueItem -> bool) returns (marked: Option<seq<int>>)
    ensures marked.None? <==> Succeeded(pending, push) == []
    ensures marked.Some? ==> marked.value == Succeeded(pending, push)
  {
    if |pending| == 0 {
      return None;
    }
    var successIds: seq<int> := [];
    var i := 0;
    while i < |pending|
      invariant 0 <= i <= |pending|
      invariant successIds == Succeeded(pending[..i], push)
    {
      assert pending[..i + 1][..i] == pending[..i];
      if push(pending[i].payload) {
        successIds := successIds + [pending[i].id];
      }
      i := i + 1;
    }
    assert pending[..|pending|] == pending;
    if |successIds| > 0 {
      marked := Some(successIds);
    } else {
      marked := None;
    }
  }

  /** Only successes are marked: an id is marked exactly when some item
      with that id was pushed successfully. */
  lemma {:induction false} SucceededAre(pending: seq<Pending>, push: QueueItem -> bool)
    ensures forall id :: id in Succeeded(pending, push) <==>
      exists i :: 0 <= i < |pending| && pending[i].id == id && push(pending[i].payload)
    decreases |pending|
  {
    if |pending| > 0 {
      var init := pending[..|pending| - 1];
      SucceededAre(init, push);
      forall id ensures id in Succeeded(pending, push) <==>
        exists i :: 0 <= i < |pending| && pending[i].id == id && push(pending[i].payload) {
        if exists i :: 0 <= i < |pending| && pending[i].id == id && push(pending[i].payload) {
          var i :| 0 <= i < |pending| && pending[i].id == id && push(pending[i].payload);
          if i < |init| {
            assert init[i] == pending[i];
          }
        }
        if id in Succeeded(init, push) {
          var i :| 0 <= i < |init| && init[i].id == id && push(init[i].payload);
          assert pending[i] == init[i];
        }
      }
    }
  }

  /** `DELETE FROM sync_queue WHERE id IN (...)`: the rows still pending. */
  function Remaining(pending: seq<Pending>, marked: Option<seq<int>>): (r: seq<Pending>)
    ensures |r| <= |pending|
  {
    if |pending| == 0 then []
    else
      var last := pending[|pending| - 1];
      Remaining(pending[..|pending| - 1], marked) +
        (if marked.Some? && last.id in marked.value then [] else [last])
  }

  /** With distinct ids, the rows left pending after a flush are exactly the
      ones whose push failed. */
  lemma {:induction false} FailuresStayPending(pending: seq<Pending>, push: QueueItem -> bool, p: Pending)
    requires forall i, j :: 0 <= i < j < |pending| ==> pending[i].id != pending[j].id
    requires p in pending
    ensures var marked := if Succeeded(pending, push) == [] then None else Some(Succeeded(pending, push));
      p in Remaining(pending, marked) <==> !push(p.payload)
  {
    var ids := Succeeded(pending, push);
    var marked := if ids == [] then None else Some(ids);
    SucceededAre(pending, push);
    RemainingAre(pending, marked, p);
    var k :| 0 <= k < |pending| && pending[k] == p;
    if p.id in ids {
      var i :| 0 <= i < |pending| && pending[i].id == p.id && push(pending[i].payload);
      assert i == k;
    }
  }

  lemma {:induction false} RemainingAre(pending: seq<Pending>, marked: Option<seq<int>>, p: Pending)
    ensures p in Remaining(pending, marked) <==> p in pending && !(marked.Some? && p.id in marked.value)
    decreases |pending|
  {
    if |pending| > 0 {
      var init := pending[..|pending| - 1];
      RemainingAre(init, marked, p);
      assert pending == init + [pending[|pending| - 1]];
    }
  }

  // ---------------------------------------------------------------------
  // Persistence

  /** `partialize`: only the permission result is persisted. */
  datatype Persisted = Persisted(permissionResult: Option<PermissionResult>)

  function Partialize(s: HealthState): (p: Persisted)
    ensures p.permissionResult == s.permissionResult
  {
    Persisted(s.permissionResult)
  }

  /** Rehydration: the persisted fields merged over the initial state. A
      restart keeps the permission result and drops everything else, and
      persisting again gives back what was stored. */
  function Rehydrate(p: Persisted): (s: HealthState)
    ensures s.permissionResult == p.permissionResult
    ensures s.metrics.None? && s.daily == [] && !s.syncing && s.error.None? && !s.initialSynced
    ensures Partialize(s) == p
  {
    Initial.(permissionResult := p.permissionResult)
  }
}
