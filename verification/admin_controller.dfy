/**
 * The admin session endpoints of src/routes/admin/sessionController.ts over
 * the cleanup service and the express-session store. Both are parameters (the
 * instances the controller imports are not part of this model). Timestamps
 * (`new Date().toISOString()`) are represented by the clock value `now`.
 */
module AdminController {
  import opened Wrappers
  import opened Http
  import opened Json
  import SessionStore
  import CleanupService

  /** The admin view of the process: the cleanup service and the store it sweeps. */
  datatype AdminState = AdminState(svc: CleanupService.Service, store: SessionStore.Store)

  datatype Handled<D> = Handled(response: Response<D>, state: AdminState)

  datatype StatsReport = StatsReport(
    totalSessions: nat, activeSessions: nat, expiredSessions: nat,
    cleanupService: CleanupService.Status, timestamp: int)

  datatype CleanupReport = CleanupReport(
    message: string, totalSessions: nat, activeSessions: nat, expiredSessions: nat, timestamp: int)

  datatype Notice = Notice(message: string, timestamp: int)

  datatype RestartNotice = RestartNotice(message: string, intervalHours: Json, timestamp: int)

  const StatsFailed: string := "Erreur lors de la récupération des statistiques"
  const CleanupFailed: string := "Erreur lors du nettoyage des sessions"
  const ClearFailed: string := "Erreur lors de la suppression des sessions"
  const RestartFailed: string := "Erreur lors du redémarrage du service"

  /** `getSessionStats`: the store counts merged with the service status; a store error gives 500. */
  function GetSessionStats(st: AdminState, now: int, allUp: bool): (h: Handled<StatsReport>)
    ensures h.state == st
    ensures !allUp ==> h.response == ReturnErrorWithStatus(StatsFailed, 500)
    ensures allUp ==> h.response.status == 200 && h.response.body.SuccessBody?
    ensures allUp ==>
      var d := h.response.body.data;
      && d.totalSessions == |st.store|
      && d.activeSessions + d.expiredSessions == d.totalSessions
      && d.expiredSessions == |CleanupService.ExpiredIds(st.store, now)|
      && d.cleanupService == CleanupService.GetStatus(st.svc)
  {
    match CleanupService.GetSessionStats(CleanupService.AllOf(st.store, allUp), now)
    case Failure => Handled(ReturnErrorWithStatus(StatsFailed, 500), st)
    case Success(s) =>
      Handled(ReturnSuccess(StatsReport(s.totalSessions, s.activeSessions, s.expiredSessions,
                                  CleanupService.GetStatus(st.svc), now)), st)
  }

  /**
   * `cleanupSessions`: a sweep (which cannot fail), then statistics of what
   * is left. The sweep reads the clock at `now`; the statistics and the
   * report read it again at `statsNow`, after the sweep's round trips.
   */
  function CleanupSessions(st: AdminState, now: int, statsNow: int, readUp: bool, commitUp: bool, allUp: bool): (h: Handled<CleanupReport>)
    ensures h.state.svc == st.svc
    ensures h.state.store == CleanupService.Cleanup(st.store, now, readUp, commitUp)
    ensures !allUp ==> h.response == ReturnErrorWithStatus(CleanupFailed, 500)
    ensures allUp ==> h.response.status == 200 && h.response.body.SuccessBody?
    ensures allUp ==> h.response.body.data.totalSessions == |h.state.store|
    ensures allUp ==> h.response.body.data.timestamp == statsNow
    ensures allUp && readUp && commitUp ==>
      && h.response.body.data.expiredSessions == |ExpiringBetween(st.store, now, statsNow)|
      && h.response.body.data.totalSessions == |st.store| - |SessionStore.DoomedIds(st.store, now)|
    ensures allUp && readUp && commitUp && statsNow <= now ==> h.response.body.data.expiredSessions == 0
  {
    var swept := CleanupService.Cleanup(st.store, now, readUp, commitUp);
    var st' := st.(store := swept);
    SweptExpiredOnlyInBetween(st.store, now, statsNow);
    SessionStore.SweepCount(st.store, now);
    match CleanupService.GetSessionStats(CleanupService.AllOf(swept, allUp), statsNow)
    case Failure => Handled(ReturnErrorWithStatus(CleanupFailed, 500), st')
    case Success(s) =>
      Handled(ReturnSuccess(CleanupReport("Nettoyage des sessions terminé",
                                    s.totalSessions, s.activeSessions, s.expiredSessions, statsNow)), st')
  }

  /** The stored records whose cookie expires after `now` but no later than `later`. */
  function ExpiringBetween(store: SessionStore.Store, now: int, later: int): set<string> {
    set k | k in store && SessionStore.CookieExpiry(store[k]).Some?
                       && now < SessionStore.CookieExpiry(store[k]).value <= later
  }

  /**
   * After a successful sweep at `now`, the records that count as expired at
   * `later` are exactly those whose cookie expired in between; so none do
   * when the statistics read the clock no later than the sweep.
   */
  lemma SweptExpiredOnlyInBetween(store: SessionStore.Store, now: int, later: int)
    ensures CleanupService.ExpiredIds(SessionStore.Sweep(store, now, true, true).store, later)
            == ExpiringBetween(store, now, later)
    ensures later <= now ==> CleanupService.ExpiredIds(SessionStore.Sweep(store, now, true, true).store, later) == {}
  {
    var s := SessionStore.Sweep(store, now, true, true).store;
    var doomed := SessionStore.DoomedIds(store, now);
    if |doomed| == 0 {
      assert doomed == {};
    }
    assert s.Keys == store.Keys - doomed && forall k | k in s :: s[k] == store[k];
    forall k | k in store
      ensures k in CleanupService.ExpiredIds(s, later) <==> k in ExpiringBetween(store, now, later)
    {
      if k in doomed {
        assert SessionStore.Doomed(store[k], now);
      }
    }
  }

  /** `clearAllSessions`: 200 with an empty store iff the store's `clear` reports no error. */
  function ClearAllSessions(st: AdminState, now: int, up: bool): (h: Handled<Notice>)
    ensures h.state.svc == st.svc
    ensures h.response.status == 200 <==> up
    ensures up ==> h.state.store == map[]
    ensures !up ==> h.state == st && h.response == ReturnErrorWithStatus(ClearFailed, 500)
  {
    var w := SessionStore.Clear(st.store, up);
    if w.ok then Handled(ReturnSuccess(Notice("Toutes les sessions ont été supprimées", now)), st.(store := w.store))
    else Handled(ReturnErrorWithStatus(ClearFailed, 500), st)
  }

  /**
   * `intervalHours || (production ? 6 : 1)` on the raw body field: a truthy
   * value is passed on as it came, whatever its JSON type.
   */
  function RestartInterval(intervalHours: Option<Json>, production: bool): (h: Json)
    ensures Truthy(intervalHours) ==> h == intervalHours.value
    ensures !Truthy(intervalHours) ==> h == JNum(if production then 6 else 1)
    ensures Truthy(Some(h))
  {
    if Truthy(intervalHours) then intervalHours.value
    else JNum(if production then 6 else 1)
  }

  /** `intervalHours * 60 * 60 * 1000` in JavaScript, None for NaN. */
  function RequestedMs(hours: Json, coerce: Json -> Option<int>): Option<int> {
    var n := ToNumber(hours, coerce);
    if n.Some? then Some(n.value * CleanupService.MsPerHour) else None
  }

  /**
   * `restartCleanupService`: stop, then start with the chosen interval. The
   * start always finds the service stopped, so it always sweeps and always ends
   * running; the answer echoes the interval as it came. `coerce` is
   * JavaScript's conversion of a string or object to a number.
   */
  function RestartCleanupService(st: AdminState, intervalHours: Option<Json>, production: bool, coerce: Json -> Option<int>,
                                 now: int, readUp: bool, commitUp: bool): (h: Handled<RestartNotice>)
    ensures var hours := RestartInterval(intervalHours, production);
      && h.state.svc == CleanupService.Service(true, Some(CleanupService.TimerDelay(RequestedMs(hours, coerce))))
      && h.state.store == CleanupService.Cleanup(st.store, now, readUp, commitUp)
      && h.response == ReturnSuccess(RestartNotice("Service de nettoyage redémarré", hours, now))
  {
    var hours := RestartInterval(intervalHours, production);
    var started := CleanupService.Start(CleanupService.Stop(st.svc), st.store, now, readUp, commitUp, RequestedMs(hours, coerce));
    Handled(ReturnSuccess(RestartNotice("Service de nettoyage redémarré", hours, now)), AdminState(started.svc, started.store))
  }

  /**
   * A value that converts to between 1 and 596 hours, a numeric string such
   * as "2" included, installs a period of exactly that many hours.
   */
  lemma RestartHonoursHours(st: AdminState, intervalHours: Option<Json>, production: bool, coerce: Json -> Option<int>,
                            now: int, readUp: bool, commitUp: bool, n: int)
    requires Truthy(intervalHours) && ToNumber(intervalHours.value, coerce) == Some(n)
    requires 1 <= n <= 596
    ensures RestartCleanupService(st, intervalHours, production, coerce, now, readUp, commitUp).state.svc.interval
            == Some(n * CleanupService.MsPerHour)
  {
    assert n * CleanupService.MsPerHour <= 596 * CleanupService.MsPerHour <= CleanupService.TimeoutMax;
  }

  /**
   * A truthy value that does not convert to a number, or converts to zero or
   * fewer hours ("0", a negative number) or to 597 hours or more, leaves the
   * service sweeping every millisecond.
   */
  lemma RestartOutOfRangeSweepsEveryMillisecond(st: AdminState, intervalHours: Option<Json>, production: bool,
                                                coerce: Json -> Option<int>, now: int, readUp: bool, commitUp: bool)
    requires Truthy(intervalHours)
    requires var n := ToNumber(intervalHours.value, coerce); n.None? || n.value <= 0 || n.value >= 597
    ensures RestartCleanupService(st, intervalHours, production, coerce, now, readUp, commitUp).state.svc.interval == Some(1)
  {
    var n := ToNumber(intervalHours.value, coerce);
    if n.Some? && n.value >= 597 {
      assert n.value * CleanupService.MsPerHour >= 597 * CleanupService.MsPerHour > CleanupService.TimeoutMax;
    }
  }

  /** Restarting a running service still reports both status flags up. */
  lemma RestartLeavesRunning(st: AdminState, intervalHours: Option<Json>, production: bool, coerce: Json -> Option<int>, now: int)
    ensures CleanupService.GetStatus(RestartCleanupService(st, intervalHours, production, coerce, now, true, true).state.svc)
            == CleanupService.Status(true, true)
  {
  }
}
