/**
 * `SessionCleanupService` of src/configs/session/sessionCleanupService.ts: a
 * small state record (running flag, installed interval) over the
 * express-session store, the statistics it reports, and the process-wide
 * singleton. Timers are not modelled: `start` performs its immediate sweep
 * synchronously and only records the period of the interval it installs.
 */
module CleanupService {
  import opened Wrappers
  import SessionStore

  const MsPerHour: int := 60 * 60 * 1000
  const DefaultIntervalHours: int := 6

  /** `isRunning` and the interval handle (present with its period in ms, or null). */
  datatype Service = Service(isRunning: bool, interval: Option<int>)

  const Fresh: Service := Service(false, None)

  datatype Status = Status(isRunning: bool, intervalActive: bool)

  /** `getStatus()`. */
  function GetStatus(svc: Service): (st: Status)
    ensures st.isRunning == svc.isRunning
    ensures st.intervalActive <==> svc.interval.Some?
  {
    Status(svc.isRunning, svc.interval.Some?)
  }

  /** `cleanup()`: one sweep; the store's own catch means it never fails. */
  function Cleanup(store: SessionStore.Store, now: int, readUp: bool, commitUp: bool): (s: SessionStore.Store)
    ensures s == store || s == SessionStore.Survivors(store, now)
  {
    SessionStore.Sweep(store, now, readUp, commitUp).store
  }

  /** Node's `TIMEOUT_MAX`, the longest delay a timer accepts: 2^31 - 1 ms. */
  const TimeoutMax: int := 0x7FFF_FFFF

  /**
   * The period `setInterval` actually uses for a requested delay (None
   * standing for NaN): Node replaces a delay that is NaN, below 1 ms or above
   * TIMEOUT_MAX by 1 ms.
   */
  function TimerDelay(requested: Option<int>): (d: int)
    ensures 1 <= d <= TimeoutMax
    ensures d == 1 || (requested.Some? && d == requested.value)
    ensures requested.Some? && 1 <= requested.value <= TimeoutMax ==> d == requested.value
  {
    if requested.Some? && 1 <= requested.value <= TimeoutMax then requested.value else 1
  }

  datatype Started = Started(svc: Service, store: SessionStore.Store, swept: bool)

  /**
   * `start(intervalHours = 6)`: a second start is a logged no-op; otherwise one
   * immediate sweep, an interval, and the running flag. `requestedMs` is
   * `intervalHours * 60 * 60 * 1000` as JavaScript evaluates it (None for NaN);
   * the interval installed has the period the timer really uses.
   */
  function Start(svc: Service, store: SessionStore.Store, now: int, readUp: bool, commitUp: bool,
                 requestedMs: Option<int> := Some(DefaultIntervalHours * MsPerHour)): (r: Started)
    ensures svc.isRunning ==> r.svc == svc && r.store == store && !r.swept
    ensures !svc.isRunning ==> r.svc == Service(true, Some(TimerDelay(requestedMs))) && r.swept
    ensures !svc.isRunning ==> r.store == Cleanup(store, now, readUp, commitUp)
  {
    if svc.isRunning then Started(svc, store, false)
    else Started(Service(true, Some(TimerDelay(requestedMs))), Cleanup(store, now, readUp, commitUp), true)
  }

  /** `stop()`: clear any interval and the running flag. */
  function Stop(svc: Service): (r: Service)
    ensures !r.isRunning && r.interval.None?
    ensures GetStatus(r) == Status(false, false)
  {
    Service(false, None)
  }

  /** Stopping twice is stopping once. */
  lemma StopIdempotent(svc: Service)
    ensures Stop(Stop(svc)) == Stop(svc)
  {
  }

  /** After a start from the stopped state both status flags are up; after a stop both are down. */
  lemma StatusAfterStartStop(svc: Service, store: SessionStore.Store, now: int, requestedMs: Option<int>)
    requires !svc.isRunning
    ensures GetStatus(Start(svc, store, now, true, true, requestedMs).svc) == Status(true, true)
    ensures GetStatus(Stop(Start(svc, store, now, true, true, requestedMs).svc)) == Status(false, false)
  {
  }

  // ----- Statistics ----------------------------------------------------------

  datatype Stats = Stats(totalSessions: nat, activeSessions: nat, expiredSessions: nat)

  const NoStats: Stats := Stats(0, 0, 0)

  function ExpiredIds(sessions: map<string, SessionStore.Record>, now: int): set<string> {
    set k | k in sessions && SessionStore.CookieExpired(sessions[k], now)
  }

  function ActiveIds(sessions: map<string, SessionStore.Record>, now: int): set<string> {
    set k | k in sessions && !SessionStore.CookieExpired(sessions[k], now)
  }

  /**
   * The classification of `getSessionStats`: a record is expired when its
   * cookie expiry is present and not after `now`; every other record,
   * including one with no cookie expiry at all, is active.
   */
  function StatsOf(sessions: map<string, SessionStore.Record>, now: int): (s: Stats)
    ensures s.totalSessions == |sessions|
    ensures s.activeSessions + s.expiredSessions == s.totalSessions
  {
    Partition(sessions, now);
    Stats(|sessions|, |ActiveIds(sessions, now)|, |ExpiredIds(sessions, now)|)
  }

  lemma Partition(sessions: map<string, SessionStore.Record>, now: int)
    ensures |ActiveIds(sessions, now)| + |ExpiredIds(sessions, now)| == |sessions|
  {
    var a := ActiveIds(sessions, now);
    var e := ExpiredIds(sessions, now);
    assert a !! e;
    assert a + e == sessions.Keys;
    assert |a + e| == |a| + |e|;
  }

  /** What `store.all` hands to the callback: an error, a null mapping, or the mapping. */
  datatype AllReply = AllError | AllNull | AllOk(sessions: map<string, SessionStore.Record>)

  /** The callback outcome of the store's `all`, which never yields a null mapping itself. */
  function AllOf(store: SessionStore.Store, up: bool): (a: AllReply)
    ensures up ==> a == AllOk(store)
    ensures !up ==> a == AllError
  {
    match SessionStore.All(store, up)
    case Success(m) => AllOk(m)
    case Failure => AllError
  }

  /** `getSessionStats()`: rejects on a store error, all zeros without a mapping, else the counts. */
  function GetSessionStats(reply: AllReply, now: int): (r: Result<Stats>)
    ensures reply.AllError? <==> r.Failure?
    ensures reply.AllNull? ==> r == Success(NoStats)
    ensures reply.AllOk? ==> r == Success(StatsOf(reply.sessions, now))
  {
    match reply
    case AllError => Failure
    case AllNull => Success(NoStats)
    case AllOk(m) => Success(StatsOf(m, now))
  }

  /** The source's counting loop over the values of the mapping. */
  method CountSessions(sessions: map<string, SessionStore.Record>, now: int) returns (s: Stats)
    ensures s == StatsOf(sessions, now)
  {
    var pending := sessions.Keys;
    var active := 0;
    var expired := 0;
    ghost var seenActive: set<string> := {};
    ghost var seenExpired: set<string> := {};
    while pending != {}
      invariant pending <= sessions.Keys
      invariant seenActive == set k | k in sessions && k !in pending && !SessionStore.CookieExpired(sessions[k], now)
      invariant seenExpired == set k | k in sessions && k !in pending && SessionStore.CookieExpired(sessions[k], now)
      invariant active == |seenActive| && expired == |seenExpired|
      decreases |pending|
    {
      var id :| id in pending;
      var exp := SessionStore.CookieExpiry(sessions[id]);
      if exp.Some? {
        if exp.value > now {
          seenActive := seenActive + {id};
          active := active + 1;
        } else {
          seenExpired := seenExpired + {id};
          expired := expired + 1;
        }
      } else {
        seenActive := seenActive + {id};
        active := active + 1;
      }
      pending := pending - {id};
    }
    assert seenActive == ActiveIds(sessions, now);
    assert seenExpired == ExpiredIds(sessions, now);
    s := Stats(|sessions|, active, expired);
  }

  /**
   * A record counted as expired is one the sweep deletes; the converse fails
   * for stale records without a cookie expiry, which count as active.
   */
  lemma ExpiredCountedIsDoomed(r: SessionStore.Record, now: int)
    ensures SessionStore.CookieExpired(r, now) ==> SessionStore.Doomed(r, now)
    ensures SessionStore.CookieExpiry(r).Some? ==> (SessionStore.CookieExpired(r, now) <==> SessionStore.Doomed(r, now))
  {
  }

  /** A stale record with no cookie expiry: counted active, yet the sweep deletes it. */
  lemma StaleCountsActiveButIsSwept()
    ensures var r := SessionStore.Record(None, Some(0), None, map[]);
      var now := SessionStore.StaleAfterMs + 1;
      && !SessionStore.CookieExpired(r, now)
      && SessionStore.Doomed(r, now)
      && StatsOf(map["s" := r], now).activeSessions == 1
  {
    var r := SessionStore.Record(None, Some(0), None, map[]);
    var now := SessionStore.StaleAfterMs + 1;
    assert ActiveIds(map["s" := r], now) == {"s"};
  }

  /**
   * Where every record carries a cookie expiry, the pre-sweep expired count is
   * exactly what the sweep removes.
   */
  lemma StatsPredictSweep(store: SessionStore.Store, now: int)
    requires forall k | k in store :: SessionStore.CookieExpiry(store[k]).Some?
    ensures StatsOf(store, now).expiredSessions == |SessionStore.DoomedIds(store, now)|
    ensures |SessionStore.Sweep(store, now, true, true).store| == StatsOf(store, now).activeSessions
  {
    assert ExpiredIds(store, now) == SessionStore.DoomedIds(store, now);
    SessionStore.SweepCount(store, now);
  }

  // ----- The singleton -------------------------------------------------------

  /** A store instance, by identity. */
  type StoreRef = nat

  datatype Instance = Instance(store: StoreRef, svc: Service)

  /** The module-level `cleanupServiceInstance`. */
  datatype Registry = Registry(instance: Option<Instance>)

  datatype Obtained = Obtained(registry: Registry, instance: Instance)

  /** `getSessionCleanupService(store)`: built once, then the same instance whatever store is passed. */
  function GetSessionCleanupService(reg: Registry, store: StoreRef): (o: Obtained)
    ensures reg.instance.Some? ==> o.instance == reg.instance.value && o.registry == reg
    ensures reg.instance.None? ==> o.instance == Instance(store, Fresh)
    ensures o.registry.instance == Some(o.instance)
  {
    match reg.instance
    case Some(i) => Obtained(reg, i)
    case None => Obtained(Registry(Some(Instance(store, Fresh))), Instance(store, Fresh))
  }

  /** Two calls with different stores yield the same instance, bound to the first store. */
  lemma SingletonIgnoresLaterStore(reg: Registry, s1: StoreRef, s2: StoreRef)
    ensures var first := GetSessionCleanupService(reg, s1);
      var second := GetSessionCleanupService(first.registry, s2);
      second.instance == first.instance && second.registry == first.registry
  {
  }
}
