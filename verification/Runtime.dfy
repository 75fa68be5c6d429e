/** orchestrator/runtime.py: the in-memory sessions and their lifecycle transitions. */
module Runtime {
  import opened Prelude
  import opened StoragePaths
  import opened Commands

  datatype Registration = Registration(run: RunScope, containerName: Text, imageDigest: Text, workspaceVolume: Text)

  datatype Lifecycle = Live | Paused

  datatype LifecycleAction = ByCommand(action: Action) | RestoreAction

  datatype Session = Session(registration: Registration, lifecycle: Lifecycle, mode: Text,
                             lastAction: Option<LifecycleAction>, reason: Option<Text>,
                             cloneSource: Option<RunScope>, targetCycle: Option<Text>, snapshot: Option<Text>)

  datatype LifecycleReceipt = LifecycleReceipt(action: LifecycleAction, run: RunScope, lifecycle: Lifecycle, mode: Text,
                                               reason: Option<Text>, cloneRun: Option<RunScope>,
                                               targetCycle: Option<Text>, snapshot: Option<Text>)

  type Sessions = map<RunScope, Session>

  function FreshSession(registration: Registration): Session {
    Session(registration, Live, OBSERVATION_ONLY, None, None, None, None, None)
  }

  /** The transitions that touch one session. */
  datatype Transition =
    | ToMode(mode: Text)
    | ToPaused
    | ToLive
    | ToReset(why: Option<Text>)
    | ToCycle(target: Text)
    | ToSnapshot(id: Text)

  function After(s: Session, t: Transition): Session {
    match t
    case ToMode(mode) => s.(mode := mode, lastAction := Some(ByCommand(ModeSwitch)), reason := None)
    case ToPaused => s.(lifecycle := Paused, lastAction := Some(ByCommand(Pause)), reason := None)
    case ToLive => s.(lifecycle := Live, lastAction := Some(ByCommand(Resume)), reason := None)
    case ToReset(why) =>
      s.(lifecycle := Live, mode := OBSERVATION_ONLY, lastAction := Some(ByCommand(Reset)), reason := why,
         targetCycle := None, snapshot := None)
    case ToCycle(target) =>
      s.(lifecycle := Live, mode := OBSERVATION_ONLY, lastAction := Some(ByCommand(Rollback)), reason := None,
         targetCycle := Some(target), snapshot := None)
    case ToSnapshot(id) =>
      s.(lifecycle := Live, mode := OBSERVATION_ONLY, lastAction := Some(RestoreAction), reason := None,
         targetCycle := None, snapshot := Some(id))
  }

  function ReceiptFor(s: Session, cloneRun: Option<RunScope>): LifecycleReceipt
    requires s.lastAction.Some?
  {
    LifecycleReceipt(s.lastAction.value, s.registration.run, s.lifecycle, s.mode, s.reason, cloneRun, s.targetCycle,
                     s.snapshot)
  }

  function RegisterRun(ss: Sessions, registration: Registration): (Sessions, Result<Session, Error>) {
    if registration.run in ss then (ss, Err(SessionExists))
    else (ss[registration.run := FreshSession(registration)], Ok(FreshSession(registration)))
  }

  function Apply(ss: Sessions, run: RunScope, t: Transition): (Sessions, Result<LifecycleReceipt, Error>) {
    if run !in ss then (ss, Err(UnknownSession))
    else
      var s := After(ss[run], t);
      (ss[run := s], Ok(ReceiptFor(s, None)))
  }

  function CloneRun(ss: Sessions, run: RunScope, clone: RunScope): (Sessions, Result<LifecycleReceipt, Error>) {
    if run !in ss then (ss, Err(UnknownSession))
    else if clone in ss then (ss, Err(SessionExists))
    else
      var cloned := FreshSession(ss[run].registration.(run := clone))
                    .(lastAction := Some(ByCommand(Clone)), cloneSource := Some(run));
      var source := ss[run].(lastAction := Some(ByCommand(Clone)), reason := None);
      (ss[clone := cloned][run := source], Ok(ReceiptFor(source, Some(clone))))
  }

  class InMemoryRuntime {
    var sessions: Sessions

    constructor ()
      ensures sessions == map[]
    {
      sessions := map[];
    }

    method Register(registration: Registration) returns (r: Result<Session, Error>)
      modifies this
      ensures (sessions, r) == RegisterRun(old(sessions), registration)
    {
      if registration.run in sessions {
        return Err(SessionExists);
      }
      var session := FreshSession(registration);
      sessions := sessions[registration.run := session];
      return Ok(session);
    }

    method DescribeRun(run: RunScope) returns (r: Result<Session, Error>)
      ensures r == if run in sessions then Ok(sessions[run]) else Err(UnknownSession)
    {
      if run !in sessions {
        return Err(UnknownSession);
      }
      return Ok(sessions[run]);
    }

    method Update(run: RunScope, t: Transition) returns (r: Result<LifecycleReceipt, Error>)
      modifies this
      ensures (sessions, r) == Apply(old(sessions), run, t)
    {
      if run !in sessions {
        return Err(UnknownSession);
      }
      var updated := After(sessions[run], t);
      sessions := sessions[run := updated];
      return Ok(ReceiptFor(updated, None));
    }

    method CloneSession(run: RunScope, clone: RunScope) returns (r: Result<LifecycleReceipt, Error>)
      modifies this
      ensures (sessions, r) == CloneRun(old(sessions), run, clone)
    {
      if run !in sessions {
        return Err(UnknownSession);
      }
      if clone in sessions {
        return Err(SessionExists);
      }
      var source := sessions[run];
      sessions := sessions[clone := FreshSession(source.registration.(run := clone))
                                    .(lastAction := Some(ByCommand(Clone)), cloneSource := Some(run))];
      source := source.(lastAction := Some(ByCommand(Clone)), reason := None);
      sessions := sessions[run := source];
      return Ok(ReceiptFor(source, Some(clone)));
    }
  }
}
