/**
 * The OpenXR session lifecycle: xrCreateSession, xrDestroySession,
 * xrBeginSession, xrEndSession and xrRequestExitSession over the table of
 * live sessions.  The platform's display, tracking and rendering calls
 * are represented by whether they succeed.
 */
module OpenXrSession {
  import opened OpenXrTypes

  type Instance = int
  type Session = int

  datatype SessionState = Unknown | Idle | Ready | Synchronized | Visible | Focused | Stopping | LossPending | Exiting

  /** The fields of XRSession the entry points read and write. */
  datatype SessionRecord = SessionRecord(instance: Instance, state: SessionState, viewConfigType: ViewConfigurationType, active: bool)

  /** The first handle is one past 0x1000. */
  const FirstSessionHandle: Session := 0x1000

  /** What every live session satisfies: it was created idle and only stereo is ever begun. */
  predicate WellFormed(r: SessionRecord)
  {
    && r.state != Unknown
    && r.viewConfigType == PrimaryStereo
    && (r.active ==> r.state == Ready || r.state == Stopping)
    && (r.state == Idle ==> !r.active)
  }

  class SessionTable {
    var sessions: map<Session, SessionRecord>
    var nextHandle: Session

    ghost predicate Valid()
      reads this
    {
      && nextHandle >= FirstSessionHandle
      && (forall s :: s in sessions ==> FirstSessionHandle < s <= nextHandle && WellFormed(sessions[s]))
    }

    constructor ()
      ensures Valid() && sessions == map[] && nextHandle == FirstSessionHandle
    {
      sessions := map[];
      nextHandle := FirstSessionHandle;
    }

    /**
     * xrCreateSession: after the argument and instance checks and the
     * platform's display and tracking start-up, a new session is recorded
     * IDLE and inactive under the next handle.
     */
    method Create(instances: set<Instance>, instance: Instance, hasCreateInfo: bool, createInfoTypeOk: bool,
                  hasSessionOut: bool, displayOk: bool, trackingOk: bool)
      returns (result: XrResult, session: Option<Session>)
      requires Valid()
      modifies this
      ensures Valid()
      ensures !hasCreateInfo || !hasSessionOut || !createInfoTypeOk ==> result == ErrorValidationFailure
      ensures hasCreateInfo && hasSessionOut && createInfoTypeOk && instance !in instances ==> result == ErrorHandleInvalid
      ensures hasCreateInfo && hasSessionOut && createInfoTypeOk && instance in instances && (!displayOk || !trackingOk) ==>
        result == ErrorRuntimeFailure
      ensures result == Success <==>
        hasCreateInfo && hasSessionOut && createInfoTypeOk && instance in instances && displayOk && trackingOk
      ensures result != Success ==> session == None && sessions == old(sessions) && nextHandle == old(nextHandle)
      ensures result == Success ==>
        && session == Some(old(nextHandle) + 1) && session.value !in old(sessions)
        && nextHandle == session.value
        && sessions == old(sessions)[session.value := SessionRecord(instance, Idle, PrimaryStereo, false)]
    {
      if !hasCreateInfo || !hasSessionOut || !createInfoTypeOk {
        return ErrorValidationFailure, None;
      }
      if instance !in instances {
        return ErrorHandleInvalid, None;
      }
      if !displayOk || !trackingOk {
        return ErrorRuntimeFailure, None;
      }
      var record := SessionRecord(instance, Unknown, PrimaryStereo, false);
      record := record.(state := Idle);
      var handle := nextHandle + 1;
      nextHandle := handle;
      sessions := sessions[handle := record];
      return Success, Some(handle);
    }

    /** xrDestroySession: the null handle or an unknown one is HANDLE_INVALID; otherwise the session is forgotten. */
    method Destroy(session: Session) returns (result: XrResult)
      requires Valid()
      modifies this
      ensures Valid() && nextHandle == old(nextHandle)
      ensures session == 0 || session !in old(sessions) ==> result == ErrorHandleInvalid && sessions == old(sessions)
      ensures session != 0 && session in old(sessions) ==> result == Success && sessions == old(sessions) - {session}
    {
      if session == 0 || session !in sessions {
        return ErrorHandleInvalid;
      }
      sessions := sessions - {session};
      result := Success;
    }

    /**
     * xrBeginSession: a running session is refused and left alone, only
     * primary stereo may be begun, and a session whose rendering starts
     * becomes READY and active.
     */
    method Begin(session: Session, hasBeginInfo: bool, beginInfoTypeOk: bool, viewType: ViewConfigurationType, renderingOk: bool)
      returns (result: XrResult)
      requires Valid()
      modifies this
      ensures Valid() && nextHandle == old(nextHandle) && sessions.Keys == old(sessions).Keys
      ensures !hasBeginInfo || !beginInfoTypeOk ==> result == ErrorValidationFailure
      ensures hasBeginInfo && beginInfoTypeOk && session !in old(sessions) ==> result == ErrorHandleInvalid
      ensures hasBeginInfo && beginInfoTypeOk && session in old(sessions) && old(sessions)[session].active ==>
        result == ErrorSessionRunning
      ensures hasBeginInfo && beginInfoTypeOk && session in old(sessions) && !old(sessions)[session].active && viewType != PrimaryStereo ==>
        result == ErrorViewConfigurationTypeUnsupported
      ensures hasBeginInfo && beginInfoTypeOk && session in old(sessions) && !old(sessions)[session].active
              && viewType == PrimaryStereo && !renderingOk ==>
        result == ErrorRuntimeFailure
      ensures result != Success ==> sessions == old(sessions)
      ensures result == Success <==>
        && hasBeginInfo && beginInfoTypeOk && session in old(sessions) && !old(sessions)[session].active
        && viewType == PrimaryStereo && renderingOk
      ensures result == Success ==>
        sessions == old(sessions)[session := old(sessions)[session].(state := Ready, active := true)]
    {
      if !hasBeginInfo || !beginInfoTypeOk {
        return ErrorValidationFailure;
      }
      if session !in sessions {
        return ErrorHandleInvalid;
      }
      var sess := sessions[session];
      if sess.active {
        return ErrorSessionRunning;
      }
      if viewType != PrimaryStereo {
        return ErrorViewConfigurationTypeUnsupported;
      }
      sess := sess.(viewConfigType := viewType);
      sessions := sessions[session := sess];
      if !renderingOk {
        return ErrorRuntimeFailure;
      }
      sess := sess.(state := Ready, active := true);
      sessions := sessions[session := sess];
      result := Success;
    }

    /** xrEndSession: a session that is not running is refused; a running one becomes STOPPING and inactive. */
    method End(session: Session) returns (result: XrResult)
      requires Valid()
      modifies this
      ensures Valid() && nextHandle == old(nextHandle)
      ensures session !in old(sessions) ==> result == ErrorHandleInvalid && sessions == old(sessions)
      ensures session in old(sessions) && !old(sessions)[session].active ==>
        result == ErrorSessionNotRunning && sessions == old(sessions)
      ensures session in old(sessions) && old(sessions)[session].active ==>
        && result == Success
        && sessions == old(sessions)[session := old(sessions)[session].(state := Stopping, active := false)]
    {
      if session !in sessions {
        return ErrorHandleInvalid;
      }
      var sess := sessions[session];
      if !sess.active {
        return ErrorSessionNotRunning;
      }
      sessions := sessions[session := sess.(state := Stopping, active := false)];
      result := Success;
    }

    /** xrRequestExitSession: the session becomes STOPPING and keeps its active flag. */
    method RequestExit(session: Session) returns (result: XrResult)
      requires Valid()
      modifies this
      ensures Valid() && nextHandle == old(nextHandle)
      ensures session !in old(sessions) ==> result == ErrorHandleInvalid && sessions == old(sessions)
      ensures session in old(sessions) ==>
        && result == Success
        && sessions == old(sessions)[session := old(sessions)[session].(state := Stopping)]
        && sessions[session].active == old(sessions)[session].active
    {
      if session !in sessions {
        return ErrorHandleInvalid;
      }
      sessions := sessions[session := sessions[session].(state := Stopping)];
      result := Success;
    }
  }
}
