/**
 * The controller storage of the Finch service (FinchControllerStorage.java):
 * which of the two controllers the runtime has started, whether the polling
 * loop keeps running, and the classification of each headset sample into
 * one of the tracking library's update modes.
 *
 * The Android handler that reschedules the polling loop and the data
 * callbacks are not part of this model; a polling tick is `Run`, which says
 * whether the loop reschedules itself.
 */
module FinchControllerStorage {
  import opened FinchMath
  import FinchService

  const MaxControllers: nat := 2

  /** Whether any controller is still active. */
  predicate AnyActive(state: seq<bool>) {
    exists i :: 0 <= i < |state| && state[i]
  }

  /** The indices of the active controllers, in increasing order. */
  function ActiveIndices(state: seq<bool>): (r: seq<nat>)
    ensures forall k :: 0 <= k < |r| ==> r[k] < |state| && state[r[k]]
    ensures forall i :: 0 <= i < |state| && state[i] ==> i in r
    ensures forall k, l :: 0 <= k < l < |r| ==> r[k] < r[l]
  {
    if state == [] then []
    else
      var front := ActiveIndices(state[..|state| - 1]);
      if state[|state| - 1] then front + [|state| - 1] else front
  }

  predicate AllZero(s: seq<real>) {
    forall i :: 0 <= i < |s| ==> s[i] == 0.0
  }

  /**
   * The update mode implied by a raw headset sample: nothing but zeros
   * means the headset reports no data (Internal), a zero position with a
   * rotation means rotation-only tracking, and any position means full
   * transform tracking.  The comparisons are exact.
   */
  function ClassifyHmd(pos: seq<real>, quat: seq<real>): (mode: FinchService.UpdateType)
    requires |pos| == 3 && |quat| == 4
    ensures mode == FinchService.Internal <==> AllZero(pos) && AllZero(quat)
    ensures mode == FinchService.HmdRotation <==> AllZero(pos) && !AllZero(quat)
    ensures mode == FinchService.HmdTransform <==> !AllZero(pos)
  {
    if pos[0] == 0.0 && pos[1] == 0.0 && pos[2] == 0.0
       && quat[0] == 0.0 && quat[1] == 0.0 && quat[2] == 0.0 && quat[3] == 0.0 then
      FinchService.Internal
    else if pos[0] == 0.0 && pos[1] == 0.0 && pos[2] == 0.0
            && (quat[0] != 0.0 || quat[1] != 0.0 || quat[2] != 0.0 || quat[3] != 0.0) then
      FinchService.HmdRotation
    else
      FinchService.HmdTransform
  }

  /** The headset position handed to the service: the raw one with z negated. */
  function HmdPosition(pos: seq<real>): (p: Vector3)
    requires |pos| == 3
    ensures p.x == pos[0] && p.y == pos[1] && p.z == -pos[2]
  {
    Vector3(pos[0], pos[1], -pos[2])
  }

  /** Battery levels are read from the left hand for index 1 and from the right hand otherwise. */
  function BatteryNode(index: int): (node: FinchService.Node)
    ensures node == FinchService.LeftHand <==> index == 1
    ensures node == FinchService.RightHand <==> index != 1
  {
    FinchService.HandNode(index)
  }

  class Storage {
    /** ControllerState: which controllers the runtime has started. */
    var controllerState: array<bool>
    /** bReadForUpdates: whether the polling loop reschedules itself. */
    var readForUpdates: bool
    /** Whether the polling runnable has been created. */
    var runnableCreated: bool

    ghost predicate Valid()
      reads this
    {
      && controllerState.Length == MaxControllers
      && (readForUpdates ==> runnableCreated)
    }

    constructor ()
      ensures Valid() && fresh(controllerState)
      ensures controllerState[..] == [false, false]
      ensures !readForUpdates && !runnableCreated
    {
      controllerState := new bool[MaxControllers](_ => false);
      readForUpdates := false;
      runnableCreated := false;
    }

    /**
     * Start(id): marks the controller active and starts polling; returns
     * true whenever it returns.  An id outside [0, 2) makes the array store
     * throw (`thrown`) before anything changes.
     */
    method Start(id: int) returns (thrown: bool, result: bool)
      requires Valid()
      modifies this, controllerState
      ensures Valid() && controllerState == old(controllerState)
      ensures thrown <==> !(0 <= id < MaxControllers)
      ensures thrown ==>
        controllerState[..] == old(controllerState[..])
        && readForUpdates == old(readForUpdates) && runnableCreated == old(runnableCreated)
      ensures !thrown ==>
        controllerState[..] == old(controllerState[..])[id := true]
        && readForUpdates && runnableCreated && result
    {
      if !(0 <= id < MaxControllers) {
        return true, false;
      }
      thrown := false;
      controllerState[id] := true;
      if !readForUpdates {
        if !runnableCreated {
          runnableCreated := true;
        }
        readForUpdates := true;
        result := true;
      } else {
        result := true;
      }
    }

    /**
     * Stop(id): marks the controller inactive; polling stops once none is
     * active.  An id outside [0, 2) throws before anything changes.
     */
    method Stop(id: int) returns (thrown: bool)
      requires Valid()
      modifies this, controllerState
      ensures Valid() && controllerState == old(controllerState)
      ensures thrown <==> !(0 <= id < MaxControllers)
      ensures runnableCreated == old(runnableCreated)
      ensures thrown ==> controllerState[..] == old(controllerState[..]) && readForUpdates == old(readForUpdates)
      ensures !thrown ==>
        controllerState[..] == old(controllerState[..])[id := false]
        && readForUpdates == (old(readForUpdates) && AnyActive(controllerState[..]))
    {
      thrown := !(0 <= id < MaxControllers);
      if thrown {
        return;
      }
      controllerState[id] := false;
      var i := 0;
      while i < MaxControllers
        invariant 0 <= i <= MaxControllers
        invariant forall j :: 0 <= j < i ==> !controllerState[j]
      {
        if controllerState[i] {
          return;
        }
        i := i + 1;
      }
      readForUpdates := false;
    }

    /**
     * One tick of the polling runnable: classify the headset sample, pass
     * it to the service's update, and read the data of every active
     * controller, in index order.  The loop reschedules itself while
     * polling is on.  The service is left as its update leaves it: sample,
     * mode, two-handed flag, root offset and body rotation set, and the
     * recenter state kept.
     */
    method Run(service: FinchService.Service, hmdPos: seq<real>, hmdQuat: seq<real>,
               leftUpperArmOk: bool, rightUpperArmOk: bool, swapGesture: bool, trackerAccepted: bool)
      returns (polled: seq<nat>, reschedule: bool)
      requires Valid() && |hmdPos| == 3 && |hmdQuat| == 4
      requires service.m.SqrtExact()
      modifies service
      ensures service.mode == FinchService.EffectiveMode(service.forcedMode, ClassifyHmd(hmdPos, hmdQuat))
      ensures (service.phmd, service.qhmd) == FinchService.SampleOrLast(
                HmdPosition(hmdPos), Quaternion(hmdQuat[0], hmdQuat[1], hmdQuat[2], hmdQuat[3]),
                old(service.phmd), old(service.qhmd))
      ensures service.twoHandedMode == (leftUpperArmOk && rightUpperArmOk) && !service.firstUpdate
      ensures service.rootOffset == if old(service.firstUpdate) || service.mode != old(service.mode)
                                    then FinchService.RootOffsetFor(service.mode) else old(service.rootOffset)
      ensures service.bodyRotationMode == if service.twoHandedMode != old(service.twoHandedMode)
                                          then FinchService.ArmSwitchRotation(service.twoHandedMode, service.mode)
                                          else old(service.bodyRotationMode)
      ensures service.hmdRecenterTransform == old(service.hmdRecenterTransform)
      ensures service.hmdPositionShift == old(service.hmdPositionShift)
      ensures service.startHmdPosition == old(service.startHmdPosition)
      ensures polled == ActiveIndices(controllerState[..])
      ensures reschedule == readForUpdates
    {
      var mode := ClassifyHmd(hmdPos, hmdQuat);
      var phmd := HmdPosition(hmdPos);
      var qhmd := Quaternion(hmdQuat[0], hmdQuat[1], hmdQuat[2], hmdQuat[3]);
      var _, _ := service.Update(mode, phmd, qhmd, leftUpperArmOk, rightUpperArmOk, swapGesture, trackerAccepted);
      polled := [];
      var index := 0;
      while index < MaxControllers
        invariant 0 <= index <= MaxControllers
        invariant polled == ActiveIndices(controllerState[..index])
      {
        assert controllerState[..index + 1][..index] == controllerState[..index];
        if controllerState[index] {
          polled := polled + [index];
        }
        index := index + 1;
      }
      assert controllerState[..index] == controllerState[..];
      reschedule := readForUpdates;
    }
  }
}
