/**
 * The XR2 platform layer's input and performance logic: which controller
 * and which button an action reads, the boolean state and change flag it
 * reports, and the CPU/GPU performance level that follows the frame rate.
 * The QVR service calls are represented by whether they succeed.
 */
module Xr2Platform {
  import opened OpenXrTypes
  import IM = InputManager

  type Instance = int
  type Action = int

  // ---------------------------------------------------------------------
  // Buttons

  /** The sxrControllerButton values an input can name. */
  datatype Button = One | Two | Three | Four | ThumbstickClick | TrackpadClick | TriggerClick | SqueezeClick

  /** The button an input type and component name, if any. */
  function ButtonOf(inputType: string, component: string): Option<Button>
  {
    if inputType == "a" || inputType == "button_a" then Some(One)
    else if inputType == "b" || inputType == "button_b" then Some(Two)
    else if inputType == "x" || inputType == "button_x" then Some(Three)
    else if inputType == "y" || inputType == "button_y" then Some(Four)
    else if inputType == "thumbstick" && component == "click" then Some(ThumbstickClick)
    else if inputType == "trackpad" && component == "click" then Some(TrackpadClick)
    else if inputType == "trigger" && component == "click" then Some(TriggerClick)
    else if inputType == "squeeze" && component == "click" then Some(SqueezeClick)
    else None
  }

  /** The mask of each button in the controller's button word. */
  function ButtonBit(b: Button): bv32
  {
    match b
    case One => 0x0000_0001
    case Two => 0x0000_0002
    case Three => 0x0000_0004
    case Four => 0x0000_0008
    case ThumbstickClick => 0x0001_0000
    case TrackpadClick => 0x0002_0000
    case TriggerClick => 0x0004_0000
    case SqueezeClick => 0x0008_0000
  }

  /** The bit each button occupies. */
  function BitPosition(b: Button): (k: nat)
    ensures k < 32
  {
    match b
    case One => 0
    case Two => 1
    case Three => 2
    case Four => 3
    case ThumbstickClick => 16
    case TrackpadClick => 17
    case TriggerClick => 18
    case SqueezeClick => 19
  }

  /** MapInputToButtonBit: the mask of the button named, 0 for an input that names none. */
  function MapInputToButtonBit(inputType: string, component: string): (r: bv32)
    ensures ButtonOf(inputType, component).None? <==> r == 0
    ensures ButtonOf(inputType, component).Some? ==> r == 1 << BitPosition(ButtonOf(inputType, component).value)
  {
    match ButtonOf(inputType, component)
    case None => 0
    case Some(b) => ButtonBit(b)
  }

  /** Each button's mask is the single bit at its position, and no two buttons share one. */
  lemma ButtonBitsDistinct(b: Button, c: Button)
    ensures ButtonBit(b) == 1 << BitPosition(b)
    ensures ButtonBit(b) == ButtonBit(c) <==> b == c
  {
  }

  /** Whether bit k of a button word is set. */
  predicate Pressed(word: bv32, k: nat)
    requires k < 32
  {
    (word >> k) & 1 == 1
  }

  /** The fields of a ControllerState that boolean inputs read. */
  datatype ControllerState = ControllerState(connected: bool, buttonState: bv32, lastButtonState: bv32)

  const ResetController := ControllerState(false, 0, 0)

  /** A boolean input read: its current state and whether it changed since the last sync. */
  datatype BooleanRead = BooleanRead(state: bool, changed: bool)

  /**
   * The read of GetXR2BooleanInput as written: a button mask reads that
   * button; mask 0 reads whether any button is down, and reports a change
   * whenever the button word differs from the last one.
   */
  function ReadBooleanAsWritten(c: ControllerState, buttonBit: bv32): BooleanRead
  {
    if buttonBit != 0 then BooleanRead(c.buttonState & buttonBit != 0, (c.buttonState ^ c.lastButtonState) & buttonBit != 0)
    else BooleanRead(c.buttonState != 0, c.buttonState != c.lastButtonState)
  }

  /** The read with mask 0 reporting a change only when whether any button is down changed. */
  function ReadBoolean(c: ControllerState, buttonBit: bv32): BooleanRead
  {
    if buttonBit != 0 then BooleanRead(c.buttonState & buttonBit != 0, (c.buttonState ^ c.lastButtonState) & buttonBit != 0)
    else BooleanRead(c.buttonState != 0, (c.buttonState != 0) != (c.lastButtonState != 0))
  }

  /**
   * For a named button the state is whether its bit is set and the change
   * flag whether that bit differs from the last sync.
   */
  lemma ButtonRead(c: ControllerState, b: Button)
    ensures ReadBoolean(c, ButtonBit(b)).state <==> Pressed(c.buttonState, BitPosition(b))
    ensures ReadBoolean(c, ButtonBit(b)).changed <==>
      Pressed(c.buttonState, BitPosition(b)) != Pressed(c.lastButtonState, BitPosition(b))
    ensures ReadBooleanAsWritten(c, ButtonBit(b)) == ReadBoolean(c, ButtonBit(b))
  {
  }

  /**
   * The change flag means the state changed: it is set exactly when the
   * state read now differs from the state the last button word gives.
   */
  lemma ChangedMeansStateChanged(c: ControllerState, b: Option<Button>)
    ensures var bit := if b.Some? then ButtonBit(b.value) else 0;
      ReadBoolean(c, bit).changed <==> ReadBoolean(c, bit).state != ReadBoolean(c.(buttonState := c.lastButtonState), bit).state
  {
    if b.Some? {
      ButtonRead(c, b.value);
      ButtonRead(c.(buttonState := c.lastButtonState), b.value);
    }
  }

  /**
   * As written, with no button named the change flag can be set while the
   * state stays the same: button One was down and button Two is now.
   */
  lemma AnyButtonChangeAsWritten()
    ensures var c := ControllerState(true, 2, 1);
      && ReadBooleanAsWritten(c, 0).changed
      && ReadBooleanAsWritten(c, 0).state == ReadBooleanAsWritten(c.(buttonState := c.lastButtonState), 0).state
  {
  }

  // ---------------------------------------------------------------------
  // Controller selection

  /** Whether t occurs in s. */
  predicate Contains(s: string, t: string)
  {
    t <= s || (s != [] && Contains(s[1..], t))
  }

  lemma {:induction false} ContainsTail(s: string, t: string)
    requires t != [] && Contains(s, t)
    ensures Contains(s, t[1..])
  {
    if t <= s {
      assert t[1..] <= s[1..];
      assert Contains(s[1..], t[1..]);
    } else {
      ContainsTail(s[1..], t);
    }
  }

  lemma {:induction false} ContainsAt(s: string, t: string, i: nat)
    requires i <= |s| && t <= s[i..]
    ensures Contains(s, t)
  {
    if i > 0 {
      assert s[1..][i - 1..] == s[i..];
      ContainsAt(s[1..], t, i - 1);
    } else {
      assert s[0..] == s;
    }
  }

  /** The path test of GetControllerIndex: "right" anywhere selects controller 1, anything else controller 0. */
  function ControllerIndexOf(pathString: string): (r: nat)
    ensures r <= 1
    ensures r == 1 <==> Contains(pathString, "right")
  {
    if Contains(pathString, "/right") || Contains(pathString, "right") then
      (if Contains(pathString, "/right") then assert "/right"[1..] == "right"; ContainsTail(pathString, "/right"); 1 else 1)
    else if Contains(pathString, "/left") || Contains(pathString, "left") then 0
    else 0
  }

  /**
   * GetControllerIndex: the subaction path read back as a string; a null
   * path, no instance or a string without "right" selects the left
   * controller.
   */
  function GetControllerIndex(table: map<Path, string>, instances: set<Instance>, instance: Instance, subactionPath: Path): (r: nat)
    ensures r <= 1
    ensures r == 1 <==>
      subactionPath != NullPath && instance != IM.NullHandle
      && Contains(IM.PathString(table, instances, instance, subactionPath), "right")
  {
    if subactionPath == NullPath then 0
    else if instance != IM.NullHandle then
      var pathString := IM.PathString(table, instances, instance, subactionPath);
      if pathString != "" then ControllerIndexOf(pathString) else 0
    else 0
  }

  /** A string in which the first two characters of t never occur together does not contain t. */
  lemma {:induction false} AbsentPair(s: string, t: string)
    requires |t| >= 2
    requires forall i :: 0 <= i < |s| - 1 ==> s[i] != t[0] || s[i + 1] != t[1]
    ensures !Contains(s, t)
  {
    if |s| >= 2 {
      assert s[0] != t[0] || s[1] != t[1];
    }
    if s != [] {
      forall i | 0 <= i < |s[1..]| - 1
        ensures s[1..][i] != t[0] || s[1..][i + 1] != t[1]
      {
        assert s[1..][i] == s[i + 1] && s[1..][i + 1] == s[(i + 1) + 1];
      }
      AbsentPair(s[1..], t);
    }
  }

  lemma LeftPathNamesNoRight()
    ensures !Contains("/user/hand/left", "right")
  {
    var s := "/user/hand/left";
    assert forall i :: 0 <= i < |s| - 1 ==> s[i] != 'r' || s[i + 1] != 'i';
    AbsentPair(s, "right");
  }

  /** A hand subaction path selects the controller of that hand. */
  lemma HandSubactionPath(table: map<Path, string>, instances: set<Instance>, instance: Instance, path: Path)
    requires instance != IM.NullHandle && instance in instances && path != NullPath && path in table
    requires table[path] == "/user/hand/right" || table[path] == "/user/hand/left"
    ensures GetControllerIndex(table, instances, instance, path) == (if table[path] == "/user/hand/right" then 1 else 0)
  {
    var s := table[path];
    assert '\0' !in s by {
      assert forall i :: 0 <= i < |s| ==> s[i] != '\0';
    }
    IM.PathStringReadsTable(table, instances, instance, path);
    assert IM.PathString(table, instances, instance, path) == s;
    if s == "/user/hand/right" {
      ContainsAt(s, "right", 11);
    } else {
      LeftPathNamesNoRight();
    }
  }

  // ---------------------------------------------------------------------
  // Controllers

  /** The two controllers and whether they have been set up. */
  class Controllers {
    var controllers: seq<ControllerState>
    var initialized: bool

    ghost predicate Valid()
      reads this
    {
      |controllers| == 2
    }

    constructor ()
      ensures Valid() && controllers == [ResetController, ResetController] && !initialized
    {
      controllers := [ResetController, ResetController];
      initialized := false;
    }

    /**
     * InitializeControllers: once set up nothing changes; without a QVR
     * client nothing is set up; otherwise both controllers are reset.
     */
    method Initialize(clientOk: bool) returns (ok: bool)
      requires Valid()
      modifies this
      ensures Valid()
      ensures old(initialized) ==> ok && controllers == old(controllers) && initialized
      ensures !old(initialized) && !clientOk ==> !ok && controllers == old(controllers) && !initialized
      ensures !old(initialized) && clientOk ==> ok && controllers == [ResetController, ResetController] && initialized
    {
      if initialized {
        return true;
      }
      if !clientOk {
        return false;
      }
      var i := 0;
      while i < 2
        invariant 0 <= i <= 2 && |controllers| == 2
        invariant forall j :: 0 <= j < i ==> controllers[j] == ResetController
        invariant forall j :: i <= j < 2 ==> controllers[j] == old(controllers)[j]
      {
        controllers := controllers[i := ResetController];
        i := i + 1;
      }
      initialized := true;
      ok := true;
    }

    /**
     * The selection step of GetXR2BooleanInput: the action's binding path,
     * when it parses, gives the controller and the button; otherwise the
     * subaction path gives the controller and no button is named.
     */
    method SelectInput(registry: IM.InputRegistry, table: map<Path, string>, instances: set<Instance>,
                       instance: Instance, action: Action, subactionPath: Path)
      returns (controllerIdx: nat, buttonBit: bv32)
      ensures var bindingPath := IM.BindingPathIn(registry.actionToBindingPath, action);
        var parsed := IM.Classify(IM.Segments(IM.PathString(table, instances, instance, bindingPath)));
        && (parsed.valid ==>
              controllerIdx == parsed.controllerIndex && buttonBit == MapInputToButtonBit(parsed.inputType, parsed.component))
        && (!parsed.valid ==>
              controllerIdx == GetControllerIndex(table, instances, instance, subactionPath) && buttonBit == 0)
    {
      var bindingPath := registry.GetActionBindingPath(action);
      controllerIdx := 0;
      buttonBit := 0;
      if bindingPath != NullPath {
        var parsed := IM.ParseInputPath(table, instances, instance, bindingPath);
        if parsed.valid {
          controllerIdx := parsed.controllerIndex;
          buttonBit := MapInputToButtonBit(parsed.inputType, parsed.component);
        } else {
          controllerIdx := GetControllerIndex(table, instances, instance, subactionPath);
        }
      } else {
        assert IM.Segments("") == [];
        controllerIdx := GetControllerIndex(table, instances, instance, subactionPath);
      }
    }

    /**
     * GetXR2BooleanInput as written: with both outputs present, the
     * controllers are first set up if they were not, then the selected
     * controller is read; with no button named (bit 0) `changed` compares
     * the whole button word.
     */
    method GetBooleanInputAsWritten(registry: IM.InputRegistry, table: map<Path, string>, instances: set<Instance>,
                                    instance: Instance, action: Action, subactionPath: Path,
                                    hasState: bool, hasChanged: bool, clientOk: bool)
      returns (ok: bool, read: Option<BooleanRead>)
      requires Valid()
      modifies this
      ensures Valid()
      ensures !hasState || !hasChanged ==>
        !ok && read == None && controllers == old(controllers) && initialized == old(initialized)
      ensures hasState && hasChanged ==>
        && initialized == (old(initialized) || clientOk)
        && controllers == (if old(initialized) || !clientOk then old(controllers) else [ResetController, ResetController])
        && ok && read.Some?
      ensures hasState && hasChanged ==>
        var bindingPath := IM.BindingPathIn(registry.actionToBindingPath, action);
        var parsed := IM.Classify(IM.Segments(IM.PathString(table, instances, instance, bindingPath)));
        && (parsed.valid ==>
              read.value == ReadBooleanAsWritten(controllers[parsed.controllerIndex], MapInputToButtonBit(parsed.inputType, parsed.component)))
        && (!parsed.valid ==>
              read.value == ReadBooleanAsWritten(controllers[GetControllerIndex(table, instances, instance, subactionPath)], 0))
    {
      if !hasState || !hasChanged {
        return false, None;
      }
      if !initialized {
        var _ := Initialize(clientOk);
      }
      var controllerIdx, buttonBit := SelectInput(registry, table, instances, instance, action, subactionPath);
      if controllerIdx < 2 {
        read := Some(ReadBooleanAsWritten(controllers[controllerIdx], buttonBit));
        ok := true;
      } else {
        ok, read := false, None;
      }
    }

    /**
     * GetXR2BooleanInput with the any-button read corrected: `changed`
     * says whether "some button is pressed" changed, so it always agrees
     * with `state` (ChangedMeansStateChanged).
     */
    method GetBooleanInput(registry: IM.InputRegistry, table: map<Path, string>, instances: set<Instance>,
                           instance: Instance, action: Action, subactionPath: Path,
                           hasState: bool, hasChanged: bool, clientOk: bool)
      returns (ok: bool, read: Option<BooleanRead>)
      requires Valid()
      modifies this
      ensures Valid()
      ensures !hasState || !hasChanged ==>
        !ok && read == None && controllers == old(controllers) && initialized == old(initialized)
      ensures hasState && hasChanged ==>
        && initialized == (old(initialized) || clientOk)
        && controllers == (if old(initialized) || !clientOk then old(controllers) else [ResetController, ResetController])
        && ok && read.Some?
      ensures hasState && hasChanged ==>
        var bindingPath := IM.BindingPathIn(registry.actionToBindingPath, action);
        var parsed := IM.Classify(IM.Segments(IM.PathString(table, instances, instance, bindingPath)));
        && (parsed.valid ==>
              read.value == ReadBoolean(controllers[parsed.controllerIndex], MapInputToButtonBit(parsed.inputType, parsed.component)))
        && (!parsed.valid ==>
              read.value == ReadBoolean(controllers[GetControllerIndex(table, instances, instance, subactionPath)], 0))
    {
      if !hasState || !hasChanged {
        return false, None;
      }
      if !initialized {
        var _ := Initialize(clientOk);
      }
      var controllerIdx, buttonBit := SelectInput(registry, table, instances, instance, action, subactionPath);
      if controllerIdx < 2 {
        read := Some(ReadBoolean(controllers[controllerIdx], buttonBit));
        ok := true;
      } else {
        ok, read := false, None;
      }
    }
  }

  /** The controller an action reads is always one of the two: the index check never refuses. */
  lemma ControllerIndexInRange(table: map<Path, string>, instances: set<Instance>, instance: Instance,
                               bindingPath: Path, subactionPath: Path)
    ensures IM.Classify(IM.Segments(IM.PathString(table, instances, instance, bindingPath))).controllerIndex < 2
    ensures GetControllerIndex(table, instances, instance, subactionPath) < 2
  {
  }

  // ---------------------------------------------------------------------
  // Performance level

  const MaxPerfLevel: nat := 3
  const RefreshRate: real := 90.0

  /** The frame rate below which the level steps up: 70% of the refresh rate. */
  const LowFps: real := RefreshRate * 0.7
  /** The frame rate above which the level steps down: 95% of the refresh rate. */
  const HighFps: real := RefreshRate * 0.95

  /** The level SetXR2PerformanceLevel keeps: at most the maximum. */
  function ClampLevel(level: nat): (r: nat)
    ensures r <= MaxPerfLevel
    ensures level <= MaxPerfLevel ==> r == level
    ensures level > MaxPerfLevel ==> r == MaxPerfLevel
  {
    if level > MaxPerfLevel then MaxPerfLevel else level
  }

  /** The QVR level sent for the CPU and the GPU: one above the clamped level. */
  function QvrLevel(level: nat): (r: nat)
    ensures 1 <= r <= MaxPerfLevel + 1
    ensures r == MaxPerfLevel + 1 <==> level >= MaxPerfLevel
  {
    ClampLevel(level) + 1
  }

  /**
   * One frame's adjustment: up one when the rate is low and the level is
   * below the maximum, down one when the rate is high and the level above 0.
   */
  function StepLevel(level: nat, fps: real): (r: nat)
    ensures level <= MaxPerfLevel ==> r <= MaxPerfLevel
    ensures r == level || r == level + 1 || r + 1 == level
    ensures r > level <==> fps < LowFps && level < MaxPerfLevel
    ensures r < level <==> fps > HighFps && level > 0 && !(fps < LowFps && level < MaxPerfLevel)
  {
    if fps < LowFps && level < MaxPerfLevel then level + 1
    else if fps > HighFps && level > 0 then level - 1
    else level
  }

  /** The level after n frames at the same rate. */
  function StepLevels(level: nat, fps: real, n: nat): nat
    decreases n
  {
    if n == 0 then level else StepLevels(StepLevel(level, fps), fps, n - 1)
  }

  /** A sustained low frame rate raises the level one step a frame until the maximum. */
  lemma {:induction false} SustainedLowRate(level: nat, fps: real, n: nat)
    requires fps < LowFps && level <= MaxPerfLevel
    ensures StepLevels(level, fps, n) == if level + n <= MaxPerfLevel then level + n else MaxPerfLevel
    decreases n
  {
    if n > 0 {
      SustainedLowRate(StepLevel(level, fps), fps, n - 1);
    }
  }

  /** A sustained high frame rate lowers the level one step a frame until 0. */
  lemma {:induction false} SustainedHighRate(level: nat, fps: real, n: nat)
    requires fps > HighFps
    ensures StepLevels(level, fps, n) == if level >= n then level - n else 0
    decreases n
  {
    if n > 0 {
      SustainedHighRate(StepLevel(level, fps), fps, n - 1);
    }
  }

  /** The performance level and the frame statistics it follows. */
  class PerfControl {
    var currentPerfLevel: nat
    var renderingActive: bool

    ghost predicate Valid()
      reads this
    {
      currentPerfLevel <= MaxPerfLevel
    }

    constructor ()
      ensures Valid() && currentPerfLevel == 0 && !renderingActive
    {
      currentPerfLevel := 0;
      renderingActive := false;
    }

    /**
     * SetXR2PerformanceLevel: the level is clamped; without a QVR client or
     * when the service refuses it nothing changes; otherwise it becomes the
     * current level.  sent is what reaches the service, if anything.
     */
    method SetPerformanceLevel(level: nat, clientOk: bool, serviceOk: bool) returns (ok: bool, sent: Option<nat>)
      requires Valid()
      modifies this
      ensures Valid() && renderingActive == old(renderingActive)
      ensures !clientOk ==> !ok && sent == None && currentPerfLevel == old(currentPerfLevel)
      ensures clientOk ==> sent == Some(QvrLevel(level))
      ensures clientOk && !serviceOk ==> !ok && currentPerfLevel == old(currentPerfLevel)
      ensures clientOk && serviceOk ==> ok && currentPerfLevel == ClampLevel(level)
    {
      var clamped := level;
      if clamped > MaxPerfLevel {
        clamped := MaxPerfLevel;
      }
      if !clientOk {
        return false, None;
      }
      sent := Some(clamped + 1);
      if !serviceOk {
        return false, sent;
      }
      currentPerfLevel := clamped;
      ok := true;
    }

    /**
     * The adaptive part of BeginXR2FrameRendering: while rendering, once a
     * frame time has been measured, the level takes one step with the
     * frame rate and the new level is sent to the service.
     */
    method AdjustPerfLevel(averageFrameTime: real, fps: real, clientOk: bool, serviceOk: bool) returns (ok: bool)
      requires Valid()
      modifies this
      ensures Valid() && renderingActive == old(renderingActive)
      ensures ok == renderingActive
      ensures renderingActive && averageFrameTime > 0.0 ==> currentPerfLevel == StepLevel(old(currentPerfLevel), fps)
      ensures !renderingActive || averageFrameTime <= 0.0 ==> currentPerfLevel == old(currentPerfLevel)
    {
      if !renderingActive {
        return false;
      }
      if averageFrameTime > 0.0 {
        if fps < LowFps && currentPerfLevel < MaxPerfLevel {
          currentPerfLevel := currentPerfLevel + 1;
          var _, _ := SetPerformanceLevel(currentPerfLevel, clientOk, serviceOk);
        } else if fps > HighFps && currentPerfLevel > 0 {
          currentPerfLevel := currentPerfLevel - 1;
          var _, _ := SetPerformanceLevel(currentPerfLevel, clientOk, serviceOk);
        }
      }
      ok := true;
    }
  }
}
