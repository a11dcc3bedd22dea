/**
 * Pieces of the SDK runtime core (svrApiCore.cpp): the ring buffer behind
 * the heuristic predicted display time, the thermal and performance level
 * mappings to the QVR service, the performance-level request, the
 * tracking-mode bits and the frame-submission slot.
 *
 * QVR service calls are represented by their results, passed in.  Floats
 * are reals.
 */
module SvrApiCore {

  // ---------------------------------------------------------------------
  // Heuristic predicted display time
  // ---------------------------------------------------------------------

  /** gNumHeuristicEntries when the configured count is not positive. */
  const DefaultHeuristicEntries: int := 25
  const NanosPerMilli: real := 1000000.0

  /** The sum of the entries of a sequence. */
  function Sum(s: seq<real>): real
  {
    if s == [] then 0.0 else Sum(s[..|s| - 1]) + s[|s| - 1]
  }

  /** A sum of entries in [0, max] lies in [0, |s| * max]. */
  lemma {:induction false} SumBounds(s: seq<real>, max: real)
    requires forall i :: 0 <= i < |s| ==> 0.0 <= s[i] <= max
    ensures 0.0 <= Sum(s) <= |s| as real * max
  {
    if s != [] {
      SumBounds(s[..|s| - 1], max);
    }
  }

  /** The value stored for a sample: a time outside [0, max] is stored as max. */
  function ClampPredictTime(predictTimeMs: real, maxPredictedTime: real): (r: real)
    ensures 0.0 <= predictTimeMs <= maxPredictedTime ==> r == predictTimeMs
    ensures !(0.0 <= predictTimeMs <= maxPredictedTime) ==> r == maxPredictedTime
    ensures 0.0 <= maxPredictedTime ==> 0.0 <= r <= maxPredictedTime
  {
    if predictTimeMs < 0.0 || predictTimeMs > maxPredictedTime then maxPredictedTime else predictTimeMs
  }

  /**
   * The ring buffer of recent predicted times (gpHeuristicPredictData,
   * gNumHeuristicEntries, gHeuristicWriteIndx), with the configuration
   * values it depends on.
   */
  class HeuristicPredictor {
    /** gHeuristicPredictedTime. */
    const enabled: bool
    /** gMaxPredictedTime. */
    const maxPredictedTime: real
    /** gHeuristicOffset. */
    const offset: real
    var numEntries: int
    var data: array?<real>
    var writeIndex: int

    /**
     * An allocated buffer has one slot per entry and the write index inside
     * it; with a non-negative maximum every stored time lies in [0, max].
     */
    ghost predicate Valid()
      reads this, data
    {
      && (data != null ==> 0 < numEntries == data.Length && 0 <= writeIndex < numEntries)
      && (data != null && 0.0 <= maxPredictedTime ==>
            forall i :: 0 <= i < data.Length ==> 0.0 <= data[i] <= maxPredictedTime)
    }

    constructor (enabled: bool, numEntries: int, maxPredictedTime: real, offset: real)
      ensures Valid()
      ensures this.enabled == enabled && this.numEntries == numEntries
      ensures this.maxPredictedTime == maxPredictedTime && this.offset == offset
      ensures data == null && writeIndex == 0
    {
      this.enabled := enabled;
      this.numEntries := numEntries;
      this.maxPredictedTime := maxPredictedTime;
      this.offset := offset;
      data := null;
      writeIndex := 0;
    }

    /** Allocation when VR mode starts: a non-positive count becomes 25, every slot 0. */
    method Allocate()
      requires Valid()
      modifies this
      ensures Valid()
      ensures !enabled ==> numEntries == old(numEntries) && data == old(data) && writeIndex == old(writeIndex)
      ensures enabled ==>
        && numEntries == (if old(numEntries) <= 0 then DefaultHeuristicEntries else old(numEntries))
        && writeIndex == 0 && data != null && fresh(data)
        && data[..] == seq(numEntries, _ => 0.0)
    {
      if enabled {
        if numEntries <= 0 {
          numEntries := DefaultHeuristicEntries;
        }
        writeIndex := 0;
        data := new real[numEntries](_ => 0.0);
      }
    }

    /** Release when VR mode ends. */
    method Free()
      requires Valid()
      modifies this
      ensures Valid()
      ensures data == null && numEntries == old(numEntries)
      ensures writeIndex == (if old(data) != null then 0 else old(writeIndex))
    {
      if data != null {
        writeIndex := 0;
        data := null;
      }
    }

    /**
     * L_AddHeuristicPredictData: stores the new time, in milliseconds and
     * clamped, in the write slot and moves the write index on, wrapping
     * at the end.  Does nothing when the feature is off or not allocated.
     */
    method AddPredictData(newData: nat)
      requires Valid()
      modifies data, this
      ensures Valid()
      ensures data == old(data) && numEntries == old(numEntries)
      ensures !enabled || numEntries <= 0 || data == null ==>
        writeIndex == old(writeIndex) && (data != null ==> data[..] == old(data[..]))
      ensures enabled && numEntries > 0 && data != null ==>
        && data[..] == old(data[..])[old(writeIndex) :=
             ClampPredictTime(newData as real / NanosPerMilli, maxPredictedTime)]
        && writeIndex == (old(writeIndex) + 1) % numEntries
    {
      if !enabled || numEntries <= 0 || data == null {
        return;
      }
      var predictTimeMs := newData as real / NanosPerMilli;
      if predictTimeMs < 0.0 || predictTimeMs > maxPredictedTime {
        predictTimeMs := maxPredictedTime;
      }
      data[writeIndex] := predictTimeMs;
      writeIndex := writeIndex + 1;
      if writeIndex >= numEntries {
        writeIndex := 0;
      }
    }

    /**
     * L_GetHeuristicPredictTime: the average of the stored times plus the
     * configured offset, or 0 when the feature is off or not allocated.
     */
    method GetPredictTime() returns (r: real)
      requires Valid()
      ensures !enabled || numEntries <= 0 || data == null ==> r == 0.0
      ensures enabled && numEntries > 0 && data != null ==>
        r == Sum(data[..]) / numEntries as real + offset
      ensures enabled && numEntries > 0 && data != null && 0.0 <= maxPredictedTime ==>
        offset <= r <= maxPredictedTime + offset
    {
      if !enabled || numEntries <= 0 || data == null {
        return 0.0;
      }
      var average := 0.0;
      var whichEntry := 0;
      while whichEntry < numEntries
        invariant 0 <= whichEntry <= numEntries
        invariant average == Sum(data[..whichEntry])
      {
        assert data[..whichEntry + 1][..whichEntry] == data[..whichEntry];
        average := average + data[whichEntry];
        whichEntry := whichEntry + 1;
      }
      assert data[..whichEntry] == data[..];
      if 0.0 <= maxPredictedTime {
        SumBounds(data[..], maxPredictedTime);
        AverageBounds(average, numEntries as real, maxPredictedTime);
      }
      average := average / numEntries as real;
      r := average + offset;
    }
  }

  /** A total in [0, n * max] averages to a value in [0, max]. */
  lemma AverageBounds(total: real, n: real, max: real)
    requires 0.0 < n && 0.0 <= total <= n * max
    ensures 0.0 <= total / n <= max
  {
    assert total / n <= (n * max) / n;
  }

  // ---------------------------------------------------------------------
  // Thermal and performance levels
  // ---------------------------------------------------------------------

  /** The thermal levels the QVR service reports; any other code is `OtherTemp`. */
  datatype QvrThermal = TempSafe | TempLevel1 | TempLevel2 | TempLevel3 | TempCritical | OtherTemp(code: int)

  /** sxrThermalLevel. */
  datatype ThermalLevel = Safe | Level1 | Level2 | Level3 | Critical

  /** QvrThermalToSvrThermal: level by level, anything unknown is safe. */
  function QvrThermalToSvrThermal(t: QvrThermal): (r: ThermalLevel)
    ensures t.OtherTemp? ==> r == Safe
    ensures r == Safe <==> t == TempSafe || t.OtherTemp?
    ensures r == Level1 <==> t == TempLevel1
    ensures r == Level2 <==> t == TempLevel2
    ensures r == Level3 <==> t == TempLevel3
    ensures r == Critical <==> t == TempCritical
  {
    match t
    case TempSafe => Safe
    case TempLevel1 => Level1
    case TempLevel2 => Level2
    case TempLevel3 => Level3
    case TempCritical => Critical
    case OtherTemp(_) => Safe
  }

  /** sxrPerfLevel. */
  const PerfSystem: int := 0
  const PerfMinimum: int := 1
  const PerfMedium: int := 2
  const PerfMaximum: int := 3

  /** QVRSERVICE_PERF_LEVEL. */
  datatype QvrPerfLevel = PerfLevelDefault | PerfLevel1 | PerfLevel2 | PerfLevel3

  /** SvrPerfLevelToQvrPerfLevel: minimum, medium and maximum to levels 1 to 3; anything else to the default. */
  function SvrPerfLevelToQvrPerfLevel(level: int): (r: QvrPerfLevel)
    ensures r == PerfLevelDefault <==> !(PerfMinimum <= level <= PerfMaximum)
    ensures r == PerfLevel1 <==> level == PerfMinimum
    ensures r == PerfLevel2 <==> level == PerfMedium
    ensures r == PerfLevel3 <==> level == PerfMaximum
  {
    if level == PerfSystem then PerfLevelDefault
    else if level == PerfMinimum then PerfLevel1
    else if level == PerfMedium then PerfLevel2
    else if level == PerfMaximum then PerfLevel3
    else PerfLevelDefault
  }

  /**
   * The level sxrSetPerformanceLevels passes on for one of the CPU and the
   * GPU: a forced level (gForceCpuLevel, gForceGpuLevel) when it is not
   * negative, otherwise the requested one with kPerfSystem raised to
   * kPerfMedium.
   */
  function RequestedPerfLevel(level: int, forced: int): (r: int)
    ensures forced >= 0 ==> r == forced
    ensures forced < 0 && level == PerfSystem ==> r == PerfMedium
    ensures forced < 0 && level != PerfSystem ==> r == level
  {
    var raised := if level == PerfSystem then PerfMedium else level;
    if forced < 0 then raised else forced
  }

  /** Unless forced, the system level never reaches the service as the default level. */
  lemma SystemLevelNeverRequested(level: int, forced: int)
    requires forced < 0
    ensures RequestedPerfLevel(level, forced) != PerfSystem
    ensures level == PerfSystem ==> SvrPerfLevelToQvrPerfLevel(RequestedPerfLevel(level, forced)) == PerfLevel2
  {
  }

  /** sxrSetPerformanceLevels: the pair of levels handed to the internal setter. */
  function SetPerformanceLevels(cpuLevel: int, gpuLevel: int, forceCpu: int, forceGpu: int): (r: (int, int))
    ensures r.0 == RequestedPerfLevel(cpuLevel, forceCpu)
    ensures r.1 == RequestedPerfLevel(gpuLevel, forceGpu)
  {
    (RequestedPerfLevel(cpuLevel, forceCpu), RequestedPerfLevel(gpuLevel, forceGpu))
  }

  // ---------------------------------------------------------------------
  // Tracking modes
  // ---------------------------------------------------------------------

  /**
   * A uint32_t tracking-mode word, as the set of the positions of its set
   * bits: `m & (1 << b) != 0` is `b in m`, `m |= 1 << b` is `m + {b}` and
   * `m &= ~(1 << b)` is `m - {b}`.
   */
  type ModeWord = m: set<nat> | forall b :: b in m ==> b < 32

  /** sxrTrackingMode: kTrackingRotation = 1, kTrackingPosition = 2, kTrackingEye = 4. */
  const RotationBit: nat := 0
  const PositionBit: nat := 1
  const EyeBit: nat := 2

  /** The single mode the QVR service is given. */
  datatype QvrTrackingMode = TrackingModeNone | TrackingModeRotational | TrackingModeRotationalMag | TrackingModePositional

  datatype SxrResult = ErrorNone | ErrorVrModeNotInitialized

  /**
   * The modes asked for: with a configured mode, its rotation, position
   * and eye bits only; otherwise the application's word.  Either way
   * position brings rotation.
   */
  function RequestedModes(trackingModes: ModeWord, forceTrackingMode: ModeWord): (r: ModeWord)
    ensures forceTrackingMode == {} ==> r == trackingModes + (if PositionBit in trackingModes then {RotationBit} else {})
    ensures forceTrackingMode != {} ==> r <= {RotationBit, PositionBit, EyeBit}
    ensures forceTrackingMode != {} ==>
      && (RotationBit in r <==> RotationBit in forceTrackingMode || PositionBit in forceTrackingMode)
      && (PositionBit in r <==> PositionBit in forceTrackingMode)
      && (EyeBit in r <==> EyeBit in forceTrackingMode)
  {
    if forceTrackingMode != {} then
      (if RotationBit in forceTrackingMode then {RotationBit} else {})
      + (if PositionBit in forceTrackingMode then {RotationBit, PositionBit} else {})
      + (if EyeBit in forceTrackingMode then {EyeBit} else {})
    else if PositionBit in trackingModes then trackingModes + {RotationBit, PositionBit}
    else trackingModes
  }

  /** The state sxrSetTrackingMode updates: the tracking mode in effect. */
  class TrackingState {
    var currentTrackingMode: ModeWord

    constructor ()
      ensures currentTrackingMode == {}
    {
      currentTrackingMode := {};
    }

    /**
     * sxrSetTrackingMode.  The service connection, the device's supported
     * modes and the eye-tracking answers of the service are inputs:
     * `eyeQueryOk` the query of the eye-tracking mode succeeded,
     * `eyeDualSupported` / `eyeDualCurrent` dual eye tracking is supported /
     * already on, `eyeSetOk` switching it on succeeded.
     */
    method SetTrackingMode(trackingModes: ModeWord, forceTrackingMode: ModeWord, initialized: bool,
                           supportedModes: ModeWord, useMagneticRotation: bool,
                           eyeQueryOk: bool, eyeDualSupported: bool, eyeDualCurrent: bool, eyeSetOk: bool)
      returns (result: SxrResult, qvrMode: QvrTrackingMode)
      modifies this
      ensures !initialized ==> result == ErrorVrModeNotInitialized && currentTrackingMode == old(currentTrackingMode)
      ensures initialized ==> result == ErrorNone
      ensures initialized ==>
        var requested := RequestedModes(trackingModes, forceTrackingMode);
        // position only where asked for and supported
        && (PositionBit in currentTrackingMode <==> PositionBit in requested && PositionBit in supportedModes)
        // rotation exactly where asked for, which position implies
        && (RotationBit in currentTrackingMode <==> RotationBit in requested)
        && (PositionBit in requested ==> RotationBit in currentTrackingMode)
        // eye tracking only where asked for and switched on in the service
        && (EyeBit in currentTrackingMode <==>
              EyeBit in requested && eyeQueryOk && eyeDualSupported && (eyeDualCurrent || eyeSetOk))
        // every other bit as asked
        && currentTrackingMode - {RotationBit, PositionBit, EyeBit} == requested - {RotationBit, PositionBit, EyeBit}
      ensures initialized ==>
        var requested := RequestedModes(trackingModes, forceTrackingMode);
        && (qvrMode == TrackingModePositional <==> PositionBit in requested && PositionBit in supportedModes)
        && (qvrMode == TrackingModeNone <==> RotationBit !in requested && PositionBit !in requested)
        && (qvrMode == TrackingModeRotationalMag ==> useMagneticRotation)
      ensures initialized ==>
        var requested := RequestedModes(trackingModes, forceTrackingMode);
        var rotationOnly := (RotationBit in requested || PositionBit in requested)
                            && !(PositionBit in requested && PositionBit in supportedModes);
        && (qvrMode == TrackingModeRotationalMag <==> rotationOnly && useMagneticRotation)
        && (qvrMode == TrackingModeRotational <==> rotationOnly && !useMagneticRotation)
    {
      if !initialized {
        return ErrorVrModeNotInitialized, TrackingModeNone;
      }
      var modes := trackingModes;
      if PositionBit in modes {
        modes := modes + {RotationBit};
        modes := modes + {PositionBit};
      }
      var actualTrackingMode := modes;
      if forceTrackingMode != {} {
        actualTrackingMode := {};
        if RotationBit in forceTrackingMode {
          actualTrackingMode := actualTrackingMode + {RotationBit};
        }
        if PositionBit in forceTrackingMode {
          actualTrackingMode := actualTrackingMode + {RotationBit};
          actualTrackingMode := actualTrackingMode + {PositionBit};
        }
        if EyeBit in forceTrackingMode {
          actualTrackingMode := actualTrackingMode + {EyeBit};
        }
      }
      ghost var requested := actualTrackingMode;
      qvrMode := TrackingModeNone;
      if PositionBit in actualTrackingMode {
        if PositionBit in supportedModes {
          qvrMode := TrackingModePositional;
        } else {
          qvrMode := if useMagneticRotation then TrackingModeRotationalMag else TrackingModeRotational;
          actualTrackingMode := actualTrackingMode - {PositionBit};
        }
      } else if RotationBit in actualTrackingMode {
        qvrMode := if useMagneticRotation then TrackingModeRotationalMag else TrackingModeRotational;
        actualTrackingMode := actualTrackingMode - {PositionBit};
      }
      if EyeBit in actualTrackingMode {
        if !eyeQueryOk {
          actualTrackingMode := actualTrackingMode - {EyeBit};
        } else if !eyeDualSupported {
          actualTrackingMode := actualTrackingMode - {EyeBit};
        }
        if EyeBit in actualTrackingMode && !eyeDualCurrent {
          if !eyeSetOk {
            actualTrackingMode := actualTrackingMode - {EyeBit};
          }
        }
      } else {
        actualTrackingMode := actualTrackingMode - {EyeBit};
      }
      currentTrackingMode := actualTrackingMode;
      result := ErrorNone;
    }
  }

  // ---------------------------------------------------------------------
  // Frame submission slots
  // ---------------------------------------------------------------------

  /** NUM_SWAP_FRAMES. */
  const NumSwapFrames: nat := 4
  /** unsigned int wraps modulo 2^32. */
  const UIntModulus: nat := 0x1_0000_0000

  /** What the submission records in a frame slot. */
  datatype FrameSlot = FrameSlot(frameIndex: nat, minVsyncs: nat, minVSyncCount: nat)

  /** The minimum vsync count a frame is shown for: the forced one if positive, and never 0. */
  function EffectiveMinVsyncs(requested: nat, forceMinVsync: int): (r: nat)
    ensures r >= 1
    ensures forceMinVsync > 0 ==> r == forceMinVsync
    ensures forceMinVsync <= 0 && requested > 0 ==> r == requested
  {
    var v := if forceMinVsync > 0 then forceMinVsync else requested;
    if v == 0 then 1 else v
  }

  /** The slot ring of the VR mode context. */
  class FrameRing {
    var frames: array<FrameSlot>
    var submitFrameCount: nat
    var prevSubmitVsyncCount: nat

    ghost predicate Valid()
      reads this
    {
      frames.Length == NumSwapFrames && submitFrameCount < UIntModulus
    }

    constructor ()
      ensures Valid() && fresh(frames)
      ensures submitFrameCount == 0 && prevSubmitVsyncCount == 0
    {
      frames := new FrameSlot[NumSwapFrames](_ => FrameSlot(0, 0, 0));
      submitFrameCount := 0;
      prevSubmitVsyncCount := 0;
    }

    /**
     * The bookkeeping of sxrSubmitFrame once time warp runs: the frame
     * goes to slot (count + 1) mod 4 under the new count, which wraps like
     * an unsigned int; its minimum vsync count is at least 1.
     */
    method Submit(requestedMinVsyncs: nat, forceMinVsync: int) returns (slot: nat)
      requires Valid()
      modifies this, frames
      ensures Valid() && frames == old(frames)
      ensures submitFrameCount == (old(submitFrameCount) + 1) % UIntModulus
      ensures slot == submitFrameCount % NumSwapFrames
      ensures slot == (old(submitFrameCount) % NumSwapFrames + 1) % NumSwapFrames
      ensures frames[..] == old(frames[..])[slot := FrameSlot(submitFrameCount,
        EffectiveMinVsyncs(requestedMinVsyncs, forceMinVsync),
        prevSubmitVsyncCount + EffectiveMinVsyncs(requestedMinVsyncs, forceMinVsync))]
      ensures frames[slot].minVsyncs >= 1
      ensures prevSubmitVsyncCount == old(prevSubmitVsyncCount)
    {
      var nextFrameCount := (submitFrameCount + 1) % UIntModulus;
      SlotAdvances(submitFrameCount);
      slot := nextFrameCount % NumSwapFrames;
      var minVsyncs := requestedMinVsyncs;
      if forceMinVsync > 0 {
        minVsyncs := forceMinVsync;
      }
      if minVsyncs == 0 {
        minVsyncs := 1;
      }
      frames[slot] := FrameSlot(nextFrameCount, minVsyncs, prevSubmitVsyncCount + minVsyncs);
      submitFrameCount := nextFrameCount;
    }
  }

  /** Consecutive submissions use consecutive slots, also across the wrap of the counter. */
  lemma SlotAdvances(count: nat)
    requires count < UIntModulus
    ensures ((count + 1) % UIntModulus) % NumSwapFrames == (count % NumSwapFrames + 1) % NumSwapFrames
  {
    if count + 1 == UIntModulus {
      assert count % NumSwapFrames == 3;
    }
  }
}
