/**
 * Keyboard and pointer input state of the SDK framework (svrInput.h and
 * svrInput.cpp): a status byte per key for this frame and the previous one,
 * a reserved flag per key, and the status of up to five pointers.
 */
module SvrInput {

  /** INPUT_MAX_POINTERS. */
  const MaxPointers: int := 5
  const KeyCount: int := 256

  /** A C `short`, the type of a scroll-wheel step. */
  newtype Short = x: int | -0x8000 <= x < 0x8000

  /** SvrPointerStatus. */
  datatype PointerStatus = PointerStatus(down: bool, x: real, y: real, deltaX: real, deltaY: real, deltaWheel: Short)

  const InitialPointer: PointerStatus := PointerStatus(false, 0.0, 0.0, 0.0, 0.0, 0)

  /** A key is down when bit 0x80 of its status byte is set. */
  predicate Down(status: bv8) {
    status & 0x80 != 0
  }

  /** The status bytes written by the key-down and key-up events. */
  const KeyDownStatus: bv8 := 0xff
  const KeyUpStatus: bv8 := 0x00

  /** A pointer id the pointer entry points accept. */
  predicate ValidPointer(pointerId: int)
  {
    0 <= pointerId < MaxPointers
  }

  /** Pressed this frame: down now and not down in the previous frame. */
  function DownThisFrame(cur: bv8, prev: bv8): (r: bool)
    ensures r ==> Down(cur) && !Down(prev)
    ensures Down(cur) && !Down(prev) ==> r
  {
    Down(cur) && !Down(prev)
  }

  /** Released this frame: up now and down in the previous frame. */
  function UpThisFrame(cur: bv8, prev: bv8): (r: bool)
    ensures r ==> !Down(cur) && Down(prev)
    ensures !Down(cur) && Down(prev) ==> r
  {
    !Down(cur) && Down(prev)
  }

  /** A key is never both pressed and released in one frame, and neither happens when the status did not change. */
  lemma FrameEdgesExclusive(cur: bv8, prev: bv8)
    ensures !(DownThisFrame(cur, prev) && UpThisFrame(cur, prev))
    ensures cur == prev ==> !DownThisFrame(cur, prev) && !UpThisFrame(cur, prev)
  {
  }

  /**
   * A key event within a frame, as seen by the frame queries.  Update
   * copies the key's status, `start`, into the previous frame; a key-down
   * event then reports the key pressed this frame exactly when it was up
   * at the start, and never released; a key-up event the other way round.
   * At the next Update, with no further event, neither edge is reported.
   */
  lemma KeyEventsAcrossFrames(start: bv8)
    ensures DownThisFrame(KeyDownStatus, start) <==> !Down(start)
    ensures !UpThisFrame(KeyDownStatus, start)
    ensures UpThisFrame(KeyUpStatus, start) <==> Down(start)
    ensures !DownThisFrame(KeyUpStatus, start)
    ensures !DownThisFrame(KeyDownStatus, KeyDownStatus) && !UpThisFrame(KeyDownStatus, KeyDownStatus)
    ensures !DownThisFrame(KeyUpStatus, KeyUpStatus) && !UpThisFrame(KeyUpStatus, KeyUpStatus)
  {
    FrameEdgesExclusive(KeyDownStatus, KeyDownStatus);
    FrameEdgesExclusive(KeyUpStatus, KeyUpStatus);
  }

  class Input {
    var keyStatus: array<bv8>
    var prevKeyStatus: array<bv8>
    var keyReserved: array<bool>
    var pointers: array<PointerStatus>

    ghost predicate Valid()
      reads this
    {
      && keyStatus.Length == KeyCount && prevKeyStatus.Length == KeyCount
      && keyReserved.Length == KeyCount && pointers.Length == MaxPointers
      && keyStatus != prevKeyStatus
    }

    /** Every key up and unreserved, the previous frame equal to this one, every pointer at rest. */
    constructor ()
      ensures Valid() && fresh(keyStatus) && fresh(prevKeyStatus) && fresh(keyReserved) && fresh(pointers)
      ensures forall k :: 0 <= k < KeyCount ==> keyStatus[k] == 0 && prevKeyStatus[k] == 0 && !keyReserved[k]
      ensures forall p :: 0 <= p < MaxPointers ==> pointers[p] == InitialPointer
    {
      keyStatus := new bv8[KeyCount](_ => 0);
      prevKeyStatus := new bv8[KeyCount](_ => 0);
      keyReserved := new bool[KeyCount](_ => false);
      pointers := new PointerStatus[MaxPointers](_ => InitialPointer);
    }

    function IsKeyDown(keyId: int): bool
      requires Valid() && 0 <= keyId < KeyCount
      reads this, keyStatus
    {
      Down(keyStatus[keyId])
    }

    function IsKeyUp(keyId: int): (r: bool)
      requires Valid() && 0 <= keyId < KeyCount
      reads this, keyStatus
      ensures r <==> !IsKeyDown(keyId)
    {
      !Down(keyStatus[keyId])
    }

    function IsKeyDownThisFrame(keyId: int): bool
      requires Valid() && 0 <= keyId < KeyCount
      reads this, keyStatus, prevKeyStatus
    {
      DownThisFrame(keyStatus[keyId], prevKeyStatus[keyId])
    }

    function IsKeyUpThisFrame(keyId: int): bool
      requires Valid() && 0 <= keyId < KeyCount
      reads this, keyStatus, prevKeyStatus
    {
      UpThisFrame(keyStatus[keyId], prevKeyStatus[keyId])
    }

    /** A pointer id outside [0, 5) is never down. */
    function IsPointerDown(pointerId: int): (r: bool)
      requires Valid()
      reads this, pointers
      ensures !ValidPointer(pointerId) ==> !r
      ensures ValidPointer(pointerId) ==> r == pointers[pointerId].down
    {
      if pointerId < 0 || pointerId >= MaxPointers then false
      else pointers[pointerId].down
    }

    /** The pointer's location and whether it is down; (0, 0) and false for an invalid id. */
    function GetPointerLocation(pointerId: int): (r: (bool, real, real))
      requires Valid()
      reads this, pointers
      ensures !ValidPointer(pointerId) ==> r == (false, 0.0, 0.0)
      ensures ValidPointer(pointerId) ==> r == (pointers[pointerId].down, pointers[pointerId].x, pointers[pointerId].y)
    {
      if pointerId < 0 || pointerId >= MaxPointers then (false, 0.0, 0.0)
      else (IsPointerDown(pointerId), pointers[pointerId].x, pointers[pointerId].y)
    }

    /** The pointer's last delta and whether it is down; (0, 0) and false for an invalid id. */
    function GetPointerDelta(pointerId: int): (r: (bool, real, real))
      requires Valid()
      reads this, pointers
      ensures !ValidPointer(pointerId) ==> r == (false, 0.0, 0.0)
      ensures ValidPointer(pointerId) ==> r == (pointers[pointerId].down, pointers[pointerId].deltaX, pointers[pointerId].deltaY)
    {
      if pointerId < 0 || pointerId >= MaxPointers then (false, 0.0, 0.0)
      else (IsPointerDown(pointerId), pointers[pointerId].deltaX, pointers[pointerId].deltaY)
    }

    /** GetMouseWheel: hands out the pending wheel step and clears it. */
    method GetMouseWheel(pointerId: int) returns (moved: bool, outWheel: Short)
      requires Valid()
      modifies pointers
      ensures Valid()
      ensures !ValidPointer(pointerId) ==> !moved && outWheel == 0 && pointers[..] == old(pointers[..])
      ensures ValidPointer(pointerId) ==>
        && outWheel == old(pointers[pointerId].deltaWheel)
        && moved == (outWheel != 0)
        && pointers[..] == old(pointers[..])[pointerId := old(pointers[pointerId]).(deltaWheel := 0)]
    {
      if pointerId < 0 || pointerId >= MaxPointers {
        return false, 0;
      }
      outWheel := pointers[pointerId].deltaWheel;
      pointers[pointerId] := pointers[pointerId].(deltaWheel := 0);
      moved := outWheel != 0;
    }

    /** Update: the current key statuses become the previous frame's. */
    method Update()
      requires Valid()
      modifies prevKeyStatus
      ensures Valid()
      ensures prevKeyStatus[..] == keyStatus[..]
      ensures forall k :: 0 <= k < KeyCount ==> !IsKeyDownThisFrame(k) && !IsKeyUpThisFrame(k)
    {
      forall k | 0 <= k < KeyCount {
        prevKeyStatus[k] := keyStatus[k];
      }
      assert prevKeyStatus[..] == keyStatus[..];
    }

    method ScrollWheelEvent(pointerId: int, s: Short)
      requires Valid()
      modifies pointers
      ensures Valid()
      ensures !ValidPointer(pointerId) ==> pointers[..] == old(pointers[..])
      ensures ValidPointer(pointerId) ==>
        pointers[..] == old(pointers[..])[pointerId := old(pointers[pointerId]).(deltaWheel := s)]
    {
      if pointerId < 0 || pointerId >= MaxPointers {
        return;
      }
      pointers[pointerId] := pointers[pointerId].(deltaWheel := s);
    }

    /** PointerDownEvent: down at (x, y), with the delta reset. */
    method PointerDownEvent(pointerId: int, x: real, y: real)
      requires Valid()
      modifies pointers
      ensures Valid()
      ensures !ValidPointer(pointerId) ==> pointers[..] == old(pointers[..])
      ensures ValidPointer(pointerId) ==>
        pointers[..] == old(pointers[..])[pointerId :=
          old(pointers[pointerId]).(down := true, x := x, y := y, deltaX := 0.0, deltaY := 0.0)]
    {
      if pointerId < 0 || pointerId >= MaxPointers {
        return;
      }
      pointers[pointerId] := pointers[pointerId].(down := true, x := x, y := y, deltaX := 0.0, deltaY := 0.0);
    }

    /** PointerUpEvent: up at (x, y); the delta is the move from the last location. */
    method PointerUpEvent(pointerId: int, x: real, y: real)
      requires Valid()
      modifies pointers
      ensures Valid()
      ensures !ValidPointer(pointerId) ==> pointers[..] == old(pointers[..])
      ensures ValidPointer(pointerId) ==>
        var was := old(pointers[pointerId]);
        pointers[..] == old(pointers[..])[pointerId :=
          was.(down := false, deltaX := x - was.x, deltaY := y - was.y, x := x, y := y)]
    {
      if pointerId < 0 || pointerId >= MaxPointers {
        return;
      }
      var was := pointers[pointerId];
      pointers[pointerId] := was.(down := false, deltaX := x - was.x, deltaY := y - was.y, x := x, y := y);
    }

    /** PointerMoveEvent: as an up event, but the pointer stays down or up. */
    method PointerMoveEvent(pointerId: int, x: real, y: real)
      requires Valid()
      modifies pointers
      ensures Valid()
      ensures !ValidPointer(pointerId) ==> pointers[..] == old(pointers[..])
      ensures ValidPointer(pointerId) ==>
        var was := old(pointers[pointerId]);
        pointers[..] == old(pointers[..])[pointerId := was.(deltaX := x - was.x, deltaY := y - was.y, x := x, y := y)]
    {
      if pointerId < 0 || pointerId >= MaxPointers {
        return;
      }
      var was := pointers[pointerId];
      pointers[pointerId] := was.(deltaX := x - was.x, deltaY := y - was.y, x := x, y := y);
    }

    /** KeyDownEvent: the key's status becomes 0xff; answers whether the app reserved the key. */
    method KeyDownEvent(keyId: int) returns (reserved: bool)
      requires Valid() && 0 <= keyId < KeyCount
      modifies keyStatus
      ensures Valid()
      ensures keyStatus[..] == old(keyStatus[..])[keyId := KeyDownStatus]
      ensures reserved == keyReserved[keyId]
      ensures IsKeyDown(keyId)
      ensures IsKeyDownThisFrame(keyId) <==> !Down(prevKeyStatus[keyId])
    {
      keyStatus[keyId] := KeyDownStatus;
      reserved := keyReserved[keyId];
    }

    /** KeyUpEvent: the key's status becomes 0x00; answers whether the app reserved the key. */
    method KeyUpEvent(keyId: int) returns (reserved: bool)
      requires Valid() && 0 <= keyId < KeyCount
      modifies keyStatus
      ensures Valid()
      ensures keyStatus[..] == old(keyStatus[..])[keyId := KeyUpStatus]
      ensures reserved == keyReserved[keyId]
      ensures IsKeyUp(keyId)
      ensures IsKeyUpThisFrame(keyId) <==> Down(prevKeyStatus[keyId])
    {
      keyStatus[keyId] := KeyUpStatus;
      reserved := keyReserved[keyId];
    }

    method ReserveKey(keyId: int, reserve: bool)
      requires Valid() && 0 <= keyId < KeyCount
      modifies keyReserved
      ensures Valid()
      ensures keyReserved[..] == old(keyReserved[..])[keyId := reserve]
    {
      keyReserved[keyId] := reserve;
    }
  }
}
