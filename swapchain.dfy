/**
 * OpenXR swapchains: creation with its argument checks, enumeration of
 * the images, and the acquired/released flags that acquiring and
 * releasing an image flip.  The GL textures behind the images are not
 * modelled; the platform's texture creation is represented by whether it
 * succeeds.
 */
module OpenXrSwapchain {
  import opened OpenXrTypes

  type Session = int
  type Swapchain = int

  /** The state of one SwapchainImage. */
  datatype Image = Image(acquired: bool, released: bool)

  /** The fields of XRSwapchain the entry points read and write. */
  datatype SwapchainRecord = SwapchainRecord(session: Session, width: nat, height: nat, arraySize: nat,
                                             images: seq<Image>, currentImageIndex: nat)

  /** The parts of XrSwapchainCreateInfo that are checked. */
  datatype CreateInfo = CreateInfo(typeOk: bool, width: nat, height: nat, arraySize: nat)

  const FirstSwapchainHandle: Swapchain := 0x3000

  /** How the images are first set: as written, std::vector::resize value-initialises both flags to false. */
  const InitialImageAsWritten: Image := Image(false, false)
  /** An image ready to be acquired. */
  const InitialImage: Image := Image(false, true)

  /**
   * The search of xrAcquireSwapchainImage: the lowest index whose image
   * is neither acquired nor still waiting to be released.
   */
  method FindAvailable(images: seq<Image>) returns (found: bool, index: nat)
    ensures found <==> exists i :: 0 <= i < |images| && !images[i].acquired && images[i].released
    ensures found ==> index < |images| && !images[index].acquired && images[index].released
    ensures found ==> forall j :: 0 <= j < index ==> images[j].acquired || !images[j].released
  {
    found := false;
    index := 0;
    var i := 0;
    while i < |images|
      invariant 0 <= i <= |images|
      invariant forall j :: 0 <= j < i ==> images[j].acquired || !images[j].released
    {
      if !images[i].acquired && images[i].released {
        return true, i;
      }
      i := i + 1;
    }
  }

  class SwapchainTable {
    var swapchains: map<Swapchain, SwapchainRecord>
    var nextHandle: Swapchain

    /**
     * Every handle in use lies below the next one to hand out, every
     * swapchain holds arraySize images, and its current image index is
     * still 0, since no entry point moves it.
     */
    ghost predicate Valid()
      reads this
    {
      && nextHandle >= FirstSwapchainHandle
      && forall h :: h in swapchains ==>
           && FirstSwapchainHandle <= h < nextHandle
           && |swapchains[h].images| == swapchains[h].arraySize
           && swapchains[h].currentImageIndex == 0
    }

    constructor ()
      ensures Valid() && swapchains == map[]
    {
      swapchains := map[];
      nextHandle := FirstSwapchainHandle;
    }

    /**
     * xrCreateSwapchain, with its images first set to initial: a missing
     * or mistyped create info, an unknown session, or a zero width,
     * height or array size is refused; otherwise the swapchain holds
     * arraySize images, all initial.
     */
    method CreateWith(initial: Image, sessions: set<Session>, session: Session, createInfo: Option<CreateInfo>,
                      hasSwapchainOut: bool, texturesOk: bool)
      returns (result: XrResult, swapchain: Option<Swapchain>)
      requires Valid()
      modifies this
      ensures Valid()
      ensures createInfo.None? || !hasSwapchainOut || !createInfo.value.typeOk ==> result == ErrorValidationFailure
      ensures createInfo.Some? && hasSwapchainOut && createInfo.value.typeOk && session !in sessions ==> result == ErrorHandleInvalid
      ensures createInfo.Some? && hasSwapchainOut && createInfo.value.typeOk && session in sessions
              && (createInfo.value.width == 0 || createInfo.value.height == 0 || createInfo.value.arraySize == 0) ==>
        result == ErrorValidationFailure
      ensures result != Success ==> swapchain == None && swapchains == old(swapchains) && nextHandle == old(nextHandle)
      ensures result == Success ==>
        && createInfo.Some? && session in sessions && texturesOk
        && createInfo.value.width > 0 && createInfo.value.height > 0 && createInfo.value.arraySize > 0
        && swapchain == Some(old(nextHandle)) && swapchain.value !in old(swapchains)
        && nextHandle == old(nextHandle) + 1
        && swapchains == old(swapchains)[swapchain.value :=
             SwapchainRecord(session, createInfo.value.width, createInfo.value.height, createInfo.value.arraySize,
                             seq(createInfo.value.arraySize, _ => initial), 0)]
    {
      if createInfo.None? || !hasSwapchainOut {
        return ErrorValidationFailure, None;
      }
      var info := createInfo.value;
      if !info.typeOk {
        return ErrorValidationFailure, None;
      }
      if session !in sessions {
        return ErrorHandleInvalid, None;
      }
      if info.width == 0 || info.height == 0 {
        return ErrorValidationFailure, None;
      }
      if info.arraySize == 0 {
        return ErrorValidationFailure, None;
      }
      var images := seq(info.arraySize, _ => initial);
      if !texturesOk {
        return ErrorRuntimeFailure, None;
      }
      var handle := nextHandle;
      nextHandle := nextHandle + 1;
      swapchains := swapchains[handle := SwapchainRecord(session, info.width, info.height, info.arraySize, images, 0)];
      return Success, Some(handle);
    }

    /** xrDestroySwapchain: the null handle or an unknown one is HANDLE_INVALID; otherwise the swapchain is forgotten. */
    method Destroy(swapchain: Swapchain) returns (result: XrResult)
      requires Valid()
      modifies this
      ensures Valid() && nextHandle == old(nextHandle)
      ensures swapchain == 0 || swapchain !in old(swapchains) ==> result == ErrorHandleInvalid && swapchains == old(swapchains)
      ensures swapchain != 0 && swapchain in old(swapchains) ==> result == Success && swapchains == old(swapchains) - {swapchain}
    {
      if swapchain == 0 || swapchain !in swapchains {
        return ErrorHandleInvalid;
      }
      swapchains := swapchains - {swapchain};
      result := Success;
    }

    /** xrEnumerateSwapchainImages: the count is the number of images, which is the array size asked for at creation. */
    method EnumerateImages(swapchain: Swapchain, hasCountOut: bool) returns (result: XrResult, count: Option<nat>)
      requires Valid()
      ensures !hasCountOut ==> result == ErrorValidationFailure && count == None
      ensures hasCountOut && swapchain !in swapchains ==> result == ErrorHandleInvalid && count == None
      ensures hasCountOut && swapchain in swapchains ==>
        result == Success && count == Some(swapchains[swapchain].arraySize)
    {
      if !hasCountOut {
        return ErrorValidationFailure, None;
      }
      if swapchain !in swapchains {
        return ErrorHandleInvalid, None;
      }
      var imageCount := |swapchains[swapchain].images|;
      return Success, Some(imageCount);
    }

    /**
     * xrAcquireSwapchainImage: the lowest-index available image becomes
     * acquired and no longer released; with none available the call is
     * out of order and nothing changes.
     */
    method Acquire(swapchain: Swapchain, hasIndexOut: bool) returns (result: XrResult, index: Option<nat>)
      requires Valid()
      modifies this
      ensures Valid() && nextHandle == old(nextHandle) && swapchains.Keys == old(swapchains).Keys
      ensures !hasIndexOut ==> result == ErrorValidationFailure
      ensures hasIndexOut && swapchain !in old(swapchains) ==> result == ErrorHandleInvalid
      ensures result != Success ==> index == None && swapchains == old(swapchains)
      ensures hasIndexOut && swapchain in old(swapchains) ==>
        var images := old(swapchains)[swapchain].images;
        && (result == Success <==> exists i :: 0 <= i < |images| && !images[i].acquired && images[i].released)
        && (result != Success ==> result == ErrorCallOrderInvalid)
        && (result == Success ==>
              && index.Some? && index.value < |images|
              && !images[index.value].acquired && images[index.value].released
              && (forall j :: 0 <= j < index.value ==> images[j].acquired || !images[j].released)
              && swapchains == old(swapchains)[swapchain :=
                   old(swapchains)[swapchain].(images := images[index.value := Image(true, false)])])
    {
      if !hasIndexOut {
        return ErrorValidationFailure, None;
      }
      if swapchain !in swapchains {
        return ErrorHandleInvalid, None;
      }
      var record := swapchains[swapchain];
      var found, i := FindAvailable(record.images);
      if !found {
        return ErrorCallOrderInvalid, None;
      }
      swapchains := swapchains[swapchain := record.(images := record.images[i := Image(true, false)])];
      return Success, Some(i);
    }

    /**
     * xrReleaseSwapchainImage: the image at currentImageIndex, which no
     * entry point ever moves from 0, is marked not acquired and released.
     */
    method Release(swapchain: Swapchain) returns (result: XrResult)
      requires Valid()
      modifies this
      ensures Valid() && nextHandle == old(nextHandle)
      ensures swapchain !in old(swapchains) ==> result == ErrorHandleInvalid && swapchains == old(swapchains)
      ensures swapchain in old(swapchains) ==>
        && result == Success
        && var record := old(swapchains)[swapchain];
        && (record.currentImageIndex < |record.images| ==>
              swapchains == old(swapchains)[swapchain :=
                record.(images := record.images[record.currentImageIndex := Image(false, true)])])
        && (record.currentImageIndex >= |record.images| ==> swapchains == old(swapchains))
    {
      if swapchain !in swapchains {
        return ErrorHandleInvalid;
      }
      var record := swapchains[swapchain];
      if record.currentImageIndex < |record.images| {
        swapchains := swapchains[swapchain := record.(images := record.images[record.currentImageIndex := Image(false, true)])];
      }
      result := Success;
    }
  }

  /** As written, no image of a new swapchain can be acquired: none has been released. */
  lemma FreshImagesAsWrittenUnavailable(arraySize: nat)
    ensures var images := seq(arraySize, _ => InitialImageAsWritten);
      !exists i :: 0 <= i < |images| && !images[i].acquired && images[i].released
  {
  }

  /** With the images first set released, the first acquire of a new swapchain takes image 0. */
  lemma FreshImagesAvailable(arraySize: nat)
    requires arraySize > 0
    ensures var images := seq(arraySize, _ => InitialImage);
      !images[0].acquired && images[0].released
  {
  }

  /** Releasing the image just acquired makes it available again. */
  lemma ReleaseUndoesAcquire(images: seq<Image>, i: nat)
    requires i < |images| && !images[i].acquired && images[i].released
    ensures images[i := Image(true, false)][i := Image(false, true)] == images
  {
  }
}
