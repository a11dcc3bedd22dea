/** The OpenXR result codes, view configurations and handles the runtime's entry points share. */
module OpenXrTypes {

  datatype Option<T> = None | Some(value: T)

  /** The XrResult values the runtime's entry points return. */
  datatype XrResult =
    | Success
    | EventUnavailable
    | ErrorValidationFailure
    | ErrorHandleInvalid
    | ErrorRuntimeFailure
    | ErrorPathInvalid
    | ErrorViewConfigurationTypeUnsupported
    | ErrorSessionRunning
    | ErrorSessionNotRunning
    | ErrorCallOrderInvalid

  datatype ViewConfigurationType = PrimaryMono | PrimaryStereo | PrimaryQuadVarjo | SecondaryMonoFirstPersonObserver

  /** An XrPath; XR_NULL_PATH is 0. */
  type Path = int
  const NullPath: Path := 0
}
