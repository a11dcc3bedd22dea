/**
 * The path registry and view-configuration queries of the OpenXR entry
 * points: xrStringToPath, xrPathToString, xrEnumerateViewConfigurations,
 * xrGetViewConfigurationProperties and xrEnumerateViewConfigurationViews.
 * Instances are handles; the set of live instances is owned elsewhere
 * and is a parameter here.  A null pointer argument is a `false` flag or
 * a None.
 */
module OpenXrApi {
  import opened OpenXrTypes

  type Instance = int

  /** What a two-call query reports: its result, the count written out and the items written into the buffer. */
  datatype Reply<T> = Reply(result: XrResult, count: Option<nat>, items: Option<seq<T>>)

  /** A C string in a buffer of capacity characters: the characters, then '\0' up to the end. */
  predicate Terminated(buffer: seq<char>, s: string, capacity: nat)
  {
    && |buffer| == capacity
    && |s| < capacity
    && buffer[..|s|] == s
    && forall i :: |s| <= i < capacity ==> buffer[i] == '\0'
  }

  /**
   * strncpy of s into a buffer of capacity characters with room for at
   * most capacity - 1 of them, and a '\0' in the last place.
   */
  function CopyOut(s: string, capacity: nat): (buffer: seq<char>)
    requires |s| + 1 <= capacity
    ensures Terminated(buffer, s, capacity)
  {
    s + seq(capacity - |s|, _ => '\0')
  }

  /**
   * The lookup and copy-out of xrPathToString against a reverse table:
   * a missing count pointer or instance is an error, a path missing from
   * the table is PATH_INVALID, and otherwise the count is the length with
   * its terminator, the string being written only when the buffer has
   * room for all of it.
   */
  function PathToStringIn(table: map<Path, string>, instances: set<Instance>, instance: Instance, path: Path,
                          capacity: nat, hasCountOut: bool, hasBuffer: bool): (r: Reply<char>)
    ensures !hasCountOut ==> r == Reply(ErrorValidationFailure, None, None)
    ensures hasCountOut && instance !in instances ==> r == Reply(ErrorHandleInvalid, None, None)
    ensures hasCountOut && instance in instances && path !in table ==> r == Reply(ErrorPathInvalid, None, None)
    ensures r.result == Success <==> hasCountOut && instance in instances && path in table
    ensures r.result == Success ==>
      && r.count == Some(|table[path]| + 1)
      && (r.items.Some? <==> hasBuffer && capacity >= |table[path]| + 1)
      && (r.items.Some? ==> Terminated(r.items.value, table[path], capacity))
  {
    if !hasCountOut then Reply(ErrorValidationFailure, None, None)
    else if instance !in instances then Reply(ErrorHandleInvalid, None, None)
    else if path !in table then Reply(ErrorPathInvalid, None, None)
    else
      var pathString := table[path];
      var requiredSize := |pathString| + 1;
      if hasBuffer && capacity >= requiredSize then Reply(Success, Some(requiredSize), Some(CopyOut(pathString, capacity)))
      else Reply(Success, Some(requiredSize), None)
  }

  /**
   * The path registry.  xrStringToPath keeps a table from strings to
   * paths, numbered from 1 in the order strings are first seen, and its
   * reverse.  xrPathToString declares a table of its own under the same
   * name, which nothing ever fills: pathToStringLookup.
   */
  class PathRegistry {
    var pathMap: map<string, Path>
    var pathToStringMap: map<Path, string>
    var nextPath: Path
    var pathToStringLookup: map<Path, string>

    ghost predicate Valid()
      reads this
    {
      && nextPath >= 1
      && (forall s :: s in pathMap ==> 1 <= pathMap[s] < nextPath && pathMap[s] in pathToStringMap && pathToStringMap[pathMap[s]] == s)
      && (forall p :: p in pathToStringMap ==> pathToStringMap[p] in pathMap && pathMap[pathToStringMap[p]] == p)
      && pathToStringLookup == map[]
    }

    constructor ()
      ensures Valid() && pathMap == map[] && nextPath == 1
    {
      pathMap := map[];
      pathToStringMap := map[];
      nextPath := 1;
      pathToStringLookup := map[];
    }

    /**
     * xrStringToPath: a known string gets its path back and nothing
     * changes; a new string gets the next path, which is then taken.
     */
    method StringToPath(instances: set<Instance>, instance: Instance, pathString: Option<string>, hasPathOut: bool)
      returns (result: XrResult, path: Option<Path>)
      requires Valid()
      modifies this
      ensures Valid()
      ensures pathString.None? || !hasPathOut ==>
        result == ErrorValidationFailure && path == None && pathMap == old(pathMap) && nextPath == old(nextPath)
      ensures pathString.Some? && hasPathOut && instance !in instances ==>
        result == ErrorHandleInvalid && path == None && pathMap == old(pathMap) && nextPath == old(nextPath)
      ensures pathString.Some? && hasPathOut && instance in instances ==> result == Success && path.Some?
      ensures result == Success && pathString.value in old(pathMap) ==>
        && path == Some(old(pathMap)[pathString.value])
        && pathMap == old(pathMap) && pathToStringMap == old(pathToStringMap) && nextPath == old(nextPath)
      ensures result == Success && pathString.value !in old(pathMap) ==>
        && path == Some(old(nextPath)) && nextPath == old(nextPath) + 1
        && pathMap == old(pathMap)[pathString.value := old(nextPath)]
        && pathToStringMap == old(pathToStringMap)[old(nextPath) := pathString.value]
    {
      if pathString.None? || !hasPathOut {
        return ErrorValidationFailure, None;
      }
      if instance !in instances {
        return ErrorHandleInvalid, None;
      }
      var s := pathString.value;
      if s in pathMap {
        path := Some(pathMap[s]);
      } else {
        path := Some(nextPath);
        nextPath := nextPath + 1;
        pathMap := pathMap[s := path.value];
        pathToStringMap := pathToStringMap[path.value := s];
      }
      result := Success;
    }

    /** xrPathToString as written: it looks the path up in its own table, which is always empty. */
    function PathToStringAsWritten(instances: set<Instance>, instance: Instance, path: Path,
                                   capacity: nat, hasCountOut: bool, hasBuffer: bool): (r: Reply<char>)
      reads this
      ensures Valid() ==> r.result != Success
      ensures Valid() && hasCountOut && instance in instances ==> r == Reply(ErrorPathInvalid, None, None)
    {
      PathToStringIn(pathToStringLookup, instances, instance, path, capacity, hasCountOut, hasBuffer)
    }

    /** xrPathToString reading the reverse table xrStringToPath fills. */
    function PathToString(instances: set<Instance>, instance: Instance, path: Path,
                          capacity: nat, hasCountOut: bool, hasBuffer: bool): (r: Reply<char>)
      reads this
      ensures Valid() && hasCountOut && instance in instances ==>
        && (r.result == Success <==> exists s :: s in pathMap && pathMap[s] == path)
        && (forall s :: s in pathMap && pathMap[s] == path ==>
              r.count == Some(|s| + 1) && (r.items.Some? ==> Terminated(r.items.value, s, capacity)))
    {
      PathToStringIn(pathToStringMap, instances, instance, path, capacity, hasCountOut, hasBuffer)
    }

    /** Different strings have different paths. */
    lemma PathsDistinct(s1: string, s2: string)
      requires Valid() && s1 in pathMap && s2 in pathMap && s1 != s2
      ensures pathMap[s1] != pathMap[s2]
    {
      assert pathToStringMap[pathMap[s1]] == s1 && pathToStringMap[pathMap[s2]] == s2;
    }

    /** As written, even a path xrStringToPath just handed out is PATH_INVALID. */
    lemma AsWrittenNeverResolves(instances: set<Instance>, instance: Instance, s: string, capacity: nat, hasBuffer: bool)
      requires Valid() && s in pathMap && instance in instances
      ensures PathToStringAsWritten(instances, instance, pathMap[s], capacity, true, hasBuffer).result == ErrorPathInvalid
    {
    }

    /**
     * Reading the reverse table, the two-call idiom gives back the string:
     * a first call without a buffer reports the capacity needed, and a
     * second call with that capacity writes the whole string.
     */
    lemma RoundTrip(instances: set<Instance>, instance: Instance, s: string)
      requires Valid() && s in pathMap && instance in instances
      ensures var first := PathToString(instances, instance, pathMap[s], 0, true, false);
        && first.result == Success && first.count == Some(|s| + 1) && first.items == None
        && var second := PathToString(instances, instance, pathMap[s], first.count.value, true, true);
        && second.result == Success && second.items.Some?
        && second.items.value[..|s|] == s && second.items.value[|s|] == '\0'
    {
    }
  }

  // ---------------------------------------------------------------------
  // View configurations
  // ---------------------------------------------------------------------

  /**
   * xrEnumerateViewConfigurations: the runtime offers exactly one
   * configuration, primary stereo, which is written when the buffer has
   * room for it.
   */
  function EnumerateViewConfigurations(instances: set<Instance>, instance: Instance, capacity: nat,
                                       hasCountOut: bool, hasBuffer: bool): (r: Reply<ViewConfigurationType>)
    ensures !hasCountOut ==> r.result == ErrorValidationFailure && r.count == None
    ensures hasCountOut && instance !in instances ==> r.result == ErrorHandleInvalid && r.count == None
    ensures r.result == Success <==> hasCountOut && instance in instances
    ensures r.result == Success ==> r.count == Some(1)
    ensures r.items.Some? <==> r.result == Success && hasBuffer && capacity >= 1
    ensures r.items.Some? ==> r.items.value == [PrimaryStereo]
  {
    if !hasCountOut then Reply(ErrorValidationFailure, None, None)
    else if instance !in instances then Reply(ErrorHandleInvalid, None, None)
    else
      var count := 1;
      if hasBuffer && capacity >= count then Reply(Success, Some(count), Some([PrimaryStereo]))
      else Reply(Success, Some(count), None)
  }

  /** The properties xrGetViewConfigurationProperties fills in: the configuration and whether its field of view can change. */
  datatype ViewConfigurationProperties = ViewConfigurationProperties(viewConfigurationType: ViewConfigurationType, fovMutable: bool)

  /**
   * xrGetViewConfigurationProperties: checks the output structure and its
   * type, the instance, then the configuration; only primary stereo is
   * supported, and its field of view is fixed.
   */
  function GetViewConfigurationProperties(instances: set<Instance>, instance: Instance, viewType: ViewConfigurationType,
                                          hasProperties: bool, propertiesTypeOk: bool): (r: (XrResult, Option<ViewConfigurationProperties>))
    ensures !hasProperties || !propertiesTypeOk ==> r.0 == ErrorValidationFailure
    ensures hasProperties && propertiesTypeOk && instance !in instances ==> r.0 == ErrorHandleInvalid
    ensures hasProperties && propertiesTypeOk && instance in instances && viewType != PrimaryStereo ==>
      r.0 == ErrorViewConfigurationTypeUnsupported
    ensures r.0 == Success <==> hasProperties && propertiesTypeOk && instance in instances && viewType == PrimaryStereo
    ensures r.1.Some? <==> r.0 == Success
    ensures r.1.Some? ==> r.1.value.viewConfigurationType == viewType && !r.1.value.fovMutable
  {
    if !hasProperties || !propertiesTypeOk then (ErrorValidationFailure, None)
    else if instance !in instances then (ErrorHandleInvalid, None)
    else if viewType != PrimaryStereo then (ErrorViewConfigurationTypeUnsupported, None)
    else (Success, Some(ViewConfigurationProperties(viewType, false)))
  }

  /**
   * xrEnumerateViewConfigurationViews: primary stereo has two views; the
   * platform fills them when the buffer has room for both, and its
   * failure (platformOk false) is a runtime failure.
   */
  function EnumerateViewConfigurationViews(instances: set<Instance>, instance: Instance, viewType: ViewConfigurationType,
                                           capacity: nat, hasCountOut: bool, hasViews: bool, platformOk: bool): (r: Reply<int>)
    ensures !hasCountOut ==> r.result == ErrorValidationFailure
    ensures hasCountOut && instance !in instances ==> r.result == ErrorHandleInvalid
    ensures hasCountOut && instance in instances && viewType != PrimaryStereo ==>
      r.result == ErrorViewConfigurationTypeUnsupported && r.count == None
    ensures hasCountOut && instance in instances && viewType == PrimaryStereo ==> r.count == Some(2)
    ensures r.result == ErrorRuntimeFailure <==>
      hasCountOut && instance in instances && viewType == PrimaryStereo && hasViews && capacity >= 2 && !platformOk
    ensures r.result == Success <==>
      hasCountOut && instance in instances && viewType == PrimaryStereo && !(hasViews && capacity >= 2 && !platformOk)
  {
    if !hasCountOut then Reply(ErrorValidationFailure, None, None)
    else if instance !in instances then Reply(ErrorHandleInvalid, None, None)
    else if viewType != PrimaryStereo then Reply(ErrorViewConfigurationTypeUnsupported, None, None)
    else
      var count := 2;
      if hasViews && capacity >= count && !platformOk then Reply(ErrorRuntimeFailure, Some(count), None)
      else Reply(Success, Some(count), None)
  }

  /** A configuration other than primary stereo is refused by both queries that take one. */
  lemma OnlyStereoSupported(instances: set<Instance>, instance: Instance, viewType: ViewConfigurationType,
                            capacity: nat, hasViews: bool, platformOk: bool)
    requires instance in instances && viewType != PrimaryStereo
    ensures GetViewConfigurationProperties(instances, instance, viewType, true, true).0 == ErrorViewConfigurationTypeUnsupported
    ensures EnumerateViewConfigurationViews(instances, instance, viewType, capacity, true, hasViews, platformOk).result
      == ErrorViewConfigurationTypeUnsupported
  {
  }
}
