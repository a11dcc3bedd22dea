/**
 * The runtime's input bookkeeping: the suggested bindings an application
 * registers per interaction profile, the action sets attached to a
 * session, the lookup of an action's binding path, and the parsing of a
 * binding path such as "/user/hand/left/input/trigger/value" into a
 * controller, an input and a component.
 */
module InputManager {
  import opened OpenXrTypes
  import OpenXrApi

  type Instance = int
  type Action = int
  type ActionSet = int
  type Session = int

  /** XR_NULL_HANDLE. */
  const NullHandle: int := 0

  /** The size of the buffer the path string is read into. */
  const PathBufferSize: nat := 256

  /** An XrActionSuggestedBinding: an action and the input path it is bound to. */
  datatype SuggestedBinding = SuggestedBinding(action: Action, binding: Path)

  /** An InteractionProfileBinding: the profile and its action-to-binding table. */
  datatype ProfileBinding = ProfileBinding(interactionProfile: Path, bindings: map<Action, Path>)

  /** A ParsedInputPath. */
  datatype ParsedInputPath = ParsedInputPath(controllerIndex: nat, inputType: string, component: string, valid: bool)

  const Unparsed := ParsedInputPath(0, "", "", false)

  // ---------------------------------------------------------------------
  // Bindings

  /**
   * The table left by storing each suggested binding in turn, a later one
   * for the same action replacing an earlier one.
   */
  function BindingsOf(bs: seq<SuggestedBinding>): map<Action, Path>
  {
    if bs == [] then map[]
    else BindingsOf(bs[..|bs| - 1])[bs[|bs| - 1].action := bs[|bs| - 1].binding]
  }

  /**
   * The table holds exactly the suggested actions, each bound to the path
   * its last suggestion names.
   */
  lemma {:induction false} BindingsLastWins(bs: seq<SuggestedBinding>)
    ensures forall a :: a in BindingsOf(bs) <==> exists j :: 0 <= j < |bs| && bs[j].action == a
    ensures forall j :: 0 <= j < |bs| && (forall k :: j < k < |bs| ==> bs[k].action != bs[j].action) ==>
      BindingsOf(bs)[bs[j].action] == bs[j].binding
  {
    if bs != [] {
      var front := bs[..|bs| - 1];
      BindingsLastWins(front);
      assert forall j :: 0 <= j < |bs| - 1 ==> front[j] == bs[j];
    }
  }

  /** The binding path of action in table, XR_NULL_PATH when it has none. */
  function BindingPathIn(table: map<Action, Path>, action: Action): (r: Path)
    ensures action in table ==> r == table[action]
    ensures action !in table ==> r == NullPath
  {
    if action in table then table[action] else NullPath
  }

  /**
   * After a registration, an action's binding path is the one its last
   * suggestion names; an action the registration does not mention keeps
   * the binding path it had.
   */
  lemma LookupAfterRegister(table: map<Action, Path>, bs: seq<SuggestedBinding>, action: Action)
    ensures (exists j :: 0 <= j < |bs| && bs[j].action == action) ==>
      exists j :: 0 <= j < |bs| && bs[j].action == action && BindingPathIn(table + BindingsOf(bs), action) == bs[j].binding
              && forall k :: j < k < |bs| ==> bs[k].action != action
    ensures (forall j :: 0 <= j < |bs| ==> bs[j].action != action) ==>
      BindingPathIn(table + BindingsOf(bs), action) == BindingPathIn(table, action)
  {
    BindingsLastWins(bs);
    if exists j :: 0 <= j < |bs| && bs[j].action == action {
      var j := LastOccurrence(bs, action);
    }
  }

  /** The last index at which action is suggested. */
  lemma {:induction false} LastOccurrence(bs: seq<SuggestedBinding>, action: Action) returns (j: nat)
    requires exists j :: 0 <= j < |bs| && bs[j].action == action
    ensures j < |bs| && bs[j].action == action
    ensures forall k :: j < k < |bs| ==> bs[k].action != action
  {
    if bs[|bs| - 1].action == action {
      j := |bs| - 1;
    } else {
      var i :| 0 <= i < |bs| && bs[i].action == action;
      assert bs[..|bs| - 1][i] == bs[i];
      j := LastOccurrence(bs[..|bs| - 1], action);
      assert bs[..|bs| - 1][j] == bs[j];
      assert forall k :: j < k < |bs| - 1 ==> bs[..|bs| - 1][k] == bs[k];
    }
  }

  /** The input manager's tables. */
  class InputRegistry {
    var actionToBindingPath: map<Action, Path>
    var profileBindings: seq<ProfileBinding>
    var sessionActionSets: map<Session, seq<ActionSet>>

    constructor ()
      ensures actionToBindingPath == map[] && profileBindings == [] && sessionActionSets == map[]
    {
      actionToBindingPath := map[];
      profileBindings := [];
      sessionActionSets := map[];
    }

    /**
     * RegisterInteractionProfileBindings: each suggestion is stored in the
     * profile's own table and in the global action table, and the profile
     * is appended to the list of profiles.
     */
    method RegisterProfileBindings(interactionProfile: Path, bindings: seq<SuggestedBinding>) returns (ok: bool)
      modifies this
      ensures ok
      ensures actionToBindingPath == old(actionToBindingPath) + BindingsOf(bindings)
      ensures profileBindings == old(profileBindings) + [ProfileBinding(interactionProfile, BindingsOf(bindings))]
      ensures sessionActionSets == old(sessionActionSets)
    {
      var profileTable: map<Action, Path> := map[];
      var i := 0;
      while i < |bindings|
        invariant 0 <= i <= |bindings|
        invariant profileTable == BindingsOf(bindings[..i])
        invariant actionToBindingPath == old(actionToBindingPath) + BindingsOf(bindings[..i])
        invariant profileBindings == old(profileBindings) && sessionActionSets == old(sessionActionSets)
      {
        assert bindings[..i + 1][..i] == bindings[..i];
        assert BindingsOf(bindings[..i + 1]) == BindingsOf(bindings[..i])[bindings[i].action := bindings[i].binding];
        profileTable := profileTable[bindings[i].action := bindings[i].binding];
        actionToBindingPath := actionToBindingPath[bindings[i].action := bindings[i].binding];
        i := i + 1;
      }
      assert bindings[..i] == bindings;
      profileBindings := profileBindings + [ProfileBinding(interactionProfile, profileTable)];
      ok := true;
    }

    /** AttachActionSetsToSession: the session's action sets are replaced by the ones given, in order. */
    method AttachActionSets(session: Session, actionSets: seq<ActionSet>) returns (ok: bool)
      modifies this
      ensures ok
      ensures sessionActionSets == old(sessionActionSets)[session := actionSets]
      ensures actionToBindingPath == old(actionToBindingPath) && profileBindings == old(profileBindings)
    {
      var sets: seq<ActionSet> := [];
      var i := 0;
      while i < |actionSets|
        invariant 0 <= i <= |actionSets|
        invariant sets == actionSets[..i]
      {
        sets := sets + [actionSets[i]];
        i := i + 1;
      }
      assert actionSets[..i] == actionSets;
      sessionActionSets := sessionActionSets[session := sets];
      ok := true;
    }

    /** GetActionBindingPath: the action's binding path, XR_NULL_PATH for an action never bound. */
    method GetActionBindingPath(action: Action) returns (path: Path)
      ensures path == BindingPathIn(actionToBindingPath, action)
    {
      if action in actionToBindingPath {
        return actionToBindingPath[action];
      }
      return NullPath;
    }
  }

  // ---------------------------------------------------------------------
  // Path parsing

  /** The characters of a C string in a buffer: those before the first '\0'. */
  function CString(buffer: seq<char>): (r: string)
    ensures r <= buffer && '\0' !in r
    ensures |r| < |buffer| ==> buffer[|r|] == '\0'
  {
    if buffer == [] || buffer[0] == '\0' then [] else [buffer[0]] + CString(buffer[1..])
  }

  lemma {:induction false} CStringOfTerminated(buffer: seq<char>, s: string)
    requires '\0' !in s && s <= buffer
    requires |s| < |buffer| && buffer[|s|] == '\0'
    ensures CString(buffer) == s
  {
    if s != [] {
      CStringOfTerminated(buffer[1..], s[1..]);
    }
  }

  /**
   * GetPathString: the string of path read back through xrPathToString
   * into a 256-character buffer, the empty string for a null instance or
   * path and whenever the conversion fails.
   */
  function PathString(table: map<Path, string>, instances: set<Instance>, instance: Instance, path: Path): string
  {
    if instance == NullHandle || path == NullPath then ""
    else
      var reply := OpenXrApi.PathToStringIn(table, instances, instance, path, PathBufferSize, true, true);
      if reply.result == Success && reply.count.Some? && reply.count.value > 0 && reply.count.value <= PathBufferSize
         && reply.items.Some?
      then CString(reply.items.value)
      else ""
  }

  /**
   * The string of a path the table knows is read back whole when it fits
   * the buffer with its terminator and holds no '\0'; otherwise nothing is.
   */
  lemma PathStringReadsTable(table: map<Path, string>, instances: set<Instance>, instance: Instance, path: Path)
    ensures instance != NullHandle && path != NullPath && instance in instances && path in table
            && |table[path]| < PathBufferSize && '\0' !in table[path] ==>
      PathString(table, instances, instance, path) == table[path]
    ensures instance == NullHandle || path == NullPath || instance !in instances || path !in table
            || |table[path]| >= PathBufferSize ==>
      PathString(table, instances, instance, path) == ""
  {
    if instance != NullHandle && path != NullPath && instance in instances && path in table
       && |table[path]| < PathBufferSize && '\0' !in table[path] {
      var reply := OpenXrApi.PathToStringIn(table, instances, instance, path, PathBufferSize, true, true);
      CStringOfTerminated(reply.items.value, table[path]);
    }
  }

  /**
   * The segments std::getline yields from s split at '/', the empty ones
   * left out; cur is the part of a segment already read.
   */
  function SegmentsFrom(s: string, cur: string): (r: seq<string>)
    requires '/' !in cur
    ensures forall i :: 0 <= i < |r| ==> r[i] != "" && '/' !in r[i]
  {
    if s == [] then (if cur == "" then [] else [cur])
    else if s[0] == '/' then (if cur == "" then [] else [cur]) + SegmentsFrom(s[1..], "")
    else SegmentsFrom(s[1..], cur + [s[0]])
  }

  function Segments(s: string): (r: seq<string>)
    ensures forall i :: 0 <= i < |r| ==> r[i] != "" && '/' !in r[i]
  {
    SegmentsFrom(s, "")
  }

  /** A path written out from its segments, each after a '/'. */
  function JoinPath(segments: seq<string>): (r: string)
    ensures segments == [] <==> r == ""
    ensures r != "" ==> r[0] == '/'
  {
    if segments == [] then "" else "/" + segments[0] + JoinPath(segments[1..])
  }

  lemma {:induction false} SegmentsFromWord(w: string, rest: string, cur: string)
    requires '/' !in cur && '/' !in w
    ensures SegmentsFrom(w + rest, cur) == SegmentsFrom(rest, cur + w)
  {
    if w != [] {
      assert (w + rest)[0] == w[0] && (w + rest)[1..] == w[1..] + rest;
      assert cur + w == (cur + [w[0]]) + w[1..];
      SegmentsFromWord(w[1..], rest, cur + [w[0]]);
    } else {
      assert w + rest == rest && cur + w == cur;
    }
  }

  /** Splitting a path written out from non-empty, '/'-free segments gives the segments back. */
  lemma {:induction false} SegmentsOfJoin(segments: seq<string>)
    requires forall i :: 0 <= i < |segments| ==> segments[i] != "" && '/' !in segments[i]
    ensures Segments(JoinPath(segments)) == segments
  {
    if segments != [] {
      var w, tail := segments[0], segments[1..];
      var rest := JoinPath(tail);
      assert JoinPath(segments) == "/" + (w + rest);
      assert ("/" + (w + rest))[1..] == w + rest;
      SegmentsFromWord(w, rest, "");
      assert "" + w == w;
      SegmentsOfJoin(tail);
      if rest != [] {
        assert SegmentsFrom(rest, "") == SegmentsFrom(rest[1..], "");
      }
    }
  }

  /** The segment loop of ParseInputPath. */
  method SplitPath(s: string) returns (segments: seq<string>)
    ensures segments == Segments(s)
  {
    segments := [];
    var segment := "";
    var i := 0;
    while i < |s|
      invariant 0 <= i <= |s| && '/' !in segment
      invariant segments + SegmentsFrom(s[i..], segment) == Segments(s)
    {
      assert s[i..][0] == s[i] && s[i..][1..] == s[i + 1..];
      if s[i] == '/' {
        if segment != "" {
          segments := segments + [segment];
        }
        segment := "";
      } else {
        segment := segment + [s[i]];
      }
      i := i + 1;
    }
    if segment != "" {
      segments := segments + [segment];
    }
  }

  /**
   * The checks of ParseInputPath on the segments: "user", "hand", a hand
   * and "input" come first and an input type follows; left is controller
   * 0 and right controller 1, and the component is "value" unless a sixth
   * segment names one.  Anything else leaves the result unset.
   */
  function Classify(segments: seq<string>): (r: ParsedInputPath)
    ensures r.valid <==>
      && |segments| >= 5 && segments[0] == "user" && segments[1] == "hand" && segments[3] == "input"
      && (segments[2] == "left" || segments[2] == "right")
    ensures r.valid ==>
      && r.controllerIndex == (if segments[2] == "left" then 0 else 1)
      && r.inputType == segments[4]
      && r.component == (if |segments| > 5 then segments[5] else "value")
    ensures !r.valid ==> r == Unparsed
  {
    if |segments| >= 5 && segments[0] == "user" && segments[1] == "hand" && segments[3] == "input" then
      if segments[2] == "left" then
        ParsedInputPath(0, segments[4], if |segments| > 5 then segments[5] else "value", true)
      else if segments[2] == "right" then
        ParsedInputPath(1, segments[4], if |segments| > 5 then segments[5] else "value", true)
      else Unparsed
    else Unparsed
  }

  /**
   * ParseInputPath: the binding path is read back as a string through the
   * path table, split into segments and classified; instance is the one
   * GetCurrentInstance picks, NullHandle when there is none.
   */
  method ParseInputPath(table: map<Path, string>, instances: set<Instance>, instance: Instance, bindingPath: Path)
    returns (result: ParsedInputPath)
    ensures result == Classify(Segments(PathString(table, instances, instance, bindingPath)))
    ensures bindingPath == NullPath || instance == NullHandle ==> result == Unparsed
  {
    if bindingPath == NullPath || instance == NullHandle {
      assert Segments("") == [];
      return Unparsed;
    }
    var pathString := PathString(table, instances, instance, bindingPath);
    if pathString == "" {
      assert Segments("") == [];
      return Unparsed;
    }
    var segments := SplitPath(pathString);
    result := Classify(segments);
  }

  /**
   * A binding path whose string is written out from the segments user,
   * hand, left or right, input, a type and perhaps more parses to that
   * hand, type and component, the component being "value" when there is
   * no sixth segment.
   */
  lemma ParseOfWrittenPath(table: map<Path, string>, instances: set<Instance>, instance: Instance, path: Path,
                           segments: seq<string>)
    requires instance != NullHandle && instance in instances && path != NullPath
    requires forall i :: 0 <= i < |segments| ==> segments[i] != "" && '/' !in segments[i]
    requires |segments| >= 5 && segments[0] == "user" && segments[1] == "hand" && segments[3] == "input"
    requires segments[2] == "left" || segments[2] == "right"
    requires path in table && table[path] == JoinPath(segments)
    requires |table[path]| < PathBufferSize && '\0' !in table[path]
    ensures var parsed := Classify(Segments(PathString(table, instances, instance, path)));
      && parsed.valid
      && parsed.controllerIndex == (if segments[2] == "left" then 0 else 1)
      && parsed.inputType == segments[4]
      && parsed.component == (if |segments| == 5 then "value" else segments[5])
  {
    PathStringReadsTable(table, instances, instance, path);
    SegmentsOfJoin(segments);
  }

  /** Read back through a table that holds nothing, no binding path ever parses. */
  lemma EmptyTableNeverParses(instances: set<Instance>, instance: Instance, path: Path)
    ensures !Classify(Segments(PathString(map[], instances, instance, path))).valid
  {
    PathStringReadsTable(map[], instances, instance, path);
    assert Segments("") == [];
  }
}
