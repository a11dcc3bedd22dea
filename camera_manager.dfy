/**
 * String handling, frame-format tables, the sensor orientation and the
 * bilinear texture lookup of the camera manager (svrCameraManager.cpp).
 *
 * Strings are sequences of characters; std::string::find answers an index
 * or -1 for npos.
 */
module CameraManager {

  datatype Option<T> = None | Some(value: T)

  // ---------------------------------------------------------------------
  // Splitting strings
  // ---------------------------------------------------------------------

  /** std::string::find(c, from): the first index at or after `from` holding c, or -1 for npos. */
  function Find(s: string, c: char, from: nat): (r: int)
    requires from <= |s|
    decreases |s| - from
    ensures r == -1 ==> forall j :: from <= j < |s| ==> s[j] != c
    ensures r != -1 ==> from <= r < |s| && s[r] == c && forall j :: from <= j < r ==> s[j] != c
  {
    if from == |s| then -1
    else if s[from] == c then from
    else Find(s, c, from + 1)
  }

  /** The pieces of s between the separators, including empty ones and the one after the last separator. */
  function Pieces(s: string, sep: char): (r: seq<string>)
    ensures |r| >= 1
  {
    if s == [] then [[]]
    else
      var rest := Pieces(s[1..], sep);
      if s[0] == sep then [[]] + rest
      else [[s[0]] + rest[0]] + rest[1..]
  }

  /** The pieces written back with the separator between them. */
  function Join(pieces: seq<string>, sep: char): string
  {
    if |pieces| == 0 then []
    else if |pieces| == 1 then pieces[0]
    else pieces[0] + [sep] + Join(pieces[1..], sep)
  }

  /** No piece holds the separator. */
  lemma {:induction false} PiecesHaveNoSeparator(s: string, sep: char)
    ensures forall i :: 0 <= i < |Pieces(s, sep)| ==> sep !in Pieces(s, sep)[i]
  {
    if s != [] {
      PiecesHaveNoSeparator(s[1..], sep);
    }
  }

  /** Putting a character in front of the first piece puts it in front of the joined string. */
  lemma JoinConsChar(rest: seq<string>, c: char, sep: char)
    requires |rest| >= 1
    ensures Join([[c] + rest[0]] + rest[1..], sep) == [c] + Join(rest, sep)
  {
    var p := [[c] + rest[0]] + rest[1..];
    if |rest| > 1 {
      assert p[1..] == rest[1..];
    }
  }

  /** Joining the pieces gives back the string. */
  lemma {:induction false} JoinPieces(s: string, sep: char)
    ensures Join(Pieces(s, sep), sep) == s
  {
    if s != [] {
      var rest := Pieces(s[1..], sep);
      JoinPieces(s[1..], sep);
      if s[0] == sep {
        assert ([[]] + rest)[1..] == rest;
        assert s == [sep] + s[1..];
      } else {
        JoinConsChar(rest, s[0], sep);
        assert s == [s[0]] + s[1..];
      }
    }
  }

  /** The last piece is empty exactly for the empty string and for one ending with the separator. */
  lemma {:induction false} LastPieceEmpty(s: string, sep: char)
    ensures var p := Pieces(s, sep); p[|p| - 1] == [] <==> s == [] || s[|s| - 1] == sep
    ensures s != [] && s[|s| - 1] == sep ==> |Pieces(s, sep)| >= 2
  {
    if s != [] {
      LastPieceEmpty(s[1..], sep);
    }
  }

  /** StrSplit's result: the pieces, without the last one when that is empty. */
  function Split(s: string, sep: char): seq<string>
  {
    var p := Pieces(s, sep);
    if p[|p| - 1] == [] then p[..|p| - 1] else p
  }

  /**
   * Joining the result of StrSplit gives back the string unless it ends
   * with the separator, whose empty final piece StrSplit drops.
   */
  lemma SplitJoin(s: string, sep: char)
    ensures s == [] || s[|s| - 1] != sep ==> Join(Split(s, sep), sep) == s
    ensures s != [] && s[|s| - 1] == sep ==> Join(Split(s, sep), sep) + [sep] == s
  {
    var p := Pieces(s, sep);
    JoinPieces(s, sep);
    LastPieceEmpty(s, sep);
    if s != [] && s[|s| - 1] == sep {
      JoinDropEmpty(p, sep);
    }
  }

  /** Dropping an empty last piece drops the last separator. */
  lemma JoinDropEmpty(p: seq<string>, sep: char)
    requires |p| >= 2 && p[|p| - 1] == []
    ensures Join(p[..|p| - 1], sep) + [sep] == Join(p, sep)
  {
    if |p| > 2 {
      JoinDropEmpty(p[1..], sep);
      assert p[1..][..|p| - 2] == p[..|p| - 1][1..];
    }
  }

  /** Before the first separator, at index i, lies the first piece. */
  lemma {:induction false} PiecesAtSeparator(t: string, i: nat, sep: char)
    requires i < |t| && t[i] == sep
    requires forall j :: 0 <= j < i ==> t[j] != sep
    ensures Pieces(t, sep) == [t[..i]] + Pieces(t[i + 1..], sep)
  {
    if i > 0 {
      PiecesAtSeparator(t[1..], i - 1, sep);
      assert t[1..][i..] == t[i + 1..];
      assert [t[0]] + t[1..][..i - 1] == t[..i];
    }
  }

  /** A string without the separator is one piece. */
  lemma {:induction false} PiecesWithoutSeparator(t: string, sep: char)
    requires forall j :: 0 <= j < |t| ==> t[j] != sep
    ensures Pieces(t, sep) == [t]
  {
    if t != [] {
      PiecesWithoutSeparator(t[1..], sep);
      assert [t[0]] + t[1..] == t;
    }
  }

  /** StrSplit: the pieces of s between occurrences of sep, keeping empty ones except at the end. */
  method StrSplit(s: string, sep: char) returns (out: seq<string>)
    ensures out == Split(s, sep)
  {
    out := [];
    var beg := 0;
    var pos := Find(s, sep, beg);
    while pos != -1
      invariant 0 <= beg <= |s|
      invariant pos == Find(s, sep, beg)
      invariant out + Pieces(s[beg..], sep) == Pieces(s, sep)
      decreases |s| - beg
    {
      var sub := s[beg..pos];
      PiecesFrom(s, beg, pos, sep);
      assert out + [sub] + Pieces(s[pos + 1..], sep) == out + ([sub] + Pieces(s[pos + 1..], sep));
      out := out + [sub];
      beg := pos + 1;
      pos := Find(s, sep, beg);
    }
    var sub := s[beg..];
    PiecesRest(s, beg, sep);
    SplitOfLastPiece(s, sep, out, sub);
    if |sub| > 0 {
      out := out + [sub];
    }
  }

  /** When the pieces end with sub, StrSplit's result keeps sub exactly when it is not empty. */
  lemma SplitOfLastPiece(s: string, sep: char, front: seq<string>, sub: string)
    requires front + [sub] == Pieces(s, sep)
    ensures Split(s, sep) == if |sub| > 0 then front + [sub] else front
  {
    var p := Pieces(s, sep);
    assert p[|p| - 1] == sub;
    assert p[..|p| - 1] == front;
  }

  /** The pieces from beg on: the text up to the separator at pos, then the pieces after it. */
  lemma PiecesFrom(s: string, beg: nat, pos: int, sep: char)
    requires beg <= |s| && pos == Find(s, sep, beg) && pos != -1
    ensures Pieces(s[beg..], sep) == [s[beg..pos]] + Pieces(s[pos + 1..], sep)
  {
    PiecesAtSeparator(s[beg..], pos - beg, sep);
    assert s[beg..][..pos - beg] == s[beg..pos];
    assert s[beg..][pos - beg + 1..] == s[pos + 1..];
  }

  /** With no separator from beg on, the rest is one piece. */
  lemma PiecesRest(s: string, beg: nat, sep: char)
    requires beg <= |s| && Find(s, sep, beg) == -1
    ensures Pieces(s[beg..], sep) == [s[beg..]]
  {
    PiecesWithoutSeparator(s[beg..], sep);
  }

  // ---------------------------------------------------------------------
  // Key/value parameters
  // ---------------------------------------------------------------------

  /** One parameter: "k" sets k to "true", "k=v" sets k to v, anything with more '=' pieces is ignored. */
  function AddParam(pairs: map<string, string>, param: string): map<string, string>
  {
    var kv := Split(param, '=');
    if |kv| == 1 then pairs[kv[0] := "true"]
    else if |kv| == 2 then pairs[kv[0] := kv[1]]
    else pairs
  }

  function AddParams(pairs: map<string, string>, params: seq<string>): map<string, string>
  {
    if params == [] then pairs
    else AddParam(AddParams(pairs, params[..|params| - 1]), params[|params| - 1])
  }

  /** A bare key means "true". */
  lemma KeyAlone(pairs: map<string, string>, k: string)
    requires k != [] && '=' !in k
    ensures AddParam(pairs, k) == pairs[k := "true"]
  {
    PiecesWithoutSeparator(k, '=');
  }

  /** "k=v" with a non-empty value sets k to v. */
  lemma KeyValue(pairs: map<string, string>, k: string, v: string)
    requires '=' !in k && '=' !in v && v != []
    ensures AddParam(pairs, k + "=" + v) == pairs[k := v]
  {
    PiecesAfterKey(k, v);
    PiecesWithoutSeparator(v, '=');
  }

  /** A key without '=' followed by '=' is the first '=' piece. */
  lemma PiecesAfterKey(k: string, rest: string)
    requires '=' !in k
    ensures Pieces(k + "=" + rest, '=') == [k] + Pieces(rest, '=')
  {
    var s := k + "=" + rest;
    assert forall j :: 0 <= j < |k| ==> s[j] == k[j];
    PiecesAtSeparator(s, |k|, '=');
    assert s[..|k|] == k;
    assert s[|k| + 1..] == rest;
  }

  /** "k=v=w" has three '=' pieces and leaves the map as it was. */
  lemma ExtraPiecesIgnored(pairs: map<string, string>, k: string, v: string, w: string)
    requires '=' !in k && '=' !in v && '=' !in w && w != []
    ensures AddParam(pairs, k + "=" + v + "=" + w) == pairs
  {
    assert k + "=" + v + "=" + w == k + "=" + (v + "=" + w);
    PiecesAfterKey(k, v + "=" + w);
    PiecesAfterKey(v, w);
    PiecesWithoutSeparator(w, '=');
    assert Pieces(k + "=" + v + "=" + w, '=') == [k, v, w];
  }

  /** "k=" also means "true": the empty value after the '=' is dropped. */
  lemma KeyWithEmptyValue(pairs: map<string, string>, k: string)
    requires k != [] && '=' !in k
    ensures AddParam(pairs, k + "=") == pairs[k := "true"]
  {
    var s := k + "=";
    assert forall j :: 0 <= j < |k| ==> s[j] == k[j];
    PiecesAtSeparator(s, |k|, '=');
    assert s[..|k|] == k;
    assert s[|k| + 1..] == [];
    assert Pieces(s, '=') == [k, []];
  }

  /** GetKeyValuePairs: the parameters of s, split on sep, read into a map in order, the last setting of a key winning. */
  method GetKeyValuePairs(s: string, sep: char) returns (pairs: map<string, string>)
    ensures pairs == AddParams(map[], Split(s, sep))
  {
    pairs := map[];
    var paramList := StrSplit(s, sep);
    var i := 0;
    while i < |paramList|
      invariant 0 <= i <= |paramList|
      invariant pairs == AddParams(map[], paramList[..i])
    {
      ghost var before := pairs;
      var kv := StrSplit(paramList[i], '=');
      if |kv| == 1 {
        pairs := pairs[kv[0] := "true"];
      } else if |kv| == 2 {
        pairs := pairs[kv[0] := kv[1]];
      }
      assert pairs == AddParam(before, paramList[i]);
      assert paramList[..i + 1][..i] == paramList[..i];
      i := i + 1;
    }
    assert paramList[..i] == paramList;
  }

  // ---------------------------------------------------------------------
  // Frame formats
  // ---------------------------------------------------------------------

  /** QVRCAMERA_FRAME_FORMAT, in the order of its values. */
  datatype FrameFormat = Unknown | Y8 | Yuv420 | Raw10Mono | Depth16 | RawDepth | Raw16Mono

  /**
   * The names the QVR camera device header gives the Y8, YUV420, RAW10 and
   * RAW16 formats.  That header is not part of this model; the names below
   * stand for them, and the model relies only on all seven table names
   * being different.
   */
  const NameY8: string := "y8"
  const NameYuv420: string := "yuv420"
  const NameRaw10: string := "raw10"
  const NameRaw16: string := "raw16"

  /** The name table of CamFrameFormatFromString, indexed by format value. */
  const FormatTable: seq<string> := ["unknown", NameY8, NameYuv420, NameRaw10, "depth16", "rawdepth", NameRaw16]

  function FormatAt(i: nat): (f: FrameFormat)
    requires i < |FormatTable|
  {
    [Unknown, Y8, Yuv420, Raw10Mono, Depth16, RawDepth, Raw16Mono][i]
  }

  /** CamFrameFormatToString. */
  function FormatToString(f: FrameFormat): (name: string)
    ensures name in FormatTable
  {
    match f
    case Y8 => NameY8
    case Yuv420 => NameYuv420
    case Raw10Mono => NameRaw10
    case Depth16 => "depth16"
    case RawDepth => "rawdepth"
    case Raw16Mono => NameRaw16
    case Unknown => "unknown"
  }

  /** CamFrameFormatFromString: the format whose table name equals str, or UNKNOWN. */
  method FormatFromString(str: string) returns (f: FrameFormat)
    ensures str !in FormatTable ==> f == Unknown
    ensures str in FormatTable ==> FormatToString(f) == str
  {
    var i := 0;
    while i < |FormatTable|
      invariant 0 <= i <= |FormatTable|
      invariant str !in FormatTable[..i]
    {
      if FormatTable[i] == str {
        f := FormatAt(i);
        assert FormatToString(f) == FormatTable[i] by { TableMatchesToString(i); }
        return;
      }
      i := i + 1;
    }
    assert FormatTable[..i] == FormatTable;
    return Unknown;
  }

  lemma TableMatchesToString(i: nat)
    requires i < |FormatTable|
    ensures FormatToString(FormatAt(i)) == FormatTable[i]
  {
  }

  /** Distinct formats have distinct names, so a name read back gives the format. */
  lemma FormatNamesDistinct(f: FrameFormat, g: FrameFormat)
    ensures FormatToString(f) == FormatToString(g) ==> f == g
  {
  }

  /** CamFrameFormatIsRaw: the two raw mono formats. */
  function FormatIsRaw(f: FrameFormat): (r: bool)
    ensures r <==> f == Raw10Mono || f == Raw16Mono
  {
    match f
    case Raw10Mono => true
    case Raw16Mono => true
    case _ => false
  }

  /** Round trip: formatting and reading back gives the same format, for every format. */
  method FormatRoundTrip(f: FrameFormat) returns (g: FrameFormat)
    ensures g == f
  {
    g := FormatFromString(FormatToString(f));
    FormatNamesDistinct(f, g);
  }

  // ---------------------------------------------------------------------
  // Sensor orientation
  // ---------------------------------------------------------------------

  /** The value a token keeps when it could not be read. */
  const ErrorToken: int := -123

  function Abs(x: int): nat { if x < 0 then -x else x }

  /** The orientation tokens kept: every one read, except the error value. */
  function KeptTokens(tokens: seq<int>): (r: seq<int>)
    ensures ErrorToken !in r
    ensures forall t :: t in r <==> t in tokens && t != ErrorToken
  {
    if tokens == [] then []
    else
      var front := KeptTokens(tokens[..|tokens| - 1]);
      var t := tokens[|tokens| - 1];
      assert tokens == tokens[..|tokens| - 1] + [t];
      if t != ErrorToken then front + [t] else front
  }

  /** The orientation used: the tokens when there are exactly three, otherwise "1 2 3". */
  function Orientation(tokens: seq<int>): (r: seq<int>)
    ensures |r| == 3
    ensures |KeptTokens(tokens)| == 3 ==> r == KeptTokens(tokens)
    ensures |KeptTokens(tokens)| != 3 ==> r == [1, 2, 3]
  {
    var kept := KeptTokens(tokens);
    if |kept| == 3 then kept else [1, 2, 3]
  }

  /** The sensor axes of the camera manager. */
  class SensorAxes {
    var axisIds: array<int>
    var axisIdSigns: array<int>

    ghost predicate Valid()
      reads this
    {
      axisIds.Length == 3 && axisIdSigns.Length == 3 && axisIds != axisIdSigns
    }

    constructor ()
      ensures Valid() && fresh(axisIds) && fresh(axisIdSigns)
    {
      axisIds := new int[3](_ => 0);
      axisIdSigns := new int[3](_ => 1);
    }

    /**
     * SetSensorOrientation, from the integers read from the device's
     * orientation string: axis i is |t| - 1 of the i-th kept token and its
     * sign is -1 exactly when the token is negative.
     */
    method SetSensorOrientation(tokens: seq<int>)
      requires Valid()
      modifies axisIds, axisIdSigns
      ensures Valid()
      ensures forall i :: 0 <= i < 3 ==>
        && axisIds[i] == Abs(Orientation(tokens)[i]) - 1
        && (axisIdSigns[i] == -1 <==> Orientation(tokens)[i] < 0)
        && (axisIdSigns[i] == 1 <==> Orientation(tokens)[i] >= 0)
    {
      var sensorOrientation: seq<int> := [];
      var k := 0;
      while k < |tokens|
        invariant 0 <= k <= |tokens|
        invariant sensorOrientation == KeptTokens(tokens[..k])
      {
        var token := tokens[k];
        assert tokens[..k + 1][..k] == tokens[..k];
        if token != ErrorToken {
          sensorOrientation := sensorOrientation + [token];
        }
        k := k + 1;
      }
      assert tokens[..k] == tokens;
      if |sensorOrientation| != 3 {
        sensorOrientation := [1, 2, 3];
      }
      axisIds[0] := Abs(sensorOrientation[0]) - 1;
      axisIds[1] := Abs(sensorOrientation[1]) - 1;
      axisIds[2] := Abs(sensorOrientation[2]) - 1;
      axisIdSigns[0] := if sensorOrientation[0] < 0 then -1 else 1;
      axisIdSigns[1] := if sensorOrientation[1] < 0 then -1 else 1;
      axisIdSigns[2] := if sensorOrientation[2] < 0 then -1 else 1;
    }
  }

  /** Without three readable tokens the axes are x, y, z, all positive. */
  lemma DefaultOrientation(tokens: seq<int>)
    requires |KeptTokens(tokens)| != 3
    ensures forall i :: 0 <= i < 3 ==> Abs(Orientation(tokens)[i]) - 1 == i && Orientation(tokens)[i] >= 0
  {
  }

  // ---------------------------------------------------------------------
  // Texture lookup
  // ---------------------------------------------------------------------

  /** A float-to-int cast: truncation toward zero. */
  function Trunc(x: real): (r: int)
    ensures 0.0 <= x ==> r as real <= x < r as real + 1.0 && r >= 0
  {
    if x >= 0.0 then x.Floor else -((-x).Floor)
  }

  function Min4(a: real, b: real, c: real, d: real): real
  {
    var m1 := if a <= b then a else b;
    var m2 := if c <= d then c else d;
    if m1 <= m2 then m1 else m2
  }

  function Max4(a: real, b: real, c: real, d: real): real
  {
    var m1 := if a >= b then a else b;
    var m2 := if c >= d then c else d;
    if m1 >= m2 then m1 else m2
  }

  /** The texel around a lookup point: its lower corner, the next one over and the fractions between. */
  datatype Cell = Cell(u: int, v: int, uNext: int, vNext: int, dU: real, dV: real)

  /**
   * The cell of (uCoord, vCoord): a coordinate above 1 is clamped to 1 and
   * maps onto [0, size - 1]; the next index is one further, held at the
   * last column or row.
   */
  function CellAt(uCoord: real, vCoord: real, width: int, height: int): (c: Cell)
    requires 0.0 <= uCoord && 0.0 <= vCoord && 1 <= width && 1 <= height
    ensures 0 <= c.u <= c.uNext < width && 0 <= c.v <= c.vNext < height
    ensures c.uNext == c.u + 1 || c.uNext == width - 1
    ensures c.vNext == c.v + 1 || c.vNext == height - 1
    ensures 0.0 <= c.dU < 1.0 && 0.0 <= c.dV < 1.0
  {
    var (u, dU) := CellIndex(uCoord, width);
    var (v, dV) := CellIndex(vCoord, height);
    Cell(u, v, if u + 1 >= width - 1 then width - 1 else u + 1,
         if v + 1 >= height - 1 then height - 1 else v + 1,
         dU, dV)
  }

  /** One coordinate clamped to 1 and scaled onto [0, size - 1]: the truncated index and the fraction past it. */
  function CellIndex(coord: real, size: int): (p: (int, real))
    requires 0.0 <= coord && 1 <= size
    ensures 0 <= p.0 < size && 0.0 <= p.1 < 1.0
  {
    var clamped := if coord > 1.0 then 1.0 else coord;
    var f := clamped * (size - 1) as real;
    ScaledCoordinate(clamped, size);
    var i := Trunc(f);
    assert i as real <= (size - 1) as real;
    (i, f - i as real)
  }

  /** A coordinate in [0, 1] scaled to a size lands in [0, size - 1]. */
  lemma ScaledCoordinate(c: real, size: int)
    requires 0.0 <= c <= 1.0 && size >= 1
    ensures 0.0 <= c * (size - 1) as real <= (size - 1) as real
  {
    MulNonNegative(c, (size - 1) as real);
    MulNonNegative(1.0 - c, (size - 1) as real);
    assert (1.0 - c) * (size - 1) as real == (size - 1) as real - c * (size - 1) as real;
  }

  /** The component of texel (x, y) of a texture of pixelSize floats per texel, rows of width texels. */
  function Sample(t: seq<real>, pixelSize: int, width: int, height: int, component: int, x: int, y: int): real
    requires 0 <= x < width && 0 <= y < height && 0 <= component < pixelSize
    requires |t| >= width * height * pixelSize
  {
    SampleInTexture(x, y, width, height, pixelSize, component, |t|);
    t[y * width * pixelSize + x * pixelSize + component]
  }

  /** A texel inside the width and height lies inside the texture. */
  lemma SampleInTexture(x: int, y: int, width: int, height: int, pixelSize: int, component: int, len: int)
    requires 0 <= x < width && 0 <= y < height && 0 <= component < pixelSize
    requires len >= width * height * pixelSize
    ensures 0 <= y * width * pixelSize + x * pixelSize + component < len
  {
    var k := y * width + x;
    IntMulMonotone(y, height - 1, width);
    assert (height - 1) * width == height * width - width;
    assert 0 <= k <= height * width - 1;
    IntMulMonotone(k, height * width - 1, pixelSize);
    assert (height * width - 1) * pixelSize == height * width * pixelSize - pixelSize;
    assert y * width * pixelSize + x * pixelSize == k * pixelSize;
  }

  lemma IntMulMonotone(a: int, b: int, c: int)
    requires 0 <= a <= b && 0 <= c
    ensures 0 <= a * c <= b * c
  {
    assert b * c - a * c == (b - a) * c;
  }

  /** The bilinear mix of four corner values. */
  function Mix(dU: real, dV: real, leftVal: real, rightVal: real, topLeftVal: real, topRightVal: real): real
  {
    (1.0 - dU) * (1.0 - dV) * leftVal + dU * (1.0 - dV) * rightVal
    + (1.0 - dU) * dV * topLeftVal + dU * dV * topRightVal
  }

  /**
   * TextureLookup: the bilinear interpolation of one component of a
   * texture at (uCoord, vCoord).  None when the texture is missing or has
   * no size (the source then leaves the output alone).  Otherwise the
   * result is the bilinear mix, by the fractions past the cell, of the
   * four texels around the point, every one read inside the texture; so
   * it lies between the smallest and the largest of them.
   */
  function TextureLookup(texture: Option<seq<real>>, pixelSize: int, width: int, height: int,
                         uCoord: real, vCoord: real, component: int): (r: Option<real>)
    requires 0.0 <= uCoord && 0.0 <= vCoord
    requires 0 <= width && 0 <= height && 0 <= component < pixelSize
    requires texture.Some? ==> |texture.value| >= width * height * pixelSize
    ensures r.None? <==> texture.None? || width == 0 || height == 0
    ensures r.Some? ==>
      var c := CellAt(uCoord, vCoord, width, height);
      var t := texture.value;
      r.value == Mix(c.dU, c.dV,
                     Sample(t, pixelSize, width, height, component, c.u, c.v),
                     Sample(t, pixelSize, width, height, component, c.uNext, c.v),
                     Sample(t, pixelSize, width, height, component, c.u, c.vNext),
                     Sample(t, pixelSize, width, height, component, c.uNext, c.vNext))
    ensures r.Some? ==>
      var c := CellAt(uCoord, vCoord, width, height);
      var t := texture.value;
      Min4(Sample(t, pixelSize, width, height, component, c.u, c.v),
           Sample(t, pixelSize, width, height, component, c.uNext, c.v),
           Sample(t, pixelSize, width, height, component, c.u, c.vNext),
           Sample(t, pixelSize, width, height, component, c.uNext, c.vNext))
      <= r.value <=
      Max4(Sample(t, pixelSize, width, height, component, c.u, c.v),
           Sample(t, pixelSize, width, height, component, c.uNext, c.v),
           Sample(t, pixelSize, width, height, component, c.u, c.vNext),
           Sample(t, pixelSize, width, height, component, c.uNext, c.vNext))
  {
    if texture.None? || width == 0 || height == 0 then None
    else
      var t := texture.value;
      var c := CellAt(uCoord, vCoord, width, height);
      var leftVal := Sample(t, pixelSize, width, height, component, c.u, c.v);
      var rightVal := Sample(t, pixelSize, width, height, component, c.uNext, c.v);
      var topLeftVal := Sample(t, pixelSize, width, height, component, c.u, c.vNext);
      var topRightVal := Sample(t, pixelSize, width, height, component, c.uNext, c.vNext);
      MixBounds(c.dU, c.dV, leftVal, rightVal, topLeftVal, topRightVal);
      Some(Mix(c.dU, c.dV, leftVal, rightVal, topLeftVal, topRightVal))
  }

  /** On a flat texture the lookup gives the texture's value back. */
  lemma MixOfEqual(dU: real, dV: real, a: real)
    ensures Mix(dU, dV, a, a, a, a) == a
  {
    assert Mix(dU, dV, a, a, a, a) == ((1.0 - dU) * (1.0 - dV) + dU * (1.0 - dV) + (1.0 - dU) * dV + dU * dV) * a;
  }

  /** At the corner itself the lookup reads the lower-left texel. */
  lemma MixAtCorner(a: real, b: real, c: real, d: real)
    ensures Mix(0.0, 0.0, a, b, c, d) == a
  {
  }

  /** Bilinear weights are non-negative and add to one, so the mix lies between the extremes. */
  lemma MixBounds(dU: real, dV: real, a: real, b: real, c: real, d: real)
    requires 0.0 <= dU <= 1.0 && 0.0 <= dV <= 1.0
    ensures Min4(a, b, c, d) <= Mix(dU, dV, a, b, c, d) <= Max4(a, b, c, d)
  {
    var w1, w2, w3, w4 := (1.0 - dU) * (1.0 - dV), dU * (1.0 - dV), (1.0 - dU) * dV, dU * dV;
    MulNonNegative(1.0 - dU, 1.0 - dV);
    MulNonNegative(dU, 1.0 - dV);
    MulNonNegative(1.0 - dU, dV);
    MulNonNegative(dU, dV);
    WeightsSumToOne(dU, dV);
    var lo, hi := Min4(a, b, c, d), Max4(a, b, c, d);
    WeightedBounds(w1, w2, w3, w4, a, b, c, d, lo, hi);
  }

  lemma WeightsSumToOne(dU: real, dV: real)
    ensures (1.0 - dU) * (1.0 - dV) + dU * (1.0 - dV) + (1.0 - dU) * dV + dU * dV == 1.0
  {
    assert (1.0 - dU) * (1.0 - dV) + dU * (1.0 - dV) == 1.0 - dV;
    assert (1.0 - dU) * dV + dU * dV == dV;
  }

  lemma MulNonNegative(x: real, y: real)
    requires 0.0 <= x && 0.0 <= y
    ensures 0.0 <= x * y
  {
  }

  lemma MulMonotone(w: real, x: real, y: real)
    requires 0.0 <= w && x <= y
    ensures w * x <= w * y
  {
    MulNonNegative(w, y - x);
    assert w * (y - x) == w * y - w * x;
  }

  lemma WeightedBounds(w1: real, w2: real, w3: real, w4: real, a: real, b: real, c: real, d: real, lo: real, hi: real)
    requires 0.0 <= w1 && 0.0 <= w2 && 0.0 <= w3 && 0.0 <= w4 && w1 + w2 + w3 + w4 == 1.0
    requires lo <= a <= hi && lo <= b <= hi && lo <= c <= hi && lo <= d <= hi
    ensures lo <= w1 * a + w2 * b + w3 * c + w4 * d <= hi
  {
    WeightedAbove(w1, w2, w3, w4, a, b, c, d, lo);
    WeightedAbove(w1, w2, w3, w4, -a, -b, -c, -d, -hi);
    assert w1 * -a + w2 * -b + w3 * -c + w4 * -d == -(w1 * a + w2 * b + w3 * c + w4 * d);
  }

  /** A weighted mean of values at least lo is at least lo. */
  lemma WeightedAbove(w1: real, w2: real, w3: real, w4: real, a: real, b: real, c: real, d: real, lo: real)
    requires 0.0 <= w1 && 0.0 <= w2 && 0.0 <= w3 && 0.0 <= w4 && w1 + w2 + w3 + w4 == 1.0
    requires lo <= a && lo <= b && lo <= c && lo <= d
    ensures lo <= w1 * a + w2 * b + w3 * c + w4 * d
  {
    MulMonotone(w1, lo, a);
    MulMonotone(w2, lo, b);
    MulMonotone(w3, lo, c);
    MulMonotone(w4, lo, d);
    Distribute(w1, w2, w3, w4, lo);
    SumAbove(w1 * lo, w2 * lo, w3 * lo, w4 * lo, w1 * a, w2 * b, w3 * c, w4 * d, lo);
  }

  lemma SumAbove(l1: real, l2: real, l3: real, l4: real, x1: real, x2: real, x3: real, x4: real, lo: real)
    requires l1 <= x1 && l2 <= x2 && l3 <= x3 && l4 <= x4 && l1 + l2 + l3 + l4 == lo
    ensures lo <= x1 + x2 + x3 + x4
  {
  }

  lemma Distribute(w1: real, w2: real, w3: real, w4: real, x: real)
    requires w1 + w2 + w3 + w4 == 1.0
    ensures w1 * x + w2 * x + w3 * x + w4 * x == x
  {
    assert w1 * x + w2 * x + w3 * x + w4 * x == (w1 + w2 + w3 + w4) * x;
  }
}
