/**
 * The spatial-anchor core: the text form of an anchor's 16-byte UUID and
 * its reading back, the clearing of the relocation lists, and the change
 * of frame applied to an anchor pose.
 */
module Anchors {

  datatype Option<T> = None | Some(value: T)

  newtype Byte = x: int | 0 <= x < 256

  /** uuidValLength and uuidStringLength. */
  const UuidValLength: nat := 16
  const UuidStringLength: nat := 36

  // ---------------------------------------------------------------------
  // Hexadecimal digits
  // ---------------------------------------------------------------------

  /** The lower-case digit that "%02hhx" prints for a value below 16. */
  function HexDigit(n: int): (c: char)
    requires 0 <= n < 16
    ensures IsHexDigit(c) && HexValue(c) == n
    ensures IsLowerHex(c)
  {
    if n < 10 then ('0' as int + n) as char else ('a' as int + n - 10) as char
  }

  predicate IsLowerHex(c: char)
  {
    '0' <= c <= '9' || 'a' <= c <= 'f'
  }

  /** The characters "%hhx" accepts as digits, in either case. */
  predicate IsHexDigit(c: char)
  {
    '0' <= c <= '9' || 'a' <= c <= 'f' || 'A' <= c <= 'F'
  }

  function HexValue(c: char): (n: int)
    requires IsHexDigit(c)
    ensures 0 <= n < 16
  {
    if '0' <= c <= '9' then c as int - '0' as int
    else if 'a' <= c <= 'f' then c as int - 'a' as int + 10
    else c as int - 'A' as int + 10
  }

  /** "%02hhx": two lower-case digits, the high one first. */
  function HexByte(b: Byte): (r: string)
    ensures |r| == 2 && IsLowerHex(r[0]) && IsLowerHex(r[1])
    ensures IsHexDigit(r[0]) && IsHexDigit(r[1])
    ensures HexValue(r[0]) * 16 + HexValue(r[1]) == b as int
  {
    [HexDigit(b as int / 16), HexDigit(b as int % 16)]
  }

  /** A run of bytes printed back to back. */
  function Hex(bs: seq<Byte>): (r: string)
    ensures |r| == 2 * |bs|
    ensures forall i :: 0 <= i < |r| ==> IsLowerHex(r[i])
  {
    if bs == [] then [] else HexByte(bs[0]) + Hex(bs[1..])
  }

  // ---------------------------------------------------------------------
  // uuidValToString
  // ---------------------------------------------------------------------

  /** The positions of the four dashes of the 8-4-4-4-12 layout. */
  predicate IsDashPosition(i: int)
  {
    i == 8 || i == 13 || i == 18 || i == 23
  }

  /**
   * uuidValToString: the 16 bytes as 32 lower-case hexadecimal digits in
   * groups of 4, 2, 2, 2 and 6 bytes separated by '-'.
   */
  function UuidToString(data: seq<Byte>): (r: string)
    requires |data| == UuidValLength
    ensures |r| == UuidStringLength
    ensures forall i :: 0 <= i < |r| ==> (r[i] == '-' <==> IsDashPosition(i))
    ensures forall i :: 0 <= i < |r| && !IsDashPosition(i) ==> IsLowerHex(r[i])
  {
    Hex(data[..4]) + ("-" + (Hex(data[4..6]) + ("-" + (Hex(data[6..8]) + ("-" + (Hex(data[8..10]) + ("-" + Hex(data[10..]))))))))
  }

  // ---------------------------------------------------------------------
  // uuidStringToVal
  // ---------------------------------------------------------------------

  /**
   * One "%2hhx" conversion: one or two hexadecimal digits, as many as are
   * there up to two, and the rest of the text.
   */
  function ScanHexByte(s: string): (r: Option<(Byte, string)>)
    ensures r.None? <==> (s == [] || !IsHexDigit(s[0]))
    ensures r.Some? ==> |r.value.1| < |s|
  {
    if s == [] || !IsHexDigit(s[0]) then None
    else if |s| >= 2 && IsHexDigit(s[1]) then Some(((HexValue(s[0]) * 16 + HexValue(s[1])) as Byte, s[2..]))
    else Some((HexValue(s[0]) as Byte, s[1..]))
  }

  /** n conversions in a row. */
  function ScanHexBytes(s: string, n: nat): (r: Option<(seq<Byte>, string)>)
    ensures r.Some? ==> |r.value.0| == n
  {
    if n == 0 then Some(([], s))
    else match ScanHexByte(s)
      case None => None
      case Some((b, rest)) =>
        match ScanHexBytes(rest, n - 1)
        case None => None
        case Some((bs, rest')) => Some(([b] + bs, rest'))
  }

  /** A literal character of the format: it must be the next character. */
  function ScanLiteral(s: string, c: char): (r: Option<string>)
    ensures r.Some? <==> (s != [] && s[0] == c)
  {
    if s != [] && s[0] == c then Some(s[1..]) else None
  }

  /** A group of n conversions preceded by a '-'. */
  function ScanDashGroup(s: string, n: nat): (r: Option<(seq<Byte>, string)>)
    ensures r.Some? ==> |r.value.0| == n
  {
    match ScanLiteral(s, '-')
    case None => None
    case Some(rest) => ScanHexBytes(rest, n)
  }

  /**
   * uuidStringToVal: the scan of "%2hhx" four times, '-', twice, '-',
   * twice, '-', twice, '-', six times.  The source asserts that all 16
   * conversions succeeded; a text where one fails is None here.
   */
  function UuidFromString(s: string): (r: Option<seq<Byte>>)
    ensures r.Some? ==> |r.value| == UuidValLength
  {
    match ScanHexBytes(s, 4)
    case None => None
    case Some((g1, s1)) =>
      match ScanDashGroup(s1, 2)
      case None => None
      case Some((g2, s2)) =>
        match ScanDashGroup(s2, 2)
        case None => None
        case Some((g3, s3)) =>
          match ScanDashGroup(s3, 2)
          case None => None
          case Some((g4, s4)) =>
            match ScanDashGroup(s4, 6)
            case None => None
            case Some((g5, _)) => Some(g1 + g2 + g3 + g4 + g5)
  }

  /** Printed bytes scan back, whatever follows them. */
  lemma {:induction false} ScanHexRoundTrip(bs: seq<Byte>, rest: string)
    ensures ScanHexBytes(Hex(bs) + rest, |bs|) == Some((bs, rest))
  {
    if bs != [] {
      var h := HexByte(bs[0]);
      var t := Hex(bs[1..]) + rest;
      var s := Hex(bs) + rest;
      assert s == h + t;
      assert s[0] == h[0] && s[1] == h[1] && s[2..] == t;
      assert ScanHexByte(s) == Some((bs[0], t));
      ScanHexRoundTrip(bs[1..], rest);
      assert [bs[0]] + bs[1..] == bs;
    } else {
      assert Hex(bs) + rest == rest;
    }
  }

  lemma DashGroupRoundTrip(bs: seq<Byte>, rest: string)
    ensures ScanDashGroup("-" + (Hex(bs) + rest), |bs|) == Some((bs, rest))
  {
    assert ("-" + (Hex(bs) + rest))[1..] == Hex(bs) + rest;
    ScanHexRoundTrip(bs, rest);
  }

  /** Reading back the text of a UUID gives back its bytes. */
  lemma UuidRoundTrip(data: seq<Byte>)
    requires |data| == UuidValLength
    ensures UuidFromString(UuidToString(data)) == Some(data)
  {
    var t5 := Hex(data[10..]);
    var t4 := Hex(data[8..10]) + ("-" + t5);
    var t3 := Hex(data[6..8]) + ("-" + t4);
    var t2 := Hex(data[4..6]) + ("-" + t3);
    assert UuidToString(data) == Hex(data[..4]) + ("-" + t2);
    ScanHexRoundTrip(data[..4], "-" + t2);
    DashGroupRoundTrip(data[4..6], "-" + t3);
    DashGroupRoundTrip(data[6..8], "-" + t4);
    DashGroupRoundTrip(data[8..10], "-" + t5);
    assert t5 == Hex(data[10..]) + [];
    DashGroupRoundTrip(data[10..], []);
    assert data[..4] + data[4..6] + data[6..8] + data[8..10] + data[10..] == data;
  }

  /** A text without a dash after its first eight digits is refused. */
  lemma MissingDashRefused(s: string)
    requires |s| >= 9 && forall i :: 0 <= i < 9 ==> IsHexDigit(s[i])
    ensures UuidFromString(s) == None
  {
    assert ScanHexBytes(s, 4) == Some((ScanHexBytes(s, 4).value.0, s[8..])) by {
      ScanEightDigits(s);
    }
  }

  lemma ScanEightDigits(s: string)
    requires |s| >= 8 && forall i :: 0 <= i < 8 ==> IsHexDigit(s[i])
    ensures ScanHexBytes(s, 4).Some? && ScanHexBytes(s, 4).value.1 == s[8..]
  {
    assert ScanHexBytes(s[8..], 0) == Some(([], s[8..]));
    assert ScanHexByte(s[6..]).Some? && ScanHexByte(s[6..]).value.1 == s[6..][2..] == s[8..];
    assert ScanHexBytes(s[6..], 1).Some? && ScanHexBytes(s[6..], 1).value.1 == s[8..];
    assert ScanHexByte(s[4..]).Some? && ScanHexByte(s[4..]).value.1 == s[4..][2..] == s[6..];
    assert ScanHexBytes(s[4..], 2).Some? && ScanHexBytes(s[4..], 2).value.1 == s[8..];
    assert ScanHexByte(s[2..]).Some? && ScanHexByte(s[2..]).value.1 == s[2..][2..] == s[4..];
    assert ScanHexBytes(s[2..], 3).Some? && ScanHexBytes(s[2..], 3).value.1 == s[8..];
    assert ScanHexByte(s).Some? && ScanHexByte(s).value.1 == s[2..];
  }

  // ---------------------------------------------------------------------
  // Relocation lists
  // ---------------------------------------------------------------------

  datatype SxrResult = ErrorNone | ErrorQvrServiceUnavailable

  /** The four parallel lists of anchors being searched for, and whether the anchors service is open. */
  class Relocator {
    var hasHandle: bool
    var anchorUuids: seq<seq<Byte>>
    var anchorDirs: seq<string>
    var anchorFds: seq<int>
    var anchorSizes: seq<nat>

    constructor (hasHandle: bool)
      ensures this.hasHandle == hasHandle
      ensures anchorUuids == [] && anchorDirs == [] && anchorFds == [] && anchorSizes == []
    {
      this.hasHandle := hasHandle;
      anchorUuids, anchorDirs, anchorFds, anchorSizes := [], [], [], [];
    }

    /**
     * StopRelocating: without a service handle nothing changes and the
     * service is reported unavailable; otherwise every anchor is taken out
     * of the search (failures are only logged) and all four lists end
     * empty.
     */
    method StopRelocating() returns (result: SxrResult)
      modifies this
      ensures hasHandle == old(hasHandle)
      ensures !hasHandle ==>
        && result == ErrorQvrServiceUnavailable
        && anchorUuids == old(anchorUuids) && anchorDirs == old(anchorDirs)
        && anchorFds == old(anchorFds) && anchorSizes == old(anchorSizes)
      ensures hasHandle ==>
        && result == ErrorNone
        && anchorUuids == [] && anchorDirs == [] && anchorFds == [] && anchorSizes == []
    {
      if !hasHandle {
        return ErrorQvrServiceUnavailable;
      }
      anchorDirs := [];
      anchorFds := [];
      anchorUuids := [];
      anchorSizes := [];
      result := ErrorNone;
    }
  }

  // ---------------------------------------------------------------------
  // Convert
  // ---------------------------------------------------------------------

  datatype Quat = Quat(x: real, y: real, z: real, w: real)
  datatype Vec3 = Vec3(x: real, y: real, z: real)
  datatype AnchorPose = AnchorPose(orientation: Quat, position: Vec3, poseQuality: real)

  /** A 4x4 matrix stored as 16 numbers, column after column, as glm::make_mat4 reads it. */
  type Matrix = m: seq<real> | |m| == 16 witness seq(16, _ => 0.0)

  /** Row r of M times (p, 1): column 3 of M times the pose matrix. */
  function TransformCoordinate(m: Matrix, p: Vec3, r: int): real
    requires 0 <= r < 3
  {
    m[r] * p.x + m[4 + r] * p.y + m[8 + r] * p.z + m[12 + r]
  }

  function IdentityMatrix(): Matrix
  {
    [1.0, 0.0, 0.0, 0.0,  0.0, 1.0, 0.0, 0.0,  0.0, 0.0, 1.0, 0.0,  0.0, 0.0, 0.0, 1.0]
  }

  /**
   * Convert: the pose's position is carried through the conversion
   * matrix as a point, its orientation is the rotation extracted from the
   * product (glm::quat_cast, a parameter here) and its quality is kept.
   */
  function Convert(pose: AnchorPose, conversion: Matrix, rotationOf: (Matrix, Quat) -> Quat): (r: AnchorPose)
    ensures r.poseQuality == pose.poseQuality
    ensures r.position.x == conversion[0] * pose.position.x + conversion[4] * pose.position.y + conversion[8] * pose.position.z + conversion[12]
    ensures r.position.y == conversion[1] * pose.position.x + conversion[5] * pose.position.y + conversion[9] * pose.position.z + conversion[13]
    ensures r.position.z == conversion[2] * pose.position.x + conversion[6] * pose.position.y + conversion[10] * pose.position.z + conversion[14]
    ensures r.orientation == rotationOf(conversion, pose.orientation)
  {
    var position := Vec3(TransformCoordinate(conversion, pose.position, 0),
                         TransformCoordinate(conversion, pose.position, 1),
                         TransformCoordinate(conversion, pose.position, 2));
    AnchorPose(rotationOf(conversion, pose.orientation), position, pose.poseQuality)
  }

  /** The identity conversion leaves the position and quality of a pose as they are. */
  lemma ConvertIdentity(pose: AnchorPose, rotationOf: (Matrix, Quat) -> Quat)
    ensures Convert(pose, IdentityMatrix(), rotationOf).position == pose.position
    ensures Convert(pose, IdentityMatrix(), rotationOf).poseQuality == pose.poseQuality
  {
  }

  /** A pure translation moves the position by its offset. */
  lemma ConvertTranslation(pose: AnchorPose, tx: real, ty: real, tz: real, rotationOf: (Matrix, Quat) -> Quat)
    ensures var m: Matrix := IdentityMatrix()[12 := tx][13 := ty][14 := tz];
      Convert(pose, m, rotationOf).position
        == Vec3(pose.position.x + tx, pose.position.y + ty, pose.position.z + tz)
  {
  }
}
