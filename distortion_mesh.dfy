/**
 * The CSV line reader, the index-buffer generation and the quad-mesh cache
 * of the distortion mesh builder (sxrDistortionMesh.cpp).
 */
module DistortionMesh {
  import CM = CameraManager

  datatype Option<T> = None | Some(value: T)

  // ---------------------------------------------------------------------
  // Reading CSV lines
  // ---------------------------------------------------------------------

  /** The character at i of a NUL-terminated buffer: the end of the text reads as NUL. */
  function At(text: string, i: nat): char
  {
    if i < |text| then text[i] else '\0'
  }

  predicate IsLineEnd(c: char)
  {
    c == '\n' || c == '\0'
  }

  /** The position of the first newline or NUL at or after pos. */
  function LineEnd(text: string, pos: nat): (r: nat)
    requires pos <= |text|
    decreases |text| - pos
    ensures pos <= r <= |text| && IsLineEnd(At(text, r))
    ensures forall j :: pos <= j < r ==> !IsLineEnd(text[j])
  {
    if IsLineEnd(At(text, pos)) then pos else LineEnd(text, pos + 1)
  }

  /** The position after the line at pos: past its newline, or at the NUL ending the buffer. */
  function AfterLine(text: string, pos: nat): nat
    requires pos <= |text|
  {
    var e := LineEnd(text, pos);
    if At(text, e) == '\n' then e + 1 else e
  }

  /**
   * What a line read should give: nothing, and no progress, at a newline
   * or at the end; otherwise every comma-separated field of the line, a
   * trailing comma giving a last empty field, and the position after it.
   */
  function ParsedLine(text: string, pos: nat): Option<(seq<string>, nat)>
    requires pos <= |text|
  {
    if IsLineEnd(At(text, pos)) then None
    else Some((CM.Pieces(text[pos..LineEnd(text, pos)], ','), AfterLine(text, pos)))
  }

  /**
   * What ParseLine does as written: after a trailing comma it adds the
   * empty last field and steps over the newline only when the field before
   * the comma was empty too, so "a,b,\n" leaves the newline unread.
   */
  function ParsedLineAsWritten(text: string, pos: nat): Option<(seq<string>, nat)>
    requires pos <= |text|
  {
    if IsLineEnd(At(text, pos)) then None
    else
      var e := LineEnd(text, pos);
      var p := CM.Pieces(text[pos..e], ',');
      CM.LastPieceEmpty(text[pos..e], ',');
      if text[e - 1] == ',' && (p[|p| - 2] != [] || At(text, e) == '\0') then Some((p[..|p| - 1], e))
      else Some((p, AfterLine(text, pos)))
  }

  /**
   * The loop of ParseLine: reads fields up to the end of the line.  It
   * stops inside the line (complete) unless the line ends with a comma,
   * in which case it stops at the line end having read every field but
   * the empty last one.
   */
  method ReadFields(text: string, pos: nat) returns (fields: seq<string>, next: nat, lastField: string, complete: bool)
    requires pos <= |text| && !IsLineEnd(At(text, pos))
    ensures var e := LineEnd(text, pos); var p := CM.Pieces(text[pos..e], ',');
      && pos < e
      && (complete <==> text[e - 1] != ',')
      && (complete ==> fields == p && next == AfterLine(text, pos))
      && (!complete ==> |p| >= 2 && fields == p[..|p| - 1] && next == e && lastField == p[|p| - 2])
  {
    ghost var e := LineEnd(text, pos);
    fields, next, lastField, complete := ReadFieldsTo(text, pos, e, CM.Pieces(text[pos..e], ','));
  }

  /** ReadFields with the line end `e` and the line's pieces given. */
  method ReadFieldsTo(text: string, pos: nat, ghost e: nat, ghost pieces: seq<string>)
    returns (fields: seq<string>, next: nat, lastField: string, complete: bool)
    requires pos < e <= |text| && IsLineEnd(At(text, e))
    requires forall j :: pos <= j < e ==> !IsLineEnd(text[j])
    requires pieces == CM.Pieces(text[pos..e], ',')
    ensures complete <==> text[e - 1] != ','
    ensures complete ==> fields == pieces && next == (if At(text, e) == '\n' then e + 1 else e)
    ensures !complete ==>
      |pieces| >= 2 && fields == pieces[..|pieces| - 1] && next == e && lastField == pieces[|pieces| - 2]
  {
    fields := [];
    lastField := [];
    var p := pos;
    while !IsLineEnd(At(text, p))
      invariant pos <= p <= e && (p == e <==> IsLineEnd(At(text, p)))
      invariant p > pos ==> text[p - 1] == ',' && |fields| >= 1 && lastField == fields[|fields| - 1]
      invariant fields + CM.Pieces(text[p..e], ',') == pieces
      decreases e - p
    {
      var q, atEnd;
      lastField, q, atEnd := ReadNextField(text, p, e, fields, pieces);
      fields := fields + [lastField];
      if atEnd {
        complete := true;
        next := if At(text, q) == '\n' then q + 1 else q;
        return;
      }
      p := q + 1;
    }
    TrailingCommaPieces(text, p, e, fields, pieces);
    complete := false;
    next := p;
  }

  /** The inner loop of ParseLine: the characters of one field, up to a comma or the line end. */
  method ReadField(text: string, p: nat, ghost e: nat) returns (field: string, q: nat)
    requires p <= e <= |text| && IsLineEnd(At(text, e))
    requires forall j :: p <= j < e ==> !IsLineEnd(text[j])
    ensures p <= q <= e && field == text[p..q]
    ensures forall j :: p <= j < q ==> text[j] != ','
    ensures q == e <==> IsLineEnd(At(text, q))
    ensures q < e ==> text[q] == ','
  {
    field := [];
    q := p;
    while !IsLineEnd(At(text, q)) && At(text, q) != ','
      invariant p <= q <= e
      invariant field == text[p..q]
      invariant forall j :: p <= j < q ==> text[j] != ','
      decreases e - q
    {
      field := field + [text[q]];
      q := q + 1;
    }
  }

  /**
   * One turn of the ReadFields loop: the field at p, and whether it ran to
   * the line end (which then holds no comma just before it) or stopped at
   * a comma, leaving the pieces after it still to read.
   */
  method ReadNextField(text: string, p: nat, ghost e: nat, ghost before: seq<string>, ghost pieces: seq<string>)
    returns (field: string, q: nat, atEnd: bool)
    requires p < e <= |text| && IsLineEnd(At(text, e))
    requires forall j :: p <= j < e ==> !IsLineEnd(text[j])
    requires before + CM.Pieces(text[p..e], ',') == pieces
    ensures atEnd <==> IsLineEnd(At(text, q))
    ensures atEnd ==> q == e && before + [field] == pieces && text[e - 1] != ','
    ensures !atEnd ==> p <= q < e && text[q] == ',' && (before + [field]) + CM.Pieces(text[q + 1..e], ',') == pieces
  {
    field, q := ReadField(text, p, e);
    atEnd := IsLineEnd(At(text, q));
    if atEnd {
      FieldAtLineEnd(text, p, e);
      assert text[e - 1] != ',';
    } else {
      FieldBeforeComma(text, p, q, e);
    }
  }

  /** After a comma that ends the line, the fields read are all pieces but the empty last one. */
  lemma TrailingCommaPieces(text: string, p: nat, e: nat, fields: seq<string>, pieces: seq<string>)
    requires p == e <= |text| && |fields| >= 1
    requires fields + CM.Pieces(text[p..e], ',') == pieces
    ensures |pieces| >= 2 && fields == pieces[..|pieces| - 1] && fields[|fields| - 1] == pieces[|pieces| - 2]
  {
    assert text[p..e] == [];
    assert pieces == fields + [[]];
  }

  /** A field ended by a comma is the first piece of the rest of the line. */
  lemma FieldBeforeComma(text: string, p: nat, q: nat, e: nat)
    requires p <= q < e <= |text| && text[q] == ','
    requires forall j :: p <= j < q ==> text[j] != ','
    ensures CM.Pieces(text[p..e], ',') == [text[p..q]] + CM.Pieces(text[q + 1..e], ',')
  {
    CM.PiecesAtSeparator(text[p..e], q - p, ',');
    assert text[p..e][..q - p] == text[p..q];
    assert text[p..e][q - p + 1..] == text[q + 1..e];
  }

  /** A field running to the line end is the only piece left. */
  lemma FieldAtLineEnd(text: string, p: nat, e: nat)
    requires p <= e <= |text|
    requires forall j :: p <= j < e ==> text[j] != ','
    ensures CM.Pieces(text[p..e], ',') == [text[p..e]]
  {
    CM.PiecesWithoutSeparator(text[p..e], ',');
  }

  /**
   * ParseLine, with a trailing comma always giving an empty last field
   * and the newline always read: the line's fields and the position
   * after the line; at a newline or at the end nothing is read and the
   * fields are left as they were.
   */
  method ParseLine(text: string, pos: nat, lineData: seq<string>) returns (count: nat, fields: seq<string>, next: nat)
    requires pos <= |text|
    ensures ParsedLine(text, pos).None? ==> count == 0 && fields == lineData && next == pos
    ensures ParsedLine(text, pos).Some? ==>
      (fields, next) == ParsedLine(text, pos).value && count == |fields|
  {
    if At(text, pos) == '\n' || At(text, pos) == '\0' {
      return 0, lineData, pos;
    }
    var complete, lastField;
    fields, next, lastField, complete := ReadFields(text, pos);
    if !complete {
      ghost var p := CM.Pieces(text[pos..LineEnd(text, pos)], ',');
      if At(text, next) != '\0' {
        next := next + 1;
      }
      fields := fields + [[]];
      CM.LastPieceEmpty(text[pos..LineEnd(text, pos)], ',');
      assert fields == p;
    }
    count := |fields|;
  }

  /** ParseLine as written: the empty last field and the newline are taken only after an empty field. */
  method ParseLineAsWritten(text: string, pos: nat, lineData: seq<string>) returns (count: nat, fields: seq<string>, next: nat)
    requires pos <= |text|
    ensures ParsedLineAsWritten(text, pos).None? ==> count == 0 && fields == lineData && next == pos
    ensures ParsedLineAsWritten(text, pos).Some? ==>
      (fields, next) == ParsedLineAsWritten(text, pos).value && count == |fields|
  {
    if At(text, pos) == '\n' || At(text, pos) == '\0' {
      return 0, lineData, pos;
    }
    var complete, lastField;
    fields, next, lastField, complete := ReadFields(text, pos);
    if !complete && At(text, next) != '\0' && |lastField| == 0 {
      ghost var p := CM.Pieces(text[pos..LineEnd(text, pos)], ',');
      next := next + 1;
      fields := fields + [lastField];
      CM.LastPieceEmpty(text[pos..LineEnd(text, pos)], ',');
      assert fields == p;
    }
    count := |fields|;
  }

  /**
   * A line read returns the fields that, joined by commas, give the line
   * back; none holds a comma; and reading moves past the line's newline.
   */
  lemma ParsedLineRoundTrip(text: string, pos: nat)
    requires pos <= |text|
    ensures ParsedLine(text, pos).Some? ==>
      var e := LineEnd(text, pos);
      var (fields, next) := ParsedLine(text, pos).value;
      && CM.Join(fields, ',') == text[pos..e]
      && (forall i :: 0 <= i < |fields| ==> ',' !in fields[i])
      && pos < next && (At(text, e) == '\n' ==> next == e + 1) && (At(text, e) == '\0' ==> next == e)
  {
    if ParsedLine(text, pos).Some? {
      var e := LineEnd(text, pos);
      CM.JoinPieces(text[pos..e], ',');
      CM.PiecesHaveNoSeparator(text[pos..e], ',');
    }
  }

  /**
   * The misread line: one ending with a comma that follows a non-empty
   * field, or one ending with a comma at the end of the buffer.
   */
  predicate TrailingCommaMisread(text: string, pos: nat)
    requires pos <= |text|
  {
    !IsLineEnd(At(text, pos)) &&
    var e := LineEnd(text, pos);
    text[e - 1] == ',' && (At(text, e) == '\0' || (e - 1 > pos && text[e - 2] != ','))
  }

  /** The code as written reads a line differently from the intended reading exactly on the misread lines. */
  lemma AsWrittenDiffersExactly(text: string, pos: nat)
    requires pos <= |text|
    ensures ParsedLineAsWritten(text, pos) != ParsedLine(text, pos) <==> TrailingCommaMisread(text, pos)
  {
    if !IsLineEnd(At(text, pos)) {
      var e := LineEnd(text, pos);
      var p := CM.Pieces(text[pos..e], ',');
      if text[e - 1] == ',' {
        var s0 := text[pos..e - 1];
        assert text[pos..e] == s0 + [','];
        PiecesAppendSeparator(s0, ',');
        CM.LastPieceEmpty(s0, ',');
        assert p[..|p| - 1] != p;
        if e - 1 > pos {
          assert s0[|s0| - 1] == text[e - 2];
        }
      }
    }
  }

  /** A separator at the end adds one empty piece. */
  lemma {:induction false} PiecesAppendSeparator(s: string, sep: char)
    ensures CM.Pieces(s + [sep], sep) == CM.Pieces(s, sep) + [[]]
  {
    if s == [] {
      assert ([] + [sep])[1..] == [];
    } else {
      assert (s + [sep])[1..] == s[1..] + [sep];
      PiecesAppendSeparator(s[1..], sep);
    }
  }

  /** The buffer of the example: a line ending "b," followed by a line "c". */
  const StallingText: string := "a,b,\nc\n"

  /**
   * As written, the first line of "a,b,\nc\n" stops at its newline, and the
   * next read returns nothing there, so a reader looping while lines are
   * returned never reaches "c".  As intended, both lines are read.
   */
  lemma AsWrittenStallsOnTrailingComma()
    ensures ParsedLineAsWritten(StallingText, 0) == Some((["a", "b"], 4))
    ensures ParsedLineAsWritten(StallingText, 4) == None
    ensures ParsedLine(StallingText, 0) == Some((["a", "b", ""], 5))
    ensures ParsedLine(StallingText, 5) == Some((["c"], 7))
  {
    var t := StallingText;
    assert LineEnd(t, 3) == 4;
    assert LineEnd(t, 0) == 4;
    assert LineEnd(t, 5) == 6;
    assert t[0..4] == "a,b,";
    assert t[5..6] == "c";
    assert "a,b," == "a,b" + [','];
    PiecesAppendSeparator("a,b", ',');
    CM.PiecesAtSeparator("a,b", 1, ',');
    assert "a,b"[..1] == "a" && "a,b"[2..] == "b";
    CM.PiecesWithoutSeparator("b", ',');
    CM.PiecesWithoutSeparator("c", ',');
    assert CM.Pieces("a,b,", ',') == ["a", "b", ""];
    assert t[3] == ',' && t[4] == '\n';
    assert ["a", "b", ""][..2] == ["a", "b"];
  }

  // ---------------------------------------------------------------------
  // Index buffers
  // ---------------------------------------------------------------------

  /**
   * The two triangles (a, b, c) and (a, c, d) of the cell whose lower-left
   * vertex is a, in a grid of cols cells, so cols + 1 vertices, per row.
   */
  function Quad(a: int, cols: nat): seq<int>
  {
    var b := a + 1;
    var c := b + (cols + 1);
    var d := a + (cols + 1);
    [a, b, c, a, c, d]
  }

  /** The cell at a has all four corners in the vertex buffer, and all four valid. */
  predicate Kept(valid: seq<bool>, a: int, cols: nat)
  {
    0 <= a && a + cols + 2 < |valid|
    && valid[a] && valid[a + 1] && valid[a + cols + 2] && valid[a + cols + 1]
  }

  /** The lower-left vertex of cell (y, x). */
  function Corner(y: int, x: int, cols: nat): int
  {
    y * (cols + 1) + x
  }

  /** The triangles of the first x cells of row y, in order, for the cells whose corners are all valid. */
  function RowQuads(valid: seq<bool>, cols: nat, y: int, x: nat): seq<int>
  {
    if x == 0 then []
    else
      var a := Corner(y, x - 1, cols);
      RowQuads(valid, cols, y, x - 1) + (if Kept(valid, a, cols) then Quad(a, cols) else [])
  }

  /** The triangles of the first rows rows of cells. */
  function GridQuads(valid: seq<bool>, cols: nat, rows: nat): seq<int>
  {
    if rows == 0 then []
    else GridQuads(valid, cols, rows - 1) + RowQuads(valid, cols, rows - 1, cols)
  }

  /** An index buffer made of whole cells: the two triangles of a kept cell, six indices at a time. */
  ghost predicate Blocks(s: seq<int>, valid: seq<bool>, cols: nat)
    decreases |s|
  {
    s == [] || (|s| >= 6 && Kept(valid, s[0], cols) && s[..6] == Quad(s[0], cols) && Blocks(s[6..], valid, cols))
  }

  lemma {:induction false} BlocksAppend(s: seq<int>, t: seq<int>, valid: seq<bool>, cols: nat)
    requires Blocks(s, valid, cols) && Blocks(t, valid, cols)
    ensures Blocks(s + t, valid, cols)
    decreases |s|
  {
    if s != [] {
      BlocksAppend(s[6..], t, valid, cols);
      var u := s + t;
      assert u[6..] == s[6..] + t;
      assert u[..6] == s[..6];
      assert u[0] == s[0];
    } else {
      assert s + t == t;
    }
  }

  /** Every index of a buffer of whole kept cells names a valid vertex. */
  lemma {:induction false} BlocksInRange(s: seq<int>, valid: seq<bool>, cols: nat)
    requires Blocks(s, valid, cols)
    ensures forall j :: 0 <= j < |s| ==> 0 <= s[j] < |valid|
    decreases |s|
  {
    if s != [] {
      BlocksInRange(s[6..], valid, cols);
      var q := Quad(s[0], cols);
      forall j | 0 <= j < |s|
        ensures 0 <= s[j] < |valid|
      {
        if j < 6 {
          assert s[j] == s[..6][j] == q[j];
        } else {
          assert s[j] == s[6..][j - 6];
        }
      }
    }
  }

  lemma {:induction false} RowBlocks(valid: seq<bool>, cols: nat, y: int, x: nat)
    ensures Blocks(RowQuads(valid, cols, y, x), valid, cols)
  {
    if x > 0 {
      RowBlocks(valid, cols, y, x - 1);
      var a := Corner(y, x - 1, cols);
      if Kept(valid, a, cols) {
        assert Quad(a, cols)[..6] == Quad(a, cols) && Quad(a, cols)[6..] == [];
        BlocksAppend(RowQuads(valid, cols, y, x - 1), Quad(a, cols), valid, cols);
      } else {
        assert RowQuads(valid, cols, y, x) == RowQuads(valid, cols, y, x - 1);
      }
    }
  }

  /** Every cell given triangles has all four corners valid, and its triangles come whole. */
  lemma {:induction false} GridBlocks(valid: seq<bool>, cols: nat, rows: nat)
    ensures Blocks(GridQuads(valid, cols, rows), valid, cols)
  {
    if rows > 0 {
      GridBlocks(valid, cols, rows - 1);
      RowBlocks(valid, cols, rows - 1, cols);
      BlocksAppend(GridQuads(valid, cols, rows - 1), RowQuads(valid, cols, rows - 1, cols), valid, cols);
    }
  }

  /** Every index of the buffer names a vertex of the buffer. */
  lemma GridIndicesInRange(valid: seq<bool>, cols: nat, rows: nat)
    ensures forall j :: 0 <= j < |GridQuads(valid, cols, rows)| ==> 0 <= GridQuads(valid, cols, rows)[j] < |valid|
  {
    GridBlocks(valid, cols, rows);
    BlocksInRange(GridQuads(valid, cols, rows), valid, cols);
  }

  lemma {:induction false} RowPrefix(valid: seq<bool>, cols: nat, y: int, x1: nat, x2: nat)
    requires x1 <= x2
    decreases x2
    ensures |RowQuads(valid, cols, y, x1)| <= |RowQuads(valid, cols, y, x2)|
    ensures RowQuads(valid, cols, y, x2)[..|RowQuads(valid, cols, y, x1)|] == RowQuads(valid, cols, y, x1)
  {
    if x1 < x2 {
      RowPrefix(valid, cols, y, x1, x2 - 1);
    }
  }

  lemma {:induction false} GridPrefix(valid: seq<bool>, cols: nat, y1: nat, y2: nat)
    requires y1 <= y2
    decreases y2
    ensures |GridQuads(valid, cols, y1)| <= |GridQuads(valid, cols, y2)|
    ensures GridQuads(valid, cols, y2)[..|GridQuads(valid, cols, y1)|] == GridQuads(valid, cols, y1)
  {
    if y1 < y2 {
      GridPrefix(valid, cols, y1, y2 - 1);
    }
  }

  /** Every cell whose four corners are valid gets its two triangles, at a known place in the buffer. */
  lemma KeptCellEmitted(valid: seq<bool>, cols: nat, rows: nat, y: nat, x: nat)
    requires y < rows && x < cols && Kept(valid, Corner(y, x, cols), cols)
    ensures var pos := |GridQuads(valid, cols, y)| + |RowQuads(valid, cols, y, x)|;
      pos + 6 <= |GridQuads(valid, cols, rows)|
      && GridQuads(valid, cols, rows)[pos..pos + 6] == Quad(Corner(y, x, cols), cols)
  {
    CellInRow(valid, cols, y, x);
    GridStep(valid, cols, y);
    GridPrefix(valid, cols, y + 1, rows);
    SliceThroughPrefixes(GridQuads(valid, cols, rows), GridQuads(valid, cols, y), RowQuads(valid, cols, y, cols),
                         |RowQuads(valid, cols, y, x)|, Quad(Corner(y, x, cols), cols));
  }

  lemma GridStep(valid: seq<bool>, cols: nat, y: nat)
    ensures GridQuads(valid, cols, y + 1) == GridQuads(valid, cols, y) + RowQuads(valid, cols, y, cols)
  {
  }

  /** Six indices at n in a row appended to g, the whole a prefix of all, lie at |g| + n in all. */
  lemma SliceThroughPrefixes(all: seq<int>, g: seq<int>, row: seq<int>, n: nat, q: seq<int>)
    requires |g + row| <= |all| && all[..|g + row|] == g + row
    requires n + 6 <= |row| && row[n..n + 6] == q
    ensures |g| + n + 6 <= |all| && all[|g| + n..|g| + n + 6] == q
  {
    SliceAfterPrefix(g, row, n, n + 6);
    SliceOfPrefix(all, g + row, |g| + n, |g| + n + 6);
  }

  /** Within its row, a kept cell's triangles follow those of the cells before it. */
  lemma CellInRow(valid: seq<bool>, cols: nat, y: nat, x: nat)
    requires x < cols && Kept(valid, Corner(y, x, cols), cols)
    ensures var r := RowQuads(valid, cols, y, x);
      |r| + 6 <= |RowQuads(valid, cols, y, cols)|
      && RowQuads(valid, cols, y, cols)[|r|..|r| + 6] == Quad(Corner(y, x, cols), cols)
  {
    var r := RowQuads(valid, cols, y, x);
    var q := Quad(Corner(y, x, cols), cols);
    var r1 := RowQuads(valid, cols, y, x + 1);
    assert r1 == r + q;
    RowPrefix(valid, cols, y, x + 1, cols);
    SliceOfPrefix(RowQuads(valid, cols, y, cols), r1, |r|, |r| + 6);
  }

  lemma SliceAfterPrefix(a: seq<int>, b: seq<int>, i: nat, j: nat)
    requires i <= j <= |b|
    ensures (a + b)[|a| + i..|a| + j] == b[i..j]
  {
  }

  lemma SliceOfPrefix(whole: seq<int>, pre: seq<int>, i: nat, j: nat)
    requires |pre| <= |whole| && whole[..|pre|] == pre && i <= j <= |pre|
    ensures whole[i..j] == pre[i..j]
  {
    forall k | 0 <= k < j - i
      ensures whole[i..j][k] == pre[i..j][k]
    {
      assert whole[..|pre|][i + k] == whole[i + k];
    }
  }

  /** In a grid of rows + 1 by cols + 1 vertices the far corner of every cell is a vertex. */
  lemma CornerInGrid(y: nat, x: nat, cols: nat, rows: nat)
    requires y < rows && x < cols
    ensures Corner(y, x, cols) + cols + 2 < (rows + 1) * (cols + 1)
  {
    assert y * (cols + 1) <= (rows - 1) * (cols + 1);
    assert (rows + 1) * (cols + 1) == (rows - 1) * (cols + 1) + 2 * (cols + 1);
  }

  /** All vertices valid. */
  function AllValid(n: nat): (valid: seq<bool>)
    ensures |valid| == n && forall i :: 0 <= i < n ==> valid[i]
  {
    seq(n, _ => true)
  }

  lemma {:induction false} FullRowCount(cols: nat, rows: nat, y: nat, x: nat)
    requires y < rows && x <= cols
    ensures |RowQuads(AllValid((rows + 1) * (cols + 1)), cols, y, x)| == 6 * x
  {
    if x > 0 {
      FullRowCount(cols, rows, y, x - 1);
      CornerInGrid(y, x - 1, cols, rows);
    }
  }

  /** With every vertex valid, rows by cols cells give rows * cols * 6 indices. */
  lemma {:induction false} FullGridCount(cols: nat, rows: nat, y: nat)
    requires y <= rows
    ensures |GridQuads(AllValid((rows + 1) * (cols + 1)), cols, y)| == y * cols * 6
  {
    if y > 0 {
      FullGridCount(cols, rows, y - 1);
      FullRowCount(cols, rows, y - 1, cols);
      assert (y - 1) * cols * 6 + 6 * cols == y * cols * 6;
    }
  }

  /**
   * The index buffer of the CSV distortion mesh: for a grid of W by H
   * samples, the two triangles of each of the (W - 1) * (H - 1) cells,
   * row by row, (W - 1) * (H - 1) * 6 indices, each naming one of the
   * W * H vertices.
   */
  method MakeIndexBuffer(numSamplesHoriz: int, numSamplesVertical: int) returns (indexBuffer: array<int>)
    requires numSamplesHoriz >= 1 && numSamplesVertical >= 1
    ensures fresh(indexBuffer)
    ensures indexBuffer.Length == (numSamplesHoriz - 1) * (numSamplesVertical - 1) * 6
    ensures indexBuffer[..] == GridQuads(AllValid(numSamplesHoriz * numSamplesVertical), numSamplesHoriz - 1, numSamplesVertical - 1)
    ensures forall i :: 0 <= i < indexBuffer.Length ==> 0 <= indexBuffer[i] < numSamplesHoriz * numSamplesVertical
  {
    var cols: nat := numSamplesHoriz - 1;
    var rows: nat := numSamplesVertical - 1;
    assert (rows + 1) * (cols + 1) == numSamplesHoriz * numSamplesVertical;
    ghost var valid := AllValid(numSamplesHoriz * numSamplesVertical);
    var numIndices := (numSamplesHoriz - 1) * (numSamplesVertical - 1) * 6;
    indexBuffer := new int[numIndices];
    assert indexBuffer.Length == RowStart(rows, cols) by {
      RowStartIsProduct(rows, cols);
    }
    var numPerRow := numSamplesHoriz;
    var inner := 0;
    var idx: nat := 0;
    var y := 0;
    while y < rows
      invariant 0 <= y <= rows
      invariant inner == Corner(y, 0, cols)
      invariant idx == RowStart(y, cols) <= indexBuffer.Length
      invariant indexBuffer[..idx] == GridQuads(valid, cols, y)
    {
      RowStartMonotone(y + 1, rows, cols);
      inner := WriteRow(indexBuffer, idx, inner, numPerRow, y, cols, rows, valid);
      NextRowCorner(y, cols);
      idx := idx + cols * 6;
      inner := inner + 1;
      y := y + 1;
    }
    assert indexBuffer[..] == indexBuffer[..idx] == GridQuads(valid, cols, rows);
    GridIndicesInRange(valid, cols, rows);
  }

  /** The inner loop of the CSV index generation: the cells of row y, written from idx on. */
  method WriteRow(indexBuffer: array<int>, idx: nat, inner: int, numPerRow: int, y: nat, cols: nat, rows: nat,
                  ghost valid: seq<bool>) returns (innerOut: int)
    requires y < rows && numPerRow == cols + 1 && inner == Corner(y, 0, cols)
    requires valid == AllValid((rows + 1) * (cols + 1))
    requires idx + cols * 6 <= indexBuffer.Length
    modifies indexBuffer
    ensures innerOut == Corner(y, cols, cols)
    ensures indexBuffer[..idx + cols * 6] == old(indexBuffer[..idx]) + RowQuads(valid, cols, y, cols)
  {
    innerOut := inner;
    var x := 0;
    var k := idx;
    while x < cols
      invariant 0 <= x <= cols
      invariant innerOut == Corner(y, x, cols)
      invariant k == idx + x * 6
      invariant indexBuffer[..k] == old(indexBuffer[..idx]) + RowQuads(valid, cols, y, x)
    {
      FullRowStep(cols, rows, y, x);
      var a := innerOut;
      var b := innerOut + 1;
      var c := b + numPerRow;
      var d := a + numPerRow;
      WriteQuad(indexBuffer, k, a, b, c, d);
      assert [a, b, c, a, c, d] == Quad(a, cols);
      innerOut := innerOut + 1;
      k := k + 6;
      x := x + 1;
    }
  }

  /** With every vertex valid, each cell of the grid adds its two triangles to its row. */
  lemma FullRowStep(cols: nat, rows: nat, y: nat, x: nat)
    requires y < rows && x < cols
    ensures RowQuads(AllValid((rows + 1) * (cols + 1)), cols, y, x + 1)
      == RowQuads(AllValid((rows + 1) * (cols + 1)), cols, y, x) + Quad(Corner(y, x, cols), cols)
  {
    CornerInGrid(y, x, cols, rows);
  }

  /** The first vertex of row y + 1 follows the last vertex of row y. */
  lemma NextRowCorner(y: int, cols: nat)
    ensures Corner(y, 0, cols) + cols + 1 == Corner(y + 1, 0, cols)
  {
  }

  /** Where row y of a grid `cols` cells wide starts in the index buffer: six indices per cell. */
  ghost function RowStart(y: nat, cols: nat): nat
  {
    if y == 0 then 0 else RowStart(y - 1, cols) + cols * 6
  }

  lemma {:induction false} RowStartIsProduct(y: nat, cols: nat)
    ensures RowStart(y, cols) == cols * y * 6
  {
    if y > 0 {
      RowStartIsProduct(y - 1, cols);
      assert cols * y * 6 == cols * (y - 1) * 6 + cols * 6;
    }
  }

  lemma {:induction false} RowStartMonotone(y1: nat, y2: nat, cols: nat)
    requires y1 <= y2
    ensures RowStart(y1, cols) <= RowStart(y2, cols)
    decreases y2
  {
    if y1 < y2 {
      RowStartMonotone(y1, y2 - 1, cols);
    }
  }

  /** The six writes of one cell: triangles (a, b, c) and (a, c, d) at idx. */
  method WriteQuad(buffer: array<int>, idx: nat, a: int, b: int, c: int, d: int)
    requires idx + 6 <= buffer.Length
    modifies buffer
    ensures buffer[..idx + 6] == old(buffer[..idx]) + [a, b, c, a, c, d]
  {
    buffer[idx] := a;
    buffer[idx + 1] := b;
    buffer[idx + 2] := c;
    buffer[idx + 3] := a;
    buffer[idx + 4] := c;
    buffer[idx + 5] := d;
  }

  // ---------------------------------------------------------------------
  // Projection-layer meshes
  // ---------------------------------------------------------------------

  /** The sxrWhichMesh values that select a section of an eye's mesh. */
  datatype MeshSection = MeshLeft | MeshRight | MeshUpperLeft | MeshUpperRight | MeshLowerLeft | MeshLowerRight

  predicate IsLower(whichMesh: MeshSection)
  {
    whichMesh == MeshLowerLeft || whichMesh == MeshLowerRight
  }

  predicate IsUpper(whichMesh: MeshSection)
  {
    whichMesh == MeshUpperLeft || whichMesh == MeshUpperRight
  }

  /** C integer division by two, rounding toward zero. */
  function HalfOf(n: int): int
  {
    if n >= 0 then n / 2 else -((-n) / 2)
  }

  /** The rows of vertices a section covers: [0, N/2] for a lower section, [N/2, N] for an upper one, [0, N] otherwise. */
  function RowRange(whichMesh: MeshSection, numRows: int): (r: (int, int))
    ensures numRows >= 0 ==> 0 <= r.0 <= r.1 <= numRows
    ensures numRows >= 0 && IsLower(whichMesh) ==> r == (0, numRows / 2)
    ensures numRows >= 0 && IsUpper(whichMesh) ==> r == (numRows / 2, numRows)
    ensures !IsLower(whichMesh) && !IsUpper(whichMesh) ==> r == (0, numRows)
  {
    var (beginRow, endRow) := (0, numRows);
    var (beginRow, endRow) := if IsLower(whichMesh) then (0, HalfOf(numRows)) else (beginRow, endRow);
    if IsUpper(whichMesh) then (HalfOf(numRows), numRows) else (beginRow, endRow)
  }

  /**
   * The lower and upper sections split an eye's rows at N/2: they share
   * that row of vertices, together cover every row of cells once, and the
   * upper one has at most one row of cells more than the lower one.
   */
  lemma SectionsCoverRows(numRows: nat, lower: MeshSection, upper: MeshSection)
    requires IsLower(lower) && IsUpper(upper)
    ensures RowRange(lower, numRows).0 == 0
    ensures RowRange(lower, numRows).1 == RowRange(upper, numRows).0 == numRows / 2
    ensures RowRange(upper, numRows).1 == numRows
    ensures (RowRange(lower, numRows).1 - RowRange(lower, numRows).0)
          + (RowRange(upper, numRows).1 - RowRange(upper, numRows).0) == numRows
    ensures var lowerCells := RowRange(lower, numRows).1 - RowRange(lower, numRows).0;
      var upperCells := RowRange(upper, numRows).1 - RowRange(upper, numRows).0;
      lowerCells <= upperCells <= lowerCells + 1
  {
  }

  /**
   * A texture coordinate scaled to a buffer of size samples and rounded:
   * clamped below at 0 and above at size - 1 (compared unsigned, so a size
   * of 0 leaves the upper clamp off).  For a non-empty buffer the sample
   * is inside it, and a rounded value already inside is kept.
   */
  function SampleIndex(coord: real, size: nat): (r: int)
    ensures size >= 1 ==> 0 <= r < size
    ensures var s := CM.Trunc(coord * size as real + 0.5); 0 <= s < size - 1 ==> r == s
    ensures size == 0 ==> r >= 0
  {
    var s := CM.Trunc(coord * size as real + 0.5);
    var s := if s < 0 then 0 else s;
    if size >= 1 && s >= size - 1 then size - 1 else s
  }

  /** The component k of the clamped sample (u, v) of a four-float-per-sample buffer lies inside the buffer. */
  lemma SampleInBuffer(uCoord: real, vCoord: real, width: nat, height: nat, k: int)
    requires width >= 1 && height >= 1 && 0 <= k < 4
    ensures 0 <= SampleIndex(vCoord, height) * width * 4 + SampleIndex(uCoord, width) * 4 + k < width * height * 4
  {
    CM.SampleInTexture(SampleIndex(uCoord, width), SampleIndex(vCoord, height), width, height, 4, k, width * height * 4);
  }

  /**
   * The index loop of CreateProjectionLayerMesh: over the cells of the
   * section's rows, the two triangles of every cell whose four corner
   * vertices are valid, numbering the section's vertices from 0.
   */
  method ProjectionIndices(valid: seq<bool>, whichMesh: MeshSection, numRows: int, numColumns: int) returns (indices: seq<int>)
    requires 0 <= numRows && 0 <= numColumns
    requires |valid| == (numRows + 1) * (numColumns + 1)
    ensures var (beginRow, endRow) := RowRange(whichMesh, numRows);
      indices == GridQuads(valid, numColumns, endRow - beginRow)
  {
    var beginRow := 0;
    var endRow := numRows;
    if whichMesh == MeshLowerLeft || whichMesh == MeshLowerRight {
      beginRow := 0;
      endRow := HalfOf(numRows);
    }
    if whichMesh == MeshUpperLeft || whichMesh == MeshUpperRight {
      beginRow := HalfOf(numRows);
      endRow := numRows;
    }
    assert (beginRow, endRow) == RowRange(whichMesh, numRows);
    indices := SectionIndices(valid, beginRow, endRow, numRows, numColumns);
  }

  /** The two nested loops over the rows [beginRow, endRow) of cells. */
  method SectionIndices(valid: seq<bool>, beginRow: int, endRow: int, numRows: nat, numColumns: nat) returns (indices: seq<int>)
    requires 0 <= beginRow <= endRow <= numRows
    requires |valid| == (numRows + 1) * (numColumns + 1)
    ensures indices == GridQuads(valid, numColumns, endRow - beginRow)
  {
    indices := [];
    var inner := 0;
    var y := beginRow;
    while y < endRow
      invariant beginRow <= y <= endRow
      invariant inner == Corner(y - beginRow, 0, numColumns)
      invariant indices == GridQuads(valid, numColumns, y - beginRow)
    {
      var row;
      row, inner := ProjectionRow(valid, inner, y - beginRow, numColumns, numRows);
      indices := indices + row;
      NextRowCorner(y - beginRow, numColumns);
      inner := inner + 1;
      y := y + 1;
    }
  }

  /** The inner loop of the projection index generation: row y's kept cells. */
  method ProjectionRow(valid: seq<bool>, inner: int, y: nat, cols: nat, numRows: nat) returns (row: seq<int>, innerOut: int)
    requires y < numRows && |valid| == (numRows + 1) * (cols + 1)
    requires inner == Corner(y, 0, cols)
    ensures row == RowQuads(valid, cols, y, cols)
    ensures innerOut == Corner(y, cols, cols)
  {
    row := [];
    innerOut := inner;
    var x := 0;
    while x < cols
      invariant 0 <= x <= cols
      invariant innerOut == Corner(y, x, cols)
      invariant row == RowQuads(valid, cols, y, x)
    {
      CornerInGrid(y, x, cols, numRows);
      var a := innerOut;
      var b := innerOut + 1;
      var c := b + (cols + 1);
      var d := a + (cols + 1);
      if valid[a] && valid[b] && valid[c] && valid[d] {
        row := row + [a, b, c, a, c, d];
      }
      innerOut := innerOut + 1;
      x := x + 1;
    }
  }

  // ---------------------------------------------------------------------
  // The quad-layer mesh cache
  // ---------------------------------------------------------------------

  /** NUM_CACHED_3D_QUAD_MESHES: two per render layer, 16 layers. */
  const CacheSize: int := 32
  /** NUM_3D_QUAD_MESH_HASH_INPUTS: twelve corner coordinates and the eye. */
  const HashInputCount: int := 13

  /** A set of slot numbers below n has at most n members. */
  lemma {:induction false} BoundedSize(a: set<int>, n: nat)
    requires forall i :: i in a ==> 0 <= i < n
    ensures |a| <= n
  {
    if n == 0 {
      assert forall i :: i in a <==> i in {};
    } else {
      BoundedSize(a - {n - 1}, n - 1);
      if n - 1 !in a {
        assert forall i :: i in a - {n - 1} <==> i in a;
      }
    }
  }

  /** A set holding every slot number below n has at least n members. */
  lemma {:induction false} ContainsRangeSize(a: set<int>, n: nat)
    requires forall i :: 0 <= i < n ==> i in a
    ensures |a| >= n
  {
    if n > 0 {
      ContainsRangeSize(a - {n - 1}, n - 1);
    }
  }

  /** Fewer used slots than slots: some slot is free. */
  lemma FreeSlotExists(used: set<int>, n: nat)
    requires |used| < n
    ensures exists i :: 0 <= i < n && i !in used
  {
    if forall i :: 0 <= i < n ==> i in used {
      ContainsRangeSize(used, n);
    }
  }

  /** As many used slots as slots: every slot is used. */
  lemma AllSlotsUsed(used: set<int>, n: nat)
    requires forall i :: i in used ==> 0 <= i < n
    requires |used| == n
    ensures forall i :: 0 <= i < n ==> i in used
  {
    forall i | 0 <= i < n
      ensures i in used
    {
      if i !in used {
        BoundedSize(used + {i}, n);
      }
    }
  }

  /** The slots whose usage count is non-zero. */
  function Used(usage: seq<nat>): (r: set<int>)
    ensures forall i :: i in r <==> 0 <= i < |usage| && usage[i] != 0
  {
    set i | 0 <= i < |usage| && usage[i] != 0
  }

  /**
   * The cache's bookkeeping agrees with itself: both maps have the same
   * hashes, each hash's slot records that hash back, a slot is in use
   * exactly when some hash leads to it, and there are as many hashes as
   * slots in use.
   */
  ghost predicate CacheInvariant(hashToIndex: map<int, int>, hashToInputs: map<int, seq<int>>, indexToHash: seq<int>, usage: seq<nat>)
  {
    && |indexToHash| == CacheSize && |usage| == CacheSize
    && hashToIndex.Keys == hashToInputs.Keys
    && (forall h :: h in hashToIndex ==> 0 <= hashToIndex[h] < CacheSize && indexToHash[hashToIndex[h]] == h)
    && (forall i {:trigger usage[i]} :: 0 <= i < CacheSize ==>
          (usage[i] != 0 <==> indexToHash[i] in hashToIndex && hashToIndex[indexToHash[i]] == i))
    && |hashToIndex| == |Used(usage)|
  }

  /** Every cached hash leads to a mesh built from the inputs recorded for it. */
  ghost predicate MeshesMatch(hashToIndex: map<int, int>, hashToInputs: map<int, seq<int>>, meshes: seq<seq<int>>)
  {
    forall h :: h in hashToIndex && h in hashToInputs && 0 <= hashToIndex[h] < |meshes| ==>
      meshes[hashToIndex[h]] == hashToInputs[h]
  }

  /** A new hash placed in a free slot keeps the bookkeeping consistent. */
  lemma InsertIntoFree(hashToIndex: map<int, int>, hashToInputs: map<int, seq<int>>, indexToHash: seq<int>, usage: seq<nat>,
                       hash: int, inputs: seq<int>, t: int)
    requires CacheInvariant(hashToIndex, hashToInputs, indexToHash, usage)
    requires hash !in hashToIndex && 0 <= t < CacheSize && usage[t] == 0
    ensures CacheInvariant(hashToIndex[hash := t], hashToInputs[hash := inputs], indexToHash[t := hash], usage[t := 1])
  {
    assert Used(usage[t := 1]) == Used(usage) + {t};
    assert t !in Used(usage);
  }

  /** A new hash that evicts the hash of a used slot keeps the bookkeeping consistent. */
  lemma InsertEvicting(hashToIndex: map<int, int>, hashToInputs: map<int, seq<int>>, indexToHash: seq<int>, usage: seq<nat>,
                       hash: int, inputs: seq<int>, t: int)
    requires CacheInvariant(hashToIndex, hashToInputs, indexToHash, usage)
    requires hash !in hashToIndex && 0 <= t < CacheSize && usage[t] != 0
    ensures var k := indexToHash[t];
      CacheInvariant((hashToIndex - {k})[hash := t], (hashToInputs - {k})[hash := inputs], indexToHash[t := hash], usage[t := 1])
  {
    var k := indexToHash[t];
    assert Used(usage[t := 1]) == Used(usage);
    assert k in hashToIndex && hashToIndex[k] == t;
    assert |hashToIndex - {k}| == |hashToIndex| - 1;
    forall h | h in hashToIndex && h != k
      ensures hashToIndex[h] != t
    {
    }
  }

  /** Replacing the mesh of a slot nothing else leads to, under a hash now leading to it, keeps the meshes matched. */
  lemma MatchAfterInsert(hashToIndex: map<int, int>, hashToInputs: map<int, seq<int>>, meshes: seq<seq<int>>,
                         hash: int, inputs: seq<int>, t: int)
    requires MeshesMatch(hashToIndex, hashToInputs, meshes) && 0 <= t < |meshes|
    requires forall h :: h in hashToIndex && h != hash ==> hashToIndex[h] != t
    ensures MeshesMatch(hashToIndex[hash := t], hashToInputs[hash := inputs], meshes[t := inputs])
  {
  }

  /** A collision handled as written: the slot is rebuilt but the hash keeps its old inputs, so the meshes no longer match. */
  lemma CollisionAsWrittenBreaksMatch(hashToIndex: map<int, int>, hashToInputs: map<int, seq<int>>, indexToHash: seq<int>,
                                      usage: seq<nat>, meshes: seq<seq<int>>, hash: int, inputs: seq<int>)
    requires CacheInvariant(hashToIndex, hashToInputs, indexToHash, usage) && |meshes| == CacheSize
    requires hash in hashToIndex && hashToInputs[hash] != inputs
    ensures !MeshesMatch(hashToIndex, hashToInputs, meshes[hashToIndex[hash] := inputs])
  {
    var ms := meshes[hashToIndex[hash] := inputs];
    assert ms[hashToIndex[hash]] != hashToInputs[hash];
  }

  /** A collision handled by also recording the new inputs for the hash keeps the meshes matched. */
  lemma CollisionRecordedKeepsMatch(hashToIndex: map<int, int>, hashToInputs: map<int, seq<int>>, indexToHash: seq<int>,
                                    usage: seq<nat>, meshes: seq<seq<int>>, hash: int, inputs: seq<int>)
    requires CacheInvariant(hashToIndex, hashToInputs, indexToHash, usage) && |meshes| == CacheSize
    requires MeshesMatch(hashToIndex, hashToInputs, meshes) && hash in hashToIndex
    ensures MeshesMatch(hashToIndex, hashToInputs[hash := inputs], meshes[hashToIndex[hash] := inputs])
  {
    MatchAfterInsert(hashToIndex, hashToInputs, meshes, hash, inputs, hashToIndex[hash]);
    assert hashToIndex[hash := hashToIndex[hash]] == hashToIndex;
  }

  /** One corner of a quad layer in normalised device coordinates. */
  datatype NdcPos = NdcPos(x: real, y: real, z: real, w: real)

  /** The four corners of a quad layer (sxrLayoutCoords). */
  datatype LayoutCoords = LayoutCoords(lowerLeft: NdcPos, lowerRight: NdcPos, upperLeft: NdcPos, upperRight: NdcPos)

  /** Strictly inside the NDC range (-1, 1). */
  predicate InsideNdc(c: real)
  {
    -1.0 < c < 1.0
  }

  /**
   * The visibility test of UpdateAndGetQuadLayerMesh: on each of the x, y
   * and z axes at least one corner lies strictly inside (-1, 1).
   */
  predicate QuadVisible(q: LayoutCoords)
  {
    && (InsideNdc(q.lowerLeft.x) || InsideNdc(q.lowerRight.x) || InsideNdc(q.upperLeft.x) || InsideNdc(q.upperRight.x))
    && (InsideNdc(q.lowerLeft.y) || InsideNdc(q.lowerRight.y) || InsideNdc(q.upperLeft.y) || InsideNdc(q.upperRight.y))
    && (InsideNdc(q.lowerLeft.z) || InsideNdc(q.lowerRight.z) || InsideNdc(q.upperLeft.z) || InsideNdc(q.upperRight.z))
  }

  /** A coordinate in thousandths, truncated toward zero as the cast to int32_t does. */
  function Milli(c: real): (r: int)
    ensures InsideNdc(c) ==> -1000 < r < 1000
    ensures 0.0 <= c ==> 0 <= r
  {
    CM.Trunc(c * 1000.0)
  }

  /** The 13 hash inputs: x, y and z of each corner in thousandths, corner by corner, then the eye. */
  function HashInputs(q: LayoutCoords, whichEye: int): (r: seq<int>)
    ensures |r| == HashInputCount && r[HashInputCount - 1] == whichEye
  {
    [Milli(q.lowerLeft.x), Milli(q.lowerLeft.y), Milli(q.lowerLeft.z),
     Milli(q.lowerRight.x), Milli(q.lowerRight.y), Milli(q.lowerRight.z),
     Milli(q.upperLeft.x), Milli(q.upperLeft.y), Milli(q.upperLeft.z),
     Milli(q.upperRight.x), Milli(q.upperRight.y), Milli(q.upperRight.z),
     whichEye]
  }

  /** A quad whose every corner lies right of the view (x >= 1) is not drawn, whatever its y and z. */
  lemma QuadRightOfViewHidden(q: LayoutCoords)
    requires q.lowerLeft.x >= 1.0 && q.lowerRight.x >= 1.0 && q.upperLeft.x >= 1.0 && q.upperRight.x >= 1.0
    ensures !QuadVisible(q)
  {
  }

  /** The same corners seen by the two eyes never share hash inputs, so they never share a cache entry. */
  lemma EyesHaveDistinctInputs(q: LayoutCoords, leftEye: int, rightEye: int)
    requires leftEye != rightEye
    ensures HashInputs(q, leftEye) != HashInputs(q, rightEye)
  {
    assert HashInputs(q, leftEye)[HashInputCount - 1] != HashInputs(q, rightEye)[HashInputCount - 1];
  }

  /**
   * The quad-layer mesh cache: up to 32 meshes, each found by the hash of
   * the 13 inputs it was built from.  A mesh is represented by those
   * inputs.
   */
  class QuadMeshCache {
    var hashToIndex: map<int, int>
    var hashToInputs: map<int, seq<int>>
    var indexToHash: array<int>
    var usage: array<nat>
    var meshes: array<seq<int>>

    ghost predicate Valid()
      reads this, indexToHash, usage
    {
      && meshes.Length == CacheSize
      && CacheInvariant(hashToIndex, hashToInputs, indexToHash[..], usage[..])
    }

    ghost predicate Consistent()
      reads this, meshes
    {
      MeshesMatch(hashToIndex, hashToInputs, meshes[..])
    }

    /** Init3dQuadMeshes: every slot unused, both hash maps empty. */
    constructor ()
      ensures Valid() && Consistent()
      ensures hashToIndex == map[] && hashToInputs == map[]
      ensures forall i :: 0 <= i < CacheSize ==> usage[i] == 0
    {
      hashToIndex := map[];
      hashToInputs := map[];
      indexToHash := new int[CacheSize](_ => 0);
      usage := new nat[CacheSize](_ => 0);
      meshes := new seq<int>[CacheSize](_ => []);
      new;
      assert Used(usage[..]) == {};
    }

    /**
     * The slot a new mesh goes to: the first unused slot if there is one,
     * otherwise the first of the least-used slots.
     */
    method ChooseTarget() returns (target: int)
      requires Valid()
      ensures 0 <= target < CacheSize
      ensures (exists i :: 0 <= i < CacheSize && usage[i] == 0) ==>
        usage[target] == 0 && forall j :: 0 <= j < target ==> usage[j] != 0
      ensures (forall i :: 0 <= i < CacheSize ==> usage[i] != 0) ==>
        forall j :: 0 <= j < CacheSize ==> usage[target] <= usage[j] && (j < target ==> usage[target] < usage[j])
    {
      target := 0;
      var found := false;
      var usageCount := 0;
      var i := 0;
      while i < CacheSize
        invariant 0 <= i <= CacheSize
        invariant forall j :: 0 <= j < i ==> usage[j] != 0
        invariant found <==> i > 0
        invariant found ==> 0 <= target < i && usageCount == usage[target]
        invariant found ==> forall j :: 0 <= j < i ==> usage[target] <= usage[j] && (j < target ==> usage[target] < usage[j])
      {
        if usage[i] == 0 {
          return i;
        }
        if !found || usage[i] < usageCount {
          usageCount := usage[i];
          target := i;
          found := true;
        }
        i := i + 1;
      }
    }

    /** A miss: the mesh goes to the chosen slot, evicting that slot's hash when the cache is full. */
    method Insert(hash: int, inputs: seq<int>) returns (slot: int)
      requires Valid() && Consistent() && hash !in hashToIndex
      modifies this, indexToHash, usage, meshes
      ensures Valid() && Consistent()
      ensures 0 <= slot < CacheSize && meshes[slot] == inputs && usage[slot] == 1 && indexToHash[slot] == hash
      ensures old(|hashToIndex|) < CacheSize ==>
        && old(usage[slot]) == 0
        && hashToIndex == old(hashToIndex)[hash := slot] && hashToInputs == old(hashToInputs)[hash := inputs]
      ensures old(|hashToIndex|) == CacheSize ==>
        && (forall j :: 0 <= j < CacheSize ==> old(usage[slot]) <= old(usage[j]))
        && hashToIndex == (old(hashToIndex) - {old(indexToHash[slot])})[hash := slot]
        && hashToInputs == (old(hashToInputs) - {old(indexToHash[slot])})[hash := inputs]
      ensures usage[..] == old(usage[..])[slot := 1] && meshes[..] == old(meshes[..])[slot := inputs]
      ensures indexToHash[..] == old(indexToHash[..])[slot := hash]
    {
      var evictNeeded := |hashToIndex| == CacheSize;
      BoundedSize(Used(usage[..]), CacheSize);
      if evictNeeded {
        AllSlotsUsed(Used(usage[..]), CacheSize);
      } else {
        FreeSlotExists(Used(usage[..]), CacheSize);
      }
      slot := ChooseTarget();
      Store(hash, inputs, slot, evictNeeded);
    }

    /** The bookkeeping of a miss once the target slot is chosen: evict its hash if needed, then record the new one. */
    method Store(hash: int, inputs: seq<int>, target: int, evictNeeded: bool)
      requires Valid() && Consistent() && hash !in hashToIndex && 0 <= target < CacheSize
      requires evictNeeded <==> |hashToIndex| == CacheSize
      requires evictNeeded ==> usage[target] != 0
      requires !evictNeeded ==> usage[target] == 0
      modifies this, indexToHash, usage, meshes
      ensures Valid() && Consistent()
      ensures !evictNeeded ==>
        hashToIndex == old(hashToIndex)[hash := target] && hashToInputs == old(hashToInputs)[hash := inputs]
      ensures evictNeeded ==>
        && hashToIndex == (old(hashToIndex) - {old(indexToHash[target])})[hash := target]
        && hashToInputs == (old(hashToInputs) - {old(indexToHash[target])})[hash := inputs]
      ensures usage[..] == old(usage[..])[target := 1] && meshes[..] == old(meshes[..])[target := inputs]
      ensures indexToHash[..] == old(indexToHash[..])[target := hash]
    {
      ghost var hi, hin, ih, us, ms := hashToIndex, hashToInputs, indexToHash[..], usage[..], meshes[..];
      if evictNeeded {
        InsertEvicting(hi, hin, ih, us, hash, inputs, target);
        MatchAfterInsert(hi - {ih[target]}, hin - {ih[target]}, ms, hash, inputs, target);
      } else {
        InsertIntoFree(hi, hin, ih, us, hash, inputs, target);
        forall h | h in hi && h != hash
          ensures hi[h] != target
        {
          assert us[hi[h]] != 0;
        }
        MatchAfterInsert(hi, hin, ms, hash, inputs, target);
      }
      meshes[target] := inputs;
      if evictNeeded {
        var evicted := indexToHash[target];
        hashToIndex := hashToIndex - {evicted};
        hashToInputs := hashToInputs - {evicted};
      }
      hashToIndex := hashToIndex[hash := target];
      hashToInputs := hashToInputs[hash := inputs];
      indexToHash[target] := hash;
      usage[target] := 1;
    }

    /**
     * UpdateAndGetQuadLayerMesh with a collision handled: a hit returns the
     * cached slot and counts the use; a collision rebuilds that slot and
     * records the new inputs for the hash; a miss inserts.  The slot
     * returned always holds a mesh built from the inputs asked for.
     */
    method UpdateAndGet(inputs: seq<int>, hash: int) returns (slot: int)
      requires Valid() && Consistent() && |inputs| == HashInputCount
      modifies this, indexToHash, usage, meshes
      ensures Valid() && Consistent()
      ensures 0 <= slot < CacheSize && meshes[slot] == inputs
      ensures hash in old(hashToIndex) && old(hashToInputs[hash]) == inputs ==>
        && slot == old(hashToIndex[hash]) && usage[..] == old(usage[..])[slot := old(usage[slot]) + 1]
        && hashToIndex == old(hashToIndex) && hashToInputs == old(hashToInputs)
        && meshes[..] == old(meshes[..])
      ensures hash in old(hashToIndex) && old(hashToInputs[hash]) != inputs ==>
        && slot == old(hashToIndex[hash]) && usage[..] == old(usage[..])[slot := 1]
        && hashToIndex == old(hashToIndex) && hashToInputs == old(hashToInputs)[hash := inputs]
      ensures hash !in old(hashToIndex) ==> hash in hashToIndex && hashToIndex[hash] == slot && usage[slot] == 1
    {
      if hash in hashToIndex {
        slot := hashToIndex[hash];
        if hashToInputs[hash] == inputs {
          usage[slot] := usage[slot] + 1;
          assert Used(usage[..]) == Used(old(usage[..]));
          return;
        }
        CollisionRecordedKeepsMatch(hashToIndex, hashToInputs, indexToHash[..], usage[..], meshes[..], hash, inputs);
        meshes[slot] := inputs;
        hashToInputs := hashToInputs[hash := inputs];
        usage[slot] := 1;
        assert Used(usage[..]) == Used(old(usage[..]));
        return;
      }
      slot := Insert(hash, inputs);
    }

    /**
     * UpdateAndGetQuadLayerMesh from the layer's corners: no mesh, and no
     * change to the cache, while the eye buffer has no size or the quad is
     * outside the view on some axis; otherwise the corners and the eye,
     * scaled and truncated, are looked up under their hash (a parameter
     * here) and the slot handed back holds a mesh built from them.  The
     * lookup is the corrected UpdateAndGet, which records the new inputs on
     * a hash collision; the source's lookup (UpdateAndGetAsWritten) does
     * not, so from a cache it has left stale it can hand back the mesh
     * built for other inputs.
     */
    method UpdateAndGetQuadLayerMesh(bufferWidth: nat, bufferHeight: nat, ndc: LayoutCoords, whichEye: int, hash: int)
      returns (slot: Option<int>)
      requires Valid() && Consistent()
      modifies this, indexToHash, usage, meshes
      ensures Valid() && Consistent()
      ensures slot.None? <==> bufferWidth == 0 || bufferHeight == 0 || !QuadVisible(ndc)
      ensures slot.None? ==>
        && hashToIndex == old(hashToIndex) && hashToInputs == old(hashToInputs)
        && usage[..] == old(usage[..]) && meshes[..] == old(meshes[..]) && indexToHash[..] == old(indexToHash[..])
      ensures slot.Some? ==>
        && 0 <= slot.value < CacheSize && meshes[slot.value] == HashInputs(ndc, whichEye)
        && hash in hashToIndex && hashToIndex[hash] == slot.value && hashToInputs[hash] == HashInputs(ndc, whichEye)
    {
      if bufferWidth == 0 || bufferHeight == 0 {
        return None;
      }
      if !QuadVisible(ndc) {
        return None;
      }
      var s := UpdateAndGet(HashInputs(ndc, whichEye), hash);
      slot := Some(s);
    }

    /**
     * UpdateAndGetQuadLayerMesh as written: on a collision the slot is
     * rebuilt from the new inputs but the hash keeps the old inputs, so the
     * cache is no longer consistent and a later request with the old
     * inputs is served the new mesh.
     */
    method UpdateAndGetAsWritten(inputs: seq<int>, hash: int) returns (slot: int)
      requires Valid() && Consistent() && |inputs| == HashInputCount
      modifies this, indexToHash, usage, meshes
      ensures Valid()
      ensures 0 <= slot < CacheSize && meshes[slot] == inputs
      ensures hash in old(hashToIndex) && old(hashToInputs[hash]) != inputs ==>
        && slot == old(hashToIndex[hash]) && hashToInputs == old(hashToInputs)
        && hashToIndex[hash] == slot && hashToInputs[hash] != meshes[slot]
        && !Consistent()
    {
      if hash in hashToIndex {
        slot := hashToIndex[hash];
        if hashToInputs[hash] == inputs {
          usage[slot] := usage[slot] + 1;
          assert Used(usage[..]) == Used(old(usage[..]));
          return;
        }
        CollisionAsWrittenBreaksMatch(hashToIndex, hashToInputs, indexToHash[..], usage[..], meshes[..], hash, inputs);
        meshes[slot] := inputs;
        usage[slot] := 1;
        assert Used(usage[..]) == Used(old(usage[..]));
        return;
      }
      slot := Insert(hash, inputs);
    }
  }
}
