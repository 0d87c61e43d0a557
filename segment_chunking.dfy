/**
 * The streaming segmenter's output depends on where the chunks are cut.
 * A period at the very end of a chunk counts as a sentence end, because
 * the decimal-point test (a digit on both sides) cannot see the digit that
 * the next chunk brings. So "3." followed by "14" gives two segments,
 * while "3.14" in one chunk gives one.
 */
module SegmentChunking {
  import opened Text
  import opened Wrappers
  import PauseTag
  import opened Segmenter

  /** Where the three texts have boundaries: only the final period of "3." closes a segment. */
  lemma {:induction false} DecimalBoundaries()
    ensures BoundaryAt("3.", 0) == None && BoundaryAt("3.", 1) == Some(2)
    ensures BoundaryAt("14", 0) == None && BoundaryAt("14", 1) == None
    ensures forall k :: 0 <= k < 4 ==> BoundaryAt("3.14", k) == None
  {
    assert PauseTag.TagAt("3.", 0, MaxTagDigits, false) == None;
    assert PauseTag.TagAt("3.", 1, MaxTagDigits, false) == None;
    assert RunLength("3.", 1, '.') == 1 by {
      assert RunLength("3.", 2, '.') == 0;
    }
    assert TokenStart("3.", 1) == 1;
    assert CloserEnd("3.", 2) == 2;
    assert PauseTag.TagAt("14", 0, MaxTagDigits, false) == None;
    assert PauseTag.TagAt("14", 1, MaxTagDigits, false) == None;
    var s := "3.14";
    assert PauseTag.TagAt(s, 0, MaxTagDigits, false) == None;
    assert PauseTag.TagAt(s, 1, MaxTagDigits, false) == None;
    assert PauseTag.TagAt(s, 2, MaxTagDigits, false) == None;
    assert PauseTag.TagAt(s, 3, MaxTagDigits, false) == None;
    assert RunLength(s, 1, '.') == 1 by {
      assert RunLength(s, 2, '.') == 0;
    }
    assert IsDecimalPoint(s, 1);
  }

  lemma {:induction false} NoBoundaryScan(s: string, i: nat)
    requires i <= |s| && Advances(Boundary)
    requires forall k :: i <= k < |s| ==> BoundaryAt(s, k) == None
    ensures ScanWith(Boundary, s, i) == ([], s)
    decreases |s| - i
  {
    if i < |s| {
      assert Boundary(s, i) == None;
      NoBoundaryScan(s, i + 1);
    }
  }

  /** A text without any boundary is kept whole as the tail. */
  lemma NoBoundaryKeepsAll(s: string, i: nat)
    requires i <= |s|
    requires forall k :: i <= k < |s| ==> BoundaryAt(s, k) == None
    ensures Scan(s, i) == ([], s)
  {
    BoundaryAdvances();
    NoBoundaryScan(s, i);
  }

  /** What one `push` of each text yields on an empty tail. */
  lemma SegmentsOfChunks()
    ensures Segment("3.") == (["3."], "")
    ensures Segment("14") == ([], "14")
    ensures Segment("3.14") == ([], "3.14")
  {
    DecimalBoundaries();
    BoundaryAdvances();
    NoBoundaryKeepsAll("14", 0);
    NoBoundaryKeepsAll("3.14", 0);
    var s := "3.";
    assert s[..2] == "3." && s[2..] == [];
    var tailScan := ScanWith(Boundary, s[2..], 0);
    assert tailScan == ([], []);
    assert Boundary(s, 1) == Some(2);
    assert ScanWith(Boundary, s, 1) == ([s[..2]] + tailScan.0, tailScan.1);
    assert [s[..2]] + tailScan.0 == ["3."];
    assert Boundary(s, 0) == None;
  }

  /** `push("3.")`, `push("14")`, `flush()` on a fresh segmenter. */
  method PushInTwoChunks() returns (segments: seq<string>)
    ensures segments == ["3.", "14"]
  {
    SegmentsOfChunks();
    var g := new StreamSegmenter();
    var r1, _ := g.Push("3.");
    assert [] + "3." == "3.";
    var r2, _ := g.Push("14");
    assert [] + "14" == "14";
    assert !IsBlank("14") by {
      assert !IsSpace("14"[0]);
    }
    var f := g.Flush();
    segments := r1 + r2 + f;
  }

  /** `push("3.14")`, `flush()` on a fresh segmenter. */
  method PushInOneChunk() returns (segments: seq<string>)
    ensures segments == ["3.14"]
  {
    SegmentsOfChunks();
    var g := new StreamSegmenter();
    var r, _ := g.Push("3.14");
    assert [] + "3.14" == "3.14";
    assert !IsBlank("3.14") by {
      assert !IsSpace("3.14"[0]);
    }
    var f := g.Flush();
    segments := r + f;
  }

  /**
   * Cutting the same text into different chunks changes the segments:
   * "3." then "14" gives two segments, "3.14" at once gives one.
   */
  method ChunkingChangesSegments() returns (chunked: seq<string>, whole: seq<string>)
    ensures chunked == ["3.", "14"] && whole == ["3.14"]
    ensures Concat(chunked) == Concat(whole) && chunked != whole
  {
    chunked := PushInTwoChunks();
    whole := PushInOneChunk();
    assert Concat(chunked) == "3." + Concat(["14"]);
    assert Concat(whole) == "3.14" + Concat([]);
  }
}
