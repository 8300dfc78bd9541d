/**
 * What `createCulturalMarker` and the type badge of `createPopupContent`
 * compute from a site's category: the marker colour (with its fallback),
 * the icon path (with its fallback) cut into the `<path>` elements appended
 * to the marker's SVG, and the capitalised category label.
 */
module MarkerFactory {
  import opened Text
  import opened Catalog

  /** The colour used for a category that `COLOR_MAP` does not know. */
  const FallbackColor: string := "#3b82f6"

  const ColorMap: map<string, string> := map[
    "restaurant" := "#ef4444",
    "cafe" := "#f59e0b",
    "landmark" := "#3b82f6",
    "historical" := "#8b5cf6",
    "shopping" := "#ec4899",
    "photo" := "#10b981"
  ]

  /** The category whose icon stands in for an unknown category. */
  const FallbackIcon: string := "photo"

  const IconPaths: map<string, string> := map[
    "restaurant" := "M3 2v7c0 1.1.9 2 2 2h4a2 2 0 0 0 2-2V2M7 2v20M21 15V2a5 5 0 0 0-5 5v6c0 1.1.9 2 2 2h3Zm0 0v7",
    "cafe" := "M10 2v2m4-2v2M6 8h12a2 2 0 0 1 2 2v9a4 4 0 0 1-4 4H8a4 4 0 0 1-4-4v-9a2 2 0 0 1 2-2Zm11 2h1a4 4 0 0 1 0 8h-1",
    "landmark" := "m3 21 18 0M4 18h16M6 18v-4m4 4v-4m4 4v-4m4 4v-4M4 14h16M6 14 12 9 18 14M12 9V6m-2-1h4",
    "historical" := "m3 21 18 0M6 18h12M6 18v-8l6-4 6 4v8M10 18v-5h4v5",
    "shopping" := "M6 2 3 6v14a2 2 0 0 0 2 2h14a2 2 0 0 0 2-2V6l-3-4ZM3 6h18M16 10a4 4 0 0 1-8 0",
    "photo" := "m12 3-1.912 5.813a2 2 0 0 1-1.275 1.275L3 12l5.813 1.912a2 2 0 0 1 1.275 1.275L12 21l1.912-5.813a2 2 0 0 1 1.275-1.275L21 12l-5.813-1.912a2 2 0 0 1-1.275-1.275L12 3Z"
  ]

  /**
   * `COLOR_MAP[category] || "#3b82f6"`.  The fallback is the landmark colour,
   * so every marker is drawn in a colour the category legend shows.
   */
  function ColorFor(category: string): (c: string)
    ensures c in ColorMap.Values
    ensures category !in ColorMap ==> c == FallbackColor
    ensures category in ColorMap ==> c == ColorMap[category]
  {
    assert ColorMap["landmark"] == FallbackColor;
    if category in ColorMap then ColorMap[category] else FallbackColor
  }

  /** `iconPaths[category] || iconPaths.photo`: an unknown category gets the photo icon. */
  function IconPathFor(category: string): (p: string)
    ensures p in IconPaths.Values
    ensures category !in IconPaths ==> p == IconPaths[FallbackIcon]
    ensures category in IconPaths ==> p == IconPaths[category]
  {
    if category in IconPaths then IconPaths[category] else IconPaths[FallbackIcon]
  }

  // ---------------------------------------------------------------------------
  // Cutting an SVG path string before every move-to command

  /** An SVG move-to command letter, absolute or relative. */
  predicate IsMove(c: char)
  {
    c == 'M' || c == 'm'
  }

  /** The end of the piece starting at `i`: the next move-to letter after `i`, or the end. */
  function NextCut(s: string, i: nat): (j: nat)
    requires i < |s|
    ensures i < j <= |s|
    ensures j < |s| ==> IsMove(s[j])
    ensures forall k :: i < k < j ==> !IsMove(s[k])
    decreases |s| - i
  {
    if i + 1 == |s| || IsMove(s[i + 1]) then i + 1 else NextCut(s, i + 1)
  }

  function PiecesFrom(s: string, i: nat): seq<string>
    requires i <= |s|
    decreases |s| - i
  {
    if i == |s| then [] else var j := NextCut(s, i); [s[i..j]] + PiecesFrom(s, j)
  }

  /**
   * `s.split(/(?=[Mm])/)`: the zero-width lookahead cuts before every `M` or
   * `m` except one at index 0 (an empty match where the previous piece
   * starts is skipped), and the empty string splits into one empty piece.
   */
  function Pieces(s: string): seq<string>
  {
    if s == [] then [[]] else PiecesFrom(s, 0)
  }

  /** The pieces glued back together. */
  function Concat(ps: seq<string>): string
  {
    if ps == [] then [] else Concat(ps[..|ps| - 1]) + ps[|ps| - 1]
  }

  /** A piece has no move-to letter except, possibly, its first character. */
  predicate NoInnerMove(p: string)
  {
    forall t :: 0 < t < |p| ==> !IsMove(p[t])
  }

  /** A piece of the split: non-empty, a move-to letter only at its start, and one there when `cut`. */
  predicate IsPiece(p: string, cut: bool)
  {
    p != [] && NoInnerMove(p) && (cut ==> IsMove(p[0]))
  }

  lemma {:induction false} PiecesFromAreCut(s: string, i: nat)
    requires i < |s|
    requires i > 0 ==> IsMove(s[i])
    ensures |PiecesFrom(s, i)| > 0
    ensures forall k :: 0 <= k < |PiecesFrom(s, i)| ==> IsPiece(PiecesFrom(s, i)[k], k > 0 || i > 0)
    decreases |s| - i
  {
    var j := NextCut(s, i);
    var ps := PiecesFrom(s, i);
    assert ps[0] == s[i..j];
    assert IsPiece(ps[0], i > 0);
    if j < |s| {
      PiecesFromAreCut(s, j);
      var rest := PiecesFrom(s, j);
      assert ps == [s[i..j]] + rest;
      forall k | 0 < k < |ps| ensures IsPiece(ps[k], true) {
        assert ps[k] == rest[k - 1];
      }
    }
  }

  lemma {:induction false} PiecesFromConcat(s: string, i: nat)
    requires i <= |s|
    ensures Concat(PiecesFrom(s, i)) == s[i..]
    decreases |s| - i
  {
    if i < |s| {
      var j := NextCut(s, i);
      PiecesFromConcat(s, j);
      ConcatCons(s[i..j], PiecesFrom(s, j));
      assert s[i..] == s[i..j] + s[j..];
    }
  }

  lemma {:induction false} ConcatCons(p: string, ps: seq<string>)
    ensures Concat([p] + ps) == p + Concat(ps)
    decreases |ps|
  {
    if ps == [] {
      assert [p] + ps == [p];
      assert Concat([p]) == Concat([]) + p;
    } else {
      assert ([p] + ps)[..|ps|] == [p] + ps[..|ps| - 1];
      ConcatCons(p, ps[..|ps| - 1]);
    }
  }

  /**
   * The pieces of the split: nothing is lost (they concatenate back to the
   * input), every piece after the first starts with a move-to letter, and no
   * piece holds a move-to letter anywhere else, so every cut the split makes
   * is one it had to make; and a non-empty string does not start with an
   * empty piece, so these facts determine the pieces.
   */
  lemma PiecesShape(s: string)
    ensures Concat(Pieces(s)) == s
    ensures |Pieces(s)| > 0
    ensures forall k :: 0 <= k < |Pieces(s)| ==> NoInnerMove(Pieces(s)[k])
    ensures forall k :: 0 < k < |Pieces(s)| ==> Pieces(s)[k] != [] && IsMove(Pieces(s)[k][0])
    ensures s != [] ==> Pieces(s)[0] != []
  {
    if s == [] {
      assert Concat([[]]) == Concat([]) + [];
    } else {
      PiecesFromAreCut(s, 0);
      PiecesFromConcat(s, 0);
      assert s[0..] == s;
      assert IsPiece(Pieces(s)[0], false);
      forall k | 0 < k < |Pieces(s)| ensures Pieces(s)[k] != [] && IsMove(Pieces(s)[k][0]) {
        assert IsPiece(Pieces(s)[k], true);
      }
    }
  }

  // ---------------------------------------------------------------------------
  // The `<path>` elements appended to the marker icon

  /** What one piece contributes: `[segment.trim()]` when that is non-blank, else nothing. */
  function PathsOf(piece: string): (r: seq<string>)
  {
    if IsBlank(piece) then [] else [Trim(piece)]
  }

  /** The `d` attributes of the appended `<path>` elements, in order. */
  function Segments(pieces: seq<string>): seq<string>
  {
    if pieces == [] then [] else Segments(pieces[..|pieces| - 1]) + PathsOf(pieces[|pieces| - 1])
  }

  /** One more piece appends what that piece contributes. */
  lemma SegmentsSnoc(pieces: seq<string>, i: nat)
    requires i < |pieces|
    ensures Segments(pieces[..i + 1]) == Segments(pieces[..i]) + PathsOf(pieces[i])
  {
    assert pieces[..i + 1][..i] == pieces[..i];
  }

  /** The path elements for a path string. */
  function IconSegments(pathData: string): seq<string>
  {
    Segments(Pieces(pathData))
  }

  /** Every `d` is non-blank and trimmed, and every one after the first starts with a move-to letter. */
  predicate GoodSegments(segs: seq<string>)
  {
    forall k :: 0 <= k < |segs| ==> segs[k] != [] && IsTrimmed(segs[k]) && (k > 0 ==> IsMove(segs[k][0]))
  }

  lemma {:induction false} SegmentsWellFormed(pieces: seq<string>)
    requires forall k :: 0 < k < |pieces| ==> pieces[k] != [] && IsMove(pieces[k][0])
    ensures GoodSegments(Segments(pieces))
    decreases |pieces|
  {
    if pieces != [] {
      var init := pieces[..|pieces| - 1];
      var last := pieces[|pieces| - 1];
      SegmentsWellFormed(init);
      var before := Segments(init);
      var segs := before + PathsOf(last);
      assert Segments(pieces) == segs;
      forall k | 0 <= k < |segs|
        ensures segs[k] != [] && IsTrimmed(segs[k]) && (k > 0 ==> IsMove(segs[k][0]))
      {
        if k < |before| {
          assert segs[k] == before[k];
        } else {
          assert segs[k] == Trim(last);
          if k > 0 {
            // The segment is not the first, so neither is its piece.
            assert init == [] ==> before == [];
            assert IsMove(last[0]);
          }
        }
      }
    }
  }

  /** The positions of the non-blank pieces, in increasing order. */
  function Kept(pieces: seq<string>): (r: seq<nat>)
    ensures forall k :: 0 <= k < |r| ==> r[k] < |pieces| && !IsBlank(pieces[r[k]])
    ensures forall j, k :: 0 <= j < k < |r| ==> r[j] < r[k]
  {
    if pieces == [] then []
    else
      var init := pieces[..|pieces| - 1];
      var before := Kept(init);
      assert forall i :: 0 <= i < |init| ==> init[i] == pieces[i];
      before + if IsBlank(pieces[|pieces| - 1]) then [] else [|pieces| - 1]
  }

  /** Every non-blank piece is kept. */
  lemma {:induction false} KeptComplete(pieces: seq<string>)
    ensures forall i :: 0 <= i < |pieces| && !IsBlank(pieces[i]) ==> i in Kept(pieces)
    decreases |pieces|
  {
    if pieces != [] {
      var n := |pieces| - 1;
      var init := pieces[..n];
      KeptComplete(init);
      assert Kept(pieces) == Kept(init) + if IsBlank(pieces[n]) then [] else [n];
      forall i | 0 <= i < |pieces| && !IsBlank(pieces[i]) ensures i in Kept(pieces) {
        if i < n {
          assert init[i] == pieces[i];
        }
      }
    }
  }

  /** The `k`-th `<path>` is the trimmed `k`-th non-blank piece: nothing else is appended, nothing reordered. */
  lemma {:induction false} SegmentsAreKeptPieces(pieces: seq<string>)
    ensures |Segments(pieces)| == |Kept(pieces)|
    ensures forall k :: 0 <= k < |Segments(pieces)| ==> Segments(pieces)[k] == Trim(pieces[Kept(pieces)[k]])
    decreases |pieces|
  {
    if pieces != [] {
      var n := |pieces| - 1;
      var init := pieces[..n];
      var last := pieces[n];
      SegmentsAreKeptPieces(init);
      var segs, before := Segments(init), Kept(init);
      assert Segments(pieces) == segs + PathsOf(last);
      assert Kept(pieces) == before + if IsBlank(last) then [] else [n];
      forall k | 0 <= k < |Segments(pieces)|
        ensures Segments(pieces)[k] == Trim(pieces[Kept(pieces)[k]])
      {
        if k < |segs| {
          assert Segments(pieces)[k] == segs[k] && Kept(pieces)[k] == before[k];
          assert init[before[k]] == pieces[before[k]];
        } else {
          assert Segments(pieces)[k] == Trim(last) && Kept(pieces)[k] == n;
        }
      }
    }
  }

  /**
   * Every `<path>` the icon receives has a non-blank, trimmed `d`, and every
   * one after the first starts with a move-to command.
   */
  lemma IconSegmentsWellFormed(pathData: string)
    ensures GoodSegments(IconSegments(pathData))
    ensures var pieces := Pieces(pathData);
            && |IconSegments(pathData)| == |Kept(pieces)|
            && (forall k :: 0 <= k < |Kept(pieces)| ==> IconSegments(pathData)[k] == Trim(pieces[Kept(pieces)[k]]))
            && (forall i :: 0 <= i < |pieces| && !IsBlank(pieces[i]) ==> i in Kept(pieces))
  {
    SegmentsAreKeptPieces(Pieces(pathData));
    KeptComplete(Pieces(pathData));
    PiecesShape(pathData);
    SegmentsWellFormed(Pieces(pathData));
  }

  /** The marker element `createCulturalMarker` builds, less its click listener. */
  datatype MarkerElement = MarkerElement(className: string, color: string, paths: seq<string>)

  /**
   * `createCulturalMarker`: colour the element by category and append one
   * `<path>` per non-blank piece of the category's icon path.
   */
  method CreateCulturalMarker(site: Site) returns (el: MarkerElement)
    ensures el.className == "cultural-marker"
    ensures el.color == ColorFor(site.category)
    ensures el.paths == IconSegments(IconPathFor(site.category))
  {
    var paths := BuildIconPaths(IconPathFor(site.category));
    el := MarkerElement("cultural-marker", ColorFor(site.category), paths);
  }

  /** The `forEach` over the split pieces: append `segment.trim()` for every non-blank piece. */
  method BuildIconPaths(pathData: string) returns (paths: seq<string>)
    ensures paths == IconSegments(pathData)
  {
    var pieces := Pieces(pathData);
    paths := [];
    var i := 0;
    while i < |pieces|
      invariant 0 <= i <= |pieces|
      invariant paths == Segments(pieces[..i])
    {
      SegmentsSnoc(pieces, i);
      var segment := pieces[i];
      if !IsBlank(segment) {
        paths := paths + [Trim(segment)];
      }
      i := i + 1;
    }
    assert pieces[..|pieces|] == pieces;
  }

  // ---------------------------------------------------------------------------
  // The category badge

  /** `category.charAt(0).toUpperCase() + category.slice(1)`. */
  function TypeLabel(category: string): (badge: string)
    ensures |badge| == |category|
    ensures category != [] ==> badge[1..] == category[1..]
    ensures badge != [] ==> !('a' <= badge[0] <= 'z') && LowerChar(badge[0]) == LowerChar(category[0])
  {
    if category == [] then [] else [UpperChar(category[0])] + category[1..]
  }
}
