/** How the document generator arranges the report photos into rows of
    frames. The display mode is accepted and ignored. Nothing in the source
    calls this helper: the exported report uses the template's gallery. */
module FrameLayout {
  import opened Seqs

  /** `getImageFrameLayoutForCount`: the photo indexes of each row. */
  function FrameLayoutForCount(imageCount: int): (r: seq<seq<nat>>)
    ensures imageCount <= 0 <==> r == []
    ensures |r| <= 2
  {
    if imageCount <= 0 then []
    else if imageCount == 1 then [[0]]
    else if imageCount == 2 then [[0, 1]]
    else if imageCount == 3 then [[0, 1, 2]]
    else if imageCount == 4 then [[0, 1], [2, 3]]
    else if imageCount == 5 then [[0, 1, 2], [3, 4]]
    else if imageCount == 6 then [[0, 1, 2], [3, 4, 5]]
    else if imageCount == 7 then [[0, 1, 2, 3], [4, 5, 6]]
    else if imageCount == 8 then [[0, 1, 2, 3], [4, 5, 6, 7]]
    else [[0, 1, 2], [3, 4, 5]]
  }

  /** The rows one after the other. */
  function Flatten(rows: seq<seq<nat>>): seq<nat>
    decreases |rows|
  {
    if rows == [] then [] else rows[0] + Flatten(rows[1..])
  }

  /** Reference arrangement: up to three photos share one row; four to
      eight are split in two rows with the longer one first; more than
      eight fall back to two rows of three. */
  function BalancedRows(n: int): (r: seq<seq<nat>>)
  {
    if n <= 0 then []
    else if n <= 3 then [Range(0, n)]
    else if n <= 8 then [Range(0, (n + 1) / 2), Range((n + 1) / 2, n / 2)]
    else [Range(0, 3), Range(3, 3)]
  }

  lemma FlattenRows(row: seq<nat>, rest: seq<seq<nat>>)
    ensures Flatten([row] + rest) == row + Flatten(rest)
  {
    assert ([row] + rest)[1..] == rest;
  }

  /** The table in the source is the balanced arrangement, for every count. */
  lemma FrameLayoutIsBalanced(n: int)
    ensures FrameLayoutForCount(n) == BalancedRows(n)
  {
    var r := BalancedRows(n);
    if 1 <= n <= 3 {
      assert r[0] == FrameLayoutForCount(n)[0];
    } else if 4 <= n <= 8 {
      assert r[0] == FrameLayoutForCount(n)[0];
      assert r[1] == FrameLayoutForCount(n)[1];
    } else if n > 8 {
      assert r[0] == [0, 1, 2];
      assert r[1] == [3, 4, 5];
    }
  }

  /** For one to eight photos every photo gets exactly one frame, in order;
      beyond eight only the first six are framed. */
  lemma FramesCoverPhotos(n: int)
    ensures 1 <= n <= 8 ==> Flatten(FrameLayoutForCount(n)) == Range(0, n)
    ensures n > 8 ==> Flatten(FrameLayoutForCount(n)) == Range(0, 6)
  {
    FrameLayoutIsBalanced(n);
    if 1 <= n <= 3 {
      FlattenRows(Range(0, n), []);
    } else if 4 <= n {
      var h := if n <= 8 then (n + 1) / 2 else 3;
      var m := if n <= 8 then n else 6;
      var rows := [Range(0, h), Range(h, m - h)];
      FlattenRows(Range(0, h), [Range(h, m - h)]);
      FlattenRows(Range(h, m - h), []);
      assert Range(0, h) + Range(h, m - h) == Range(0, m);
    }
  }
}
