/**
 * The integer-array encoding of semantic tokens of the Language Server
 * Protocol 3.17 ("Semantic Tokens": five unsigned integers per token), the
 * splice edits of a `SemanticTokensDelta`, and the group-aligned walk that
 * reads invalidated ranges out of such an array.
 *
 * Everything here is a specification function or a lemma about one; the
 * store in module TokenStorage runs the same steps imperatively and is proved
 * against these definitions.
 */
module TokenDelta {
  import opened Wrappers

  /** Swift's `UInt32`, the element type of the token array. */
  newtype UInt32 = x: int | 0 <= x < 0x1_0000_0000

  /** One token as the store keeps it: five fields, copied positionally. */
  datatype SemanticToken = SemanticToken(
    line: UInt32, character: UInt32, length: UInt32, tokenType: UInt32, modifiers: UInt32)

  /** A region handed back to the editor for redrawing. */
  datatype SemanticTokenRange = SemanticTokenRange(line: UInt32, character: UInt32, length: UInt32)

  /** A `SemanticTokensEdit`: `start` and `deleteCount` index the integer array, not tokens. */
  datatype SemanticTokensEdit = SemanticTokensEdit(start: nat, deleteCount: nat, data: Option<seq<UInt32>>)

  // ---------------------------------------------------------------------------
  // Invalidated ranges: the group-aligned walk

  /** `startIdx - (startIdx % 5)`: the offset of the group holding index `s`. */
  function AlignDown(s: nat): (a: nat)
    ensures a <= s && a % 5 == 0 && s - a < 5
  {
    s - s % 5
  }

  /** The first three integers of the group at offset `k`. */
  function RangeAt(d: seq<UInt32>, k: nat): SemanticTokenRange
    requires k + 2 < |d|
  {
    SemanticTokenRange(d[k], d[k + 1], d[k + 2])
  }

  /** A walk from offset `k` in steps of 5 while below `end` reads only inside an array of `size` integers. */
  predicate WalkInBounds(k: nat, end: nat, size: nat)
    decreases end - k
  {
    end <= k || (k + 2 < size && WalkInBounds(k + 5, end, size))
  }

  /** The ranges read at offsets `k`, `k + 5`, ... below `end`. */
  function Walk(k: nat, end: nat, d: seq<UInt32>): seq<SemanticTokenRange>
    requires WalkInBounds(k, end, |d|)
    decreases end - k
  {
    if end <= k then [] else [RangeAt(d, k)] + Walk(k + 5, end, d)
  }

  /** How many offsets `k`, `k + 5`, ... lie below `end`. */
  function GroupCount(k: nat, end: nat): nat
  {
    if end <= k then 0 else (end - k + 4) / 5
  }

  lemma GroupCountStep(k: nat, end: nat)
    requires k < end
    ensures GroupCount(k + 5, end) == GroupCount(k, end) - 1
  {
    var x := end - k + 4;
    var q, r := x / 5, x % 5;
    assert x == 5 * q + r && 0 <= r < 5;
    if end > k + 5 {
      var q', r' := (x - 5) / 5, (x - 5) % 5;
      assert x - 5 == 5 * q' + r' && 0 <= r' < 5;
      assert q' == q - 1;
    }
  }

  /** The walk from `k` emits one range per visited offset, the `i`-th read at `k + 5 * i`. */
  lemma {:induction false} WalkShape(k: nat, end: nat, d: seq<UInt32>)
    requires WalkInBounds(k, end, |d|)
    ensures |Walk(k, end, d)| == GroupCount(k, end)
    ensures forall i :: 0 <= i < GroupCount(k, end) ==>
              k + 5 * i + 2 < |d| && Walk(k, end, d)[i] == RangeAt(d, k + 5 * i)
    decreases end - k
  {
    if end > k {
      var tail := Walk(k + 5, end, d);
      assert Walk(k, end, d) == [RangeAt(d, k)] + tail;
      WalkShape(k + 5, end, d);
      GroupCountStep(k, end);
      forall i | 0 <= i < GroupCount(k, end)
        ensures k + 5 * i + 2 < |d| && Walk(k, end, d)[i] == RangeAt(d, k + 5 * i)
      {
        if i > 0 {
          var j := i - 1;
          assert Walk(k, end, d)[i] == tail[j];
          assert k + 5 + 5 * j == k + 5 * i;
        }
      }
    }
  }

  /** The recursive bounds condition says exactly: the last offset visited can be read. */
  lemma {:induction false} WalkInBoundsClosedForm(k: nat, end: nat, size: nat)
    ensures WalkInBounds(k, end, size) <==> (end <= k || k + 5 * ((end - k - 1) / 5) + 2 < size)
    decreases end - k
  {
    if end > k {
      WalkInBoundsClosedForm(k + 5, end, size);
      if end > k + 5 {
        assert (end - k - 1) / 5 == (end - (k + 5) - 1) / 5 + 1;
      }
    }
  }

  /** `invalidatedRanges(startIdx: s, length: n, data: d)` can read every group it visits. */
  predicate RangesReadable(s: nat, n: nat, size: nat)
  {
    WalkInBounds(AlignDown(s), s + n, size)
  }

  /** What `invalidatedRanges(startIdx: s, length: n, data: d)` returns. */
  function Invalidated(s: nat, n: nat, d: seq<UInt32>): seq<SemanticTokenRange>
    requires RangesReadable(s, n, |d|)
  {
    Walk(AlignDown(s), s + n, d)
  }

  /**
   * The `i`-th range is read at offset `k = (s - s % 5) + 5 * i`, a multiple
   * of 5 with `s - s % 5 <= k < s + n`: ranges come in increasing `k`.
   */
  lemma InvalidatedAt(s: nat, n: nat, d: seq<UInt32>, i: nat)
    requires RangesReadable(s, n, |d|)
    requires i < |Invalidated(s, n, d)|
    ensures (AlignDown(s) + 5 * i) % 5 == 0
    ensures AlignDown(s) <= AlignDown(s) + 5 * i < s + n
    ensures AlignDown(s) + 5 * i + 2 < |d|
    ensures Invalidated(s, n, d)[i] == RangeAt(d, AlignDown(s) + 5 * i)
  {
    WalkShape(AlignDown(s), s + n, d);
    VisitedOffsetBelowEnd(AlignDown(s), s + n, i);
  }

  /** Conversely, every multiple `k` of 5 with `s - s % 5 <= k < s + n` has its range in the list. */
  lemma InvalidatedCovers(s: nat, n: nat, d: seq<UInt32>, k: nat)
    requires RangesReadable(s, n, |d|)
    requires AlignDown(s) <= k < s + n && k % 5 == 0
    ensures (k - AlignDown(s)) / 5 < |Invalidated(s, n, d)|
    ensures k + 2 < |d|
    ensures Invalidated(s, n, d)[(k - AlignDown(s)) / 5] == RangeAt(d, k)
  {
    WalkShape(AlignDown(s), s + n, d);
    AlignedOffsetIsVisited(AlignDown(s), s + n, k);
  }

  lemma VisitedOffsetBelowEnd(a: nat, end: nat, i: nat)
    requires i < GroupCount(a, end)
    ensures a + 5 * i < end
  {
  }

  lemma AlignedOffsetIsVisited(a: nat, end: nat, k: nat)
    requires a % 5 == 0 && k % 5 == 0 && a <= k < end
    ensures (k - a) / 5 < GroupCount(a, end) && a + 5 * ((k - a) / 5) == k
  {
    assert (k - a) % 5 == 0;
  }

  /** An aligned start with nothing to cover reads nothing; an unaligned one reads its own group. */
  lemma InvalidatedEmptySpan(s: nat, d: seq<UInt32>)
    requires RangesReadable(s, 0, |d|)
    ensures s % 5 == 0 ==> Invalidated(s, 0, d) == []
    ensures s % 5 != 0 ==> Invalidated(s, 0, d) == [RangeAt(d, AlignDown(s))]
  {
    if s % 5 != 0 {
      assert s <= AlignDown(s) + 5;
      assert Walk(AlignDown(s) + 5, s, d) == [];
    }
  }

  // ---------------------------------------------------------------------------
  // One edit: a splice

  /** `edit.data ?? []`. */
  function Inserted(e: SemanticTokensEdit): seq<UInt32>
  {
    if e.data.Some? then e.data.value else []
  }

  /** The deleted span lies inside the array (otherwise Swift's `replaceSubrange`/`insert` trap). */
  predicate SpliceFits(d: seq<UInt32>, e: SemanticTokensEdit)
  {
    e.start + e.deleteCount <= |d|
  }

  /** The array after one edit: `deleteCount` integers at `start` replaced by the edit's data. */
  function Splice(d: seq<UInt32>, e: SemanticTokensEdit): (r: seq<UInt32>)
    requires SpliceFits(d, e)
    ensures |r| == |d| - e.deleteCount + |Inserted(e)|
  {
    d[..e.start] + Inserted(e) + d[e.start + e.deleteCount..]
  }

  /**
   * Integers before `start` stay where they are, the edit's data follows,
   * and the integers after the deleted span keep their order, shifted by the
   * change in length.
   */
  lemma SpliceElements(d: seq<UInt32>, e: SemanticTokensEdit)
    requires SpliceFits(d, e)
    ensures forall i :: 0 <= i < e.start ==> Splice(d, e)[i] == d[i]
    ensures forall i :: 0 <= i < |Inserted(e)| ==> Splice(d, e)[e.start + i] == Inserted(e)[i]
    ensures forall i :: e.start + e.deleteCount <= i < |d| ==>
              Splice(d, e)[i - e.deleteCount + |Inserted(e)|] == d[i]
  {
  }

  /** Nothing the store does for edit `e` on array `d` traps. */
  predicate EditStepOk(d: seq<UInt32>, e: SemanticTokensEdit)
  {
    && SpliceFits(d, e)
    && RangesReadable(e.start, e.deleteCount, |d|)
    && (e.data.Some? ==> RangesReadable(e.start, |e.data.value|, |Splice(d, e)|))
  }

  /**
   * The ranges invalidated by one edit: the groups over the deleted span read
   * before the splice, then, when the edit carries data, the groups over the
   * inserted span read after it.
   */
  function EditRanges(d: seq<UInt32>, e: SemanticTokensEdit): seq<SemanticTokenRange>
    requires EditStepOk(d, e)
  {
    Invalidated(e.start, e.deleteCount, d)
      + (if e.data.Some? then Invalidated(e.start, |e.data.value|, Splice(d, e)) else [])
  }

  // ---------------------------------------------------------------------------
  // A batch of edits, applied one after the other to a working copy

  predicate EditsApplicable(d: seq<UInt32>, es: seq<SemanticTokensEdit>)
    decreases |es|
  {
    es == [] || (EditStepOk(d, es[0]) && EditsApplicable(Splice(d, es[0]), es[1..]))
  }

  function ApplyEdits(d: seq<UInt32>, es: seq<SemanticTokensEdit>): seq<UInt32>
    requires EditsApplicable(d, es)
    decreases |es|
  {
    if es == [] then d else ApplyEdits(Splice(d, es[0]), es[1..])
  }

  function BatchRanges(d: seq<UInt32>, es: seq<SemanticTokensEdit>): seq<SemanticTokenRange>
    requires EditsApplicable(d, es)
    decreases |es|
  {
    if es == [] then [] else EditRanges(d, es[0]) + BatchRanges(Splice(d, es[0]), es[1..])
  }

  /** One step of a batch: the first edit, then the rest on the spliced array. */
  lemma BatchStep(d: seq<UInt32>, es: seq<SemanticTokensEdit>)
    requires es != [] && EditsApplicable(d, es)
    ensures EditStepOk(d, es[0]) && EditsApplicable(Splice(d, es[0]), es[1..])
    ensures ApplyEdits(d, es) == ApplyEdits(Splice(d, es[0]), es[1..])
    ensures BatchRanges(d, es) == EditRanges(d, es[0]) + BatchRanges(Splice(d, es[0]), es[1..])
  {
  }

  /** The sum over the edits of `(data?.count ?? 0) - deleteCount`. */
  function NetGrowth(es: seq<SemanticTokensEdit>): int
  {
    if es == [] then 0 else |Inserted(es[0])| - es[0].deleteCount + NetGrowth(es[1..])
  }

  /** Each edit changes the length by what it inserts minus what it deletes. */
  lemma {:induction false} ApplyEditsLength(d: seq<UInt32>, es: seq<SemanticTokensEdit>)
    requires EditsApplicable(d, es)
    ensures |ApplyEdits(d, es)| == |d| + NetGrowth(es)
    decreases |es|
  {
    if es != [] {
      ApplyEditsLength(Splice(d, es[0]), es[1..]);
    }
  }

  /** Integers below every edit's `start` are left where they were. */
  lemma {:induction false} ApplyEditsKeepsPrefix(d: seq<UInt32>, es: seq<SemanticTokensEdit>, p: nat)
    requires EditsApplicable(d, es)
    requires p <= |d|
    requires forall j :: 0 <= j < |es| ==> p <= es[j].start
    ensures p <= |ApplyEdits(d, es)|
    ensures ApplyEdits(d, es)[..p] == d[..p]
    decreases |es|
  {
    if es != [] {
      var d' := Splice(d, es[0]);
      assert d'[..p] == d[..p];
      ApplyEditsKeepsPrefix(d', es[1..], p);
    }
  }

  /**
   * Why edits run from the highest `start` down: when the lower edit `lo`
   * ends at or before the higher edit `hi` starts, splicing `hi` first leaves
   * `lo`'s indices valid, and the result is both edits applied at their
   * original positions.
   */
  lemma DescendingSplicesUseOriginalIndices(d: seq<UInt32>, hi: SemanticTokensEdit, lo: SemanticTokensEdit)
    requires SpliceFits(d, hi)
    requires lo.start + lo.deleteCount <= hi.start
    ensures SpliceFits(Splice(d, hi), lo)
    ensures Splice(Splice(d, hi), lo)
         == d[..lo.start] + Inserted(lo) + d[lo.start + lo.deleteCount..hi.start]
            + Inserted(hi) + d[hi.start + hi.deleteCount..]
  {
    var d1 := Splice(d, hi);
    assert d1[..hi.start] == d[..hi.start];
    assert d1[..lo.start] == d[..lo.start];
    assert d1[lo.start + lo.deleteCount..] == d[lo.start + lo.deleteCount..hi.start] + Inserted(hi) + d[hi.start + hi.deleteCount..];
  }

  /**
   * Edits in descending order whose spans do not overlap, all inside the
   * first `n` integers: each edit ends at or before the start of the one
   * before it.
   */
  predicate DescendingWithin(es: seq<SemanticTokensEdit>, n: nat)
    decreases |es|
  {
    es == [] || (es[0].start + es[0].deleteCount <= n && DescendingWithin(es[1..], es[0].start))
  }

  /**
   * The server's intent for a batch: every edit's data put in place of its
   * span of the ORIGINAL array, the untouched slices between the spans kept
   * in order.
   */
  function Interleaved(d: seq<UInt32>, es: seq<SemanticTokensEdit>): seq<UInt32>
    requires DescendingWithin(es, |d|)
    decreases |es|
  {
    if es == [] then d
    else Interleaved(d[..es[0].start], es[1..]) + Inserted(es[0]) + d[es[0].start + es[0].deleteCount..]
  }

  /**
   * Applying non-overlapping edits from the highest `start` down, each on
   * the array the previous one left, gives exactly the server's intent on
   * the original indices; integers past every edit (`tail`) stay behind.
   */
  lemma {:induction false} ApplyEditsInterleaves(d: seq<UInt32>, tail: seq<UInt32>, es: seq<SemanticTokensEdit>)
    requires DescendingWithin(es, |d|)
    requires EditsApplicable(d + tail, es)
    ensures ApplyEdits(d + tail, es) == Interleaved(d, es) + tail
    decreases |es|
  {
    if es != [] {
      var e := es[0];
      var low := d[..e.start];
      var rest := Inserted(e) + d[e.start + e.deleteCount..] + tail;
      assert Splice(d + tail, e) == low + rest by {
        assert (d + tail)[..e.start] == low;
        assert (d + tail)[e.start + e.deleteCount..] == d[e.start + e.deleteCount..] + tail;
      }
      ApplyEditsInterleaves(low, rest, es[1..]);
    }
  }

  // ---------------------------------------------------------------------------
  // Reading the new array back in groups of five

  function TokenAt(d: seq<UInt32>, k: nat): SemanticToken
    requires k + 4 < |d|
  {
    SemanticToken(d[k], d[k + 1], d[k + 2], d[k + 3], d[k + 4])
  }

  /** The tokens the stride-5 loop after a delta builds, field by field, without resolving relative positions. */
  function Groups(d: seq<UInt32>): seq<SemanticToken>
    requires |d| % 5 == 0
    decreases |d|
  {
    if d == [] then [] else [TokenAt(d, 0)] + Groups(d[5..])
  }

  lemma FiveStep(n: nat)
    requires n % 5 == 0 && n > 0
    ensures (n - 5) % 5 == 0 && (n - 5) / 5 == n / 5 - 1
  {
    var q := n / 5;
    assert n == 5 * q;
    assert n - 5 == 5 * (q - 1);
  }

  /** One token per group of five, the `i`-th made of integers `5 * i` to `5 * i + 4`. */
  lemma {:induction false} GroupsShape(d: seq<UInt32>)
    requires |d| % 5 == 0
    ensures |Groups(d)| == |d| / 5
    ensures forall i :: 0 <= i < |d| / 5 ==> Groups(d)[i] == TokenAt(d, 5 * i)
    decreases |d|
  {
    if d != [] {
      FiveStep(|d|);
      var tail := Groups(d[5..]);
      assert Groups(d) == [TokenAt(d, 0)] + tail;
      GroupsShape(d[5..]);
      forall i | 0 <= i < |d| / 5
        ensures Groups(d)[i] == TokenAt(d, 5 * i)
      {
        if i > 0 {
          var j := i - 1;
          assert Groups(d)[i] == tail[j];
          assert 5 * j + 5 == 5 * i;
        }
      }
    }
  }

  // ---------------------------------------------------------------------------
  // `deltas.edits.sorted(by: { $0.start > $1.start })` sorts by this key

  function EditStart(e: SemanticTokensEdit): int
  {
    e.start
  }
}
