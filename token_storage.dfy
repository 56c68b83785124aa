/**
 * The client-side semantic-token store: it keeps the last integer array a
 * language server sent, with its result id and the tokens read from it, and
 * applies `SemanticTokensDelta` edits to it, reporting the ranges that need
 * redrawing.
 *
 * The store has two observable states: empty (`state == None`) and populated.
 */
module TokenStorage {
  import opened Wrappers
  import opened TokenDelta
  import opened Sorting

  /** A position in a document, as the protocol's `Position`. */
  datatype Position = Position(line: nat, character: nat)

  /** The protocol's `Range`, the argument of a token query. */
  datatype LSPRange = LSPRange(start: Position, end: Position)

  /** A full `SemanticTokens` payload: result id and the raw integer array. */
  datatype SemanticTokens = SemanticTokens(resultId: Option<string>, data: seq<UInt32>)

  /** A `SemanticTokensDelta` payload: the new result id and the splice edits. */
  datatype SemanticTokensDelta = SemanticTokensDelta(resultId: Option<string>, edits: seq<SemanticTokensEdit>)

  /** The snapshot the store holds: result id, raw integers and the tokens read from them. */
  datatype CurrentState = CurrentState(resultId: Option<string>, tokenData: seq<UInt32>, tokens: seq<SemanticToken>)

  /**
   * What `applyDelta` needs so that no step traps: every edit, in the order the
   * store applies them, fits the working copy and its invalidated groups can be
   * read, and the final array splits into whole groups of five.
   */
  predicate DeltaApplicable(d: seq<UInt32>, edits: seq<SemanticTokensEdit>)
  {
    var sorted := SortDesc(EditStart, edits);
    EditsApplicable(d, sorted) && |ApplyEdits(d, sorted)| % 5 == 0
  }

  /** The state `applyDelta` installs on a populated store holding `d`. */
  function DeltaState(d: seq<UInt32>, delta: SemanticTokensDelta): CurrentState
    requires DeltaApplicable(d, delta.edits)
  {
    var next := ApplyEdits(d, SortDesc(EditStart, delta.edits));
    CurrentState(delta.resultId, next, Groups(next))
  }

  /**
   * After a delta the stored array has changed length by the edits' net
   * growth and holds exactly `|tokenData| / 5` tokens, the `i`-th built from
   * integers `5 * i` to `5 * i + 4`.
   */
  lemma DeltaStateShape(d: seq<UInt32>, delta: SemanticTokensDelta)
    requires DeltaApplicable(d, delta.edits)
    ensures |DeltaState(d, delta).tokenData| == |d| + NetGrowth(SortDesc(EditStart, delta.edits))
    ensures |DeltaState(d, delta).tokens| == |DeltaState(d, delta).tokenData| / 5
    ensures forall i :: 0 <= i < |DeltaState(d, delta).tokens| ==>
              DeltaState(d, delta).tokens[i] == TokenAt(DeltaState(d, delta).tokenData, 5 * i)
    ensures DeltaState(d, delta).resultId == delta.resultId
  {
    var next := ApplyEdits(d, SortDesc(EditStart, delta.edits));
    ApplyEditsLength(d, SortDesc(EditStart, delta.edits));
    GroupsShape(next);
  }

  /**
   * Deleting the first of two groups with `{start: 0, deleteCount: 5, data: []}`
   * leaves the second group, read as one token with its raw fields, and
   * invalidates the deleted group's raw triple (the empty insertion at an
   * aligned start adds nothing).
   */
  lemma DeleteFirstGroupExample()
    ensures var d: seq<UInt32> := [0, 0, 5, 1, 0, 2, 3, 4, 2, 0];
            var delta := SemanticTokensDelta(Some("2"), [SemanticTokensEdit(0, 5, Some([]))]);
            && DeltaApplicable(d, delta.edits)
            && DeltaState(d, delta) == CurrentState(Some("2"), [2, 3, 4, 2, 0], [SemanticToken(2, 3, 4, 2, 0)])
            && BatchRanges(d, SortDesc(EditStart, delta.edits)) == [SemanticTokenRange(0, 0, 5)]
  {
    var d: seq<UInt32> := [0, 0, 5, 1, 0, 2, 3, 4, 2, 0];
    var e := SemanticTokensEdit(0, 5, Some([]));
    var d1: seq<UInt32> := [2, 3, 4, 2, 0];
    assert SortDesc(EditStart, [e]) == [e] by {
      assert [e][1..] == [];
    }
    assert Splice(d, e) == d1;
    assert EditStepOk(d, e) by {
      assert WalkInBounds(5, 5, |d|);
      assert WalkInBounds(0, 0, |d1|);
    }
    assert EditsApplicable(d, [e]) && ApplyEdits(d, [e]) == d1 by {
      assert [e][1..] == [];
      assert EditsApplicable(d1, []);
    }
    assert EditRanges(d, e) == [SemanticTokenRange(0, 0, 5)] by {
      assert Walk(5, 5, d) == [];
      assert Walk(0, 0, d1) == [];
    }
    assert BatchRanges(d, [e]) == [SemanticTokenRange(0, 0, 5)] by {
      assert [e][1..] == [];
    }
    assert Groups(d1) == [SemanticToken(2, 3, 4, 2, 0)] by {
      assert d1[5..] == [];
    }
  }

  /**
   * Edits are applied from the highest `start` down whatever order the server
   * sent them in: inserting a group at 5 and deleting the group at 0 gives the
   * same array in either order of the list.
   */
  lemma EditOrderExample()
    ensures var d: seq<UInt32> := [0, 0, 5, 1, 0, 2, 3, 4, 2, 0];
            var ins := SemanticTokensEdit(5, 0, Some([1, 1, 1, 1, 1]));
            var del := SemanticTokensEdit(0, 5, None);
            && SortDesc(EditStart, [del, ins]) == [ins, del]
            && EditsApplicable(d, [ins, del])
            && ApplyEdits(d, [ins, del]) == [1, 1, 1, 1, 1, 2, 3, 4, 2, 0]
  {
    var d: seq<UInt32> := [0, 0, 5, 1, 0, 2, 3, 4, 2, 0];
    var ins := SemanticTokensEdit(5, 0, Some([1, 1, 1, 1, 1]));
    var del := SemanticTokensEdit(0, 5, None);
    assert SortDesc(EditStart, [del, ins]) == [ins, del] by {
      assert [del, ins][1..] == [ins] && [ins][1..] == [];
      assert SortDesc(EditStart, [ins]) == [ins];
      assert InsertDesc(EditStart, del, [ins]) == [ins] + InsertDesc(EditStart, del, []);
    }
    var d1: seq<UInt32> := [0, 0, 5, 1, 0, 1, 1, 1, 1, 1, 2, 3, 4, 2, 0];
    var d2: seq<UInt32> := [1, 1, 1, 1, 1, 2, 3, 4, 2, 0];
    assert Splice(d, ins) == d1;
    assert Splice(d1, del) == d2;
    assert EditStepOk(d, ins) by {
      assert WalkInBounds(5, 5, |d|);
      assert WalkInBounds(10, 10, |d1|);
    }
    assert EditStepOk(d1, del) by {
      assert WalkInBounds(5, 5, |d1|);
    }
    assert EditsApplicable(d1, [del]) && ApplyEdits(d1, [del]) == d2 by {
      assert [del][1..] == [];
    }
    assert [ins, del][1..] == [del];
  }

  class LSPSemanticTokenStorage {
    var state: Option<CurrentState>

    function LastResultId(): Option<string>
      reads this
    {
      if state.Some? then state.value.resultId else None
    }

    function HasTokens(): bool
      reads this
    {
      state.Some?
    }

    /** A new store is empty: no tokens and no result id. */
    constructor ()
      ensures state == None
      ensures !HasTokens() && LastResultId() == None
    {
      state := None;
    }

    /** The range query: its search is not written, so it always answers with no tokens. */
    method GetTokensFor(range: LSPRange) returns (tokens: seq<SemanticToken>)
      ensures tokens == []
    {
      if state.None? || state.value.tokens == [] {
        return [];
      }
      tokens := [];
    }

    /**
     * Installs a full payload. `decoded` stands for what the protocol library's
     * `decode()` returns for `data`; the store keeps it as given.
     */
    method SetData(data: SemanticTokens, decoded: seq<SemanticToken>)
      modifies this
      ensures state == Some(CurrentState(data.resultId, data.data, decoded))
      ensures HasTokens() && LastResultId() == data.resultId
    {
      state := Some(CurrentState(data.resultId, data.data, decoded));
    }

    /**
     * Applies the edits of `deltas` from the highest `start` down to a copy of
     * the stored integers, collecting the invalidated ranges of each edit, then
     * reads the result back in groups of five and installs it with the delta's
     * result id. On an empty store it returns no ranges and changes nothing.
     */
    method ApplyDelta(deltas: SemanticTokensDelta) returns (invalidatedSet: seq<SemanticTokenRange>)
      requires state.Some? ==> DeltaApplicable(state.value.tokenData, deltas.edits)
      modifies this
      ensures old(state).None? ==> invalidatedSet == [] && state == None
      ensures old(state).Some? ==>
                && state == Some(DeltaState(old(state).value.tokenData, deltas))
                && invalidatedSet == BatchRanges(old(state).value.tokenData, SortDesc(EditStart, deltas.edits))
      ensures HasTokens() == old(HasTokens())
      ensures old(state).Some? ==> LastResultId() == deltas.resultId
    {
      if state.None? {
        return [];
      }
      var tokenData, invalidated := ApplySortedEdits(state.value.tokenData, SortDesc(EditStart, deltas.edits));
      invalidatedSet := invalidated;
      var decodedTokens := DecodeGroups(tokenData);
      state := Some(CurrentState(deltas.resultId, tokenData, decodedTokens));
    }

    /** The binary search of the range query is not written: it never finds a position. */
    method FindLowerBound(range: LSPRange, data: seq<SemanticToken>) returns (index: Option<nat>)
      ensures index == None
    {
      return None;
    }
  }

  /**
   * `invalidatedRanges(startIdx:length:data:)`: from the start of the group
   * holding `startIdx`, reads the first three integers of every group whose
   * offset is below `startIdx + length`. It reads no state of the store.
   */
  method InvalidatedRanges(startIdx: nat, length: nat, data: seq<UInt32>) returns (ranges: seq<SemanticTokenRange>)
    requires RangesReadable(startIdx, length, |data|)
    ensures ranges == Invalidated(startIdx, length, data)
    ensures |ranges| == GroupCount(AlignDown(startIdx), startIdx + length)
  {
    ranges := [];
    var idx := startIdx - (startIdx % 5);
    while idx < startIdx + length
      invariant WalkInBounds(idx, startIdx + length, |data|)
      invariant ranges + Walk(idx, startIdx + length, data) == Invalidated(startIdx, length, data)
      decreases startIdx + length - idx
    {
      ranges := ranges + [SemanticTokenRange(data[idx], data[idx + 1], data[idx + 2])];
      idx := idx + 5;
    }
    WalkShape(AlignDown(startIdx), startIdx + length, data);
  }

  /**
   * The edit loop of `applyDelta`: the edits in the given order, each applied
   * to the working copy left by the ones before it.
   */
  method ApplySortedEdits(data: seq<UInt32>, edits: seq<SemanticTokensEdit>)
    returns (tokenData: seq<UInt32>, invalidatedSet: seq<SemanticTokenRange>)
    requires EditsApplicable(data, edits)
    ensures tokenData == ApplyEdits(data, edits)
    ensures invalidatedSet == BatchRanges(data, edits)
  {
    tokenData := data;
    invalidatedSet := [];
    for i := 0 to |edits|
      invariant EditsApplicable(tokenData, edits[i..])
      invariant ApplyEdits(tokenData, edits[i..]) == ApplyEdits(data, edits)
      invariant invalidatedSet + BatchRanges(tokenData, edits[i..]) == BatchRanges(data, edits)
    {
      ghost var before, acc, rest := tokenData, invalidatedSet, edits[i + 1..];
      assert EditStepOk(before, edits[i]) && EditsApplicable(Splice(before, edits[i]), rest)
          && ApplyEdits(before, edits[i..]) == ApplyEdits(Splice(before, edits[i]), rest)
          && BatchRanges(before, edits[i..]) == EditRanges(before, edits[i]) + BatchRanges(Splice(before, edits[i]), rest)
      by {
        BatchStep(before, edits[i..]);
        assert edits[i..][0] == edits[i] && edits[i..][1..] == rest;
      }
      var ranges;
      tokenData, ranges := ApplyEdit(tokenData, edits[i]);
      invalidatedSet := invalidatedSet + ranges;
      ghost var later := BatchRanges(tokenData, rest);
      assert (acc + ranges) + later == acc + (ranges + later);
    }
    assert edits[|edits|..] == [];
  }

  /**
   * One pass of the edit loop: the ranges over the deleted span read from the
   * working copy, the splice (`replaceSubrange` when something is deleted,
   * `insert` otherwise), and, when the edit carries data, the ranges over the
   * inserted span read from the spliced copy.
   */
  method ApplyEdit(data: seq<UInt32>, edit: SemanticTokensEdit)
    returns (tokenData: seq<UInt32>, invalidatedSet: seq<SemanticTokenRange>)
    requires EditStepOk(data, edit)
    ensures tokenData == Splice(data, edit)
    ensures invalidatedSet == EditRanges(data, edit)
  {
    invalidatedSet := InvalidatedRanges(edit.start, edit.deleteCount, data);
    var replacement := if edit.data.Some? then edit.data.value else [];
    if edit.deleteCount > 0 {
      tokenData := data[..edit.start] + replacement + data[edit.start + edit.deleteCount..];
    } else {
      tokenData := data[..edit.start] + replacement + data[edit.start..];
    }
    if edit.data.Some? {
      var inserted := InvalidatedRanges(edit.start, |edit.data.value|, tokenData);
      invalidatedSet := invalidatedSet + inserted;
    }
  }

  /** The stride-5 loop of `applyDelta`: one token per group, fields copied in place. */
  method DecodeGroups(tokenData: seq<UInt32>) returns (decodedTokens: seq<SemanticToken>)
    requires |tokenData| % 5 == 0
    ensures decodedTokens == Groups(tokenData)
  {
    decodedTokens := [];
    var idx := 0;
    while idx < |tokenData|
      invariant idx <= |tokenData| && idx % 5 == 0
      invariant decodedTokens + Groups(tokenData[idx..]) == Groups(tokenData)
    {
      assert tokenData[idx..][5..] == tokenData[idx + 5..];
      decodedTokens := decodedTokens + [SemanticToken(
        tokenData[idx], tokenData[idx + 1], tokenData[idx + 2], tokenData[idx + 3], tokenData[idx + 4])];
      idx := idx + 5;
    }
  }
}
