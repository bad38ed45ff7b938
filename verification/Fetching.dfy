/** When a chunk's stream and its attempts succeed, read off what the source gives. */
module Fetching {
  import opened Common
  import opened Text
  import opened Plan
  import opened ControlFile
  import opened ControlLaws
  import opened Scatter

  /** The bytes a stream gives before its first fault. */
  function BytesOf(stream: seq<Piece>): nat
  {
    if stream == [] || stream[0].Fault? then 0 else stream[0].n + BytesOf(stream[1..])
  }

  /** The bytes of the attempts from the `a`-th up to the `n`-th, and their pieces. */
  function BytesFrom(streams: nat -> seq<Piece>, a: nat, n: nat): nat
    decreases n - a
  {
    if a >= n then 0 else BytesOf(streams(a)) + BytesFrom(streams, a + 1, n)
  }

  function PiecesFrom(streams: nat -> seq<Piece>, a: nat, n: nat): nat
    decreases n - a
  {
    if a >= n then 0 else |streams(a)| + PiecesFrom(streams, a + 1, n)
  }

  /** Room for so many more lines. */
  predicate HasRoom(total: nat, text: string, lines: nat)
  {
    total + |Encode(text)| + 47 * lines + FOOTER <= MAX_FILE
  }

  lemma LineFits(total: nat, text: string, range: ByteRange, lines: nat)
    requires HasRoom(total, text, lines) && 0 < lines
    ensures Goes(total, text, range, Smooth)
    ensures HasRoom(total, text + DoneLine(range), lines - 1)
  {
    hide Encode, DoneLine;
    DoneLineBytes(range);
    DoneLineIsShort(range);
    EncodeConcat(text, DoneLine(range));
  }

  /** A stream that keeps to what is left is taken up to its first fault, and ends well without one, when the
      checkpoints it makes go well. */
  lemma {:induction false} StreamIsTaken(at: Place, m: Mark, stream: seq<Piece>, due: nat -> bool, fates: nat -> Fate,
                                         k: nat, lines: nat)
    requires k <= |stream| && BytesOf(stream[k..]) <= at.range.end - m.offset && forall j :: fates(j) == Smooth
    requires HasRoom(at.total, m.text, |stream| - k + lines)
    ensures var (after, ended) := AfterStream(at, m, stream, due, fates, k);
            && after.offset == m.offset + BytesOf(stream[k..]) && HasRoom(at.total, after.text, lines)
            && (ended <==> Fault !in stream[k..])
    decreases |stream| - k
  {
    hide HasRoom, Goes, Encode, DoneLine, IsDue;
    if k == |stream| {
      assert |stream| - k + lines == lines;
    } else {
      assert stream[k..][1..] == stream[k + 1..] && stream[k..][0] == stream[k];
      MoreRoom(at.total, m.text, |stream| - k + lines, |stream| - (k + 1) + lines);
      MoreRoom(at.total, m.text, |stream| - k + lines, lines);
      if stream[k].Piece? {
        var (next, ok) := AfterPiece(at, m, stream[k].n, due(k), fates(k));
        PieceIsTaken(at, m, stream[k].n, due(k), |stream| - k + lines);
        StreamIsTaken(at, next, stream, due, fates, k + 1, lines);
        assert stream[k..] == [stream[k]] + stream[k + 1..];
      } else {
        assert stream[k] in stream[k..];
      }
    }
  }

  lemma MoreRoom(total: nat, text: string, lines: nat, fewer: nat)
    requires HasRoom(total, text, lines) && fewer <= lines
    ensures HasRoom(total, text, fewer)
  {
    hide Encode;
  }

  lemma PieceIsTaken(at: Place, m: Mark, n: nat, due: bool, lines: nat)
    requires HasRoom(at.total, m.text, lines) && 0 < lines
    ensures var (next, ok) := AfterPiece(at, m, n, due, Smooth);
            ok && next.offset == m.offset + n && HasRoom(at.total, next.text, lines - 1)
  {
    hide HasRoom, Goes, DoneLine;
    var end := m.offset + n;
    LineFits(at.total, m.text, if end <= U64_MAX then ByteRange(at.range.start, end) else at.range, lines);
    MoreRoom(at.total, m.text, lines, lines - 1);
  }

  lemma {:induction false} AttemptsDeliver(at: Place, m: Mark, streams: nat -> seq<Piece>, due: nat -> nat -> bool,
                                           fates: nat -> nat -> Fate, retries: nat, a: nat, n: nat)
    requires a <= n <= retries + 1 && (forall b, j :: fates(b)(j) == Smooth)
    requires m.offset + BytesFrom(streams, a, n) == at.range.end
    requires HasRoom(at.total, m.text, PiecesFrom(streams, a, n) + 1)
    ensures var after := AfterAttempts(at, m, streams, due, fates, retries, a);
            after.offset == at.range.end && HasRoom(at.total, after.text, 1)
    decreases n - a
  {
    hide HasRoom, AfterStream;
    AttemptsStep(at, m, streams, due, fates, retries, a);
    if m.offset >= at.range.end {
      MoreRoom(at.total, m.text, PiecesFrom(streams, a, n) + 1, 1);
    } else {
      var stream, lines := streams(a), PiecesFrom(streams, a + 1, n) + 1;
      assert stream[0..] == stream;
      StreamIsTaken(at, m, stream, due(a), fates(a), 0, lines);
      AttemptsDeliver(at, AfterStream(at, m, stream, due(a), fates(a), 0).0, streams, due, fates, retries, a + 1, n);
    }
  }

  /** A chunk whose source gives exactly what is left of its range, in any pieces, over no more than `retries + 1`
      streams, faults and all, is fetched and recorded, when its appends go well and the file has room for them. */
  lemma DeliveredChunksSucceed(at: Place, m: Mark, streams: nat -> seq<Piece>, due: nat -> nat -> bool,
                               fates: nat -> nat -> Fate, retries: nat, n: nat)
    requires n <= retries + 1 && m.offset + BytesFrom(streams, 0, n) == at.range.end
    requires (forall b, j :: fates(b)(j) == Smooth) && HasRoom(at.total, m.text, PiecesFrom(streams, 0, n) + 1)
    ensures var after := AfterAttempts(at, m, streams, due, fates, retries, 0);
            after.offset == at.range.end && Goes(at.total, after.text, at.range, Smooth)
  {
    hide HasRoom, Goes;
    AttemptsDeliver(at, m, streams, due, fates, retries, 0, n);
    LineFits(at.total, AfterAttempts(at, m, streams, due, fates, retries, 0).text, at.range, 1);
  }

  /** Where a stream is left, whatever its checkpoints do: after `j` pieces, each of which fits what was then left, and
      which are all it has recorded. It is left early at a fault, at a piece that outruns the range, or right after
      a piece whose checkpoint failed. */
  lemma {:induction false} StreamIsLeft(at: Place, m: Mark, stream: seq<Piece>, due: nat -> bool, fates: nat -> Fate,
                                        k: nat) returns (j: nat, failed: bool)
    requires k <= |stream| && m.offset <= at.range.end
    ensures var (after, ended) := AfterStream(at, m, stream, due, fates, k);
            && k <= j <= |stream| && Fault !in stream[k..j]
            && after.offset == m.offset + BytesOf(stream[k..j]) && after.offset <= at.range.end
            && (ended <==> j == |stream| && !failed)
            && (!ended && !failed ==>
                  j < |stream| && (stream[j].Fault? || after.offset + stream[j].n > at.range.end))
            && (failed ==> k < j && exists text ::
                  var range := if after.offset <= U64_MAX then ByteRange(at.range.start, after.offset) else at.range;
                  && IsDue(Mark(after.offset, after.checkpointed, text), due(j - 1))
                  && !Goes(at.total, text, range, fates(j - 1)))
    decreases |stream| - k
  {
    hide Goes, IsDue, DoneLine, LineSize;
    if k == |stream| || stream[k].Fault? || stream[k].n > at.range.end - m.offset {
      j, failed := k, false;
      assert stream[k..k] == [];
    } else {
      var (next, ok) := AfterPiece(at, m, stream[k].n, due(k), fates(k));
      assert BytesOf([stream[k]]) == stream[k].n by { assert [stream[k]][1..] == []; }
      if ok {
        j, failed := StreamIsLeft(at, next, stream, due, fates, k + 1);
        assert stream[k..j][1..] == stream[k + 1..j] && stream[k..j][0] == stream[k];
        assert stream[k..j] == [stream[k]] + stream[k + 1..j];
      } else {
        j, failed := k + 1, true;
        assert stream[k..j] == [stream[k]];
        assert next.text == m.text || next.text == m.text + DoneLine(
          if next.offset <= U64_MAX then ByteRange(at.range.start, next.offset) else at.range);
        assert IsDue(Mark(next.offset, next.checkpointed, m.text), due(j - 1));
      }
    }
  }
}
