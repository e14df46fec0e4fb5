/**
 Replay and resume, told in bytes and in the writer's own steps.
 crates/tymux-core/src/replay_buffer.rs, lines 101-160, and crates/tymux-core/src/pane.rs, lines 560-611 and 1007-1029.

 `Resume` proves what a client gets in terms of the replayable and the live part of the history. Here
 the history is the list of pieces the run pushed, the budget counts concatenated bytes, and what a
 client gets is described chunk by chunk.
 */
module ReplayLaws {
  import opened Common
  import opened ReplayBuffer
  import opened Resume

  // ------------------------------------------------------------------ the budget in bytes

  function AllBytes(chunks: seq<Chunk>): Bytes {
    if chunks == [] then [] else chunks[0].data + AllBytes(chunks[1..])
  }

  lemma {:induction false} BytesCounted(chunks: seq<Chunk>)
    ensures TotalBytes(chunks) == |AllBytes(chunks)|
  {
    if chunks != [] {
      BytesCounted(chunks[1..]);
    }
  }

  /** A chunk is still held iff it is the newest, or it and everything after it fit the budget. */
  lemma KeptIff(h: seq<Chunk>, budget: nat, k: nat)
    requires k < |h|
    ensures k >= |h| - |Retained(h, budget)| <==> k == |h| - 1 || |AllBytes(h[k..])| <= budget
  {
    hide TotalBytes, Retained, AllBytes;
    RetainedIsLongestFit(h, budget);
    BytesCounted(h[k..]);
    var r := Retained(h, budget);
    var d := |h| - |r|;
    if d <= k {
      assert r == h[d..k] + h[k..];
      TotalBytesConcat(h[d..k], h[k..]);
    }
  }

  /** A resume is answered from the buffer iff the last chunk the client has is still held: nothing the client lacks was dropped. */
  lemma InWindowIff(h: seq<Chunk>, budget: nat, resume: nat)
    requires Numbered(h)
    ensures ReplaySince(Retained(h, budget), resume, |h|).InWindow? <==>
              if h == [] then resume == 0
              else 1 <= resume <= |h| && (resume == |h| || |AllBytes(h[resume - 1..])| <= budget)
  {
    hide Retained, AllBytes, ReplaySince;
    ReplayIsHistorySlice(h, budget, resume);
    RetainedIsLongestFit(h, budget);
    if 1 <= resume <= |h| {
      KeptIff(h, budget, resume - 1);
    }
  }

  // ------------------------------------------------------------------ the writer's steps

  /** Every piece the run pushed, in order. */
  function Pushes(evs: seq<Event>): seq<Piece> {
    if evs == [] then [] else (if evs[0].Push? then [evs[0].piece] else []) + Pushes(evs[1..])
  }

  function Sends(evs: seq<Event>): nat {
    if evs == [] then 0 else (if evs[0].Send? then 1 else 0) + Sends(evs[1..])
  }

  lemma {:induction false} PiecesArePushes(s: State, evs: seq<Event>)
    requires Run(s, evs)
    ensures After(s, evs).pieces == s.pieces + Pushes(evs) && After(s, evs).budget == s.budget
    decreases |evs|
  {
    hide Retained, ReplaySince, LiveForm;
    if evs != [] {
      PiecesArePushes(Next(s, evs[0]), evs[1..]);
    }
  }

  lemma {:induction false} SentAreSends(s: State, evs: seq<Event>)
    requires Run(s, evs) && (s.writer.Bumped? ==> s.outputSeq > 0)
    ensures SentUpTo(After(s, evs)) == SentUpTo(s) + Sends(evs)
    decreases |evs|
  {
    hide Retained, ReplaySince, LiveForm;
    if evs != [] {
      SentAreSends(Next(s, evs[0]), evs[1..]);
    }
  }

  // ------------------------------------------------------------------ what a resume is answered

  function StrippedBytes(pieces: seq<Piece>): Bytes {
    if pieces == [] then [] else pieces[0].stripped + StrippedBytes(pieces[1..])
  }

  lemma {:induction false} BytesOfReplayable(pieces: seq<Piece>, k: nat)
    requires k <= |pieces|
    ensures AllBytes(Replayable(pieces)[k..]) == StrippedBytes(pieces[k..])
    decreases |pieces| - k
  {
    if k < |pieces| {
      BytesOfReplayable(pieces, k + 1);
      assert Replayable(pieces)[k..][0].data == pieces[k].stripped && Replayable(pieces)[k..][1..] == Replayable(pieces)[k + 1..];
      assert pieces[k..][0] == pieces[k] && pieces[k..][1..] == pieces[k + 1..];
    }
  }

  /**
   At any point of any run: a client that has everything up to number `r` is answered from the buffer
   iff piece `r` was pushed and, unless it is the newest, it and all later ones fit the budget.
   */
  lemma ResumeAnswer(s0: State, evs: seq<Event>, r: nat)
    requires Init(s0) && Run(s0, evs) && Enabled(After(s0, evs), Resume.Event.Resume(r))
    ensures var pieces := Pushes(evs);
            var c := Next(After(s0, evs), Resume.Event.Resume(r)).client;
            && c.Resumed? && c.resume == r
            && (c.answer.InWindow? <==>
                  if pieces == [] then r == 0
                  else 1 <= r <= |pieces| && (r == |pieces| || |StrippedBytes(pieces[r - 1..])| <= s0.budget))
            && (c.answer.InWindow? ==> c.answer.tailSeq == |pieces|)
  {
    hide Retained, ReplaySince, LiveRange, AllBytes, StrippedBytes, Run, After, Pushes;
    InvInit(s0);
    InvRun(s0, evs);
    PiecesArePushes(s0, evs);
    var s := After(s0, evs);
    assert s.pieces == Pushes(evs);
    var h := Replayable(s.pieces);
    ReplayIsHistorySlice(h, s.budget, r);
    InWindowIff(h, s.budget, r);
    if 1 <= r <= |h| {
      BytesOfReplayable(s.pieces, r - 1);
    }
  }

  // ------------------------------------------------------------------ what a client gets

  /** Every live chunk is the live form of the piece it is numbered after, and that form is not empty. */
  lemma {:induction false} LiveRangeSound(pieces: seq<Piece>, lo: nat, hi: nat)
    requires hi <= |pieces|
    ensures forall i :: 0 <= i < |LiveRange(pieces, lo, hi)| ==> IsLive(pieces, LiveRange(pieces, lo, hi)[i])
  {
    if hi > lo {
      LiveRangeSound(pieces, lo, hi - 1);
    }
  }

  predicate IsLive(pieces: seq<Piece>, c: Chunk) {
    1 <= c.seqNo <= |pieces| && c.data == pieces[c.seqNo - 1].live && c.data != []
  }

  /** What a client that had everything up to `r` and was replayed up to `tail` must have got from `pieces`, `sent` of them sent. */
  ghost predicate EachOnce(pieces: seq<Piece>, r: nat, tail: nat, sent: nat, got: seq<Chunk>) {
    && r <= tail <= |pieces| && sent <= |pieces| && tail - r <= |got|
    && (forall i :: 0 <= i < tail - r ==> got[i] == Chunk(r + i + 1, pieces[r + i].stripped))
    && (forall i :: tail - r <= i < |got| ==> tail < got[i].seqNo <= sent && IsLive(pieces, got[i]))
    && (forall i, j :: 0 <= i < j < |got| ==> got[i].seqNo < got[j].seqNo)
    && (forall q :: tail <= q < sent && pieces[q].live != [] ==> Chunk(q + 1, pieces[q].live) in got)
  }

  /**
   Exactly-once resume, piece by piece: in every interleaving, a resumed client that has taken all that
   was sent holds, for each number it lacked up to the replayed tail, the stripped form of that piece,
   and for each later number sent, its live form if there is one; numbers strictly increase, so nothing
   comes twice or out of order.
   */
  lemma ClientSeesEachPieceOnce(s0: State, evs: seq<Event>)
    requires Init(s0) && Run(s0, evs)
    ensures var s := After(s0, evs);
            s.client.Resumed? && s.client.answer.InWindow? && s.client.at + s.client.taken == |s.channel| ==>
              EachOnce(Pushes(evs), s.client.resume, s.client.answer.tailSeq, Sends(evs), Delivered(s))
  {
    hide Delivered, LiveRange, EachOnce, Run, After, Pushes, Sends;
    var s := After(s0, evs);
    ExactlyOnceResume(s0, evs);
    PiecesArePushes(s0, evs);
    SentAreSends(s0, evs);
    assert s.pieces == Pushes(evs);
    if s.client.Resumed? && s.client.answer.InWindow? && s.client.at + s.client.taken == |s.channel| {
      EachOnceFromParts(s.pieces, s.client.resume, s.client.answer.tailSeq, Sends(evs));
    }
  }

  lemma EachOnceFromParts(pieces: seq<Piece>, r: nat, tail: nat, sent: nat)
    requires r <= tail <= |pieces| && sent <= |pieces|
    ensures EachOnce(pieces, r, tail, sent, Replayable(pieces)[r..tail] + LiveRange(pieces, tail, sent))
  {
    hide LiveRange;
    var replayed, live := Replayable(pieces)[r..tail], LiveRange(pieces, tail, sent);
    LiveRangeNumbers(pieces, tail, sent);
    LiveRangeSound(pieces, tail, sent);
    forall q | tail <= q < sent && pieces[q].live != [] ensures Chunk(q + 1, pieces[q].live) in replayed + live {
      LiveRangeComplete(pieces, tail, sent, q + 1);
    }
  }
}
