/**
 Gap-free resume: the writer of a pane's output (reader thread or `inject_output`,
 crates/tymux-core/src/pane.rs) against a reconnecting client that subscribes to the live channel and
 then asks for a replay.

 A writer pushes a chunk into the replay buffer and bumps `output_seq` under the `replay` lock, and
 sends the chunk on the channel later, without it. A piece of output has two forms: `stripped`, kept
 for replay, and `live`, broadcast; both are arbitrary, and an empty `live` form is not sent. The
 channel delivers in order and does not lag. There is one writer at a time
 (`LifecycleTheorems.InjectsOnlyWhenReaderIsQuiet`).
 */
module Resume {
  import opened Common
  import opened ReplayBuffer

  datatype Piece = Piece(stripped: Bytes, live: Bytes)

  datatype Writer =
    | Idle
    | Pushed  // the chunk is in the buffer, its number is not visible yet; the replay lock is held
    | Bumped  // the number is visible, the chunk is not sent yet

  datatype Client =
    | Away
    | Subscribed(at: nat, taken: nat)
    | Resumed(at: nat, taken: nat, resume: nat, answer: ReplayOutcome)

  datatype State = State(
    budget: nat,
    pieces: seq<Piece>,     // history: everything ever pushed
    buffer: seq<Chunk>,
    outputSeq: nat,
    channel: seq<Chunk>,    // history: everything ever sent
    writer: Writer,
    client: Client)

  datatype Event =
    | Push(piece: Piece)
    | Bump
    | Send
    | Subscribe
    | Resume(resume: nat)
    | Receive

  predicate Enabled(s: State, ev: Event) {
    match ev
    case Push(piece) => s.writer.Idle?
    case Bump => s.writer.Pushed?
    case Send => s.writer.Bumped? && s.pieces != []
    case Subscribe => s.client.Away?
    case Resume(r) => s.client.Subscribed? && !s.writer.Pushed?
    case Receive => !s.client.Away? && s.client.at + s.client.taken < |s.channel|
  }

  function Next(s: State, ev: Event): State
    requires Enabled(s, ev)
  {
    match ev
    case Push(piece) =>
      s.(pieces := s.pieces + [piece],
         buffer := Retained(s.buffer + [Chunk(s.outputSeq + 1, piece.stripped)], s.budget),
         writer := Pushed)
    case Bump => s.(outputSeq := s.outputSeq + 1, writer := Bumped)
    case Send =>
      s.(channel := s.channel + LiveForm(s.pieces[|s.pieces| - 1], s.outputSeq), writer := Idle)
    case Subscribe => s.(client := Subscribed(|s.channel|, 0))
    case Resume(r) =>
      s.(client := Resumed(s.client.at, s.client.taken, r, ReplaySince(s.buffer, r, s.outputSeq)))
    case Receive => s.(client := s.client.(taken := s.client.taken + 1))
  }

  predicate Init(s: State) {
    s.pieces == [] && s.buffer == [] && s.outputSeq == 0 && s.channel == [] && s.writer.Idle? && s.client.Away?
  }

  predicate Run(s: State, evs: seq<Event>)
    decreases |evs|
  {
    evs == [] || (Enabled(s, evs[0]) && Run(Next(s, evs[0]), evs[1..]))
  }

  function After(s: State, evs: seq<Event>): State
    requires Run(s, evs)
    decreases |evs|
  {
    if evs == [] then s else After(Next(s, evs[0]), evs[1..])
  }

  // ------------------------------------------------------------------ what a client should see

  /** The replay form of the whole history, numbered from 1. */
  function Replayable(pieces: seq<Piece>): seq<Chunk> {
    seq(|pieces|, i requires 0 <= i < |pieces| => Chunk(i + 1, pieces[i].stripped))
  }

  /** The live chunks with a number in (lo, hi], in order; pieces without a live form have none. */
  function LiveRange(pieces: seq<Piece>, lo: nat, hi: nat): seq<Chunk>
    requires hi <= |pieces|
  {
    if hi <= lo then []
    else
      LiveRange(pieces, lo, hi - 1) + LiveForm(pieces[hi - 1], hi)
  }

  function LiveForm(piece: Piece, number: nat): seq<Chunk> {
    if piece.live == [] then [] else [Chunk(number, piece.live)]
  }

  /** The received chunks a resumed client keeps: those past the replayed tail. */
  function PastTail(chunks: seq<Chunk>, tail: nat): seq<Chunk> {
    if chunks == [] then []
    else
      var c := chunks[|chunks| - 1];
      PastTail(chunks[..|chunks| - 1], tail) + if c.seqNo > tail then [c] else []
  }

  /** The last number whose chunk, if it has a live form, is on the channel. */
  function SentUpTo(s: State): nat {
    if s.writer.Bumped? && s.outputSeq > 0 then s.outputSeq - 1 else s.outputSeq
  }

  /** All a client that got an InWindow answer has rendered so far. */
  function Delivered(s: State): seq<Chunk>
    requires s.client.Resumed? && s.client.answer.InWindow? && s.client.at + s.client.taken <= |s.channel|
  {
    s.client.answer.chunks
    + PastTail(s.channel[s.client.at..s.client.at + s.client.taken], s.client.answer.tailSeq)
  }

  // ------------------------------------------------------------------ lemmas on sequences

  lemma {:induction false} LiveRangeStable(a: seq<Piece>, b: seq<Piece>, lo: nat, hi: nat)
    requires hi <= |a|
    ensures LiveRange(a + b, lo, hi) == LiveRange(a, lo, hi)
  {
    if hi > lo {
      LiveRangeStable(a, b, lo, hi - 1);
    }
  }

  lemma {:induction false} LiveRangeNumbers(pieces: seq<Piece>, lo: nat, hi: nat)
    requires hi <= |pieces|
    ensures forall i :: 0 <= i < |LiveRange(pieces, lo, hi)| ==> lo < LiveRange(pieces, lo, hi)[i].seqNo <= hi
    ensures forall i, j :: 0 <= i < j < |LiveRange(pieces, lo, hi)| ==>
                             LiveRange(pieces, lo, hi)[i].seqNo < LiveRange(pieces, lo, hi)[j].seqNo
  {
    if hi > lo {
      LiveRangeNumbers(pieces, lo, hi - 1);
    }
  }

  /** Every piece with a live form and a number in range is there, with its live form. */
  lemma {:induction false} LiveRangeComplete(pieces: seq<Piece>, lo: nat, hi: nat, q: nat)
    requires lo < q <= hi <= |pieces| && pieces[q - 1].live != []
    ensures Chunk(q, pieces[q - 1].live) in LiveRange(pieces, lo, hi)
  {
    hide LiveForm;
    if q < hi {
      LiveRangeComplete(pieces, lo, hi - 1, q);
    } else {
      LiveFormOf(pieces[q - 1], q);
    }
  }

  lemma LiveFormOf(piece: Piece, number: nat)
    requires piece.live != []
    ensures Chunk(number, piece.live) in LiveForm(piece, number)
  {
  }

  lemma PastTailLast(chunks: seq<Chunk>, c: Chunk, tail: nat)
    ensures PastTail(chunks + [c], tail) == PastTail(chunks, tail) + if c.seqNo > tail then [c] else []
  {
    assert (chunks + [c])[..|chunks + [c]| - 1] == chunks;
  }

  lemma {:induction false} PastTailConcat(a: seq<Chunk>, b: seq<Chunk>, tail: nat)
    ensures PastTail(a + b, tail) == PastTail(a, tail) + PastTail(b, tail)
  {
    hide PastTail;
    if b == [] {
      assert a + b == a;
      PastTailNone([], tail);
      assert PastTail(a, tail) + [] == PastTail(a, tail);
    } else {
      PastTailConcat(a, b[..|b| - 1], tail);
      PastTailLast(b[..|b| - 1], b[|b| - 1], tail);
      PastTailLast(a + b[..|b| - 1], b[|b| - 1], tail);
      assert b == b[..|b| - 1] + [b[|b| - 1]] && a + b == (a + b[..|b| - 1]) + [b[|b| - 1]];
    }
  }

  lemma {:induction false} PastTailNone(a: seq<Chunk>, tail: nat)
    requires forall i :: 0 <= i < |a| ==> a[i].seqNo <= tail
    ensures PastTail(a, tail) == []
  {
    if a != [] {
      PastTailNone(a[..|a| - 1], tail);
    }
  }

  lemma {:induction false} PastTailOfRange(pieces: seq<Piece>, tail: nat, hi: nat)
    requires hi <= |pieces|
    ensures PastTail(LiveRange(pieces, 0, hi), tail) == LiveRange(pieces, tail, hi)
  {
    hide PastTail, LiveForm;
    if hi == 0 {
      PastTailNone([], tail);
    } else {
      PastTailOfRange(pieces, tail, hi - 1);
      PastTailConcat(LiveRange(pieces, 0, hi - 1), LiveForm(pieces[hi - 1], hi), tail);
      PastTailOfOne(pieces[hi - 1], hi, tail);
    }
  }

  lemma PastTailOfOne(piece: Piece, number: nat, tail: nat)
    ensures PastTail(LiveForm(piece, number), tail) == if number > tail then LiveForm(piece, number) else []
  {
    if piece.live != [] {
      assert LiveForm(piece, number)[..0] == [];
    }
  }

  // ------------------------------------------------------------------ the invariant

  ghost predicate ClientOk(s: State) {
    match s.client
    case Away => true
    case Subscribed(at, taken) => at + taken <= |s.channel|
    case Resumed(at, taken, resume, answer) =>
      && at + taken <= |s.channel|
      && (answer.InWindow? ==>
            && resume <= answer.tailSeq <= s.outputSeq <= |s.pieces|
            && answer.chunks == Replayable(s.pieces)[resume..answer.tailSeq]
            && forall i :: 0 <= i < at ==> s.channel[i].seqNo <= answer.tailSeq)
  }

  ghost predicate Inv(s: State) {
    && |s.pieces| == s.outputSeq + (if s.writer.Pushed? then 1 else 0)
    && (s.writer.Bumped? ==> s.outputSeq > 0)
    && s.buffer == Retained(Replayable(s.pieces), s.budget)
    && s.channel == LiveRange(s.pieces, 0, SentUpTo(s))
    && ClientOk(s)
  }

  lemma PushInv(s: State, piece: Piece)
    requires Inv(s) && s.writer.Idle?
    ensures Inv(Next(s, Push(piece)))
  {
    hide Retained, LiveRange, ReplaySince;
    var c := Chunk(s.outputSeq + 1, piece.stripped);
    var s' := Next(s, Push(piece));
    assert Replayable(s'.pieces) == Replayable(s.pieces) + [c];
    RetainedAfterPush(Replayable(s.pieces), c, s.budget);
    LiveRangeStable(s.pieces, [piece], 0, s.outputSeq);
    if s.client.Resumed? && s.client.answer.InWindow? {
      var r, t := s.client.resume, s.client.answer.tailSeq;
      assert Replayable(s'.pieces)[r..t] == Replayable(s.pieces)[r..t];
    }
  }

  lemma SendInv(s: State)
    requires Inv(s) && Enabled(s, Send)
    ensures Inv(Next(s, Send))
  {
    hide Retained, ReplaySince;
  }

  lemma ResumeInv(s: State, r: nat)
    requires Inv(s) && Enabled(s, Resume(r))
    ensures Inv(Next(s, Resume(r)))
  {
    hide Retained, ReplaySince, LiveRange;
    ReplayIsHistorySlice(Replayable(s.pieces), s.budget, r);
    LiveRangeNumbers(s.pieces, 0, SentUpTo(s));
    var h := Replayable(s.pieces);
    assert r <= |h| ==> h[r..] == h[r..|h|];
  }

  lemma InvStep(s: State, ev: Event)
    requires Inv(s) && Enabled(s, ev)
    ensures Inv(Next(s, ev))
  {
    match ev
    case Push(piece) => PushInv(s, piece);
    case Send => SendInv(s);
    case Resume(r) => ResumeInv(s, r);
    case _ =>
      hide Retained, ReplaySince, LiveRange;
  }

  lemma {:induction false} InvRun(s: State, evs: seq<Event>)
    requires Inv(s) && Run(s, evs)
    ensures Inv(After(s, evs))
    decreases |evs|
  {
    hide Inv, Enabled, Next;
    if evs != [] {
      InvStep(s, evs[0]);
      InvRun(Next(s, evs[0]), evs[1..]);
    }
  }

  // ------------------------------------------------------------------ the theorem

  /**
   Exactly-once resume. In any interleaving of the writer's push, bump and send steps with a client
   that subscribes and then resumes from `r`: once it has taken everything sent so far, what it got
   is the replay form of every number in (r, tail], followed by the live form of every later number
   sent so far that has one - in order, each once, nothing else.
   */
  lemma ExactlyOnceResume(s0: State, evs: seq<Event>)
    requires Init(s0) && Run(s0, evs)
    ensures var s := After(s0, evs);
            s.client.Resumed? && s.client.answer.InWindow? && s.client.at + s.client.taken == |s.channel| ==>
              var tail := s.client.answer.tailSeq;
              && s.client.resume <= tail <= |s.pieces|
              && SentUpTo(s) <= |s.pieces|
              && Delivered(s) == Replayable(s.pieces)[s.client.resume..tail] + LiveRange(s.pieces, tail, SentUpTo(s))
  {
    hide Retained, ReplaySince, LiveRange, PastTail, Enabled, Next, Run, After;
    InvRun(s0, evs) by {
      InvInit(s0);
    }
    var s := After(s0, evs);
    if s.client.Resumed? && s.client.answer.InWindow? && s.client.at + s.client.taken == |s.channel| {
      var at, tail := s.client.at, s.client.answer.tailSeq;
      assert s.channel == s.channel[..at] + s.channel[at..];
      PastTailConcat(s.channel[..at], s.channel[at..], tail);
      PastTailNone(s.channel[..at], tail);
      PastTailOfRange(s.pieces, tail, SentUpTo(s));
      assert s.channel[at..at + s.client.taken] == s.channel[at..];
    }
  }

  lemma InvInit(s: State)
    requires Init(s)
    ensures Inv(s)
  {
    assert Replayable(s.pieces) == [];
  }

  /** The same state once the client has taken everything sent so far. */
  function CaughtUp(s: State): State {
    if s.client.Away? || s.client.at > |s.channel| then s
    else s.(client := s.client.(taken := |s.channel| - s.client.at))
  }

  /** Before the client caught up, what it got is a prefix of that: nothing is out of order or early. */
  lemma DeliveredIsPrefix(s0: State, evs: seq<Event>)
    requires Init(s0) && Run(s0, evs)
    ensures var s := After(s0, evs);
            s.client.Resumed? && s.client.answer.InWindow? ==>
              s.client.at + s.client.taken <= |s.channel| && Delivered(s) <= Delivered(CaughtUp(s))
  {
    hide Retained, ReplaySince, LiveRange, PastTail, Enabled, Next, Run, After;
    InvRun(s0, evs) by {
      InvInit(s0);
    }
    var s := After(s0, evs);
    if s.client.Resumed? && s.client.answer.InWindow? {
      var at, mid, tail := s.client.at, s.client.at + s.client.taken, s.client.answer.tailSeq;
      assert s.channel[at..] == s.channel[at..mid] + s.channel[mid..];
      PastTailConcat(s.channel[at..mid], s.channel[mid..], tail);
      assert s.channel[at..at + (|s.channel| - at)] == s.channel[at..];
    }
  }
}
