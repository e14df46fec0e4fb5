/**
 The byte-budgeted output log of crates/tymux-core/src/replay_buffer.rs.

 What a pane's buffer holds is specified from the whole history pushed into it: `Retained` is the
 longest suffix that fits the budget, or the newest chunk alone. The class `ReplayBuffer` keeps a
 queue and a byte count in place, and its eviction loop is proved to keep exactly that suffix.
 */
module ReplayBuffer {
  import opened Common

  type Bytes = seq<bv8>

  datatype Chunk = Chunk(seqNo: nat, data: Bytes)

  datatype ReplayOutcome =
    | InWindow(chunks: seq<Chunk>, tailSeq: nat)
    | GapExceeded(oldestAvailable: Option<nat>)

  function TotalBytes(chunks: seq<Chunk>): nat {
    if chunks == [] then 0 else |chunks[0].data| + TotalBytes(chunks[1..])
  }

  /** What is left of `chunks` once the front was dropped until it fits or one chunk remains. */
  function Retained(chunks: seq<Chunk>, budget: nat): seq<Chunk> {
    if TotalBytes(chunks) > budget && |chunks| > 1 then Retained(chunks[1..], budget) else chunks
  }

  lemma {:induction false} TotalBytesConcat(a: seq<Chunk>, b: seq<Chunk>)
    ensures TotalBytes(a + b) == TotalBytes(a) + TotalBytes(b)
  {
    if a == [] {
      assert a + b == b;
    } else {
      TotalBytesConcat(a[1..], b);
      assert (a + b)[1..] == a[1..] + b;
    }
  }

  /**
   `Retained` is the longest suffix that fits, or the newest chunk alone when even that does not:
   it is a suffix, it fits unless it is a single chunk, and any longer suffix does not fit.
   */
  lemma {:induction false} RetainedIsLongestFit(h: seq<Chunk>, budget: nat)
    ensures var r := Retained(h, budget);
            && |r| <= |h| && r == h[|h| - |r|..]
            && (h != [] ==> r != [])
            && (TotalBytes(r) <= budget || |r| == 1)
            && (forall k :: 0 <= k < |h| - |r| ==> TotalBytes(h[k..]) > budget)
  {
    if TotalBytes(h) > budget && |h| > 1 {
      RetainedIsLongestFit(h[1..], budget);
      var r := Retained(h[1..], budget);
      forall k | 0 <= k < |h| - |r| ensures TotalBytes(h[k..]) > budget {
        if k > 0 {
          assert h[1..][k - 1..] == h[k..];
        } else {
          assert h[0..] == h;
        }
      }
    } else {
      assert h[0..] == h;
    }
  }

  /** The characterisation leaves no choice: two suffixes that both satisfy it are the same. */
  lemma LongestFitIsUnique(h: seq<Chunk>, budget: nat, n: nat)
    requires 0 < n <= |h|
    requires TotalBytes(h[|h| - n..]) <= budget || n == 1
    requires forall k :: 0 <= k < |h| - n ==> TotalBytes(h[k..]) > budget
    ensures Retained(h, budget) == h[|h| - n..]
  {
    RetainedIsLongestFit(h, budget);
  }

  /**
   Evicting after every push keeps the same chunks as evicting once from the whole history: what
   was dropped earlier could never have come back.
   */
  lemma RetainedAfterPush(h: seq<Chunk>, c: Chunk, budget: nat)
    ensures Retained(Retained(h, budget) + [c], budget) == Retained(h + [c], budget)
  {
    hide TotalBytes, Retained;
    var r := Retained(h, budget);
    RetainedIsLongestFit(h, budget);
    var kept := r + [c];
    RetainedIsLongestFit(kept, budget);
    var q := Retained(kept, budget);
    var all := h + [c];
    var d := |all| - |kept|;
    assert kept == all[d..];
    assert q == all[|all| - |q|..];
    forall k | 0 <= k < |all| - |q| ensures TotalBytes(all[k..]) > budget {
      if k >= d {
        assert all[k..] == kept[k - d..];
      } else {
        assert all[k..] == h[k..] + [c];
        TotalBytesConcat(h[k..], [c]);
      }
    }
    LongestFitIsUnique(all, budget, |q|);
  }

  // ------------------------------------------------------------------ answering a resume

  function OldestSeq(entries: seq<Chunk>): Option<nat> {
    if entries == [] then None else Some(entries[0].seqNo)
  }

  /** The chunks with a sequence number in (resume, latest], in order. */
  function Slice(entries: seq<Chunk>, resume: nat, latest: nat): seq<Chunk> {
    if entries == [] then []
    else
      var rest := Slice(entries[..|entries| - 1], resume, latest);
      var c := entries[|entries| - 1];
      if resume < c.seqNo <= latest then rest + [c] else rest
  }

  function ReplaySince(entries: seq<Chunk>, resume: nat, latest: nat): ReplayOutcome {
    if resume > latest then GapExceeded(OldestSeq(entries))
    else
      var oldest := OldestSeq(entries);
      var availableFrom := if oldest.Some? then oldest.value else latest;
      if resume >= availableFrom then InWindow(Slice(entries, resume, latest), latest) else GapExceeded(oldest)
  }

  /** Sequence numbers are consecutive from 1, as the pane assigns them. */
  predicate Numbered(h: seq<Chunk>) {
    forall i :: 0 <= i < |h| ==> h[i].seqNo == i + 1
  }

  lemma {:induction false} SliceConcat(a: seq<Chunk>, b: seq<Chunk>, resume: nat, latest: nat)
    ensures Slice(a + b, resume, latest) == Slice(a, resume, latest) + Slice(b, resume, latest)
  {
    hide Slice;
    if b == [] {
      assert a + b == a;
      SliceNone([], resume, latest);
      assert Slice(a, resume, latest) + [] == Slice(a, resume, latest);
    } else {
      SliceConcat(a, b[..|b| - 1], resume, latest);
      SliceLast(b[..|b| - 1], b[|b| - 1], resume, latest);
      SliceLast(a + b[..|b| - 1], b[|b| - 1], resume, latest);
      assert b == b[..|b| - 1] + [b[|b| - 1]];
      assert a + b == (a + b[..|b| - 1]) + [b[|b| - 1]];
    }
  }

  lemma SliceLast(entries: seq<Chunk>, c: Chunk, resume: nat, latest: nat)
    ensures Slice(entries + [c], resume, latest) ==
              if resume < c.seqNo <= latest then Slice(entries, resume, latest) + [c] else Slice(entries, resume, latest)
  {
    assert (entries + [c])[..|entries + [c]| - 1] == entries;
  }

  lemma {:induction false} SliceNone(entries: seq<Chunk>, resume: nat, latest: nat)
    requires forall i :: 0 <= i < |entries| ==> entries[i].seqNo <= resume || latest < entries[i].seqNo
    ensures Slice(entries, resume, latest) == []
  {
    if entries != [] {
      SliceNone(entries[..|entries| - 1], resume, latest);
    }
  }

  lemma {:induction false} SliceAll(entries: seq<Chunk>, resume: nat, latest: nat)
    requires forall i :: 0 <= i < |entries| ==> resume < entries[i].seqNo <= latest
    ensures Slice(entries, resume, latest) == entries
  {
    if entries != [] {
      SliceAll(entries[..|entries| - 1], resume, latest);
    }
  }

  /** Slicing a run of consecutive numbers cuts out exactly that stretch: what is past `resume`, ... */
  lemma SliceToEnd(entries: seq<Chunk>, first: nat, resume: nat, latest: nat)
    requires forall i :: 0 <= i < |entries| ==> entries[i].seqNo == first + i
    requires first <= resume && first + |entries| <= latest + 1
    ensures Slice(entries, resume, latest) == if resume - first < |entries| then entries[resume - first + 1..] else []
  {
    hide Slice;
    if resume - first < |entries| {
      var k := resume - first + 1;
      SliceNone(entries[..k], resume, latest);
      SliceAll(entries[k..], resume, latest);
      SliceConcat(entries[..k], entries[k..], resume, latest);
      assert entries[..k] + entries[k..] == entries;
    } else {
      SliceNone(entries, resume, latest);
    }
  }

  /** ... and not past `latest`. */
  lemma SliceOfNumbered(entries: seq<Chunk>, first: nat, resume: nat, latest: nat)
    requires forall i :: 0 <= i < |entries| ==> entries[i].seqNo == first + i
    requires first <= resume <= latest < first + |entries|
    ensures Slice(entries, resume, latest) == entries[resume - first + 1..latest - first + 1]
  {
    hide Slice;
    var k := latest - first + 1;
    SliceToEnd(entries[..k], first, resume, latest);
    SliceNone(entries[k..], resume, latest);
    SliceConcat(entries[..k], entries[k..], resume, latest);
    assert entries[..k] + entries[k..] == entries;
    assert resume - first < k ==> entries[..k][resume - first + 1..] == entries[resume - first + 1..k];
  }

  /**
   For a history numbered 1..n the answer is InWindow exactly when oldest retained <= resume <= n
   (an empty history: resume == 0), and then its chunks are precisely the history after `resume`.
   */
  lemma ReplayIsHistorySlice(h: seq<Chunk>, budget: nat, resume: nat)
    requires Numbered(h)
    ensures var r := Retained(h, budget);
            var answer := ReplaySince(r, resume, |h|);
            && (answer.InWindow? <==> |h| - |r| + (if h == [] then 0 else 1) <= resume <= |h|)
            && (answer.InWindow? ==> answer == InWindow(h[resume..], |h|))
            && (answer.GapExceeded? ==> answer.oldestAvailable == if h == [] then None else Some(|h| - |r| + 1))
  {
    hide Retained, TotalBytes, Slice;
    RetainedIsLongestFit(h, budget);
    SuffixIsHistorySlice(h, |Retained(h, budget)|, resume);
  }

  /** The answer from any suffix of a numbered history. */
  lemma SuffixIsHistorySlice(h: seq<Chunk>, kept: nat, resume: nat)
    requires Numbered(h) && kept <= |h| && (h != [] ==> kept > 0)
    ensures var r := h[|h| - kept..];
            var answer := ReplaySince(r, resume, |h|);
            && (answer.InWindow? <==> |h| - kept + (if h == [] then 0 else 1) <= resume <= |h|)
            && (answer.InWindow? ==> answer == InWindow(h[resume..], |h|))
            && (answer.GapExceeded? ==> answer.oldestAvailable == if h == [] then None else Some(|h| - kept + 1))
  {
    hide Slice;
    var r, first := h[|h| - kept..], |h| - kept + 1;
    if h == [] {
      SliceNone(r, resume, 0);
    } else if first <= resume <= |h| {
      SliceToEnd(r, first, resume, |h|);
      SuffixTail(h, kept, resume);
    }
  }

  lemma SuffixTail(h: seq<Chunk>, kept: nat, resume: nat)
    requires 0 < kept <= |h| && |h| - kept < resume <= |h|
    ensures var r, k := h[|h| - kept..], resume - (|h| - kept);
            k <= |r| && r[k..] == h[resume..]
  {
  }

  // ------------------------------------------------------------------ the object

  class ReplayBuffer {
    var entries: seq<Chunk>
    var totalBytes: nat
    var budgetBytes: nat
    /** Everything ever pushed. */
    ghost var history: seq<Chunk>

    ghost predicate Valid()
      reads this
    {
      entries == Retained(history, budgetBytes) && totalBytes == TotalBytes(entries)
    }

    constructor (budget: nat)
      ensures Valid() && history == [] && budgetBytes == budget
    {
      entries, totalBytes, budgetBytes, history := [], 0, budget, [];
    }

    method Push(seqNo: nat, data: Bytes)
      requires Valid()
      modifies this
      ensures Valid() && budgetBytes == old(budgetBytes)
      ensures history == old(history) + [Chunk(seqNo, data)]
    {
      var c := Chunk(seqNo, data);
      entries := entries + [c];
      TotalBytesConcat(old(entries), [c]);
      totalBytes := totalBytes + |data|;
      ghost var all := entries;
      while totalBytes > budgetBytes && |entries| > 1
        invariant totalBytes == TotalBytes(entries) && entries != []
        invariant Retained(entries, budgetBytes) == Retained(all, budgetBytes)
        invariant budgetBytes == old(budgetBytes) && history == old(history)
        decreases |entries|
      {
        totalBytes := totalBytes - |entries[0].data|;
        entries := entries[1..];
      }
      history := history + [c];
      RetainedAfterPush(old(history), c, budgetBytes);
    }

    method Oldest() returns (r: Option<nat>)
      requires Valid()
      ensures r == OldestSeq(Retained(history, budgetBytes))
    {
      r := if entries == [] then None else Some(entries[0].seqNo);
    }

    method Replay(resume: nat, latest: nat) returns (answer: ReplayOutcome)
      requires Valid()
      ensures answer == ReplaySince(Retained(history, budgetBytes), resume, latest)
    {
      var oldest := if entries == [] then None else Some(entries[0].seqNo);
      if resume > latest {
        return GapExceeded(oldest);
      }
      var availableFrom := if oldest.Some? then oldest.value else latest;
      if resume >= availableFrom {
        var chunks := [];
        for i := 0 to |entries|
          invariant chunks == Slice(entries[..i], resume, latest)
        {
          assert entries[..i + 1][..i] == entries[..i];
          if resume < entries[i].seqNo <= latest {
            chunks := chunks + [entries[i]];
          }
        }
        assert entries[..|entries|] == entries;
        return InWindow(chunks, latest);
      }
      return GapExceeded(oldest);
    }
  }
}
