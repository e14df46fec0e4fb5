/**
 In which order keystrokes come out: crates/tymux-cli/src/input.rs, lines 71-158.

 Every forwarded byte is one of the input, so it has a position there. The theorem gives the exact
 condition under which these positions increase, that is, under which nothing overtakes.
 */
module InputOrder {
  import opened Common
  import opened Input

  function Run(lo: int, n: nat): (r: seq<int>)
    ensures |r| == n && forall i :: 0 <= i < n ==> r[i] == lo + i
  {
    seq(n, i requires 0 <= i < n => lo + i)
  }

  /** The position of the byte that armed the leader held after `bytes`. */
  function ArmedAt(cfg: Config, bytes: seq<Byte>): int {
    if bytes == [] then 0
    else
      var prefix := bytes[..|bytes| - 1];
      if Process(cfg, FRESH, prefix).state.armed.None? && Process(cfg, FRESH, bytes).state.armed.Some? then |prefix|
      else ArmedAt(cfg, prefix)
  }

  /**
   The positions of what byte `n` sends out: a released leader with the byte after it, the byte alone,
   or a first stretch of what was being scanned.
   */
  function Positions(cfg: Config, s: Scanner, armedAt: int, n: nat, b: Byte): seq<int> {
    var sent := Forwarded(Step(cfg, s, b).out);
    if !s.scan.Normal? then Run(n - |ScanBytes(s)|, |sent|)
    else if |sent| == 2 then [armedAt, n]
    else if |sent| == 1 then [n]
    else []
  }

  /** The positions of all that was forwarded for `bytes`, in the order it went out. */
  function Sent(cfg: Config, bytes: seq<Byte>): seq<int> {
    if bytes == [] then []
    else
      var prefix := bytes[..|bytes| - 1];
      Sent(cfg, prefix) +
      Positions(cfg, Process(cfg, FRESH, prefix).state, ArmedAt(cfg, prefix), |prefix|, bytes[|bytes| - 1])
  }

  predicate InRange(ps: seq<int>, n: nat) {
    forall i :: 0 <= i < |ps| ==> 0 <= ps[i] < n
  }

  function Pick(bytes: seq<Byte>, ps: seq<int>): (r: seq<Byte>)
    requires InRange(ps, |bytes|)
    ensures |r| == |ps| && forall i :: 0 <= i < |ps| ==> r[i] == bytes[ps[i]]
  {
    seq(|ps|, i requires 0 <= i < |ps| => bytes[ps[i]])
  }

  predicate Increasing(ps: seq<int>) {
    forall i, j :: 0 <= i < j < |ps| ==> ps[i] < ps[j]
  }

  // ------------------------------------------------------------------ the guard of the failing branch

  /** The byte `b` is a key that releases the armed leader unbound: both are forwarded now. */
  predicate Releases(cfg: Config, s: Scanner, b: Byte) {
    && s.scan.Normal? && s.armed.Some? && b != ESC && Classify(b) != s.armed.value.key
    && FindBinding(cfg.bindings, s.armed.value.key, Classify(b)).None?
  }

  /** ... after something that arrived behind the leader was already forwarded. */
  predicate LateRelease(cfg: Config, bytes: seq<Byte>, b: Byte) {
    var a := ArmedAt(cfg, bytes);
    && Releases(cfg, Process(cfg, FRESH, bytes).state, b)
    && 0 <= a <= |bytes|
    && |Forwarded(Process(cfg, FRESH, bytes[..a]).out)| < |Forwarded(Process(cfg, FRESH, bytes).out)|
  }

  predicate NoLateRelease(cfg: Config, bytes: seq<Byte>) {
    forall i :: 0 <= i < |bytes| ==> !LateRelease(cfg, bytes[..i], bytes[i])
  }

  // ------------------------------------------------------------------ what one byte sends

  /** Scanning sends a first part of what is held with the new byte, and keeps a last part. */
  lemma ScanSends(cfg: Config, s: Scanner, b: Byte)
    requires !s.scan.Normal?
    ensures var e, buf := Step(cfg, s, b), ScanBytes(s) + [b];
            var sent, kept := Forwarded(e.out), ScanBytes(e.state);
            && e.state.armed == s.armed && sent <= buf
            && |sent| + |kept| <= |buf| && kept == buf[|buf| - |kept|..]
  {
    hide HandleNormal, Forwarded, EndsWith;
    var e, buf := Step(cfg, s, b), ScanBytes(s) + [b];
    OneOutput(if e.out == [] then Fire(0) else e.out[0]);
    if s.scan.InPaste? && EndsWith(buf, PASTE_END) {
      EndIsLong(buf);
    }
  }

  /** A key outside a scan: held as a leader, sent alone, swallowed, or sent behind the released leader. */
  lemma KeySends(cfg: Config, s: Scanner, b: Byte)
    requires s.scan.Normal? && b != ESC && ArmedOk(s)
    ensures var e := Step(cfg, s, b);
            var sent := Forwarded(e.out);
            && e.state.scan.Normal?
            && (e.state.armed.Some? ==> s.armed.None? && e.state.armed.value.bytes == [b] && sent == [])
            && (Releases(cfg, s, b) <==> |sent| == 2)
            && (Releases(cfg, s, b) ==> sent == s.armed.value.bytes + [b])
            && (!Releases(cfg, s, b) ==> sent == [] || sent == [b])
  {
    hide FindBinding, Arms, Forwarded, Classify;
    var e := Step(cfg, s, b);
    OneOutput(if e.out == [] then Fire(0) else e.out[0]);
    assert e.out == [] || e.out == [e.out[0]];
  }

  // ------------------------------------------------------------------ the bookkeeping invariant

  /**
   After `bytes`: what is scanned are the last bytes; a leader was armed at `a`, before them, when `k`
   bytes had been sent; all of `sent` came before what is scanned, `k` of them before the leader and
   the others behind it; and the bytes at these positions are what went out.
   */
  ghost predicate Track(bytes: seq<Byte>, s: Scanner, a: int, k: nat, sent: seq<int>, out: seq<Byte>) {
    && |ScanBytes(s)| <= |bytes| && bytes[|bytes| - |ScanBytes(s)|..] == ScanBytes(s)
    && InRange(sent, |bytes| - |ScanBytes(s)|) && out == Pick(bytes, sent)
    && (s.armed.Some? ==>
          && 0 <= a < |bytes| - |ScanBytes(s)| && s.armed.value.bytes == [bytes[a]] && k <= |sent|
          && (forall i :: 0 <= i < k ==> sent[i] < a)
          && (forall i :: k <= i < |sent| ==> a < sent[i]))
  }

  lemma PickMore(bytes: seq<Byte>, b: Byte, sent: seq<int>, more: seq<int>)
    requires InRange(sent, |bytes|) && InRange(more, |bytes| + 1)
    ensures InRange(sent + more, |bytes| + 1) && Pick(bytes + [b], sent + more) == Pick(bytes, sent) + Pick(bytes + [b], more)
  {
  }

  lemma AppendStretch(sent: seq<int>, lo: int, n: nat)
    requires forall i :: 0 <= i < |sent| ==> sent[i] < lo
    ensures Increasing(sent + Run(lo, n)) <==> Increasing(sent)
  {
    var all := sent + Run(lo, n);
    assert forall i :: 0 <= i < |sent| ==> all[i] == sent[i];
    if Increasing(all) {
      forall i, j | 0 <= i < j < |sent| ensures sent[i] < sent[j] { assert all[i] < all[j]; }
    }
  }

  /** A first part `f` of the `held` last bytes with the new one goes out: its positions and what they pick. */
  lemma StretchSent(bytes: seq<Byte>, b: Byte, held: nat, sent: seq<int>, f: seq<Byte>)
    requires held <= |bytes| && InRange(sent, |bytes| - held) && f <= bytes[|bytes| - held..] + [b]
    ensures var more := Run(|bytes| - held, |f|);
            && InRange(more, |bytes| - held + |f|) && InRange(sent + more, |bytes| - held + |f|)
            && InRange(sent, |bytes|) && InRange(more, |bytes| + 1)
            && Pick(bytes + [b], more) == f
            && (Increasing(sent + more) <==> Increasing(sent))
  {
    hide Increasing;
    var lo, more, bytes' := |bytes| - held, Run(|bytes| - held, |f|), bytes + [b];
    assert |f| <= held + 1;
    forall i | 0 <= i < |f| ensures bytes'[lo + i] == f[i] {
      assert (bytes[lo..] + [b])[i] == f[i];
    }
    AppendStretch(sent, lo, |f|);
  }

  /** The last bytes of what was held with the new one are the last bytes of all. */
  lemma KeptIsSuffix(bytes: seq<Byte>, b: Byte, held: nat, kept: seq<Byte>)
    requires held <= |bytes| && |kept| <= held + 1
    requires var buf := bytes[|bytes| - held..] + [b]; kept == buf[|buf| - |kept|..]
    ensures var bytes' := bytes + [b]; bytes'[|bytes'| - |kept|..] == kept
  {
    assert (bytes + [b])[|bytes| - held..] == bytes[|bytes| - held..] + [b];
  }

  lemma ScanTrack(cfg: Config, bytes: seq<Byte>, b: Byte, s: Scanner, a: int, k: nat, sent: seq<int>, out: seq<Byte>)
    requires Track(bytes, s, a, k, sent, out) && !s.scan.Normal?
    ensures var e := Step(cfg, s, b);
            var more := Positions(cfg, s, a, |bytes|, b);
            && Track(bytes + [b], e.state, a, k, sent + more, out + Forwarded(e.out))
            && e.state.armed == s.armed
            && (Increasing(sent + more) <==> Increasing(sent))
  {
    hide Step, Forwarded, Increasing, ScanBytes, Pick, Track;
    ScanSends(cfg, s, b);
    TrackScan(bytes, s, a, k, sent, out);
    var e, h := Step(cfg, s, b), |ScanBytes(s)|;
    var f := Forwarded(e.out);
    StretchSent(bytes, b, h, sent, f);
    KeptIsSuffix(bytes, b, h, ScanBytes(e.state));
    PickMore(bytes, b, sent, Run(|bytes| - h, |f|));
    TrackGrows(bytes, b, s, e.state, a, k, sent, Run(|bytes| - h, |f|), out, f);
  }

  lemma TrackScan(bytes: seq<Byte>, s: Scanner, a: int, k: nat, sent: seq<int>, out: seq<Byte>)
    requires Track(bytes, s, a, k, sent, out)
    ensures |ScanBytes(s)| <= |bytes| && bytes[|bytes| - |ScanBytes(s)|..] == ScanBytes(s)
    ensures InRange(sent, |bytes| - |ScanBytes(s)|) && out == Pick(bytes, sent)
  {
    hide ScanBytes;
  }

  /** The bookkeeping of a byte that leaves the leader alone and sends something from behind it. */
  lemma TrackGrows(bytes: seq<Byte>, b: Byte, s: Scanner, s': Scanner, a: int, k: nat, sent: seq<int>, more: seq<int>,
                   out: seq<Byte>, f: seq<Byte>)
    requires Track(bytes, s, a, k, sent, out) && s'.armed == s.armed
    requires var rest, rest' := |bytes| - |ScanBytes(s)|, |bytes| + 1 - |ScanBytes(s')|;
             && rest <= rest' && |ScanBytes(s')| <= |bytes| + 1
             && (bytes + [b])[rest'..] == ScanBytes(s')
             && (forall i :: 0 <= i < |more| ==> rest <= more[i] < rest')
    requires InRange(sent + more, |bytes| + 1) && out + f == Pick(bytes + [b], sent + more)
    ensures Track(bytes + [b], s', a, k, sent + more, out + f)
  {
    hide ScanBytes, Pick;
    var all := sent + more;
    assert forall i :: 0 <= i < |sent| ==> all[i] == sent[i];
    assert forall i :: |sent| <= i < |all| ==> all[i] == more[i - |sent|];
  }

  lemma EscapeTrack(cfg: Config, bytes: seq<Byte>, s: Scanner, a: int, k: nat, sent: seq<int>, out: seq<Byte>)
    requires Track(bytes, s, a, k, sent, out) && s.scan.Normal?
    ensures var e := Step(cfg, s, ESC);
            && Positions(cfg, s, a, |bytes|, ESC) == []
            && Track(bytes + [ESC], e.state, a, k, sent, out + Forwarded(e.out)) && e.state.armed == s.armed
  {
    hide Step, Forwarded;
    EscapeHeld(cfg, s);
    OneOutput(Fire(0));
    PickMore(bytes, ESC, sent, []);
    assert sent + [] == sent && Pick(bytes + [ESC], []) == [];
  }

  /** Increasing with one more, or with a released leader and its key. */
  lemma AppendKey(sent: seq<int>, n: int)
    requires forall i :: 0 <= i < |sent| ==> sent[i] < n
    ensures Increasing(sent + [n]) <==> Increasing(sent)
  {
    AppendStretch(sent, n, 1);
    assert Run(n, 1) == [n];
  }

  lemma AppendRelease(sent: seq<int>, a: int, k: nat, n: int)
    requires k <= |sent| && a < n && (forall i :: 0 <= i < |sent| ==> sent[i] < n)
    requires (forall i :: 0 <= i < k ==> sent[i] < a) && (forall i :: k <= i < |sent| ==> a < sent[i])
    ensures Increasing(sent + [a, n]) <==> Increasing(sent) && k == |sent|
  {
    var all := sent + [a, n];
    assert forall i :: 0 <= i < |sent| ==> all[i] == sent[i];
    assert all[|sent|] == a && all[|sent| + 1] == n;
    if k < |sent| {
      assert all[|sent| - 1] > all[|sent|];
    }
    if Increasing(all) {
      forall i, j | 0 <= i < j < |sent| ensures sent[i] < sent[j] { assert all[i] < all[j]; }
    }
  }

  lemma KeyTrack(cfg: Config, bytes: seq<Byte>, b: Byte, s: Scanner, a: int, k: nat, sent: seq<int>, out: seq<Byte>)
    requires Track(bytes, s, a, k, sent, out) && s.scan.Normal? && b != ESC && ArmedOk(s)
    ensures var e := Step(cfg, s, b);
            var more := Positions(cfg, s, a, |bytes|, b);
            var arms := s.armed.None? && e.state.armed.Some?;
            && Track(bytes + [b], e.state, if arms then |bytes| else a, if arms then |sent| else k, sent + more, out + Forwarded(e.out))
            && (e.state.armed.Some? ==> arms)
            && (Increasing(sent + more) <==> Increasing(sent) && !(Releases(cfg, s, b) && k < |sent|))
  {
    hide Step, Forwarded, Releases;
    KeySends(cfg, s, b);
    var e, n := Step(cfg, s, b), |bytes|;
    var f, bytes', more := Forwarded(e.out), bytes + [b], Positions(cfg, s, a, n, b);
    if Releases(cfg, s, b) {
      ReleasesArmed(cfg, s, b);
    }
    assert InRange(more, n + 1) && Pick(bytes', more) == f;
    PickMore(bytes, b, sent, more);
    if Releases(cfg, s, b) {
      AppendRelease(sent, a, k, n);
    } else if f == [b] {
      AppendKey(sent, n);
    } else {
      assert sent + more == sent;
    }
  }

  lemma ReleasesArmed(cfg: Config, s: Scanner, b: Byte)
    requires Releases(cfg, s, b)
    ensures s.armed.Some? && s.scan.Normal? && b != ESC
  {
  }

  // ------------------------------------------------------------------ whole inputs

  /** How much had been sent when the present leader was armed. */
  function SentBefore(cfg: Config, bytes: seq<Byte>): nat {
    var a := ArmedAt(cfg, bytes);
    if 0 <= a <= |bytes| then |Forwarded(Process(cfg, FRESH, bytes[..a]).out)| else 0
  }

  ghost predicate Tracked(cfg: Config, bytes: seq<Byte>) {
    var e := Process(cfg, FRESH, bytes);
    Track(bytes, e.state, ArmedAt(cfg, bytes), SentBefore(cfg, bytes), Sent(cfg, bytes), Forwarded(e.out))
  }

  lemma SentSnoc(cfg: Config, bytes: seq<Byte>, b: Byte)
    ensures Sent(cfg, bytes + [b]) ==
              Sent(cfg, bytes) + Positions(cfg, Process(cfg, FRESH, bytes).state, ArmedAt(cfg, bytes), |bytes|, b)
    ensures var s, s' := Process(cfg, FRESH, bytes).state, Process(cfg, FRESH, bytes + [b]).state;
            ArmedAt(cfg, bytes + [b]) == if s.armed.None? && s'.armed.Some? then |bytes| else ArmedAt(cfg, bytes)
  {
    hide Process, Positions;
    assert (bytes + [b])[..|bytes + [b]| - 1] == bytes;
  }

  lemma SentBeforeSnoc(cfg: Config, bytes: seq<Byte>, b: Byte)
    requires Tracked(cfg, bytes)
    ensures var s, s' := Process(cfg, FRESH, bytes).state, Process(cfg, FRESH, bytes + [b]).state;
            && (s.armed.None? && s'.armed.Some? ==> SentBefore(cfg, bytes + [b]) == |Sent(cfg, bytes)|)
            && (s.armed.Some? && s'.armed.Some? ==> SentBefore(cfg, bytes + [b]) == SentBefore(cfg, bytes))
  {
    hide Process, Sent, ArmedAt, Forwarded;
    SentSnoc(cfg, bytes, b);
    assert (bytes + [b])[..|bytes|] == bytes;
    var a := ArmedAt(cfg, bytes);
    if 0 <= a <= |bytes| {
      assert (bytes + [b])[..a] == bytes[..a];
    }
  }

  lemma TrackedStep(cfg: Config, bytes: seq<Byte>, b: Byte)
    requires Tracked(cfg, bytes)
    ensures Tracked(cfg, bytes + [b])
    ensures Increasing(Sent(cfg, bytes + [b])) <==> Increasing(Sent(cfg, bytes)) && !LateRelease(cfg, bytes, b)
  {
    hide Process, Step, Sent, ArmedAt, Forwarded, SentBefore, Positions, Increasing, Releases, Track;
    var before := Process(cfg, FRESH, bytes);
    var s, a, k, sent := before.state, ArmedAt(cfg, bytes), SentBefore(cfg, bytes), Sent(cfg, bytes);
    var e := Step(cfg, s, b);
    ProcessSnoc(cfg, FRESH, bytes, b);
    OutConcat(before.out, e.out);
    SentSnoc(cfg, bytes, b);
    SentBeforeSnoc(cfg, bytes, b);
    LateMeansMore(cfg, bytes, b);
    ProcessWellFormed(cfg, FRESH, bytes);
    if !s.scan.Normal? {
      ScanTrack(cfg, bytes, b, s, a, k, sent, Forwarded(before.out));
      TrackAnyLeader(bytes + [b], e.state, a, k, sent + Positions(cfg, s, a, |bytes|, b), Forwarded(before.out) + Forwarded(e.out),
                     SentBefore(cfg, bytes + [b]));
    } else if b == ESC {
      EscapeTrack(cfg, bytes, s, a, k, sent, Forwarded(before.out));
      assert sent + Positions(cfg, s, a, |bytes|, b) == sent;
      TrackAnyLeader(bytes + [b], e.state, a, k, sent, Forwarded(before.out) + Forwarded(e.out), SentBefore(cfg, bytes + [b]));
    } else {
      KeyTrack(cfg, bytes, b, s, a, k, sent, Forwarded(before.out));
      var arms := s.armed.None? && e.state.armed.Some?;
      TrackAnyLeader(bytes + [b], e.state, if arms then |bytes| else a, if arms then |sent| else k,
                     sent + Positions(cfg, s, a, |bytes|, b), Forwarded(before.out) + Forwarded(e.out), SentBefore(cfg, bytes + [b]));
    }
  }

  /** Without a leader the count at its arming does not matter. */
  lemma TrackAnyLeader(bytes: seq<Byte>, s: Scanner, a: int, k: nat, sent: seq<int>, out: seq<Byte>, k': nat)
    requires Track(bytes, s, a, k, sent, out) && (s.armed.Some? ==> k == k')
    ensures Track(bytes, s, a, k', sent, out)
  {
  }

  lemma LateMeansMore(cfg: Config, bytes: seq<Byte>, b: Byte)
    requires Tracked(cfg, bytes)
    ensures LateRelease(cfg, bytes, b) <==>
              Releases(cfg, Process(cfg, FRESH, bytes).state, b) && SentBefore(cfg, bytes) < |Sent(cfg, bytes)|
    ensures Releases(cfg, Process(cfg, FRESH, bytes).state, b) ==>
              Process(cfg, FRESH, bytes).state.scan.Normal? && b != ESC
  {
    hide Process, Sent, ArmedAt, Forwarded, Classify, FindBinding;
  }

  lemma NothingTracked(cfg: Config)
    ensures Tracked(cfg, []) && Sent(cfg, []) == []
  {
    hide Process, ArmedAt, SentBefore, Forwarded;
    ProcessNothing(cfg, FRESH);
    OneOutput(Fire(0));
    assert Pick([], []) == [];
  }

  /**
   The exact condition: the bytes that are forwarded are those at the positions `Sent`, and these
   positions increase iff no armed leader is released, by a key that is bound to nothing, after
   something that arrived behind it was forwarded.
   */
  lemma {:induction false} OrderKeptIff(cfg: Config, bytes: seq<Byte>)
    ensures InRange(Sent(cfg, bytes), |bytes|)
    ensures Forwarded(Process(cfg, FRESH, bytes).out) == Pick(bytes, Sent(cfg, bytes))
    ensures Increasing(Sent(cfg, bytes)) <==> NoLateRelease(cfg, bytes)
  {
    hide Process, Sent, Forwarded, LateRelease, Increasing;
    OrderFrom(cfg, bytes);
    TrackedIsPicked(cfg, bytes);
  }

  lemma TrackedIsPicked(cfg: Config, bytes: seq<Byte>)
    requires Tracked(cfg, bytes)
    ensures InRange(Sent(cfg, bytes), |bytes|) && Forwarded(Process(cfg, FRESH, bytes).out) == Pick(bytes, Sent(cfg, bytes))
  {
    hide Process, Sent, Forwarded, ArmedAt, SentBefore;
  }

  lemma {:induction false} OrderFrom(cfg: Config, bytes: seq<Byte>)
    ensures Tracked(cfg, bytes)
    ensures Increasing(Sent(cfg, bytes)) <==> NoLateRelease(cfg, bytes)
  {
    hide Process, Sent, Forwarded, LateRelease, Tracked, NoLateRelease;
    if bytes == [] {
      NothingTracked(cfg);
      NothingReleased(cfg);
    } else {
      var prefix, b := bytes[..|bytes| - 1], bytes[|bytes| - 1];
      assert bytes == prefix + [b];
      OrderFrom(cfg, prefix);
      TrackedStep(cfg, prefix, b);
      NoLateSnoc(cfg, prefix, b);
    }
  }

  lemma NothingReleased(cfg: Config)
    ensures NoLateRelease(cfg, [])
  {
  }

  lemma NoLateSnoc(cfg: Config, prefix: seq<Byte>, b: Byte)
    ensures NoLateRelease(cfg, prefix + [b]) <==> NoLateRelease(cfg, prefix) && !LateRelease(cfg, prefix, b)
  {
    hide LateRelease;
    var bytes := prefix + [b];
    assert bytes[..|prefix|] == prefix && bytes[|prefix|] == b;
    assert forall i :: 0 <= i < |prefix| ==> bytes[..i] == prefix[..i] && bytes[i] == prefix[i];
    if NoLateRelease(cfg, bytes) {
      forall i | 0 <= i < |prefix| ensures !LateRelease(cfg, prefix[..i], prefix[i]) {
        assert !LateRelease(cfg, bytes[..i], bytes[i]);
      }
      assert !LateRelease(cfg, bytes[..|prefix|], bytes[|prefix|]);
    }
  }

  // ------------------------------------------------------------------ a condition on the input alone

  /** `a` is what remains of `b` after striking out some bytes. */
  predicate Subsequence(a: seq<Byte>, b: seq<Byte>)
    decreases |b|
  {
    if a == [] then true
    else if b == [] then false
    else
      || (a[|a| - 1] == b[|b| - 1] && Subsequence(a[..|a| - 1], b[..|b| - 1]))
      || Subsequence(a, b[..|b| - 1])
  }

  /** Bytes at increasing positions are what remains after striking out the others. */
  lemma {:induction false} PickedIsSubsequence(bytes: seq<Byte>, ps: seq<int>)
    requires InRange(ps, |bytes|) && Increasing(ps)
    ensures Subsequence(Pick(bytes, ps), bytes)
    decreases |bytes|
  {
    if ps != [] {
      assert 0 <= ps[0] < |bytes|;
      var n, rest := |bytes| - 1, bytes[..|bytes| - 1];
      var last := |ps| - 1;
      assert forall i :: 0 <= i < last ==> ps[i] < ps[last];
      if ps[last] == n {
        PickedIsSubsequence(rest, ps[..last]);
        assert Pick(bytes, ps)[..last] == Pick(rest, ps[..last]);
      } else {
        PickedIsSubsequence(rest, ps);
        assert Pick(bytes, ps) == Pick(rest, ps);
      }
    }
  }

  /** While a leader is armed no ESC arrives, so nothing is scanned behind its back. */
  predicate NoEscapeWhileArmed(cfg: Config, s: Scanner, bytes: seq<Byte>) {
    forall i :: 0 <= i < |bytes| ==> Process(cfg, s, bytes[..i]).state.armed.Some? ==> bytes[i] != ESC
  }

  /** If no ESC arrives while a leader is armed, nothing is forwarded while one is. */
  lemma {:induction false} NothingBehindLeader(cfg: Config, bytes: seq<Byte>)
    requires NoEscapeWhileArmed(cfg, FRESH, bytes)
    ensures Tracked(cfg, bytes) && NoLateRelease(cfg, bytes)
    ensures var s := Process(cfg, FRESH, bytes).state;
            s.armed.Some? ==> s.scan.Normal? && SentBefore(cfg, bytes) == |Sent(cfg, bytes)|
  {
    hide Process, Step, Sent, Forwarded, LateRelease, Tracked, NoLateRelease, SentBefore, NoEscapeWhileArmed, Positions;
    if bytes == [] {
      NothingTracked(cfg);
      NothingReleased(cfg);
      ProcessNothing(cfg, FRESH);
    } else {
      var prefix, b := bytes[..|bytes| - 1], bytes[|bytes| - 1];
      assert bytes == prefix + [b];
      NoEscapePrefix(cfg, FRESH, prefix, b);
      NothingBehindLeader(cfg, prefix);
      TrackedStep(cfg, prefix, b);
      NoLateSnoc(cfg, prefix, b);
      LateMeansMore(cfg, prefix, b);
      SentBeforeSnoc(cfg, prefix, b);
      SentSnoc(cfg, prefix, b);
      ProcessSnoc(cfg, FRESH, prefix, b);
      ProcessWellFormed(cfg, FRESH, prefix);
      LeaderAlone(cfg, Process(cfg, FRESH, prefix).state, ArmedAt(cfg, prefix), |prefix|, b);
    }
  }

  lemma LeaderAlone(cfg: Config, s: Scanner, a: int, n: nat, b: Byte)
    requires WellFormed(s) && (s.armed.Some? ==> s.scan.Normal? && b != ESC)
    ensures var s' := Step(cfg, s, b).state;
            s'.armed.Some? ==> s'.scan.Normal? && s.armed.None? && Positions(cfg, s, a, n, b) == []
  {
    hide Step, Forwarded;
    if !s.scan.Normal? {
      ScanSends(cfg, s, b);
    } else if b == ESC {
      EscapeHeld(cfg, s);
    } else {
      KeySends(cfg, s, b);
    }
  }

  lemma NoEscapePrefix(cfg: Config, s: Scanner, prefix: seq<Byte>, b: Byte)
    requires NoEscapeWhileArmed(cfg, s, prefix + [b])
    ensures NoEscapeWhileArmed(cfg, s, prefix) && (Process(cfg, s, prefix).state.armed.Some? ==> b != ESC)
  {
    hide Process;
    var bytes := prefix + [b];
    forall i | 0 <= i < |prefix| ensures Process(cfg, s, prefix[..i]).state.armed.Some? ==> prefix[i] != ESC {
      assert prefix[..i] == bytes[..i];
    }
    assert bytes[..|prefix|] == prefix && bytes[|prefix|] == b;
  }

  /**
   Order: if no ESC arrives while a leader is armed, the forwarded bytes come out in the order they
   came in, with nothing duplicated or made up.
   */
  lemma ForwardedKeepsOrder(cfg: Config, bytes: seq<Byte>)
    requires NoEscapeWhileArmed(cfg, FRESH, bytes)
    ensures Increasing(Sent(cfg, bytes))
    ensures Subsequence(Forwarded(Process(cfg, FRESH, bytes).out), bytes)
  {
    hide Process, Forwarded, Sent, Subsequence;
    NothingBehindLeader(cfg, bytes);
    OrderKeptIff(cfg, bytes);
    PickedIsSubsequence(bytes, Sent(cfg, bytes));
  }

  /**
   Without that condition order can be lost: an armed leader waits while an escape sequence typed
   after it is already passed on.
   */
  lemma EscapeCanOvertakeLeader()
    ensures Forwarded(Process(BARE, FRESH, [2, 27, 120, 121]).out) == [27, 120, 2, 121]
    ensures !Subsequence([27, 120, 2, 121], [2, 27, 120, 121])
  {
    hide *;
    LeaderThenEscape();
    EscapeThenKey();
    var s := Scanner(Some(Armed([2], Key(98, true))), Normal);
    ProcessConcat(BARE, FRESH, [2, 27], [120, 121]);
    OutConcat([Forward([27, 120])], [Forward([2, 121])]);
    OneOutput(Forward([27, 120]));
    OneOutput(Forward([2, 121]));
    assert [2 as Byte, 27] + [120, 121] == [2, 27, 120, 121];
    assert [Forward([27, 120])] + [Forward([2, 121])] == [Forward([27, 120]), Forward([2, 121])];
    ThenAfterNothing(Process(BARE, FRESH, [2, 27]), Process(BARE, Process(BARE, FRESH, [2, 27]).state, [120, 121]));
    assert [27 as Byte, 120] + [2, 121] == [27, 120, 2, 121];
    NoEmbedding();
  }

  /** C-b as leader and no bindings at all. */
  const BARE := Config(Key(98, true), [])

  lemma LeaderThenEscape()
    ensures Process(BARE, FRESH, [2, 27]) == Effect(Scanner(Some(Armed([2], Key(98, true))), MatchingPasteStart([27])), [], 0, 0)
  {
    hide Process, Step, Arms, EndsWith, FindBinding, HandleNormal;
    var s1 := Scanner(Some(Armed([2], Key(98, true))), Normal);
    assert Step(BARE, FRESH, 2) == Effect(s1, [], 0, 0) by { LeaderArms(BARE, FRESH, 2); }
    assert Step(BARE, s1, 27) == Effect(s1.(scan := MatchingPasteStart([27])), [], 0, 0) by { EscapeHeld(BARE, s1); }
    ProcessTwo(BARE, FRESH, 2, 27);
  }

  lemma EscapeThenKey()
    ensures Process(BARE, Scanner(Some(Armed([2], Key(98, true))), MatchingPasteStart([27])), [120, 121])
            == Effect(FRESH, [Forward([27, 120]), Forward([2, 121])], 0, 0)
  {
    hide Process, Step;
    var s1 := Scanner(Some(Armed([2], Key(98, true))), Normal);
    var s2 := s1.(scan := MatchingPasteStart([27]));
    FlushedEscape(BARE, s2);
    UnboundKeyForwarded(BARE, s1, 121);
    assert [2 as Byte] + [121] == [2, 121];
    ProcessTwo(BARE, s2, 120, 121);
  }

  lemma LeaderArms(cfg: Config, s: Scanner, b: Byte)
    requires s.scan.Normal? && s.armed.None? && b != ESC && Classify(b) == cfg.leader
    ensures Step(cfg, s, b) == Effect(s.(armed := Some(Armed([b], cfg.leader))), [], 0, 0)
  {
  }

  lemma UnboundKeyForwarded(cfg: Config, s: Scanner, b: Byte)
    requires s.scan.Normal? && s.armed.Some? && b != ESC && Classify(b) != s.armed.value.key && cfg.bindings == []
    ensures Step(cfg, s, b) == Effect(s.(armed := None), [Forward(s.armed.value.bytes + [b])], 0, 0)
  {
  }

  lemma ProcessTwo(cfg: Config, s: Scanner, a: Byte, b: Byte)
    ensures var first := Step(cfg, s, a);
            Process(cfg, s, [a, b]) == Then(first, Step(cfg, first.state, b))
  {
    hide Step;
    assert [a, b][..1] == [a] && [a][..0] == [];
    assert Process(cfg, s, []) == Effect(s, [], 0, 0);
    assert Process(cfg, s, [a]) == Step(cfg, s, a);
  }

  lemma FlushedEscape(cfg: Config, s: Scanner)
    requires s.scan == MatchingPasteStart([27])
    ensures Step(cfg, s, 120) == Effect(s.(scan := Normal), [Forward([27, 120])], 0, 0)
  {
    hide HandleNormal, EndsWith;
    var buf: seq<Byte> := [27] + [120];
    assert buf == [27, 120] && buf[1] != PASTE_START[1];
  }

  lemma NoEmbedding()
    ensures !Subsequence([27, 120, 2, 121], [2, 27, 120, 121])
  {
    var a: seq<Byte>, b: seq<Byte> := [27, 120, 2, 121], [2, 27, 120, 121];
    if Subsequence(a, b) {
      SubsequenceEqualLength(a, b);
    }
  }

  lemma {:induction false} SubsequenceEqualLength(a: seq<Byte>, b: seq<Byte>)
    requires Subsequence(a, b)
    ensures |a| <= |b| && (|a| == |b| ==> a == b)
    decreases |b|
  {
    if a != [] {
      if a[|a| - 1] == b[|b| - 1] && Subsequence(a[..|a| - 1], b[..|b| - 1]) {
        SubsequenceEqualLength(a[..|a| - 1], b[..|b| - 1]);
      } else {
        SubsequenceEqualLength(a, b[..|b| - 1]);
      }
    }
  }
}
