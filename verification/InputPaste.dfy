/**
 Bracketed paste is transparent: crates/tymux-cli/src/input.rs, lines 82-115.

 What arrives between a start and an end marker is forwarded unchanged, however the bytes are cut
 into reads, because the end marker cannot overlap itself.
 */
module InputPaste {
  import opened Common
  import opened Input

  predicate Contains(content: seq<Byte>, marker: seq<Byte>) {
    exists i :: 0 <= i <= |content| - |marker| && content[i..][..|marker|] == marker
  }

  /** ESC only stands first in the end marker, so no shorter text ends with one. */
  lemma NoEarlyEnd(content: seq<Byte>, n: nat)
    requires !Contains(content, PASTE_END) && n < |content| + |PASTE_END|
    ensures !EndsWith((content + PASTE_END)[..n], PASTE_END)
  {
    var full := content + PASTE_END;
    if EndsWith(full[..n], PASTE_END) {
      var at := n - |PASTE_END|;
      if n <= |content| {
        assert full[..n] == content[..n];
        EndInside(content, n);
      } else {
        var k := |content| - at;
        assert full[..n][at..][k] == full[|content|] == PASTE_END[0];
        EscapeOnlyFirst(k);
      }
    }
  }

  lemma EndInside(content: seq<Byte>, n: nat)
    requires n <= |content| && EndsWith(content[..n], PASTE_END)
    ensures Contains(content, PASTE_END)
  {
    var at := n - |PASTE_END|;
    assert content[at..][..|PASTE_END|] == content[..n][at..];
  }

  lemma EscapeOnlyFirst(k: nat)
    requires 0 < k < |PASTE_END|
    ensures PASTE_END[k] != PASTE_END[0]
  {
  }

  /** The scanner inside a paste that has seen `seen`: `sent` went out and the rest is held. */
  ghost predicate Inside(s: Scanner, armed: Option<Armed>, seen: seq<Byte>, sent: seq<Byte>) {
    && s.armed == armed && s.scan.InPaste?
    && sent + s.scan.buf == seen
    && Min(|seen|, |PASTE_END| - 1) <= |s.scan.buf| <= |PASTE_END|
  }

  lemma HeldTellsTheEnd(s: Scanner, armed: Option<Armed>, seen: seq<Byte>, sent: seq<Byte>, b: Byte)
    requires Inside(s, armed, seen, sent)
    ensures EndsWith(s.scan.buf + [b], PASTE_END) <==> EndsWith(seen + [b], PASTE_END)
  {
    var buf, all, n := s.scan.buf + [b], seen + [b], |PASTE_END|;
    assert all == sent + buf;
    if |buf| >= n {
      assert all[|all| - n..] == buf[|buf| - n..];
    }
  }

  lemma ContentStep(cfg: Config, s: Scanner, armed: Option<Armed>, seen: seq<Byte>, sent: seq<Byte>, b: Byte)
    requires Inside(s, armed, seen, sent) && !EndsWith(seen + [b], PASTE_END)
    ensures var e := Step(cfg, s, b);
            && Inside(e.state, armed, seen + [b], sent + Forwarded(e.out))
            && Actions(e.out) == 0 && e.doubled == 0 && e.markers == 0
  {
    hide Step, Forwarded, Actions, EndsWith;
    HeldTellsTheEnd(s, armed, seen, sent, b);
    ContentOutput(cfg, s, b);
    var e := Step(cfg, s, b);
    Shifted(sent, s.scan.buf, b, Forwarded(e.out), e.state.scan.buf);
  }

  lemma Shifted(sent: seq<Byte>, buf: seq<Byte>, b: Byte, out: seq<Byte>, rest: seq<Byte>)
    requires out + rest == buf + [b]
    ensures (sent + out) + rest == (sent + buf) + [b]
  {
    assert (sent + out) + rest == sent + (out + rest);
    assert (sent + buf) + [b] == sent + (buf + [b]);
  }

  /** Inside a paste, a byte that does not end it pushes out what can no longer be part of an end marker. */
  lemma ContentOutput(cfg: Config, s: Scanner, b: Byte)
    requires s.scan.InPaste? && !EndsWith(s.scan.buf + [b], PASTE_END)
    ensures var e := Step(cfg, s, b);
            && e.state.armed == s.armed && e.state.scan.InPaste? && Forwarded(e.out) + e.state.scan.buf == s.scan.buf + [b]
            && Min(|s.scan.buf| + 1, |PASTE_END| - 1) <= |e.state.scan.buf| <= |PASTE_END|
            && Actions(e.out) == 0 && e.doubled == 0 && e.markers == 0
  {
    hide HandleNormal, Forwarded, Actions, EndsWith;
    var e := Step(cfg, s, b);
    OneOutput(if e.out == [] then Fire(0) else e.out[0]);
  }

  lemma EndStep(cfg: Config, s: Scanner, armed: Option<Armed>, content: seq<Byte>, seen: seq<Byte>, sent: seq<Byte>, b: Byte)
    requires Inside(s, armed, seen, sent) && seen + [b] == content + PASTE_END
    ensures var e := Step(cfg, s, b);
            && e.state == Scanner(armed, Normal) && sent + Forwarded(e.out) == content
            && Actions(e.out) == 0 && e.doubled == 0 && e.markers == 1
  {
    hide HandleNormal, Forwarded, Actions;
    HeldTellsTheEnd(s, armed, seen, sent, b);
    var e, buf := Step(cfg, s, b), s.scan.buf + [b];
    OneOutput(if e.out == [] then Fire(0) else e.out[0]);
    assert sent + buf == content + PASTE_END;
    assert Forwarded(e.out) == buf[..|buf| - |PASTE_END|];
    assert sent + Forwarded(e.out) == (content + PASTE_END)[..|content|];
  }

  ghost predicate Quiet(e: Effect) {
    Actions(e.out) == 0 && e.doubled == 0
  }

  lemma {:induction false} ContentHeld(cfg: Config, s: Scanner, content: seq<Byte>, n: nat)
    requires s.scan == InPaste([]) && !Contains(content, PASTE_END) && n < |content| + |PASTE_END|
    ensures var e := Process(cfg, s, (content + PASTE_END)[..n]);
            Inside(e.state, s.armed, (content + PASTE_END)[..n], Forwarded(e.out)) && Quiet(e) && e.markers == 0
  {
    hide Process, Step, EndsWith, Contains, Forwarded, Actions, Inside;
    var seen := (content + PASTE_END)[..n];
    if n == 0 {
      ProcessNothing(cfg, s);
      OneOutput(Fire(0));
      InsideAtFirst(s);
    } else {
      var prefix, b := (content + PASTE_END)[..n - 1], (content + PASTE_END)[n - 1];
      assert seen == prefix + [b];
      ContentHeld(cfg, s, content, n - 1);
      NoEarlyEnd(content, n);
      var before := Process(cfg, s, prefix);
      ContentStep(cfg, before.state, s.armed, prefix, Forwarded(before.out), b);
      ProcessSnoc(cfg, s, prefix, b);
      OutConcat(before.out, Step(cfg, before.state, b).out);
    }
  }

  lemma InsideAtFirst(s: Scanner)
    requires s.scan == InPaste([])
    ensures Inside(s, s.armed, [], [])
  {
  }

  lemma ContentThenEnd(cfg: Config, s: Scanner, content: seq<Byte>)
    requires s.scan == InPaste([]) && !Contains(content, PASTE_END)
    ensures var e := Process(cfg, s, content + PASTE_END);
            e.state == s.(scan := Normal) && Forwarded(e.out) == content && Quiet(e) && e.markers == 1
  {
    hide Process, Step, EndsWith, Contains, Forwarded, Actions, Inside;
    var full := content + PASTE_END;
    var n := |full| - 1;
    ContentHeld(cfg, s, content, n);
    var before, b := Process(cfg, s, full[..n]), full[n];
    assert full == full[..n] + [b];
    EndStep(cfg, before.state, s.armed, content, full[..n], Forwarded(before.out), b);
    ProcessSnoc(cfg, s, full[..n], b);
    OutConcat(before.out, Step(cfg, before.state, b).out);
  }

  lemma {:induction false} StartHeld(cfg: Config, s: Scanner, n: nat)
    requires s.scan.Normal? && 0 < n < |PASTE_START|
    ensures Process(cfg, s, PASTE_START[..n]) == Effect(s.(scan := MatchingPasteStart(PASTE_START[..n])), [], 0, 0)
  {
    hide Process;
    var prefix, b := PASTE_START[..n - 1], PASTE_START[n - 1];
    assert PASTE_START[..n] == prefix + [b];
    ProcessSnoc(cfg, s, prefix, b);
    if n == 1 {
      ProcessNothing(cfg, s);
      EscapeHeld(cfg, s);
      assert PASTE_START[..1] == [ESC];
    } else {
      StartHeld(cfg, s, n - 1);
      StartStep(cfg, s.(scan := MatchingPasteStart(prefix)), n - 1);
    }
  }

  lemma StartStep(cfg: Config, s: Scanner, n: nat)
    requires 0 < n && n + 1 < |PASTE_START| && s.scan == MatchingPasteStart(PASTE_START[..n])
    ensures Step(cfg, s, PASTE_START[n]) == Effect(s.(scan := MatchingPasteStart(PASTE_START[..n + 1])), [], 0, 0)
  {
    hide HandleNormal, EndsWith;
    assert PASTE_START[..n] + [PASTE_START[n]] == PASTE_START[..n + 1];
  }

  lemma StartOpens(cfg: Config, s: Scanner)
    requires s.scan.Normal?
    ensures Process(cfg, s, PASTE_START) == Effect(s.(scan := InPaste([])), [], 0, 1)
  {
    hide Process, HandleNormal, EndsWith;
    var n := |PASTE_START| - 1;
    StartHeld(cfg, s, n);
    assert PASTE_START == PASTE_START[..n] + [PASTE_START[n]];
    ProcessSnoc(cfg, s, PASTE_START[..n], PASTE_START[n]);
  }

  /**
   Paste transparency: from the normal scan state, with or without an armed leader, a start marker,
   any content without an end marker in it, and an end marker, cut into reads in any way, forward
   exactly the content, fire nothing and leave the scanner as it was.
   */
  lemma PasteIsTransparent(cfg: Config, s: Scanner, content: seq<Byte>, parts: seq<seq<Byte>>)
    requires s.scan.Normal? && !Contains(content, PASTE_END)
    requires Flatten(parts) == PASTE_START + content + PASTE_END
    ensures var e := ProcessReads(cfg, s, parts);
            e.state == s && Forwarded(e.out) == content && Actions(e.out) == 0 && e.doubled == 0 && e.markers == 2
  {
    hide Process, Step, ProcessReads, Flatten, Contains, Forwarded, Actions;
    ReadsDoNotMatter(cfg, s, parts);
    assert PASTE_START + content + PASTE_END == PASTE_START + (content + PASTE_END);
    ProcessConcat(cfg, s, PASTE_START, content + PASTE_END);
    StartOpens(cfg, s);
    ContentThenEnd(cfg, s.(scan := InPaste([])), content);
    ThenAfterNothing(Process(cfg, s, PASTE_START), Process(cfg, s.(scan := InPaste([])), content + PASTE_END));
  }

  /** At every moment inside the paste the scan holds at most six bytes, and the rest has gone out in order. */
  lemma PasteHoldsLittle(cfg: Config, s: Scanner, content: seq<Byte>, n: nat)
    requires s.scan.Normal? && !Contains(content, PASTE_END) && n < |content| + |PASTE_END|
    ensures var e := Process(cfg, s, PASTE_START + (content + PASTE_END)[..n]);
            && |ScanBytes(e.state)| <= 6 && e.state.armed == s.armed && Actions(e.out) == 0
            && Forwarded(e.out) + ScanBytes(e.state) == (content + PASTE_END)[..n]
  {
    hide Process, Step, Contains, Forwarded, Actions;
    ProcessConcat(cfg, s, PASTE_START, (content + PASTE_END)[..n]);
    StartOpens(cfg, s);
    ContentHeld(cfg, s.(scan := InPaste([])), content, n);
    ThenAfterNothing(Process(cfg, s, PASTE_START), Process(cfg, s.(scan := InPaste([])), (content + PASTE_END)[..n]));
  }
}
