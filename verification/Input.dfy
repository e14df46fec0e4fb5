/**
 Keystroke reassembly: crates/tymux-cli/src/input.rs.

 `Step` says what one input byte does to the scanner and what it emits; the class
 `KeystrokeReassembler` is the object that is fed one `read()` after another. A `KeyEvent` is only
 ever built from a character with either no modifier or Control, and two such events are equal
 exactly when character and modifier are.
 */
module Input {
  import opened Common

  newtype Byte = b: int | 0 <= b < 256

  datatype Key = Key(code: nat, control: bool)

  type Action = nat

  datatype KeyBinding = KeyBinding(sequence: seq<Key>, action: Action)

  datatype Config = Config(leader: Key, bindings: seq<KeyBinding>)

  datatype Output = Forward(bytes: seq<Byte>) | Fire(action: Action)

  const ESC: Byte := 0x1b
  const PASTE_START: seq<Byte> := [0x1b, 0x5b, 0x32, 0x30, 0x30, 0x7e]
  const PASTE_END: seq<Byte> := [0x1b, 0x5b, 0x32, 0x30, 0x31, 0x7e]

  datatype Scan =
    | Normal
    | MatchingPasteStart(buf: seq<Byte>)
    | InPaste(buf: seq<Byte>)

  datatype Armed = Armed(bytes: seq<Byte>, key: Key)

  datatype Scanner = Scanner(armed: Option<Armed>, scan: Scan)

  const FRESH := Scanner(None, Normal)

  /** What a byte, or a run of bytes, did; `doubled` and `markers` count what was swallowed on purpose. */
  datatype Effect = Effect(state: Scanner, out: seq<Output>, doubled: nat, markers: nat)

  function Classify(b: Byte): Key {
    if 1 <= b <= 26 then Key(96 + b as nat, true) else Key(b as nat, false)
  }

  predicate Arms(cfg: Config, k: Key) {
    k == cfg.leader ||
    exists i :: 0 <= i < |cfg.bindings| && |cfg.bindings[i].sequence| > 0 && cfg.bindings[i].sequence[0] == k
  }

  /** The action of the first binding that is exactly the two keys. */
  function FindBinding(bindings: seq<KeyBinding>, first: Key, second: Key): Option<Action> {
    if bindings == [] then None
    else if bindings[0].sequence == [first, second] then Some(bindings[0].action)
    else FindBinding(bindings[1..], first, second)
  }

  function HandleNormal(cfg: Config, s: Scanner, b: Byte): Effect {
    var key := Classify(b);
    match s.armed
    case None =>
      if Arms(cfg, key) then Effect(s.(armed := Some(Armed([b], key))), [], 0, 0)
      else Effect(s, [Forward([b])], 0, 0)
    case Some(a) =>
      var idle := s.(armed := None);
      if key == a.key then Effect(idle, [Forward([b])], 1, 0)
      else
        var action := FindBinding(cfg.bindings, a.key, key);
        if action.Some? then Effect(idle, [Fire(action.value)], 0, 0)
        else Effect(idle, [Forward(a.bytes + [b])], 0, 0)
  }

  predicate EndsWith(buf: seq<Byte>, suffix: seq<Byte>) {
    |suffix| <= |buf| && buf[|buf| - |suffix|..] == suffix
  }

  function Step(cfg: Config, s: Scanner, b: Byte): Effect {
    match s.scan
    case Normal =>
      if b == ESC then Effect(s.(scan := MatchingPasteStart([b])), [], 0, 0)
      else HandleNormal(cfg, s, b)
    case MatchingPasteStart(held) =>
      var buf := held + [b];
      if buf == PASTE_START then Effect(s.(scan := InPaste([])), [], 0, 1)
      else if !(buf <= PASTE_START) then Effect(s.(scan := Normal), [Forward(buf)], 0, 0)
      else Effect(s.(scan := MatchingPasteStart(buf)), [], 0, 0)
    case InPaste(held) =>
      var buf := held + [b];
      if EndsWith(buf, PASTE_END) then
        var content := buf[..|buf| - |PASTE_END|];
        Effect(s.(scan := Normal), if content == [] then [] else [Forward(content)], 0, 1)
      else if |buf| > |PASTE_END| then
        var upTo := |buf| - (|PASTE_END| - 1);
        Effect(s.(scan := InPaste(buf[upTo..])), [Forward(buf[..upTo])], 0, 0)
      else Effect(s.(scan := InPaste(buf)), [], 0, 0)
  }

  function Then(a: Effect, b: Effect): Effect {
    Effect(b.state, a.out + b.out, a.doubled + b.doubled, a.markers + b.markers)
  }

  function Process(cfg: Config, s: Scanner, bytes: seq<Byte>): Effect {
    if bytes == [] then Effect(s, [], 0, 0)
    else
      var before := Process(cfg, s, bytes[..|bytes| - 1]);
      Then(before, Step(cfg, before.state, bytes[|bytes| - 1]))
  }

  // ------------------------------------------------------------------ the object

  class KeystrokeReassembler {
    const cfg: Config
    var armed: Option<Armed>
    var scan: Scan

    ghost function View(): Scanner
      reads this
    {
      Scanner(armed, scan)
    }

    constructor (cfg: Config)
      ensures this.cfg == cfg && View() == FRESH
    {
      this.cfg := cfg;
      armed, scan := None, Normal;
    }

    method Feed(bytes: seq<Byte>) returns (out: seq<Output>)
      modifies this
      ensures View() == Process(cfg, old(View()), bytes).state && out == Process(cfg, old(View()), bytes).out
    {
      out := [];
      for i := 0 to |bytes|
        invariant View() == Process(cfg, old(View()), bytes[..i]).state
        invariant out == Process(cfg, old(View()), bytes[..i]).out
      {
        assert bytes[..i + 1][..i] == bytes[..i];
        var emitted := FeedByte(bytes[i]);
        out := out + emitted;
      }
      assert bytes[..|bytes|] == bytes;
    }

    method FeedByte(b: Byte) returns (out: seq<Output>)
      modifies this
      ensures View() == Step(cfg, old(View()), b).state && out == Step(cfg, old(View()), b).out
    {
      match scan
      case Normal =>
        if b == ESC {
          scan := MatchingPasteStart([b]);
          out := [];
        } else {
          out := HandleNormalByte(b);
        }
      case MatchingPasteStart(held) =>
        var buf := held + [b];
        out := [];
        if buf == PASTE_START {
          scan := InPaste([]);
        } else if !(buf <= PASTE_START) {
          scan := Normal;
          out := [Forward(buf)];
        } else {
          scan := MatchingPasteStart(buf);
        }
      case InPaste(held) =>
        var buf := held + [b];
        out := [];
        if EndsWith(buf, PASTE_END) {
          var content := buf[..|buf| - |PASTE_END|];
          scan := Normal;
          if content != [] {
            out := [Forward(content)];
          }
        } else if |buf| > |PASTE_END| {
          var upTo := |buf| - (|PASTE_END| - 1);
          scan := InPaste(buf[upTo..]);
          out := [Forward(buf[..upTo])];
        } else {
          scan := InPaste(buf);
        }
    }

    method HandleNormalByte(b: Byte) returns (out: seq<Output>)
      modifies this
      ensures View() == HandleNormal(cfg, old(View()), b).state && out == HandleNormal(cfg, old(View()), b).out
    {
      var key := Classify(b);
      var wasArmed := armed;
      armed := None;
      match wasArmed
      case None =>
        var arms := key == cfg.leader;
        for i := 0 to |cfg.bindings|
          invariant arms <==> key == cfg.leader ||
                              exists j :: 0 <= j < i && |cfg.bindings[j].sequence| > 0 && cfg.bindings[j].sequence[0] == key
          invariant armed.None? && scan == old(scan)
        {
          arms := arms || (|cfg.bindings[i].sequence| > 0 && cfg.bindings[i].sequence[0] == key);
        }
        if arms {
          armed := Some(Armed([b], key));
          out := [];
        } else {
          out := [Forward([b])];
        }
      case Some(a) =>
        if key == a.key {
          out := [Forward([b])];
        } else {
          var found: Option<Action> := None;
          var i := 0;
          while i < |cfg.bindings| && found.None?
            invariant 0 <= i <= |cfg.bindings|
            invariant armed.None? && scan == old(scan)
            invariant if found.Some? then FindBinding(cfg.bindings, a.key, key) == found
                      else FindBinding(cfg.bindings, a.key, key) == FindBinding(cfg.bindings[i..], a.key, key)
            decreases |cfg.bindings| - i, found.None?
          {
            if cfg.bindings[i].sequence == [a.key, key] {
              found := Some(cfg.bindings[i].action);
            } else {
              assert cfg.bindings[i..][1..] == cfg.bindings[i + 1..];
              i := i + 1;
            }
          }
          out := if found.Some? then [Fire(found.value)] else [Forward(a.bytes + [b])];
        }
    }
  }

  // ------------------------------------------------------------------ which action fires

  /** Binding `i` is the first one that is exactly the two keys. */
  predicate FirstBinding(bindings: seq<KeyBinding>, first: Key, second: Key, i: nat) {
    && i < |bindings| && bindings[i].sequence == [first, second]
    && forall j :: 0 <= j < i ==> bindings[j].sequence != [first, second]
  }

  lemma {:induction false} FindBindingIsFirst(bindings: seq<KeyBinding>, first: Key, second: Key, i: nat)
    ensures FirstBinding(bindings, first, second, i) ==> FindBinding(bindings, first, second) == Some(bindings[i].action)
    ensures FindBinding(bindings, first, second).None? <==>
              forall j :: 0 <= j < |bindings| ==> bindings[j].sequence != [first, second]
  {
    if bindings != [] {
      FindBindingIsFirst(bindings[1..], first, second, if i == 0 then 0 else i - 1);
      assert forall j :: 1 <= j < |bindings| ==> bindings[j] == bindings[1..][j - 1];
      if FirstBinding(bindings, first, second, i) && i > 0 {
        assert bindings[0].sequence != [first, second];
        assert FirstBinding(bindings[1..], first, second, i - 1);
      }
    }
  }

  /**
   A byte fires an action exactly when a leader is armed, nothing is being scanned, the byte is
   neither ESC nor the armed key again, and some binding is exactly the armed key and this one; the
   action is that of the first such binding, and what was held of the leader is consumed with it.
   */
  lemma FiresIffBound(cfg: Config, s: Scanner, b: Byte, i: nat)
    ensures var e := Step(cfg, s, b);
            var bound := s.scan.Normal? && b != ESC && s.armed.Some? && Classify(b) != s.armed.value.key;
            && ((exists a :: Fire(a) in e.out) <==>
                  bound && exists j :: 0 <= j < |cfg.bindings| && cfg.bindings[j].sequence == [s.armed.value.key, Classify(b)])
            && (bound && FirstBinding(cfg.bindings, s.armed.value.key, Classify(b), i) ==>
                  e.out == [Fire(cfg.bindings[i].action)] && e.state == s.(armed := None))
  {
    hide Classify, Arms, EndsWith, FindBinding, FirstBinding;
    if s.armed.Some? {
      FindBindingIsFirst(cfg.bindings, s.armed.value.key, Classify(b), i);
    }
    var e := Step(cfg, s, b);
    assert e.out == [] || e.out == [e.out[0]];
    if e.out != [] && e.out[0].Fire? {
      assert Fire(e.out[0].action) in e.out;
    }
  }

  // ------------------------------------------------------------------ how reads are split does not matter

  lemma {:induction false} ProcessConcat(cfg: Config, s: Scanner, a: seq<Byte>, b: seq<Byte>)
    ensures Process(cfg, s, a + b) == Then(Process(cfg, s, a), Process(cfg, Process(cfg, s, a).state, b))
  {
    hide Step;
    if b == [] {
      assert a + b == a;
    } else {
      ProcessConcat(cfg, s, a, b[..|b| - 1]);
      assert (a + b)[..|a + b| - 1] == a + b[..|b| - 1];
    }
  }

  function Flatten(parts: seq<seq<Byte>>): seq<Byte> {
    if parts == [] then [] else parts[0] + Flatten(parts[1..])
  }

  /** Feeding one read after another. */
  function ProcessReads(cfg: Config, s: Scanner, parts: seq<seq<Byte>>): Effect
    decreases |parts|
  {
    if parts == [] then Effect(s, [], 0, 0)
    else
      var first := Process(cfg, s, parts[0]);
      Then(first, ProcessReads(cfg, first.state, parts[1..]))
  }

  lemma {:induction false} ReadsDoNotMatter(cfg: Config, s: Scanner, parts: seq<seq<Byte>>)
    ensures ProcessReads(cfg, s, parts) == Process(cfg, s, Flatten(parts))
    decreases |parts|
  {
    hide Process;
    if parts == [] {
      ProcessNothing(cfg, s);
    } else {
      ReadsDoNotMatter(cfg, Process(cfg, s, parts[0]).state, parts[1..]);
      ProcessConcat(cfg, s, parts[0], Flatten(parts[1..]));
    }
  }

  lemma ProcessNothing(cfg: Config, s: Scanner)
    ensures Process(cfg, s, []) == Effect(s, [], 0, 0)
  {
  }

  // ------------------------------------------------------------------ conservation

  function Forwarded(out: seq<Output>): seq<Byte> {
    if out == [] then []
    else Forwarded(out[..|out| - 1]) + match out[|out| - 1] { case Forward(bytes) => bytes case Fire(_) => [] }
  }

  function Actions(out: seq<Output>): nat {
    if out == [] then 0 else Actions(out[..|out| - 1]) + if out[|out| - 1].Fire? then 1 else 0
  }

  lemma {:induction false} OutConcat(a: seq<Output>, b: seq<Output>)
    ensures Forwarded(a + b) == Forwarded(a) + Forwarded(b)
    ensures Actions(a + b) == Actions(a) + Actions(b)
  {
    if b == [] {
      assert a + b == a;
    } else {
      OutConcat(a, b[..|b| - 1]);
      assert (a + b)[..|a + b| - 1] == a + b[..|b| - 1];
    }
  }

  lemma OneOutput(o: Output)
    ensures Forwarded([o]) == match o { case Forward(bytes) => bytes case Fire(_) => [] }
    ensures Actions([o]) == if o.Fire? then 1 else 0
    ensures Forwarded([]) == [] && Actions([]) == 0
  {
    assert [o][..0] == [];
    assert Forwarded([]) == [];
  }

  function ScanBytes(s: Scanner): seq<Byte> {
    match s.scan
    case Normal => []
    case MatchingPasteStart(buf) => buf
    case InPaste(buf) => buf
  }

  function ArmedBytes(s: Scanner): seq<Byte> {
    if s.armed.Some? then s.armed.value.bytes else []
  }

  /** A scanner as the code leaves it: one armed byte at most, and never more than 6 scanned ones. */
  predicate WellFormed(s: Scanner) {
    ArmedOk(s) && ScanOk(s.scan)
  }

  predicate ArmedOk(s: Scanner) {
    s.armed.Some? ==> |s.armed.value.bytes| == 1 && s.armed.value.key == Classify(s.armed.value.bytes[0])
  }

  predicate ScanOk(scan: Scan) {
    match scan
    case Normal => true
    case MatchingPasteStart(buf) => 0 < |buf| < |PASTE_START| && buf <= PASTE_START
    case InPaste(buf) => |buf| <= |PASTE_END| && !EndsWith(buf, PASTE_END)
  }

  lemma NormalWellFormed(cfg: Config, s: Scanner, b: Byte)
    requires ArmedOk(s) && s.scan.Normal?
    ensures var e := HandleNormal(cfg, s, b); ArmedOk(e.state) && e.state.scan.Normal?
  {
    hide FindBinding, Arms;
  }

  lemma MatchingWellFormed(cfg: Config, s: Scanner, b: Byte)
    requires ScanOk(s.scan) && s.scan.MatchingPasteStart?
    ensures var e := Step(cfg, s, b); e.state.armed == s.armed && ScanOk(e.state.scan)
  {
    hide HandleNormal;
    var buf := s.scan.buf + [b];
    assert EndsWith([], PASTE_END) == false;
    assert buf <= PASTE_START && |buf| == |PASTE_START| ==> buf == PASTE_START;
  }

  lemma PasteWellFormed(cfg: Config, s: Scanner, b: Byte)
    requires ScanOk(s.scan) && s.scan.InPaste?
    ensures var e := Step(cfg, s, b); e.state.armed == s.armed && ScanOk(e.state.scan)
  {
    hide HandleNormal;
  }

  lemma StepWellFormed(cfg: Config, s: Scanner, b: Byte)
    requires WellFormed(s)
    ensures WellFormed(Step(cfg, s, b).state)
  {
    match s.scan
    case Normal =>
      hide HandleNormal, Classify;
      NormalWellFormed(cfg, s, b);
      assert [ESC] <= PASTE_START;
    case MatchingPasteStart(buf) =>
      hide Step, EndsWith;
      MatchingWellFormed(cfg, s, b);
    case InPaste(buf) =>
      hide Step, EndsWith;
      PasteWellFormed(cfg, s, b);
  }

  /** Never more than six bytes are held back by the scan, and never more than one by a leader. */
  lemma {:induction false} ProcessWellFormed(cfg: Config, s: Scanner, bytes: seq<Byte>)
    requires WellFormed(s)
    ensures var s' := Process(cfg, s, bytes).state;
            WellFormed(s') && |ScanBytes(s')| <= 6 && |ArmedBytes(s')| <= 1
  {
    hide Step;
    if bytes != [] {
      ProcessWellFormed(cfg, s, bytes[..|bytes| - 1]);
      StepWellFormed(cfg, Process(cfg, s, bytes[..|bytes| - 1]).state, bytes[|bytes| - 1]);
    }
  }

  function Held(s: Scanner): nat {
    |ScanBytes(s)| + |ArmedBytes(s)|
  }

  ghost predicate Balanced(s: Scanner, e: Effect) {
    1 + Held(s) == |Forwarded(e.out)| + 2 * Actions(e.out) + e.doubled + 6 * e.markers + Held(e.state)
  }

  lemma NormalConserves(cfg: Config, s: Scanner, b: Byte)
    requires ArmedOk(s) && s.scan.Normal?
    ensures Balanced(s, HandleNormal(cfg, s, b))
  {
    hide FindBinding, Arms, Forwarded, Actions, Classify;
    var e := HandleNormal(cfg, s, b);
    OneOutput(if e.out == [] then Fire(0) else e.out[0]);
    assert e.out == [] || e.out == [e.out[0]];
  }

  lemma MatchingConserves(cfg: Config, s: Scanner, b: Byte)
    requires ScanOk(s.scan) && s.scan.MatchingPasteStart?
    ensures Balanced(s, Step(cfg, s, b))
  {
    hide HandleNormal, Forwarded, Actions, EndsWith;
    var e, buf := Step(cfg, s, b), s.scan.buf + [b];
    OneOutput(if e.out == [] then Fire(0) else e.out[0]);
    assert |buf| == |s.scan.buf| + 1;
  }

  lemma PasteConserves(cfg: Config, s: Scanner, b: Byte)
    requires s.scan.InPaste?
    ensures Balanced(s, Step(cfg, s, b))
  {
    hide HandleNormal, Forwarded, Actions, EndsWith;
    var e, buf := Step(cfg, s, b), s.scan.buf + [b];
    OneOutput(if e.out == [] then Fire(0) else e.out[0]);
    assert |buf| == |s.scan.buf| + 1;
    if EndsWith(buf, PASTE_END) {
      EndIsLong(buf);
    }
  }

  lemma StepConserves(cfg: Config, s: Scanner, b: Byte)
    requires WellFormed(s)
    ensures Balanced(s, Step(cfg, s, b))
  {
    if !s.scan.Normal? {
      hide Step, Balanced, EndsWith;
      if s.scan.InPaste? { PasteConserves(cfg, s, b); } else { MatchingConserves(cfg, s, b); }
    } else if b != ESC {
      hide HandleNormal, Balanced;
      NormalConserves(cfg, s, b);
    } else {
      hide HandleNormal, Forwarded, Actions;
      OneOutput(Fire(0));
    }
  }

  /**
   Conservation: for every input and every set of bindings, each byte that came in was forwarded,
   consumed by an action (two each), dropped as the first of a doubled leader, consumed with a paste
   marker (six each), or is still held.
   */
  lemma {:induction false} KeystrokesAreConserved(cfg: Config, s: Scanner, bytes: seq<Byte>)
    requires WellFormed(s)
    ensures var e := Process(cfg, s, bytes);
            |bytes| + Held(s) == |Forwarded(e.out)| + 2 * Actions(e.out) + e.doubled + 6 * e.markers + Held(e.state)
  {
    hide Step, WellFormed, Forwarded, Actions, Held;
    if bytes == [] {
      OneOutput(Fire(0));
    } else {
      var prefix := bytes[..|bytes| - 1];
      KeystrokesAreConserved(cfg, s, prefix);
      ProcessWellFormed(cfg, s, prefix);
      var before := Process(cfg, s, prefix);
      StepConserves(cfg, before.state, bytes[|bytes| - 1]);
      OutConcat(before.out, Step(cfg, before.state, bytes[|bytes| - 1]).out);
    }
  }

  // ------------------------------------------------------------------ single steps

  lemma EndIsLong(buf: seq<Byte>)
    requires EndsWith(buf, PASTE_END)
    ensures |buf| >= |PASTE_END|
  {
  }

  lemma ProcessSnoc(cfg: Config, s: Scanner, bytes: seq<Byte>, b: Byte)
    ensures Process(cfg, s, bytes + [b]) == Then(Process(cfg, s, bytes), Step(cfg, Process(cfg, s, bytes).state, b))
  {
    hide Step;
    assert (bytes + [b])[..|bytes + [b]| - 1] == bytes;
  }

  lemma ThenAfterNothing(a: Effect, b: Effect)
    requires a.out == []
    ensures Then(a, b).out == b.out && Then(a, b).state == b.state
  {
  }

  lemma EscapeHeld(cfg: Config, s: Scanner)
    requires s.scan.Normal?
    ensures Step(cfg, s, ESC) == Effect(s.(scan := MatchingPasteStart([ESC])), [], 0, 0)
  {
  }
}
