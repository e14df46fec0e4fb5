/**
 Which keys arm, fire, repeat and pass: crates/tymux-cli/src/input.rs, lines 79-173, byte by byte and
 end to end.
 */
module InputKeys {
  import opened Common
  import opened Input

  /** Bytes 1 to 26 are Ctrl-a to Ctrl-z; every other byte is a plain key of its own. */
  lemma ClassifyIs(b: Byte)
    ensures 1 <= b <= 26 ==> Classify(b) == Key('a' as nat + b as nat - 1, true)
    ensures b == 0 || b > 26 ==> Classify(b) == Key(b as nat, false)
  {
  }

  /** Different bytes are different keys. */
  lemma KeysTellBytes(a: Byte, b: Byte)
    ensures Classify(a) == Classify(b) <==> a == b
  {
  }

  function Ascii(s: string): seq<Byte>
    requires forall i :: 0 <= i < |s| ==> s[i] < 128 as char
  {
    seq(|s|, i requires 0 <= i < |s| => s[i] as int as Byte)
  }

  /** The markers of bracketed paste, as xterm spells them: ESC [ 200 ~ and ESC [ 201 ~. */
  lemma MarkersSpelled()
    ensures ESC == 27 && PASTE_START == [ESC] + Ascii("[200~") && PASTE_END == [ESC] + Ascii("[201~")
  {
    assert Ascii("[200~") == [0x5b, 0x32, 0x30, 0x30, 0x7e];
    assert Ascii("[201~") == [0x5b, 0x32, 0x30, 0x31, 0x7e];
  }

  /** The key is the leader, or the first key of some binding. */
  predicate StartsSomething(cfg: Config, k: Key) {
    k == cfg.leader ||
    exists i :: 0 <= i < |cfg.bindings| && |cfg.bindings[i].sequence| > 0 && cfg.bindings[i].sequence[0] == k
  }

  /**
   A scanner with nothing armed holds a byte other than ESC back exactly when its key is the leader or
   the first key of some binding - one with a leader of its own, too; any other byte goes out at once.
   */
  lemma HeldIff(cfg: Config, s: Scanner, b: Byte)
    requires s.scan.Normal? && s.armed.None? && b != ESC
    ensures var e := Step(cfg, s, b);
            && e.state.scan.Normal? && e.doubled == 0 && e.markers == 0
            && if StartsSomething(cfg, Classify(b)) then e.out == [] && e.state.armed == Some(Armed([b], Classify(b)))
               else e.out == [Forward([b])] && e.state == s
  {
    hide Classify;
  }

  /** What the byte after a held one does, other than ESC: the same key goes out once, a bound pair fires, any other pair goes out. */
  lemma SecondKey(cfg: Config, s: Scanner, b: Byte, i: nat)
    requires s.scan.Normal? && s.armed.Some? && b != ESC
    ensures var e, a, k := Step(cfg, s, b), s.armed.value, Classify(b);
            && e.state == s.(armed := None)
            && (k == a.key ==> e.out == [Forward([b])] && e.doubled == 1)
            && (k != a.key && FirstBinding(cfg.bindings, a.key, k, i) ==> e.out == [Fire(cfg.bindings[i].action)] && e.doubled == 0)
            && (k != a.key && (forall j :: 0 <= j < |cfg.bindings| ==> cfg.bindings[j].sequence != [a.key, k]) ==>
                  e.out == [Forward(a.bytes + [b])] && e.doubled == 0)
  {
    hide Classify, FindBinding, FirstBinding;
    FindBindingIsFirst(cfg.bindings, s.armed.value.key, Classify(b), i);
  }

  /** Two bytes into a fresh scanner. */
  lemma TwoBytes(cfg: Config, a: Byte, b: Byte)
    ensures var first := Step(cfg, FRESH, a);
            Process(cfg, FRESH, [a, b]) == Then(first, Step(cfg, first.state, b))
  {
    hide Step;
    ProcessNothing(cfg, FRESH);
    ProcessSnoc(cfg, FRESH, [], a);
    ProcessSnoc(cfg, FRESH, [a], b);
    assert [] + [a] == [a] && [a] + [b] == [a, b];
  }

  lemma BoundStarts(cfg: Config, first: Key, second: Key, i: nat)
    requires FirstBinding(cfg.bindings, first, second, i)
    ensures i < |cfg.bindings| && StartsSomething(cfg, first)
  {
    assert cfg.bindings[i].sequence[0] == first;
  }

  /**
   End to end: two keys that some binding is made of fire the first such binding, whatever the leader
   is, and nothing is forwarded; the scanner is idle again.
   */
  lemma BoundPairFires(cfg: Config, a: Byte, b: Byte, i: nat)
    requires a != ESC && b != ESC && a != b && FirstBinding(cfg.bindings, Classify(a), Classify(b), i)
    ensures var e := Process(cfg, FRESH, [a, b]);
            e.out == [Fire(cfg.bindings[i].action)] && Forwarded(e.out) == [] && e.state == FRESH
  {
    hide Step, Process, Classify, FirstBinding, Forwarded;
    KeysTellBytes(a, b);
    BoundStarts(cfg, Classify(a), Classify(b), i);
    HeldIff(cfg, FRESH, a);
    var s := Step(cfg, FRESH, a).state;
    SecondKey(cfg, s, b, i);
    TwoBytes(cfg, a, b);
    OneOutput(Fire(cfg.bindings[i].action));
  }

  /** A key that starts something, pressed twice, goes out once. */
  lemma DoublePressForwardsOne(cfg: Config, a: Byte)
    requires a != ESC && StartsSomething(cfg, Classify(a))
    ensures var e := Process(cfg, FRESH, [a, a]);
            e.out == [Forward([a])] && e.state == FRESH && e.doubled == 1
  {
    hide Step, Process, Classify, StartsSomething;
    HeldIff(cfg, FRESH, a);
    SecondKey(cfg, Step(cfg, FRESH, a).state, a, 0);
    TwoBytes(cfg, a, a);
  }

  /** A key that starts something, then one it is not bound with: both go out, in order. */
  lemma UnboundPairForwarded(cfg: Config, a: Byte, b: Byte)
    requires a != ESC && b != ESC && a != b && StartsSomething(cfg, Classify(a))
    requires forall j :: 0 <= j < |cfg.bindings| ==> cfg.bindings[j].sequence != [Classify(a), Classify(b)]
    ensures var e := Process(cfg, FRESH, [a, b]);
            e.out == [Forward([a, b])] && e.state == FRESH
  {
    hide Step, Process, Classify, StartsSomething;
    KeysTellBytes(a, b);
    HeldIff(cfg, FRESH, a);
    SecondKey(cfg, Step(cfg, FRESH, a).state, b, 0);
    TwoBytes(cfg, a, b);
    assert [a] + [b] == [a, b];
  }

  /** C-b is the leader and C-a d detaches: C-a d detaches. */
  lemma OwnLeaderFires(detach: Action)
    ensures var cfg := Config(Key('b' as nat, true), [KeyBinding([Key('a' as nat, true), Key('d' as nat, false)], detach)]);
            Process(cfg, FRESH, [1, 'd' as int as Byte]).out == [Fire(detach)]
  {
    var cfg := Config(Key('b' as nat, true), [KeyBinding([Key('a' as nat, true), Key('d' as nat, false)], detach)]);
    ClassifyIs(1);
    ClassifyIs(100);
    assert FirstBinding(cfg.bindings, Classify(1), Classify(100), 0);
    BoundPairFires(cfg, 1, 100, 0);
  }
}
