/**
 * Key identifiers, their resolution to physical keys, and the two dispatch orders of
 * `execute_action` (one key at a time) and `execute_combination` (a chord), written as the
 * traces of press, wait and release calls they make on the keyboard controller.
 */
module KeyDispatch {
  import opened Wrappers

  /** A key the controller can press: a single character, or a named member of the `Key` enum. */
  datatype PhysicalKey = Literal(ch: char) | Named(name: string)

  /** One call on the keyboard controller, or one `time.sleep` between such calls. */
  datatype KeyEvent = Press(key: PhysicalKey) | Release(key: PhysicalKey) | Wait(seconds: real)

  /**
   * What pressing the identifier `id` reaches. The controller takes a one-character string as that
   * character and raises ValueError on any other string; the fallback `getattr(Key, id)` finds one
   * of the names in `named` (the `Key` members of the platform) or raises AttributeError, and the key
   * is then skipped.
   */
  function Resolve(named: set<string>, id: string): Option<PhysicalKey> {
    if |id| == 1 then Some(Literal(id[0]))
    else if id in named then Some(Named(id))
    else None
  }

  /** The keys an action reaches, in the action's order, the unresolvable ones left out. */
  function ResolvedKeys(named: set<string>, ids: seq<string>): (ks: seq<PhysicalKey>)
    ensures |ks| <= |ids|
  {
    if ids == [] then []
    else
      var rest := ResolvedKeys(named, ids[..|ids| - 1]);
      match Resolve(named, ids[|ids| - 1])
      case Some(k) => rest + [k]
      case None => rest
  }

  lemma {:induction false} ResolvedKeysAppend(named: set<string>, a: seq<string>, b: seq<string>)
    ensures ResolvedKeys(named, a + b) == ResolvedKeys(named, a) + ResolvedKeys(named, b)
    decreases |b|
  {
    if b == [] {
      assert a + b == a;
    } else {
      var b' := b[..|b| - 1];
      assert (a + b)[..|a + b| - 1] == a + b';
      ResolvedKeysAppend(named, a, b');
    }
  }

  /** A key is reached exactly when some identifier of the action resolves to it. */
  lemma {:induction false} ResolvedKeysAreResolutions(named: set<string>, ids: seq<string>)
    ensures forall k :: k in ResolvedKeys(named, ids) <==> exists i :: 0 <= i < |ids| && Resolve(named, ids[i]) == Some(k)
    decreases |ids|
  {
    if ids != [] {
      var n := |ids| - 1;
      var p := ids[..n];
      ResolvedKeysAreResolutions(named, p);
      forall k
        ensures k in ResolvedKeys(named, ids) <==> exists i :: 0 <= i < |ids| && Resolve(named, ids[i]) == Some(k)
      {
        if exists i :: 0 <= i < |ids| && Resolve(named, ids[i]) == Some(k) {
          var i :| 0 <= i < |ids| && Resolve(named, ids[i]) == Some(k);
          if i < n {
            assert p[i] == ids[i];
          }
        }
        if k in ResolvedKeys(named, p) {
          var i :| 0 <= i < |p| && Resolve(named, p[i]) == Some(k);
          assert ids[i] == p[i];
        }
      }
    }
  }

  /** When every identifier of the action resolves, key `i` is the resolution of identifier `i`. */
  lemma {:induction false} ResolvedKeysOneToOne(named: set<string>, ids: seq<string>)
    requires forall i :: 0 <= i < |ids| ==> Resolve(named, ids[i]).Some?
    ensures |ResolvedKeys(named, ids)| == |ids|
    ensures forall i :: 0 <= i < |ids| ==> ResolvedKeys(named, ids)[i] == Resolve(named, ids[i]).value
    decreases |ids|
  {
    if ids != [] {
      var n := |ids| - 1;
      var p := ids[..n];
      assert forall i :: 0 <= i < |p| ==> p[i] == ids[i];
      ResolvedKeysOneToOne(named, p);
      assert ResolvedKeys(named, ids) == ResolvedKeys(named, p) + [Resolve(named, ids[n]).value];
    }
  }

  /** An identifier that resolves to nothing adds nothing to the keys of an action. */
  lemma UnresolvableKeyIsSkipped(named: set<string>, before: seq<string>, id: string, after: seq<string>)
    requires Resolve(named, id).None?
    ensures ResolvedKeys(named, before + [id] + after) == ResolvedKeys(named, before + after)
  {
    ResolvedKeysAppend(named, before + [id], after);
    ResolvedKeysAppend(named, before, after);
    assert (before + [id])[..|before + [id]| - 1] == before;
  }

  // ---------------------------------------------------------------------------------------------
  // The traces.
  // ---------------------------------------------------------------------------------------------

  /** One press-wait-release cycle. */
  function KeyCycle(k: PhysicalKey, wait: real): seq<KeyEvent> {
    [Press(k), Wait(wait), Release(k)]
  }

  function Cycles(ks: seq<PhysicalKey>, wait: real): (t: seq<KeyEvent>)
    ensures |t| == 3 * |ks|
  {
    if ks == [] then [] else Cycles(ks[..|ks| - 1], wait) + KeyCycle(ks[|ks| - 1], wait)
  }

  /** execute_action: every resolvable key, in order, pressed, held for `wait` and released. */
  function SequentialTrace(named: set<string>, ids: seq<string>, wait: real): seq<KeyEvent> {
    Cycles(ResolvedKeys(named, ids), wait)
  }

  function PressAll(ks: seq<PhysicalKey>): (t: seq<KeyEvent>)
    ensures |t| == |ks| && forall i :: 0 <= i < |ks| ==> t[i] == Press(ks[i])
  {
    seq(|ks|, i requires 0 <= i < |ks| => Press(ks[i]))
  }

  function ReleaseAll(ks: seq<PhysicalKey>): (t: seq<KeyEvent>)
    ensures |t| == |ks| && forall i :: 0 <= i < |ks| ==> t[i] == Release(ks[i])
  {
    seq(|ks|, i requires 0 <= i < |ks| => Release(ks[i]))
  }

  lemma PressAllSnoc(ks: seq<PhysicalKey>, k: PhysicalKey)
    ensures PressAll(ks + [k]) == PressAll(ks) + [Press(k)]
  {
  }

  lemma ReleaseAllSnoc(ks: seq<PhysicalKey>, k: PhysicalKey)
    ensures ReleaseAll(ks + [k]) == ReleaseAll(ks) + [Release(k)]
  {
  }

  /** execute_combination: every resolvable key pressed, one wait, every such key released. */
  function CombinationTrace(named: set<string>, ids: seq<string>, wait: real): seq<KeyEvent> {
    var ks := ResolvedKeys(named, ids);
    PressAll(ks) + [Wait(wait)] + ReleaseAll(ks)
  }

  /** The keys of the presses of a trace, in trace order. */
  function PressedKeys(t: seq<KeyEvent>): seq<PhysicalKey> {
    if t == [] then []
    else PressedKeys(t[..|t| - 1]) + (if t[|t| - 1].Press? then [t[|t| - 1].key] else [])
  }

  /** The keys of the releases of a trace, in trace order. */
  function ReleasedKeys(t: seq<KeyEvent>): seq<PhysicalKey> {
    if t == [] then []
    else ReleasedKeys(t[..|t| - 1]) + (if t[|t| - 1].Release? then [t[|t| - 1].key] else [])
  }

  lemma {:induction false} FiltersAppend(a: seq<KeyEvent>, b: seq<KeyEvent>)
    ensures PressedKeys(a + b) == PressedKeys(a) + PressedKeys(b)
    ensures ReleasedKeys(a + b) == ReleasedKeys(a) + ReleasedKeys(b)
    decreases |b|
  {
    if b == [] {
      assert a + b == a;
    } else {
      var b' := b[..|b| - 1];
      assert (a + b)[..|a + b| - 1] == a + b';
      FiltersAppend(a, b');
    }
  }

  lemma {:induction false} FiltersOfPressAll(ks: seq<PhysicalKey>)
    ensures PressedKeys(PressAll(ks)) == ks && ReleasedKeys(PressAll(ks)) == []
    ensures PressedKeys(ReleaseAll(ks)) == [] && ReleasedKeys(ReleaseAll(ks)) == ks
    decreases |ks|
  {
    if ks != [] {
      var p := ks[..|ks| - 1];
      FiltersOfPressAll(p);
      assert PressAll(ks)[..|ks| - 1] == PressAll(p);
      assert ReleaseAll(ks)[..|ks| - 1] == ReleaseAll(p);
    }
  }

  /** Cycle `i` of a sequential trace sits at positions 3i, 3i+1 and 3i+2. */
  lemma {:induction false} CyclesAt(ks: seq<PhysicalKey>, wait: real, i: nat)
    requires i < |ks|
    ensures Cycles(ks, wait)[3 * i] == Press(ks[i])
    ensures Cycles(ks, wait)[3 * i + 1] == Wait(wait)
    ensures Cycles(ks, wait)[3 * i + 2] == Release(ks[i])
    decreases |ks|
  {
    var p := ks[..|ks| - 1];
    if i < |p| {
      CyclesAt(p, wait, i);
      assert ks[i] == p[i];
    }
  }

  lemma {:induction false} FiltersOfCycles(ks: seq<PhysicalKey>, wait: real)
    ensures PressedKeys(Cycles(ks, wait)) == ks && ReleasedKeys(Cycles(ks, wait)) == ks
    decreases |ks|
  {
    if ks != [] {
      var p := ks[..|ks| - 1];
      var k := ks[|ks| - 1];
      var c := Cycles(p, wait);
      assert Cycles(ks, wait) == c + KeyCycle(k, wait);
      FiltersOfCycles(p, wait);
      FiltersAppend(c, KeyCycle(k, wait));
      KeyCycleFilters(k, wait);
      assert ks == p + [k];
    }
  }

  lemma KeyCycleFilters(k: PhysicalKey, wait: real)
    ensures PressedKeys(KeyCycle(k, wait)) == [k] && ReleasedKeys(KeyCycle(k, wait)) == [k]
  {
    var t := KeyCycle(k, wait);
    var t2 := [Press(k), Wait(wait)];
    var t1 := [Press(k)];
    assert t[..2] == t2 && t2[..1] == t1 && t1[..0] == [];
    assert PressedKeys(t1) == [k] && ReleasedKeys(t1) == [];
    assert PressedKeys(t2) == [k] && ReleasedKeys(t2) == [];
  }

  /**
   * Sequential dispatch: the keys are pressed and released in the action's order, the unresolvable
   * ones skipped, and every press is followed at once by the wait and then by its own release, so
   * one key's release comes before the next key's press.
   */
  lemma SequentialOrder(named: set<string>, ids: seq<string>, wait: real)
    ensures PressedKeys(SequentialTrace(named, ids, wait)) == ResolvedKeys(named, ids)
    ensures ReleasedKeys(SequentialTrace(named, ids, wait)) == ResolvedKeys(named, ids)
    ensures forall p :: 0 <= p < |SequentialTrace(named, ids, wait)| && SequentialTrace(named, ids, wait)[p].Press? ==>
              && p + 2 < |SequentialTrace(named, ids, wait)|
              && SequentialTrace(named, ids, wait)[p + 1] == Wait(wait)
              && SequentialTrace(named, ids, wait)[p + 2] == Release(SequentialTrace(named, ids, wait)[p].key)
  {
    var ks := ResolvedKeys(named, ids);
    var t := Cycles(ks, wait);
    FiltersOfCycles(ks, wait);
    forall p | 0 <= p < |t| && t[p].Press?
      ensures p + 2 < |t| && t[p + 1] == Wait(wait) && t[p + 2] == Release(t[p].key)
    {
      CyclePressIsFollowed(ks, wait, p);
    }
  }

  /** A press in a sequential trace starts a cycle: the wait and its own release come next. */
  lemma CyclePressIsFollowed(ks: seq<PhysicalKey>, wait: real, p: nat)
    requires p < |Cycles(ks, wait)| && Cycles(ks, wait)[p].Press?
    ensures p + 2 < |Cycles(ks, wait)|
    ensures Cycles(ks, wait)[p + 1] == Wait(wait) && Cycles(ks, wait)[p + 2] == Release(Cycles(ks, wait)[p].key)
  {
    var i := p / 3;
    assert p == 3 * i + p % 3 && i < |ks|;
    CyclesAt(ks, wait, i);
  }

  /**
   * Combination dispatch: every resolvable key is pressed before any is released, exactly one wait
   * separates the presses from the releases, and the releases follow the order of the presses.
   */
  lemma CombinationOrder(named: set<string>, ids: seq<string>, wait: real)
    ensures PressedKeys(CombinationTrace(named, ids, wait)) == ResolvedKeys(named, ids)
    ensures ReleasedKeys(CombinationTrace(named, ids, wait)) == ResolvedKeys(named, ids)
    ensures forall p, q :: (0 <= p < |CombinationTrace(named, ids, wait)| && 0 <= q < |CombinationTrace(named, ids, wait)| &&
              CombinationTrace(named, ids, wait)[p].Press? && CombinationTrace(named, ids, wait)[q].Release?) ==> p < q
    ensures forall p :: 0 <= p < |CombinationTrace(named, ids, wait)| && CombinationTrace(named, ids, wait)[p].Wait? ==>
              p == |ResolvedKeys(named, ids)| && CombinationTrace(named, ids, wait)[p] == Wait(wait)
    ensures |CombinationTrace(named, ids, wait)| == 2 * |ResolvedKeys(named, ids)| + 1
    ensures CombinationTrace(named, ids, wait)[|ResolvedKeys(named, ids)|] == Wait(wait)
  {
    var ks := ResolvedKeys(named, ids);
    var t := CombinationTrace(named, ids, wait);
    FiltersOfPressAll(ks);
    FiltersAppend(PressAll(ks), [Wait(wait)]);
    FiltersAppend(PressAll(ks) + [Wait(wait)], ReleaseAll(ks));
    assert PressedKeys([Wait(wait)]) == [] && ReleasedKeys([Wait(wait)]) == [] by {
      assert [Wait(wait)][..0] == [];
    }
    forall p | 0 <= p < |t| ensures (t[p].Press? <==> p < |ks|) && (t[p].Release? <==> p > |ks|) && (t[p].Wait? ==> t[p] == Wait(wait)) {
      if p < |ks| { assert t[p] == PressAll(ks)[p]; }
      else if p > |ks| { assert t[p] == ReleaseAll(ks)[p - |ks| - 1]; }
    }
  }

  /** ["ctrl", "c"] dispatched as a chord: both keys down before either comes up. */
  lemma CtrlCChord(named: set<string>)
    requires "ctrl" in named
    ensures CombinationTrace(named, ["ctrl", "c"], 0.2) ==
      [Press(Named("ctrl")), Press(Literal('c')), Wait(0.2), Release(Named("ctrl")), Release(Literal('c'))]
  {
    assert ["ctrl", "c"][..1] == ["ctrl"];
    assert ResolvedKeys(named, ["ctrl", "c"]) == [Named("ctrl"), Literal('c')];
  }

  /** ["a", "b"] dispatched one key at a time: `a` comes up before `b` goes down. */
  lemma TwoKeysInSequence(named: set<string>)
    ensures SequentialTrace(named, ["a", "b"], 0.1) ==
      [Press(Literal('a')), Wait(0.1), Release(Literal('a')), Press(Literal('b')), Wait(0.1), Release(Literal('b'))]
  {
    assert ["a", "b"][..1] == ["a"];
    assert ResolvedKeys(named, ["a", "b"]) == [Literal('a'), Literal('b')];
    assert [Literal('a'), Literal('b')][..1] == [Literal('a')];
  }

  /** A three-key action with one unresolvable identifier makes exactly two press-release cycles. */
  lemma OneBadKeyOfThree(named: set<string>)
    requires "xyz123" !in named
    ensures |ResolvedKeys(named, ["a", "xyz123", "b"])| == 2
    ensures |SequentialTrace(named, ["a", "xyz123", "b"], 0.1)| == 6
  {
    assert ["a", "xyz123", "b"][..2] == ["a", "xyz123"];
    assert ["a", "xyz123"][..1] == ["a"];
    assert ["a"][..0] == [];
    assert Resolve(named, "xyz123") == None;
    assert ResolvedKeys(named, ["a"]) == [Literal('a')];
    assert ResolvedKeys(named, ["a", "xyz123"]) == [Literal('a')];
  }

  /**
   * The keyboard controller. `namedKeys` are the members of the `Key` enum on this platform;
   * `log` records every press and release it performs, and the sleeps between them, in order.
   */
  class Keyboard {
    const namedKeys: set<string>
    var log: seq<KeyEvent>

    constructor (namedKeys: set<string>)
      ensures this.namedKeys == namedKeys && log == []
    {
      this.namedKeys := namedKeys;
      log := [];
    }

    method PressKey(k: PhysicalKey)
      modifies this
      ensures log == old(log) + [Press(k)]
    {
      log := log + [Press(k)];
    }

    method ReleaseKey(k: PhysicalKey)
      modifies this
      ensures log == old(log) + [Release(k)]
    {
      log := log + [Release(k)];
    }

    /** `time.sleep(seconds)` between two key calls. */
    method Sleep(seconds: real)
      modifies this
      ensures log == old(log) + [Wait(seconds)]
    {
      log := log + [Wait(seconds)];
    }
  }
}
