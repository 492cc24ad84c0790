/**
 * The home-page hero: the brand word lingers, slides out, and is then replaced by a
 * rotating word that advances on every interval tick. The three timers are events the
 * rotator receives; their durations are not part of the model.
 */
module HeroRotator {

  /** The rotating words, in order. */
  const Words: seq<string> := ["Vision", "Velocity", "Vector", "Vanguard", "Vigilance"]

  /** The brand animation: shown, leaving, gone. */
  datatype Phase = Show | Exit | Hidden

  /** The order in which the phases are passed through. */
  function Rank(p: Phase): nat {
    match p
    case Show => 0
    case Exit => 1
    case Hidden => 2
  }

  /** `(i + 1) % words.length`: the word after `i`, wrapping round. */
  function NextIndex(i: nat): (r: nat)
    requires i < |Words|
    ensures r < |Words|
    ensures i + 1 < |Words| ==> r == i + 1
    ensures i + 1 == |Words| ==> r == 0
  {
    (i + 1) % |Words|
  }

  /** `(idx - 1 + words.length) % words.length`: the word before `idx`, wrapping round. */
  function PrevIndex(idx: nat): (r: nat)
    requires idx < |Words|
    ensures r < |Words| && r != idx
    ensures NextIndex(r) == idx
  {
    (idx - 1 + |Words|) % |Words|
  }

  /** Stepping back undoes stepping forward. */
  lemma PrevOfNext(i: nat)
    requires i < |Words|
    ensures PrevIndex(NextIndex(i)) == i
  {
    if i + 1 < |Words| {
      assert NextIndex(i) == i + 1;
    } else {
      assert NextIndex(i) == 0;
    }
  }

  /** The index after `n` ticks. */
  function Advance(i: nat, n: nat): (r: nat)
    requires i < |Words|
    ensures r < |Words|
  {
    if n == 0 then i else NextIndex(Advance(i, n - 1))
  }

  /** `n` ticks move the index `n` places round the ring of words. */
  lemma {:induction false} AdvanceMod(i: nat, n: nat)
    requires i < |Words|
    ensures Advance(i, n) == (i + n) % |Words|
  {
    if n > 0 {
      AdvanceMod(i, n - 1);
      var k := (i + n - 1) % |Words|;
      assert (i + n - 1) == ((i + n - 1) / |Words|) * |Words| + k;
      if k + 1 < |Words| {
        assert (i + n) == ((i + n - 1) / |Words|) * |Words| + (k + 1);
      } else {
        assert (i + n) == ((i + n - 1) / |Words| + 1) * |Words|;
      }
    }
  }

  /** After one tick per word the same word is shown again, and not sooner. */
  lemma FullCycle(i: nat, n: nat)
    requires i < |Words|
    ensures Advance(i, |Words|) == i
    ensures 0 < n < |Words| ==> Advance(i, n) != i
  {
    AdvanceMod(i, |Words|);
    AdvanceMod(i, n);
    if 0 < n < |Words| {
      if i + n < |Words| {
        assert (i + n) % |Words| == i + n;
      } else {
        assert (i + n) % |Words| == i + n - |Words|;
      }
    }
  }

  /** How a word is animated: entering, leaving, or parked below. */
  datatype Role = Entering | Leaving | Parked

  /** The role of word `i` while word `idx` is active. */
  function RoleOf(i: nat, idx: nat): (r: Role)
    requires i < |Words| && idx < |Words|
    ensures r == Entering <==> i == idx
    ensures r == Leaving <==> i != idx && NextIndex(i) == idx
  {
    if i == idx then Entering
    else if i == PrevIndex(idx) then Leaving
    else
      assert NextIndex(i) != idx by {
        if NextIndex(i) == idx {
          PrevOfNext(i);
        }
      }
      Parked
  }

  /** Exactly one word enters and exactly one other leaves. */
  lemma OneEntersOneLeaves(idx: nat)
    requires idx < |Words|
    ensures forall i :: 0 <= i < |Words| && RoleOf(i, idx) == Entering ==> i == idx
    ensures forall i :: 0 <= i < |Words| && RoleOf(i, idx) == Leaving ==> i == PrevIndex(idx)
    ensures RoleOf(PrevIndex(idx), idx) == Leaving
  {
    forall i | 0 <= i < |Words| && RoleOf(i, idx) == Leaving
      ensures i == PrevIndex(idx)
    {
      PrevOfNext(i);
    }
  }

  /** What is visible in a phase. */
  datatype Visibility = Visibility(brand: bool, brandClickable: bool, words: bool, underline: bool)

  /**
   * The brand is opaque only while shown and takes clicks until hidden; the words, the
   * underline and the tagline appear only once the brand is hidden.
   */
  function VisibilityOf(p: Phase): (v: Visibility)
    ensures v.brand <==> p == Show
    ensures v.brandClickable <==> p != Hidden
    ensures v.words <==> p == Hidden
    ensures v.underline == v.words
    ensures !(v.brand && v.words)
  {
    Visibility(p == Show, p != Hidden, p == Hidden, p == Hidden)
  }

  const BrandHint := "Showing: Colibri."
  const WordHintPrefix := "Now showing: "

  /** The screen-reader line: the brand until hidden, then the active word. */
  function ScreenReaderText(p: Phase, idx: nat): (r: string)
    requires idx < |Words|
    ensures p != Hidden ==> r == BrandHint
    ensures p == Hidden ==>
      (|r| == |WordHintPrefix| + |Words[idx]| + 1
       && r[..|WordHintPrefix|] == WordHintPrefix
       && r[|WordHintPrefix|..|r| - 1] == Words[idx]
       && r[|r| - 1] == '.')
  {
    if p != Hidden then BrandHint
    else
      var r := WordHintPrefix + Words[idx] + ".";
      assert r[..|WordHintPrefix|] == WordHintPrefix;
      assert r[|WordHintPrefix|..|r| - 1] == Words[idx];
      r
  }

  /** The rotator's state: the brand phase and the index of the active word. */
  class Rotator {
    var phase: Phase
    var idx: nat

    /** The index names a word, and it stays at the first word until the brand is hidden. */
    ghost predicate Valid()
      reads this
    {
      idx < |Words| && (phase != Hidden ==> idx == 0)
    }

    constructor()
      ensures Valid() && phase == Show && idx == 0
    {
      phase := Show;
      idx := 0;
    }

    /** The linger timer is set only while shown; when it fires the brand starts to exit. */
    method LingerElapsed()
      requires Valid()
      modifies this
      ensures Valid() && Rank(phase) >= old(Rank(phase))
      ensures phase == (if old(phase) == Show then Exit else old(phase)) && idx == old(idx)
    {
      if phase == Show {
        phase := Exit;
      }
    }

    /** The exit timer is set only while exiting; when it fires the brand is hidden. */
    method ExitElapsed()
      requires Valid()
      modifies this
      ensures Valid() && Rank(phase) >= old(Rank(phase))
      ensures phase == (if old(phase) == Exit then Hidden else old(phase)) && idx == old(idx)
    {
      if phase == Exit {
        phase := Hidden;
      }
    }

    /** The interval runs only while the brand is hidden; each tick moves to the next word. */
    method Tick()
      requires Valid()
      modifies this
      ensures Valid() && phase == old(phase)
      ensures idx == (if old(phase) == Hidden then NextIndex(old(idx)) else old(idx))
    {
      if phase == Hidden {
        idx := NextIndex(idx);
      }
    }
  }
}
