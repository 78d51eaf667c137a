/** The web front end's progression generator: a greedy loop that appends a
    freshly drawn 4-symbol pattern while measures remain (only a prefix of
    the last one when it does not fit), then overwrites the tail with a
    cadence exactly as the core library does. */
module LoopProgression {
  import opened Music
  import Progression

  const MajorPatterns: seq<seq<string>> := [
    ["I", "IV", "V", "I"], ["I", "vi", "IV", "V"],
    ["I", "V", "vi", "IV"], ["vi", "IV", "I", "V"],
    ["I", "iii", "vi", "IV"], ["I", "iii", "IV", "V"], ["vi", "iii", "IV", "V"],
    ["I", "ii", "V", "vi"], ["I", "ii", "IV", "V"], ["vi", "ii", "V", "I"],
    ["I", "vi", "ii", "V"], ["I", "iii", "vi", "ii"], ["vi", "IV", "ii", "V"],
    ["I", "V", "IV", "V"], ["vi", "V", "IV", "V"], ["I", "vi", "V", "IV"],
    ["I", "iii", "IV", "vi"], ["I", "vi", "iii", "IV"], ["vi", "I", "IV", "V"],
    ["I", "V", "vi", "iii"], ["vi", "V", "I", "IV"], ["I", "IV", "vi", "V"]
  ]

  const MajorCadences: seq<seq<string>> := [
    ["IV", "ii", "V7", "I"], ["vi", "ii", "V7", "I"], ["iii", "vi", "ii", "V7"],
    ["ii", "V7", "I"], ["IV", "V", "I"], ["IV", "I"], ["V", "vi"],
    ["iii", "IV", "V"], ["vi", "IV", "I"]
  ]

  const MinorPatterns: seq<seq<string>> := [
    ["i", "iv", "V", "i"], ["i", "VI", "iv", "V"],
    ["i", "VII", "VI", "V"], ["i", "III", "VI", "iv"], ["VI", "VII", "i", "V"],
    ["i", "ii°", "V", "i"], ["i", "ii°", "iv", "V"], ["VI", "ii°", "V", "i"],
    ["i", "VI", "VII", "i"], ["i", "III", "VII", "VI"], ["vi", "VII", "III", "iv"],
    ["i", "V", "VI", "iv"], ["i", "VII", "IV", "V"], ["VI", "iv", "i", "V"],
    ["i", "VI", "ii°", "V"], ["i", "III", "iv", "V"], ["VI", "VII", "III", "i"],
    ["i", "iv", "VII", "VI"], ["i", "VI", "III", "VII"], ["iv", "i", "V", "VI"]
  ]

  const MinorCadences: seq<seq<string>> := [
    ["iv", "ii°", "V7", "i"], ["VI", "ii°", "V7", "i"], ["III", "iv", "V7", "i"],
    ["ii°", "V7", "i"], ["iv", "V", "i"], ["iv", "i"], ["V", "VI"],
    ["VII", "VI", "V"], ["iv", "VII", "i"]
  ]

  function Patterns(mode: string): (r: seq<seq<string>>)
    ensures |r| > 0
    ensures forall k :: 0 <= k < |r| ==> |r[k]| == 4
  {
    if IsMajor(mode) then MajorPatterns else MinorPatterns
  }

  function Cadences(mode: string): (r: seq<seq<string>>)
    ensures |r| == 9
    ensures forall k :: 0 <= k < |r| ==> 2 <= |r[k]| <= 4
  {
    if IsMajor(mode) then MajorCadences else MinorCadences
  }

  /** The random pattern draws supplied to the loop: one per iteration, each
      a valid index into the mode's table, and enough of them. */
  predicate ValidPicks(mode: string, remaining: int, picks: seq<nat>) {
    && (forall k :: 0 <= k < |picks| ==> picks[k] < |Patterns(mode)|)
    && remaining <= 4 * |picks|
  }

  /** What the loop appends when `remaining` measures are left and `picks`
      are the draws still to come. */
  function Fill(mode: string, remaining: int, picks: seq<nat>): (r: seq<string>)
    requires ValidPicks(mode, remaining, picks)
    ensures |r| == if remaining <= 0 then 0 else remaining
    decreases if remaining < 0 then 0 else remaining
  {
    if remaining <= 0 then []
    else
      var pattern := Patterns(mode)[picks[0]];
      if remaining >= |pattern| then pattern + Fill(mode, remaining - |pattern|, picks[1..])
      else pattern[..remaining]
  }

  /** Concatenation of the whole patterns drawn by `picks`. */
  function Whole(mode: string, picks: seq<nat>): seq<string>
    requires forall k :: 0 <= k < |picks| ==> picks[k] < |Patterns(mode)|
  {
    if picks == [] then [] else Patterns(mode)[picks[0]] + Whole(mode, picks[1..])
  }

  /** Before the cadence step the sequence is the first `remaining / 4`
      drawn patterns in full, followed by a prefix of the next one when
      `remaining` is not a multiple of 4; it has exactly `remaining` symbols. */
  lemma {:induction false} FillShape(mode: string, remaining: nat, picks: seq<nat>)
    requires ValidPicks(mode, remaining, picks)
    ensures |Fill(mode, remaining, picks)| == remaining
    ensures Fill(mode, remaining, picks) ==
      Whole(mode, picks[..remaining / 4]) +
      (if remaining % 4 == 0 then [] else Patterns(mode)[picks[remaining / 4]][..remaining % 4])
  {
    if remaining == 0 {
      assert picks[..0] == [];
    } else if remaining < 4 {
      assert picks[..0] == [];
    } else {
      var rest := picks[1..];
      FillShape(mode, remaining - 4, rest);
      assert picks[..remaining / 4] == [picks[0]] + rest[..(remaining - 4) / 4];
      assert picks[..remaining / 4][1..] == rest[..(remaining - 4) / 4];
    }
  }

  /** One iteration of the loop: with draws from `used` on, the symbols
      still to come are the next drawn pattern (or its first `remaining`
      symbols) followed by what the later draws produce. */
  lemma FillStep(mode: string, remaining: int, picks: seq<nat>, used: nat)
    requires used <= |picks| && remaining > 0
    requires ValidPicks(mode, remaining, picks[used..])
    ensures used < |picks| && ValidPicks(mode, remaining - 4, picks[used + 1..])
    ensures Fill(mode, remaining, picks[used..]) ==
      if remaining >= 4 then Patterns(mode)[picks[used]] + Fill(mode, remaining - 4, picks[used + 1..])
      else Patterns(mode)[picks[used]][..remaining]
  {
    var rest := picks[used..];
    assert rest[0] == picks[used] && rest[1..] == picks[used + 1..];
    assert |Patterns(mode)[rest[0]]| == 4;
  }

  /** The loop of generate_progression on the web front end, with the
      random pattern draws in `picks` and the cadence draw in
      `cadenceChoice` (used only when length >= 3). */
  method GenerateProgression(mode: string, length: int, picks: seq<nat>, cadenceChoice: nat)
    returns (progression: seq<string>)
    requires ValidPicks(mode, length, picks)
    requires length >= 3 ==> cadenceChoice < |Cadences(mode)|
    ensures length <= 0 ==> progression == []
    ensures length > 0 ==> progression == Progression.Cadenced(Fill(mode, length, picks),
        if length >= 3 then Cadences(mode)[cadenceChoice] else [], length)
  {
    progression := [];
    var remaining := length;
    var used := 0;
    while remaining > 0
      invariant 0 <= used <= |picks|
      invariant ValidPicks(mode, remaining, picks[used..])
      invariant progression + Fill(mode, remaining, picks[used..]) == Fill(mode, length, picks)
      decreases remaining
    {
      var pattern := Patterns(mode)[picks[used]];
      FillStep(mode, remaining, picks, used);
      used := used + 1;
      if remaining >= |pattern| {
        progression := progression + pattern;
        remaining := remaining - |pattern|;
      } else {
        progression := progression + pattern[..remaining];
        remaining := 0;
      }
    }
    ghost var body := Fill(mode, length, picks);
    assert length > 0 ==> progression == body;
    if length >= 3 {
      var cadence := Cadences(mode)[cadenceChoice];
      var c := Min(|cadence|, length);
      progression := progression[..length - c] + cadence[|cadence| - c..];
      assert progression == Progression.Cadenced(body, cadence, length);
    }
  }

  /** The loop's result has exactly `length` symbols (none for length <= 0);
      below 3 measures it is the concatenated patterns unchanged; from 3
      measures on its last `min(|cadence|, length)` symbols are the cadence's
      tail and every earlier symbol is the one the loop appended. */
  lemma LoopResultShape(mode: string, length: nat, picks: seq<nat>, cadenceChoice: nat, progression: seq<string>)
    requires ValidPicks(mode, length, picks)
    requires length >= 3 ==> cadenceChoice < |Cadences(mode)|
    requires progression == Progression.Cadenced(Fill(mode, length, picks),
        if length >= 3 then Cadences(mode)[cadenceChoice] else [], length)
    ensures |progression| == length
    ensures length < 3 ==> progression == Fill(mode, length, picks)
    ensures length >= 3 ==>
      var cadence := Cadences(mode)[cadenceChoice];
      var c := Progression.CadenceSpan(cadence, length);
      && progression[length - c..] == cadence[|cadence| - c..]
      && progression[..length - c] == Fill(mode, length, picks)[..length - c]
  {
    FillShape(mode, length, picks);
    Progression.CadencedShape(Fill(mode, length, picks),
      if length >= 3 then Cadences(mode)[cadenceChoice] else [], length);
  }
}
