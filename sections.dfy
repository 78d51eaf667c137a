/** Section composition: a requested length is split across the sub-sections
    of the structure (A, AABA or AB), each sub-section is generated
    independently and the results are concatenated in order. Both front ends
    use the same arithmetic; the desktop one calls the core generator, the
    web one its greedy loop generator. */
module Sections {
  import opened Music
  import Progression
  import LoopProgression

  /** Lengths of the sub-sections in order. Any structure word other than
      "A" and "AABA" is treated as AB, as the source's final `else` does. */
  function SectionLengths(structure: string, length: nat): (r: seq<nat>)
    ensures structure == "A" ==> r == [length]
    ensures structure == "AABA" ==> r == [length / 4, length / 4, length - 3 * (length / 4), length / 4]
    ensures structure != "A" && structure != "AABA" ==> r == [length / 2, length - length / 2]
  {
    if structure == "A" then [length]
    else if structure == "AABA" then
      var a := length / 4;
      [a, a, length - 3 * a, a]
    else
      var a := length / 2;
      [a, length - a]
  }

  function Total(s: seq<nat>): nat {
    if s == [] then 0 else s[0] + Total(s[1..])
  }

  /** The sub-section lengths always add up to the requested length, and the
      B section of AABA is the only one that absorbs the remainder. */
  lemma SectionLengthsTotal(structure: string, length: nat)
    ensures Total(SectionLengths(structure, length)) == length
    ensures structure == "AABA" ==> SectionLengths(structure, length)[2] >= SectionLengths(structure, length)[0]
  {
    var r := SectionLengths(structure, length);
    if structure == "AABA" {
      assert r[3..][1..] == [] && r[2..][1..] == r[3..] && r[1..][1..] == r[2..];
      assert Total(r[3..]) == r[3];
      assert Total(r[2..]) == r[2] + r[3];
      assert Total(r[1..]) == r[1] + r[2] + r[3];
    } else if structure == "A" {
      assert Total(r) == r[0];
    } else {
      assert r[1..][1..] == [];
      assert Total(r[1..]) == r[1];
    }
  }

  /** Where each part of a four-part concatenation sits. */
  lemma Parts4(w: seq<string>, x: seq<string>, y: seq<string>, z: seq<string>)
    requires |x| == |w| && |z| == |w|
    ensures var r := w + x + y + z; var a := |w|;
      && |r| == 3 * a + |y|
      && r[..a] == w && r[a..2 * a] == x
      && r[2 * a..|r| - a] == y && r[|r| - a..] == z
  {
    var r := w + x + y + z;
    var a := |w|;
    assert r[..a] == w;
    assert r[a..2 * a] == x;
    assert r[2 * a..|r| - a] == y;
    assert r[|r| - a..] == z;
  }

  lemma Parts2(x: seq<string>, y: seq<string>)
    ensures (x + y)[..|x|] == x && (x + y)[|x|..] == y
  {
  }

  /** Eight measures in AABA split into four sections of two; one measure
      splits into 0, 0, 1, 0. */
  lemma AabaExamples()
    ensures SectionLengths("AABA", 8) == [2, 2, 2, 2]
    ensures SectionLengths("AABA", 1) == [0, 0, 1, 0]
    ensures SectionLengths("AB", 7) == [3, 4]
  {
  }

  /** The random draws of one call of the core generator. */
  datatype SectionChoice = SectionChoice(baseChoice: nat, cadenceChoice: nat)

  predicate ValidChoice(mode: string, c: SectionChoice) {
    c.baseChoice < |Progression.BasicPatterns(mode)| && c.cadenceChoice < |Progression.Cadences(mode)|
  }

  /** Number of generator calls a structure makes: AABA makes three, because
      the two opening A sections are one list repeated. */
  function Calls(structure: string): nat {
    if structure == "A" then 1 else if structure == "AABA" then 3 else 2
  }

  function Section(mode: string, length: nat, c: SectionChoice): (r: seq<string>)
    requires ValidChoice(mode, c)
    ensures |r| == length
  {
    Progression.GenerateProgression(mode, length, c.baseChoice, c.cadenceChoice)
  }

  /** The desktop front end's composition, with the draws of its k-th
      generator call in `choices[k]`. */
  function Compose(mode: string, structure: string, length: nat, choices: seq<SectionChoice>): (r: seq<string>)
    requires |choices| >= Calls(structure)
    requires forall k :: 0 <= k < |choices| ==> ValidChoice(mode, choices[k])
  {
    if structure == "A" then Section(mode, length, choices[0])
    else if structure == "AABA" then
      var a := length / 4;
      var opening := Section(mode, a, choices[0]);
      opening + opening + Section(mode, length - 3 * a, choices[1]) + Section(mode, a, choices[2])
    else
      var a := length / 2;
      Section(mode, a, choices[0]) + Section(mode, length - a, choices[1])
  }

  /** The composed progression has exactly the requested length; in AABA
      the first two A sections are the same list while the closing A is a
      separate generation, and in AB the halves are sections of L//2 and
      L - L//2 measures. */
  lemma ComposeShape(mode: string, structure: string, length: nat, choices: seq<SectionChoice>)
    requires |choices| >= Calls(structure)
    requires forall k :: 0 <= k < |choices| ==> ValidChoice(mode, choices[k])
    ensures var r := Compose(mode, structure, length, choices);
      && |r| == length
      && (structure == "A" ==> r == Section(mode, length, choices[0]))
      && (structure == "AABA" ==>
            var a := length / 4;
            && r[..a] == r[a..2 * a] == Section(mode, a, choices[0])
            && r[2 * a..length - a] == Section(mode, length - 3 * a, choices[1])
            && r[length - a..] == Section(mode, a, choices[2]))
      && (structure != "A" && structure != "AABA" ==>
            && r[..length / 2] == Section(mode, length / 2, choices[0])
            && r[length / 2..] == Section(mode, length - length / 2, choices[1]))
  {
    if structure == "AABA" {
      AabaShape(mode, length, choices);
    } else if structure != "A" {
      AbShape(mode, structure, length, choices);
    }
  }

  lemma AabaShape(mode: string, length: nat, choices: seq<SectionChoice>)
    requires |choices| >= 3
    requires forall k :: 0 <= k < |choices| ==> ValidChoice(mode, choices[k])
    ensures var r := Compose(mode, "AABA", length, choices);
      var a := length / 4;
      && |r| == length
      && r[..a] == r[a..2 * a] == Section(mode, a, choices[0])
      && r[2 * a..length - a] == Section(mode, length - 3 * a, choices[1])
      && r[length - a..] == Section(mode, a, choices[2])
  {
    var a := length / 4;
    var opening := Section(mode, a, choices[0]);
    var b := Section(mode, length - 3 * a, choices[1]);
    var closing := Section(mode, a, choices[2]);
    assert Compose(mode, "AABA", length, choices) == opening + opening + b + closing;
    Parts4(opening, opening, b, closing);
  }

  lemma AbShape(mode: string, structure: string, length: nat, choices: seq<SectionChoice>)
    requires structure != "A" && structure != "AABA" && |choices| >= 2
    requires forall k :: 0 <= k < |choices| ==> ValidChoice(mode, choices[k])
    ensures var r := Compose(mode, structure, length, choices);
      && |r| == length
      && r[..length / 2] == Section(mode, length / 2, choices[0])
      && r[length / 2..] == Section(mode, length - length / 2, choices[1])
  {
    var first := Section(mode, length / 2, choices[0]);
    var second := Section(mode, length - length / 2, choices[1]);
    assert Compose(mode, structure, length, choices) == first + second;
    Parts2(first, second);
  }


  /** The random draws of one call of the loop generator. */
  datatype LoopChoice = LoopChoice(picks: seq<nat>, cadenceChoice: nat)

  predicate ValidLoopChoice(mode: string, length: nat, c: LoopChoice) {
    LoopProgression.ValidPicks(mode, length, c.picks) && (length >= 3 ==> c.cadenceChoice < |LoopProgression.Cadences(mode)|)
  }

  /** What one call of the loop generator (the front end's local
      `get_section`) returns for `length` measures: by the contract of
      LoopProgression.GenerateProgression, the loop method returns exactly
      this sequence. */
  function LoopSection(mode: string, length: nat, c: LoopChoice): (r: seq<string>)
    requires ValidLoopChoice(mode, length, c)
    ensures |r| == length
  {
    var cadence := if length >= 3 then LoopProgression.Cadences(mode)[c.cadenceChoice] else [];
    Progression.Cadenced(LoopProgression.Fill(mode, length, c.picks), cadence, length)
  }

  /** The loop generator's draws for every call a structure makes are valid
      for the sub-section lengths they are used at. */
  predicate ValidLoopChoices(mode: string, structure: string, length: nat, choices: seq<LoopChoice>) {
    && |choices| >= Calls(structure)
    && (structure == "A" ==> ValidLoopChoice(mode, length, choices[0]))
    && (structure == "AABA" ==>
      && ValidLoopChoice(mode, length / 4, choices[0])
      && ValidLoopChoice(mode, length - 3 * (length / 4), choices[1])
      && ValidLoopChoice(mode, length / 4, choices[2]))
    && (structure != "A" && structure != "AABA" ==>
      && ValidLoopChoice(mode, length / 2, choices[0])
      && ValidLoopChoice(mode, length - length / 2, choices[1]))
  }

  /** The web front end's composition, with the draws of its k-th call of
      the loop generator in `choices[k]`. */
  function LoopCompose(mode: string, structure: string, length: nat, choices: seq<LoopChoice>): (r: seq<string>)
    requires ValidLoopChoices(mode, structure, length, choices)
  {
    if structure == "A" then LoopSection(mode, length, choices[0])
    else if structure == "AABA" then
      var a := length / 4;
      var opening := LoopSection(mode, a, choices[0]);
      opening + opening + LoopSection(mode, length - 3 * a, choices[1]) + LoopSection(mode, a, choices[2])
    else
      var a := length / 2;
      LoopSection(mode, a, choices[0]) + LoopSection(mode, length - a, choices[1])
  }

  /** The web front end's composition has exactly the requested length and
      the same layout as the desktop one: AABA repeats one generated A
      section, then a separate B and a separate closing A; AB is the halves
      of L//2 and L - L//2 measures in order. */
  lemma LoopComposeShape(mode: string, structure: string, length: nat, choices: seq<LoopChoice>)
    requires ValidLoopChoices(mode, structure, length, choices)
    ensures var r := LoopCompose(mode, structure, length, choices);
      && |r| == length
      && (structure == "A" ==> r == LoopSection(mode, length, choices[0]))
      && (structure == "AABA" ==>
            var a := length / 4;
            && r[..a] == r[a..2 * a] == LoopSection(mode, a, choices[0])
            && r[2 * a..length - a] == LoopSection(mode, length - 3 * a, choices[1])
            && r[length - a..] == LoopSection(mode, a, choices[2]))
      && (structure != "A" && structure != "AABA" ==>
            && r[..length / 2] == LoopSection(mode, length / 2, choices[0])
            && r[length / 2..] == LoopSection(mode, length - length / 2, choices[1]))
  {
    if structure == "AABA" {
      LoopAabaShape(mode, length, choices);
    } else if structure != "A" {
      LoopAbShape(mode, structure, length, choices);
    }
  }

  lemma LoopAabaShape(mode: string, length: nat, choices: seq<LoopChoice>)
    requires ValidLoopChoices(mode, "AABA", length, choices)
    ensures var r := LoopCompose(mode, "AABA", length, choices);
      var a := length / 4;
      && |r| == length
      && r[..a] == r[a..2 * a] == LoopSection(mode, a, choices[0])
      && r[2 * a..length - a] == LoopSection(mode, length - 3 * a, choices[1])
      && r[length - a..] == LoopSection(mode, a, choices[2])
  {
    var a := length / 4;
    var opening := LoopSection(mode, a, choices[0]);
    var b := LoopSection(mode, length - 3 * a, choices[1]);
    var closing := LoopSection(mode, a, choices[2]);
    assert LoopCompose(mode, "AABA", length, choices) == opening + opening + b + closing;
    Parts4(opening, opening, b, closing);
  }

  lemma LoopAbShape(mode: string, structure: string, length: nat, choices: seq<LoopChoice>)
    requires structure != "A" && structure != "AABA"
    requires ValidLoopChoices(mode, structure, length, choices)
    ensures var r := LoopCompose(mode, structure, length, choices);
      && |r| == length
      && r[..length / 2] == LoopSection(mode, length / 2, choices[0])
      && r[length / 2..] == LoopSection(mode, length - length / 2, choices[1])
  {
    var first := LoopSection(mode, length / 2, choices[0]);
    var second := LoopSection(mode, length - length / 2, choices[1]);
    assert LoopCompose(mode, structure, length, choices) == first + second;
    Parts2(first, second);
  }
}
