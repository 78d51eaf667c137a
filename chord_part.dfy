/** The chord part: one measure per progression symbol, numbered from 1,
    each holding the realized chord for the whole measure, with a final
    barline on the last measure. Key, clef and time-signature objects are
    not modelled. */
module ChordPart {
  import opened Music
  import Realizer

  datatype ChordMeasure = ChordMeasure(number: nat, chord: Realizer.VoicedChord, duration: real, finalBarline: bool)

  /** The chord length: 4 quarters in 4/4 and 3 in every other meter. */
  function ChordDuration(timeSig: string): real {
    if timeSig == "4/4" then 4.0 else 3.0
  }

  /** The measure progression_to_part builds for symbol i. */
  function MeasureFor(km: KeyModel, prog: seq<string>, timeSig: string, choices: seq<nat>, i: nat): ChordMeasure
    requires i < |prog| && i < |choices| && choices[i] < 3 && Realizer.Resolves(km, prog[i])
  {
    ChordMeasure(i + 1, Realizer.Voicing(km, prog[i], choices[i]).value, ChordDuration(timeSig), i == |prog| - 1)
  }

  predicate ValidInversions(prog: seq<string>, choices: seq<nat>) {
    |choices| >= |prog| && forall i :: 0 <= i < |choices| ==> choices[i] < 3
  }

  /** progression_to_part, with the inversion draw of measure i in
      `choices[i]`. It fails with the error of the first symbol that does not
      resolve; otherwise measure i is numbered i + 1, lasts the meter's
      length, holds symbol i's voicing and only the last one has the final
      barline. */
  method ProgressionToPart(km: KeyModel, prog: seq<string>, timeSig: string, choices: seq<nat>)
    returns (r: Result<seq<ChordMeasure>>)
    requires ValidInversions(prog, choices)
    ensures r.Ok? <==> forall i :: 0 <= i < |prog| ==> Realizer.Resolves(km, prog[i])
    ensures r.Err? ==> exists i :: (0 <= i < |prog| && !Realizer.Resolves(km, prog[i])
      && (forall j :: 0 <= j < i ==> Realizer.Resolves(km, prog[j]))
      && r.error == Realizer.Voicing(km, prog[i], choices[i]).error)
    ensures r.Ok? ==> (|r.value| == |prog|
      && forall i :: 0 <= i < |prog| ==> r.value[i] == MeasureFor(km, prog, timeSig, choices, i))
  {
    var measures: seq<ChordMeasure> := [];
    var i := 0;
    while i < |prog|
      invariant 0 <= i <= |prog|
      invariant forall j :: 0 <= j < i ==> Realizer.Resolves(km, prog[j])
      invariant |measures| == i
      invariant forall j :: 0 <= j < i ==> measures[j] == MeasureFor(km, prog, timeSig, choices, j)
    {
      var c := Realizer.RomanToChord(km, prog[i], choices[i]);
      if c.Err? {
        return Err(c.error);
      }
      var duration := if timeSig == "4/4" then 4.0 else 3.0;
      measures := measures + [ChordMeasure(i + 1, c.value, duration, i == |prog| - 1)];
      i := i + 1;
    }
    r := Ok(measures);
  }
}
