/** The melody generator: one measure per progression symbol, filled with a
    rhythm cell drawn from the meter's table; each note's pitch follows the
    position and cadence rules, is put into octaves 4..6, and the finished
    note list is slurred in groups of four and tied between equal
    neighbours. */
module Melody {
  import opened Music
  import Realizer
  import Rhythm
  import Articulation

  datatype MelodyNote = MelodyNote(pitch: Pitch, duration: real)

  datatype MelodyMeasure = MelodyMeasure(number: nat, notes: seq<MelodyNote>, finalBarline: bool)

  /** The generated part: its measures, the tie of every note of the piece
      in order, the start index of every slur (each spans four notes), and
      the measure numbers for which the duration warning was printed. */
  datatype MelodyPart = MelodyPart(measures: seq<MelodyMeasure>, ties: seq<Tie>, slurs: seq<nat>, warnings: seq<int>)

  /** The random draws of one measure: the realizer's inversion, the rhythm
      cell, and one draw per note. */
  datatype MeasureDraw = MeasureDraw(inversion: nat, cell: nat, picks: seq<nat>)

  /** Longest rhythm cell of any table. */
  const MaxCellLength: nat := 8

  /** The octave rules applied to every note: an unset octave becomes 4,
      then the octave is raised to at least 4 and lowered to at most 6. */
  function Registered(p: Pitch): (r: Pitch)
    ensures r.name == p.name && r.octave.Some? && 4 <= r.octave.value <= 6
    ensures p.octave.None? ==> r.octave == Some(4)
    ensures p.octave.Some? && 4 <= p.octave.value <= 6 ==> r == p
    ensures p.octave.Some? && p.octave.value < 4 ==> r.octave == Some(4)
    ensures p.octave.Some? && p.octave.value > 6 ==> r.octave == Some(6)
  {
    WithOctave(p, Realizer.Clamp(ImplicitOctave(p), 4, 6))
  }

  /** The octave fix-up of a note, as the source performs it. */
  method Register(p: Pitch) returns (r: Pitch)
    ensures r == Registered(p)
  {
    var octave := if p.octave.None? then 4 else p.octave.value;
    octave := Realizer.ClampOctave(octave, 4, 6);
    r := WithOctave(p, octave);
  }

  function Distance(p: Pitch, q: Pitch): nat {
    if Midi(p) >= Midi(q) then Midi(p) - Midi(q) else Midi(q) - Midi(p)
  }

  /** The scale pitches within two semitones of `prev`, in scale order. */
  function NearScale(scale: seq<Pitch>, prev: Pitch): (r: seq<Pitch>)
    ensures forall p :: p in r <==> p in scale && Distance(p, prev) <= 2
    ensures |r| <= |scale|
  {
    if scale == [] then []
    else (if Distance(scale[0], prev) <= 2 then [scale[0]] else []) + NearScale(scale[1..], prev)
  }

  /** Where a note's pitch comes from: a fixed pitch, or a random choice
      among pitches. */
  datatype Source = Fixed(pitch: Pitch) | Drawn(choices: seq<Pitch>)

  /** The pitch rules for note j of measure i (of n), whose cell's last
      index is `last`, following the note `prev`, in a measure over the
      chord tones `tones`. */
  function NoteSource(km: KeyModel, tones: Realizer.Tones, i: nat, n: nat, j: nat, last: nat, prev: Option<Pitch>): Source {
    var cadenceZone := i + 3 >= n;
    var tonic := TonicPitch(km);
    if j == 0 then
      if cadenceZone then Fixed(tonic) else Drawn([tones.root, tones.third, tones.fifth, tonic])
    else if i + 1 == n && j == last then Fixed(tonic)
    else if cadenceZone then Drawn([tones.third, tones.fifth, tonic])
    else if prev.Some? then
      var near := NearScale(km.scale, prev.value);
      Drawn(if near != [] then near else km.scale)
    else Drawn(km.scale)
  }

  /** The note's pitch: the source's pitch, with the draw `pick`, put into
      octaves 4..6; choosing from an empty list is an error. */
  function NotePitch(s: Source, pick: nat): (r: Result<Pitch>)
    ensures r.Ok? ==> r.value.octave.Some? && 4 <= r.value.octave.value <= 6
    ensures r.Err? <==> s.Drawn? && s.choices == []
    ensures r.Ok? && s.Fixed? ==> r.value == Registered(s.pitch)
    ensures r.Ok? && s.Drawn? ==> exists c :: c in s.choices && r.value == Registered(c)
  {
    match s
    case Fixed(p) => Ok(Registered(p))
    case Drawn(xs) => if xs == [] then Err(EmptyChoice) else Ok(Registered(Choose(xs, pick)))
  }

  /** The notes of measure i follow the rules: one note per duration of the
      cell, each pitch given by the rules from the preceding note of the
      measure (no rule for a first note reads a previous note). */
  predicate FollowsRules(km: KeyModel, tones: Realizer.Tones, i: nat, n: nat, cell: seq<real>, picks: seq<nat>,
    notes: seq<MelodyNote>)
  {
    |notes| == |cell| && |picks| >= |cell| && FirstFollowRules(km, tones, i, n, cell, picks, notes, |cell|)
  }

  /** The first `count` notes follow the rules. */
  predicate FirstFollowRules(km: KeyModel, tones: Realizer.Tones, i: nat, n: nat, cell: seq<real>, picks: seq<nat>,
    notes: seq<MelodyNote>, count: nat)
    requires count <= |notes| && count <= |cell| && count <= |picks|
  {
    forall j :: 0 <= j < count ==> NoteFollows(km, tones, i, n, cell, picks, notes, j)
  }

  /** Note j has the cell's duration j and the pitch the rules give after
      the note before it. */
  predicate NoteFollows(km: KeyModel, tones: Realizer.Tones, i: nat, n: nat, cell: seq<real>, picks: seq<nat>,
    notes: seq<MelodyNote>, j: nat)
    requires j < |notes| && j < |cell| && j < |picks|
  {
    && notes[j].duration == cell[j]
    && NotePitch(NoteSource(km, tones, i, n, j, |cell| - 1, if j == 0 then None else Some(notes[j - 1].pitch)), picks[j])
       == Ok(notes[j].pitch)
  }

  lemma FirstFollowExtend(km: KeyModel, tones: Realizer.Tones, i: nat, n: nat, cell: seq<real>, picks: seq<nat>,
    notes: seq<MelodyNote>, note: MelodyNote)
    requires |notes| < |cell| && |cell| <= |picks|
    requires FirstFollowRules(km, tones, i, n, cell, picks, notes, |notes|)
    requires note.duration == cell[|notes|]
    requires NotePitch(NoteSource(km, tones, i, n, |notes|, |cell| - 1,
      if |notes| == 0 then None else Some(notes[|notes| - 1].pitch)), picks[|notes|]) == Ok(note.pitch)
    ensures FirstFollowRules(km, tones, i, n, cell, picks, notes + [note], |notes| + 1)
  {
    var ext := notes + [note];
    forall j | 0 <= j < |notes| + 1
      ensures NoteFollows(km, tones, i, n, cell, picks, ext, j)
    {
      if j < |notes| {
        assert NoteFollows(km, tones, i, n, cell, picks, notes, j);
        assert ext[j] == notes[j];
      } else {
        assert ext[j] == note;
      }
      if j > 0 {
        assert ext[j - 1] == notes[j - 1];
      }
    }
  }

  /** The inner loop over the cell's durations. Only a scale-step note can
      fail, and only when the scale is empty. */
  method MeasureNotes(km: KeyModel, tones: Realizer.Tones, i: nat, n: nat, cell: seq<real>, picks: seq<nat>,
    prevIn: Option<Pitch>) returns (r: Result<seq<MelodyNote>>)
    requires |picks| >= |cell|
    ensures r.Ok? ==> FollowsRules(km, tones, i, n, cell, picks, r.value)
    ensures r.Err? ==> r.error == EmptyChoice && km.scale == []
    ensures km.scale != [] ==> r.Ok?
  {
    var notes: seq<MelodyNote> := [];
    var prev := prevIn;
    var j := 0;
    while j < |cell|
      invariant 0 <= j <= |cell|
      invariant |notes| == j
      invariant j > 0 ==> prev == Some(notes[j - 1].pitch)
      invariant FirstFollowRules(km, tones, i, n, cell, picks, notes, j)
    {
      var before: Option<Pitch> := if j == 0 then None else prev;
      assert before == if |notes| == 0 then None else Some(notes[|notes| - 1].pitch);
      var pitch := NextPitch(km, tones, i, n, j, |cell| - 1, before, picks[j]);
      if pitch.Err? {
        return Err(pitch.error);
      }
      FirstFollowExtend(km, tones, i, n, cell, picks, notes, MelodyNote(pitch.value, cell[j]));
      notes := notes + [MelodyNote(pitch.value, cell[j])];
      prev := Some(pitch.value);
      j := j + 1;
    }
    r := Ok(notes);
  }

  /** The pitch of one note, as the loop body draws and registers it. */
  method NextPitch(km: KeyModel, tones: Realizer.Tones, i: nat, n: nat, j: nat, last: nat, prev: Option<Pitch>,
    pick: nat) returns (r: Result<Pitch>)
    ensures r == NotePitch(NoteSource(km, tones, i, n, j, last, prev), pick)
    ensures r.Err? ==> r.error == EmptyChoice && km.scale == []
  {
    var source := NoteSource(km, tones, i, n, j, last, prev);
    var chosen: Pitch;
    match source {
      case Fixed(p) =>
        chosen := p;
      case Drawn(xs) =>
        if xs == [] {
          return Err(EmptyChoice);
        }
        chosen := Choose(xs, pick);
    }
    var registered := Register(chosen);
    r := Ok(registered);
  }

  /** A measure that follows the rules has exactly its cell's durations. */
  lemma FollowsDurations(km: KeyModel, tones: Realizer.Tones, i: nat, n: nat, cell: seq<real>, picks: seq<nat>,
    notes: seq<MelodyNote>)
    requires FollowsRules(km, tones, i, n, cell, picks, notes)
    ensures Durations(notes) == cell
  {
    forall j | 0 <= j < |cell|
      ensures Durations(notes)[j] == cell[j]
    {
      assert NoteFollows(km, tones, i, n, cell, picks, notes, j);
    }
  }

  /** The chord tones of a symbol's realization: the first three resolved
      pitches in octave 3. */
  function TonesFor(km: KeyModel, roman: string): Realizer.Tones
    requires Realizer.Resolves(km, roman) && |km.resolve(Realizer.ChordSymbol(roman)).value| >= 3
  {
    var base := km.resolve(Realizer.ChordSymbol(roman)).value;
    Realizer.Tones(WithOctave(base[0], 3), WithOctave(base[1], 3), WithOctave(base[2], 3))
  }

  /** Every resolvable symbol of the progression resolves to a chord with a
      root, third and fifth. */
  predicate TriadsResolve(km: KeyModel, prog: seq<string>) {
    forall i :: 0 <= i < |prog| && Realizer.Resolves(km, prog[i]) ==>
      |km.resolve(Realizer.ChordSymbol(prog[i])).value| >= 3
  }

  predicate ValidDraws(prog: seq<string>, draws: seq<MeasureDraw>) {
    |draws| >= |prog| && forall i :: 0 <= i < |draws| ==> draws[i].inversion < 3 && |draws[i].picks| >= MaxCellLength
  }

  function Durations(notes: seq<MelodyNote>): (r: seq<real>)
    ensures |r| == |notes| && forall k :: 0 <= k < |notes| ==> r[k] == notes[k].duration
  {
    if notes == [] then [] else [notes[0].duration] + Durations(notes[1..])
  }

  /** All notes of the piece in order. */
  function Flatten(measures: seq<MelodyMeasure>): seq<MelodyNote> {
    if measures == [] then [] else Flatten(measures[..|measures| - 1]) + measures[|measures| - 1].notes
  }

  function Pitches(notes: seq<MelodyNote>): (r: seq<Pitch>)
    ensures |r| == |notes| && forall k :: 0 <= k < |notes| ==> r[k] == notes[k].pitch
  {
    if notes == [] then [] else [notes[0].pitch] + Pitches(notes[1..])
  }

  /** Measure i of a generated part is well formed: numbered i + 1, the last
      one with the final barline, its notes filling the drawn cell by the
      pitch rules over its chord's tones. */
  predicate MeasureOk(km: KeyModel, prog: seq<string>, timeSig: string, option: string, draws: seq<MeasureDraw>,
    measures: seq<MelodyMeasure>, i: nat)
    requires ValidDraws(prog, draws) && TriadsResolve(km, prog)
    requires i < |measures| && i < |prog|
  {
    && Realizer.Resolves(km, prog[i])
    && measures[i].number == i + 1
    && measures[i].finalBarline == (i == |prog| - 1)
    && Rhythm.MelodyCells(timeSig, option) != []
    && FollowsRules(km, TonesFor(km, prog[i]), i, |prog|, Choose(Rhythm.MelodyCells(timeSig, option), draws[i].cell),
         draws[i].picks, measures[i].notes)
  }

  /** n notes without a tie. */
  function NoTies(n: nat): (r: seq<Tie>)
    ensures |r| == n && forall k :: 0 <= k < n ==> r[k] == NoTie
  {
    seq(n, _ => NoTie)
  }

  /** A generated part: one well-formed measure per symbol, no duration
      warning, the ties the tie loop gives fresh notes (none when ties are
      off), and slurs at 0, 4, 8, ... for every complete group of four notes
      (none when slurs are off). */
  predicate WellFormed(km: KeyModel, prog: seq<string>, timeSig: string, option: string,
    useSlurs: bool, useTies: bool, draws: seq<MeasureDraw>, part: MelodyPart)
    requires ValidDraws(prog, draws) && TriadsResolve(km, prog)
  {
    var notes := Flatten(part.measures);
    && |part.measures| == |prog|
    && (forall i :: 0 <= i < |prog| ==> MeasureOk(km, prog, timeSig, option, draws, part.measures, i))
    && part.warnings == []
    && |part.ties| == |notes|
    && (useTies ==> forall k :: 0 <= k < |notes| ==>
          part.ties[k] == Articulation.LinkedTie(Pitches(notes), NoTies(|notes|), k))
    && (!useTies ==> part.ties == NoTies(|notes|))
    && (useSlurs ==> |part.slurs| == |notes| / 4 && forall k :: 0 <= k < |part.slurs| ==> part.slurs[k] == 4 * k)
    && (!useSlurs ==> part.slurs == [])
  }

  /** One measure of the outer loop: realize the chord, draw the cell, fill
      it, and check its total duration against the meter. */
  method GenerateMeasure(km: KeyModel, prog: seq<string>, timeSig: string, option: string, draw: MeasureDraw,
    i: nat, prevIn: Option<Pitch>) returns (r: Result<(MelodyMeasure, bool)>)
    requires i < |prog| && draw.inversion < 3 && |draw.picks| >= MaxCellLength
    requires Realizer.Resolves(km, prog[i]) ==> |km.resolve(Realizer.ChordSymbol(prog[i])).value| >= 3
    ensures r.Ok? ==> (Realizer.Resolves(km, prog[i])
      && r.value.0.number == i + 1 && r.value.0.finalBarline == (i == |prog| - 1)
      && Rhythm.MelodyCells(timeSig, option) != []
      && FollowsRules(km, TonesFor(km, prog[i]), i, |prog|, Choose(Rhythm.MelodyCells(timeSig, option), draw.cell),
           draw.picks, r.value.0.notes)
      && !r.value.1)
    ensures r.Err? ==> !Realizer.Resolves(km, prog[i]) || km.scale == []
    ensures Realizer.Resolves(km, prog[i]) && km.scale != [] ==> r.Ok?
  {
    var c := Realizer.RomanToChord(km, prog[i], draw.inversion);
    if c.Err? {
      return Err(c.error);
    }
    Realizer.ChordTonesOfVoicing(km, prog[i], draw.inversion);
    var tones := Realizer.ChordTones(c.value);
    var cells := Rhythm.MelodyCells(timeSig, option);
    Rhythm.MelodyCellsFillMeasure(timeSig, option);
    var cell := Choose(cells, draw.cell);
    assert cell == cells[draw.cell % |cells|];
    Rhythm.MelodyCellsShort(timeSig, option);
    assert |cell| <= MaxCellLength;
    assert Sum(cell) == Rhythm.MeasureLength(timeSig);
    var notes := MeasureNotes(km, tones, i, |prog|, cell, draw.picks, prevIn);
    if notes.Err? {
      return Err(notes.error);
    }
    var total := Sum(Durations(notes.value));
    FollowsDurations(km, tones, i, |prog|, cell, draw.picks, notes.value);
    var measureLength := Rhythm.MeasureLength(timeSig);
    assert total == measureLength;
    var warn := total - measureLength > 0.01 || measureLength - total > 0.01;
    assert !warn;
    r := Ok((MelodyMeasure(i + 1, notes.value, i == |prog| - 1), warn));
  }

  lemma FlattenAppend(measures: seq<MelodyMeasure>, m: MelodyMeasure)
    ensures Flatten(measures + [m]) == Flatten(measures) + m.notes
  {
    assert (measures + [m])[..|measures|] == measures;
  }

  lemma MeasureOkExtend(km: KeyModel, prog: seq<string>, timeSig: string, option: string, draws: seq<MeasureDraw>,
    measures: seq<MelodyMeasure>, m: MelodyMeasure)
    requires ValidDraws(prog, draws) && TriadsResolve(km, prog)
    requires |measures| < |prog|
    requires forall k :: 0 <= k < |measures| ==> MeasureOk(km, prog, timeSig, option, draws, measures, k)
    requires var i := |measures|;
      && Realizer.Resolves(km, prog[i])
      && m.number == i + 1 && m.finalBarline == (i == |prog| - 1)
      && Rhythm.MelodyCells(timeSig, option) != []
      && FollowsRules(km, TonesFor(km, prog[i]), i, |prog|, Choose(Rhythm.MelodyCells(timeSig, option), draws[i].cell),
           draws[i].picks, m.notes)
    ensures forall k :: 0 <= k <= |measures| ==> MeasureOk(km, prog, timeSig, option, draws, measures + [m], k)
  {
    var ext := measures + [m];
    forall k | 0 <= k <= |measures|
      ensures MeasureOk(km, prog, timeSig, option, draws, ext, k)
    {
      if k < |measures| {
        assert ext[k] == measures[k];
        assert MeasureOk(km, prog, timeSig, option, draws, measures, k);
      } else {
        assert ext[k] == m;
      }
    }
  }

  /** generate_melody_part with its random draws made explicit. */
  method GenerateMelodyPart(km: KeyModel, prog: seq<string>, timeSig: string, option: string,
    useSlurs: bool, useTies: bool, draws: seq<MeasureDraw>) returns (r: Result<MelodyPart>)
    requires ValidDraws(prog, draws) && TriadsResolve(km, prog)
    ensures (forall i :: 0 <= i < |prog| ==> Realizer.Resolves(km, prog[i])) && km.scale != [] ==> r.Ok?
    ensures r.Err? ==> (exists i :: 0 <= i < |prog| && !Realizer.Resolves(km, prog[i])) || km.scale == []
    ensures (exists i :: 0 <= i < |prog| && !Realizer.Resolves(km, prog[i])) ==> r.Err?
    ensures r.Ok? ==> WellFormed(km, prog, timeSig, option, useSlurs, useTies, draws, r.value)
  {
    var measures: seq<MelodyMeasure> := [];
    var allNotes: seq<MelodyNote> := [];
    var warnings: seq<int> := [];
    var prev: Option<Pitch> := None;
    var i := 0;
    while i < |prog|
      invariant 0 <= i <= |prog|
      invariant |measures| == i
      invariant forall k :: 0 <= k < i ==> MeasureOk(km, prog, timeSig, option, draws, measures, k)
      invariant allNotes == Flatten(measures)
      invariant warnings == []
    {
      var m := GenerateMeasure(km, prog, timeSig, option, draws[i], i, prev);
      if m.Err? {
        return Err(m.error);
      }
      var (measure, warn) := m.value;
      if measure.notes != [] {
        prev := Some(measure.notes[|measure.notes| - 1].pitch);
      }
      if warn {
        warnings := warnings + [i + 1];
      }
      FlattenAppend(measures, measure);
      allNotes := allNotes + measure.notes;
      MeasureOkExtend(km, prog, timeSig, option, draws, measures, measure);
      measures := measures + [measure];
      i := i + 1;
    }
    forall k | 0 <= k < |prog|
      ensures Realizer.Resolves(km, prog[k])
    {
      assert MeasureOk(km, prog, timeSig, option, draws, measures, k);
    }
    var slurs: seq<nat> := [];
    if useSlurs {
      slurs := Articulation.SlurStarts(|allNotes|);
    }
    var ties := new Tie[|allNotes|](_ => NoTie);
    assert ties[..] == NoTies(|allNotes|);
    if useTies {
      Articulation.LinkTies(Pitches(allNotes), ties);
    }
    r := Ok(MelodyPart(measures, ties[..], slurs, warnings));
  }

  /** Rule j of a measure that follows the rules. */
  lemma NoteAt(km: KeyModel, tones: Realizer.Tones, i: nat, n: nat, cell: seq<real>, picks: seq<nat>,
    notes: seq<MelodyNote>, j: nat)
    requires FollowsRules(km, tones, i, n, cell, picks, notes) && j < |notes|
    ensures NoteFollows(km, tones, i, n, cell, picks, notes, j)
  {
  }

  /** Every note of a measure lies in octaves 4..6 and lasts its cell's
      duration. */
  lemma MeasureRegister(km: KeyModel, tones: Realizer.Tones, i: nat, n: nat, cell: seq<real>, picks: seq<nat>,
    notes: seq<MelodyNote>)
    requires FollowsRules(km, tones, i, n, cell, picks, notes)
    ensures forall j :: 0 <= j < |notes| ==>
      notes[j].pitch.octave.Some? && 4 <= notes[j].pitch.octave.value <= 6 && notes[j].duration == cell[j]
  {
    forall j | 0 <= j < |notes|
      ensures notes[j].pitch.octave.Some? && 4 <= notes[j].pitch.octave.value <= 6 && notes[j].duration == cell[j]
    {
      NoteAt(km, tones, i, n, cell, picks, notes, j);
    }
  }

  /** In the last three measures the first note is the tonic in octave 4,
      and so is the last note of the last measure. */
  lemma CadenceTonic(km: KeyModel, tones: Realizer.Tones, i: nat, n: nat, cell: seq<real>, picks: seq<nat>,
    notes: seq<MelodyNote>)
    requires FollowsRules(km, tones, i, n, cell, picks, notes) && |notes| > 0
    ensures i + 3 >= n ==> notes[0].pitch == Pitch(km.tonic, Some(4))
    ensures i + 1 == n ==> notes[|notes| - 1].pitch == Pitch(km.tonic, Some(4))
  {
    NoteAt(km, tones, i, n, cell, picks, notes, 0);
    NoteAt(km, tones, i, n, cell, picks, notes, |notes| - 1);
  }

  /** Outside the last three measures the first note is the root, third,
      fifth or tonic, put into octaves 4..6. */
  lemma OpeningChordTone(km: KeyModel, tones: Realizer.Tones, i: nat, n: nat, cell: seq<real>, picks: seq<nat>,
    notes: seq<MelodyNote>)
    requires FollowsRules(km, tones, i, n, cell, picks, notes) && |notes| > 0 && i + 3 < n
    ensures exists c :: c in [tones.root, tones.third, tones.fifth, TonicPitch(km)] && notes[0].pitch == Registered(c)
  {
    NoteAt(km, tones, i, n, cell, picks, notes, 0);
  }

  /** Inside the last three measures every other note but the final one of
      the piece is the third, fifth or tonic, put into octaves 4..6. */
  lemma CadenceInner(km: KeyModel, tones: Realizer.Tones, i: nat, n: nat, cell: seq<real>, picks: seq<nat>,
    notes: seq<MelodyNote>, j: nat)
    requires FollowsRules(km, tones, i, n, cell, picks, notes) && 0 < j < |notes|
    requires i + 3 >= n && !(i + 1 == n && j == |notes| - 1)
    ensures exists c :: c in [tones.third, tones.fifth, TonicPitch(km)] && notes[j].pitch == Registered(c)
  {
    NoteAt(km, tones, i, n, cell, picks, notes, j);
  }

  /** Outside the last three measures a later note moves by step: it is a
      scale pitch within two semitones of the note before it when there is
      one, otherwise any scale pitch, put into octaves 4..6. A scale pitch
      already in octaves 4..6 is kept as drawn, so then the melody moves by
      at most two semitones. */
  lemma StepwiseMotion(km: KeyModel, tones: Realizer.Tones, i: nat, n: nat, cell: seq<real>, picks: seq<nat>,
    notes: seq<MelodyNote>, j: nat)
    requires FollowsRules(km, tones, i, n, cell, picks, notes) && 0 < j < |notes| && i + 3 < n
    ensures var prev := notes[j - 1].pitch;
      exists c :: c in km.scale && notes[j].pitch == Registered(c)
        && (NearScale(km.scale, prev) != [] ==> Distance(c, prev) <= 2)
    ensures var prev := notes[j - 1].pitch;
      NearScale(km.scale, prev) != [] && (forall p :: p in km.scale ==> Registered(p) == p) ==>
        Distance(notes[j].pitch, prev) <= 2
  {
    NoteAt(km, tones, i, n, cell, picks, notes, j);
    var prev := notes[j - 1].pitch;
    var near := NearScale(km.scale, prev);
    var c :| c in (if near != [] then near else km.scale) && notes[j].pitch == Registered(c);
    assert c in km.scale;
  }

  /** Every measure of a generated part has at least one note, so the piece
      is not empty and ends on the tonic in octave 4. */
  lemma PieceEndsOnTonic(km: KeyModel, prog: seq<string>, timeSig: string, option: string,
    useSlurs: bool, useTies: bool, draws: seq<MeasureDraw>, part: MelodyPart)
    requires ValidDraws(prog, draws) && TriadsResolve(km, prog) && |prog| > 0
    requires WellFormed(km, prog, timeSig, option, useSlurs, useTies, draws, part)
    ensures var notes := Flatten(part.measures);
      |notes| > 0 && notes[|notes| - 1].pitch == Pitch(km.tonic, Some(4))
  {
    assert MeasureOk(km, prog, timeSig, option, draws, part.measures, |prog| - 1);
    LastMeasureEndsOnTonic(km, prog, timeSig, option, draws, part.measures);
  }

  /** The last note of the last measure is the last note of the piece. */
  lemma LastMeasureEndsOnTonic(km: KeyModel, prog: seq<string>, timeSig: string, option: string,
    draws: seq<MeasureDraw>, ms: seq<MelodyMeasure>)
    requires ValidDraws(prog, draws) && TriadsResolve(km, prog) && |prog| > 0 && |ms| == |prog|
    requires MeasureOk(km, prog, timeSig, option, draws, ms, |prog| - 1)
    ensures var notes := Flatten(ms);
      |notes| > 0 && notes[|notes| - 1].pitch == Pitch(km.tonic, Some(4))
  {
    var last := |prog| - 1;
    var cells := Rhythm.MelodyCells(timeSig, option);
    Rhythm.MelodyCellsFillMeasure(timeSig, option);
    var cell := Choose(cells, draws[last].cell);
    assert |ms[last].notes| == |cell| > 0;
    CadenceTonic(km, TonesFor(km, prog[last]), last, |prog|, cell, draws[last].picks, ms[last].notes);
    assert ms == ms[..last] + [ms[last]];
    FlattenAppend(ms[..last], ms[last]);
  }

  /** With ties on, each maximal run of equal neighbouring notes of the
      piece, across barlines too, is tied start, continue, ..., stop, and a
      note equal to neither neighbour has no tie. */
  lemma PieceTies(km: KeyModel, prog: seq<string>, timeSig: string, option: string,
    useSlurs: bool, draws: seq<MeasureDraw>, part: MelodyPart, k: nat)
    requires ValidDraws(prog, draws) && TriadsResolve(km, prog)
    requires WellFormed(km, prog, timeSig, option, useSlurs, true, draws, part)
    requires k < |Flatten(part.measures)|
    ensures var ps := Pitches(Flatten(part.measures));
      && (part.ties[k] == Start <==> Articulation.SameAsNext(ps, k) && !Articulation.SameAsNext(ps, k - 1))
      && (part.ties[k] == Continue <==> Articulation.SameAsNext(ps, k) && Articulation.SameAsNext(ps, k - 1))
      && (part.ties[k] == Stop <==> !Articulation.SameAsNext(ps, k) && Articulation.SameAsNext(ps, k - 1))
      && (part.ties[k] == NoTie <==> !Articulation.SameAsNext(ps, k) && !Articulation.SameAsNext(ps, k - 1))
  {
    var notes := Flatten(part.measures);
    Articulation.FreshTieRuns(Pitches(notes), NoTies(|notes|), k);
  }
}
