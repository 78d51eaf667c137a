# Procedural composition engine of chordgenerator, in Dafny

This project models the composition engine of the chordgenerator
repository. The engine:

- builds a roman-numeral chord progression (by tiling a basic pattern and
  overwriting its tail with a cadence, or by a greedy loop);
- splits a requested length across the sections of an A, AABA or AB form;
- voices each symbol as a chord in octaves 3..5;
- writes a melody whose pitches follow position and cadence rules, with
  rhythm cells from fixed tables, slurs over groups of four notes and ties
  between equal neighbours;
- analyses the progression (cadences, circle-of-fifths motion, scale-degree
  usage, tensions, voice leading);
- validates the desktop front end's form.

It also models the score editor's re-application of slurs and ties. The
editor checks onset gaps and contiguity, and never overwrites a tie.

Key, roman-numeral and scale lookups of the music library are an abstract
`KeyModel`. It holds the tonic, the mode, the scale pitches and a resolver
from a symbol to its pitches (`None` if it cannot be resolved). Every random
choice is an explicit index argument. Durations are exact `real`s.

Modules:

- `Music`: pitches, ties, results, the key model.
- `Progression` and `LoopProgression`: the two progression generators.
- `Sections`: section composition.
- `Realizer`: `roman_to_chord`.
- `ChordPart`: the measure layout of `progression_to_part`.
- `Rhythm`: rhythm tables and `apply_rhythm_pattern`.
- `Melody` and `Articulation`: `generate_melody_part`.
- `Analysis`: `analyze_harmony`.
- `Validation`: `validate_input`.
- `Editor`: the editor's slur and tie passes, with the class `EditorScore`.

Where the description of the system and the code disagree, the model
follows the code:

- A progression of length 4 is not always fully replaced by its cadence:
  a cadence of 2 or 3 symbols keeps the first 2 or 1 tiled symbols
  (`Progression.FourMeasures`).
- In `roman_to_chord`, `i // len(pitches)` is always 0. So every voiced
  pitch is placed in octave 3 exactly, and the clamp loops never run
  (`Realizer.VoicingRegister`).
- The melody's "no previous note" branch can never be taken. For a note
  after the first in a measure, the previous note always exists, and the
  first note of a measure never consults it.
- No melody cell has the wrong total, so the duration warning is never
  printed (`Rhythm.MelodyCellsFillMeasure`).

## Model

| member | source | states |
|---|---|---|
| Music.Choose | src/core/chord_generator.py:296 | a random choice from a non-empty list returns one of its elements |
| Progression.BasicPatterns | src/core/chord_generator.py:65-94 | four basic patterns of four symbols each, for either mode |
| Progression.Cadences | src/core/chord_generator.py:72-94 | six cadence patterns per mode, each of 2 to 4 symbols |
| Progression.Take | src/core/chord_generator.py:98 | slicing `[:n]` keeps min(n, len) leading elements unchanged |
| Progression.TiledAt | src/core/chord_generator.py:97-98 | the base pattern repeated length/4 + 1 times and cut to `length` has exactly `length` symbols and position k holds base[k mod 4] |
| Progression.CadencedShape | src/core/chord_generator.py:101-104 | for length >= 3, the last min(len(cadence), length) symbols are the cadence's suffix and the rest is kept; for length < 3 nothing changes |
| Progression.GenerateProgression | src/core/chord_generator.py:52-106 | the progression has exactly `length` symbols |
| Progression.GenerateProgressionShape | src/core/chord_generator.py:96-104 | positions before the cadence hold base[k mod 4]; the tail is the chosen cadence's suffix |
| Progression.EndsWithSomeCadence | src/core/chord_generator.py:101-104 | for length >= 3 the progression ends with the suffix of one of the mode's cadences |
| Progression.FourMeasures | src/core/chord_generator.py:97-104 | a length-4 progression ends with the whole cadence and keeps 4 - len(cadence) tiled symbols |
| LoopProgression.Patterns | streamlit_chord_generator.py:172-258 | the loop generator's basic patterns are non-empty lists of four symbols |
| LoopProgression.Cadences | streamlit_chord_generator.py:212-269 | nine cadences per mode, each of 2 to 4 symbols |
| LoopProgression.Fill | streamlit_chord_generator.py:271-286 | the greedy loop appends exactly `remaining` symbols (none when remaining <= 0) |
| LoopProgression.FillShape | streamlit_chord_generator.py:274-286 | the loop's output is a run of whole drawn patterns followed by one prefix of a pattern of length remaining mod 4 |
| LoopProgression.GenerateProgression | streamlit_chord_generator.py:170-294 | the while loop terminates and returns the filled body with the cadence overwrite; length <= 0 gives [] |
| LoopProgression.LoopResultShape | streamlit_chord_generator.py:289-292 | the loop generator returns exactly `length` symbols; for length >= 3 its tail is the cadence's suffix and the rest is untouched |
| Sections.SectionLengths | chord_progression_generator.py:692-701 | A keeps the length; AABA uses a = L//4 and b = L - 3a; any other word is AB, with L//2 and L - L//2 |
| Sections.SectionLengthsTotal | chord_progression_generator.py:694-701 | the section lengths add up to the requested length, and the B of AABA is never shorter than its A |
| Sections.AabaExamples | chord_progression_generator.py:694-701 | L=8 gives 2,2,2,2; L=1 gives 0,0,1,0; AB of 7 is 3,4 |
| Sections.Section | chord_progression_generator.py:689-690 | each generated section has exactly its requested length |
| Sections.ComposeShape | chord_progression_generator.py:692-701 | the composition has length L; AABA's two opening A sections are one list, its B and closing A separate calls; AB is the two halves in order |
| Sections.LoopSection | streamlit_chord_generator.py:539-540 | a section from the loop generator (what `get_section` returns) has its requested length |
| Sections.LoopComposeShape | streamlit_chord_generator.py:542-551 | the web front end's composition has length L, with the same section layout as the desktop one: AABA is one A section written twice, then a fresh B section and a fresh A section; AB is the halves of L//2 and L - L//2 in order |
| Realizer.SeventhRule | src/core/chord_generator.py:28-29 | the seventh is appended exactly when the symbol upper-cases to "V", that is for "V" and "v" but not "V7" |
| Realizer.Rotate | src/core/chord_generator.py:34 | the pitches from position inv on, followed by those before it, are the list rotated left by inv |
| Realizer.Inversion | src/core/chord_generator.py:33 | the inversion is 0, 1 or 2, and 0 when there are at most two pitches |
| Realizer.InOctave | src/core/chord_generator.py:39-40 | every pitch keeps its name and gets the given octave |
| Realizer.TransposeOctaves | src/core/chord_generator.py:40 | transposing by 12k semitones keeps the spelling, shifts the octave by k and the MIDI number by 12k |
| Realizer.ClampOctave | src/core/chord_generator.py:41-45 | the clamp loops leave the octave in [lo, hi], moving it only when outside |
| Realizer.Voicing | src/core/chord_generator.py:14-49 | the chord exists exactly when the symbol (with the seventh rule) resolves to pitches with octaves |
| Realizer.RomanToChord | src/core/chord_generator.py:14-49 | the loop over the rotated pitches produces the voicing, or the error of an unresolvable symbol |
| Realizer.PlaceNotes | src/core/chord_generator.py:37-46 | the octave loop succeeds exactly when every rotated pitch has an octave, and then places each pitch by name in octave 3 |
| Realizer.VoicingRegister | src/core/chord_generator.py:33-46 | the chord has as many pitches as resolved, the inversion is the draw (or 0 for at most two pitches), and every pitch is in octave 3, hence within 3..5 |
| Realizer.VoicingRotation | src/core/chord_generator.py:34-46 | voiced pitch k is resolved pitch k + inversion (mod size) moved to octave 3 |
| Realizer.VoicingTones | src/core/chord_generator.py:34-46 | each resolved tone appears in the voicing at its rotated position, in octave 3 |
| Realizer.ChordTonesOfVoicing | src/core/chord_generator.py:295-300 | the root, third and fifth of the voiced chord are the first three resolved pitches in octave 3, whatever the inversion |
| ChordPart.ProgressionToPart | src/core/chord_generator.py:130-137 | fails with the first unresolvable symbol; otherwise measure i is numbered i+1, lasts 4 quarters in 4/4 and 3 otherwise, holds symbol i's voicing, and only the last has the final barline |
| Rhythm.StyleLookup | chord_progression_generator.py:127-150 | the desktop lookup knows exactly the four styles and agrees with the core one there; the core one falls back to the basic cells |
| Rhythm.StyleCellsFillFourQuarters | src/core/chord_generator.py:143-174 | every cell of every style is non-empty and lasts exactly four quarters |
| Rhythm.Scaled | src/core/chord_generator.py:194 | multiplying by the scale factor keeps the length and scales each duration |
| Rhythm.SumScaled | src/core/chord_generator.py:193-194 | the scaled cell's total is the original total times the factor |
| Rhythm.RescaledFillsFourQuarters | src/core/chord_generator.py:191-194 | a cell with a non-zero total is rescaled to exactly four quarters, proportionally |
| Rhythm.ModStep | src/core/chord_generator.py:201-208 | after q full cycles the pattern index r is position q*m + r modulo m |
| Rhythm.ApplyRhythmPattern | src/core/chord_generator.py:177-211 | no notes gives []; a zero total fails; otherwise note k gets duration k mod len of the rescaled cell, in order |
| Rhythm.CycleCell | src/core/chord_generator.py:197-209 | the assignment loop gives note k the cell's duration k mod len(cell), the index wrapping to 0 at the cell's end |
| Rhythm.UnknownOptionIsRandom | src/core/chord_generator.py:287 | an unknown rhythm option draws from the 'random' list |
| Rhythm.MelodyCellsFillMeasure | src/core/chord_generator.py:243-281 | every melody cell of every meter, the fallback meter included, is non-empty and sums to the meter's measure length, so the check at 323-325 never warns |
| Rhythm.MelodyCellsShort | src/core/chord_generator.py:243-281 | no melody cell has more than eight durations, so eight pitch draws always suffice for a measure |
| Articulation.SlurStarts | src/core/chord_generator.py:332-338 | the slur loop makes N/4 slurs starting at 0, 4, 8, ..., each over four notes inside the melody |
| Articulation.SlursPartition | src/core/chord_generator.py:332-338 | the slur spans are pairwise disjoint and cover exactly the notes before the last N mod 4 |
| Articulation.LinkTies | src/core/chord_generator.py:341-350 | the tie loop leaves each note with its linked tie |
| Articulation.FreshTieRuns | src/core/chord_generator.py:341-350 | on fresh notes a tie is start, continue, stop or none exactly by which neighbours are equal |
| Articulation.FreshTieRun | src/core/chord_generator.py:341-350 | a maximal run of equal notes is marked start, continue..., stop |
| Melody.Registered | src/core/chord_generator.py:310-315 | an unset octave becomes 4; an octave below 4 is raised to 4, above 6 lowered to 6, one in range kept |
| Melody.Register | src/core/chord_generator.py:310-315 | the octave loops produce the registered pitch |
| Melody.NearScale | src/core/chord_generator.py:306 | the candidates are exactly the scale pitches within two semitones of the previous note |
| Melody.NotePitch | src/core/chord_generator.py:289-315 | a note's pitch is in octaves 4..6, is the fixed pitch or one of the choices registered, and fails only on an empty choice |
| Melody.NextPitch | src/core/chord_generator.py:290-315 | one note's pitch per the rules; it can fail only when the scale is empty |
| Melody.MeasureNotes | src/core/chord_generator.py:289-317 | the inner loop gives notes that follow the rules with the cell's durations; it fails only on an empty scale |
| Melody.FollowsDurations | src/core/chord_generator.py:309 | the measure's durations are the cell |
| Melody.GenerateMeasure | src/core/chord_generator.py:284-329 | measure i is numbered i+1, only the last has the final barline, and its notes follow the rules for a cell from the meter's table |
| Melody.GenerateMelodyPart | src/core/chord_generator.py:214-353 | succeeds when every symbol resolves and the scale is non-empty; fails whenever a symbol does not resolve; otherwise it can fail only when a note outside the cadence zone must draw from an empty scale; a result is well formed (measures, slurs, ties) |
| Melody.MeasureRegister | src/core/chord_generator.py:309-315 | every note's octave is in 4..6 and its duration is the cell's |
| Melody.CadenceTonic | src/core/chord_generator.py:290-298 | in a measure with i >= N-3 the first note is the tonic in octave 4; the last note of the last measure is the tonic |
| Melody.OpeningChordTone | src/core/chord_generator.py:291-296 | outside the cadence zone the first note is the root, third or fifth of the chord, or the tonic |
| Melody.CadenceInner | src/core/chord_generator.py:298-300 | inner notes of the cadence zone are the third, the fifth or the tonic |
| Melody.StepwiseMotion | src/core/chord_generator.py:302-307 | later notes come from the scale, within two semitones of the previous note when any scale pitch is that close |
| Melody.PieceEndsOnTonic | src/core/chord_generator.py:297-298 | the whole melody's last note is the tonic in octave 4 |
| Melody.PieceTies | src/core/chord_generator.py:341-350 | with ties on, each maximal run of equal notes across the piece is start, continue..., stop and isolated notes keep no tie |
| Analysis.Cadences | src/core/chord_generator.py:383-398 | at most one cadence, only when there are two symbols or more, at measure len-2 |
| Analysis.CadenceDetection | src/core/chord_generator.py:383-398 | authentic exactly for V-I (V-i in minor), plagal exactly for IV-I (iv-i in minor), nothing for fewer than two symbols |
| Analysis.IndexOf | src/core/chord_generator.py:407 | `list.index` finds the first position holding the symbol |
| Analysis.CircleFirstOccurrence | src/core/chord_generator.py:401-415 | because `index` finds the first "I", V-I in major and V-i in minor are never circle motion, while I-IV is |
| Analysis.CirclesExact | src/core/chord_generator.py:401-415 | the circle entries are exactly the neighbouring pairs in circle motion, in increasing measure order |
| Analysis.CircleListsAlign | src/core/chord_generator.py:408-409 | the progressions and circle measures lists have equal length and name the same pairs |
| Analysis.CircleMarksMeaning | src/core/chord_generator.py:404-415 | the per-pair mark is set exactly when the pair at that measure is in circle motion |
| Analysis.CircleLoop | src/core/chord_generator.py:401-415 | the loop fills both lists from the circle entries |
| Analysis.TensionsAppend | src/core/chord_generator.py:427-429 | the tension list of a concatenation is the concatenation of the lists, one entry per tension symbol |
| Analysis.TensionMembers | chord_progression_generator.py:381-383 | a symbol is listed exactly when it occurs and contains '7', '9' or 'sus' |
| Analysis.TensionExamples | src/core/chord_generator.py:428 | V7, ii9 and Vsus4 carry a tension; I, vii° and IV do not |
| Analysis.TensionLoop | src/core/chord_generator.py:427-429 | the loop produces the tension list in progression order |
| Analysis.ResolveAllSpec | src/core/chord_generator.py:419-420 | resolution succeeds exactly when every symbol resolves, and otherwise fails at the first one that does not |
| Analysis.ResolveLoop | src/core/chord_generator.py:419-420 | the loop resolves the symbols in order, stopping at the first failure |
| Analysis.UsageCounts | src/core/chord_generator.py:418-424 | degree d is counted exactly when some resolved pitch is the scale's first occurrence at d, with the number of such pitches; degrees are 1-based |
| Analysis.UsageLoop | src/core/chord_generator.py:418-424 | the nested loops build the scale-usage table |
| Analysis.HalfStepPairsSpec | src/core/chord_generator.py:442-445 | the half-step pairs are exactly the cross pairs one semitone apart, in nested-loop order |
| Analysis.PairCounts | chord_progression_generator.py:386-399 | a neighbouring pair yields one common-tone entry when the chords share a pitch and one half-step entry per half-step pair |
| Analysis.VoiceLeadingCounts | src/core/chord_generator.py:432-445 | for each pair: at most one common-tone entry, exactly when a pitch is shared, and one half-step entry per half-step pair; none for other measures |
| Analysis.HalfStepLoop | src/core/chord_generator.py:442-445 | the nested loop adds one entry per half-step pair |
| Analysis.VoiceLoop | src/core/chord_generator.py:432-445 | the loop over neighbouring pairs builds the voice-leading list |
| Analysis.Analyze | src/core/chord_generator.py:356-447 | the analysis report: key text, cadences, circle lists, usage, tensions and voice leading, or the first resolution error |
| Analysis.AnalysisOutcome | src/core/chord_generator.py:356-447 | the analysis succeeds exactly when every symbol resolves; its key text is "tonic mode", its circle lists have equal length and it has at most one cadence |
| Validation.StripLeftRemovesBlanks | chord_progression_generator.py:627 | lstrip drops exactly the leading whitespace |
| Validation.StripRightRemovesBlanks | chord_progression_generator.py:627 | rstrip drops exactly the trailing whitespace |
| Validation.StripEmpty | chord_progression_generator.py:627-629 | a stripped field is empty exactly when it is all whitespace |
| Validation.ParseInt | chord_progression_generator.py:639 | `int()` accepts an optional sign and digits with single underscores between them |
| Validation.ValidateInput | chord_progression_generator.py:625-654 | the form is valid exactly when the tonic is non-empty, mode, meter, structure and rhythm are known words after folding, and the length is an integer >= 1 |
| Validation.AcceptsNormalisedForm | chord_progression_generator.py:625-654 | padded and mixed-case input that normalises correctly is accepted |
| Validation.RejectsBadLength | chord_progression_generator.py:639-641 | a length of 0 fails the `< 1` check and "eight" fails `int()` |
| Validation.BlankTonicFirst | chord_progression_generator.py:627-629 | an all-blank tonic is the first error reported |
| Editor.GroupsExact | src/gui/musicxml_editor.py:364-374 | slurs start only at multiples of four with i+3 < len, and a group is skipped exactly when one of its three gaps exceeds 4.0 |
| Editor.SlurStarts | src/gui/musicxml_editor.py:359-374 | the loop over range(0, len-1, 4) collects the slur groups |
| Editor.CloseNotesSlurLikeGenerator | src/gui/musicxml_editor.py:364-374 | with no wide gap the editor makes len/4 slurs at 0, 4, 8, ..., like the generator |
| Editor.NonSlursSpec | src/gui/musicxml_editor.py:378-386 | removing slurs keeps exactly the other spanners, and the count is the number of slurs |
| Editor.RemoveSlurs | src/gui/musicxml_editor.py:380-384 | the loop over a part's spanners drops and counts the slurs |
| Editor.RelinkedTieCases | src/gui/musicxml_editor.py:405-420 | a tie is never 'continue'; the middle of a contiguous run keeps 'stop'; 'start' exactly when the note joins only its successor |
| Editor.EditorDiffersFromGenerator | src/gui/musicxml_editor.py:416-419 | where a note joins both neighbours, the editor gives 'stop' and the generator 'continue' |
| Editor.RelinkPart | src/gui/musicxml_editor.py:405-420 | on cleared notes, the tie loop sets each note's relinked tie, and the added count is the number of joined pairs |
| Editor.RelinkStep | src/gui/musicxml_editor.py:408-419 | one iteration of the tie loop keeps every earlier tie final and leaves untouched the notes after the pair |
| Editor.ClearTies | src/gui/musicxml_editor.py:424-429 | every tie is cleared and the count is the number of notes that had one |
| Editor.RelinkedIgnoresTies | src/gui/musicxml_editor.py:400-402 | relinking depends only on pitches and timing, so clearing first loses nothing |
| Editor.ClearedCounts | src/gui/musicxml_editor.py:400-420 | clearing the ties does not change the number of joined pairs of the score |
| Editor.EditorScore.ToggleSlurs | src/gui/musicxml_editor.py:350-386 | with slurs on, each part's slurs become its slur groups and other spanners stay; with slurs off, the slurs are removed and counted |
| Editor.EditorScore.ToggleTies | src/gui/musicxml_editor.py:398-429 | with ties on, each part's ties are relinked and the joined pairs counted; with ties off, the ties are removed and the tied notes counted |
| Editor.EditorScore.ApplyArticulationChanges | src/gui/musicxml_editor.py:454-503 | slurs are replaced only when slurs are on and ties relinked only when ties are on; everything else is kept |

## Left out

- Tkinter and Streamlit widgets, dialogs and message boxes, threading, memory polling, file dialogs and saving the edited copy: user interface and I/O.
- The music library's key, roman-numeral, scale and chord objects: the abstract `KeyModel` and its resolver stand for them. The resolver is assumed to list a chord's root, third and fifth first, and the melody takes those tones as the first three resolved pitches.
- Melody.GenerateMelodyPart: a chord that resolves to fewer than three pitches is excluded by a precondition, because the root, third and fifth of such a chord are not defined in this model.
- Random choices are explicit index arguments (an index modulo the list length for the melody's draws). The distributions are not modelled.
- Floating-point arithmetic: durations, offsets and the 0.01 and 4.0 tolerances use exact reals. The float sums of cells such as 0.66 + 0.34 are not modelled.
- Pitches are values. The melody's in-place octave changes on shared pitch objects are not modelled; with value pitches each note gets its own copy. Aliasing would matter only for scale pitches outside octaves 4..6.
- Music.SameNameWithOctave: printed name equality is modelled as equality of spelling and octave.
- Validation.ParseInt, Validation.ValidateInput: `str.lower`, `str.upper` and `capitalize` are modelled on ASCII letters only, and `int()` on ASCII digits only; Python's `int()` also accepts any Unicode decimal digit (a length typed as a full-width "８", say), which ParseInt rejects.
- Display strings of the analysis report ("Circle of Fifths: ...", "... contains tension") and of message boxes: each entry is modelled by the data it is built from.
- The analysis resolves symbols without the dominant-seventh rule, as the source calls the resolver directly.
- Editor.EditorScore.ToggleSlurs: new slurs are appended to a part's spanner list. The source inserts them at offset 0, and the order of spanners in a part is not modelled. The source also removes slurs while iterating over the part's spanners; the model removes each slur once.
- Editor: only notes are modelled in an edited part's flattened note list; chords and rests in edited scores are not modelled.
- The editor's empty-score guard (no file opened) is a message box and is not modelled.
- The editor's transpose, the file utilities, the argument parsing of main.py and the report printer are not part of the model.
