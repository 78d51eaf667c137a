/** Values shared by every part of the composition engine: optional values and
    results, spelled pitches with an optional octave, tie states, and the Key
    Model, which is an external music-theory library and appears here only as
    the data it supplies. */
module Music {

  datatype Option<+T> = None | Some(value: T)

  /** Errors the engine can raise: a roman-numeral symbol the key cannot
      resolve, a resolved pitch without an octave (the source then fails on
      `None` arithmetic), a choice from an empty list, and a division by a
      zero pattern length. */
  datatype Error =
    | Unresolvable(symbol: string)
    | MissingOctave(symbol: string)
    | EmptyChoice
    | ZeroTotalDuration

  datatype Result<+T> = Ok(value: T) | Err(error: Error)

  datatype Step = C | D | E | F | G | A | B

  function StepSemitones(s: Step): (r: int)
    ensures 0 <= r < 12
  {
    match s
    case C => 0
    case D => 2
    case E => 4
    case F => 5
    case G => 7
    case A => 9
    case B => 11
  }

  /** A spelled pitch name: `F#` is PitchName(F, 1), `Bb` is PitchName(B, -1). */
  datatype PitchName = PitchName(step: Step, alter: int)

  /** A pitch: its spelled name and its octave, which may be unset (a pitch
      built from a bare tonic name has none). */
  datatype Pitch = Pitch(name: PitchName, octave: Option<int>)

  /** The octave that counts for pitch arithmetic: an unset octave counts as 4. */
  function ImplicitOctave(p: Pitch): int {
    match p.octave
    case Some(o) => o
    case None => 4
  }

  /** The absolute (MIDI-style) pitch number: 60 is C4, and B#3 is also 60. */
  function Midi(p: Pitch): int {
    12 * (ImplicitOctave(p) + 1) + StepSemitones(p.name.step) + p.name.alter
  }

  /** Two pitches print the same name-with-octave (`C#4`, or `C#` when the
      octave is unset) exactly when their names and octaves agree. */
  predicate SameNameWithOctave(p: Pitch, q: Pitch) {
    p.name == q.name && p.octave == q.octave
  }

  function WithOctave(p: Pitch, o: int): (r: Pitch)
    ensures r.name == p.name && r.octave == Some(o)
  {
    Pitch(p.name, Some(o))
  }

  /** Tie state of a note; NoTie is the source's `None`. */
  datatype Tie = NoTie | Start | Continue | Stop

  /** The Key Model supplied by the music-theory library: the tonic as typed
      and as a spelled name, the mode word, the ordered diatonic scale
      pitches, and the resolver from a roman-numeral symbol to the ordered
      pitches of its chord (root first; None when the symbol is unknown). */
  datatype KeyModel = KeyModel(
    tonicText: string,
    tonic: PitchName,
    mode: string,
    scale: seq<Pitch>,
    resolve: string -> Option<seq<Pitch>>)

  /** The tonic as a pitch without an octave. */
  function TonicPitch(k: KeyModel): (r: Pitch)
    ensures r.name == k.tonic && r.octave.None?
  {
    Pitch(k.tonic, None)
  }

  /** Every mode word other than "major" selects the minor tables. */
  predicate IsMajor(mode: string) {
    mode == "major"
  }

  function Min(a: int, b: int): (r: int)
    ensures r <= a && r <= b && (r == a || r == b)
  {
    if a <= b then a else b
  }

  /** Sum of a list of durations. */
  function Sum(s: seq<real>): real {
    if s == [] then 0.0 else s[0] + Sum(s[1..])
  }

  lemma {:induction false} SumAppend(s: seq<real>, t: seq<real>)
    ensures Sum(s + t) == Sum(s) + Sum(t)
  {
    if s == [] {
      assert s + t == t;
    } else {
      assert (s + t)[1..] == s[1..] + t;
      SumAppend(s[1..], t);
    }
  }

  /** Python's `random.choice(xs)`, with the random draw as an explicit index. */
  function Choose<T>(xs: seq<T>, pick: nat): (r: T)
    requires |xs| > 0
    ensures r in xs
  {
    xs[pick % |xs|]
  }
}
