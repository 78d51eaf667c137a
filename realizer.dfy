/** The chord realizer: a roman-numeral symbol is resolved in the key, the
    dominant gets its seventh, the pitch list is rotated for the inversion,
    and every pitch is moved into octave 3 and kept inside octaves 3..5. */
module Realizer {
  import opened Music

  /** The symbol upper-cases to "V": only "V" and "v" do. */
  predicate IsDominantName(roman: string) {
    roman == "V" || roman == "v"
  }

  /** The symbol actually resolved: the dominant's figure gains a '7'. */
  function ChordSymbol(roman: string): string {
    if IsDominantName(roman) then roman + "7" else roman
  }

  /** The seventh is added exactly for "V" and "v"; a symbol that already
      carries a figure such as "V7" is resolved unchanged. */
  lemma SeventhRule(roman: string)
    ensures ChordSymbol(roman) != roman <==> IsDominantName(roman)
    ensures ChordSymbol("V") == "V7" && ChordSymbol("v") == "v7"
    ensures ChordSymbol("V7") == "V7" && ChordSymbol("I") == "I" && ChordSymbol("IV") == "IV"
  {
    if IsDominantName(roman) {
      assert |ChordSymbol(roman)| == |roman| + 1;
    }
  }

  /** The elements from position k on, followed by those before k: a left
      rotation by k places. */
  function Rotate<T>(s: seq<T>, k: nat): (r: seq<T>)
    requires k <= |s|
    ensures |r| == |s|
    ensures forall j :: 0 <= j < |s| - k ==> r[j] == s[j + k]
    ensures forall j :: |s| - k <= j < |s| ==> r[j] == s[j + k - |s|]
  {
    s[k..] + s[..k]
  }

  /** The inversion used: the random draw among 0, 1, 2 when the chord has
      more than two pitches, otherwise root position. */
  function Inversion(size: nat, choice: nat): (r: nat)
    requires choice < 3
    ensures r <= 2
    ensures size <= 2 ==> r == 0
    ensures r < size || r == 0
  {
    if size > 2 then choice else 0
  }

  predicate HasOctaves(s: seq<Pitch>) {
    forall k :: 0 <= k < |s| ==> s[k].octave.Some?
  }

  /** Every pitch of `s` with its octave replaced by `o`. */
  function InOctave(s: seq<Pitch>, o: int): (r: seq<Pitch>)
    ensures |r| == |s|
    ensures forall k :: 0 <= k < |s| ==> r[k] == WithOctave(s[k], o)
  {
    if s == [] then [] else [WithOctave(s[0], o)] + InOctave(s[1..], o)
  }

  function Clamp(o: int, lo: int, hi: int): int {
    if o < lo then lo else if o > hi then hi else o
  }

  /** `p.transpose(12 * k)`: the same spelling k octaves away. */
  function TransposeOctaves(p: Pitch, k: int): (r: Pitch)
    requires p.octave.Some?
    ensures r.name == p.name && r.octave == Some(p.octave.value + k)
    ensures Midi(r) == Midi(p) + 12 * k
  {
    Pitch(p.name, Some(p.octave.value + k))
  }

  /** A realized chord: its voiced pitches and the inversion applied. */
  datatype VoicedChord = VoicedChord(pitches: seq<Pitch>, inversion: nat)

  /** The symbol resolves and every resolved pitch carries an octave. */
  predicate Resolves(km: KeyModel, roman: string) {
    var resolved := km.resolve(ChordSymbol(roman));
    resolved.Some? && HasOctaves(resolved.value)
  }

  /** What roman_to_chord produces: the resolved pitches rotated by the
      inversion, each placed in octave 3. */
  function Voicing(km: KeyModel, roman: string, choice: nat): (r: Result<VoicedChord>)
    requires choice < 3
    ensures r.Ok? <==> Resolves(km, roman)
  {
    var symbol := ChordSymbol(roman);
    match km.resolve(symbol)
    case None => Err(Unresolvable(symbol))
    case Some(base) =>
      if !HasOctaves(base) then Err(MissingOctave(symbol))
      else
        var inversion := Inversion(|base|, choice);
        Ok(VoicedChord(InOctave(Rotate(base, inversion), 3), inversion))
  }

  /** The two loops that move an octave up, then down, into lo..hi. */
  method ClampOctave(o: int, lo: int, hi: int) returns (r: int)
    requires lo <= hi
    ensures lo <= r <= hi
    ensures r == Clamp(o, lo, hi)
  {
    r := o;
    while r < lo
      invariant r == o || (o < lo && r <= lo)
      decreases lo - r
    {
      r := r + 1;
    }
    ghost var raised := r;
    while r > hi
      invariant lo <= r <= raised
      invariant r >= hi || r == raised
      decreases r - hi
    {
      r := r - 1;
    }
  }

  lemma DivBelow(i: nat, n: nat)
    requires i < n
    ensures i / n == 0
  {
  }

  /** A rotation keeps every pitch, so it has octaves exactly when the
      original list has. */
  lemma RotateHasOctaves(s: seq<Pitch>, k: nat)
    requires k <= |s|
    ensures HasOctaves(Rotate(s, k)) <==> HasOctaves(s)
  {
    var r := Rotate(s, k);
    if HasOctaves(r) {
      forall j | 0 <= j < |s|
        ensures s[j].octave.Some?
      {
        if j >= k {
          assert r[j - k] == s[j];
        } else {
          assert r[j + |s| - k] == s[j];
        }
      }
    }
  }

  /** roman_to_chord with its random inversion draw as `choice`. */
  method RomanToChord(km: KeyModel, roman: string, choice: nat) returns (r: Result<VoicedChord>)
    requires choice < 3
    ensures r == Voicing(km, roman, choice)
  {
    var symbol := ChordSymbol(roman);
    var resolved := km.resolve(symbol);
    if resolved.None? {
      return Err(Unresolvable(symbol));
    }
    var base := resolved.value;
    var inversion := Inversion(|base|, choice);
    var pitches := Rotate(base, inversion);
    RotateHasOctaves(base, inversion);
    var notes := PlaceNotes(pitches);
    if notes.None? {
      return Err(MissingOctave(symbol));
    }
    r := Ok(VoicedChord(notes.value, inversion));
  }

  /** The loop of roman_to_chord over the rotated pitches: pitch i is moved
      to octave 3 + i // n and clamped into octaves 3..5, which is octave 3
      for every i < n; a pitch without an octave stops the loop with None. */
  method PlaceNotes(pitches: seq<Pitch>) returns (r: Option<seq<Pitch>>)
    ensures r.Some? <==> HasOctaves(pitches)
    ensures r.Some? ==> r.value == InOctave(pitches, 3)
  {
    var notes: seq<Pitch> := [];
    var i := 0;
    while i < |pitches|
      invariant 0 <= i <= |pitches|
      invariant forall k :: 0 <= k < i ==> pitches[k].octave.Some?
      invariant notes == InOctave(pitches[..i], 3)
    {
      var p := pitches[i];
      if p.octave.None? {
        return None;
      }
      DivBelow(i, |pitches|);
      var np := TransposeOctaves(p, 3 + i / |pitches| - p.octave.value);
      var o := ClampOctave(np.octave.value, 3, 5);
      assert o == 3 && WithOctave(np, o) == WithOctave(p, 3);
      NextInOctave(pitches, i, 3);
      notes := notes + [WithOctave(np, o)];
      i := i + 1;
    }
    assert pitches[..i] == pitches;
    r := Some(notes);
  }

  lemma NextInOctave(s: seq<Pitch>, i: nat, o: int)
    requires i < |s|
    ensures InOctave(s[..i + 1], o) == InOctave(s[..i], o) + [WithOctave(s[i], o)]
  {
  }

  /** Where chord tone t of the resolved list sits in the rotated list. */
  function ToneIndex(size: nat, inversion: nat, t: nat): (r: nat)
    requires inversion < size && t < size
    ensures r < size
  {
    if t >= inversion then t - inversion else size + t - inversion
  }

  /** The voiced chord has one pitch per resolved pitch, an inversion in
      {0, 1, 2} that is 0 for chords of two pitches or fewer, and every pitch
      lands exactly in octave 3, so always inside 3..5. */
  lemma VoicingRegister(km: KeyModel, roman: string, choice: nat)
    requires choice < 3 && Resolves(km, roman)
    ensures var base := km.resolve(ChordSymbol(roman)).value;
      var v := Voicing(km, roman, choice).value;
      && |v.pitches| == |base|
      && v.inversion <= 2 && (|base| <= 2 ==> v.inversion == 0)
      && (|base| > 2 ==> v.inversion == choice)
      && (forall k :: 0 <= k < |v.pitches| ==> v.pitches[k].octave == Some(3))
      && (forall k :: 0 <= k < |v.pitches| ==> 3 <= v.pitches[k].octave.value <= 5)
  {
  }

  /** The voiced pitch list is the resolved list rotated left by the
      inversion, each pitch keeping its spelling. */
  lemma VoicingRotation(km: KeyModel, roman: string, choice: nat)
    requires choice < 3 && Resolves(km, roman)
    ensures var base := km.resolve(ChordSymbol(roman)).value;
      var v := Voicing(km, roman, choice).value;
      && |v.pitches| == |base| && v.inversion <= |base|
      && (forall k :: 0 <= k < |base| - v.inversion ==> v.pitches[k] == WithOctave(base[k + v.inversion], 3))
      && (forall k :: |base| - v.inversion <= k < |base| ==> v.pitches[k] == WithOctave(base[k + v.inversion - |base|], 3))
  {
  }

  /** Resolved tone t is found at ToneIndex in the voiced chord. */
  lemma VoicingTones(km: KeyModel, roman: string, choice: nat, t: nat)
    requires choice < 3 && Resolves(km, roman)
    requires t < |km.resolve(ChordSymbol(roman)).value|
    ensures var base := km.resolve(ChordSymbol(roman)).value;
      var v := Voicing(km, roman, choice).value;
      && |v.pitches| == |base| && v.inversion < |base|
      && v.pitches[ToneIndex(|base|, v.inversion, t)] == WithOctave(base[t], 3)
  {
    VoicingRotation(km, roman, choice);
    var base := km.resolve(ChordSymbol(roman)).value;
    var v := Voicing(km, roman, choice).value;
    var j := ToneIndex(|base|, v.inversion, t);
    if t >= v.inversion {
      assert j < |base| - v.inversion && j + v.inversion == t;
    } else {
      assert j >= |base| - v.inversion && j + v.inversion - |base| == t;
    }
  }

  /** The root, third and fifth of a realized chord, taken from the first
      three resolved pitches in octave 3. */
  datatype Tones = Tones(root: Pitch, third: Pitch, fifth: Pitch)

  function ChordTones(v: VoicedChord): (r: Tones)
    requires v.inversion < |v.pitches| && |v.pitches| >= 3
  {
    var n := |v.pitches|;
    Tones(v.pitches[ToneIndex(n, v.inversion, 0)], v.pitches[ToneIndex(n, v.inversion, 1)],
      v.pitches[ToneIndex(n, v.inversion, 2)])
  }

  /** Whatever inversion was drawn, the chord tones are the resolver's first
      three pitches in octave 3. */
  lemma ChordTonesOfVoicing(km: KeyModel, roman: string, choice: nat)
    requires choice < 3 && Resolves(km, roman)
    requires |km.resolve(ChordSymbol(roman)).value| >= 3
    ensures var base := km.resolve(ChordSymbol(roman)).value;
      var v := Voicing(km, roman, choice).value;
      && v.inversion < |v.pitches| && |v.pitches| >= 3
      && ChordTones(v) == Tones(WithOctave(base[0], 3), WithOctave(base[1], 3), WithOctave(base[2], 3))
  {
    VoicingTones(km, roman, choice, 0);
    VoicingTones(km, roman, choice, 1);
    VoicingTones(km, roman, choice, 2);
  }
}
