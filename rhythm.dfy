/** Rhythm cells: the style tables of the rhythm helpers, the per-meter cell
    tables of the melody generator, and apply_rhythm_pattern, which rescales
    a cell to four quarters and hands its durations out cyclically. */
module Rhythm {
  import opened Music

  const BasicCells: seq<seq<real>> := [[4.0], [2.0, 2.0], [1.0, 1.0, 1.0, 1.0]]
  const SyncopatedCells: seq<seq<real>> :=
    [[1.5, 0.5, 1.5, 0.5], [0.75, 0.25, 0.75, 0.25, 1.0, 1.0], [1.0, 0.5, 0.5, 1.0, 1.0]]
  const SwingCells: seq<seq<real>> := [[0.66, 0.34, 0.66, 0.34, 1.0, 1.0], [1.66, 0.34, 1.0, 1.0]]
  const ComplexCells: seq<seq<real>> :=
    [[0.25, 0.25, 0.5, 0.5, 0.5, 1.0, 1.0], [0.5, 0.25, 0.25, 1.0, 1.0, 1.0], [1.0, 0.5, 0.25, 0.25, 1.0, 1.0]]

  predicate IsRhythmStyle(style: string) {
    style == "basic" || style == "syncopated" || style == "swing" || style == "complex"
  }

  /** get_rhythm_pattern of the core library: an unknown style gets the
      basic cells. */
  function RhythmPatterns(style: string): seq<seq<real>> {
    if style == "syncopated" then SyncopatedCells
    else if style == "swing" then SwingCells
    else if style == "complex" then ComplexCells
    else BasicCells
  }

  /** get_rhythm_pattern of the desktop front end: the same tables, looked
      up without a default, so an unknown style is a KeyError (None). */
  function StrictRhythmPatterns(style: string): Option<seq<seq<real>>> {
    if style == "basic" then Some(BasicCells)
    else if style == "syncopated" then Some(SyncopatedCells)
    else if style == "swing" then Some(SwingCells)
    else if style == "complex" then Some(ComplexCells)
    else None
  }

  /** The two lookups agree on the four styles; outside them the core one
      falls back to the basic cells and the desktop one fails. */
  lemma StyleLookup(style: string)
    ensures StrictRhythmPatterns(style).Some? <==> IsRhythmStyle(style)
    ensures IsRhythmStyle(style) ==> StrictRhythmPatterns(style) == Some(RhythmPatterns(style))
    ensures !IsRhythmStyle(style) ==> RhythmPatterns(style) == RhythmPatterns("basic")
  {
  }

  predicate FillsMeasure(cells: seq<seq<real>>, length: real) {
    |cells| > 0 && forall k :: 0 <= k < |cells| ==> |cells[k]| > 0 && Sum(cells[k]) == length
  }

  lemma BasicFills() ensures FillsMeasure(BasicCells, 4.0) {
    assert Sum(BasicCells[2]) == 4.0;
  }

  lemma SyncopatedFills() ensures FillsMeasure(SyncopatedCells, 4.0) {
    assert Sum(SyncopatedCells[0]) == 4.0;
    assert Sum(SyncopatedCells[1]) == 4.0;
    assert Sum(SyncopatedCells[2]) == 4.0;
  }

  lemma SwingFills() ensures FillsMeasure(SwingCells, 4.0) {
    assert Sum(SwingCells[0]) == 4.0;
    assert Sum(SwingCells[1]) == 4.0;
  }

  lemma ComplexFills() ensures FillsMeasure(ComplexCells, 4.0) {
    assert Sum(ComplexCells[0]) == 4.0;
    assert Sum(ComplexCells[1]) == 4.0;
    assert Sum(ComplexCells[2]) == 4.0;
  }

  /** Every cell of every style lasts exactly four quarters, so
      apply_rhythm_pattern never rescales a cell taken from these tables. */
  lemma StyleCellsFillFourQuarters(style: string)
    ensures FillsMeasure(RhythmPatterns(style), 4.0)
  {
    BasicFills();
    SyncopatedFills();
    SwingFills();
    ComplexFills();
  }

  /** Every duration multiplied by f. */
  function Scaled(p: seq<real>, f: real): (r: seq<real>)
    ensures |r| == |p|
    ensures forall k :: 0 <= k < |p| ==> r[k] == p[k] * f
  {
    if p == [] then [] else [p[0] * f] + Scaled(p[1..], f)
  }

  lemma {:induction false} SumScaled(p: seq<real>, f: real)
    ensures Sum(Scaled(p, f)) == Sum(p) * f
  {
    if p != [] {
      assert Scaled(p, f)[1..] == Scaled(p[1..], f);
      SumScaled(p[1..], f);
    }
  }

  /** The cell apply_rhythm_pattern uses: rescaled by 4 / total when its
      total is not four quarters. */
  function Rescaled(p: seq<real>): seq<real>
    requires Sum(p) != 0.0
  {
    if Sum(p) != 4.0 then Scaled(p, 4.0 / Sum(p)) else p
  }

  /** The rescaled cell has one duration per original duration, in
      proportion to it, and lasts four quarters. */
  lemma RescaledFillsFourQuarters(p: seq<real>)
    requires Sum(p) != 0.0
    ensures |Rescaled(p)| == |p|
    ensures Sum(Rescaled(p)) == 4.0
    ensures forall k :: 0 <= k < |p| ==> Rescaled(p)[k] == p[k] * (4.0 / Sum(p))
  {
    var t := Sum(p);
    var f := 4.0 / t;
    if t != 4.0 {
      SumScaled(p, f);
      assert Sum(Rescaled(p)) == t * f;
      assert t * f == 4.0;
    } else {
      assert f == 1.0;
      assert forall k :: 0 <= k < |p| ==> p[k] * f == p[k];
    }
  }

  lemma MulAtLeast(m: int, d: int)
    requires m > 0 && d >= 1
    ensures m * d >= m
  {
    assert m * d == m + m * (d - 1);
  }

  /** Position r of copy q of a cell of m durations is duration r. */
  lemma ModStep(q: nat, m: nat, r: nat)
    requires r < m
    ensures (q * m + r) % m == r
  {
    var x := q * m + r;
    var d := q - x / m;
    assert m * d == x % m - r;
    if d >= 1 {
      MulAtLeast(m, d);
    } else if d <= -1 {
      MulAtLeast(m, -d);
    }
  }

  /** apply_rhythm_pattern on the notes' durations, which it assigns in
      place. Note k gets duration k mod |cell| of the rescaled cell; an empty
      note list is returned untouched, and a cell totalling zero (including
      the empty cell) is a division by zero. */
  method ApplyRhythmPattern(notes: array<real>, pattern: seq<real>) returns (r: Result<seq<real>>)
    modifies notes
    ensures notes.Length == 0 ==> r == Ok([])
    ensures notes.Length > 0 && Sum(pattern) == 0.0 ==> r == Err(ZeroTotalDuration) && notes[..] == old(notes[..])
    ensures notes.Length > 0 && Sum(pattern) != 0.0 ==>
      && |pattern| > 0
      && r == Ok(notes[..])
      && forall k :: 0 <= k < notes.Length ==> notes[k] == Rescaled(pattern)[k % |pattern|]
  {
    if notes.Length == 0 {
      return Ok([]);
    }
    var total := Sum(pattern);
    if total == 0.0 {
      return Err(ZeroTotalDuration);
    }
    var cell := pattern;
    if total != 4.0 {
      cell := Scaled(pattern, 4.0 / total);
    }
    assert cell == Rescaled(pattern);
    assert |pattern| > 0;
    CycleCell(notes, cell);
    r := Ok(notes[..]);
  }

  /** The assignment loop of apply_rhythm_pattern: pattern_idx runs through
      the cell and wraps to 0 at its end, so note k gets duration k mod |cell|. */
  method CycleCell(notes: array<real>, cell: seq<real>)
    requires |cell| > 0
    modifies notes
    ensures forall k :: 0 <= k < notes.Length ==> notes[k] == cell[k % |cell|]
  {
    var m := |cell|;
    var patternIdx := 0;
    var noteIdx := 0;
    ghost var cycles := 0;
    while noteIdx < notes.Length
      invariant 0 <= noteIdx <= notes.Length
      invariant 0 <= patternIdx <= m
      invariant noteIdx == cycles * m + patternIdx
      invariant forall k :: 0 <= k < noteIdx ==> notes[k] == cell[k % m]
    {
      if patternIdx >= m {
        patternIdx := 0;
        cycles := cycles + 1;
      }
      ModStep(cycles, m, patternIdx);
      notes[noteIdx] := cell[patternIdx];
      noteIdx := noteIdx + 1;
      patternIdx := patternIdx + 1;
    }
  }

  /** The melody generator's cell tables for one meter. */
  const Random44: seq<seq<real>> := [
    [4.0], [2.0, 2.0], [1.0, 1.0, 1.0, 1.0], [2.0, 1.0, 1.0],
    [1.0, 2.0, 1.0], [0.5, 0.5, 0.5, 0.5, 0.5, 0.5, 0.5, 0.5], [1.0, 0.5, 0.5, 2.0],
    [0.5, 0.5, 1.0, 2.0], [2.0, 0.5, 0.5, 1.0], [1.0, 1.0, 0.5, 0.5, 1.0]
  ]
  const Random34: seq<seq<real>> := [
    [3.0], [1.5, 1.5], [1.0, 2.0], [2.0, 1.0], [1.0, 1.0, 1.0],
    [0.5, 0.5, 2.0], [2.0, 0.5, 0.5], [0.5, 1.0, 1.5],
    [0.5, 0.5, 1.0, 1.0], [0.5, 0.5, 0.5, 0.5, 0.5, 0.5]
  ]

  /** measure_length: 4 quarters in 4/4 and in any unknown meter, 3 in 3/4
      and 6/8. */
  function MeasureLength(timeSig: string): real {
    if timeSig == "3/4" || timeSig == "6/8" then 3.0 else 4.0
  }

  predicate IsMelodyOption(option: string) {
    option == "random" || option == "whole" || option == "half" || option == "quarter" || option == "eighth"
  }

  /** The cells a measure draws from: the meter's table for the option, the
      'random' list for an unknown option; 3/4 and 6/8 share one table, and
      an unknown meter has only the whole note as its 'random' list. */
  function MelodyCells(timeSig: string, option: string): seq<seq<real>> {
    var o := if IsMelodyOption(option) then option else "random";
    if timeSig == "4/4" then
      if o == "random" then Random44
      else if o == "whole" then [[4.0]]
      else if o == "half" then [[2.0, 2.0]]
      else if o == "quarter" then [[1.0, 1.0, 1.0, 1.0]]
      else [[0.5, 0.5, 0.5, 0.5, 0.5, 0.5, 0.5, 0.5]]
    else if timeSig == "3/4" || timeSig == "6/8" then
      if o == "random" then Random34
      else if o == "whole" then [[3.0]]
      else if o == "half" then [[1.5, 1.5]]
      else if o == "quarter" then [[1.0, 1.0, 1.0]]
      else [[0.5, 0.5, 0.5, 0.5, 0.5, 0.5]]
    else
      if o == "random" then [[4.0]]
      else if o == "whole" then [[4.0]]
      else if o == "half" then [[2.0, 2.0]]
      else if o == "quarter" then [[1.0, 1.0, 1.0, 1.0]]
      else [[0.5, 0.5, 0.5, 0.5, 0.5, 0.5, 0.5, 0.5]]
  }

  /** An option outside the five known ones draws from the 'random' list. */
  lemma UnknownOptionIsRandom(timeSig: string, option: string)
    requires !IsMelodyOption(option)
    ensures MelodyCells(timeSig, option) == MelodyCells(timeSig, "random")
  {
  }

  lemma Random44Fills() ensures FillsMeasure(Random44, 4.0) {
    assert Sum(Random44[5]) == 4.0;
    assert Sum(Random44[9]) == 4.0;
  }

  lemma Random34Fills() ensures FillsMeasure(Random34, 3.0) {
    assert Sum(Random34[8]) == 3.0;
    assert Sum(Random34[9]) == 3.0;
  }

  lemma EighthsFill()
    ensures Sum([0.5, 0.5, 0.5, 0.5, 0.5, 0.5, 0.5, 0.5]) == 4.0
    ensures Sum([0.5, 0.5, 0.5, 0.5, 0.5, 0.5]) == 3.0
    ensures Sum([1.0, 1.0, 1.0, 1.0]) == 4.0
  {
  }

  /** No cell the melody can draw has more than eight notes (the eighth-note
      cell of 4/4 is the longest). */
  lemma MelodyCellsShort(timeSig: string, option: string)
    ensures forall k :: 0 <= k < |MelodyCells(timeSig, option)| ==> |MelodyCells(timeSig, option)[k]| <= 8
  {
  }

  /** Every cell the melody can draw, in every meter including the unknown
      one, is non-empty and lasts exactly the meter's measure length, so the
      duration warning can never be printed. */
  lemma MelodyCellsFillMeasure(timeSig: string, option: string)
    ensures FillsMeasure(MelodyCells(timeSig, option), MeasureLength(timeSig))
  {
    Random44Fills();
    Random34Fills();
    EighthsFill();
  }
}
