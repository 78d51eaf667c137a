/** The score editor's articulation passes. Unlike the generator they look
    at the notes' positions in time: a four-note slur group is skipped when
    two neighbouring onsets are more than four quarters apart, and two equal
    notes are tied only when the first ends where the second begins. Ties
    already set are never overwritten. */
module Editor {
  import opened Music
  import Articulation

  /** A note of an edited part: its pitch, onset and length in quarters,
      and its tie. */
  datatype EditorNote = EditorNote(pitch: Pitch, offset: real, duration: real, tie: Tie)

  /** A spanner of a part: a slur over the four notes from `start`, or any
      other spanner, which the passes leave alone. */
  datatype Spanner = Slur(start: nat) | OtherSpanner

  datatype PartState = PartState(notes: seq<EditorNote>, spanners: seq<Spanner>)

  function Abs(x: real): real {
    if x < 0.0 then -x else x
  }

  /** Notes j and j + 1 start at most four quarters apart. */
  predicate CloseOnsets(notes: seq<EditorNote>, j: nat)
    requires j + 1 < |notes|
  {
    Abs(notes[j].offset - notes[j + 1].offset) <= 4.0
  }

  /** A slur starts at note i: i is a multiple of four, the four notes
      i..i+3 exist, and no two neighbours among them are far apart. */
  predicate SlurGroup(notes: seq<EditorNote>, i: nat) {
    i % 4 == 0 && i + 3 < |notes|
    && CloseOnsets(notes, i) && CloseOnsets(notes, i + 1) && CloseOnsets(notes, i + 2)
  }

  /** The slur starts below n, in increasing order. */
  function GroupsBelow(notes: seq<EditorNote>, n: nat): seq<nat> {
    if n == 0 then []
    else GroupsBelow(notes, n - 1) + (if SlurGroup(notes, n - 1) then [n - 1] else [])
  }

  function Groups(notes: seq<EditorNote>): seq<nat> {
    GroupsBelow(notes, |notes|)
  }

  /** The starts below n are exactly the slur groups below n, each once,
      in increasing order. */
  lemma {:induction false} GroupsBelowExact(notes: seq<EditorNote>, n: nat)
    ensures forall k :: 0 <= k < |GroupsBelow(notes, n)| ==>
      GroupsBelow(notes, n)[k] < n && SlurGroup(notes, GroupsBelow(notes, n)[k])
    ensures forall i: nat :: i < n && SlurGroup(notes, i) ==> i in GroupsBelow(notes, n)
    ensures forall k, l :: 0 <= k < l < |GroupsBelow(notes, n)| ==> GroupsBelow(notes, n)[k] < GroupsBelow(notes, n)[l]
  {
    if n > 0 {
      GroupsBelowExact(notes, n - 1);
      var g0 := GroupsBelow(notes, n - 1);
      assert g0 <= GroupsBelow(notes, n);
      assert forall k :: 0 <= k < |g0| ==> GroupsBelow(notes, n)[k] == g0[k];
    }
  }

  /** Slur groups start at multiples of four, span four existing notes
      and have all three gaps within four quarters; every such group is
      slurred, once, in increasing order. */
  lemma GroupsExact(notes: seq<EditorNote>)
    ensures forall k :: 0 <= k < |Groups(notes)| ==>
      var s := Groups(notes)[k];
      s % 4 == 0 && s + 3 < |notes| && CloseOnsets(notes, s) && CloseOnsets(notes, s + 1) && CloseOnsets(notes, s + 2)
    ensures forall i: nat :: SlurGroup(notes, i) ==> i in Groups(notes)
    ensures forall k, l :: 0 <= k < l < |Groups(notes)| ==> Groups(notes)[k] < Groups(notes)[l]
  {
    GroupsBelowExact(notes, |notes|);
    forall i: nat | SlurGroup(notes, i)
      ensures i in Groups(notes)
    {
      assert i < |notes|;
    }
  }

  /** No slur group starts from a to b - 1, so nothing is added. */
  lemma {:induction false} GroupsBelowSkip(notes: seq<EditorNote>, a: nat, b: nat)
    requires a <= b
    requires forall i: nat :: a <= i < b ==> !SlurGroup(notes, i)
    ensures GroupsBelow(notes, b) == GroupsBelow(notes, a)
    decreases b - a
  {
    if a < b {
      GroupsBelowSkip(notes, a, b - 1);
    }
  }

  /** The loop over the start indices 0, 4, 8, ... below |notes| - 1 that
      collects the slur groups, skipping a group with a wide gap. */
  method SlurStarts(notes: seq<EditorNote>) returns (starts: seq<nat>)
    ensures starts == Groups(notes)
  {
    starts := [];
    if notes == [] {
      return;
    }
    var i := 0;
    while i < |notes| - 1
      invariant i % 4 == 0 && (i == 0 || i >= 4)
      invariant i <= |notes| + 2
      invariant starts == GroupsBelow(notes, i)
      decreases |notes| - i
    {
      if i + 3 < |notes| {
        var wide := Abs(notes[i].offset - notes[i + 1].offset) > 4.0
          || Abs(notes[i + 1].offset - notes[i + 2].offset) > 4.0
          || Abs(notes[i + 2].offset - notes[i + 3].offset) > 4.0;
        assert SlurGroup(notes, i) <==> !wide;
        if !wide {
          starts := starts + [i];
        }
      } else {
        assert !SlurGroup(notes, i);
      }
      assert GroupsBelow(notes, i + 1) == starts;
      OffGroupStarts(notes, i);
      GroupsBelowSkip(notes, i + 1, i + 4);
      i := i + 4;
    }
    if i < |notes| {
      assert i == |notes| - 1;
      assert !SlurGroup(notes, i);
      GroupsBelowSkip(notes, i, |notes|);
    } else {
      OffGroupStarts(notes, i - 4);
      GroupsBelowSkip(notes, |notes|, i);
    }
  }

  /** Between two multiples of four no slur group starts. */
  lemma OffGroupStarts(notes: seq<EditorNote>, i: nat)
    requires i % 4 == 0
    ensures forall j: nat :: i < j < i + 4 ==> !SlurGroup(notes, j)
  {
    assert (i + 1) % 4 == 1 && (i + 2) % 4 == 2 && (i + 3) % 4 == 3;
  }

  lemma {:induction false} GroupsBelowClose(notes: seq<EditorNote>, n: nat)
    requires n <= 4 * (|notes| / 4)
    requires forall j :: 0 <= j && j + 1 < |notes| ==> CloseOnsets(notes, j)
    ensures |GroupsBelow(notes, n)| == (n + 3) / 4
    ensures forall k :: 0 <= k < |GroupsBelow(notes, n)| ==> GroupsBelow(notes, n)[k] == 4 * k
  {
    if n > 0 {
      GroupsBelowClose(notes, n - 1);
      if (n - 1) % 4 == 0 {
        assert SlurGroup(notes, n - 1);
      }
    }
  }

  /** When no two neighbouring onsets are more than four quarters apart
      the editor slurs like the generator: one group at every multiple of
      four, |notes| / 4 of them. */
  lemma CloseNotesSlurLikeGenerator(notes: seq<EditorNote>)
    requires forall j :: 0 <= j && j + 1 < |notes| ==> CloseOnsets(notes, j)
    ensures |Groups(notes)| == |notes| / 4
    ensures forall k :: 0 <= k < |Groups(notes)| ==> Groups(notes)[k] == 4 * k
  {
    var m := 4 * (|notes| / 4);
    GroupsBelowClose(notes, m);
    GroupsBelowSkip(notes, m, |notes|);
  }

  /** The spanners that are not slurs, in order. */
  function NonSlurs(spanners: seq<Spanner>): seq<Spanner> {
    if spanners == [] then []
    else (NonSlurs(spanners[..|spanners| - 1])
      + (if spanners[|spanners| - 1].Slur? then [] else [spanners[|spanners| - 1]]))
  }

  function SlurCount(spanners: seq<Spanner>): nat {
    if spanners == [] then 0
    else SlurCount(spanners[..|spanners| - 1]) + (if spanners[|spanners| - 1].Slur? then 1 else 0)
  }

  /** Removing the slurs keeps exactly the other spanners, and the number
      removed is the number of slurs. */
  lemma {:induction false} NonSlursSpec(spanners: seq<Spanner>, x: Spanner)
    ensures x in NonSlurs(spanners) <==> x in spanners && !x.Slur?
    ensures |NonSlurs(spanners)| + SlurCount(spanners) == |spanners|
  {
    if spanners != [] {
      var init := spanners[..|spanners| - 1];
      NonSlursSpec(init, x);
      assert spanners == init + [spanners[|spanners| - 1]];
    }
  }

  /** The loop over a part's spanners that removes the slurs and counts
      them. */
  method RemoveSlurs(spanners: seq<Spanner>) returns (kept: seq<Spanner>, removed: nat)
    ensures kept == NonSlurs(spanners) && removed == SlurCount(spanners)
  {
    kept := [];
    removed := 0;
    var i := 0;
    while i < |spanners|
      invariant 0 <= i <= |spanners|
      invariant kept == NonSlurs(spanners[..i]) && removed == SlurCount(spanners[..i])
    {
      assert spanners[..i + 1][..i] == spanners[..i];
      if spanners[i].Slur? {
        removed := removed + 1;
      } else {
        kept := kept + [spanners[i]];
      }
      i := i + 1;
    }
    assert spanners[..i] == spanners;
  }

  /** One slur per start. */
  function SlursAt(starts: seq<nat>): (r: seq<Spanner>)
    ensures |r| == |starts| && forall k :: 0 <= k < |starts| ==> r[k] == Slur(starts[k])
  {
    if starts == [] then [] else SlursAt(starts[..|starts| - 1]) + [Slur(starts[|starts| - 1])]
  }

  /** A part after re-slurring: its old slurs gone, its other spanners
      kept, and one new slur per slur group. */
  function Reslurred(p: PartState): PartState {
    PartState(p.notes, NonSlurs(p.spanners) + SlursAt(Groups(p.notes)))
  }

  /** A part after removing its slurs. */
  function Unslurred(p: PartState): PartState {
    PartState(p.notes, NonSlurs(p.spanners))
  }

  /** Notes k and k + 1 are tied by the editor: the same name with octave,
      and the first ends within 0.01 of the second's onset. */
  predicate Joins(notes: seq<EditorNote>, k: int) {
    0 <= k && k + 1 < |notes|
    && SameNameWithOctave(notes[k].pitch, notes[k + 1].pitch)
    && Abs(notes[k].offset + notes[k].duration - notes[k + 1].offset) <= 0.01
  }

  /** The tie of note k after the tie pass: 'stop' when it joins its
      predecessor (set first, never overwritten), else 'start' when it
      joins its successor, else none. */
  function RelinkedTie(notes: seq<EditorNote>, k: nat): Tie {
    if Joins(notes, k - 1) then Stop else if Joins(notes, k) then Start else NoTie
  }

  /** The editor's ties never continue: a note joined on both sides, the
      middle of a run of three, keeps 'stop'. A note gets 'start' exactly
      when it joins only its successor and none exactly when it joins
      neither neighbour. */
  lemma RelinkedTieCases(notes: seq<EditorNote>, k: nat)
    ensures RelinkedTie(notes, k) != Continue
    ensures Joins(notes, k - 1) && Joins(notes, k) ==> RelinkedTie(notes, k) == Stop
    ensures RelinkedTie(notes, k) == Start <==> Joins(notes, k) && !Joins(notes, k - 1)
    ensures RelinkedTie(notes, k) == NoTie <==> !Joins(notes, k) && !Joins(notes, k - 1)
  {
  }

  /** The pitches of an edited part, to compare its ties with the
      generator's tie pass (whose notes are a different type). */
  function Pitches(notes: seq<EditorNote>): (r: seq<Pitch>)
    ensures |r| == |notes| && forall k :: 0 <= k < |notes| ==> r[k] == notes[k].pitch
  {
    seq(|notes|, k requires 0 <= k < |notes| => notes[k].pitch)
  }

  /** Where a note is joined on both sides, the generator's tie pass would
      give it 'continue' and the editor's gives it 'stop'. */
  lemma EditorDiffersFromGenerator(notes: seq<EditorNote>, k: nat)
    requires 0 < k && k + 1 < |notes| && Joins(notes, k - 1) && Joins(notes, k)
    ensures RelinkedTie(notes, k) == Stop
    ensures Articulation.LinkedTie(Pitches(notes), seq(|notes|, _ => NoTie), k) == Continue
  {
    var ps := Pitches(notes);
    assert ps[k - 1] == notes[k - 1].pitch && ps[k] == notes[k].pitch && ps[k + 1] == notes[k + 1].pitch;
  }

  /** The positions k whose notes k and k + 1 are tied. */
  function JoinedPairs(notes: seq<EditorNote>, n: nat): set<nat> {
    set k | 0 <= k < n && Joins(notes, k)
  }

  lemma JoinedPairsStep(notes: seq<EditorNote>, n: nat)
    ensures JoinedPairs(notes, n + 1) == JoinedPairs(notes, n) + (if Joins(notes, n) then {n} else {})
    ensures n !in JoinedPairs(notes, n)
    ensures |JoinedPairs(notes, n + 1)| == |JoinedPairs(notes, n)| + (if Joins(notes, n) then 1 else 0)
  {
    if Joins(notes, n) {
      assert |JoinedPairs(notes, n) + {n}| == |JoinedPairs(notes, n)| + 1;
    } else {
      assert JoinedPairs(notes, n + 1) == JoinedPairs(notes, n);
    }
  }

  /** The number of tied pairs of a part. */
  function TieCount(notes: seq<EditorNote>): nat {
    |JoinedPairs(notes, |notes|)|
  }

  /** The notes with every tie set as the tie pass leaves it. */
  function Relinked(notes: seq<EditorNote>): (r: seq<EditorNote>)
    ensures |r| == |notes| && forall k :: 0 <= k < |notes| ==> r[k] == notes[k].(tie := RelinkedTie(notes, k))
  {
    seq(|notes|, k requires 0 <= k < |notes| => notes[k].(tie := RelinkedTie(notes, k)))
  }

  /** No note of the part carries a tie. */
  predicate TiesCleared(notes: seq<EditorNote>) {
    forall k :: 0 <= k < |notes| ==> notes[k].tie == NoTie
  }

  /** The tie loop over one part whose ties were all cleared: a joined pair
      sets 'start' on the first note and 'stop' on the second, each only
      when that note has no tie yet, and is counted. */
  method RelinkPart(notes: seq<EditorNote>) returns (relinked: seq<EditorNote>, added: nat)
    requires TiesCleared(notes)
    ensures relinked == Relinked(notes)
    ensures added == TieCount(notes)
  {
    var ties := seq(|notes|, k requires 0 <= k < |notes| => notes[k].tie);
    added := 0;
    var i := 0;
    while i + 1 < |notes|
      invariant RelinkedUpTo(notes, ties, i)
      invariant added == |JoinedPairs(notes, i)|
      decreases |notes| - i
    {
      JoinedPairsStep(notes, i);
      var n1 := notes[i];
      var n2 := notes[i + 1];
      ghost var before := ties;
      if SameNameWithOctave(n1.pitch, n2.pitch) && Abs(n1.offset + n1.duration - n2.offset) <= 0.01 {
        assert Joins(notes, i);
        if ties[i] == NoTie {
          ties := ties[i := Start];
        }
        if ties[i + 1] == NoTie {
          ties := ties[i + 1 := Stop];
        }
        added := added + 1;
      } else {
        assert !Joins(notes, i);
      }
      RelinkStep(notes, before, ties, i);
      i := i + 1;
    }
    if |notes| > 0 {
      assert i == |notes| - 1 && !Joins(notes, i);
      JoinedPairsStep(notes, i);
      assert ties[i] == RelinkedTie(notes, i);
    } else {
      assert JoinedPairs(notes, 0) == {};
    }
    assert added == TieCount(notes);
    relinked := seq(|notes|, k requires 0 <= k < |notes| => notes[k].(tie := ties[k]));
    forall k | 0 <= k < |notes|
      ensures relinked[k] == Relinked(notes)[k]
    {
      assert ties[k] == RelinkedTie(notes, k);
    }
  }

  /** The ties after the pass has looked at the pairs before i: final below
      i, 'stop' or none at i, untouched above. */
  predicate RelinkedUpTo(notes: seq<EditorNote>, ties: seq<Tie>, i: nat) {
    && |ties| == |notes| && (i == 0 || i < |notes|)
    && (forall k :: 0 <= k < i ==> ties[k] == RelinkedTie(notes, k))
    && (i < |notes| ==> ties[i] == (if Joins(notes, i - 1) then Stop else NoTie))
    && (forall k :: i < k < |notes| ==> ties[k] == NoTie)
  }

  /** Looking at pair i, which sets 'start' and 'stop' on its notes when
      they are joined and have no tie yet, keeps the tie pass on track. */
  lemma RelinkStep(notes: seq<EditorNote>, before: seq<Tie>, after: seq<Tie>, i: nat)
    requires RelinkedUpTo(notes, before, i) && i + 1 < |notes| && |after| == |before|
    requires after[i] == (if Joins(notes, i) && before[i] == NoTie then Start else before[i])
    requires after[i + 1] == (if Joins(notes, i) && before[i + 1] == NoTie then Stop else before[i + 1])
    requires forall k :: 0 <= k < |before| && k != i && k != i + 1 ==> after[k] == before[k]
    ensures RelinkedUpTo(notes, after, i + 1)
  {
    assert after[i] == RelinkedTie(notes, i);
    assert before[i + 1] == NoTie;
  }

  /** The notes with no tie at all. */
  function Cleared(notes: seq<EditorNote>): (r: seq<EditorNote>)
    ensures |r| == |notes| && forall k :: 0 <= k < |notes| ==> r[k] == notes[k].(tie := NoTie)
  {
    seq(|notes|, k requires 0 <= k < |notes| => notes[k].(tie := NoTie))
  }

  /** The positions of notes that carry a tie. */
  function TiedNotes(notes: seq<EditorNote>, n: nat): set<nat> {
    set k | 0 <= k < n && k < |notes| && notes[k].tie != NoTie
  }

  lemma TiedNotesStep(notes: seq<EditorNote>, n: nat)
    requires n < |notes|
    ensures |TiedNotes(notes, n + 1)| == |TiedNotes(notes, n)| + (if notes[n].tie != NoTie then 1 else 0)
  {
    var before := TiedNotes(notes, n);
    if notes[n].tie != NoTie {
      assert TiedNotes(notes, n + 1) == before + {n};
      assert n !in before;
      assert |before + {n}| == |before| + 1;
    } else {
      assert TiedNotes(notes, n + 1) == TiedNotes(notes, n);
    }
  }

  /** The loop over a part's notes that clears every tie and counts the
      notes that had one. */
  method ClearTies(notes: seq<EditorNote>) returns (cleared: seq<EditorNote>, removed: nat)
    ensures cleared == Cleared(notes)
    ensures removed == |TiedNotes(notes, |notes|)|
  {
    cleared := notes;
    removed := 0;
    var i := 0;
    while i < |notes|
      invariant 0 <= i <= |notes| && |cleared| == |notes|
      invariant forall k :: 0 <= k < i ==> cleared[k] == notes[k].(tie := NoTie)
      invariant forall k :: i <= k < |notes| ==> cleared[k] == notes[k]
      invariant removed == |TiedNotes(notes, i)|
    {
      TiedNotesStep(notes, i);
      if cleared[i].tie != NoTie {
        cleared := cleared[i := cleared[i].(tie := NoTie)];
        removed := removed + 1;
      }
      i := i + 1;
    }
  }

  /** Relinking does not look at the old ties. */
  lemma RelinkedIgnoresTies(notes: seq<EditorNote>)
    ensures Relinked(Cleared(notes)) == Relinked(notes)
  {
    var c := Cleared(notes);
    forall k | 0 <= k < |notes| ensures RelinkedTie(c, k) == RelinkedTie(notes, k) {
      assert Joins(c, k - 1) == Joins(notes, k - 1);
      assert Joins(c, k) == Joins(notes, k);
    }
  }

  /** Totals over the parts of a score. */
  function TotalSlurs(parts: seq<PartState>): nat {
    if parts == [] then 0 else TotalSlurs(parts[..|parts| - 1]) + SlurCount(parts[|parts| - 1].spanners)
  }

  function TotalTieCount(parts: seq<PartState>): nat {
    if parts == [] then 0 else TotalTieCount(parts[..|parts| - 1]) + TieCount(parts[|parts| - 1].notes)
  }

  function TotalTied(parts: seq<PartState>): nat {
    if parts == [] then 0
    else TotalTied(parts[..|parts| - 1]) + |TiedNotes(parts[|parts| - 1].notes, |parts[|parts| - 1].notes|)|
  }

  /** A part after the tie pass. */
  function Retied(p: PartState): PartState {
    PartState(Relinked(p.notes), p.spanners)
  }

  /** A part after removing its ties. */
  function Untied(p: PartState): PartState {
    PartState(Cleared(p.notes), p.spanners)
  }

  /** The open score: its parts, each with its notes and spanners. */
  class EditorScore {
    var parts: seq<PartState>

    constructor(parts: seq<PartState>)
      ensures this.parts == parts
    {
      this.parts := parts;
    }

    /** The loop over the parts that removes every slur, counting them. */
    method RemoveAllSlurs() returns (removed: nat)
      modifies this
      ensures |parts| == |old(parts)|
      ensures forall p :: 0 <= p < |parts| ==> parts[p] == Unslurred(old(parts)[p])
      ensures removed == TotalSlurs(old(parts))
    {
      removed := 0;
      var p := 0;
      while p < |parts|
        invariant 0 <= p <= |parts| && |parts| == |old(parts)|
        invariant forall q :: 0 <= q < p ==> parts[q] == Unslurred(old(parts)[q])
        invariant forall q :: p <= q < |parts| ==> parts[q] == old(parts)[q]
        invariant removed == TotalSlurs(old(parts)[..p])
      {
        var kept, count := RemoveSlurs(parts[p].spanners);
        assert old(parts)[..p + 1][..p] == old(parts)[..p];
        parts := parts[p := PartState(parts[p].notes, kept)];
        removed := removed + count;
        p := p + 1;
      }
      assert old(parts)[..p] == old(parts);
    }

    /** The loop over the parts that adds one slur per slur group. */
    method AddSlurs()
      modifies this
      ensures |parts| == |old(parts)|
      ensures forall p :: 0 <= p < |parts| ==>
        parts[p] == PartState(old(parts)[p].notes, old(parts)[p].spanners + SlursAt(Groups(old(parts)[p].notes)))
    {
      var p := 0;
      while p < |parts|
        invariant 0 <= p <= |parts| && |parts| == |old(parts)|
        invariant forall q :: 0 <= q < p ==>
          parts[q] == PartState(old(parts)[q].notes, old(parts)[q].spanners + SlursAt(Groups(old(parts)[q].notes)))
        invariant forall q :: p <= q < |parts| ==> parts[q] == old(parts)[q]
      {
        var notes := parts[p].notes;
        var starts := SlurStarts(notes);
        parts := parts[p := PartState(notes, parts[p].spanners + SlursAt(starts))];
        p := p + 1;
      }
    }

    /** toggle_slurs: with slurs on, every part's slurs are replaced by the
        slur groups; with slurs off, they are removed and counted. */
    method ToggleSlurs(useSlurs: bool) returns (removed: nat)
      modifies this
      ensures |parts| == |old(parts)|
      ensures useSlurs ==> forall p :: 0 <= p < |parts| ==> parts[p] == Reslurred(old(parts)[p])
      ensures !useSlurs ==> forall p :: 0 <= p < |parts| ==> parts[p] == Unslurred(old(parts)[p])
      ensures removed == if useSlurs then 0 else TotalSlurs(old(parts))
    {
      removed := RemoveAllSlurs();
      if useSlurs {
        removed := 0;
        AddSlurs();
      }
    }

    /** The loop over the parts that clears every tie, counting the notes
        that had one. */
    method ClearAllTies() returns (removed: nat)
      modifies this
      ensures |parts| == |old(parts)|
      ensures forall p :: 0 <= p < |parts| ==> parts[p] == Untied(old(parts)[p])
      ensures removed == TotalTied(old(parts))
    {
      removed := 0;
      var p := 0;
      while p < |parts|
        invariant 0 <= p <= |parts| && |parts| == |old(parts)|
        invariant forall q :: 0 <= q < p ==> parts[q] == Untied(old(parts)[q])
        invariant forall q :: p <= q < |parts| ==> parts[q] == old(parts)[q]
        invariant removed == TotalTied(old(parts)[..p])
      {
        var cleared, count := ClearTies(parts[p].notes);
        assert old(parts)[..p + 1][..p] == old(parts)[..p];
        parts := parts[p := PartState(cleared, parts[p].spanners)];
        removed := removed + count;
        p := p + 1;
      }
      assert old(parts)[..p] == old(parts);
    }

    /** The loop over the parts, all of whose ties are cleared, that ties
        every joined pair and counts them. */
    method LinkAllTies() returns (added: nat)
      requires forall p :: 0 <= p < |parts| ==> TiesCleared(parts[p].notes)
      modifies this
      ensures |parts| == |old(parts)|
      ensures forall p :: 0 <= p < |parts| ==> parts[p] == Retied(old(parts)[p])
      ensures added == TotalTieCount(old(parts))
    {
      added := 0;
      var p := 0;
      while p < |parts|
        invariant 0 <= p <= |parts| && |parts| == |old(parts)|
        invariant forall q :: 0 <= q < p ==> parts[q] == Retied(old(parts)[q])
        invariant forall q :: p <= q < |parts| ==> parts[q] == old(parts)[q]
        invariant added == TotalTieCount(old(parts)[..p])
      {
        ghost var initial := old(parts);
        assert parts[p] == initial[p];
        var relinked, count := RelinkPart(parts[p].notes);
        assert initial[..p + 1][..p] == initial[..p];
        assert TotalTieCount(initial[..p + 1]) == TotalTieCount(initial[..p]) + TieCount(initial[p].notes);
        parts := parts[p := PartState(relinked, parts[p].spanners)];
        added := added + count;
        p := p + 1;
      }
      assert old(parts)[..p] == old(parts);
    }

    /** toggle_ties: with ties on, every tie is cleared and the joined pairs
        are tied, counting them; with ties off, the ties are removed,
        counting the notes that had one. */
    method ToggleTies(useTies: bool) returns (count: nat)
      modifies this
      ensures |parts| == |old(parts)|
      ensures useTies ==> forall p :: 0 <= p < |parts| ==> parts[p] == Retied(old(parts)[p])
      ensures !useTies ==> forall p :: 0 <= p < |parts| ==> parts[p] == Untied(old(parts)[p])
      ensures count == if useTies then TotalTieCount(old(parts)) else TotalTied(old(parts))
    {
      ghost var initial := parts;
      count := ClearAllTies();
      if useTies {
        ghost var cleared := parts;
        count := LinkAllTies();
        forall p | 0 <= p < |parts|
          ensures parts[p] == Retied(initial[p])
        {
          RelinkedIgnoresTies(initial[p].notes);
        }
        ClearedCounts(initial, cleared);
      }
    }

    /** apply_articulation_changes, up to saving the copy: slurs are
        replaced when slurs are on, ties relinked when ties are on, and
        each is otherwise left as it was. */
    method ApplyArticulationChanges(useSlurs: bool, useTies: bool)
      modifies this
      ensures |parts| == |old(parts)|
      ensures forall p :: 0 <= p < |parts| ==> (parts[p] ==
        PartState(if useTies then Relinked(old(parts)[p].notes) else old(parts)[p].notes,
          if useSlurs then Reslurred(old(parts)[p]).spanners else old(parts)[p].spanners))
    {
      if useSlurs {
        var _ := ToggleSlurs(true);
      }
      if useTies {
        var _ := ToggleTies(true);
      }
    }
  }

  /** Clearing the ties leaves the number of tied pairs of every part, and
      so of the score, unchanged. */
  lemma {:induction false} ClearedCounts(parts: seq<PartState>, cleared: seq<PartState>)
    requires |cleared| == |parts|
    requires forall p :: 0 <= p < |parts| ==> cleared[p] == Untied(parts[p])
    ensures TotalTieCount(cleared) == TotalTieCount(parts)
  {
    if parts != [] {
      var n := |parts| - 1;
      ClearedCounts(parts[..n], cleared[..n]);
      JoinsIgnoreTies(parts[n].notes);
    }
  }

  /** Clearing the ties changes no joined pair. */
  lemma JoinsIgnoreTies(notes: seq<EditorNote>)
    ensures TieCount(Cleared(notes)) == TieCount(notes)
  {
    var c := Cleared(notes);
    forall k ensures Joins(c, k) == Joins(notes, k) {
      if 0 <= k && k + 1 < |notes| {
        assert c[k].pitch == notes[k].pitch && c[k + 1].pitch == notes[k + 1].pitch;
      }
    }
    assert JoinedPairs(c, |c|) == JoinedPairs(notes, |notes|);
  }
}
