/** The melody generator's whole-piece articulation passes: slurs over
    consecutive groups of four notes, and ties linking neighbouring notes of
    equal name and octave. */
module Articulation {
  import opened Music

  /** The slur loop: one slur per start index i = 0, 4, 8, ... below n with
      i + 3 < n, spanning notes i..i+3. There are exactly n / 4 of them,
      starting at 0, 4, 8, ..., each with all four notes inside the melody. */
  method SlurStarts(n: nat) returns (starts: seq<nat>)
    ensures |starts| == n / 4
    ensures forall k :: 0 <= k < |starts| ==> starts[k] == 4 * k && starts[k] + 3 < n
  {
    starts := [];
    var i := 0;
    while i < n
      invariant i % 4 == 0
      invariant |starts| == if i <= n then i / 4 else n / 4
      invariant forall k :: 0 <= k < |starts| ==> starts[k] == 4 * k && starts[k] + 3 < n
      decreases n - i
    {
      if i + 3 < n {
        starts := starts + [i];
      }
      i := i + 4;
    }
  }

  /** Slur spans are pairwise disjoint and cover exactly the notes before
      the last n mod 4. */
  lemma SlursPartition(n: nat, starts: seq<nat>, note: nat)
    requires |starts| == n / 4
    requires forall k :: 0 <= k < |starts| ==> starts[k] == 4 * k && starts[k] + 3 < n
    requires note < n
    ensures note < 4 * (n / 4) <==> exists k :: 0 <= k < |starts| && starts[k] <= note < starts[k] + 4
    ensures forall k, l :: 0 <= k < l < |starts| ==> starts[k] + 4 <= starts[l]
  {
    if note < 4 * (n / 4) {
      var k := note / 4;
      assert starts[k] <= note < starts[k] + 4;
    }
  }

  /** Notes k and k + 1 print the same name with octave. */
  predicate SameAsNext(ps: seq<Pitch>, k: int) {
    0 <= k && k + 1 < |ps| && SameNameWithOctave(ps[k], ps[k + 1])
  }

  /** The tie of note k once the loop is done, from the ties it started
      with: a note equal to its successor is set to 'start', or to
      'continue' when it already has a tie (a 'stop' from its predecessor
      or an earlier tie); a note only equal to its predecessor gets 'stop';
      any other note keeps its tie. */
  function LinkedTie(ps: seq<Pitch>, ties: seq<Tie>, k: nat): Tie
    requires |ties| == |ps| && k < |ps|
  {
    var tieOnEntry := if SameAsNext(ps, k - 1) then Stop else ties[k];
    if SameAsNext(ps, k) then (if tieOnEntry == NoTie then Start else Continue)
    else tieOnEntry
  }

  /** The tie loop, setting the ties of the notes in place. */
  method LinkTies(ps: seq<Pitch>, ties: array<Tie>)
    requires ties.Length == |ps|
    modifies ties
    ensures forall k :: 0 <= k < |ps| ==> ties[k] == LinkedTie(ps, old(ties[..]), k)
  {
    ghost var initial := ties[..];
    var i := 0;
    while i + 1 < |ps|
      invariant i <= |ps|
      invariant |ps| > 0 ==> i < |ps|
      invariant forall k :: 0 <= k < i ==> ties[k] == LinkedTie(ps, initial, k)
      invariant i < |ps| ==> ties[i] == (if SameAsNext(ps, i - 1) then Stop else initial[i])
      invariant forall k :: i < k < |ps| ==> ties[k] == initial[k]
      decreases |ps| - i
    {
      if SameNameWithOctave(ps[i], ps[i + 1]) {
        if ties[i] == NoTie {
          ties[i] := Start;
        } else {
          ties[i] := Continue;
        }
        ties[i + 1] := Stop;
      }
      i := i + 1;
    }
  }

  /** On fresh notes (no tie at all) each maximal run of equal notes is
      marked start, continue, ..., stop, and a note equal to neither
      neighbour keeps no tie. */
  lemma FreshTieRuns(ps: seq<Pitch>, ties: seq<Tie>, k: nat)
    requires |ties| == |ps| && k < |ps|
    requires forall j :: 0 <= j < |ties| ==> ties[j] == NoTie
    ensures LinkedTie(ps, ties, k) == Start <==> SameAsNext(ps, k) && !SameAsNext(ps, k - 1)
    ensures LinkedTie(ps, ties, k) == Continue <==> SameAsNext(ps, k) && SameAsNext(ps, k - 1)
    ensures LinkedTie(ps, ties, k) == Stop <==> !SameAsNext(ps, k) && SameAsNext(ps, k - 1)
    ensures LinkedTie(ps, ties, k) == NoTie <==> !SameAsNext(ps, k) && !SameAsNext(ps, k - 1)
  {
  }

  /** In a maximal run of equal fresh notes from i to j - 1 (at least two
      notes) the first starts the tie, the last stops it and all between
      continue it. */
  lemma FreshTieRun(ps: seq<Pitch>, ties: seq<Tie>, i: nat, j: nat)
    requires |ties| == |ps| && forall m :: 0 <= m < |ties| ==> ties[m] == NoTie
    requires i + 2 <= j <= |ps|
    requires forall m :: i <= m < j - 1 ==> SameAsNext(ps, m)
    requires !SameAsNext(ps, i - 1) && !SameAsNext(ps, j - 1)
    ensures LinkedTie(ps, ties, i) == Start
    ensures LinkedTie(ps, ties, j - 1) == Stop
    ensures forall m :: i < m < j - 1 ==> LinkedTie(ps, ties, m) == Continue
  {
    forall m | i < m < j - 1
      ensures LinkedTie(ps, ties, m) == Continue
    {
      assert SameAsNext(ps, m - 1) && SameAsNext(ps, m);
    }
    assert SameAsNext(ps, j - 2);
  }
}
