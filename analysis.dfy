/** The harmonic analyzer: the closing cadence, circle-of-fifths motion
    between neighbouring symbols, how often each scale degree sounds, the
    symbols carrying a tension figure, and voice-leading observations
    between neighbouring chords. Each part is a specification function, and
    the analyzer's accumulator loops are methods proved equal to them. */
module Analysis {
  import opened Music

  datatype CadenceKind = Authentic | Plagal

  /** One cadence entry: its kind and the measure index (0-based) where it
      begins. */
  datatype CadenceEntry = CadenceEntry(kind: CadenceKind, measure: nat)

  /** The closing cadence, when the last two symbols are one of the mode's
      two cadence formulas. */
  function Cadences(mode: string, prog: seq<string>): (r: seq<CadenceEntry>)
    ensures |r| <= 1
    ensures r != [] ==> |prog| >= 2 && r[0].measure == |prog| - 2
  {
    if |prog| < 2 then []
    else
      var lastTwo := prog[|prog| - 2..];
      var dominant := if IsMajor(mode) then ["V", "I"] else ["V", "i"];
      var subdominant := if IsMajor(mode) then ["IV", "I"] else ["iv", "i"];
      if lastTwo == dominant then [CadenceEntry(Authentic, |prog| - 2)]
      else if lastTwo == subdominant then [CadenceEntry(Plagal, |prog| - 2)]
      else []
  }

  /** An authentic cadence is found exactly when the progression ends V-I
      (major) or V-i (minor), a plagal one exactly when it ends IV-I or
      iv-i, and nothing is found otherwise. */
  lemma CadenceDetection(mode: string, prog: seq<string>)
    ensures |prog| < 2 ==> Cadences(mode, prog) == []
    ensures |prog| >= 2 ==> var tonic := if IsMajor(mode) then "I" else "i";
      && (Cadences(mode, prog) == [CadenceEntry(Authentic, |prog| - 2)] <==>
            prog[|prog| - 2] == "V" && prog[|prog| - 1] == tonic)
      && (Cadences(mode, prog) == [CadenceEntry(Plagal, |prog| - 2)] <==>
            prog[|prog| - 2] == (if IsMajor(mode) then "IV" else "iv") && prog[|prog| - 1] == tonic)
  {
    if |prog| >= 2 {
      var lastTwo := prog[|prog| - 2..];
      assert lastTwo == [prog[|prog| - 2], prog[|prog| - 1]];
    }
  }

  const MajorCircle: seq<string> := ["I", "IV", "vii°", "iii", "vi", "ii", "V", "I"]
  const MinorCircle: seq<string> := ["i", "iv", "VII", "III", "VI", "ii°", "V", "i"]

  function CircleList(mode: string): seq<string> {
    if IsMajor(mode) then MajorCircle else MinorCircle
  }

  /** Python's `list.index`: the first position holding x. */
  function IndexOf<T(==)>(s: seq<T>, x: T): (r: nat)
    requires x in s
    ensures r < |s| && s[r] == x
    ensures forall k :: 0 <= k < r ==> s[k] != x
  {
    if s[0] == x then 0 else 1 + IndexOf(s[1..], x)
  }

  /** `next` follows `current` in the circle list, positions taken by first
      occurrence. */
  predicate CircleStep(mode: string, current: string, next: string) {
    var c := CircleList(mode);
    current in c && next in c && IndexOf(c, next) == (IndexOf(c, current) + 1) % |c|
  }

  /** The symbols at measures m and m + 1 are in circle motion. */
  predicate CircleAt(mode: string, prog: seq<string>, m: nat)
    requires m + 1 < |prog|
  {
    CircleStep(mode, prog[m], prog[m + 1])
  }

  lemma MajorIndices()
    ensures IndexOf(MajorCircle, "I") == 0 && IndexOf(MajorCircle, "IV") == 1
    ensures IndexOf(MajorCircle, "V") == 6
  {
    assert MajorCircle[0] == "I" && MajorCircle[1] == "IV";
    assert MajorCircle[6] == "V";
    assert MajorCircle[1..][0] == "IV";
    assert forall k :: 0 <= k < 6 ==> MajorCircle[k] != "V";
  }

  lemma MinorIndices()
    ensures IndexOf(MinorCircle, "i") == 0 && IndexOf(MinorCircle, "V") == 6
  {
    assert MinorCircle[0] == "i" && MinorCircle[6] == "V";
    assert forall k :: 0 <= k < 6 ==> MinorCircle[k] != "V";
  }

  lemma MinorIsNotMajor()
    ensures !IsMajor("minor")
  {
    assert "minor"[1] != "major"[1];
  }

  /** Because the closing tonic is found at its first occurrence, V-I in
      major and V-i in minor are never taken for circle motion, while I-IV
      is. */
  lemma CircleFirstOccurrence()
    ensures !CircleStep("major", "V", "I")
    ensures !CircleStep("minor", "V", "i")
    ensures CircleStep("major", "I", "IV")
  {
    assert CircleList("major") == MajorCircle;
    MinorIsNotMajor();
    assert CircleList("minor") == MinorCircle;
    MajorIndices();
    MinorIndices();
  }

  /** One circle-of-fifths observation: the measure of the first chord and
      the two symbols. */
  datatype CircleEntry = CircleEntry(measure: nat, current: string, next: string)

  function PairCount(prog: seq<string>): nat {
    if |prog| == 0 then 0 else |prog| - 1
  }

  /** For each of the first n neighbouring pairs, whether it is in circle
      motion. */
  function MarksUpTo(mode: string, prog: seq<string>, n: nat): (r: seq<bool>)
    requires n <= PairCount(prog)
    ensures |r| == n
  {
    if n == 0 then [] else MarksUpTo(mode, prog, n - 1) + [CircleAt(mode, prog, n - 1)]
  }

  lemma {:induction false} MarksUpToMeaning(mode: string, prog: seq<string>, n: nat, m: nat)
    requires m < n <= PairCount(prog)
    ensures MarksUpTo(mode, prog, n)[m] == CircleAt(mode, prog, m)
  {
    var prev := MarksUpTo(mode, prog, n - 1);
    var last := CircleAt(mode, prog, n - 1);
    assert MarksUpTo(mode, prog, n) == prev + [last];
    if m < n - 1 {
      assert (prev + [last])[m] == prev[m];
      MarksUpToMeaning(mode, prog, n - 1, m);
    }
  }

  /** For each neighbouring pair, whether it is in circle motion. */
  function CircleMarks(mode: string, prog: seq<string>): (r: seq<bool>)
    ensures |r| == PairCount(prog)
  {
    MarksUpTo(mode, prog, PairCount(prog))
  }

  /** Mark m of a progression holds exactly when pair m is in circle motion. */
  lemma CircleMarksMeaning(mode: string, prog: seq<string>)
    ensures forall m :: 0 <= m < PairCount(prog) ==> (CircleMarks(mode, prog)[m] <==> CircleAt(mode, prog, m))
  {
    forall m | 0 <= m < PairCount(prog)
      ensures CircleMarks(mode, prog)[m] == CircleAt(mode, prog, m)
    {
      MarksUpToMeaning(mode, prog, PairCount(prog), m);
    }
  }

  /** The observations for the pairs starting before measure i, the pair at
      measure m being in circle motion when marks[m] holds. */
  function CircleEntries(prog: seq<string>, marks: seq<bool>, i: nat): seq<CircleEntry>
    requires |marks| == PairCount(prog) && i <= |marks|
  {
    if i == 0 then []
    else (CircleEntries(prog, marks, i - 1)
      + if marks[i - 1] then [CircleEntry(i - 1, prog[i - 1], prog[i])] else [])
  }

  function Circles(mode: string, prog: seq<string>): seq<CircleEntry> {
    CircleEntries(prog, CircleMarks(mode, prog), PairCount(prog))
  }

  /** Every entry names a marked pair before measure i, with its two
      symbols. */
  predicate MarkedSound(prog: seq<string>, marks: seq<bool>, i: nat, e: seq<CircleEntry>)
    requires |marks| == PairCount(prog) && i <= |marks|
  {
    forall k :: 0 <= k < |e| ==>
      e[k].measure < i && e[k].current == prog[e[k].measure] && e[k].next == prog[e[k].measure + 1]
      && marks[e[k].measure]
  }

  /** Every marked pair before measure i has an entry. */
  predicate MarkedComplete(marks: seq<bool>, i: nat, e: seq<CircleEntry>)
    requires i <= |marks|
  {
    forall m :: 0 <= m < i && marks[m] ==> exists k :: 0 <= k < |e| && e[k].measure == m
  }

  /** Every entry names a pair before measure i that is in circle
      motion. */
  predicate CircleSound(mode: string, prog: seq<string>, i: nat, e: seq<CircleEntry>)
    requires i == 0 || i < |prog|
  {
    forall k :: 0 <= k < |e| ==>
      e[k].measure < i && e[k].current == prog[e[k].measure] && e[k].next == prog[e[k].measure + 1]
      && CircleAt(mode, prog, e[k].measure)
  }

  predicate Increasing(e: seq<CircleEntry>) {
    forall k, l :: 0 <= k < l < |e| ==> e[k].measure < e[l].measure
  }

  /** Every pair before measure i in circle motion has an entry. */
  predicate CircleComplete(mode: string, prog: seq<string>, i: nat, e: seq<CircleEntry>)
    requires i == 0 || i < |prog|
  {
    forall m :: 0 <= m < i && CircleAt(mode, prog, m) ==> exists k :: 0 <= k < |e| && e[k].measure == m
  }

  lemma CircleEntriesNext(prog: seq<string>, marks: seq<bool>, i: nat)
    requires |marks| == PairCount(prog) && i < |marks|
    ensures CircleEntries(prog, marks, i + 1) == CircleEntries(prog, marks, i)
      + if marks[i] then [CircleEntry(i, prog[i], prog[i + 1])] else []
  {
  }

  /** The observations list only marked pairs, each with its two symbols. */
  lemma {:induction false} CircleEntriesSound(prog: seq<string>, marks: seq<bool>, i: nat)
    requires |marks| == PairCount(prog) && i <= |marks|
    ensures MarkedSound(prog, marks, i, CircleEntries(prog, marks, i))
  {
    if i > 0 {
      CircleEntriesSound(prog, marks, i - 1);
      CircleEntriesNext(prog, marks, i - 1);
      var e0 := CircleEntries(prog, marks, i - 1);
      var e := CircleEntries(prog, marks, i);
      assert e0 <= e;
      forall k | 0 <= k < |e|
        ensures e[k].measure < i && e[k].current == prog[e[k].measure] && e[k].next == prog[e[k].measure + 1]
        ensures marks[e[k].measure]
      {
        if k < |e0| {
          assert e[k] == e0[k];
        }
      }
    }
  }

  /** The observations are in strictly increasing measure order. */
  lemma {:induction false} CircleEntriesIncreasing(prog: seq<string>, marks: seq<bool>, i: nat)
    requires |marks| == PairCount(prog) && i <= |marks|
    ensures Increasing(CircleEntries(prog, marks, i))
    ensures forall k :: 0 <= k < |CircleEntries(prog, marks, i)| ==> CircleEntries(prog, marks, i)[k].measure < i
  {
    if i > 0 {
      CircleEntriesIncreasing(prog, marks, i - 1);
      CircleEntriesNext(prog, marks, i - 1);
      var e0 := CircleEntries(prog, marks, i - 1);
      var e := CircleEntries(prog, marks, i);
      assert e0 <= e;
      forall k, l | 0 <= k < l < |e|
        ensures e[k].measure < e[l].measure
      {
        assert e[k] == e0[k];
        assert e0[k].measure < i - 1;
        if l < |e0| {
          assert e[l] == e0[l];
        }
      }
    }
  }

  /** Every marked pair is listed. */
  lemma {:induction false} CircleEntriesComplete(prog: seq<string>, marks: seq<bool>, i: nat)
    requires |marks| == PairCount(prog) && i <= |marks|
    ensures MarkedComplete(marks, i, CircleEntries(prog, marks, i))
  {
    if i > 0 {
      CircleEntriesComplete(prog, marks, i - 1);
      CircleEntriesNext(prog, marks, i - 1);
      var e0 := CircleEntries(prog, marks, i - 1);
      var e := CircleEntries(prog, marks, i);
      forall m | 0 <= m < i && marks[m]
        ensures exists k :: 0 <= k < |e| && e[k].measure == m
      {
        if m < i - 1 {
          ExistsInPrefix(e0, e, m);
        } else {
          assert e[|e0|].measure == m;
        }
      }
    }
  }

  lemma ExistsInPrefix(e0: seq<CircleEntry>, e: seq<CircleEntry>, m: nat)
    requires e0 <= e
    requires exists k :: 0 <= k < |e0| && e0[k].measure == m
    ensures exists k :: 0 <= k < |e| && e[k].measure == m
  {
    var k :| 0 <= k < |e0| && e0[k].measure == m;
    assert e[k] == e0[k];
  }

  /** The symbol pairs the analyzer lists as circle motion. */
  function PairsOf(e: seq<CircleEntry>): (r: seq<(string, string)>)
    ensures |r| == |e| && forall k :: 0 <= k < |e| ==> r[k] == (e[k].current, e[k].next)
  {
    if e == [] then [] else PairsOf(e[..|e| - 1]) + [(e[|e| - 1].current, e[|e| - 1].next)]
  }

  /** The measures the analyzer marks with circle motion. */
  function MeasuresOf(e: seq<CircleEntry>): (r: seq<nat>)
    ensures |r| == |e| && forall k :: 0 <= k < |e| ==> r[k] == e[k].measure
  {
    if e == [] then [] else MeasuresOf(e[..|e| - 1]) + [e[|e| - 1].measure]
  }

  /** The list of circle progressions and the list of marked measures have
      equal length, entry k of one naming the symbols at the measure entry
      k of the other marks and at the next one. */
  lemma CircleListsAlign(mode: string, prog: seq<string>)
    ensures var pairs := PairsOf(Circles(mode, prog));
      var measures := MeasuresOf(Circles(mode, prog));
      && |pairs| == |measures|
      && forall k :: 0 <= k < |pairs| ==>
           measures[k] + 1 < |prog| && pairs[k] == (prog[measures[k]], prog[measures[k] + 1])
  {
    var marks := CircleMarks(mode, prog);
    CircleEntriesSound(prog, marks, |marks|);
  }

  /** The circle observations of a whole progression are exactly its
      neighbouring pairs in circle motion, each once, in measure order. */
  lemma CirclesExact(mode: string, prog: seq<string>)
    ensures CircleSound(mode, prog, PairCount(prog), Circles(mode, prog))
    ensures Increasing(Circles(mode, prog))
    ensures CircleComplete(mode, prog, PairCount(prog), Circles(mode, prog))
  {
    var marks := CircleMarks(mode, prog);
    CircleMarksMeaning(mode, prog);
    var e := Circles(mode, prog);
    CircleEntriesSound(prog, marks, |marks|);
    CircleEntriesIncreasing(prog, marks, |marks|);
    CircleEntriesComplete(prog, marks, |marks|);
    forall k | 0 <= k < |e|
      ensures CircleAt(mode, prog, e[k].measure)
    {
      assert marks[e[k].measure];
    }
    forall m | 0 <= m < PairCount(prog) && CircleAt(mode, prog, m)
      ensures exists k :: 0 <= k < |e| && e[k].measure == m
    {
      assert marks[m];
    }
  }

  /** Python's substring test `t in s`. */
  predicate Contains(s: string, t: string) {
    t <= s || (s != [] && Contains(s[1..], t))
  }

  predicate HasTension(symbol: string) {
    '7' in symbol || '9' in symbol || Contains(symbol, "sus")
  }

  /** The symbols carrying a tension, in progression order. */
  function Tensions(prog: seq<string>): seq<string> {
    if prog == [] then []
    else Tensions(prog[..|prog| - 1]) + (if HasTension(prog[|prog| - 1]) then [prog[|prog| - 1]] else [])
  }

  /** The tension list of a concatenation is the concatenation of the
      tension lists, and a single symbol contributes itself exactly when it
      has a tension: one entry per tension symbol, in order. */
  lemma {:induction false} TensionsAppend(a: seq<string>, b: seq<string>, s: string)
    ensures Tensions(a + b) == Tensions(a) + Tensions(b)
    ensures Tensions([s]) == if HasTension(s) then [s] else []
  {
    if b != [] {
      var c := a + b;
      var last := b[|b| - 1];
      var extra := if HasTension(last) then [last] else [];
      assert c[..|c| - 1] == a + b[..|b| - 1] && c[|c| - 1] == last;
      TensionsAppend(a, b[..|b| - 1], s);
      assert Tensions(c) == Tensions(a + b[..|b| - 1]) + extra;
      assert Tensions(b) == Tensions(b[..|b| - 1]) + extra;
    } else {
      assert a + b == a;
    }
    assert [s][..0] == [];
  }

  /** A symbol is listed exactly when it occurs in the progression and has
      a tension. */
  lemma {:induction false} TensionMembers(prog: seq<string>, s: string)
    ensures s in Tensions(prog) <==> s in prog && HasTension(s)
  {
    if prog != [] {
      var init := prog[..|prog| - 1];
      TensionMembers(init, s);
      assert prog == init + [prog[|prog| - 1]];
    }
  }

  /** A symbol without the letter s has no "sus". */
  lemma {:induction false} NoSus(s: string)
    requires 's' !in s
    ensures !Contains(s, "sus")
  {
    if s != [] {
      assert s[0] != 's' && "sus"[0] == 's';
      assert !("sus" <= s);
      assert forall c :: c in s[1..] ==> c in s;
      NoSus(s[1..]);
    }
  }

  lemma TensionExamples()
    ensures HasTension("V7") && HasTension("ii9") && HasTension("Vsus4")
    ensures !HasTension("I") && !HasTension("vii°") && !HasTension("IV")
  {
    assert "sus" <= "sus4";
    assert "Vsus4"[1..] == "sus4";
    NoSus("I");
    NoSus("vii°");
    NoSus("IV");
  }

  /** The loop over the symbols that collects the tension list. */
  method TensionLoop(prog: seq<string>) returns (tensions: seq<string>)
    ensures tensions == Tensions(prog)
  {
    tensions := [];
    var i := 0;
    while i < |prog|
      invariant 0 <= i <= |prog|
      invariant tensions == Tensions(prog[..i])
    {
      var symbol := prog[i];
      assert prog[..i + 1][..i] == prog[..i];
      if '7' in symbol || '9' in symbol || Contains(symbol, "sus") {
        tensions := tensions + [symbol];
      }
      i := i + 1;
    }
    assert prog[..i] == prog;
  }

  /** Every symbol resolved, without the dominant-seventh rule; the first
      unresolvable symbol is an error. */
  function ResolveAll(km: KeyModel, prog: seq<string>): (r: Result<seq<seq<Pitch>>>)
    ensures r.Ok? ==> |r.value| == |prog|
  {
    if prog == [] then Ok([])
    else
      var init := prog[..|prog| - 1];
      var last := prog[|prog| - 1];
      match ResolveAll(km, init)
      case Err(e) => Err(e)
      case Ok(cs) =>
        match km.resolve(last)
        case None => Err(Unresolvable(last))
        case Some(ps) => Ok(cs + [ps])
  }

  /** Every symbol before position i resolves. */
  predicate ResolvedUpTo(km: KeyModel, prog: seq<string>, i: nat)
    requires i <= |prog|
  {
    forall k :: 0 <= k < i ==> km.resolve(prog[k]).Some?
  }

  /** Resolution succeeds exactly when every symbol resolves, with one
      chord per symbol in order, and otherwise fails with the first symbol
      that does not. */
  lemma {:induction false} ResolveAllSpec(km: KeyModel, prog: seq<string>)
    ensures ResolveAll(km, prog).Ok? <==> ResolvedUpTo(km, prog, |prog|)
    ensures ResolveAll(km, prog).Ok? ==>
      forall k :: 0 <= k < |prog| ==> ResolveAll(km, prog).value[k] == km.resolve(prog[k]).value
    ensures ResolveAll(km, prog).Err? ==> exists i :: (0 <= i < |prog| && km.resolve(prog[i]).None?
      && ResolvedUpTo(km, prog, i) && ResolveAll(km, prog).error == Unresolvable(prog[i]))
  {
    if prog != [] {
      var n := |prog| - 1;
      var init := prog[..n];
      ResolveAllSpec(km, init);
      assert forall k :: 0 <= k < n ==> init[k] == prog[k];
      var r0 := ResolveAll(km, init);
      if r0.Err? {
        var i :| 0 <= i < n && km.resolve(init[i]).None? && ResolvedUpTo(km, init, i) && r0.error == Unresolvable(init[i]);
        assert ResolvedUpTo(km, prog, i);
        assert !km.resolve(prog[i]).Some?;
      } else if km.resolve(prog[n]).None? {
        assert ResolvedUpTo(km, prog, n);
      } else {
        var r := ResolveAll(km, prog);
        assert r.value == r0.value + [km.resolve(prog[n]).value];
      }
    }
  }

  /** All pitches of the chords, in order. */
  function Concat(cs: seq<seq<Pitch>>): seq<Pitch> {
    if cs == [] then [] else Concat(cs[..|cs| - 1]) + cs[|cs| - 1]
  }

  /** One more occurrence of degree d. */
  function Bump(m: map<nat, nat>, d: nat): map<nat, nat> {
    m[d := (if d in m then m[d] else 0) + 1]
  }

  /** The scale-usage table after counting the pitches ps: each pitch found
      in the scale adds one to the degree of its first occurrence. */
  function Usage(scale: seq<Pitch>, ps: seq<Pitch>): map<nat, nat> {
    if ps == [] then map[]
    else
      var m := Usage(scale, ps[..|ps| - 1]);
      var p := ps[|ps| - 1];
      if p in scale then Bump(m, IndexOf(scale, p) + 1) else m
  }

  /** The positions of ps holding a pitch of scale degree d. */
  function DegreeOccurrences(scale: seq<Pitch>, ps: seq<Pitch>, d: nat): set<nat> {
    set k | 0 <= k < |ps| && DegreeAt(scale, ps, k, d)
  }

  /** Position k of ps holds a scale pitch of degree d. */
  predicate DegreeAt(scale: seq<Pitch>, ps: seq<Pitch>, k: nat, d: nat)
    requires k < |ps|
  {
    ps[k] in scale && IndexOf(scale, ps[k]) + 1 == d
  }

  /** One more pitch adds its position to the occurrences of its degree
      and leaves the other degrees alone. */
  lemma OccurrencesStep(scale: seq<Pitch>, ps: seq<Pitch>, d: nat)
    requires ps != []
    ensures var n := |ps| - 1;
      DegreeOccurrences(scale, ps, d) ==
        DegreeOccurrences(scale, ps[..n], d) + (if DegreeAt(scale, ps, n, d) then {n} else {})
    ensures |ps| - 1 !in DegreeOccurrences(scale, ps[..|ps| - 1], d)
  {
    var n := |ps| - 1;
    forall k | 0 <= k < n
      ensures DegreeAt(scale, ps, k, d) == DegreeAt(scale, ps[..n], k, d)
    {
      assert ps[..n][k] == ps[k];
    }
  }

  /** Degree d appears in the table exactly when some pitch has that
      degree, and then it counts the pitches of that degree; every degree
      is between 1 and the scale's length. */
  lemma {:induction false} UsageCounts(scale: seq<Pitch>, ps: seq<Pitch>, d: nat)
    ensures d in Usage(scale, ps) <==> |DegreeOccurrences(scale, ps, d)| > 0
    ensures d in Usage(scale, ps) ==> Usage(scale, ps)[d] == |DegreeOccurrences(scale, ps, d)| && 1 <= d <= |scale|
  {
    if ps == [] {
      assert DegreeOccurrences(scale, ps, d) == {};
    } else {
      var n := |ps| - 1;
      UsageCounts(scale, ps[..n], d);
      OccurrencesStep(scale, ps, d);
      var before := DegreeOccurrences(scale, ps[..n], d);
      var m := Usage(scale, ps[..n]);
      var p := ps[n];
      assert Usage(scale, ps) == if p in scale then Bump(m, IndexOf(scale, p) + 1) else m;
      if DegreeAt(scale, ps, n, d) {
        assert Usage(scale, ps) == Bump(m, d);
        assert |before + {n}| == |before| + 1;
        assert 1 <= d <= |scale|;
      } else {
        assert DegreeOccurrences(scale, ps, d) == before;
        assert d in Usage(scale, ps) <==> d in m;
        assert d in m ==> Usage(scale, ps)[d] == m[d];
      }
    }
  }

  /** The nested loop over chords and their pitches that fills the
      scale-usage table. */
  method UsageLoop(scale: seq<Pitch>, cs: seq<seq<Pitch>>) returns (usage: map<nat, nat>)
    ensures usage == Usage(scale, Concat(cs))
  {
    usage := map[];
    var i := 0;
    while i < |cs|
      invariant 0 <= i <= |cs|
      invariant usage == Usage(scale, Concat(cs[..i]))
    {
      var chord := cs[i];
      var j := 0;
      assert Concat(cs[..i]) + chord[..j] == Concat(cs[..i]);
      while j < |chord|
        invariant 0 <= j <= |chord|
        invariant usage == Usage(scale, Concat(cs[..i]) + chord[..j])
      {
        var p := chord[j];
        var seen := Concat(cs[..i]) + chord[..j + 1];
        assert seen[..|seen| - 1] == Concat(cs[..i]) + chord[..j];
        if p in scale {
          var degree := IndexOf(scale, p) + 1;
          usage := usage[degree := (if degree in usage then usage[degree] else 0) + 1];
        }
        j := j + 1;
      }
      assert chord[..j] == chord;
      assert cs[..i + 1][..i] == cs[..i];
      i := i + 1;
    }
    assert cs[..i] == cs;
  }

  predicate IsHalfStep(p: Pitch, q: Pitch) {
    Midi(p) - Midi(q) == 1 || Midi(q) - Midi(p) == 1
  }

  /** The pairs (a, b) with b < count in which pitch p, at position a of
      the first chord, is `near` pitch b of the second (the analyzer's
      test is IsHalfStep). */
  function HalfStepRow(a: nat, p: Pitch, next: seq<Pitch>, count: nat, near: (Pitch, Pitch) -> bool): seq<(nat, nat)>
    requires count <= |next|
  {
    if count == 0 then []
    else HalfStepRow(a, p, next, count - 1, near) + (if near(p, next[count - 1]) then [(a, count - 1)] else [])
  }

  /** The half-step pairs whose first pitch is among the first `count` of
      the first chord, in the nested loops' order. */
  function HalfStepRows(cur: seq<Pitch>, next: seq<Pitch>, count: nat, near: (Pitch, Pitch) -> bool): seq<(nat, nat)>
    requires count <= |cur|
  {
    if count == 0 then []
    else HalfStepRows(cur, next, count - 1, near) + HalfStepRow(count - 1, cur[count - 1], next, |next|, near)
  }

  function HalfStepPairs(cur: seq<Pitch>, next: seq<Pitch>): seq<(nat, nat)> {
    HalfStepRows(cur, next, |cur|, IsHalfStep)
  }

  /** (a, b) precedes (c, d) in the order of the nested loops. */
  predicate Before(x: (nat, nat), y: (nat, nat)) {
    x.0 < y.0 || (x.0 == y.0 && x.1 < y.1)
  }

  lemma {:induction false} HalfStepRowSpec(a: nat, p: Pitch, next: seq<Pitch>, count: nat, near: (Pitch, Pitch) -> bool)
    requires count <= |next|
    ensures var r := HalfStepRow(a, p, next, count, near);
      && (forall x :: x in r <==> x.0 == a && x.1 < count && near(p, next[x.1]))
      && Ordered(r)
  {
    if count > 0 {
      HalfStepRowSpec(a, p, next, count - 1, near);
    }
  }

  /** The pairs are in the nested loops' order. */
  predicate Ordered(r: seq<(nat, nat)>) {
    forall k, l :: 0 <= k < l < |r| ==> Before(r[k], r[l])
  }

  /** Appending a row of pairs for first position a to pairs whose first
      positions are all below a keeps the nested loops' order. */
  lemma BeforeAppend(r0: seq<(nat, nat)>, row: seq<(nat, nat)>, a: nat)
    requires forall k :: 0 <= k < |r0| ==> r0[k].0 < a
    requires forall k :: 0 <= k < |row| ==> row[k].0 == a
    requires Ordered(r0) && Ordered(row)
    ensures Ordered(r0 + row)
  {
    var r := r0 + row;
    forall k, l | 0 <= k < l < |r|
      ensures Before(r[k], r[l])
    {
      if l < |r0| {
        assert r[k] == r0[k] && r[l] == r0[l];
      } else if k >= |r0| {
        assert r[k] == row[k - |r0|] && r[l] == row[l - |r0|];
      } else {
        assert r[k] == r0[k] && r[l] == row[l - |r0|];
      }
    }
  }

  /** Exactly the cross pairs in the `near` relation are listed. */
  lemma {:induction false} HalfStepRowsMembers(cur: seq<Pitch>, next: seq<Pitch>, count: nat, near: (Pitch, Pitch) -> bool)
    requires count <= |cur|
    ensures forall x :: x in HalfStepRows(cur, next, count, near) <==>
      x.0 < count && x.1 < |next| && near(cur[x.0], next[x.1])
  {
    if count > 0 {
      HalfStepRowsMembers(cur, next, count - 1, near);
      HalfStepRowSpec(count - 1, cur[count - 1], next, |next|, near);
      var r0 := HalfStepRows(cur, next, count - 1, near);
      var row := HalfStepRow(count - 1, cur[count - 1], next, |next|, near);
      var r := r0 + row;
      assert HalfStepRows(cur, next, count, near) == r;
      forall x
        ensures x in r <==> x.0 < count && x.1 < |next| && near(cur[x.0], next[x.1])
      {
        assert x in r <==> x in r0 || x in row;
        if x.0 == count - 1 {
          assert x !in r0;
        } else {
          assert x !in row;
        }
      }
    }
  }

  /** The pairs are listed in the nested loops' order. */
  lemma {:induction false} HalfStepRowsOrdered(cur: seq<Pitch>, next: seq<Pitch>, count: nat, near: (Pitch, Pitch) -> bool)
    requires count <= |cur|
    ensures Ordered(HalfStepRows(cur, next, count, near))
  {
    if count > 0 {
      HalfStepRowsOrdered(cur, next, count - 1, near);
      HalfStepRowsMembers(cur, next, count - 1, near);
      HalfStepRowSpec(count - 1, cur[count - 1], next, |next|, near);
      var r0 := HalfStepRows(cur, next, count - 1, near);
      var row := HalfStepRow(count - 1, cur[count - 1], next, |next|, near);
      assert HalfStepRows(cur, next, count, near) == r0 + row;
      forall k | 0 <= k < |r0|
        ensures r0[k].0 < count - 1
      {
        assert r0[k] in r0;
      }
      forall k | 0 <= k < |row|
        ensures row[k].0 == count - 1
      {
        assert row[k] in row;
      }
      BeforeAppend(r0, row, count - 1);
    }
  }

  /** The half-step pairs of two chords are exactly the cross pairs one
      semitone apart, each once, in the nested loops' order. */
  lemma HalfStepPairsSpec(cur: seq<Pitch>, next: seq<Pitch>)
    ensures var r := HalfStepPairs(cur, next);
      && (forall x :: x in r <==> x.0 < |cur| && x.1 < |next| && IsHalfStep(cur[x.0], next[x.1]))
      && Ordered(r)
  {
    HalfStepRowsMembers(cur, next, |cur|, IsHalfStep);
    HalfStepRowsOrdered(cur, next, |cur|, IsHalfStep);
  }

  /** One voice-leading observation about the pair of chords starting at a
      measure: a shared pitch, or one half-step motion. */
  datatype VoiceEntry = CommonTone(pair: nat) | HalfStep(pair: nat)

  predicate ShareTone(cur: seq<Pitch>, next: seq<Pitch>) {
    exists p :: p in cur && p in next
  }

  /** The observations about pair i: one common-tone entry when the chords
      share a pitch, then one half-step entry per half-step pair. */
  function PairEntries(i: nat, cur: seq<Pitch>, next: seq<Pitch>): seq<VoiceEntry> {
    (if ShareTone(cur, next) then [CommonTone(i)] else [])
      + seq(|HalfStepPairs(cur, next)|, _ => HalfStep(i))
  }

  /** The observations about the pairs starting before measure i. */
  function VoiceBefore(cs: seq<seq<Pitch>>, i: nat): seq<VoiceEntry>
    requires i == 0 || i < |cs|
  {
    if i == 0 then [] else VoiceBefore(cs, i - 1) + PairEntries(i - 1, cs[i - 1], cs[i])
  }

  function VoiceLeading(cs: seq<seq<Pitch>>): seq<VoiceEntry> {
    VoiceBefore(cs, if |cs| == 0 then 0 else |cs| - 1)
  }

  /** Entry count of one kind for pair i. */
  function CountOf(e: seq<VoiceEntry>, x: VoiceEntry): nat {
    if e == [] then 0 else CountOf(e[..|e| - 1], x) + (if e[|e| - 1] == x then 1 else 0)
  }

  lemma {:induction false} CountOfAppend(a: seq<VoiceEntry>, b: seq<VoiceEntry>, x: VoiceEntry)
    ensures CountOf(a + b, x) == CountOf(a, x) + CountOf(b, x)
  {
    if b == [] {
      assert a + b == a;
    } else {
      var c := a + b;
      assert c[..|c| - 1] == a + b[..|b| - 1];
      CountOfAppend(a, b[..|b| - 1], x);
    }
  }

  lemma {:induction false} CountOfRepeat(n: nat, y: VoiceEntry, x: VoiceEntry)
    ensures CountOf(seq(n, _ => y), x) == if x == y then n else 0
  {
    if n > 0 {
      assert seq(n, _ => y)[..n - 1] == seq(n - 1, _ => y);
      CountOfRepeat(n - 1, y, x);
    }
  }

  /** The entries about pair i: one common-tone entry exactly when the
      chords share a pitch, one half-step entry per half-step pair, and
      none about another pair. */
  lemma PairCounts(i: nat, cur: seq<Pitch>, next: seq<Pitch>, m: nat)
    ensures CountOf(PairEntries(i, cur, next), CommonTone(m)) == if m == i && ShareTone(cur, next) then 1 else 0
    ensures CountOf(PairEntries(i, cur, next), HalfStep(m)) == if m == i then |HalfStepPairs(cur, next)| else 0
  {
    var common: seq<VoiceEntry> := if ShareTone(cur, next) then [CommonTone(i)] else [];
    var halves := seq(|HalfStepPairs(cur, next)|, _ => HalfStep(i));
    assert PairEntries(i, cur, next) == common + halves;
    CountOfAppend(common, halves, CommonTone(m));
    CountOfAppend(common, halves, HalfStep(m));
    CountOfRepeat(|halves|, HalfStep(i), CommonTone(m));
    CountOfRepeat(|halves|, HalfStep(i), HalfStep(m));
    assert common == [] || common[..0] == [];
  }

  /** Each neighbouring pair yields at most one common-tone entry, present
      exactly when the chords share a pitch, and exactly one half-step
      entry per cross pair a half step apart; pairs never contribute
      entries of another pair. */
  lemma VoiceLeadingCounts(cs: seq<seq<Pitch>>, i: nat, m: nat)
    requires i == 0 || i < |cs|
    ensures m < i ==>
      && CountOf(VoiceBefore(cs, i), CommonTone(m)) == (if ShareTone(cs[m], cs[m + 1]) then 1 else 0)
      && CountOf(VoiceBefore(cs, i), HalfStep(m)) == |HalfStepPairs(cs[m], cs[m + 1])|
    ensures m >= i ==> CountOf(VoiceBefore(cs, i), CommonTone(m)) == 0 && CountOf(VoiceBefore(cs, i), HalfStep(m)) == 0
  {
    if m >= i {
      VoiceLeadingAbsent(cs, i, m);
    } else {
      VoiceLeadingPresent(cs, i, m);
    }
  }

  /** The entries collected before pair i for an earlier pair m. */
  lemma {:induction false} VoiceLeadingPresent(cs: seq<seq<Pitch>>, i: nat, m: nat)
    requires i < |cs| && m < i
    ensures CountOf(VoiceBefore(cs, i), CommonTone(m)) == (if ShareTone(cs[m], cs[m + 1]) then 1 else 0)
    ensures CountOf(VoiceBefore(cs, i), HalfStep(m)) == |HalfStepPairs(cs[m], cs[m + 1])|
  {
    var before := VoiceBefore(cs, i - 1);
    var pe := PairEntries(i - 1, cs[i - 1], cs[i]);
    assert VoiceBefore(cs, i) == before + pe;
    CountOfAppend(before, pe, CommonTone(m));
    CountOfAppend(before, pe, HalfStep(m));
    PairCounts(i - 1, cs[i - 1], cs[i], m);
    if m < i - 1 {
      assert CountOf(pe, CommonTone(m)) == 0 && CountOf(pe, HalfStep(m)) == 0;
      VoiceLeadingPresent(cs, i - 1, m);
    } else {
      assert m == i - 1 && cs[m] == cs[i - 1] && cs[m + 1] == cs[i];
      VoiceLeadingAbsent(cs, i - 1, m);
    }
  }

  /** The entries collected before pair i name no measure from i on. */
  lemma {:induction false} VoiceLeadingAbsent(cs: seq<seq<Pitch>>, i: nat, m: nat)
    requires i == 0 || i < |cs|
    requires m >= i
    ensures CountOf(VoiceBefore(cs, i), CommonTone(m)) == 0 && CountOf(VoiceBefore(cs, i), HalfStep(m)) == 0
  {
    if i > 0 {
      VoiceLeadingAbsent(cs, i - 1, m);
      var before := VoiceBefore(cs, i - 1);
      var pe := PairEntries(i - 1, cs[i - 1], cs[i]);
      assert VoiceBefore(cs, i) == before + pe;
      CountOfAppend(before, pe, CommonTone(m));
      CountOfAppend(before, pe, HalfStep(m));
      PairCounts(i - 1, cs[i - 1], cs[i], m);
    }
  }

  /** The nested loops over one pair's cross pitches, adding one half-step
      entry per pair a half step apart. */
  method HalfStepLoop(i: nat, cur: seq<Pitch>, next: seq<Pitch>) returns (entries: seq<VoiceEntry>)
    ensures entries == seq(|HalfStepPairs(cur, next)|, _ => HalfStep(i))
  {
    entries := [];
    var a := 0;
    while a < |cur|
      invariant 0 <= a <= |cur|
      invariant entries == seq(|HalfStepRows(cur, next, a, IsHalfStep)|, _ => HalfStep(i))
    {
      var b := 0;
      while b < |next|
        invariant 0 <= b <= |next|
        invariant entries == seq(|HalfStepRows(cur, next, a, IsHalfStep)| + |HalfStepRow(a, cur[a], next, b, IsHalfStep)|, _ => HalfStep(i))
      {
        if Midi(cur[a]) - Midi(next[b]) == 1 || Midi(next[b]) - Midi(cur[a]) == 1 {
          entries := entries + [HalfStep(i)];
        }
        b := b + 1;
      }
      a := a + 1;
    }
  }

  /** The loop over neighbouring pairs that collects the voice-leading
      observations. */
  method VoiceLoop(cs: seq<seq<Pitch>>) returns (entries: seq<VoiceEntry>)
    ensures entries == VoiceLeading(cs)
  {
    entries := [];
    var i := 0;
    while i + 1 < |cs|
      invariant i == 0 || i < |cs|
      invariant entries == VoiceBefore(cs, i)
      decreases |cs| - i
    {
      var cur := cs[i];
      var next := cs[i + 1];
      var common: seq<VoiceEntry> := [];
      if exists p :: p in cur && p in next {
        common := [CommonTone(i)];
      }
      var halves := HalfStepLoop(i, cur, next);
      assert PairEntries(i, cur, next) == common + halves;
      assert VoiceBefore(cs, i + 1) == VoiceBefore(cs, i) + (common + halves);
      entries := entries + (common + halves);
      i := i + 1;
    }
    assert i == if |cs| == 0 then 0 else |cs| - 1;
  }

  /** Everything the analyzer reports: the key text, the cadence entries
      with their measures, the circle progressions and their measures, the
      scale-usage table, the tension symbols and the voice-leading
      observations. */
  datatype Report = Report(
    key: string,
    cadences: seq<CadenceEntry>,
    progressions: seq<(string, string)>,
    circleMeasures: seq<nat>,
    scaleUsage: map<nat, nat>,
    tensions: seq<string>,
    voiceLeading: seq<VoiceEntry>)

  /** The key text: tonic, a space, the mode word. */
  function KeyText(km: KeyModel): string {
    km.tonicText + " " + km.mode
  }

  /** analyze_harmony: fails with the first symbol the key cannot resolve,
      otherwise reports every part. */
  function HarmonyAnalysis(km: KeyModel, prog: seq<string>): Result<Report> {
    match ResolveAll(km, prog)
    case Err(e) => Err(e)
    case Ok(cs) =>
      var circles := Circles(km.mode, prog);
      Ok(Report(KeyText(km), Cadences(km.mode, prog), PairsOf(circles), MeasuresOf(circles),
        Usage(km.scale, Concat(cs)), Tensions(prog), VoiceLeading(cs)))
  }

  /** The loop over neighbouring symbols that collects the circle motion
      into the two parallel lists. */
  method CircleLoop(mode: string, prog: seq<string>) returns (pairs: seq<(string, string)>, measures: seq<nat>)
    ensures pairs == PairsOf(Circles(mode, prog)) && measures == MeasuresOf(Circles(mode, prog))
  {
    ghost var marks := CircleMarks(mode, prog);
    pairs := [];
    measures := [];
    var i := 0;
    while i + 1 < |prog|
      invariant i <= |marks|
      invariant pairs == PairsOf(CircleEntries(prog, marks, i)) && measures == MeasuresOf(CircleEntries(prog, marks, i))
      decreases |prog| - i
    {
      var current := prog[i];
      var next := prog[i + 1];
      var step := CircleStep(mode, current, next);
      CircleLoopStep(mode, prog, marks, i);
      if step {
        CircleAppend(CircleEntries(prog, marks, i), CircleEntry(i, current, next));
        pairs := pairs + [(current, next)];
        measures := measures + [i];
      }
      i := i + 1;
    }
    assert i == |marks|;
  }

  /** One iteration of the circle loop extends the observations by the
      pair at i exactly when it is in circle motion. */
  lemma CircleLoopStep(mode: string, prog: seq<string>, marks: seq<bool>, i: nat)
    requires marks == CircleMarks(mode, prog) && i + 1 < |prog|
    ensures i < |marks|
    ensures CircleEntries(prog, marks, i + 1) == CircleEntries(prog, marks, i)
      + if CircleStep(mode, prog[i], prog[i + 1]) then [CircleEntry(i, prog[i], prog[i + 1])] else []
  {
    CircleEntriesNext(prog, marks, i);
    MarksUpToMeaning(mode, prog, PairCount(prog), i);
  }

  lemma CircleAppend(e: seq<CircleEntry>, x: CircleEntry)
    ensures PairsOf(e + [x]) == PairsOf(e) + [(x.current, x.next)]
    ensures MeasuresOf(e + [x]) == MeasuresOf(e) + [x.measure]
  {
    assert (e + [x])[..|e|] == e;
  }

  /** The resolving loop of the scale-usage pass. */
  method ResolveLoop(km: KeyModel, prog: seq<string>) returns (r: Result<seq<seq<Pitch>>>)
    ensures r == ResolveAll(km, prog)
  {
    var cs: seq<seq<Pitch>> := [];
    var i := 0;
    while i < |prog|
      invariant 0 <= i <= |prog|
      invariant ResolveAll(km, prog[..i]) == Ok(cs)
    {
      assert prog[..i + 1][..i] == prog[..i];
      var resolved := km.resolve(prog[i]);
      if resolved.None? {
        ResolvePrefix(km, prog, i + 1);
        return Err(Unresolvable(prog[i]));
      }
      cs := cs + [resolved.value];
      i := i + 1;
    }
    assert prog[..i] == prog;
    r := Ok(cs);
  }

  /** An error in a prefix is the error of the whole progression. */
  lemma {:induction false} ResolvePrefix(km: KeyModel, prog: seq<string>, i: nat)
    requires i <= |prog| && ResolveAll(km, prog[..i]).Err?
    ensures ResolveAll(km, prog) == ResolveAll(km, prog[..i])
    decreases |prog| - i
  {
    if i < |prog| {
      assert prog[..i + 1][..i] == prog[..i];
      ResolvePrefix(km, prog, i + 1);
    } else {
      assert prog[..i] == prog;
    }
  }

  /** analyze_harmony with its accumulator loops. */
  method Analyze(km: KeyModel, prog: seq<string>) returns (r: Result<Report>)
    ensures r == HarmonyAnalysis(km, prog)
  {
    var cadences := Cadences(km.mode, prog);
    var pairs, measures := CircleLoop(km.mode, prog);
    var cs := ResolveLoop(km, prog);
    if cs.Err? {
      return Err(cs.error);
    }
    var usage := UsageLoop(km.scale, cs.value);
    var tensions := TensionLoop(prog);
    var voice := VoiceLoop(cs.value);
    r := Ok(Report(KeyText(km), cadences, pairs, measures, usage, tensions, voice));
  }

  /** The analysis fails exactly when a symbol does not resolve, with the
      first such symbol; otherwise it reports the key text, and the
      scale-usage and voice-leading parts are those of the resolved
      chords. */
  lemma AnalysisOutcome(km: KeyModel, prog: seq<string>)
    ensures HarmonyAnalysis(km, prog).Ok? <==> forall k :: 0 <= k < |prog| ==> km.resolve(prog[k]).Some?
    ensures HarmonyAnalysis(km, prog).Err? ==> exists i :: (0 <= i < |prog| && km.resolve(prog[i]).None?
      && (forall k :: 0 <= k < i ==> km.resolve(prog[k]).Some?)
      && HarmonyAnalysis(km, prog).error == Unresolvable(prog[i]))
    ensures HarmonyAnalysis(km, prog).Ok? ==> var report := HarmonyAnalysis(km, prog).value;
      && report.key == km.tonicText + " " + km.mode
      && |report.progressions| == |report.circleMeasures|
      && |report.cadences| <= 1
  {
    ResolveAllSpec(km, prog);
    var circles := Circles(km.mode, prog);
    assert |PairsOf(circles)| == |MeasuresOf(circles)|;
  }
}
