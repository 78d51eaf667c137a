/** The progression generator of the core library: tile one 4-symbol basic
    pattern to the requested number of measures, then overwrite the tail with
    a cadence pattern. */
module Progression {
  import opened Music

  const MajorBasicPatterns: seq<seq<string>> := [
    ["I", "IV", "V", "I"],
    ["I", "vi", "IV", "V"],
    ["I", "IV", "I", "V"],
    ["I", "IV", "V", "I"]
  ]

  const MajorCadences: seq<seq<string>> := [
    ["IV", "ii", "V7", "I"],
    ["vi", "ii", "V7", "I"],
    ["ii", "V7", "I"],
    ["IV", "V", "I"],
    ["IV", "I"],
    ["V", "vi"]
  ]

  const MinorBasicPatterns: seq<seq<string>> := [
    ["i", "iv", "V", "i"],
    ["i", "VI", "iv", "V"],
    ["i", "iv", "i", "V"],
    ["i", "iv", "V", "i"]
  ]

  const MinorCadences: seq<seq<string>> := [
    ["iv", "ii°", "V7", "i"],
    ["VI", "ii°", "V7", "i"],
    ["ii°", "V7", "i"],
    ["iv", "V", "i"],
    ["iv", "i"],
    ["V", "VI"]
  ]

  function BasicPatterns(mode: string): (r: seq<seq<string>>)
    ensures |r| == 4
    ensures forall k :: 0 <= k < |r| ==> |r[k]| == 4
  {
    if IsMajor(mode) then MajorBasicPatterns else MinorBasicPatterns
  }

  function Cadences(mode: string): (r: seq<seq<string>>)
    ensures |r| == 6
    ensures forall k :: 0 <= k < |r| ==> 2 <= |r[k]| <= 4
  {
    if IsMajor(mode) then MajorCadences else MinorCadences
  }

  /** Python's list repetition `s * k`. */
  function Repeat<T>(s: seq<T>, k: nat): seq<T> {
    if k == 0 then [] else s + Repeat(s, k - 1)
  }

  /** Copy q of `s * k` holds s at offsets q*|s| .. q*|s| + |s| - 1. */
  lemma {:induction false} RepeatAt<T>(s: seq<T>, k: nat, q: nat, j: nat)
    requires q < k && j < |s|
    ensures |Repeat(s, k)| == k * |s|
    ensures q * |s| + j < k * |s|
    ensures Repeat(s, k)[q * |s| + j] == s[j]
  {
    RepeatLength(s, k);
    var n := |s|;
    assert k * n == n + (k - 1) * n;
    if q > 0 {
      RepeatAt(s, k - 1, q - 1, j);
      assert q * n + j == n + ((q - 1) * n + j);
    }
  }

  lemma {:induction false} RepeatLength<T>(s: seq<T>, k: nat)
    ensures |Repeat(s, k)| == k * |s|
  {
    if k > 0 {
      RepeatLength(s, k - 1);
    }
  }

  /** Python's prefix slice `s[:n]` for n >= 0. */
  function Take<T>(s: seq<T>, n: nat): (r: seq<T>)
    ensures |r| == Min(n, |s|)
    ensures forall k :: 0 <= k < |r| ==> r[k] == s[k]
  {
    if n <= |s| then s[..n] else s
  }

  /** The base pattern repeated length / 4 + 1 times, cut to its first
      `length` symbols. */
  function Tiled(base: seq<string>, length: nat): seq<string> {
    Take(Repeat(base, length / 4 + 1), length)
  }

  /** The tiled sequence has exactly `length` symbols and position k holds
      `base[k mod 4]`: length//4 + 1 copies of a 4-symbol pattern always
      suffice. */
  lemma TiledAt(base: seq<string>, length: nat)
    requires |base| == 4
    ensures |Tiled(base, length)| == length
    ensures forall k :: 0 <= k < length ==> Tiled(base, length)[k] == base[k % 4]
  {
    var copies := length / 4 + 1;
    RepeatLength(base, copies);
    forall k | 0 <= k < length
      ensures Tiled(base, length)[k] == base[k % 4]
    {
      assert k == (k / 4) * 4 + k % 4;
      RepeatAt(base, copies, k / 4, k % 4);
    }
  }

  /** Number of final measures the cadence overwrites. */
  function CadenceSpan(cadence: seq<string>, length: nat): nat {
    Min(|cadence|, length)
  }

  /** For length >= 3 the last min(|cadence|, length) symbols become the
      cadence's suffix of that length; shorter progressions are unchanged. */
  function Cadenced(body: seq<string>, cadence: seq<string>, length: nat): (r: seq<string>)
    requires |body| == length
    requires length >= 3 ==> |cadence| >= 1
    ensures |r| == length
  {
    if length >= 3 then
      var c := CadenceSpan(cadence, length);
      body[..length - c] + cadence[|cadence| - c..]
    else
      body
  }

  /** Every cadence overwrite keeps the length, copies the cadence's last
      `min(|cadence|, length)` symbols onto the tail and leaves the earlier
      positions as they were; below 3 measures nothing changes. */
  lemma CadencedShape(body: seq<string>, cadence: seq<string>, length: nat)
    requires |body| == length
    requires length >= 3 ==> |cadence| >= 1
    ensures |Cadenced(body, cadence, length)| == length
    ensures length < 3 ==> Cadenced(body, cadence, length) == body
    ensures length >= 3 ==>
      var c := CadenceSpan(cadence, length);
      && Cadenced(body, cadence, length)[length - c..] == cadence[|cadence| - c..]
      && Cadenced(body, cadence, length)[..length - c] == body[..length - c]
  {
  }

  /** generate_progression with both random choices made explicit:
      `baseChoice` picks the basic pattern and `cadenceChoice` the cadence
      (drawn only when length >= 3). */
  function GenerateProgression(mode: string, length: nat, baseChoice: nat, cadenceChoice: nat): (r: seq<string>)
    requires baseChoice < |BasicPatterns(mode)|
    requires length >= 3 ==> cadenceChoice < |Cadences(mode)|
    ensures |r| == length
  {
    var base := BasicPatterns(mode)[baseChoice];
    TiledAt(base, length);
    var body := Tiled(base, length);
    if length >= 3 then Cadenced(body, Cadences(mode)[cadenceChoice], length) else body
  }

  /** For length >= 3 the last `c = min(|cadence|, length)` symbols are the
      cadence's last c symbols and every earlier position k still holds
      `base[k mod 4]`; for length < 3 every position holds `base[k mod 4]`. */
  lemma GenerateProgressionShape(mode: string, length: nat, baseChoice: nat, cadenceChoice: nat)
    requires baseChoice < |BasicPatterns(mode)|
    requires length >= 3 ==> cadenceChoice < |Cadences(mode)|
    ensures var r := GenerateProgression(mode, length, baseChoice, cadenceChoice);
      var base := BasicPatterns(mode)[baseChoice];
      var keep := if length >= 3 then length - CadenceSpan(Cadences(mode)[cadenceChoice], length) else length;
      && (forall k :: 0 <= k < keep ==> r[k] == base[k % 4])
      && (length >= 3 ==> r[keep..] == Cadences(mode)[cadenceChoice][|Cadences(mode)[cadenceChoice]| - (length - keep)..])
  {
    var base := BasicPatterns(mode)[baseChoice];
    var body := Tiled(base, length);
    TiledAt(base, length);
    if length >= 3 {
      var cadence := Cadences(mode)[cadenceChoice];
      var r := Cadenced(body, cadence, length);
      assert GenerateProgression(mode, length, baseChoice, cadenceChoice) == r;
      CadencedShape(body, cadence, length);
      var keep := length - CadenceSpan(cadence, length);
      forall k | 0 <= k < keep
        ensures r[k] == base[k % 4]
      {
        assert r[k] == r[..keep][k] == body[..keep][k];
      }
    } else {
      assert GenerateProgression(mode, length, baseChoice, cadenceChoice) == body;
    }
  }

  /** A progression of three or more measures ends with the tail of some
      entry of the mode's cadence table. */
  lemma EndsWithSomeCadence(mode: string, length: nat, baseChoice: nat, cadenceChoice: nat)
    requires baseChoice < |BasicPatterns(mode)|
    requires length >= 3 && cadenceChoice < |Cadences(mode)|
    ensures var r := GenerateProgression(mode, length, baseChoice, cadenceChoice);
      exists cad :: cad in Cadences(mode) &&
        r[length - CadenceSpan(cad, length)..] == cad[|cad| - CadenceSpan(cad, length)..]
  {
    GenerateProgressionShape(mode, length, baseChoice, cadenceChoice);
    var cad := Cadences(mode)[cadenceChoice];
    assert cad in Cadences(mode);
  }

  /** With exactly four measures the whole chosen cadence is the tail (every
      cadence has at most four symbols), and only the measures before it keep
      the basic pattern. */
  lemma FourMeasures(mode: string, baseChoice: nat, cadenceChoice: nat)
    requires baseChoice < 4 && cadenceChoice < 6
    ensures var r := GenerateProgression(mode, 4, baseChoice, cadenceChoice);
      var cad := Cadences(mode)[cadenceChoice];
      && r[4 - |cad|..] == cad
      && forall k :: 0 <= k < 4 - |cad| ==> r[k] == BasicPatterns(mode)[baseChoice][k]
  {
    GenerateProgressionShape(mode, 4, baseChoice, cadenceChoice);
  }
}
