/** Input validation of the desktop front end: each field is normalised
    (whitespace stripped, case folded) and checked in order; the first
    failing check decides the error. */
module Validation {
  import opened Music

  /** Characters Python's `str.strip()` removes (those `str.isspace()`
      accepts). */
  predicate IsSpace(c: char) {
    || c == ' ' || '\t' <= c <= '\r' || '\U{1C}' <= c <= '\U{1F}'
    || c == '\U{85}' || c == '\U{A0}' || c == '\U{1680}'
    || '\U{2000}' <= c <= '\U{200A}' || c == '\U{2028}' || c == '\U{2029}'
    || c == '\U{202F}' || c == '\U{205F}' || c == '\U{3000}'
  }

  function StripLeft(s: string): (r: string)
    ensures |r| <= |s| && r == s[|s| - |r|..]
  {
    if s != [] && IsSpace(s[0]) then StripLeft(s[1..]) else s
  }

  function StripRight(s: string): (r: string)
    ensures |r| <= |s| && r == s[..|r|]
  {
    if s != [] && IsSpace(s[|s| - 1]) then StripRight(s[..|s| - 1]) else s
  }

  function Strip(s: string): string {
    StripRight(StripLeft(s))
  }

  /** `lstrip` removes exactly the leading whitespace: what it drops is all
      whitespace and what it keeps does not start with whitespace. */
  lemma {:induction false} StripLeftRemovesBlanks(s: string)
    ensures var r := StripLeft(s);
      && (r == [] || !IsSpace(r[0]))
      && forall k :: 0 <= k < |s| - |r| ==> IsSpace(s[k])
  {
    if s != [] && IsSpace(s[0]) {
      var r := StripLeft(s[1..]);
      StripLeftRemovesBlanks(s[1..]);
      assert StripLeft(s) == r;
      forall k | 0 < k < |s| - |r|
        ensures IsSpace(s[k])
      {
        assert s[k] == s[1..][k - 1];
      }
    }
  }

  /** `rstrip` removes exactly the trailing whitespace. */
  lemma {:induction false} StripRightRemovesBlanks(s: string)
    ensures var r := StripRight(s);
      && (r == [] || !IsSpace(r[|r| - 1]))
      && forall k :: |r| <= k < |s| ==> IsSpace(s[k])
  {
    if s != [] && IsSpace(s[|s| - 1]) {
      StripRightRemovesBlanks(s[..|s| - 1]);
    }
  }

  /** Stripping leaves nothing exactly when the text is all whitespace. */
  lemma StripEmpty(s: string)
    ensures Strip(s) == [] <==> forall k :: 0 <= k < |s| ==> IsSpace(s[k])
  {
    var l := StripLeft(s);
    StripLeftRemovesBlanks(s);
    StripRightRemovesBlanks(l);
    if l != [] {
      assert !IsSpace(l[0]);
      assert l[0] == s[|s| - |l|];
    }
  }

  /** Text that neither starts nor ends with whitespace is kept by strip. */
  lemma StripKeeps(s: string)
    requires s == [] || (!IsSpace(s[0]) && !IsSpace(s[|s| - 1]))
    ensures Strip(s) == s
  {
  }

  function LowerChar(c: char): char {
    if 'A' <= c <= 'Z' then (c as int + 32) as char else c
  }

  function UpperChar(c: char): char {
    if 'a' <= c <= 'z' then (c as int - 32) as char else c
  }

  /** `str.lower()` on ASCII letters; other characters are kept. */
  function Lower(s: string): (r: string)
    ensures |r| == |s|
  {
    if s == [] then [] else [LowerChar(s[0])] + Lower(s[1..])
  }

  /** `str.upper()` on ASCII letters; other characters are kept. */
  function Upper(s: string): (r: string)
    ensures |r| == |s|
  {
    if s == [] then [] else [UpperChar(s[0])] + Upper(s[1..])
  }

  predicate IsDigit(c: char) {
    '0' <= c <= '9'
  }

  /** The digits of an integer literal, with single underscores allowed
      between digits as Python's `int()` allows. */
  predicate IsDigitBody(s: string) {
    && |s| > 0 && IsDigit(s[0]) && IsDigit(s[|s| - 1])
    && (forall k :: 0 <= k < |s| ==> IsDigit(s[k]) || s[k] == '_')
    && (forall k :: 0 <= k < |s| - 1 ==> !(s[k] == '_' && s[k + 1] == '_'))
  }

  function DigitsValue(s: string): nat
    requires forall k :: 0 <= k < |s| ==> IsDigit(s[k]) || s[k] == '_'
  {
    if s == [] then 0
    else if s[|s| - 1] == '_' then DigitsValue(s[..|s| - 1])
    else
      assert IsDigit(s[|s| - 1]);
      10 * DigitsValue(s[..|s| - 1]) + (s[|s| - 1] as int - '0' as int)
  }

  /** Python's `int(text)` on already stripped text: an optional sign and a
      digit body; None where `int()` raises ValueError. */
  function ParseInt(s: string): (r: Option<int>)
    ensures r.Some? <==> (IsDigitBody(s) || (|s| > 0 && (s[0] == '+' || s[0] == '-') && IsDigitBody(s[1..])))
  {
    if IsDigitBody(s) then Some(DigitsValue(s))
    else if |s| > 0 && s[0] == '+' && IsDigitBody(s[1..]) then Some(DigitsValue(s[1..]))
    else if |s| > 0 && s[0] == '-' && IsDigitBody(s[1..]) then Some(0 - DigitsValue(s[1..]) as int)
    else None
  }

  /** The message `validate_input` shows, one per check. */
  datatype InputError =
    | EmptyTonic | BadMode | BadTimeSignature | NotAnInteger | LengthBelowOne | BadStructure | BadRhythm

  datatype Verdict = Valid | Invalid(error: InputError)

  /** The fields as the user typed them. */
  datatype Form = Form(tonic: string, mode: string, timeSig: string, length: string, structure: string, rhythm: string)

  predicate IsModeWord(s: string) { s == "major" || s == "minor" }
  predicate IsTimeSignature(s: string) { s == "4/4" || s == "3/4" || s == "6/8" }
  predicate IsStructureWord(s: string) { s == "A" || s == "AABA" || s == "AB" }
  predicate IsRhythmWord(s: string) { s == "random" || s == "whole" || s == "half" || s == "quarter" || s == "eighth" }

  /** The checks of validate_input, in their order. */
  function Check(f: Form): Verdict {
    if Strip(f.tonic) == [] then Invalid(EmptyTonic)
    else if !IsModeWord(Lower(Strip(f.mode))) then Invalid(BadMode)
    else if !IsTimeSignature(Strip(f.timeSig)) then Invalid(BadTimeSignature)
    else if ParseInt(Strip(f.length)).None? then Invalid(NotAnInteger)
    else if ParseInt(Strip(f.length)).value < 1 then Invalid(LengthBelowOne)
    else if !IsStructureWord(Upper(Strip(f.structure))) then Invalid(BadStructure)
    else if !IsRhythmWord(Lower(Strip(f.rhythm))) then Invalid(BadRhythm)
    else Valid
  }

  /** validate_input: true only when every field passes. */
  function ValidateInput(f: Form): (ok: bool)
    ensures ok <==>
      && Strip(f.tonic) != []
      && IsModeWord(Lower(Strip(f.mode)))
      && IsTimeSignature(Strip(f.timeSig))
      && ParseInt(Strip(f.length)).Some? && ParseInt(Strip(f.length)).value >= 1
      && IsStructureWord(Upper(Strip(f.structure)))
      && IsRhythmWord(Lower(Strip(f.rhythm)))
  {
    Check(f) == Valid
  }

  lemma StripsBlanks()
    ensures Strip(" C ") == "C"
  {
    var padded := " C ";
    assert padded[0] == ' ' && padded[1..] == "C ";
    var left := "C ";
    assert left[0] == 'C' && !IsSpace('C');
    assert StripLeft(padded) == left;
    assert left[1] == ' ' && left[..1] == "C";
    assert StripRight(left) == StripRight("C");
    StripKeeps("C");
  }

  lemma FoldsMode()
    ensures Lower(Strip("Major")) == "major"
  {
    StripKeeps("Major");
  }

  lemma KeepsTimeSignature()
    ensures Strip("4/4") == "4/4"
  {
    StripKeeps("4/4");
  }

  lemma StripsPaddedLength()
    ensures Strip(" 8") == "8"
  {
  }

  lemma ParsesEight()
    ensures ParseInt("8") == Some(8)
  {
  }

  lemma FoldsStructure()
    ensures Upper(Strip("aaba")) == "AABA"
  {
    StripKeeps("aaba");
  }

  lemma FoldsRhythm()
    ensures Lower(Strip("Quarter")) == "quarter"
  {
    StripKeeps("Quarter");
  }

  /** Surrounding blanks and letter case are forgiven. */
  lemma AcceptsNormalisedForm(f: Form)
    requires f == Form(" C ", "Major", "4/4", " 8", "aaba", "Quarter")
    ensures ValidateInput(f)
  {
    StripsBlanks();
    FoldsMode();
    KeepsTimeSignature();
    StripsPaddedLength();
    ParsesEight();
    FoldsStructure();
    FoldsRhythm();
  }

  lemma PlainTonic()
    ensures Strip("C") == "C"
  {
    StripKeeps("C");
  }

  lemma PlainMode()
    ensures Lower(Strip("major")) == "major"
  {
    StripKeeps("major");
  }

  lemma ZeroLength()
    ensures ParseInt(Strip("0")) == Some(0)
  {
    StripKeeps("0");
  }

  lemma WordLength()
    ensures ParseInt(Strip("eight")) == None
  {
    StripKeeps("eight");
    assert "eight"[0] == 'e' && !IsDigit('e');
    assert !IsDigitBody("eight");
  }

  /** A length of zero and a length that is not a number are rejected with
      their own messages. */
  lemma RejectsBadLength(zero: Form, word: Form)
    requires zero == Form("C", "major", "4/4", "0", "A", "random")
    requires word == Form("C", "major", "4/4", "eight", "A", "random")
    ensures Check(zero) == Invalid(LengthBelowOne)
    ensures Check(word) == Invalid(NotAnInteger)
  {
    PlainTonic();
    PlainMode();
    KeepsTimeSignature();
    ZeroLength();
    WordLength();
  }

  /** An all-blank tonic is reported first, whatever the other fields hold. */
  lemma BlankTonicFirst(f: Form)
    requires forall k :: 0 <= k < |f.tonic| ==> IsSpace(f.tonic[k])
    ensures Check(f) == Invalid(EmptyTonic)
  {
    StripEmpty(f.tonic);
  }
}
