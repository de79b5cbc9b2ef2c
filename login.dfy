/** The login screen's check and the normalisation of the grower code
    (`code.trim().toUpperCase()`), over ASCII text. */
module Login {

  /** The ASCII characters `trim` removes: space, tab, line feed, vertical
      tab, form feed and carriage return. */
  predicate IsSpace(c: char) {
    c == ' ' || '\t' <= c <= '\r'
  }

  /** Index of the first non-space at or after i (|s| when there is none). */
  function SkipBlanks(s: string, i: nat): (a: nat)
    requires i <= |s|
    ensures i <= a <= |s|
    ensures forall k :: i <= k < a ==> IsSpace(s[k])
    ensures a < |s| ==> !IsSpace(s[a])
    decreases |s| - i
  {
    if i < |s| && IsSpace(s[i]) then SkipBlanks(s, i + 1) else i
  }

  /** End of s[a..j] once its trailing white space is cut off. */
  function CutBlanks(s: string, a: nat, j: nat): (b: nat)
    requires a <= j <= |s|
    ensures a <= b <= j
    ensures forall k :: b <= k < j ==> IsSpace(s[k])
    ensures b > a ==> !IsSpace(s[b - 1])
    decreases j
  {
    if j > a && IsSpace(s[j - 1]) then CutBlanks(s, a, j - 1) else j
  }

  /** `trim()`: s without its leading and trailing white space. The result
      is the slice of s that starts after the leading run of white space,
      everything of s outside that slice is white space, and the slice
      neither starts nor ends with white space. */
  function Trim(s: string): (r: string)
    ensures var a := SkipBlanks(s, 0);
      && a + |r| <= |s|
      && r == s[a..a + |r|]
      && (forall i :: 0 <= i < a ==> IsSpace(s[i]))
      && (forall i :: a + |r| <= i < |s| ==> IsSpace(s[i]))
    ensures r == [] || (!IsSpace(r[0]) && !IsSpace(r[|r| - 1]))
  {
    var a := SkipBlanks(s, 0);
    s[a..CutBlanks(s, a, |s|)]
  }

  /** trim() empties exactly the strings made only of white space. */
  lemma {:induction false} TrimEmptyIffBlank(s: string)
    ensures Trim(s) == [] <==> forall i :: 0 <= i < |s| ==> IsSpace(s[i])
  {
    var a := SkipBlanks(s, 0);
    if a < |s| {
      assert CutBlanks(s, a, |s|) > a;
    }
  }

  function UpperChar(c: char): (u: char)
    ensures !('a' <= u <= 'z')
    ensures IsSpace(u) == IsSpace(c)
  {
    if 'a' <= c <= 'z' then (c as int - 'a' as int + 'A' as int) as char else c
  }

  /** `toUpperCase()`: every lower-case letter becomes its capital. */
  function ToUpper(s: string): (r: string)
    ensures |r| == |s|
    ensures forall i :: 0 <= i < |s| ==> r[i] == UpperChar(s[i])
  {
    seq(|s|, i requires 0 <= i < |s| => UpperChar(s[i]))
  }

  /** handleLogin: the grower code as stored and used as the document key. */
  function Normalize(code: string): (id: string)
    ensures id == ToUpper(Trim(code))
    ensures |id| <= |code|
    ensures id == [] || (!IsSpace(id[0]) && !IsSpace(id[|id| - 1]))
    ensures forall i :: 0 <= i < |id| ==> !('a' <= id[i] <= 'z')
  {
    ToUpper(Trim(code))
  }

  lemma {:induction false} TrimmedIsFixed(s: string)
    requires s == [] || (!IsSpace(s[0]) && !IsSpace(s[|s| - 1]))
    ensures Trim(s) == s
  {
    assert SkipBlanks(s, 0) == 0;
    assert CutBlanks(s, 0, |s|) == |s|;
    assert s[0..|s|] == s;
  }

  /** Normalising twice is normalising once: a stored code normalises to itself. */
  lemma {:induction false} NormalizeIdempotent(code: string)
    ensures Normalize(Normalize(code)) == Normalize(code)
  {
    var id := Normalize(code);
    TrimmedIsFixed(id);
    UpperIsFixed(id);
  }

  lemma {:induction false} UpperIsFixed(s: string)
    requires forall i :: 0 <= i < |s| ==> !('a' <= s[i] <= 'z')
    ensures ToUpper(s) == s
  {
    var u := ToUpper(s);
    assert forall i :: 0 <= i < |s| ==> u[i] == s[i];
  }

  /** What the login form does with its text field. */
  datatype Submission = Refused(message: string) | Submitted(code: string)

  /** handleSubmit: the empty field is refused with a message; anything else
      is passed on untouched. */
  function Submit(input: string): (s: Submission)
    ensures s.Submitted? <==> input != ""
    ensures s.Submitted? ==> s.code == input
  {
    if input == "" then Refused("Por favor, ingrese su código de agricultor.")
    else Submitted(input)
  }

  /** The empty check comes before trimming: a code of blanks passes it and
      then normalises to the empty code. */
  lemma {:induction false} BlankCodePassesThenEmpties(input: string)
    requires input != []
    requires forall i :: 0 <= i < |input| ==> IsSpace(input[i])
    ensures Submit(input).Submitted?
    ensures Normalize(input) == ""
  {
    TrimEmptyIffBlank(input);
  }

  lemma {:induction false} NormalizeExample()
    ensures Normalize(" a7 ") == "A7"
  {
    assert SkipBlanks(" a7 ", 0) == 1;
    assert CutBlanks(" a7 ", 1, 4) == 3;
    assert Trim(" a7 ") == " a7 "[1..3] == "a7";
    var u := ToUpper("a7");
    assert u[0] == 'A' && u[1] == '7';
    assert u == "A7";
  }
}
