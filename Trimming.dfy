/** String.prototype.trim as the send guard uses it: white space and line
    terminators are stripped from both ends of the input. */
module Trimming {

  /** The characters ECMAScript's trim removes: WhiteSpace (tab, vertical tab,
      form feed, zero-width no-break space and every Zs space separator) and
      LineTerminator (line feed, carriage return, U+2028, U+2029). */
  predicate IsWhitespace(c: char) {
    || c == '\t' || c == '\n' || c == '\U{B}' || c == '\U{C}' || c == '\r'
    || c == ' ' || c == '\U{A0}' || c == '\U{1680}'
    || ('\U{2000}' <= c <= '\U{200A}')
    || c == '\U{2028}' || c == '\U{2029}' || c == '\U{202F}' || c == '\U{205F}'
    || c == '\U{3000}' || c == '\U{FEFF}'
  }

  /** True when every character of s is white space (the empty string included). */
  predicate Blank(s: string) {
    forall i :: 0 <= i < |s| ==> IsWhitespace(s[i])
  }

  /** The number of white-space characters s starts with. */
  function LeadingWhitespace(s: string): (n: nat)
    ensures n <= |s|
  {
    if s != [] && IsWhitespace(s[0]) then 1 + LeadingWhitespace(s[1..]) else 0
  }

  /** The number of white-space characters s ends with. */
  function TrailingWhitespace(s: string): (n: nat)
    ensures n <= |s|
  {
    if s != [] && IsWhitespace(s[|s| - 1])
    then 1 + TrailingWhitespace(s[..|s| - 1])
    else 0
  }

  /** s without its leading white space. */
  function TrimStart(s: string): string {
    s[LeadingWhitespace(s)..]
  }

  /** s without its trailing white space. */
  function TrimEnd(s: string): string {
    s[..|s| - TrailingWhitespace(s)]
  }

  /** s with white space removed at both ends. */
  function Trim(s: string): string {
    TrimEnd(TrimStart(s))
  }

  /** The leading run counted is all white space and is maximal. */
  lemma {:induction false} LeadingWhitespaceIsMaximal(s: string)
    ensures forall i :: 0 <= i < LeadingWhitespace(s) ==> IsWhitespace(s[i])
    ensures LeadingWhitespace(s) < |s| ==> !IsWhitespace(s[LeadingWhitespace(s)])
  {
    if s != [] && IsWhitespace(s[0]) {
      LeadingWhitespaceIsMaximal(s[1..]);
      forall i | 1 <= i < LeadingWhitespace(s)
        ensures IsWhitespace(s[i])
      {
        assert s[i] == s[1..][i - 1];
      }
    }
  }

  /** The trailing run counted is all white space and is maximal. */
  lemma {:induction false} TrailingWhitespaceIsMaximal(s: string)
    ensures forall i :: |s| - TrailingWhitespace(s) <= i < |s| ==> IsWhitespace(s[i])
    ensures TrailingWhitespace(s) < |s| ==> !IsWhitespace(s[|s| - 1 - TrailingWhitespace(s)])
  {
    if s != [] && IsWhitespace(s[|s| - 1]) {
      var init := s[..|s| - 1];
      TrailingWhitespaceIsMaximal(init);
      forall i | |s| - TrailingWhitespace(s) <= i < |s| - 1
        ensures IsWhitespace(s[i])
      {
        assert s[i] == init[i];
      }
    }
  }

  /** Trimming leaves nothing exactly when the string is all white space:
      this is the test the send guard performs. */
  lemma TrimEmptyIffBlank(s: string)
    ensures Trim(s) == [] <==> Blank(s)
  {
    var a := LeadingWhitespace(s);
    var t := TrimStart(s);
    LeadingWhitespaceIsMaximal(s);
    TrailingWhitespaceIsMaximal(t);
    if a < |s| {
      assert t[0] == s[a];
    }
  }

  /** Trim keeps a contiguous piece of s whose first and last characters are
      not white space, and drops only white space around it. */
  lemma TrimIsInnerSlice(s: string)
    ensures exists i, j ::
              && 0 <= i <= j <= |s| && Trim(s) == s[i..j]
              && Blank(s[..i]) && Blank(s[j..])
    ensures Trim(s) != [] ==>
              && !IsWhitespace(Trim(s)[0])
              && !IsWhitespace(Trim(s)[|Trim(s)| - 1])
  {
    var i := LeadingWhitespace(s);
    var t := TrimStart(s);
    var j := |s| - TrailingWhitespace(t);
    LeadingWhitespaceIsMaximal(s);
    TrailingWhitespaceIsMaximal(t);
    assert Trim(s) == s[i..j];
    assert Blank(s[..i]);
    forall k | 0 <= k < |s| - j
      ensures IsWhitespace(s[j..][k])
    {
      assert s[j..][k] == t[j - i + k];
    }
  }
}
