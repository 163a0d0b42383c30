/**
 * The FASTA vocabulary both front-ends share: the IUPAC nucleotide alphabet,
 * the `>` header line, and the sequence text a validator inspects.
 */
module Fasta {
  import opened Text

  /** One of the letters of `/^[ATGCNRYSWKMBDHV]*$/`. */
  predicate IsIupacBase(c: char) {
    c == 'A' || c == 'T' || c == 'G' || c == 'C' || c == 'N' || c == 'R' || c == 'Y' || c == 'S'
    || c == 'W' || c == 'K' || c == 'M' || c == 'B' || c == 'D' || c == 'H' || c == 'V'
  }

  predicate AllIupac(s: string) {
    forall i :: 0 <= i < |s| ==> IsIupacBase(s[i])
  }

  /** The trimmed text begins with `>`: its first line is a FASTA header. */
  predicate HasHeader(text: string) {
    var t := Trim(text);
    t != [] && t[0] == '>'
  }

  /** The sequence text once the header line (if any) is dropped, whitespace
    * is removed and letters are upper-cased. */
  function SequenceBody(text: string): string {
    ToUpper(RemoveWhitespace(if HasHeader(text) then AfterFirstLine(Trim(text)) else text))
  }

  /** The first line of the trimmed text starts with `>` exactly when the text has a header. */
  lemma HeaderLine(text: string)
    requires !IsBlank(text)
    ensures StartsWith(Split(Trim(text), '\n')[0], ">") <==> HasHeader(text)
  {
    var t := Trim(text);
    FirstLineStart(t, '>');
  }

  /** The line-by-line computation of both validators, read as whole-text operations. */
  lemma BodyOfLines(text: string)
    requires !IsBlank(text)
    ensures HasHeader(text) ==>
      ToUpper(RemoveWhitespace(Concat(Split(Trim(text), '\n')[1..]))) == SequenceBody(text)
    ensures !HasHeader(text) ==>
      ToUpper(RemoveWhitespace(Concat(Split(Trim(text), '\n')))) == SequenceBody(text)
  {
    RemoveWhitespaceOfLaterLines(Trim(text));
    RemoveWhitespaceOfLines(Trim(text));
    RemoveWhitespaceOfTrim(text);
  }

  lemma UpperCharIupac(c: char)
    ensures IsIupacBase(UpperChar(c)) ==> IsIupacBase(c) || 'a' <= c <= 'z'
    ensures UpperChar(c) == '>' <==> c == '>'
  {
  }

  /** A `>` left in the text once whitespace is removed makes it non-IUPAC. */
  lemma HeaderMarkNotIupac(s: string)
    requires '>' in s
    ensures !AllIupac(ToUpper(RemoveWhitespace(s)))
  {
    var r := RemoveWhitespace(s);
    RemoveWhitespaceChars(s, '>');
    var i :| 0 <= i < |r| && r[i] == '>';
    assert ToUpper(r)[i] == '>';
  }

  lemma ToUpperIdempotent(s: string)
    ensures ToUpper(ToUpper(s)) == ToUpper(s)
  {
  }

  /** Upper-casing the input changes neither blankness, nor the header, nor the body. */
  lemma SequenceBodyToUpper(text: string)
    ensures IsBlank(ToUpper(text)) == IsBlank(text)
    ensures HasHeader(ToUpper(text)) == HasHeader(text)
    ensures SequenceBody(ToUpper(text)) == SequenceBody(text)
  {
    var t := Trim(text);
    TrimToUpper(text);
    assert Trim(ToUpper(text)) == ToUpper(t);
    if t != [] {
      UpperCharIupac(t[0]);
      assert ToUpper(t)[0] == UpperChar(t[0]);
    }
    assert HasHeader(ToUpper(text)) == HasHeader(text);
    var raw := if HasHeader(text) then AfterFirstLine(t) else text;
    assert (if HasHeader(text) then AfterFirstLine(ToUpper(t)) else ToUpper(text)) == ToUpper(raw) by {
      AfterFirstLineToUpper(t);
    }
    RemoveWhitespaceToUpper(raw);
    ToUpperIdempotent(RemoveWhitespace(raw));
  }
}
