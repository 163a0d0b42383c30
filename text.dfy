/**
 * The JavaScript string operations the front-ends rely on: `trim`, the `\s`
 * character class, `toUpperCase`/`toLowerCase`, `split`, `join`,
 * `startsWith`/`endsWith` and `Number.prototype.toString` for naturals.
 */
module Text {

  /** The code points ECMAScript counts as WhiteSpace or LineTerminator:
    * exactly what the regular expression `\s` matches and what `trim` strips. */
  predicate IsWhitespace(c: char) {
    c == '\t' || c == '\n' || c == '\U{000B}' || c == '\U{000C}' || c == '\r' || c == ' '
    || c == '\U{00A0}' || c == '\U{1680}' || ('\U{2000}' <= c <= '\U{200A}')
    || c == '\U{2028}' || c == '\U{2029}' || c == '\U{202F}' || c == '\U{205F}'
    || c == '\U{3000}' || c == '\U{FEFF}'
  }

  predicate AllWhitespace(s: string) {
    forall i :: 0 <= i < |s| ==> IsWhitespace(s[i])
  }

  // ---------------------------------------------------------------- trim

  /** The number of whitespace characters `trim` strips from the front. */
  function LeadingWhitespace(s: string): (n: nat)
    ensures n <= |s|
    ensures forall i :: 0 <= i < n ==> IsWhitespace(s[i])
    ensures n < |s| ==> !IsWhitespace(s[n])
  {
    if s != [] && IsWhitespace(s[0]) then 1 + LeadingWhitespace(s[1..]) else 0
  }

  /** Where the whitespace `trim` strips from the back begins. */
  function TrailingWhitespace(s: string): (n: nat)
    ensures n <= |s|
    ensures forall i :: n <= i < |s| ==> IsWhitespace(s[i])
    ensures 0 < n ==> !IsWhitespace(s[n - 1])
  {
    if s != [] && IsWhitespace(s[|s| - 1]) then TrailingWhitespace(s[..|s| - 1]) else |s|
  }

  /** `String.prototype.trim`. */
  function Trim(s: string): (r: string)
    ensures r != [] ==> !IsWhitespace(r[0]) && !IsWhitespace(r[|r| - 1])
    ensures r == [] <==> AllWhitespace(s)
  {
    var lo := LeadingWhitespace(s);
    if lo == |s| then []
    else
      var hi := TrailingWhitespace(s);
      assert lo < hi;
      s[lo..hi]
  }

  /** The trimmed string is a slice of the string with only whitespace around it. */
  lemma TrimSlice(s: string) returns (lo: nat, hi: nat)
    ensures lo <= hi <= |s| && Trim(s) == s[lo..hi]
    ensures forall i :: 0 <= i < lo ==> IsWhitespace(s[i])
    ensures forall i :: hi <= i < |s| ==> IsWhitespace(s[i])
  {
    lo := LeadingWhitespace(s);
    hi := if lo == |s| then lo else TrailingWhitespace(s);
  }

  /** A string that opens with a non-whitespace character keeps it first when trimmed. */
  lemma TrimFirst(s: string)
    requires s != [] && !IsWhitespace(s[0])
    ensures Trim(s) != [] && Trim(s)[0] == s[0]
  {
    var lo, hi := TrimSlice(s);
    assert !AllWhitespace(s);
  }

  /** Trimming a trimmed string changes nothing. */
  lemma TrimIdempotent(s: string)
    ensures Trim(Trim(s)) == Trim(s)
  {
    var t := Trim(s);
    if t != [] {
      assert LeadingWhitespace(t) == 0;
      assert TrailingWhitespace(t) == |t|;
    }
  }

  /** `!s.trim()` in TypeScript: the string is empty or all whitespace. */
  predicate IsBlank(s: string) {
    Trim(s) == []
  }

  // ---------------------------------------------------- whitespace removal

  /** `s.replace(/\s/g, "")`. */
  function RemoveWhitespace(s: string): (r: string)
    ensures |r| <= |s|
  {
    if s == [] then []
    else (if IsWhitespace(s[0]) then [] else [s[0]]) + RemoveWhitespace(s[1..])
  }

  /** Removing whitespace keeps exactly the non-whitespace characters. */
  lemma {:induction false} RemoveWhitespaceChars(s: string, c: char)
    ensures c in RemoveWhitespace(s) <==> c in s && !IsWhitespace(c)
  {
    if s != [] {
      RemoveWhitespaceChars(s[1..], c);
      assert s == [s[0]] + s[1..];
    }
  }

  /** Every character of the trimmed string occurs in the string. */
  lemma TrimChars(s: string, c: char)
    requires c in Trim(s)
    ensures c in s
  {
    var lo, hi := TrimSlice(s);
    var i :| 0 <= i < hi - lo && s[lo..hi][i] == c;
    assert s[lo + i] == c;
  }

  lemma {:induction false} RemoveWhitespaceConcat(a: string, b: string)
    ensures RemoveWhitespace(a + b) == RemoveWhitespace(a) + RemoveWhitespace(b)
  {
    if a == [] {
      assert a + b == b;
    } else {
      assert (a + b)[1..] == a[1..] + b;
      RemoveWhitespaceConcat(a[1..], b);
    }
  }

  lemma {:induction false} RemoveWhitespaceOfBlank(s: string)
    requires AllWhitespace(s)
    ensures RemoveWhitespace(s) == []
  {
    if s != [] {
      RemoveWhitespaceOfBlank(s[1..]);
    }
  }

  /** Trimming never changes what is left once all whitespace is removed. */
  lemma RemoveWhitespaceOfTrim(s: string)
    ensures RemoveWhitespace(Trim(s)) == RemoveWhitespace(s)
  {
    var lo, hi := TrimSlice(s);
    assert s == s[..lo] + s[lo..hi] + s[hi..];
    RemoveWhitespaceOfBlank(s[..lo]);
    RemoveWhitespaceOfBlank(s[hi..]);
    RemoveWhitespaceConcat(s[..lo] + s[lo..hi], s[hi..]);
    RemoveWhitespaceConcat(s[..lo], s[lo..hi]);
  }

  // ------------------------------------------------------------ letter case

  function UpperChar(c: char): char {
    if 'a' <= c <= 'z' then (c as int - 32) as char else c
  }

  function LowerChar(c: char): char {
    if 'A' <= c <= 'Z' then (c as int + 32) as char else c
  }

  /** `toUpperCase` on the ASCII letters. */
  function ToUpper(s: string): (r: string)
    ensures |r| == |s|
    ensures forall i :: 0 <= i < |s| ==> r[i] == UpperChar(s[i])
  {
    seq(|s|, i requires 0 <= i < |s| => UpperChar(s[i]))
  }

  /** `toLowerCase` on the ASCII letters. */
  function ToLower(s: string): (r: string)
    ensures |r| == |s|
    ensures forall i :: 0 <= i < |s| ==> r[i] == LowerChar(s[i])
  {
    seq(|s|, i requires 0 <= i < |s| => LowerChar(s[i]))
  }

  lemma ToUpperConcat(a: string, b: string)
    ensures ToUpper(a + b) == ToUpper(a) + ToUpper(b)
  {
  }

  lemma UpperCharWhitespace(c: char)
    ensures IsWhitespace(UpperChar(c)) == IsWhitespace(c)
  {
  }

  lemma {:induction false} RemoveWhitespaceToUpper(s: string)
    ensures RemoveWhitespace(ToUpper(s)) == ToUpper(RemoveWhitespace(s))
  {
    if s != [] {
      assert ToUpper(s) == [UpperChar(s[0])] + ToUpper(s[1..]);
      UpperCharWhitespace(s[0]);
      RemoveWhitespaceToUpper(s[1..]);
      ToUpperConcat(if IsWhitespace(s[0]) then [] else [s[0]], RemoveWhitespace(s[1..]));
    }
  }

  lemma {:induction false} LeadingWhitespaceToUpper(s: string)
    ensures LeadingWhitespace(ToUpper(s)) == LeadingWhitespace(s)
  {
    if s != [] {
      assert ToUpper(s)[1..] == ToUpper(s[1..]);
      UpperCharWhitespace(s[0]);
      LeadingWhitespaceToUpper(s[1..]);
    }
  }

  lemma {:induction false} TrailingWhitespaceToUpper(s: string)
    ensures TrailingWhitespace(ToUpper(s)) == TrailingWhitespace(s)
  {
    if s != [] {
      assert ToUpper(s)[..|s| - 1] == ToUpper(s[..|s| - 1]);
      UpperCharWhitespace(s[|s| - 1]);
      TrailingWhitespaceToUpper(s[..|s| - 1]);
    }
  }

  lemma ToUpperSlice(s: string, lo: nat, hi: nat)
    requires lo <= hi <= |s|
    ensures ToUpper(s)[lo..hi] == ToUpper(s[lo..hi])
  {
  }

  /** Trimming and upper-casing commute. */
  lemma TrimToUpper(s: string)
    ensures Trim(ToUpper(s)) == ToUpper(Trim(s))
  {
    LeadingWhitespaceToUpper(s);
    TrailingWhitespaceToUpper(s);
    var lo := LeadingWhitespace(s);
    if lo < |s| {
      ToUpperSlice(s, lo, TrailingWhitespace(s));
    }
  }

  // ------------------------------------------------------------ affixes

  predicate StartsWith(s: string, prefix: string) {
    |prefix| <= |s| && s[..|prefix|] == prefix
  }

  /** Starting with a one-character prefix is having that character first. */
  lemma StartsWithChar(s: string, c: char)
    ensures StartsWith(s, [c]) <==> s != [] && s[0] == c
  {
    if s != [] {
      assert s[..1] == [s[0]];
    }
  }

  predicate EndsWith(s: string, suffix: string) {
    |suffix| <= |s| && s[|s| - |suffix|..] == suffix
  }

  // ------------------------------------------------------- split and join

  /** `s.split(sep)` for a one-character separator: always at least one piece. */
  function Split(s: string, sep: char): (r: seq<string>)
    ensures |r| >= 1
    ensures forall k :: 0 <= k < |r| ==> sep !in r[k]
  {
    if s == [] then [[]]
    else if s[0] == sep then [[]] + Split(s[1..], sep)
    else
      var rest := Split(s[1..], sep);
      [[s[0]] + rest[0]] + rest[1..]
  }

  /** `parts.join(sep)`. */
  function JoinWith(parts: seq<string>, sep: char): string {
    if parts == [] then []
    else if |parts| == 1 then parts[0]
    else parts[0] + [sep] + JoinWith(parts[1..], sep)
  }

  /** `parts.join("")`. */
  function Concat(parts: seq<string>): string {
    if parts == [] then [] else parts[0] + Concat(parts[1..])
  }

  lemma {:induction false} ConcatAppend(parts: seq<string>, last: string)
    ensures Concat(parts + [last]) == Concat(parts) + last
  {
    if parts != [] {
      assert (parts + [last])[1..] == parts[1..] + [last];
      ConcatAppend(parts[1..], last);
    }
  }

  /** A character of any part is a character of the concatenation. */
  lemma {:induction false} ConcatChars(parts: seq<string>, k: nat, c: char)
    requires k < |parts| && c in parts[k]
    ensures c in Concat(parts)
  {
    if k > 0 {
      ConcatChars(parts[1..], k - 1, c);
    }
  }

  /** Joining the pieces of a split with the same separator gives back the string. */
  lemma {:induction false} JoinSplit(s: string, sep: char)
    ensures JoinWith(Split(s, sep), sep) == s
  {
    if s != [] {
      JoinSplit(s[1..], sep);
      var rest := Split(s[1..], sep);
      if s[0] != sep {
        if |rest| > 1 {
          assert ([[s[0]] + rest[0]] + rest[1..])[1..] == rest[1..];
        }
      }
    }
  }

  /** Splitting a join of separator-free pieces gives back the pieces. */
  lemma {:induction false} SplitJoin(parts: seq<string>, sep: char)
    requires |parts| >= 1
    requires forall k :: 0 <= k < |parts| ==> sep !in parts[k]
    ensures Split(JoinWith(parts, sep), sep) == parts
  {
    if |parts| == 1 {
      SplitOfPiece(parts[0], [], sep);
    } else {
      SplitJoin(parts[1..], sep);
      SplitOfPiece(parts[0], JoinWith(parts[1..], sep), sep);
    }
  }

  /** Splitting `piece + [sep] + tail` (or `piece` alone) starts with `piece`. */
  lemma {:induction false} SplitOfPiece(piece: string, tail: string, sep: char)
    requires sep !in piece
    ensures Split(piece, sep) == [piece]
    ensures Split(piece + [sep] + tail, sep) == [piece] + Split(tail, sep)
  {
    if piece != [] {
      assert (piece + [sep] + tail)[1..] == piece[1..] + [sep] + tail;
      SplitOfPiece(piece[1..], tail, sep);
      assert [piece[0]] + piece[1..] == piece;
    } else {
      assert piece + [sep] + tail == [sep] + tail;
      assert ([sep] + tail)[1..] == tail;
    }
  }

  /** Joining the lines of a text with "" and removing whitespace is the
    * same as removing whitespace from the text: newlines are whitespace. */
  lemma {:induction false} RemoveWhitespaceOfLines(s: string)
    ensures RemoveWhitespace(Concat(Split(s, '\n'))) == RemoveWhitespace(s)
  {
    if s != [] {
      var rest := Split(s[1..], '\n');
      var joined := Concat(rest);
      RemoveWhitespaceOfLines(s[1..]);
      assert RemoveWhitespace(s) == RemoveWhitespace([s[0]]) + RemoveWhitespace(s[1..]) by {
        assert s == [s[0]] + s[1..];
        RemoveWhitespaceConcat([s[0]], s[1..]);
      }
      if s[0] == '\n' {
        assert Split(s, '\n') == [[]] + rest;
        assert Concat(Split(s, '\n')) == joined;
        assert RemoveWhitespace([s[0]]) == [];
      } else {
        assert Split(s, '\n') == [[s[0]] + rest[0]] + rest[1..];
        assert joined == rest[0] + Concat(rest[1..]);
        assert Concat(Split(s, '\n')) == [s[0]] + joined;
        RemoveWhitespaceConcat([s[0]], joined);
      }
    }
  }

  /** Everything after the first newline of `s` (empty when there is none). */
  function AfterFirstLine(s: string): (r: string)
    ensures |r| <= |s|
  {
    if s == [] then []
    else if s[0] == '\n' then s[1..]
    else AfterFirstLine(s[1..])
  }

  /** `lines.slice(1).join("")` with whitespace removed is the text after the
    * first line with whitespace removed. */
  lemma {:induction false} RemoveWhitespaceOfLaterLines(s: string)
    ensures RemoveWhitespace(Concat(Split(s, '\n')[1..])) == RemoveWhitespace(AfterFirstLine(s))
  {
    if s != [] {
      if s[0] == '\n' {
        assert Split(s, '\n')[1..] == Split(s[1..], '\n');
        RemoveWhitespaceOfLines(s[1..]);
      } else {
        assert Split(s, '\n')[1..] == Split(s[1..], '\n')[1..];
        RemoveWhitespaceOfLaterLines(s[1..]);
      }
    }
  }

  /** The first line of a non-empty text starts with its first character. */
  lemma FirstLineStart(s: string, c: char)
    requires s != [] && c != '\n'
    ensures StartsWith(Split(s, '\n')[0], [c]) <==> s[0] == c
  {
  }

  lemma {:induction false} AfterFirstLineToUpper(s: string)
    ensures AfterFirstLine(ToUpper(s)) == ToUpper(AfterFirstLine(s))
  {
    if s != [] {
      assert ToUpper(s)[1..] == ToUpper(s[1..]);
      AfterFirstLineToUpper(s[1..]);
    }
  }

  lemma {:induction false} AfterFirstLineChars(s: string)
    ensures forall c :: c in AfterFirstLine(s) ==> c in s
  {
    if s != [] && s[0] != '\n' {
      AfterFirstLineChars(s[1..]);
    }
  }

  // ---------------------------------------------------- decimal numerals

  function DigitChar(d: nat): char
    requires d < 10
  {
    ('0' as int + d) as char
  }

  predicate IsDigit(c: char) {
    '0' as int <= c as int <= '9' as int
  }

  /** `n.toString()` for a natural number: decimal, no leading zeros. */
  function NatToString(n: nat): (r: string)
    ensures |r| >= 1
    ensures forall i :: 0 <= i < |r| ==> IsDigit(r[i])
    ensures n < 10 <==> |r| == 1
  {
    if n < 10 then [DigitChar(n)] else NatToString(n / 10) + [DigitChar(n % 10)]
  }

  /** The value of a string of decimal digits. */
  function DecimalValue(s: string): nat
    requires forall i :: 0 <= i < |s| ==> IsDigit(s[i])
  {
    if s == [] then 0
    else
      assert IsDigit(s[|s| - 1]);
      10 * DecimalValue(s[..|s| - 1]) + (s[|s| - 1] as int - '0' as int)
  }

  lemma {:induction false} DecimalValueOfNatToString(n: nat)
    ensures DecimalValue(NatToString(n)) == n
  {
    if n >= 10 {
      var s := NatToString(n);
      assert s[..|s| - 1] == NatToString(n / 10);
      DecimalValueOfNatToString(n / 10);
    }
  }

  /** `s.padStart(width, pad)`. */
  function PadStart(s: string, width: nat, pad: char): (r: string)
    ensures |r| == if |s| < width then width else |s|
    ensures EndsWith(r, s)
  {
    if |s| < width then seq(width - |s|, _ => pad) + s else s
  }
}
