/**
 * The pure helpers of the DCUB results screen
 * (`ui/DCUB/components/results-screen.tsx`): the 60-column sequence layout,
 * the colour and badge given to each score, and the method label.
 */
module ResultsScreen {
  import opened Text

  // ------------------------------------------------------------ formatSequence

  /** The characters the regular-expression `.` does not match. */
  predicate IsLineTerminator(c: char) {
    c == '\n' || c == '\r' || c == '\U{2028}' || c == '\U{2029}'
  }

  predicate NoLineTerminator(s: string) {
    forall i :: 0 <= i < |s| ==> !IsLineTerminator(s[i])
  }

  /** How many characters `.{1,limit}` takes from the front of `s`
    * (0 when it does not match there). */
  function RunLength(s: string, limit: nat): (n: nat)
    ensures n <= limit && n <= |s|
    ensures NoLineTerminator(s[..n])
    ensures n < limit && n < |s| ==> IsLineTerminator(s[n])
    ensures s != [] && limit > 0 && !IsLineTerminator(s[0]) ==> n >= 1
  {
    if s == [] || limit == 0 || IsLineTerminator(s[0]) then 0
    else
      var n := 1 + RunLength(s[1..], limit - 1);
      assert s[..n] == [s[0]] + s[1..][..n - 1];
      n
  }

  /** `sequence.match(/.{1,width}/g)`, an empty list standing for `null`:
    * each match is as long as possible, and line terminators separate matches. */
  function Chunks(s: string, width: nat): (r: seq<string>)
    requires width > 0
    ensures forall k :: 0 <= k < |r| ==> 1 <= |r[k]| <= width && NoLineTerminator(r[k])
    decreases |s|
  {
    if s == [] then []
    else if IsLineTerminator(s[0]) then Chunks(s[1..], width)
    else
      var n := RunLength(s, width);
      [s[..n]] + Chunks(s[n..], width)
  }

  /** `formatSequence`: the matches joined by newlines, or the text itself
    * when nothing matched. */
  function FormatSequence(sequence: string, lineLength: nat): string
    requires lineLength > 0
  {
    var chunks := Chunks(sequence, lineLength);
    if chunks == [] then sequence else JoinWith(chunks, '\n')
  }

  /** The text without its line terminators. */
  function DropLineTerminators(s: string): (r: string)
    ensures NoLineTerminator(r)
  {
    if s == [] then []
    else if IsLineTerminator(s[0]) then DropLineTerminators(s[1..])
    else [s[0]] + DropLineTerminators(s[1..])
  }

  lemma {:induction false} DropLineTerminatorsAppend(a: string, b: string)
    ensures DropLineTerminators(a + b) == DropLineTerminators(a) + DropLineTerminators(b)
  {
    if a != [] {
      assert (a + b)[1..] == a[1..] + b;
      DropLineTerminatorsAppend(a[1..], b);
    } else {
      assert a + b == b;
    }
  }

  lemma {:induction false} DropLineTerminatorsOfPlain(s: string)
    requires NoLineTerminator(s)
    ensures DropLineTerminators(s) == s
  {
    if s != [] {
      DropLineTerminatorsOfPlain(s[1..]);
    }
  }

  /** A match taken from the front of the text comes first in the concatenation. */
  lemma ChunksHead(s: string, width: nat)
    requires width > 0 && s != [] && !IsLineTerminator(s[0])
    ensures Concat(Chunks(s, width)) == s[..RunLength(s, width)] + Concat(Chunks(s[RunLength(s, width)..], width))
  {
    var n := RunLength(s, width);
    var rest := Chunks(s[n..], width);
    assert Chunks(s, width) == [s[..n]] + rest;
    assert ([s[..n]] + rest)[1..] == rest;
  }

  /** Dropping line terminators from a text whose front has none keeps that front. */
  lemma DropLineTerminatorsFront(s: string, n: nat)
    requires n <= |s| && NoLineTerminator(s[..n])
    ensures DropLineTerminators(s) == s[..n] + DropLineTerminators(s[n..])
  {
    assert s == s[..n] + s[n..];
    DropLineTerminatorsAppend(s[..n], s[n..]);
    DropLineTerminatorsOfPlain(s[..n]);
  }

  /** The matches, put back together, are the text without its line terminators. */
  lemma {:induction false} ChunksConcat(s: string, width: nat)
    requires width > 0
    ensures Concat(Chunks(s, width)) == DropLineTerminators(s)
    decreases |s|
  {
    if s != [] {
      if IsLineTerminator(s[0]) {
        ChunksConcat(s[1..], width);
      } else {
        var n := RunLength(s, width);
        ChunksConcat(s[n..], width);
        ChunksHead(s, width);
        DropLineTerminatorsFront(s, n);
      }
    }
  }

  /** On text without line terminators, every match but the last is a full line. */
  lemma {:induction false} ChunksFull(s: string, width: nat)
    requires width > 0 && NoLineTerminator(s)
    ensures forall k :: 0 <= k < |Chunks(s, width)| - 1 ==> |Chunks(s, width)[k]| == width
    decreases |s|
  {
    if s != [] {
      var n := RunLength(s, width);
      assert n == width || n == |s|;
      var rest := Chunks(s[n..], width);
      assert NoLineTerminator(s[n..]) by {
        forall i | 0 <= i < |s[n..]| ensures !IsLineTerminator(s[n..][i]) {
          assert s[n..][i] == s[n + i];
        }
      }
      ChunksFull(s[n..], width);
      if n < width {
        assert s[n..] == [];
        assert rest == [];
      }
      forall k | 0 <= k < |[s[..n]] + rest| - 1 ensures |([s[..n]] + rest)[k]| == width {
        if k > 0 {
          assert ([s[..n]] + rest)[k] == rest[k - 1];
        }
      }
    }
  }

  /** Only text made of line terminators (or empty) gives no match. */
  lemma {:induction false} ChunksEmpty(s: string, width: nat)
    requires width > 0
    ensures Chunks(s, width) == [] <==> forall i :: 0 <= i < |s| ==> IsLineTerminator(s[i])
    decreases |s|
  {
    if s != [] && IsLineTerminator(s[0]) {
      ChunksEmpty(s[1..], width);
      forall i | 0 < i < |s| ensures s[1..][i - 1] == s[i] { }
    }
  }

  /** `formatSequence` on a sequence without line breaks: empty text comes
    * back unchanged; otherwise its lines are 1 to 60 characters long, all
    * but the last exactly 60, and deleting the inserted newlines gives the
    * sequence back. */
  lemma FormatSequenceLines(sequence: string)
    requires NoLineTerminator(sequence)
    ensures sequence == [] ==> FormatSequence(sequence, 60) == []
    ensures sequence != [] ==>
      var lines := Split(FormatSequence(sequence, 60), '\n');
      && Concat(lines) == sequence
      && (forall k :: 0 <= k < |lines| ==> 1 <= |lines[k]| <= 60)
      && (forall k :: 0 <= k < |lines| - 1 ==> |lines[k]| == 60)
  {
    if sequence != [] {
      var chunks := Chunks(sequence, 60);
      ChunksEmpty(sequence, 60);
      assert !IsLineTerminator(sequence[0]);
      forall k | 0 <= k < |chunks| ensures '\n' !in chunks[k] {
        assert NoLineTerminator(chunks[k]);
      }
      SplitJoin(chunks, '\n');
      ChunksConcat(sequence, 60);
      DropLineTerminatorsOfPlain(sequence);
      ChunksFull(sequence, 60);
    }
  }

  // ------------------------------------------------------------ score colours

  /** The three evaluation scores the screen shows. */
  datatype ScoreKind = AverageDistance | Ratio | WeakestLink

  /** The colour classes `getScoreColor` returns. */
  datatype Color = Green | Yellow | Red {
    function ClassName(): string {
      match this
      case Green => "text-green-600"
      case Yellow => "text-yellow-600"
      case Red => "text-red-600"
    }

    /** Red < Yellow < Green. */
    function Rank(): nat {
      match this
      case Red => 0
      case Yellow => 1
      case Green => 2
    }
  }

  /** `getScoreColor`. */
  function ScoreColor(score: real, kind: ScoreKind): Color {
    match kind
    case AverageDistance =>
      if score >= 0.8 then Green else if score >= 0.6 then Yellow else Red
    case Ratio =>
      if 40.0 <= score <= 60.0 then Green else if 30.0 <= score <= 70.0 then Yellow else Red
    case WeakestLink =>
      if score >= 0.7 then Green else if score >= 0.5 then Yellow else Red
  }

  /** For the two distance scores a higher score never gets a worse colour. */
  lemma ScoreColorMonotone(a: real, b: real, kind: ScoreKind)
    requires kind != Ratio && a <= b
    ensures ScoreColor(a, kind).Rank() <= ScoreColor(b, kind).Rank()
  {
  }

  /** The ratio's colour depends only on its distance from 50, and a ratio
    * closer to 50 never gets a worse colour. */
  lemma RatioColorByDistance(a: real, b: real)
    ensures ScoreColor(50.0 + a, Ratio) == ScoreColor(50.0 - a, Ratio)
    ensures (if a < 0.0 then -a else a) <= (if b < 0.0 then -b else b) ==>
      ScoreColor(50.0 + b, Ratio).Rank() <= ScoreColor(50.0 + a, Ratio).Rank()
  {
  }

  /** The colours' thresholds: each boundary value gets the better colour. */
  lemma ScoreColorThresholds()
    ensures ScoreColor(0.8, AverageDistance) == Green && ScoreColor(0.6, AverageDistance) == Yellow
    ensures ScoreColor(40.0, Ratio) == Green && ScoreColor(60.0, Ratio) == Green
    ensures ScoreColor(30.0, Ratio) == Yellow && ScoreColor(70.0, Ratio) == Yellow
    ensures ScoreColor(0.7, WeakestLink) == Green && ScoreColor(0.5, WeakestLink) == Yellow
  {
  }

  /** `getScoreBadgeVariant`: from the word in the colour's class name. */
  function BadgeVariant(score: real, kind: ScoreKind): (r: string)
    ensures r == "default" <==> ScoreColor(score, kind) == Green
    ensures r == "secondary" <==> ScoreColor(score, kind) == Yellow
    ensures r == "destructive" <==> ScoreColor(score, kind) == Red
  {
    match ScoreColor(score, kind)
    case Green => "default"
    case Yellow => "secondary"
    case Red => "destructive"
  }

  // ------------------------------------------------------------ method label

  /** `method.replace(/_/g, " ").toUpperCase()`. */
  function MethodLabel(name: string): (r: string)
    ensures |r| == |name|
    ensures forall i :: 0 <= i < |name| ==>
      r[i] == if name[i] == '_' then ' ' else UpperChar(name[i])
  {
    ToUpper(seq(|name|, i requires 0 <= i < |name| => if name[i] == '_' then ' ' else name[i]))
  }

  /** The label has no underscore and no lower-case ASCII letter, and it is
    * its own label. */
  lemma MethodLabelNormal(name: string)
    ensures forall i :: 0 <= i < |MethodLabel(name)| ==>
      MethodLabel(name)[i] != '_' && !('a' <= MethodLabel(name)[i] <= 'z')
    ensures MethodLabel(MethodLabel(name)) == MethodLabel(name)
  {
  }
}
