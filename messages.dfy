/** The "Organism k: message" numbering both front-ends' `validateSubmission` use. */
module Messages {
  import opened Text

  function Label(k: nat, error: string): string {
    "Organism " + NatToString(k) + ": " + error
  }

  /** The messages of organism number `k`, each prefixed with "Organism k: ". */
  function NumberedMessages(k: nat, errors: seq<string>): (r: seq<string>)
    ensures |r| == |errors|
    ensures forall j :: 0 <= j < |errors| ==> r[j] == Label(k, errors[j])
  {
    seq(|errors|, j requires 0 <= j < |errors| => Label(k, errors[j]))
  }

  /** The messages of a list of organisms, given as one error list per organism,
    * numbered from 1 in list order. */
  function Numbered(lists: seq<seq<string>>): seq<string> {
    if lists == [] then []
    else Numbered(lists[..|lists| - 1]) + NumberedMessages(|lists|, lists[|lists| - 1])
  }

  /** Nothing is reported exactly when no organism has an error. */
  lemma {:induction false} NumberedEmpty(lists: seq<seq<string>>)
    ensures Numbered(lists) == [] <==> forall i :: 0 <= i < |lists| ==> lists[i] == []
  {
    if lists != [] {
      var n := |lists|;
      var prefix := lists[..n - 1];
      NumberedEmpty(prefix);
      assert Numbered(lists) == Numbered(prefix) + NumberedMessages(n, lists[n - 1]);
      if Numbered(lists) == [] {
        forall i | 0 <= i < n ensures lists[i] == [] {
          if i < n - 1 {
            assert prefix[i] == lists[i];
          }
        }
      } else if Numbered(prefix) != [] {
        var i :| 0 <= i < n - 1 && prefix[i] != [];
        assert lists[i] != [];
      }
    }
  }

  /** Error `j` of the organism at 0-based position `i` is reported as
    * "Organism (i+1): error". */
  lemma {:induction false} NumberedContains(lists: seq<seq<string>>, i: nat, j: nat)
    requires i < |lists| && j < |lists[i]|
    ensures "Organism " + NatToString(i + 1) + ": " + lists[i][j] in Numbered(lists)
  {
    var n := |lists|;
    if i == n - 1 {
      assert NumberedMessages(n, lists[n - 1])[j] == "Organism " + NatToString(i + 1) + ": " + lists[i][j];
    } else {
      assert lists[..n - 1][i] == lists[i];
      NumberedContains(lists[..n - 1], i, j);
    }
  }

  /** Numbering the lists one more organism at a time, as the validators' loop does. */
  lemma NumberedStep(lists: seq<seq<string>>, index: nat)
    requires index < |lists|
    ensures Numbered(lists[..index + 1]) == Numbered(lists[..index]) + NumberedMessages(index + 1, lists[index])
  {
    assert lists[..index + 1][..index] == lists[..index];
  }

  /** One turn of the validators' organism loop: appending the messages of
    * the organism at position `index` extends the numbering by one organism. */
  lemma NumberedExtend(before: seq<string>, lists: seq<seq<string>>, index: nat, prev: seq<string>, next: seq<string>)
    requires index < |lists|
    requires prev == before + Numbered(lists[..index])
    requires next == prev + NumberedMessages(index + 1, lists[index])
    ensures next == before + Numbered(lists[..index + 1])
  {
    NumberedStep(lists, index);
  }

  /** The inner `forEach` of both validators' `validateSubmission`: push each
    * message of one organism, prefixed with its number. */
  method PushNumbered(errors: seq<string>, k: nat, messages: seq<string>) returns (r: seq<string>)
    ensures r == errors + NumberedMessages(k, messages)
  {
    r := errors;
    var j := 0;
    while j < |messages|
      invariant 0 <= j <= |messages|
      invariant r == errors + NumberedMessages(k, messages[..j])
    {
      assert NumberedMessages(k, messages[..j + 1])
        == NumberedMessages(k, messages[..j]) + [Label(k, messages[j])];
      r := r + [Label(k, messages[j])];
      j := j + 1;
    }
    assert messages[..j] == messages;
  }
}
