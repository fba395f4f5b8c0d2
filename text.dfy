/** String helpers shared by the pipeline: repeated `+=` concatenation and
    Python's `str.lower()` restricted to ASCII letters. */
module Text {

  /** The string built by appending `parts` one after another, left to right. */
  function Concat(parts: seq<string>): string
  {
    if parts == [] then "" else parts[0] + Concat(parts[1..])
  }

  /** Appending one more part at the end is what a `+=` loop step does. */
  lemma {:induction false} ConcatAppend(parts: seq<string>, last: string)
    ensures Concat(parts + [last]) == Concat(parts) + last
  {
    if parts == [] {
      assert parts + [last] == [last];
    } else {
      assert (parts + [last])[1..] == parts[1..] + [last];
      ConcatAppend(parts[1..], last);
    }
  }

  /** Concatenation distributes over splitting the list of parts. */
  lemma {:induction false} ConcatSplit(a: seq<string>, b: seq<string>)
    ensures Concat(a + b) == Concat(a) + Concat(b)
  {
    if a == [] {
      assert a + b == b;
    } else {
      assert (a + b)[1..] == a[1..] + b;
      ConcatSplit(a[1..], b);
    }
  }

  /** Part `k` sits, unchanged, right after the parts before it. */
  lemma ConcatSlice(parts: seq<string>, k: nat)
    requires k < |parts|
    ensures |Concat(parts[..k])| + |parts[k]| <= |Concat(parts)|
    ensures Concat(parts)[|Concat(parts[..k])|..|Concat(parts[..k])| + |parts[k]|] == parts[k]
  {
    assert parts == parts[..k] + ([parts[k]] + parts[k + 1..]);
    ConcatSplit(parts[..k], [parts[k]] + parts[k + 1..]);
    ConcatSplit([parts[k]], parts[k + 1..]);
    assert Concat([parts[k]]) == parts[k] by {
      assert [parts[k]][1..] == [];
    }
  }

  /** Everything that part `k` contributes ends before part `j > k` starts. */
  lemma ConcatOrder(parts: seq<string>, k: nat, j: nat)
    requires k < j <= |parts|
    ensures |Concat(parts[..k])| + |parts[k]| <= |Concat(parts[..j])|
  {
    assert parts[..j] == parts[..k] + ([parts[k]] + parts[k + 1..j]);
    ConcatSplit(parts[..k], [parts[k]] + parts[k + 1..j]);
    ConcatSplit([parts[k]], parts[k + 1..j]);
    assert Concat([parts[k]]) == parts[k] by {
      assert [parts[k]][1..] == [];
    }
  }

  /** The concatenation is empty exactly when every part is. */
  lemma {:induction false} ConcatEmptyIff(parts: seq<string>)
    ensures Concat(parts) == "" <==> forall i :: 0 <= i < |parts| ==> parts[i] == ""
  {
    if parts != [] {
      ConcatEmptyIff(parts[1..]);
      assert forall i :: 1 <= i < |parts| ==> parts[i] == parts[1..][i - 1];
    }
  }

  /** `str.lower()` on one character, for the ASCII letters A-Z. */
  function LowerChar(c: char): char
  {
    if 'A' <= c <= 'Z' then (c as int - 'A' as int + 'a' as int) as char else c
  }

  function Lower(s: string): string
  {
    seq(|s|, i requires 0 <= i < |s| => LowerChar(s[i]))
  }

  /** Lowering keeps the positions of the dots. */
  lemma LowerKeepsDots(s: string)
    ensures |Lower(s)| == |s|
    ensures forall j :: 0 <= j < |s| ==> (Lower(s)[j] == '.' <==> s[j] == '.')
  {
  }

  /** Lowering works suffix by suffix. */
  lemma LowerSuffix(s: string, i: nat)
    requires i <= |s|
    ensures Lower(s[i..]) == Lower(s)[i..]
  {
  }
}
