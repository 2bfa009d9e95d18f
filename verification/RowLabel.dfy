/** Spreadsheet-style row letters: 0 is "A", 25 is "Z", 26 is "AA". */
module RowLabel {

  function Letter(d: nat): char
    requires d < 26
  {
    ('A' as int + d) as char
  }

  function LabelOf(index: nat): string {
    if index < 26 then [Letter(index)]
    else LabelOf(index / 26 - 1) + [Letter(index % 26)]
  }

  method RowLabel(index: nat) returns (text: string)
    ensures text == LabelOf(index)
  {
    var n: int := index;
    text := "";
    while true
      invariant n >= 0 && LabelOf(n) + text == LabelOf(index)
      decreases n
    {
      var digit := [Letter(n % 26)];
      assert n >= 26 ==> LabelOf(n) + text == LabelOf(n / 26 - 1) + (digit + text);
      text := digit + text;
      n := n / 26 - 1;
      if n < 0 {
        break;
      }
    }
  }

  predicate IsLabel(s: string) {
    s != "" && forall k :: 0 <= k < |s| ==> 'A' <= s[k] <= 'Z'
  }

  /** Bijective base 26, the digits A to Z standing for 1 to 26. */
  function Value(s: string): nat
    requires s != "" ==> IsLabel(s)
  {
    if s == "" then 0 else Value(s[..|s| - 1]) * 26 + (s[|s| - 1] as int - 'A' as int + 1)
  }

  function IndexOf(s: string): nat
    requires IsLabel(s)
  {
    Value(s) - 1
  }

  lemma {:induction false} DecodingUndoesLabelling(index: nat)
    ensures IsLabel(LabelOf(index)) && IndexOf(LabelOf(index)) == index
  {
    if index < 26 {
      assert LabelOf(index)[..0] == "";
      assert Value("") == 0;
    } else {
      var front := LabelOf(index / 26 - 1);
      DecodingUndoesLabelling(index / 26 - 1);
      assert LabelOf(index)[..|front|] == front;
    }
  }

  lemma {:induction false} LabellingUndoesDecoding(s: string)
    requires IsLabel(s)
    ensures LabelOf(IndexOf(s)) == s
  {
    var front := s[..|s| - 1];
    var digit := s[|s| - 1] as int - 'A' as int;
    assert s == front + [s[|s| - 1]];
    if front == "" {
      assert Value(front) == 0;
    } else {
      LabellingUndoesDecoding(front);
      assert IndexOf(s) == (IndexOf(front) + 1) * 26 + digit;
      assert IndexOf(s) / 26 == IndexOf(front) + 1 && IndexOf(s) % 26 == digit;
    }
  }

  /** Length first, then alphabetical from the left. */
  predicate Before(a: string, b: string) {
    |a| < |b| || (|a| == |b| && exists k :: 0 <= k < |a| && a[..k] == b[..k] && a[k] < b[k])
  }

  lemma {:induction false} ShorterIsSmaller(a: string, b: string)
    requires IsLabel(a) && IsLabel(b) && |a| < |b|
    ensures Value(a) < Value(b)
  {
    var fa, fb := a[..|a| - 1], b[..|b| - 1];
    if fa != "" {
      ShorterIsSmaller(fa, fb);
    }
  }

  lemma {:induction false} AlphabeticalIsSmaller(a: string, b: string, k: nat)
    requires IsLabel(a) && IsLabel(b) && |a| == |b| && k < |a| && a[..k] == b[..k] && a[k] < b[k]
    ensures Value(a) < Value(b)
  {
    var last := |a| - 1;
    if k == last {
      assert a[..last] == b[..last];
    } else {
      assert a[..last][..k] == a[..k] && b[..last][..k] == b[..k];
      AlphabeticalIsSmaller(a[..last], b[..last], k);
    }
  }

  lemma {:induction false} FirstDifference(a: string, b: string) returns (k: nat)
    requires |a| == |b| && a != b
    ensures k < |a| && a[..k] == b[..k] && a[k] != b[k]
  {
    var last := |a| - 1;
    assert a == a[..last] + [a[last]] && b == b[..last] + [b[last]];
    if a[..last] == b[..last] {
      k := last;
    } else {
      k := FirstDifference(a[..last], b[..last]);
      assert a[..last][..k] == a[..k] && b[..last][..k] == b[..k];
    }
  }

  /** The order of labels is the order of rows, both ways. */
  lemma LabelsAreOrdered(i: nat, j: nat)
    ensures i < j <==> Before(LabelOf(i), LabelOf(j))
  {
    var a, b := LabelOf(i), LabelOf(j);
    DecodingUndoesLabelling(i);
    DecodingUndoesLabelling(j);
    if |a| < |b| {
      ShorterIsSmaller(a, b);
    } else if |b| < |a| {
      ShorterIsSmaller(b, a);
    } else if a != b {
      var k := FirstDifference(a, b);
      if a[k] < b[k] {
        AlphabeticalIsSmaller(a, b, k);
      } else {
        AlphabeticalIsSmaller(b, a, k);
      }
    }
    if Before(a, b) && |a| == |b| {
      var k :| 0 <= k < |a| && a[..k] == b[..k] && a[k] < b[k];
      AlphabeticalIsSmaller(a, b, k);
    }
  }

  /** Different rows never share a label. */
  lemma LabelsAreDistinct(i: nat, j: nat)
    requires LabelOf(i) == LabelOf(j)
    ensures i == j
  {
    DecodingUndoesLabelling(i);
    DecodingUndoesLabelling(j);
  }
}
