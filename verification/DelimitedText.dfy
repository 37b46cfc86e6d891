/** Lists kept in one text: parts joined by a separator, read back by trimming and splitting. */
module DelimitedText {

  function Join(parts: seq<string>, sep: char): string {
    if parts == [] then "" else if |parts| == 1 then parts[0] else parts[0] + [sep] + Join(parts[1..], sep)
  }

  /** The first separator at or after `i`, or the end of the text. */
  function Find(s: string, sep: char, i: nat): (n: nat)
    requires i <= |s|
    ensures i <= n <= |s| && (forall j | i <= j < n :: s[j] != sep) && (n < |s| ==> s[n] == sep)
    decreases |s| - i
  {
    if i == |s| || s[i] == sep then i else Find(s, sep, i + 1)
  }

  function Split(s: string, sep: char): seq<string>
    decreases |s|
  {
    var n := Find(s, sep, 0);
    if n == |s| then [s] else [s[..n]] + Split(s[n + 1..], sep)
  }

  function TrimLeft(s: string, sep: char): (r: string)
    ensures r != "" ==> r[0] != sep
  {
    if s != "" && s[0] == sep then TrimLeft(s[1..], sep) else s
  }

  function TrimRight(s: string, sep: char): (r: string)
    ensures r != "" ==> r[|r| - 1] != sep && s != "" && r[0] == s[0]
  {
    if s != "" && s[|s| - 1] == sep then TrimRight(s[..|s| - 1], sep) else s
  }

  function Trim(s: string, sep: char): (r: string)
    ensures r != "" ==> r[0] != sep && r[|r| - 1] != sep
  {
    TrimRight(TrimLeft(s, sep), sep)
  }

  predicate Free(part: string, sep: char) {
    forall i | 0 <= i < |part| :: part[i] != sep
  }

  ghost predicate AllFree(parts: seq<string>, sep: char) {
    forall i | 0 <= i < |parts| :: Free(parts[i], sep)
  }

  /** No part holds the separator and neither the first nor the last is empty. */
  ghost predicate Storable(parts: seq<string>, sep: char) {
    parts != [] && AllFree(parts, sep) && parts[0] != "" && parts[|parts| - 1] != ""
  }

  lemma {:induction false} SplitPieces(s: string, sep: char)
    ensures Split(s, sep) != [] && AllFree(Split(s, sep), sep)
    ensures s != "" && s[0] != sep ==> Split(s, sep)[0] != ""
    ensures s != "" && s[|s| - 1] != sep ==> Split(s, sep)[|Split(s, sep)| - 1] != ""
    decreases |s|
  {
    var n := Find(s, sep, 0);
    if n < |s| {
      SplitPieces(s[n + 1..], sep);
    }
  }

  lemma FindFirst(a: string, sep: char, rest: string)
    requires Free(a, sep)
    ensures Find(a + [sep] + rest, sep, 0) == |a|
  {
    var s := a + [sep] + rest;
    assert s[|a|] == sep;
    assert forall j | 0 <= j < |a| :: s[j] == a[j];
  }

  lemma {:induction false} SplitJoin(parts: seq<string>, sep: char)
    requires parts != [] && AllFree(parts, sep)
    ensures Split(Join(parts, sep), sep) == parts
    decreases |parts|
  {
    var a := parts[0];
    assert Free(a, sep);
    if |parts| == 1 {
      assert Find(a, sep, 0) == |a|;
    } else {
      var rest := Join(parts[1..], sep);
      SplitJoin(parts[1..], sep);
      FindFirst(a, sep, rest);
      var s := a + [sep] + rest;
      assert s[..|a|] == a && s[|a| + 1..] == rest;
      assert parts == [a] + parts[1..];
    }
  }

  lemma {:induction false} JoinEdges(parts: seq<string>, sep: char)
    requires parts != []
    ensures parts[0] != "" ==> Join(parts, sep) != "" && Join(parts, sep)[0] == parts[0][0]
    ensures var last, s := parts[|parts| - 1], Join(parts, sep); last != "" ==> s != "" && s[|s| - 1] == last[|last| - 1]
    decreases |parts|
  {
    if |parts| > 1 {
      JoinEdges(parts[1..], sep);
    }
  }

  /** A list read back from its text is the list that was stored exactly when the list is storable. */
  lemma StoredIffStorable(parts: seq<string>, sep: char)
    requires Join(parts, sep) != ""
    ensures Split(Trim(Join(parts, sep), sep), sep) == parts <==> Storable(parts, sep)
  {
    var s := Join(parts, sep);
    var t := Trim(s, sep);
    assert Split("", sep) == [""];
    SplitPieces(t, sep);
    if Storable(parts, sep) {
      JoinEdges(parts, sep);
      assert Free(parts[0], sep) && Free(parts[|parts| - 1], sep);
      assert TrimLeft(s, sep) == s && TrimRight(s, sep) == s;
      SplitJoin(parts, sep);
    }
  }
}
