/**
 * String helpers shared by the resolvers, the domain helpers and the
 * validation rules: PHP's `explode('.', ...)`, Laravel's `Str::endsWith`,
 * PHP truthiness of strings and the character classes of the validation rules.
 */
module Text {

  /** Index of the first '.' in `s`, or |s| when `s` has none. */
  function DotIndex(s: string): (i: nat)
    ensures i <= |s|
    ensures forall k :: 0 <= k < i ==> s[k] != '.'
    ensures i < |s| ==> s[i] == '.'
  {
    if s == [] || s[0] == '.' then 0 else 1 + DotIndex(s[1..])
  }

  /** `explode('.', s)`: the labels between the dots, in order; never empty. */
  function Explode(s: string): (labels: seq<string>)
    ensures |labels| >= 1
    decreases |s|
  {
    var i := DotIndex(s);
    if i == |s| then [s] else [s[..i]] + Explode(s[i + 1..])
  }

  /** `implode('.', labels)`: the inverse of Explode. */
  function Implode(labels: seq<string>): string
  {
    if |labels| == 0 then ""
    else if |labels| == 1 then labels[0]
    else labels[0] + "." + Implode(labels[1..])
  }

  predicate DotFree(s: string) {
    forall k :: 0 <= k < |s| ==> s[k] != '.'
  }

  /** The first label is exactly the text before the first dot. */
  lemma ExplodeHead(s: string)
    ensures Explode(s)[0] == s[..DotIndex(s)]
    ensures DotFree(Explode(s)[0])
  {
  }

  /** A host splits into one label exactly when it contains no dot. */
  lemma ExplodeSingle(s: string)
    ensures |Explode(s)| == 1 <==> DotFree(s)
  {
    var i := DotIndex(s);
    if i < |s| {
      assert !DotFree(s) by { assert s[i] == '.'; }
      assert |Explode(s)| == 1 + |Explode(s[i + 1..])|;
    }
  }

  /** Every label of Explode is dot-free. */
  lemma {:induction false} ExplodeLabelsDotFree(s: string)
    ensures forall j :: 0 <= j < |Explode(s)| ==> DotFree(Explode(s)[j])
    decreases |s|
  {
    var i := DotIndex(s);
    if i < |s| {
      ExplodeLabelsDotFree(s[i + 1..]);
    }
  }

  /** Joining the labels back with dots gives the original string. */
  lemma {:induction false} ImplodeExplode(s: string)
    ensures Implode(Explode(s)) == s
    decreases |s|
  {
    var i := DotIndex(s);
    if i < |s| {
      var rest := s[i + 1..];
      ImplodeExplode(rest);
      assert Explode(s) == [s[..i]] + Explode(rest);
      assert |Explode(s)| >= 2;
      assert Explode(s)[1..] == Explode(rest);
      assert s == s[..i] + "." + rest;
    }
  }

  /** Splitting dot-free labels joined with dots gives the labels back. */
  lemma {:induction false} ExplodeImplode(labels: seq<string>)
    requires |labels| >= 1
    requires forall j :: 0 <= j < |labels| ==> DotFree(labels[j])
    ensures Explode(Implode(labels)) == labels
  {
    if |labels| == 1 {
      DotIndexOfDotFree(labels[0]);
    } else {
      var head := labels[0];
      var rest := Implode(labels[1..]);
      ExplodeImplode(labels[1..]);
      var s := head + "." + rest;
      assert Implode(labels) == s;
      DotIndexAfter(head, rest);
      ExplodeStep(s, |head|);
      assert s[..|head|] == head;
      assert s[|head| + 1..] == rest;
    }
  }

  lemma ExplodeStep(s: string, i: nat)
    requires i < |s| && DotIndex(s) == i
    ensures Explode(s) == [s[..i]] + Explode(s[i + 1..])
  {
  }

  /** A dot-free first label is split off whole. */
  lemma ExplodeDotted(a: string, b: string)
    requires DotFree(a)
    ensures Explode(a + "." + b) == [a] + Explode(b)
  {
    var h := a + "." + b;
    DotIndexAfter(a, b);
    assert h[..|a|] == a;
    assert h[|a| + 1..] == b;
    ExplodeStep(h, |a|);
  }

  lemma DotIndexOfDotFree(s: string)
    requires DotFree(s)
    ensures DotIndex(s) == |s|
  {
  }

  lemma {:induction false} DotIndexAfter(a: string, b: string)
    requires DotFree(a)
    ensures DotIndex(a + "." + b) == |a|
  {
    if a != [] {
      assert (a + "." + b)[1..] == a[1..] + "." + b;
      DotIndexAfter(a[1..], b);
    }
  }

  /** `Str::endsWith($h, $d)` for one needle: an empty needle never matches. */
  predicate EndsWith(h: string, d: string) {
    d != "" && |d| <= |h| && h[|h| - |d|..] == d
  }

  /** `Str::endsWith($h, $ds)`: some needle of the list is a (plain, not label-aligned) suffix. */
  predicate EndsWithAny(h: string, ds: seq<string>) {
    exists j :: 0 <= j < |ds| && EndsWith(h, ds[j])
  }

  lemma EndsWithConcat(a: string, d: string)
    requires d != ""
    ensures EndsWith(a + d, d)
  {
    assert (a + d)[|a + d| - |d|..] == d;
  }

  /** PHP truthiness of a string: "" and "0" are false. */
  predicate Truthy(s: string) {
    s != "" && s != "0"
  }

  predicate IsLetter(c: char) {
    ('a' <= c <= 'z') || ('A' <= c <= 'Z')
  }

  predicate IsDigit(c: char) {
    '0' <= c <= '9'
  }

  /** Laravel's `alpha`: one or more letters. */
  predicate Alpha(s: string) {
    |s| > 0 && forall k :: 0 <= k < |s| ==> IsLetter(s[k])
  }

  /** Laravel's `alpha_dash`: one or more letters, digits, dashes or underscores. */
  predicate AlphaDash(s: string) {
    |s| > 0 && forall k :: 0 <= k < |s| ==> IsLetter(s[k]) || IsDigit(s[k]) || s[k] == '-' || s[k] == '_'
  }

  predicate IsTrimmed(c: char) {
    c == ' ' || c == '\t' || c == '\n' || c == '\r' || c == '\0' || c == '\U{B}'
  }

  /** A string that `trim` reduces to "" (what `required` rejects). */
  predicate Blank(s: string) {
    forall k :: 0 <= k < |s| ==> IsTrimmed(s[k])
  }
}
