/** Trimming text, and cutting joined text apart again. */
module Text {

  /** Unicode's White_Space, as strings.TrimSpace sees it. */
  predicate IsSpace(c: char) {
    || c in {'\t', '\n', '\U{B}', '\U{C}', '\r', ' ', '\U{85}', '\U{A0}', '\U{1680}'}
    || '\U{2000}' <= c <= '\U{200A}'
    || c in {'\U{2028}', '\U{2029}', '\U{202F}', '\U{205F}', '\U{3000}'}
  }

  function TrimLeft(s: string): string {
    if s != "" && IsSpace(s[0]) then TrimLeft(s[1..]) else s
  }

  function TrimRight(s: string): string {
    if s != "" && IsSpace(s[|s| - 1]) then TrimRight(s[..|s| - 1]) else s
  }

  function TrimSpace(s: string): string { TrimRight(TrimLeft(s)) }

  /** Text joined with a separator can be cut apart in one way only, at the first separator. */
  lemma CutUnique<T>(a: seq<T>, b: seq<T>, a': seq<T>, b': seq<T>, separator: T)
    requires separator !in a && separator !in a'
    requires a + [separator] + b == a' + [separator] + b'
    ensures a == a' && b == b'
  {
    var whole := a + [separator] + b;
    assert whole[|a|] == separator && forall i :: 0 <= i < |a| ==> whole[i] == a[i];
    assert whole[|a'|] == separator && forall i :: 0 <= i < |a'| ==> whole[i] == a'[i];
    assert |a| == |a'|;
    assert a == whole[..|a|] && a' == whole[..|a'|];
    assert b == whole[|a| + 1..] && b' == whole[|a'| + 1..];
  }

  predicate StandsAt(part: string, s: string, k: nat) {
    k + |part| <= |s| && s[k..k + |part|] == part
  }

  /** `part` stands somewhere in `s`. */
  ghost predicate Occurs(part: string, s: string) {
    exists k :: StandsAt(part, s, k)
  }

  lemma SameCut(a: string, b: string, a': string, b': string, separator: string)
    requires separator != "" && separator[0] !in separator[1..]
    requires !Occurs(separator, a') && |a| <= |a'|
    requires a + separator + b == a' + separator + b'
    ensures |a| == |a'|
  {
    var whole := a + separator + b;
    assert whole[|a|..|a| + |separator|] == separator;
    assert forall k :: 0 <= k < |separator| ==> whole[|a| + k] == separator[k] && whole[|a'| + k] == separator[k];
    assert forall k :: 1 <= k < |separator| ==> separator[1..][k - 1] == separator[k];
    if |a| + |separator| <= |a'| {
      assert StandsAt(separator, a', |a|) by {
        assert a'[|a|..|a| + |separator|] == whole[|a|..|a| + |separator|];
      }
    } else {
      assert whole[|a'|] == separator[0];
    }
  }

  /** Text joined with a longer separator: as `CutUnique`, when the separator occurs in neither first part. */
  lemma CutAtUnique(a: string, b: string, a': string, b': string, separator: string)
    requires separator != "" && separator[0] !in separator[1..]
    requires !Occurs(separator, a) && !Occurs(separator, a')
    requires a + separator + b == a' + separator + b'
    ensures a == a' && b == b'
  {
    if |a| <= |a'| {
      SameCut(a, b, a', b', separator);
    } else {
      SameCut(a', b', a, b, separator);
    }
    var whole := a + separator + b;
    assert a == whole[..|a|] && a' == whole[..|a|];
    assert b == whole[|a| + |separator|..] && b' == whole[|a| + |separator|..];
  }
}
