/** First-occurrence tag extraction with the semantics of the JavaScript
    call `text.match(/<tag>(.*?)<\/tag>/)` (no flags): the engine tries start
    positions left to right; at a start where `<tag>` occurs it lets the lazy
    `.*?` grow one character at a time, where `.` matches anything except a
    line terminator, until `</tag>` follows. The first start that succeeds
    wins, and the capture is the shortest content at that start. */
module TagMatch {
  import opened Wrappers
  import opened Text

  /** The characters JavaScript's `.` refuses without the `s` flag. */
  predicate IsLineTerminator(c: char) {
    c == '\n' || c == '\r' || c == '\U{2028}' || c == '\U{2029}'
  }

  function Open(tag: string): string { "<" + tag + ">" }

  function Close(tag: string): string { "</" + tag + ">" }

  /** `text[a..b]` is a valid index range holding no line terminator, so
      `.*` can consume it. */
  ghost predicate Clear(text: string, a: int, b: int) {
    0 <= a <= b <= |text| && forall m :: a <= m < b ==> !IsLineTerminator(text[m])
  }

  /** The pattern matches with the opening tag at `i` and the closing tag
      at `k`; the capture is `text[i + |open|..k]`. */
  ghost predicate IsMatch(text: string, open: string, close: string, i: int, k: int) {
    StartsWithAt(text, i, open) && Clear(text, i + |open|, k) && StartsWithAt(text, k, close)
  }

  /** `(i, k)` is the match the regex engine reports: no match starts
      earlier, and none at the same start closes earlier. */
  ghost predicate IsFirstMatch(text: string, open: string, close: string, i: int, k: int) {
    && IsMatch(text, open, close, i, k)
    && forall i', k' :: IsMatch(text, open, close, i', k') ==> i < i' || (i == i' && k <= k')
  }

  /** Some match of `<tag>…</tag>` exists in `text`. */
  ghost predicate HasTag(text: string, tag: string) {
    exists i, k :: IsMatch(text, Open(tag), Close(tag), i, k)
  }

  /** `v` is what `text.match(/<tag>(.*?)<\/tag>/)[1]` evaluates to. */
  ghost predicate FieldIs(text: string, tag: string, v: string) {
    exists i, k :: IsFirstMatch(text, Open(tag), Close(tag), i, k) && text[i + |Open(tag)|..k] == v
  }

  /** `v` is `m ? m[1] : default` for `m = text.match(/<tag>(.*?)<\/tag>/)`. */
  ghost predicate FieldOr(text: string, tag: string, v: string, default: string) {
    FieldIs(text, tag, v) || (!HasTag(text, tag) && v == default)
  }

  /** The lazy `.*?` step: the nearest `close` reachable from `j` without
      crossing a line terminator. */
  function CloseFrom(text: string, close: string, j: nat): (r: Option<nat>)
    requires j <= |text|
    ensures r.Some? ==> Clear(text, j, r.value) && StartsWithAt(text, r.value, close)
    ensures r.Some? ==> forall k :: j <= k < r.value ==> !StartsWithAt(text, k, close)
    ensures r.None? ==> forall k :: Clear(text, j, k) ==> !StartsWithAt(text, k, close)
    decreases |text| - j
  {
    if StartsWithAt(text, j, close) then Some(j)
    else if j == |text| || IsLineTerminator(text[j]) then None
    else CloseFrom(text, close, j + 1)
  }

  /** The closing position of the match starting at `i`, if one does. */
  function MatchAt(text: string, open: string, close: string, i: nat): (r: Option<nat>)
    requires i <= |text|
    ensures r.Some? ==> IsMatch(text, open, close, i, r.value)
    ensures r.Some? ==> forall k :: IsMatch(text, open, close, i, k) ==> r.value <= k
    ensures r.None? ==> forall k :: !IsMatch(text, open, close, i, k)
  {
    if StartsWithAt(text, i, open) then CloseFrom(text, close, i + |open|) else None
  }

  /** The leftmost start at or after `i` from which the pattern matches. */
  function FirstMatchFrom(text: string, open: string, close: string, i: nat): (r: Option<(nat, nat)>)
    requires i <= |text|
    ensures r.Some? ==> i <= r.value.0 && IsMatch(text, open, close, r.value.0, r.value.1)
    ensures r.Some? ==> forall i', k' :: i <= i' && IsMatch(text, open, close, i', k') ==>
                          r.value.0 < i' || (r.value.0 == i' && r.value.1 <= k')
    ensures r.None? ==> forall i', k' :: i <= i' ==> !IsMatch(text, open, close, i', k')
    decreases |text| - i
  {
    match MatchAt(text, open, close, i)
    case Some(k) => Some((i, k))
    case None => if i == |text| then None else FirstMatchFrom(text, open, close, i + 1)
  }

  /** Two first matches are the same match. */
  lemma FirstMatchUnique(text: string, open: string, close: string, i: int, k: int, i': int, k': int)
    requires IsFirstMatch(text, open, close, i, k)
    requires IsFirstMatch(text, open, close, i', k')
    ensures i == i' && k == k'
  {
  }

  /** `text.match(/<tag>(.*?)<\/tag>/)`, reduced to its capture group. */
  function Extract(tag: string, text: string): (r: Option<string>)
    ensures r.Some? <==> HasTag(text, tag)
    ensures forall v {:trigger FieldIs(text, tag, v)} :: FieldIs(text, tag, v) <==> r == Some(v)
  {
    var open, close := Open(tag), Close(tag);
    match FirstMatchFrom(text, open, close, 0)
    case None => None
    case Some((i, k)) =>
      assert IsFirstMatch(text, open, close, i, k);
      forall v | FieldIs(text, tag, v)
        ensures v == text[i + |open|..k]
      {
        var i', k' :| IsFirstMatch(text, open, close, i', k') && text[i' + |open|..k'] == v;
        FirstMatchUnique(text, open, close, i, k, i', k');
      }
      Some(text[i + |open|..k])
  }

  /** `m ? m[1] : default` agrees with the declarative reading. */
  function ExtractOr(tag: string, text: string, default: string): (v: string)
    ensures FieldOr(text, tag, v, default)
  {
    Extract(tag, text).GetOr(default)
  }

  /** Embedding `v` as the element `<tag>v</tag>` and extracting the tag
      gives `v` back, provided no earlier `<tag>` opens, `v` holds no line
      terminator, and no `</tag>` starts inside `v`. */
  lemma {:induction false} FieldOfElement(prefix: string, tag: string, v: string, suffix: string)
    requires var xml := prefix + Open(tag) + v + Close(tag) + suffix;
             && (forall i :: 0 <= i < |prefix| ==> !StartsWithAt(xml, i, Open(tag)))
             && (forall m :: 0 <= m < |v| ==> !IsLineTerminator(v[m]))
             && (forall k :: |prefix| + |Open(tag)| <= k < |prefix| + |Open(tag)| + |v| ==>
                               !StartsWithAt(xml, k, Close(tag)))
    ensures FieldIs(prefix + Open(tag) + v + Close(tag) + suffix, tag, v)
  {
    var open, close := Open(tag), Close(tag);
    var xml := prefix + open + v + close + suffix;
    var i, j := |prefix|, |prefix| + |open|;
    var k := j + |v|;
    assert xml[i..j] == open;
    assert xml[j..k] == v;
    assert xml[k..k + |close|] == close;
    assert Clear(xml, j, k) by {
      forall m | j <= m < k
        ensures !IsLineTerminator(xml[m])
      {
        assert xml[m] == v[m - j];
      }
    }
    assert IsMatch(xml, open, close, i, k);
    forall i', k' | IsMatch(xml, open, close, i', k')
      ensures i < i' || (i == i' && k <= k')
    {
    }
    assert IsFirstMatch(xml, open, close, i, k);
  }
}
