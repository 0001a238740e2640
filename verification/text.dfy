/** String primitives the route handlers rely on: substring tests
    (`String.prototype.includes`), and joining/splitting on a separator
    (`Array.prototype.join`, `String.prototype.split`). */
module Text {
  import opened Wrappers

  /** `p` occurs in `text` starting at index `i`. */
  predicate StartsWithAt(text: string, i: int, p: string) {
    0 <= i && i + |p| <= |text| && text[i..i + |p|] == p
  }

  /** `p` occurs somewhere in `text`. */
  ghost predicate Occurs(text: string, p: string) {
    exists i :: StartsWithAt(text, i, p)
  }

  function ContainsFrom(text: string, p: string, i: nat): (r: bool)
    requires i <= |text|
    ensures r <==> exists k :: i <= k && StartsWithAt(text, k, p)
    decreases |text| - i
  {
    if StartsWithAt(text, i, p) then true
    else if i == |text| then false
    else ContainsFrom(text, p, i + 1)
  }

  /** `text.includes(p)`. */
  function Contains(text: string, p: string): (r: bool)
    ensures r <==> Occurs(text, p)
  {
    ContainsFrom(text, p, 0)
  }

  /** Index of the first occurrence of `c`, if any. */
  function IndexOf(s: string, c: char): (r: Option<nat>)
    ensures r.None? <==> c !in s
    ensures r.Some? ==> r.value < |s| && s[r.value] == c && c !in s[..r.value]
  {
    if |s| == 0 then None
    else if s[0] == c then Some(0)
    else
      match IndexOf(s[1..], c)
      case None => None
      case Some(i) =>
        assert s[..i + 1] == [s[0]] + s[1..][..i];
        Some(i + 1)
  }

  /** The first `c` after a `c`-free prefix is the one that ends it. */
  lemma IndexOfAfter(a: string, c: char, rest: string)
    requires c !in a
    ensures IndexOf(a + [c] + rest, c) == Some(|a|)
  {
    var s := a + [c] + rest;
    assert s[|a|] == c;
  }

  /** `parts.join(sep)`. */
  function Join(parts: seq<string>, sep: char): string
  {
    if |parts| == 0 then ""
    else if |parts| == 1 then parts[0]
    else parts[0] + [sep] + Join(parts[1..], sep)
  }

  /** `s.split(sep)`: always at least one piece, no piece contains `sep`. */
  function Split(s: string, sep: char): (pieces: seq<string>)
    ensures |pieces| >= 1
    ensures forall k :: 0 <= k < |pieces| ==> sep !in pieces[k]
    decreases |s|
  {
    match IndexOf(s, sep)
    case None => [s]
    case Some(i) => [s[..i]] + Split(s[i + 1..], sep)
  }

  /** Joining and then splitting gives back the parts, provided no part
      contains the separator: the receiver of a `&`-joined query string
      sees exactly the fields that were joined. */
  lemma {:induction false} SplitJoin(parts: seq<string>, sep: char)
    requires |parts| >= 1
    requires forall k :: 0 <= k < |parts| ==> sep !in parts[k]
    ensures Split(Join(parts, sep), sep) == parts
    decreases |parts|
  {
    if |parts| == 1 {
      assert sep !in parts[0];
    } else {
      var rest := Join(parts[1..], sep);
      var s := Join(parts, sep);
      assert s == parts[0] + [sep] + rest;
      IndexOfAfter(parts[0], sep, rest);
      assert s[..|parts[0]|] == parts[0];
      assert s[|parts[0]| + 1..] == rest;
      assert Split(s, sep) == [parts[0]] + Split(rest, sep);
      assert forall k :: 0 <= k < |parts[1..]| ==> parts[1..][k] == parts[k + 1];
      SplitJoin(parts[1..], sep);
      assert parts == [parts[0]] + parts[1..];
    }
  }

  /** Splitting and then joining gives back the string. */
  lemma {:induction false} JoinSplit(s: string, sep: char)
    ensures Join(Split(s, sep), sep) == s
    decreases |s|
  {
    match IndexOf(s, sep)
    case None =>
    case Some(i) =>
      var tail := Split(s[i + 1..], sep);
      JoinSplit(s[i + 1..], sep);
      assert Split(s, sep) == [s[..i]] + tail;
      assert ([s[..i]] + tail)[1..] == tail;
      assert s == s[..i] + [sep] + s[i + 1..];
  }

  /** Appending one separator-free field adds exactly one piece at the end. */
  lemma SplitAppend(s: string, sep: char, t: string)
    requires sep !in t
    ensures Split(s + [sep] + t, sep) == Split(s, sep) + [t]
  {
    var parts := Split(s, sep);
    JoinSplit(s, sep);
    JoinSnoc(parts, sep, t);
    var all := parts + [t];
    assert forall k :: 0 <= k < |all| ==> sep !in all[k] by {
      forall k | 0 <= k < |all|
        ensures sep !in all[k]
      {
        if k < |parts| {
          assert all[k] == parts[k];
        }
      }
    }
    SplitJoin(all, sep);
  }

  /** Joining one more part appends a separator and that part. */
  lemma {:induction false} JoinSnoc(parts: seq<string>, sep: char, last: string)
    requires |parts| >= 1
    ensures Join(parts + [last], sep) == Join(parts, sep) + [sep] + last
    decreases |parts|
  {
    if |parts| > 1 {
      assert (parts + [last])[1..] == parts[1..] + [last];
      JoinSnoc(parts[1..], sep, last);
    }
  }
}
