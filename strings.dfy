/**
 * The few pieces of Go's `strings` package the import pipeline relies on:
 * TrimSpace, HasPrefix, TrimPrefix, HasSuffix and Join, over strings of
 * Unicode code points.
 */
module Strings {

  /** Go's unicode.IsSpace: the six Latin-1 controls and spaces, NEL, NBSP,
      and the code points above U+00FF that carry the White_Space property. */
  predicate IsSpace(c: char) {
    || c == ' ' || c == '\t' || c == '\n' || c == '\U{000B}' || c == '\U{000C}' || c == '\r'
    || c == '\U{0085}' || c == '\U{00A0}' || c == '\U{1680}'
    || ('\U{2000}' <= c <= '\U{200A}')
    || c == '\U{2028}' || c == '\U{2029}' || c == '\U{202F}' || c == '\U{205F}' || c == '\U{3000}'
  }

  predicate AllSpace(s: string) {
    forall i :: 0 <= i < |s| ==> IsSpace(s[i])
  }

  /** Drops the leading white space. */
  function TrimLeft(s: string): string {
    if s != [] && IsSpace(s[0]) then TrimLeft(s[1..]) else s
  }

  /** Drops the trailing white space. */
  function TrimRight(s: string): string {
    if s != [] && IsSpace(s[|s| - 1]) then TrimRight(s[..|s| - 1]) else s
  }

  /** strings.TrimSpace (its properties are stated by `TrimSpaceSpec`). */
  function TrimSpace(s: string): string {
    TrimRight(TrimLeft(s))
  }

  /** What TrimLeft leaves is a suffix of `s` that is empty or starts with a
      non-space, and what it drops is white space. */
  lemma {:induction false} TrimLeftSpec(s: string)
    ensures var r := TrimLeft(s); |r| <= |s| && r == s[|s| - |r|..]
    ensures AllSpace(s[..|s| - |TrimLeft(s)|])
    ensures TrimLeft(s) != [] ==> !IsSpace(TrimLeft(s)[0])
  {
    if s != [] && IsSpace(s[0]) {
      TrimLeftSpec(s[1..]);
      var r := TrimLeft(s);
      assert r == TrimLeft(s[1..]);
      var k := |s| - |r|;
      forall i | 0 <= i < k ensures IsSpace(s[i]) {
        if i > 0 {
          assert s[i] == s[1..][..k - 1][i - 1];
        }
      }
      assert forall i :: 0 <= i < k ==> s[..k][i] == s[i];
    }
  }

  /** What TrimRight leaves is a prefix of `s` that is empty or ends with a
      non-space, and what it drops is white space. */
  lemma {:induction false} TrimRightSpec(s: string)
    ensures var r := TrimRight(s); |r| <= |s| && r == s[..|r|]
    ensures AllSpace(s[|TrimRight(s)|..])
    ensures TrimRight(s) != [] ==> !IsSpace(TrimRight(s)[|TrimRight(s)| - 1])
  {
    if s != [] && IsSpace(s[|s| - 1]) {
      var init := s[..|s| - 1];
      TrimRightSpec(init);
      var r := TrimRight(s);
      assert r == TrimRight(init);
      assert r == s[..|r|] by {
        assert init[..|r|] == s[..|r|];
      }
      forall i | 0 <= i < |s| - |r| ensures IsSpace(s[|r|..][i]) {
        if i < |s| - 1 - |r| {
          assert s[|r|..][i] == init[|r|..][i];
        }
      }
    }
  }

  /** strings.TrimSpace returns the infix of `s` left once the leading and the
      trailing white space are dropped: what it drops on either side is white
      space, it neither starts nor ends with white space, and it is empty
      exactly when `s` is all white space. */
  lemma TrimSpaceSpec(s: string)
    ensures |TrimLeft(s)| <= |s| && var i, r := |s| - |TrimLeft(s)|, TrimSpace(s); i + |r| <= |s| && r == s[i..i + |r|]
    ensures var i, r := |s| - |TrimLeft(s)|, TrimSpace(s); i + |r| <= |s| && AllSpace(s[..i]) && AllSpace(s[i + |r|..])
    ensures TrimSpace(s) != [] ==> !IsSpace(TrimSpace(s)[0]) && !IsSpace(TrimSpace(s)[|TrimSpace(s)| - 1])
    ensures TrimSpace(s) == [] <==> AllSpace(s)
  {
    var l := TrimLeft(s);
    var r := TrimRight(l);
    TrimLeftSpec(s);
    TrimRightSpec(l);
    var i := |s| - |l|;
    assert r == s[i..i + |r|];
    TrimSpaceDropped(s);
    if r == [] {
      forall k | 0 <= k < |s| ensures IsSpace(s[k]) {
        assert s[k] == s[..i][k];
      }
    } else {
      assert !IsSpace(s[i]);
    }
  }

  /** The two ends TrimSpace drops are white space. */
  lemma TrimSpaceDropped(s: string)
    ensures |TrimLeft(s)| <= |s|
    ensures var i, r := |s| - |TrimLeft(s)|, TrimSpace(s); i + |r| <= |s| && AllSpace(s[..i]) && AllSpace(s[i + |r|..])
  {
    var l := TrimLeft(s);
    TrimLeftSpec(s);
    TrimRightSpec(l);
    var i, r := |s| - |l|, TrimRight(l);
    assert s[i + |r|..] == l[|r|..];
  }

  predicate HasPrefix(s: string, prefix: string) {
    |prefix| <= |s| && s[..|prefix|] == prefix
  }

  predicate HasSuffix(s: string, suffix: string) {
    |suffix| <= |s| && s[|s| - |suffix|..] == suffix
  }

  /** strings.TrimPrefix: `s` without `prefix` when it starts with it, else `s`. */
  function TrimPrefix(s: string, prefix: string): (r: string)
    ensures HasPrefix(s, prefix) ==> prefix + r == s
    ensures !HasPrefix(s, prefix) ==> r == s
  {
    if HasPrefix(s, prefix) then s[|prefix|..] else s
  }

  /** strings.Join: the elements with `sep` between consecutive ones. */
  function Join(parts: seq<string>, sep: string): (r: string)
    ensures |parts| == 1 ==> r == parts[0]
  {
    if |parts| == 0 then ""
    else if |parts| == 1 then parts[0]
    else Join(parts[..|parts| - 1], sep) + sep + parts[|parts| - 1]
  }

  /** Trimming a string that has a non-space character leaves a non-empty string. */
  lemma TrimSpaceNonEmpty(s: string, i: nat)
    requires i < |s| && !IsSpace(s[i])
    ensures TrimSpace(s) != []
  {
    TrimSpaceSpec(s);
  }

  /** Trailing white space is dropped. */
  lemma {:induction false} TrimRightPad(s: string, pad: string)
    requires AllSpace(pad)
    ensures TrimRight(s + pad) == TrimRight(s)
    decreases |pad|
  {
    if pad == [] {
      assert s + pad == s;
    } else {
      var t := s + pad;
      assert t[..|t| - 1] == s + pad[..|pad| - 1];
      TrimRightPad(s, pad[..|pad| - 1]);
    }
  }

  /** TrimSpace does not see white space added at the end. */
  lemma {:induction false} TrimSpacePad(s: string, pad: string)
    requires AllSpace(pad)
    ensures TrimSpace(s + pad) == TrimSpace(s)
    decreases |s|
  {
    if s == [] {
      assert s + pad == pad;
      TrimSpaceSpec(pad);
    } else if IsSpace(s[0]) {
      assert (s + pad)[1..] == s[1..] + pad;
      TrimSpacePad(s[1..], pad);
    } else {
      TrimRightPad(s, pad);
    }
  }
}
