/** The few text operations of the Go standard library that the models use. */
module Text {
  import opened Wrappers

  predicate IsSpace(c: char) {
    c == ' ' || '\t' <= c <= '\r' || c == '\U{85}' || c == '\U{A0}' || c == '\U{1680}' || '\U{2000}' <= c <= '\U{200A}'
    || c == '\U{2028}' || c == '\U{2029}' || c == '\U{202F}' || c == '\U{205F}' || c == '\U{3000}'
  }

  function TrimLeft(s: string): string {
    if s != [] && IsSpace(s[0]) then TrimLeft(s[1..]) else s
  }

  function TrimRight(s: string): string {
    if s != [] && IsSpace(s[|s| - 1]) then TrimRight(s[..|s| - 1]) else s
  }

  function TrimSpace(s: string): string {
    TrimRight(TrimLeft(s))
  }

  /** Split around the first occurrence of a character. */
  function Cut(s: string, c: char): Option<(string, string)> {
    if s == [] then None
    else if s[0] == c then Some(("", s[1..]))
    else
      match Cut(s[1..], c)
      case None => None
      case Some((before, after)) => Some(([s[0]] + before, after))
  }

  lemma {:induction false} CutAt(before: string, c: char, after: string)
    requires c !in before
    ensures Cut(before + [c] + after, c) == Some((before, after))
    decreases |before|
  {
    var s := before + [c] + after;
    if before != [] {
      assert s[1..] == before[1..] + [c] + after;
      CutAt(before[1..], c, after);
      assert [s[0]] + before[1..] == before;
    } else {
      assert s[1..] == after;
    }
  }

  lemma NothingToTrim(s: string)
    requires s != "" && !IsSpace(s[0]) && !IsSpace(s[|s| - 1])
    ensures TrimSpace(s) == s
  {
  }

  predicate AllSpace(s: string) {
    forall i :: 0 <= i < |s| ==> IsSpace(s[i])
  }

  lemma {:induction false} TrimLeftMeans(s: string) returns (k: nat)
    ensures k <= |s| && AllSpace(s[..k]) && TrimLeft(s) == s[k..] && (k < |s| ==> !IsSpace(s[k]))
    decreases |s|
  {
    if s != [] && IsSpace(s[0]) {
      var rest := TrimLeftMeans(s[1..]);
      k := rest + 1;
      assert s[1..][rest..] == s[k..];
      assert s[..k] == [s[0]] + s[1..][..rest];
    } else {
      k := 0;
    }
  }

  lemma {:induction false} TrimRightMeans(s: string) returns (k: nat)
    ensures k <= |s| && AllSpace(s[k..]) && TrimRight(s) == s[..k] && (k > 0 ==> !IsSpace(s[k - 1]))
    decreases |s|
  {
    if s != [] && IsSpace(s[|s| - 1]) {
      var shorter := s[..|s| - 1];
      k := TrimRightMeans(shorter);
      assert shorter[..k] == s[..k];
      assert s[k..] == shorter[k..] + [s[|s| - 1]];
    } else {
      k := |s|;
      assert s[..k] == s;
    }
  }

  /** Exactly the spaces around a string go: what is left neither starts nor ends with one. */
  lemma TrimSpaceMeans(s: string) returns (before: string, after: string)
    ensures s == before + TrimSpace(s) + after && AllSpace(before) && AllSpace(after)
    ensures TrimSpace(s) != "" ==> !IsSpace(TrimSpace(s)[0]) && !IsSpace(TrimSpace(s)[|TrimSpace(s)| - 1])
  {
    var k := TrimLeftMeans(s);
    var m := TrimRightMeans(s[k..]);
    before, after := s[..k], s[k..][m..];
    assert s[k..] == s[k..][..m] + after;
  }

  /** A string is split at the first such character if it has one. */
  lemma {:induction false} CutMeans(s: string, c: char)
    ensures match Cut(s, c)
      case None => c !in s
      case Some((before, after)) => s == before + [c] + after && c !in before
  {
    if s != [] && s[0] != c {
      CutMeans(s[1..], c);
      assert s == [s[0]] + s[1..];
    } else if s != [] {
      assert s == [] + [c] + s[1..];
    }
  }
}
