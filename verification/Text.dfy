/** String operations of the command line's parsers. */
module Text {
  import opened Base

  /** The first index holding the character, or the length. */
  function IndexOf(s: string, c: char): (i: nat)
    ensures i <= |s| && (i < |s| ==> s[i] == c) && c !in s[..i]
  {
    if s == [] || s[0] == c then 0
    else
      assert forall i: nat | i <= |s[1..]| :: s[..i + 1] == [s[0]] + s[1..][..i];
      1 + IndexOf(s[1..], c)
  }

  function StripPrefix(s: string, p: string): Option<string>
  {
    if p <= s then Some(s[|p|..]) else None
  }

  function DropPrefix(s: string, p: string): string { if p <= s then s[|p|..] else s }

  predicate EndsWith(s: string, p: string) { |p| <= |s| && s[|s| - |p|..] == p }

  function DropSuffix(s: string, p: string): string { if EndsWith(s, p) then s[..|s| - |p|] else s }

  /** The last index holding the character, if any. */
  function LastIndexOf(s: string, c: char): (r: Option<nat>)
    ensures r.None? <==> c !in s
    ensures r.Some? ==> r.value < |s| && s[r.value] == c && c !in s[r.value + 1..]
  {
    if s == [] then None
    else if s[|s| - 1] == c then Some(|s| - 1)
    else
      var init := s[..|s| - 1];
      assert s == init + [s[|s| - 1]];
      var r := LastIndexOf(init, c);
      assert r.Some? ==> s[r.value + 1..] == init[r.value + 1..] + [s[|s| - 1]];
      r
  }

  function TrimStart(isSpace: char -> bool, s: string): string
  {
    if s != [] && isSpace(s[0]) then TrimStart(isSpace, s[1..]) else s
  }

  function TrimEnd(isSpace: char -> bool, s: string): string
  {
    if s != [] && isSpace(s[|s| - 1]) then TrimEnd(isSpace, s[..|s| - 1]) else s
  }

  function Trim(isSpace: char -> bool, s: string): string { TrimEnd(isSpace, TrimStart(isSpace, s)) }

  predicate Blank(isSpace: char -> bool, s: string) { forall i | 0 <= i < |s| :: isSpace(s[i]) }

  /** Neither end is white space. */
  predicate Tight(isSpace: char -> bool, s: string)
  {
    s != "" ==> !isSpace(s[0]) && !isSpace(s[|s| - 1])
  }

  lemma {:induction false} TrimStartDrops(isSpace: char -> bool, a: string, s: string)
    requires Blank(isSpace, a) && (s != "" ==> !isSpace(s[0]))
    ensures TrimStart(isSpace, a + s) == s
    decreases |a|
  {
    if a == "" {
      assert a + s == s;
    } else {
      assert (a + s)[1..] == a[1..] + s;
      TrimStartDrops(isSpace, a[1..], s);
    }
  }

  lemma {:induction false} TrimEndDrops(isSpace: char -> bool, s: string, b: string)
    requires Blank(isSpace, b) && (s != "" ==> !isSpace(s[|s| - 1]))
    ensures TrimEnd(isSpace, s + b) == s
    decreases |b|
  {
    if b == "" {
      assert s + b == s;
    } else {
      var n := |b| - 1;
      assert (s + b)[..|s + b| - 1] == s + b[..n];
      TrimEndDrops(isSpace, s, b[..n]);
    }
  }

  /** Trimming removes exactly the white space around the rest. */
  lemma TrimDrops(isSpace: char -> bool, a: string, s: string, b: string)
    requires Blank(isSpace, a) && Blank(isSpace, b) && Tight(isSpace, s)
    ensures Trim(isSpace, a + s + b) == s
  {
    if s == "" {
      assert Blank(isSpace, a + b);
      assert a + s + b == (a + b) + "";
      TrimStartDrops(isSpace, a + b, "");
    } else {
      assert a + s + b == a + (s + b);
      assert (s + b)[0] == s[0];
      TrimStartDrops(isSpace, a, s + b);
      TrimEndDrops(isSpace, s, b);
    }
  }

  lemma {:induction false} TrimStartSplits(isSpace: char -> bool, s: string) returns (a: string)
    ensures Blank(isSpace, a) && s == a + TrimStart(isSpace, s)
    ensures TrimStart(isSpace, s) != "" ==> !isSpace(TrimStart(isSpace, s)[0])
  {
    a := "";
    if s != "" && isSpace(s[0]) {
      a := TrimStartSplits(isSpace, s[1..]);
      a := [s[0]] + a;
    }
  }

  lemma {:induction false} TrimEndSplits(isSpace: char -> bool, s: string) returns (b: string)
    ensures Blank(isSpace, b) && s == TrimEnd(isSpace, s) + b
    ensures TrimEnd(isSpace, s) != "" ==>
              TrimEnd(isSpace, s)[0] == s[0] && !isSpace(TrimEnd(isSpace, s)[|TrimEnd(isSpace, s)| - 1])
  {
    b := "";
    if s != "" && isSpace(s[|s| - 1]) {
      var init := s[..|s| - 1];
      b := TrimEndSplits(isSpace, init);
      assert s == init + [s[|s| - 1]];
      b := b + [s[|s| - 1]];
    }
  }

  /** So any text is what trimming leaves, with white space around it. */
  lemma TrimSplits(isSpace: char -> bool, s: string) returns (a: string, b: string)
    ensures Blank(isSpace, a) && Blank(isSpace, b) && Tight(isSpace, Trim(isSpace, s))
    ensures s == a + Trim(isSpace, s) + b
  {
    a := TrimStartSplits(isSpace, s);
    b := TrimEndSplits(isSpace, TrimStart(isSpace, s));
  }

  lemma IndexIs(s: string, c: char, k: nat)
    requires k < |s| && s[k] == c && c !in s[..k]
    ensures IndexOf(s, c) == k
  {
    var found, before := s[..IndexOf(s, c)], s[..k];
    assert forall j | 0 <= j < |found| :: found[j] == s[j];
    assert forall j | 0 <= j < k :: before[j] == s[j];
  }

  lemma IndexNone(s: string, c: char)
    requires c !in s
    ensures IndexOf(s, c) == |s|
  {
  }
}
