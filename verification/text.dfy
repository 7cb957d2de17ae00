/** The few string functions of Go's standard library the services rely on.
    A char is a code point; lengths are counted in UTF-8 bytes, as len does. */
module Text {
  predicate IsSpace(c: char) {
    c in {' ', '\t', '\n', '\U{000B}', '\U{000C}', '\r', '\U{0085}', '\U{00A0}', '\U{1680}',
          '\U{2028}', '\U{2029}', '\U{202F}', '\U{205F}', '\U{3000}'}
    || '\U{2000}' <= c <= '\U{200A}'
  }

  function TrimLeft(s: string): string {
    if s != [] && IsSpace(s[0]) then TrimLeft(s[1..]) else s
  }

  function TrimRight(s: string): string {
    if s != [] && IsSpace(s[|s| - 1]) then TrimRight(s[..|s| - 1]) else s
  }

  function TrimSpace(s: string): string { TrimRight(TrimLeft(s)) }

  function TrimPrefix(s: string, prefix: string): string {
    if prefix <= s then s[|prefix|..] else s
  }

  function Width(c: char): nat {
    if c < '\U{0080}' then 1 else if c < '\U{0800}' then 2 else if c < '\U{10000}' then 3 else 4
  }

  function ByteLen(s: string): nat {
    if s == [] then 0 else Width(s[0]) + ByteLen(s[1..])
  }

  predicate IsDigit(c: char) { '0' <= c <= '9' }

  predicate AllDigits(s: string) { forall i | 0 <= i < |s| :: IsDigit(s[i]) }

  lemma {:induction false} DigitsByteLen(s: string)
    requires AllDigits(s)
    ensures ByteLen(s) == |s|
  {
    if s != [] { DigitsByteLen(s[1..]); }
  }

  lemma {:induction false} ByteLenConcat(s: string, t: string)
    ensures ByteLen(s + t) == ByteLen(s) + ByteLen(t)
  {
    if s == [] {
      assert s + t == t;
    } else {
      assert (s + t)[1..] == s[1..] + t;
      ByteLenConcat(s[1..], t);
    }
  }

  // ASCII lower case, character by character.
  function LowerChar(c: char): char {
    if 'A' <= c <= 'Z' then ((c as int) + 32) as char else c
  }

  function Lower(s: string): string {
    if s == [] then [] else [LowerChar(s[0])] + Lower(s[1..])
  }

  function UpperChar(c: char): char {
    if 'a' <= c <= 'z' then ((c as int) - 32) as char else c
  }

  function Upper(s: string): string {
    if s == [] then [] else [UpperChar(s[0])] + Upper(s[1..])
  }

  // A text cut at its first separator has one head and one rest.
  lemma CutIsUnique(sep: char, h: string, x: string, g: string, y: string)
    requires sep !in h && sep !in g && h + [sep] + x == g + [sep] + y
    ensures h == g && x == y
  {
    var s, t := h + [sep] + x, g + [sep] + y;
    assert forall i | 0 <= i < |h| :: s[i] == h[i];
    assert forall i | 0 <= i < |g| :: t[i] == g[i];
    assert s[|h|] == sep && t[|g|] == sep;
    assert |h| == |g|;
    assert s[..|h|] == h && t[..|g|] == g;
    assert s[|h| + 1..] == x && t[|g| + 1..] == y;
  }

  /* ---------- what trimming and folding return ---------- */

  predicate AllSpace(s: string) { forall i | 0 <= i < |s| :: IsSpace(s[i]) }

  // Text that neither starts nor ends with a space.
  predicate Bare(s: string) { s != "" ==> !IsSpace(s[0]) && !IsSpace(s[|s| - 1]) }

  lemma {:induction false} TrimLeftDrops(lead: string, s: string)
    requires AllSpace(lead) && (s != "" ==> !IsSpace(s[0]))
    ensures TrimLeft(lead + s) == s
  {
    if lead == "" {
      assert lead + s == s;
    } else {
      assert (lead + s)[1..] == lead[1..] + s;
      TrimLeftDrops(lead[1..], s);
    }
  }

  lemma {:induction false} TrimRightDrops(s: string, trail: string)
    requires AllSpace(trail) && (s != "" ==> !IsSpace(s[|s| - 1]))
    ensures TrimRight(s + trail) == s
  {
    if trail == "" {
      assert s + trail == s;
    } else {
      var n := |trail| - 1;
      assert (s + trail)[..|s + trail| - 1] == s + trail[..n];
      TrimRightDrops(s, trail[..n]);
    }
  }

  /** TrimSpace keeps exactly what stands between the outer spaces. */
  lemma TrimSpaceKeeps(lead: string, s: string, trail: string)
    requires AllSpace(lead) && AllSpace(trail) && Bare(s)
    ensures TrimSpace(lead + s + trail) == s
  {
    if s == "" {
      assert lead + s + trail == (lead + trail) + "";
      TrimLeftDrops(lead + trail, "");
      assert TrimRight("") == "";
    } else {
      assert lead + s + trail == lead + (s + trail);
      TrimLeftDrops(lead, s + trail);
      TrimRightDrops(s, trail);
    }
  }

  lemma {:induction false} FoldsEachLetter(s: string)
    ensures |Lower(s)| == |s| && forall i | 0 <= i < |s| :: Lower(s)[i] == LowerChar(s[i])
    ensures |Upper(s)| == |s| && forall i | 0 <= i < |s| :: Upper(s)[i] == UpperChar(s[i])
    ensures ByteLen(Upper(s)) == ByteLen(s)
  {
    if s != "" { FoldsEachLetter(s[1..]); }
  }
}
