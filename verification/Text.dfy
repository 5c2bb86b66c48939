// Character classes, and the trimming of Go's strings package.
module Text {
  import opened Base

  predicate All(s: string, p: char -> bool) {
    forall i :: 0 <= i < |s| ==> p(s[i])
  }

  predicate IsSpace(c: char) {
    || '\U{0009}' <= c <= '\U{000D}' || c == ' ' || c == '\U{0085}' || c == '\U{00A0}'
    || c == '\U{1680}' || '\U{2000}' <= c <= '\U{200A}' || c == '\U{2028}' || c == '\U{2029}'
    || c == '\U{202F}' || c == '\U{205F}' || c == '\U{3000}'
  }

  function TrimRight(s: string, cut: char -> bool): string {
    if s != "" && cut(Last(s)) then TrimRight(Front(s), cut) else s
  }

  function TrimLeft(s: string, cut: char -> bool): string {
    if s != "" && cut(s[0]) then TrimLeft(s[1..], cut) else s
  }

  function Trim(s: string, cut: char -> bool): string {
    TrimRight(TrimLeft(s, cut), cut)
  }

  function TrimSpace(s: string): string {
    Trim(s, IsSpace)
  }

  lemma {:induction false} TrimLeftOf(before: string, s: string, cut: char -> bool)
    requires All(before, cut) && (s == "" || !cut(s[0]))
    ensures TrimLeft(before + s, cut) == s
  {
    if before == "" {
      assert before + s == s;
    } else {
      TrimLeftOf(before[1..], s, cut);
      assert (before + s)[1..] == before[1..] + s;
    }
  }

  lemma {:induction false} TrimRightOf(s: string, after: string, cut: char -> bool)
    requires All(after, cut) && (s == "" || !cut(Last(s)))
    ensures TrimRight(s + after, cut) == s
  {
    if after == "" {
      assert s + after == s;
    } else {
      TrimRightOf(s, Front(after), cut);
      assert Front(s + after) == s + Front(after);
    }
  }

  // What trimming one side takes away.
  lemma {:induction false} TrimRightSplit(s: string, cut: char -> bool) returns (after: string)
    ensures s == TrimRight(s, cut) + after && All(after, cut)
    ensures TrimRight(s, cut) == "" || !cut(Last(TrimRight(s, cut)))
  {
    if s != "" && cut(Last(s)) {
      after := TrimRightSplit(Front(s), cut);
      after := after + [Last(s)];
    } else {
      after := "";
    }
  }

  lemma {:induction false} TrimLeftSplit(s: string, cut: char -> bool) returns (before: string)
    ensures s == before + TrimLeft(s, cut) && All(before, cut)
    ensures TrimLeft(s, cut) == "" || !cut(TrimLeft(s, cut)[0])
  {
    if s != "" && cut(s[0]) {
      before := TrimLeftSplit(s[1..], cut);
      before := [s[0]] + before;
    } else {
      before := "";
    }
  }

  // Trimming takes away a cut prefix and a cut suffix and nothing else.
  lemma TrimOf(before: string, s: string, after: string, cut: char -> bool)
    requires All(before, cut) && All(after, cut)
    requires s != "" && !cut(s[0]) && !cut(Last(s))
    ensures Trim(before + s + after, cut) == s
  {
    TrimLeftOf(before, s + after, cut);
    assert before + (s + after) == before + s + after;
    TrimRightOf(s, after, cut);
  }

  lemma TrimAway(s: string, cut: char -> bool)
    requires All(s, cut)
    ensures Trim(s, cut) == ""
  {
    TrimLeftOf(s, "", cut);
    assert s + "" == s;
  }
}
