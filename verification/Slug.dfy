// Workspace slugs (normalizeSlug in internal/workspaces/service.go).
module Slug {
  import opened Base
  import opened Text

  // unicode.ToLower: fixed on ASCII, left open elsewhere.
  datatype Folding = Folding(other: char -> char) {
    function Lower(c: char): char {
      if 'A' <= c <= 'Z' then c + 32 as char
      else if c < '\U{0080}' then c
      else other(c)
    }
  }

  predicate Alnum(c: char) {
    'a' <= c <= 'z' || '0' <= c <= '9'
  }

  predicate IsHyphen(c: char) {
    c == '-'
  }

  function ToLower(f: Folding, s: string): string {
    seq(|s|, i requires 0 <= i < |s| => f.Lower(s[i]))
  }

  // ---- The pipeline ----

  function SpacesToHyphens(s: string): string {
    seq(|s|, i requires 0 <= i < |s| => if s[i] == ' ' then '-' else s[i])
  }

  // [^a-z0-9-]+ to nothing
  function Strip(s: string): string {
    if s == "" then ""
    else if Alnum(Last(s)) || Last(s) == '-' then Strip(Front(s)) + [Last(s)]
    else Strip(Front(s))
  }

  // -+ to -
  function Collapse(s: string): string {
    if s == "" then ""
    else
      var done := Collapse(Front(s));
      if Last(s) == '-' && done != "" && Last(done) == '-' then done else done + [Last(s)]
  }

  function Derive(f: Folding, name: string): string {
    Trim(Collapse(Strip(SpacesToHyphens(ToLower(f, name)))), IsHyphen)
  }

  // The pattern ^[a-z0-9]+(?:-[a-z0-9]+)*$, as a left-to-right match.
  predicate MatchesPattern(s: string) {
    s != "" && Alnum(s[0]) && MatchesRest(s[1..])
  }

  predicate MatchesRest(s: string) {
    || s == ""
    || (Alnum(s[0]) && MatchesRest(s[1..]))
    || (|s| > 1 && s[0] == '-' && Alnum(s[1]) && MatchesRest(s[2..]))
  }

  // The slug, or none for ErrInvalidSlug.
  function NormalizeSlug(f: Folding, raw: string, name: string): Option<string> {
    var given := TrimSpace(ToLower(f, raw));
    var slug := if given == "" then Derive(f, name) else given;
    if slug == "" || !MatchesPattern(slug) then None else Some(slug)
  }

  // ---- What a slug is: words joined by single hyphens ----

  predicate Word(w: string) {
    w != "" && forall i :: 0 <= i < |w| ==> Alnum(w[i])
  }

  predicate Words(ws: seq<string>) {
    forall i :: 0 <= i < |ws| ==> Word(ws[i])
  }

  function Hyphenate(ws: seq<string>): string {
    if |ws| == 0 then ""
    else if |ws| == 1 then ws[0]
    else Hyphenate(Front(ws)) + "-" + Last(ws)
  }

  // The words of a name: spaces and hyphens end a word, other characters outside a-z0-9 vanish.
  // The flag says that the last word is still open.
  function Scan(s: string): (seq<string>, bool) {
    if s == "" then ([], false)
    else
      var (ws, open) := Scan(Front(s));
      var c := Last(s);
      if Alnum(c) then (if open && ws != [] then Front(ws) + [Last(ws) + [c]] else ws + [[c]], true)
      else if c == ' ' || c == '-' then (ws, false)
      else (ws, open)
  }

  lemma {:induction false} ScanWords(s: string)
    ensures Words(Scan(s).0) && (Scan(s).1 ==> Scan(s).0 != [])
  {
    if s != "" {
      ScanWords(Front(s));
    }
  }

  // ---- The language of the pattern ----

  lemma {:induction false} HyphenateGrow(ws: seq<string>, c: char)
    requires ws != []
    ensures Hyphenate(Front(ws) + [Last(ws) + [c]]) == Hyphenate(ws) + [c]
  {
    var more := Front(ws) + [Last(ws) + [c]];
    assert Front(more) == Front(ws);
  }

  lemma HyphenateAppend(ws: seq<string>, w: string)
    ensures Hyphenate(ws + [w]) == if ws == [] then w else Hyphenate(ws) + "-" + w
  {
    assert Front(ws + [w]) == ws;
  }

  lemma {:induction false} HyphenateEnds(ws: seq<string>)
    requires ws != [] && Words(ws)
    ensures var s := Hyphenate(ws); s != "" && Alnum(s[0]) && Alnum(Last(s))
  {
    if |ws| > 1 {
      HyphenateEnds(Front(ws));
      assert Word(Last(ws));
    } else {
      assert Word(ws[0]);
    }
  }

  // Matching what follows a matched part.
  lemma {:induction false} RestAppend(s: string, t: string)
    requires MatchesRest(s) && MatchesRest(t)
    ensures MatchesRest(s + t)
    decreases |s|
  {
    if s == "" {
      assert s + t == t;
    } else if Alnum(s[0]) {
      assert (s + t)[1..] == s[1..] + t;
      RestAppend(s[1..], t);
    } else {
      assert (s + t)[2..] == s[2..] + t;
      RestAppend(s[2..], t);
    }
  }

  lemma {:induction false} WordMatches(w: string)
    requires forall i :: 0 <= i < |w| ==> Alnum(w[i])
    ensures MatchesRest(w)
  {
    if w != "" {
      WordMatches(w[1..]);
    }
  }

  lemma {:induction false} HyphenateMatches(ws: seq<string>)
    requires ws != [] && Words(ws)
    ensures MatchesPattern(Hyphenate(ws))
  {
    assert Word(Last(ws));
    if |ws| == 1 {
      WordMatches(ws[0][1..]);
    } else {
      HyphenateMatches(Front(ws));
      var head, tail := Hyphenate(Front(ws)), "-" + Last(ws);
      WordMatches(Last(ws)[1..]);
      assert tail[2..] == Last(ws)[1..];
      assert MatchesRest(tail);
      RestAppend(head[1..], tail);
      assert Hyphenate(ws)[1..] == head[1..] + tail;
    }
  }

  lemma {:induction false} RestHyphenates(ws: seq<string>, s: string) returns (all: seq<string>)
    requires ws != [] && Words(ws) && MatchesRest(s)
    ensures all != [] && Words(all) && Hyphenate(all) == Hyphenate(ws) + s
    decreases |s|
  {
    if s == "" {
      all := ws;
    } else if Alnum(s[0]) {
      HyphenateGrow(ws, s[0]);
      assert Word(Last(ws));
      all := RestHyphenates(Front(ws) + [Last(ws) + [s[0]]], s[1..]);
      assert Hyphenate(ws) + [s[0]] + s[1..] == Hyphenate(ws) + s;
    } else {
      HyphenateAppend(ws, [s[1]]);
      all := RestHyphenates(ws + [[s[1]]], s[2..]);
      assert Hyphenate(ws) + "-" + [s[1]] + s[2..] == Hyphenate(ws) + s;
    }
  }

  // The pattern accepts exactly the words joined by single hyphens.
  lemma PatternIsWords(s: string)
    ensures MatchesPattern(s) <==> exists ws :: ws != [] && Words(ws) && Hyphenate(ws) == s
  {
    if MatchesPattern(s) {
      assert Word([s[0]]);
      var all := RestHyphenates([[s[0]]], s[1..]);
      assert [s[0]] + s[1..] == s;
    }
    forall ws | ws != [] && Words(ws) && Hyphenate(ws) == s
      ensures MatchesPattern(s)
    {
      HyphenateMatches(ws);
    }
  }

  // ---- The pipeline finds the words of the name ----

  // What the pipeline has made of a string before the final trim.
  predicate Shape(c: string, ws: seq<string>, open: bool) {
    OrHyphen(c, if ws == [] || open then Hyphenate(ws) else Hyphenate(ws) + "-")
  }

  predicate OrHyphen(c: string, text: string) {
    c == text || c == "-" + text
  }

  lemma OrHyphenMore(c: string, text: string, more: char)
    requires OrHyphen(c, text)
    ensures OrHyphen(c + [more], text + [more])
  {
    assert "-" + text + [more] == "-" + (text + [more]);
  }

  function Squeeze(s: string): string {
    Collapse(Strip(SpacesToHyphens(s)))
  }

  lemma SqueezeStep(s: string)
    requires s != ""
    ensures var c, done := Last(s), Squeeze(Front(s));
      Squeeze(s) == if Alnum(c) then done + [c]
                    else if c == ' ' || c == '-' then (if done != "" && Last(done) == '-' then done else done + "-")
                    else done
  {
    assert Front(SpacesToHyphens(s)) == SpacesToHyphens(Front(s));
    var c, stripped := Last(s), Strip(SpacesToHyphens(Front(s)));
    if Alnum(c) {
      assert Front(stripped + [c]) == stripped;
    } else if c == ' ' || c == '-' {
      assert Front(stripped + "-") == stripped;
    }
  }

  // What follows a letter or digit, and what follows a space or hyphen.
  lemma ShapeLetter(done: string, ws: seq<string>, open: bool, c: char)
    requires Shape(done, ws, open) && (open ==> ws != [])
    ensures Shape(done + [c], if open then Front(ws) + [Last(ws) + [c]] else ws + [[c]], true)
  {
    OrHyphenMore(done, if ws == [] || open then Hyphenate(ws) else Hyphenate(ws) + "-", c);
    if open {
      HyphenateGrow(ws, c);
    } else {
      HyphenateAppend(ws, [c]);
    }
    hide Hyphenate, OrHyphen;
    assert "" + [c] == [c];
  }

  lemma ShapeGap(done: string, ws: seq<string>, open: bool)
    requires Shape(done, ws, open) && Words(ws) && (open ==> ws != [])
    ensures Shape(if done != "" && Last(done) == '-' then done else done + "-", ws, false)
  {
    if ws != [] {
      HyphenateEnds(ws);
      hide Hyphenate, Words;
      OrHyphenMore(done, if open then Hyphenate(ws) else Hyphenate(ws) + "-", '-');
    }
  }

  lemma {:induction false} SqueezeShape(s: string)
    ensures Shape(Squeeze(s), Scan(s).0, Scan(s).1)
  {
    if s != "" {
      SqueezeShape(Front(s));
      ScanWords(Front(s));
      SqueezeStep(s);
      hide Squeeze, Shape, Words;
      var (ws, open) := Scan(Front(s));
      ShapeLetter(Squeeze(Front(s)), ws, open, Last(s));
      ShapeGap(Squeeze(Front(s)), ws, open);
    } else {
      assert Squeeze(s) == "";
    }
  }

  lemma TrimShape(c: string, ws: seq<string>, open: bool)
    requires Shape(c, ws, open) && Words(ws)
    ensures Trim(c, IsHyphen) == Hyphenate(ws)
  {
    hide Trim;
    if ws == [] {
      TrimAway(c, IsHyphen);
    } else {
      HyphenateEnds(ws);
      hide Hyphenate;
      var text, after := Hyphenate(ws), if open then "" else "-";
      TrimOf("", text, after, IsHyphen);
      TrimOf("-", text, after, IsHyphen);
      var tail := if open then text else text + "-";
      assert tail == text + after && "" + text + after == tail && "-" + text + after == "-" + tail;
    }
  }

  // The derived slug is the words of the name joined by hyphens.
  lemma DeriveIsWords(f: Folding, name: string)
    ensures Derive(f, name) == Hyphenate(Scan(ToLower(f, name)).0)
  {
    hide Scan, Shape, Words, Collapse, Strip, Trim, SpacesToHyphens, ToLower, Hyphenate;
    var s := ToLower(f, name);
    SqueezeShape(s);
    ScanWords(s);
    TrimShape(Squeeze(s), Scan(s).0, Scan(s).1);
  }

  lemma {:induction false} ScanEmpty(s: string)
    ensures Scan(s).0 == [] <==> forall i :: 0 <= i < |s| ==> !Alnum(s[i])
  {
    if s != "" {
      ScanEmpty(Front(s));
      assert forall i :: 0 <= i < |s| - 1 ==> Front(s)[i] == s[i];
      assert s[|s| - 1] == Last(s);
    }
  }

  // ---- Main results ----

  lemma LetterCases(f: Folding, name: string)
    ensures forall i :: 0 <= i < |name| ==> var c := name[i];
      !Alnum(f.Lower(c)) <==>
        && !('a' <= c <= 'z') && !('A' <= c <= 'Z') && !('0' <= c <= '9')
        && (c >= '\U{0080}' ==> !('a' <= f.other(c) <= 'z') && !('0' <= f.other(c) <= '9'))
  {
  }

  // The same but for the case of letters a to z.
  predicate SameButCase(s: string, t: string) {
    |s| == |t| && forall i :: 0 <= i < |s| ==>
      || s[i] == t[i]
      || ('a' <= s[i] <= 'z' && t[i] as int == s[i] as int - 32)
      || ('a' <= t[i] <= 'z' && s[i] as int == t[i] as int - 32)
  }

  lemma CaseVanishes(f: Folding, s: string, t: string)
    requires SameButCase(s, t)
    ensures ToLower(f, s) == ToLower(f, t)
  {
  }

  lemma CaseIsIgnored(f: Folding, raw: string, raw': string, name: string, name': string)
    requires SameButCase(raw, raw') && SameButCase(name, name')
    ensures NormalizeSlug(f, raw, name) == NormalizeSlug(f, raw', name')
  {
    CaseVanishes(f, raw, raw');
    CaseVanishes(f, name, name');
  }

  // A given slug is taken as it is, trimmed and in lower case, or refused; the name does not matter.
  lemma GivenBranch(f: Folding, raw: string, name: string)
    requires TrimSpace(ToLower(f, raw)) != ""
    ensures var given := TrimSpace(ToLower(f, raw));
      NormalizeSlug(f, raw, name) ==
        if exists ws :: ws != [] && Words(ws) && Hyphenate(ws) == given then Some(given) else None
  {
    PatternIsWords(TrimSpace(ToLower(f, raw)));
  }

  // Without a given slug, the only names refused are those without a letter or digit once in lower
  // case; every other name gives a slug of the language.
  lemma NameBranch(f: Folding, raw: string, name: string)
    requires TrimSpace(ToLower(f, raw)) == ""
    ensures NormalizeSlug(f, raw, name).None? <==> forall i :: 0 <= i < |name| ==> !Alnum(f.Lower(name[i]))
    ensures NormalizeSlug(f, raw, name).None? <==> forall i :: 0 <= i < |name| ==>
      var c := name[i];
      && !('a' <= c <= 'z') && !('A' <= c <= 'Z') && !('0' <= c <= '9')
      && (c >= '\U{0080}' ==> !('a' <= f.other(c) <= 'z') && !('0' <= f.other(c) <= '9'))
    ensures NormalizeSlug(f, raw, name).Some? ==>
      NormalizeSlug(f, raw, name).value == Hyphenate(Scan(ToLower(f, name)).0)
    ensures Derive(f, name) == "" || MatchesPattern(Derive(f, name))
  {
    LetterCases(f, name);
    var s := ToLower(f, name);
    DeriveIsWords(f, name);
    ScanEmpty(s);
    ScanWords(s);
    if Scan(s).0 != [] {
      HyphenateMatches(Scan(s).0);
    }
    assert forall i :: 0 <= i < |name| ==> s[i] == f.Lower(name[i]);
  }

  lemma {:induction false} RestFixed(s: string)
    requires MatchesRest(s)
    ensures forall i :: 0 <= i < |s| ==> Alnum(s[i]) || s[i] == '-'
    ensures s != "" ==> Alnum(Last(s))
    decreases |s|
  {
    if s != "" {
      var k := if Alnum(s[0]) then 1 else 2;
      RestFixed(s[k..]);
      assert forall i :: k <= i < |s| ==> s[i] == s[k..][i - k];
    }
  }

  lemma ScanAlnum(s: string, c: char)
    requires Alnum(c)
    ensures var (ws, open) := Scan(s);
      Scan(s + [c]) == (if open && ws != [] then Front(ws) + [Last(ws) + [c]] else ws + [[c]], true)
  {
    assert Front(s + [c]) == s;
  }

  // The words of a slug are the words it was joined from.
  lemma {:induction false} ScanWord(s: string, w: string)
    requires w != "" && (forall i :: 0 <= i < |w| ==> Alnum(w[i])) && !Scan(s).1
    ensures Scan(s + w) == (Scan(s).0 + [w], true)
  {
    hide Scan;
    var front, c := Front(w), Last(w);
    assert front + [c] == w && s + front + [c] == s + w;
    ScanAlnum(s + front, c);
    if |w| == 1 {
      assert s + front == s && [c] == w;
    } else {
      ScanWord(s, front);
      assert Front(Scan(s).0 + [front]) == Scan(s).0;
    }
  }

  lemma {:induction false} ScanHyphenated(ws: seq<string>)
    requires ws != [] && Words(ws)
    ensures Scan(Hyphenate(ws)) == (ws, true)
  {
    assert Word(Last(ws));
    if |ws| == 1 {
      ScanWord("", ws[0]);
      assert "" + ws[0] == ws[0];
      assert [] + [ws[0]] == ws;
    } else {
      ScanHyphenated(Front(ws));
      var head := Hyphenate(Front(ws)) + "-";
      assert Front(head) == Hyphenate(Front(ws));
      assert Scan(head) == (Front(ws), false);
      ScanWord(head, Last(ws));
      assert Front(ws) + [Last(ws)] == ws;
    }
  }

  // An accepted slug is accepted as it is, given as the slug or, with a blank slug, as the name.
  lemma AcceptedIsFixed(f: Folding, raw: string, name: string, blank: string, other: string)
    requires NormalizeSlug(f, raw, name).Some? && TrimSpace(ToLower(f, blank)) == ""
    ensures var slug := NormalizeSlug(f, raw, name).value;
      NormalizeSlug(f, slug, other) == Some(slug) && NormalizeSlug(f, blank, slug) == Some(slug)
  {
    var slug := NormalizeSlug(f, raw, name).value;
    RestFixed(slug[1..]);
    assert forall i :: 1 <= i < |slug| ==> slug[i] == slug[1..][i - 1];
    assert ToLower(f, slug) == slug;
    assert TrimSpace(slug) == slug by {
      TrimOf("", slug, "", IsSpace);
      assert "" + slug + "" == slug;
    }
    PatternIsWords(slug);
    var ws :| ws != [] && Words(ws) && Hyphenate(ws) == slug;
    ScanHyphenated(ws);
    DeriveIsWords(f, slug);
  }
}
