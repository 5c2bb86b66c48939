// Colon-separated strings: strings.Split, strings.SplitN(_, ":", 2) and their inverse.
module Fields {
  import opened Base

  // The index of the first colon, or the length of the string when there is none.
  function FirstColon(s: string): (i: nat)
    ensures i <= |s|
    ensures forall j :: 0 <= j < i ==> s[j] != ':'
    ensures i < |s| ==> s[i] == ':'
  {
    if s == "" || s[0] == ':' then 0 else 1 + FirstColon(s[1..])
  }

  function Split(s: string): (parts: seq<string>)
    ensures |parts| > 0
    decreases |s|
  {
    var i := FirstColon(s);
    if i == |s| then [s] else [s[..i]] + Split(s[i + 1..])
  }

  function Join(parts: seq<string>): string
    requires |parts| > 0
  {
    if |parts| == 1 then parts[0] else parts[0] + ":" + Join(parts[1..])
  }

  predicate Plain(parts: seq<string>) {
    forall i :: 0 <= i < |parts| ==> ':' !in parts[i]
  }

  lemma FirstColonOf(head: string, rest: string)
    requires ':' !in head
    ensures FirstColon(head + ":" + rest) == |head|
  {
    var s := head + ":" + rest;
    assert s[|head|] == ':';
    assert forall j :: 0 <= j < |head| ==> s[j] == head[j];
  }

  // Splitting undoes joining, for every list of separator-free fields.
  lemma {:induction false} SplitJoin(parts: seq<string>)
    requires |parts| > 0 && Plain(parts)
    ensures Split(Join(parts)) == parts
  {
    if |parts| == 1 {
      assert FirstColon(parts[0]) == |parts[0]|;
    } else {
      var head, rest := parts[0], Join(parts[1..]);
      FirstColonOf(head, rest);
      SplitJoin(parts[1..]);
      assert Join(parts)[..|head|] == head;
      assert Join(parts)[|head| + 1..] == rest;
      assert [head] + parts[1..] == parts;
    }
  }

  // What printing a fixed number of fields one after the other amounts to.
  lemma JoinFew(a: string, b: string, c: string, d: string, e: string)
    ensures Join([a, b]) == a + ":" + b
    ensures Join([a, b, c]) == a + ":" + b + ":" + c
    ensures Join([a, b, c, d]) == a + ":" + b + ":" + c + ":" + d
    ensures Join([a, b, c, d, e]) == a + ":" + b + ":" + c + ":" + d + ":" + e
  {
    JoinCons(d, [e]);
    JoinCons(c, [d]);
    JoinCons(c, [d, e]);
    JoinCons(b, [c]);
    JoinCons(b, [c, d]);
    JoinCons(b, [c, d, e]);
    JoinCons(a, [b]);
    JoinCons(a, [b, c]);
    JoinCons(a, [b, c, d]);
    JoinCons(a, [b, c, d, e]);
  }

  lemma JoinCons(head: string, rest: seq<string>)
    requires |rest| > 0
    ensures Join([head] + rest) == head + ":" + Join(rest)
  {
    assert ([head] + rest)[1..] == rest;
  }
}
