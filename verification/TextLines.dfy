/** Splitting text at line feeds. */
module TextLines {
  predicate OneLine(s: string) { '\n' !in s }

  function LineEnd(s: string): (n: nat)
    ensures n <= |s| && OneLine(s[..n]) && (n < |s| ==> s[n] == '\n')
  {
    if s == [] || s[0] == '\n' then 0 else
    var n := LineEnd(s[1..]);
    assert s[..n + 1] == [s[0]] + s[1..][..n];
    n + 1
  }

  function Lines(s: string): seq<string>
    decreases |s|
  {
    var n := LineEnd(s);
    if n == |s| then [s] else [s[..n]] + Lines(s[n + 1..])
  }

  lemma LinesOfOneLine(s: string, tail: string)
    requires OneLine(s)
    ensures Lines(s) == [s]
    ensures Lines(s + "\n" + tail) == [s] + Lines(tail)
  {
    LineEndOf(s, "");
    assert s + "" == s;
    var t := s + "\n" + tail;
    LineEndOf(s, "\n" + tail);
    assert t == s + ("\n" + tail);
    assert t[..|s|] == s && t[|s| + 1..] == tail;
  }

  lemma {:induction false} LineEndOf(s: string, tail: string)
    requires OneLine(s) && (tail == "" || tail[0] == '\n')
    ensures LineEnd(s + tail) == |s|
  {
    if s != [] {
      assert (s + tail)[1..] == s[1..] + tail;
      LineEndOf(s[1..], tail);
    }
  }
}
