/** Lists of strings as one line of text, with newlines, quotes and backslashes escaped as JSON escapes them. */
module WireText {
  import opened TextLines
  import opened Wrappers

  function Escape(c: char): string {
    if c == '\n' then "\\n" else if c == '"' then "\\\"" else if c == '\\' then "\\\\" else [c]
  }

  function EscapeAll(s: string): string { if s == "" then "" else Escape(s[0]) + EscapeAll(s[1..]) }

  /** The text up to the closing quote, unescaped, and what follows it. */
  function Unquote(t: string): (r: Option<(string, string)>)
    ensures r.Some? ==> |r.value.1| < |t|
  {
    if t == "" then None
    else if t[0] == '"' then Some(("", t[1..]))
    else if t[0] == '\\' then
      if |t| == 1 then None
      else match Unquote(t[2..])
           case None => None
           case Some((s, rest)) => Some(([if t[1] == 'n' then '\n' else t[1]] + s, rest))
    else match Unquote(t[1..])
         case None => None
         case Some((s, rest)) => Some(([t[0]] + s, rest))
  }

  function PrintList(fields: seq<string>): string {
    if fields == [] then "" else "\"" + (EscapeAll(fields[0]) + "\"" + PrintList(fields[1..]))
  }

  function ReadList(t: string): Option<seq<string>>
    decreases |t|
  {
    if t == "" then Some([])
    else if t[0] != '"' then None
    else match Unquote(t[1..])
         case None => None
         case Some((s, rest)) =>
           match ReadList(rest)
           case None => None
           case Some(fields) => Some([s] + fields)
  }

  lemma UnquoteOne(c: char, tail: string)
    requires Unquote(tail).Some?
    ensures Unquote(Escape(c) + tail) == Some(([c] + Unquote(tail).value.0, Unquote(tail).value.1))
  {
    var t := Escape(c) + tail;
    assert t[|Escape(c)|..] == tail;
  }

  lemma {:induction false} UnquoteUndoesEscape(s: string, rest: string)
    ensures Unquote(EscapeAll(s) + "\"" + rest) == Some((s, rest))
  {
    var t := EscapeAll(s) + "\"" + rest;
    if s == "" {
      assert t == "\"" + rest;
    } else {
      hide Unquote, Escape;
      UnquoteUndoesEscape(s[1..], rest);
      var tail := EscapeAll(s[1..]) + "\"" + rest;
      assert t == Escape(s[0]) + tail;
      UnquoteOne(s[0], tail);
      assert [s[0]] + s[1..] == s;
    }
  }

  lemma ReadOne(t: string, field: string, rest: string)
    requires t != "" && t[0] == '"' && t[1..] == EscapeAll(field) + "\"" + rest && ReadList(rest).Some?
    ensures ReadList(t) == Some([field] + ReadList(rest).value)
  {
    hide Unquote, EscapeAll;
    UnquoteUndoesEscape(field, rest);
  }

  lemma AfterQuote(body: string)
    ensures ("\"" + body)[0] == '"' && ("\"" + body)[1..] == body
  {
  }

  lemma {:induction false} ReadUndoesPrint(fields: seq<string>)
    ensures ReadList(PrintList(fields)) == Some(fields)
  {
    assert ReadList("") == Some([]);
    hide ReadList, EscapeAll;
    if fields != [] {
      ReadUndoesPrint(fields[1..]);
      AfterQuote(EscapeAll(fields[0]) + "\"" + PrintList(fields[1..]));
      ReadOne(PrintList(fields), fields[0], PrintList(fields[1..]));
      assert [fields[0]] + fields[1..] == fields;
    }
  }

  lemma {:induction false} EscapedIsOneLine(s: string)
    ensures OneLine(EscapeAll(s))
  {
    if s != "" { EscapedIsOneLine(s[1..]); }
  }

  lemma {:induction false} PrintedIsOneLine(fields: seq<string>)
    ensures OneLine(PrintList(fields))
  {
    if fields != [] {
      EscapedIsOneLine(fields[0]);
      PrintedIsOneLine(fields[1..]);
    }
  }
}
