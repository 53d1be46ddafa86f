/** How a string is printed between quotes: as a literal token, and in debug form. */
module Literals {
  /** Characters that a printed string literal spells with a backslash. */
  predicate NeedsEscape(c: char) {
    c == '"' || c == '\\' || c == '\n' || c == '\r' || c == '\t' || c == '\0'
  }

  function EscapeChar(c: char): string {
    if c == '"' then "\\\""
    else if c == '\\' then "\\\\"
    else if c == '\n' then "\\n"
    else if c == '\r' then "\\r"
    else if c == '\t' then "\\t"
    else if c == '\0' then "\\0"
    else [c]
  }

  function Escape(value: string): string {
    if value == [] then [] else EscapeChar(value[0]) + Escape(value[1..])
  }

  /** The token of a string literal, as a token tree prints it. */
  function PrintLiteral(value: string): string {
    "\"" + Escape(value) + "\""
  }

  function PrintItems(items: seq<string>): string {
    if items == [] then ""
    else if |items| == 1 then PrintLiteral(items[0])
    else PrintLiteral(items[0]) + ", " + PrintItems(items[1..])
  }

  /** The debug form of a list of strings. */
  function PrintList(items: seq<string>): string {
    "[" + PrintItems(items) + "]"
  }

  lemma StandardEscapes()
    ensures Escape("\"") == "\\\"" && Escape("\\") == "\\\\" && Escape("\0") == "\\0"
    ensures Escape("\n") == "\\n" && Escape("\r") == "\\r" && Escape("\t") == "\\t"
  {
  }

  /** An escaped text spells one text only. */
  lemma {:induction false} EscapeIsInjective(a: string, b: string)
    ensures Escape(a) == Escape(b) <==> a == b
    decreases |a| + |b|
  {
    if a != [] && b != [] {
      assert EscapeChar(a[0]) <= Escape(a) && EscapeChar(b[0]) <= Escape(b);
      if Escape(a) == Escape(b) {
        assert Escape(a)[0] == EscapeChar(a[0])[0] && Escape(b)[0] == EscapeChar(b[0])[0];
        assert |EscapeChar(a[0])| == |EscapeChar(b[0])|;
        assert EscapeChar(a[0]) == Escape(a)[..|EscapeChar(a[0])|];
        assert EscapeChar(b[0]) == Escape(b)[..|EscapeChar(b[0])|];
        assert a[0] == b[0];
        assert Escape(a[1..]) == Escape(a)[|EscapeChar(a[0])|..];
        assert Escape(b[1..]) == Escape(b)[|EscapeChar(b[0])|..];
        EscapeIsInjective(a[1..], b[1..]);
        assert a == [a[0]] + a[1..] && b == [b[0]] + b[1..];
      }
    } else {
      assert a != [] ==> |EscapeChar(a[0])| > 0;
      assert b != [] ==> |EscapeChar(b[0])| > 0;
    }
  }

  /** The printed items of a list are those of its two parts with a comma and a blank in between. */
  lemma {:induction false} PrintOfConcat(a: seq<string>, b: seq<string>)
    requires a != [] && b != []
    ensures PrintItems(a + b) == PrintItems(a) + ", " + PrintItems(b)
    ensures |a| == 1 ==> PrintItems(a) == "\"" + Escape(a[0]) + "\""
  {
    if |a| == 1 {
      assert (a + b)[1..] == b;
    } else {
      assert (a + b)[1..] == a[1..] + b;
      PrintOfConcat(a[1..], b);
      assert PrintLiteral(a[0]) + ", " + (PrintItems(a[1..]) + ", " + PrintItems(b))
             == PrintLiteral(a[0]) + ", " + PrintItems(a[1..]) + ", " + PrintItems(b);
    }
  }
}
