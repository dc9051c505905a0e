/**
 * `sanitizeStringForJson`: prepares free text for embedding in a JSON string
 * literal by escaping backslashes and double quotes, turning line feeds into
 * spaces and dropping carriage returns.
 */
module TextSanitizer {

  /** `s.replace(/c/g, with)`: every occurrence of the character `c` replaced by `with`. */
  function ReplaceAll(s: string, c: char, with: string): (r: string)
    ensures c !in with ==> c !in r
    ensures forall x | x in r :: x in s || x in with
  {
    if s == [] then [] else (if s[0] == c then with else [s[0]]) + ReplaceAll(s[1..], c, with)
  }

  lemma {:induction false} ReplaceAllAppend(a: string, b: string, c: char, with: string)
    ensures ReplaceAll(a + b, c, with) == ReplaceAll(a, c, with) + ReplaceAll(b, c, with)
  {
    if a != [] {
      assert (a + b)[0] == a[0] && (a + b)[1..] == a[1..] + b;
      ReplaceAllAppend(a[1..], b, c, with);
    } else {
      assert a + b == b;
    }
  }

  /** `sanitizeStringForJson(str)`. */
  function Sanitize(s: string): (r: string)
    ensures s == [] ==> r == []
    ensures '\n' !in r && '\r' !in r
  {
    if s == [] then ""
    else ReplaceAll(ReplaceAll(ReplaceAll(ReplaceAll(s, '\\', "\\\\"), '"', "\\\""), '\n', " "), '\r', "")
  }

  /** What one input character becomes. */
  function EscapeChar(c: char): string
  {
    if c == '\\' then "\\\\"
    else if c == '"' then "\\\""
    else if c == '\n' then " "
    else if c == '\r' then ""
    else [c]
  }

  /** The per-character reference: each character escaped on its own, the pieces concatenated. */
  function EscapeEach(s: string): string
  {
    if s == [] then [] else EscapeChar(s[0]) + EscapeEach(s[1..])
  }

  lemma {:induction false} EscapeEachAppend(a: string, b: string)
    ensures EscapeEach(a + b) == EscapeEach(a) + EscapeEach(b)
  {
    if a != [] {
      assert (a + b)[0] == a[0] && (a + b)[1..] == a[1..] + b;
      EscapeEachAppend(a[1..], b);
    } else {
      assert a + b == b;
    }
  }

  // The four passes applied to a single character.
  lemma PassesOnChar(c: char)
    ensures ReplaceAll(ReplaceAll(ReplaceAll(ReplaceAll([c], '\\', "\\\\"), '"', "\\\""), '\n', " "), '\r', "") == EscapeChar(c)
  {
    var one := [c];
    assert one[1..] == [];
    var bs: string := "\\\\";
    assert bs[1..][1..] == [] && bs[1..] == "\\";
    var q: string := "\\\"";
    assert q[1..][1..] == [] && q[1..] == "\"";
    var sp: string := " ";
    assert sp[1..] == [];
    if c == '\\' {
      assert ReplaceAll(one, '\\', bs) == bs;
      assert ReplaceAll(bs, '"', q) == bs;
      assert ReplaceAll(bs, '\n', " ") == bs;
      assert ReplaceAll(bs, '\r', "") == bs;
    } else if c == '"' {
      assert ReplaceAll(one, '\\', bs) == one;
      assert ReplaceAll(one, '"', q) == q;
      assert ReplaceAll(q, '\n', " ") == q;
      assert ReplaceAll(q, '\r', "") == q;
    }
  }

  /**
   * The chain of replacements equals escaping each character on its own; in
   * particular the backslash inserted before a quote is not doubled again.
   */
  lemma {:induction false} SanitizeIsPerChar(s: string)
    ensures Sanitize(s) == EscapeEach(s)
  {
    if s != [] {
      var rest := s[1..];
      assert s == [s[0]] + rest;
      ReplaceAllAppend([s[0]], rest, '\\', "\\\\");
      var a1, b1 := ReplaceAll([s[0]], '\\', "\\\\"), ReplaceAll(rest, '\\', "\\\\");
      ReplaceAllAppend(a1, b1, '"', "\\\"");
      var a2, b2 := ReplaceAll(a1, '"', "\\\""), ReplaceAll(b1, '"', "\\\"");
      ReplaceAllAppend(a2, b2, '\n', " ");
      var a3, b3 := ReplaceAll(a2, '\n', " "), ReplaceAll(b2, '\n', " ");
      ReplaceAllAppend(a3, b3, '\r', "");
      PassesOnChar(s[0]);
      SanitizeIsPerChar(rest);
      if rest == [] {
        assert ReplaceAll(ReplaceAll(ReplaceAll(ReplaceAll(rest, '\\', "\\\\"), '"', "\\\""), '\n', " "), '\r', "") == [];
      }
    }
  }

  /** Characters other than the four special ones pass through unchanged and in order. */
  lemma {:induction false} PlainTextUnchanged(s: string)
    requires forall i :: 0 <= i < |s| ==> s[i] !in {'\\', '"', '\n', '\r'}
    ensures Sanitize(s) == s
  {
    SanitizeIsPerChar(s);
    PlainEscapeEach(s);
  }

  lemma {:induction false} PlainEscapeEach(s: string)
    requires forall i :: 0 <= i < |s| ==> s[i] !in {'\\', '"', '\n', '\r'}
    ensures EscapeEach(s) == s
  {
    if s != [] {
      assert s[0] !in {'\\', '"', '\n', '\r'};
      PlainEscapeEach(s[1..]);
      assert s == [s[0]] + s[1..];
    }
  }
}
