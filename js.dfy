/** The JavaScript built-ins the form logic leans on: `String.prototype.trim`,
    the regular-expression classes `\s` / `\S`, and the numbers that
    `Number(...)` produces (only whether they are NaN matters here). */
module Js {

  datatype Option<+T> = None | Some(value: T)

  /** ECMAScript WhiteSpace and LineTerminator code points: exactly the
      characters `trim()` strips and `\s` matches. */
  predicate IsWhitespace(c: char)
  {
    || c == '\t' || c == '\n' || c == '\U{B}' || c == '\U{C}' || c == '\r'
    || c == ' ' || c == '\U{A0}' || c == '\U{1680}'
    || ('\U{2000}' <= c && c <= '\U{200A}')
    || c == '\U{2028}' || c == '\U{2029}' || c == '\U{202F}' || c == '\U{205F}'
    || c == '\U{3000}' || c == '\U{FEFF}'
  }

  /** `s` with its leading whitespace removed. */
  function TrimStart(s: string): (r: string)
    ensures |r| <= |s| && r == s[|s| - |r|..]
    ensures r != [] ==> !IsWhitespace(r[0])
  {
    if s != [] && IsWhitespace(s[0]) then TrimStart(s[1..]) else s
  }

  /** `s` with its trailing whitespace removed. */
  function TrimEnd(s: string): (r: string)
    ensures |r| <= |s| && r == s[..|r|]
    ensures r != [] ==> !IsWhitespace(r[|r| - 1])
  {
    if s != [] && IsWhitespace(s[|s| - 1]) then TrimEnd(s[..|s| - 1]) else s
  }

  /** `s.trim()` */
  function Trim(s: string): string
  {
    TrimEnd(TrimStart(s))
  }

  /** The source's recurring test `s.trim() === ""`, stated as "every
      character of `s` is whitespace"; BlankIffTrimEmpty proves the two agree. */
  predicate IsBlank(s: string)
  {
    forall i :: 0 <= i < |s| ==> IsWhitespace(s[i])
  }

  /** A non-empty string is blank exactly when its first character is
      whitespace and the rest is blank. */
  lemma BlankCons(s: string)
    requires s != []
    ensures IsBlank(s) <==> IsWhitespace(s[0]) && IsBlank(s[1..])
  {
    if IsWhitespace(s[0]) && IsBlank(s[1..]) {
      forall i | 0 < i < |s| ensures IsWhitespace(s[i]) {
        assert s[i] == s[1..][i - 1];
      }
    }
  }

  lemma {:induction false} TrimStartEmpty(s: string)
    ensures TrimStart(s) == "" <==> IsBlank(s)
  {
    if s != [] {
      BlankCons(s);
      if IsWhitespace(s[0]) {
        TrimStartEmpty(s[1..]);
      }
    }
  }

  lemma {:induction false} TrimEndOfWhitespaceFree(s: string)
    requires s != [] && !IsWhitespace(s[0])
    ensures TrimEnd(s) != ""
  {
    if IsWhitespace(s[|s| - 1]) {
      TrimEndOfWhitespaceFree(s[..|s| - 1]);
    }
  }

  /** `s.trim() === ""` holds exactly when every character of `s` is
      whitespace: the empty string and all-blank strings, nothing else. */
  lemma BlankIffTrimEmpty(s: string)
    ensures Trim(s) == "" <==> IsBlank(s)
  {
    TrimStartEmpty(s);
    var t := TrimStart(s);
    if t != "" {
      TrimEndOfWhitespaceFree(t);
    }
  }

  /** A JavaScript number, as far as the form logic can tell numbers apart. */
  datatype JsNumber = NaN | Finite(value: real) | Infinite(negative: bool)
}
