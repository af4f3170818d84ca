/**
 * The handful of JavaScript string operations the extension relies on,
 * stated over Dafny strings (sequences of Unicode scalar values).
 */
module JsStrings {

  /** WhiteSpace and LineTerminator code points, the set String.prototype.trim strips. */
  predicate IsJsSpace(c: char) {
    || c == '\t' || c == '\n' || c == '\U{000B}' || c == '\U{000C}' || c == '\r'
    || c == ' ' || c == '\U{00A0}' || c == '\U{1680}'
    || ('\U{2000}' <= c <= '\U{200A}')
    || c == '\U{2028}' || c == '\U{2029}' || c == '\U{202F}' || c == '\U{205F}'
    || c == '\U{3000}' || c == '\U{FEFF}'
  }

  predicate AllSpace(s: string) {
    forall i :: 0 <= i < |s| ==> IsJsSpace(s[i])
  }

  /** Drop leading white space. */
  function TrimStart(s: string): (r: string) {
    if s != [] && IsJsSpace(s[0]) then TrimStart(s[1..]) else s
  }

  /** Drop trailing white space. */
  function TrimEnd(s: string): (r: string) {
    if s != [] && IsJsSpace(s[|s| - 1]) then TrimEnd(s[..|s| - 1]) else s
  }

  /** String.prototype.trim. */
  function Trim(s: string): (r: string) {
    TrimEnd(TrimStart(s))
  }

  /** `TrimStart` removes a prefix made only of white space and stops at the first other character. */
  lemma {:induction false} TrimStartFacts(s: string)
    ensures var r := TrimStart(s);
      && |r| <= |s| && r == s[|s| - |r|..]
      && (r != [] ==> !IsJsSpace(r[0]))
      && AllSpace(s[..|s| - |r|])
  {
    if s != [] && IsJsSpace(s[0]) {
      var t := s[1..];
      TrimStartFacts(t);
      var r := TrimStart(t);
      assert TrimStart(s) == r;
      assert t[|t| - |r|..] == s[|s| - |r|..];
      forall i | 0 <= i < |s| - |r| ensures IsJsSpace(s[i]) {
        if i > 0 { assert s[i] == t[..|t| - |r|][i - 1]; }
      }
    }
  }

  /** `TrimEnd` removes a suffix made only of white space and stops at the last other character. */
  lemma {:induction false} TrimEndFacts(s: string)
    ensures var r := TrimEnd(s);
      && |r| <= |s| && r == s[..|r|]
      && (r != [] ==> !IsJsSpace(r[|r| - 1]))
      && AllSpace(s[|r|..])
  {
    if s != [] && IsJsSpace(s[|s| - 1]) {
      var t := s[..|s| - 1];
      TrimEndFacts(t);
      var r := TrimEnd(t);
      assert TrimEnd(s) == r;
      assert t[..|r|] == s[..|r|];
      forall i | |r| <= i < |s| ensures IsJsSpace(s[i]) {
        if i < |s| - 1 { assert s[i] == t[|r|..][i - |r|]; }
      }
    }
  }

  /** `s.trim()` is the empty string exactly when every character of `s` is white space. */
  lemma TrimEmptyIff(s: string)
    ensures Trim(s) == [] <==> AllSpace(s)
  {
    var t := TrimStart(s);
    TrimStartFacts(s);
    TrimEndFacts(t);
    if AllSpace(s) && t != [] {
      assert false;
    }
    if Trim(s) == [] && t != [] {
      assert false;
    }
    assert t == [] ==> s[..|s| - |t|] == s;
  }

  /** Trimming the end never removes a character that is not white space, nor anything before it. */
  lemma TrimEndKeeps(s: string, k: nat)
    requires k < |s| && !IsJsSpace(s[k])
    ensures |TrimEnd(s)| > k && TrimEnd(s)[..k + 1] == s[..k + 1]
  {
    var t := TrimEnd(s);
    TrimEndFacts(s);
    if |t| <= k {
      assert false;
    }
  }

  /** Leading white space is dropped whatever follows it. */
  lemma {:induction false} TrimLeading(pad: string, s: string)
    requires AllSpace(pad)
    ensures Trim(pad + s) == Trim(s)
  {
    if pad == [] {
      assert pad + s == s;
    } else {
      assert (pad + s)[0] == pad[0];
      assert (pad + s)[1..] == pad[1..] + s;
      assert TrimStart(pad + s) == TrimStart(pad[1..] + s);
      TrimLeading(pad[1..], s);
    }
  }

  /** Appending a line break never changes whether the trimmed text is empty. */
  lemma TrimEmptyAfterNewline(s: string)
    ensures Trim(s + "\n") == [] <==> Trim(s) == []
  {
    TrimEmptyIff(s);
    TrimEmptyIff(s + "\n");
    if AllSpace(s) {
      forall i | 0 <= i < |s + "\n"| ensures IsJsSpace((s + "\n")[i]) {
        if i < |s| { assert (s + "\n")[i] == s[i]; }
      }
    }
    if AllSpace(s + "\n") {
      forall i | 0 <= i < |s| ensures IsJsSpace(s[i]) {
        assert (s + "\n")[i] == s[i];
      }
    }
  }

  /** Lower-casing restricted to ASCII letters: the only letters the inputs below can hold. */
  function AsciiLower(c: char): (r: char)
  {
    if 'A' <= c <= 'Z' then (c as int - 'A' as int + 'a' as int) as char else c
  }

  /** White space has no upper case to lower. */
  lemma LowerKeepsSpace(c: char)
    ensures IsJsSpace(c) ==> AsciiLower(c) == c
  {
  }

  function Lower(s: string): (r: string)
    ensures |r| == |s|
    ensures forall i :: 0 <= i < |s| ==> r[i] == AsciiLower(s[i])
  {
    seq(|s|, i requires 0 <= i < |s| => AsciiLower(s[i]))
  }

  /** A regular expression `^prefix` with the `i` flag, for a prefix of ASCII characters. */
  predicate StartsWithIgnoringCase(s: string, prefix: string) {
    |prefix| <= |s| && Lower(s[..|prefix|]) == Lower(prefix)
  }

  /** Array.prototype.join. */
  function Join(items: seq<string>, sep: string): (r: string)
    ensures items == [] ==> r == ""
    ensures |items| == 1 ==> r == items[0]
  {
    if items == [] then ""
    else if |items| == 1 then items[0]
    else items[0] + sep + Join(items[1..], sep)
  }
}
