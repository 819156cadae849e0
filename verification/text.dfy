/** Character classes and string operations of the JavaScript runtime that
    the services and pages use: `\s`, `String.prototype.trim`, `\b`,
    ASCII lower-casing and `includes`. */
module Text {
  import opened Js

  /** ECMAScript WhiteSpace and LineTerminator code points: exactly the
      characters `\s` matches and `trim` removes. */
  predicate IsWhitespace(c: char) {
    var u := c as int;
    || u == 0x09 || u == 0x0A || u == 0x0B || u == 0x0C || u == 0x0D
    || u == 0x20 || u == 0xA0 || u == 0x1680
    || (0x2000 <= u <= 0x200A)
    || u == 0x2028 || u == 0x2029 || u == 0x202F || u == 0x205F
    || u == 0x3000 || u == 0xFEFF
  }

  predicate IsAscii(c: char) {
    c as int <= 0x7F
  }

  predicate IsUpperAscii(c: char) {
    'A' <= c <= 'Z'
  }

  /** `\w`: ASCII letters, digits and underscore. */
  predicate IsWordChar(c: char) {
    IsDigit(c) || IsUpperAscii(c) || ('a' <= c <= 'z') || c == '_'
  }

  /** Whether position i (0..|s|) holds a word character; outside is not. */
  predicate WordAt(s: string, i: int) {
    0 <= i < |s| && IsWordChar(s[i])
  }

  /** `\b` at position i: the characters on either side differ in wordness. */
  predicate Boundary(s: string, i: int) {
    WordAt(s, i - 1) != WordAt(s, i)
  }

  /** `String.prototype.trimStart`. */
  function TrimStart(s: string): (r: string)
    ensures |r| <= |s| && r == s[|s| - |r|..]
    ensures forall i :: 0 <= i < |s| - |r| ==> IsWhitespace(s[i])
    ensures |r| > 0 ==> !IsWhitespace(r[0])
  {
    if |s| > 0 && IsWhitespace(s[0]) then TrimStart(s[1..]) else s
  }

  /** `String.prototype.trimEnd`. */
  function TrimEnd(s: string): (r: string)
    ensures |r| <= |s| && r == s[..|r|]
    ensures forall i :: |r| <= i < |s| ==> IsWhitespace(s[i])
    ensures |r| > 0 ==> !IsWhitespace(r[|r| - 1])
  {
    if |s| > 0 && IsWhitespace(s[|s| - 1]) then TrimEnd(s[..|s| - 1]) else s
  }

  /** `String.prototype.trim`: the text between the leading and the trailing
      whitespace. */
  function Trim(s: string): (r: string)
    ensures |r| <= |s|
    ensures |r| > 0 ==> !IsWhitespace(r[0]) && !IsWhitespace(r[|r| - 1])
  {
    TrimEnd(TrimStart(s))
  }

  /** Text that neither starts nor ends with whitespace is left alone. */
  lemma TrimKeepsTrimmed(s: string)
    requires |s| > 0 ==> !IsWhitespace(s[0]) && !IsWhitespace(s[|s| - 1])
    ensures Trim(s) == s
  {
  }

  /** Trimming twice is trimming once. */
  lemma TrimIdempotent(s: string)
    ensures Trim(Trim(s)) == Trim(s)
  {
    TrimKeepsTrimmed(Trim(s));
  }

  /** Trailing whitespace added to a text does not survive trimming. */
  lemma {:induction false} TrimIgnoresTrailingWhitespace(s: string, w: string)
    requires forall i :: 0 <= i < |w| ==> IsWhitespace(w[i])
    ensures Trim(s + w) == Trim(s)
    decreases |w|
  {
    if |w| > 0 {
      var w', c := w[..|w| - 1], w[|w| - 1];
      assert s + w == (s + w') + [c];
      TrimIgnoresTrailingWhitespace(s, w');
      TrimStartOfSuffix(s + w', c);
      calc {
        Trim(s + w);
        TrimEnd(TrimStart((s + w') + [c]));
        TrimEnd(TrimStart(s + w'));
        Trim(s);
      }
    } else {
      assert s + w == s;
    }
  }

  lemma TrimEndDropsLast(s: string)
    ensures forall c :: IsWhitespace(c) ==> TrimEnd(s + [c]) == TrimEnd(s)
  {
    forall c | IsWhitespace(c)
      ensures TrimEnd(s + [c]) == TrimEnd(s)
    {
      assert (s + [c])[..|s + [c]| - 1] == s;
    }
  }

  /** Appending a whitespace character commutes with trimming the front,
      up to the trailing whitespace that TrimEnd removes. */
  lemma {:induction false} TrimStartOfSuffix(s: string, c: char)
    requires IsWhitespace(c)
    ensures TrimEnd(TrimStart(s + [c])) == TrimEnd(TrimStart(s))
    decreases |s|
  {
    if |s| == 0 {
      assert TrimStart([c]) == TrimStart([]);
    } else if IsWhitespace(s[0]) {
      assert (s + [c])[1..] == s[1..] + [c];
      TrimStartOfSuffix(s[1..], c);
    } else {
      assert TrimStart(s + [c]) == s + [c];
      TrimEndDropsLast(s);
    }
  }

  /** ASCII-only approximation of `toLowerCase`. */
  function LowerChar(c: char): (r: char)
    ensures IsUpperAscii(c) ==> r as int == c as int + 32
    ensures !IsUpperAscii(c) ==> r == c
  {
    if IsUpperAscii(c) then (c as int + 32) as char else c
  }

  function Lower(s: string): (r: string)
    ensures |r| == |s|
    ensures forall i :: 0 <= i < |s| ==> r[i] == LowerChar(s[i])
  {
    seq(|s|, i requires 0 <= i < |s| => LowerChar(s[i]))
  }

  /** `needle` occurs in `hay` starting at position i. */
  predicate OccursAt(hay: string, needle: string, i: int) {
    0 <= i && i + |needle| <= |hay| && hay[i..i + |needle|] == needle
  }

  /** `hay.includes(needle)`, scanning left to right. */
  function Includes(hay: string, needle: string): (b: bool)
    ensures b <==> exists i :: 0 <= i <= |hay| - |needle| && OccursAt(hay, needle, i)
    decreases |hay|
  {
    if |needle| > |hay| then false
    else if hay[..|needle|] == needle then (assert OccursAt(hay, needle, 0); true)
    else if |hay| == 0 then false
    else
      var rest := Includes(hay[1..], needle);
      assert forall i :: 1 <= i <= |hay| - |needle| ==>
        (OccursAt(hay, needle, i) <==> OccursAt(hay[1..], needle, i - 1)) by {
        forall i | 1 <= i <= |hay| - |needle|
          ensures OccursAt(hay, needle, i) <==> OccursAt(hay[1..], needle, i - 1)
        {
          var u, v := hay[i..i + |needle|], hay[1..][i - 1..i - 1 + |needle|];
          assert |u| == |v|;
          assert forall k :: 0 <= k < |u| ==> u[k] == v[k];
          assert u == v;
        }
      }
      if rest then
        var j :| 0 <= j <= |hay[1..]| - |needle| && OccursAt(hay[1..], needle, j);
        assert OccursAt(hay, needle, j + 1);
        true
      else
        false
  }

  /** `s.replace(/<token>\n?/g, '')`: every non-overlapping occurrence of the
      token, scanning left to right, is removed with one newline after it. */
  function RemoveToken(s: string, token: string): (r: string)
    requires |token| > 0
    ensures |r| <= |s|
    decreases |s|
  {
    if |s| == 0 then ""
    else if |token| <= |s| && s[..|token|] == token then
      var rest := s[|token|..];
      if |rest| > 0 && rest[0] == '\n' then RemoveToken(rest[1..], token) else RemoveToken(rest, token)
    else [s[0]] + RemoveToken(s[1..], token)
  }

  predicate BacktickFree(s: string) {
    forall i :: 0 <= i < |s| ==> s[i] != '`'
  }

  /** A token that starts with a backtick never matches inside backtick-free
      text, so the text before it passes through unchanged. */
  lemma {:induction false} RemoveTokenSkipsPlainText(plain: string, rest: string, token: string)
    requires |token| > 0 && token[0] == '`'
    requires BacktickFree(plain)
    ensures RemoveToken(plain + rest, token) == plain + RemoveToken(rest, token)
    decreases |plain|
  {
    if |plain| > 0 {
      var s := plain + rest;
      assert s[0] == plain[0] && s[0] != token[0];
      assert s[1..] == plain[1..] + rest;
      RemoveTokenSkipsPlainText(plain[1..], rest, token);
    } else {
      assert plain + rest == rest;
    }
  }
}
