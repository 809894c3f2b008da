/**
 * The text handling of speak(): the quote-stripping sanitiser and the
 * shell command line that hands the sanitised text to espeak.
 */
module Speech {

  predicate IsQuote(c: char)
  {
    c == '"' || c == '\''
  }

  /** Python's s.replace(c, ""): every occurrence of c removed. */
  function Remove(s: string, c: char): (r: string)
    ensures |r| <= |s|
    ensures forall k :: 0 <= k < |r| ==> r[k] != c && r[k] in s
    ensures c !in s ==> r == s
  {
    if s == [] then []
    else if s[0] == c then Remove(s[1..], c)
    else [s[0]] + Remove(s[1..], c)
  }

  /** The text actually given to espeak: double quotes removed, then single quotes. */
  function Sanitize(text: string): (r: string)
    ensures forall k :: 0 <= k < |r| ==> !IsQuote(r[k])
  {
    Remove(Remove(text, '"'), '\'')
  }

  /** Reference definition: the characters of s that are not quotes, in order. */
  function Unquoted(s: string): string
  {
    if s == [] then []
    else (if IsQuote(s[0]) then [] else [s[0]]) + Unquoted(s[1..])
  }

  lemma {:induction false} RemoveAppend(a: string, b: string, c: char)
    ensures Remove(a + b, c) == Remove(a, c) + Remove(b, c)
  {
    if a == [] {
      assert a + b == b;
    } else {
      assert (a + b)[1..] == a[1..] + b;
      RemoveAppend(a[1..], b, c);
    }
  }

  /** The two-pass sanitiser equals the one-pass filter: every non-quote character is kept, in order. */
  lemma {:induction false} SanitizeIsUnquoted(s: string)
    ensures Sanitize(s) == Unquoted(s)
  {
    if s != [] {
      SanitizeIsUnquoted(s[1..]);
      var h := if s[0] == '"' then [] else [s[0]];
      assert Remove(s, '"') == h + Remove(s[1..], '"');
      RemoveAppend(h, Remove(s[1..], '"'), '\'');
      if s[0] != '"' && s[0] != '\'' {
        assert Remove(h, '\'') == [s[0]] + Remove([], '\'');
      }
    }
  }

  /** The sanitiser distributes over concatenation, so it acts character by character. */
  lemma SanitizeAppend(a: string, b: string)
    ensures Sanitize(a + b) == Sanitize(a) + Sanitize(b)
  {
    RemoveAppend(a, b, '"');
    RemoveAppend(Remove(a, '"'), Remove(b, '"'), '\'');
  }

  /** Text without quotes passes through unchanged. */
  lemma SanitizeQuoteFree(s: string)
    requires forall k :: 0 <= k < |s| ==> !IsQuote(s[k])
    ensures Sanitize(s) == s
  {
    assert '"' !in s;
    assert '\'' !in Remove(s, '"');
  }

  /** Sanitising twice is the same as sanitising once. */
  lemma SanitizeIdempotent(s: string)
    ensures Sanitize(Sanitize(s)) == Sanitize(s)
  {
    SanitizeQuoteFree(Sanitize(s));
  }

  const ESPEAK_OPEN := "espeak \""
  const ESPEAK_CLOSE := "\" --stdout | aplay -D plughw:2,0"

  /** The shell command line speak() starts, as written in the source. */
  function Command(text: string): string
  {
    ESPEAK_OPEN + Sanitize(text) + ESPEAK_CLOSE
  }

  /**
   * The double-quoted argument is never closed early: the first double quote
   * after the opening one is the one right after the sanitised text.
   */
  lemma CommandQuoting(text: string)
    ensures var cmd, n := Command(text), |ESPEAK_OPEN| + |Sanitize(text)|;
      && cmd[..|ESPEAK_OPEN|] == ESPEAK_OPEN
      && cmd[|ESPEAK_OPEN|..n] == Sanitize(text)
      && (forall k :: |ESPEAK_OPEN| <= k < n ==> cmd[k] != '"')
      && cmd[n] == '"'
  {
    var cmd, safe := Command(text), Sanitize(text);
    assert cmd[|ESPEAK_OPEN|..|ESPEAK_OPEN| + |safe|] == safe;
    assert cmd[|ESPEAK_OPEN| + |safe|] == ESPEAK_CLOSE[0] == '"';
    forall k | |ESPEAK_OPEN| <= k < |ESPEAK_OPEN| + |safe| ensures cmd[k] != '"' {
      assert cmd[k] == safe[k - |ESPEAK_OPEN|];
    }
  }

  /**
   * A word inside POSIX shell double quotes stands for itself whenever it
   * holds no '"', '$' or '`', and every backslash is followed by a
   * character other than '$', '`', '"', '\\' or newline (section 2.2.3 of
   * the POSIX Shell Command Language).
   */
  predicate DoubleQuotedLiteral(w: string)
  {
    forall k :: 0 <= k < |w| ==>
      && w[k] != '"' && w[k] != '$' && w[k] != '`'
      && (w[k] == '\\' ==> k + 1 < |w| && w[k + 1] !in "$`\"\\\n")
  }

  /** Inside POSIX single quotes every character but '\'' stands for itself (section 2.2.2). */
  predicate SingleQuotedLiteral(w: string)
  {
    forall k :: 0 <= k < |w| ==> w[k] != '\''
  }

  /**
   * As written, removing quotes does not make the double-quoted argument
   * literal: a description mentioning a price such as "$5" passes the
   * sanitiser unchanged, so the command line carries "$5" between its
   * double quotes: a '$' followed by a digit, which the shell expands as a
   * positional parameter (section 2.6.2 of the POSIX Shell Command
   * Language), and which fails the literal-text condition.
   */
  lemma CommandExpandsDollar()
    ensures Command("$5") == ESPEAK_OPEN + "$5" + ESPEAK_CLOSE
    ensures Command("$5")[|ESPEAK_OPEN|] == '$' && '0' <= Command("$5")[|ESPEAK_OPEN| + 1] <= '9'
    ensures !DoubleQuotedLiteral(Command("$5")[|ESPEAK_OPEN|..|ESPEAK_OPEN| + 2])
  {
    var text := "$5";
    assert Remove(text, '"') == text;
    assert Remove(text, '\'') == text;
    assert Sanitize(text) == text;
    var cmd := ESPEAK_OPEN + text + ESPEAK_CLOSE;
    assert Command(text) == cmd;
    var w := cmd[|ESPEAK_OPEN|..|ESPEAK_OPEN| + 2];
    assert w == text;
    assert w[0] == '$' && w[1] == '5';
  }

  const SAFE_OPEN := "espeak '"
  const SAFE_CLOSE := "' --stdout | aplay -D plughw:2,0"

  /** The command line with the argument in single quotes, where nothing is special. */
  function SafeCommand(text: string): string
  {
    SAFE_OPEN + Sanitize(text) + SAFE_CLOSE
  }

  /** With single quotes, every sanitised text reaches espeak literally and unbroken. */
  lemma SafeCommandQuoting(text: string)
    ensures SingleQuotedLiteral(Sanitize(text))
    ensures var cmd, n := SafeCommand(text), |SAFE_OPEN| + |Sanitize(text)|;
      && cmd[..|SAFE_OPEN|] == SAFE_OPEN
      && cmd[|SAFE_OPEN|..n] == Sanitize(text)
      && (forall k :: |SAFE_OPEN| <= k < n ==> cmd[k] != '\'')
      && cmd[n] == '\''
  {
    var cmd, safe := SafeCommand(text), Sanitize(text);
    var n := |SAFE_OPEN| + |safe|;
    assert cmd[..|SAFE_OPEN|] == SAFE_OPEN;
    assert cmd[|SAFE_OPEN|..n] == safe;
    assert cmd[n] == SAFE_CLOSE[0];
    forall k | |SAFE_OPEN| <= k < n ensures cmd[k] != '\'' {
      assert cmd[k] == safe[k - |SAFE_OPEN|];
    }
  }
}
