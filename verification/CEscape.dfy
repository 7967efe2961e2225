/** The escaping of C string literals by scripts/gen_build_git.py, and the reading of such a literal by a C compiler. */
module CEscape {
  import opened Options

  /** `s.replace(c, text)` for a single character. */
  function Replace(s: string, c: char, text: string): string {
    if s == "" then "" else (if s[0] == c then text else [s[0]]) + Replace(s[1..], c, text)
  }

  /** `_c_escape`: five replacements, one after the other over the whole string. */
  function Escape(s: string): string {
    Replace(Replace(Replace(Replace(Replace(s, '\\', "\\\\"), '"', "\\\""), '\n', "\\n"), '\r', "\\r"), '\t', "\\t")
  }

  /** What a single pass makes of one character. */
  function EscapeChar(c: char): string {
    match c
    case '\\' => "\\\\"
    case '"' => "\\\""
    case '\n' => "\\n"
    case '\r' => "\\r"
    case '\t' => "\\t"
    case _ => [c]
  }

  function EscapeOnce(s: string): string {
    if s == "" then "" else EscapeChar(s[0]) + EscapeOnce(s[1..])
  }

  /** Simple escape sequences, as in section 6.4.4.4 of ISO/IEC 9899:2011. */
  function SimpleEscape(c: char): Option<char> {
    match c
    case '\'' => Some('\'')
    case '"' => Some('"')
    case '?' => Some('?')
    case '\\' => Some('\\')
    case 'a' => Some(7 as char)
    case 'b' => Some(8 as char)
    case 'f' => Some(12 as char)
    case 'n' => Some('\n')
    case 'r' => Some('\r')
    case 't' => Some('\t')
    case 'v' => Some(11 as char)
    case _ => None
  }

  /**
   Reads a string literal after its opening quote: the characters it stands for and the text after
   its closing quote. A line break inside the literal, an unknown escape and a missing closing quote
   are errors.
   */
  function ReadLiteral(text: string): Option<(string, string)> {
    if text == "" then None
    else if text[0] == '"' then Some(("", text[1..]))
    else if text[0] == '\n' || text[0] == '\r' then None
    else if text[0] == '\\' then
      if |text| < 2 then None
      else
        match SimpleEscape(text[1])
        case None => None
        case Some(c) => Prepend(c, ReadLiteral(text[2..]))
    else Prepend(text[0], ReadLiteral(text[1..]))
  }

  function Prepend(c: char, r: Option<(string, string)>): Option<(string, string)> {
    match r
    case None => None
    case Some((s, rest)) => Some(([c] + s, rest))
  }

  lemma {:induction false} ReplaceConcat(s: string, t: string, c: char, text: string)
    ensures Replace(s + t, c, text) == Replace(s, c, text) + Replace(t, c, text)
  {
    if s == "" {
      assert s + t == t;
    } else {
      assert (s + t)[1..] == s[1..] + t;
      ReplaceConcat(s[1..], t, c, text);
    }
  }

  /** A replacement leaves a string alone that does not contain its character. */
  lemma {:induction false} ReplaceAbsent(s: string, c: char, text: string)
    requires c !in s
    ensures Replace(s, c, text) == s
  {
    if s != "" {
      ReplaceAbsent(s[1..], c, text);
    }
  }

  lemma {:induction false} EscapeConcat(s: string, t: string)
    ensures Escape(s + t) == Escape(s) + Escape(t)
  {
    var s1, t1 := Replace(s, '\\', "\\\\"), Replace(t, '\\', "\\\\");
    var s2, t2 := Replace(s1, '"', "\\\""), Replace(t1, '"', "\\\"");
    var s3, t3 := Replace(s2, '\n', "\\n"), Replace(t2, '\n', "\\n");
    var s4, t4 := Replace(s3, '\r', "\\r"), Replace(t3, '\r', "\\r");
    ReplaceConcat(s, t, '\\', "\\\\");
    ReplaceConcat(s1, t1, '"', "\\\"");
    ReplaceConcat(s2, t2, '\n', "\\n");
    ReplaceConcat(s3, t3, '\r', "\\r");
    ReplaceConcat(s4, t4, '\t', "\\t");
  }

  lemma ReplaceOne(x: char, c: char, text: string)
    ensures Replace([x], c, text) == if x == c then text else [x]
  {
  }

  lemma EscapeOne(c: char)
    ensures Escape([c]) == EscapeChar(c)
  {
    ReplaceOne(c, '\\', "\\\\");
    if c == '\\' {
      ReplaceAbsent("\\\\", '"', "\\\"");
      ReplaceAbsent("\\\\", '\n', "\\n");
      ReplaceAbsent("\\\\", '\r', "\\r");
      ReplaceAbsent("\\\\", '\t', "\\t");
    } else {
      ReplaceOne(c, '"', "\\\"");
      if c == '"' {
        ReplaceAbsent("\\\"", '\n', "\\n");
        ReplaceAbsent("\\\"", '\r', "\\r");
        ReplaceAbsent("\\\"", '\t', "\\t");
      } else {
        ReplaceOne(c, '\n', "\\n");
        if c == '\n' {
          ReplaceAbsent("\\n", '\r', "\\r");
          ReplaceAbsent("\\n", '\t', "\\t");
        } else {
          ReplaceOne(c, '\r', "\\r");
          ReplaceOne(c, '\t', "\\t");
          ReplaceAbsent("\\r", '\t', "\\t");
        }
      }
    }
  }

  /** Five characters are escaped, each by a backslash and one character; every other one stays. */
  lemma FiveAreEscaped(c: char)
    ensures if c in ['\\', '"', '\n', '\r', '\t'] then |Escape([c])| == 2 && Escape([c])[0] == '\\'
      else Escape([c]) == [c]
  {
    EscapeOne(c);
  }

  /** The five replacements in a row are one pass, character by character. */
  lemma {:induction false} EscapeIsOnePass(s: string)
    ensures Escape(s) == EscapeOnce(s)
  {
    if s != "" {
      assert s == [s[0]] + s[1..];
      EscapeConcat([s[0]], s[1..]);
      EscapeOne(s[0]);
      EscapeIsOnePass(s[1..]);
    }
  }

  /** Reading one escaped character in front of anything. */
  lemma ReadOne(c: char, tail: string)
    ensures ReadLiteral(EscapeChar(c) + tail) == Prepend(c, ReadLiteral(tail))
  {
  }

  /** The escaped string between quotes is one literal for the original, whatever follows it. */
  lemma {:induction false} ReadEscaped(s: string, rest: string)
    ensures ReadLiteral(Escape(s) + "\"" + rest) == Some((s, rest))
  {
    EscapeIsOnePass(s);
    var text := Escape(s) + "\"" + rest;
    if s == "" {
      assert text == "\"" + rest;
    } else {
      EscapeIsOnePass(s[1..]);
      var tail := Escape(s[1..]) + "\"" + rest;
      assert text == EscapeChar(s[0]) + tail;
      ReadEscaped(s[1..], rest);
      ReadOne(s[0], tail);
      assert [s[0]] + s[1..] == s;
    }
  }

  /** Different strings have different escapes. */
  lemma EscapeInjective(s: string, t: string)
    requires Escape(s) == Escape(t)
    ensures s == t
  {
    ReadEscaped(s, "");
    ReadEscaped(t, "");
  }

  /** No line break and no tab is left. */
  lemma {:induction false} NoControlLeft(s: string)
    ensures '\n' !in Escape(s) && '\r' !in Escape(s) && '\t' !in Escape(s)
  {
    EscapeIsOnePass(s);
    if s != "" {
      EscapeIsOnePass(s[1..]);
      NoControlLeft(s[1..]);
    }
  }

  // ----- trigraphs

  /** The character a trigraph stands for, as in section 5.2.1.1 of ISO/IEC 9899:2011, by its third character. */
  function Trigraph(c: char): Option<char> {
    match c
    case '=' => Some('#')
    case '(' => Some('[')
    case '/' => Some('\\')
    case ')' => Some(']')
    case '\'' => Some('^')
    case '<' => Some('{')
    case '!' => Some('|')
    case '>' => Some('}')
    case '-' => Some('~')
    case _ => None
  }

  predicate StartsTrigraph(s: string) {
    |s| >= 3 && s[0] == '?' && s[1] == '?' && Trigraph(s[2]).Some?
  }

  predicate HasTrigraph(s: string) {
    s != "" && (StartsTrigraph(s) || HasTrigraph(s[1..]))
  }

  /** The replacement of trigraphs, which comes before anything else is read. */
  function ReplaceTrigraphs(s: string): string {
    if s == "" then ""
    else if StartsTrigraph(s) then [Trigraph(s[2]).value] + ReplaceTrigraphs(s[3..])
    else [s[0]] + ReplaceTrigraphs(s[1..])
  }

  /** A trigraph makes the text shorter, and a text without one is kept. */
  lemma {:induction false} TrigraphsShorten(s: string)
    ensures |ReplaceTrigraphs(s)| <= |s|
    ensures if HasTrigraph(s) then |ReplaceTrigraphs(s)| < |s| else ReplaceTrigraphs(s) == s
    decreases |s|
  {
    if s != "" {
      if StartsTrigraph(s) {
        TrigraphsShorten(s[3..]);
      } else {
        TrigraphsShorten(s[1..]);
      }
    }
  }

  /** No trigraph reaches over a quote. */
  lemma {:induction false} TrigraphsBeforeQuote(s: string, rest: string)
    ensures ReplaceTrigraphs(s + "\"" + rest) == ReplaceTrigraphs(s) + "\"" + ReplaceTrigraphs(rest)
    decreases |s|
  {
    var text := s + "\"" + rest;
    if s == "" {
      assert text[0] == '"' && text[1..] == rest;
    } else {
      assert StartsTrigraph(text) <==> StartsTrigraph(s);
      if StartsTrigraph(s) {
        assert text[3..] == s[3..] + "\"" + rest;
        TrigraphsBeforeQuote(s[3..], rest);
      } else {
        assert text[1..] == s[1..] + "\"" + rest;
        TrigraphsBeforeQuote(s[1..], rest);
      }
    }
  }

  /** How an escaped string begins. */
  lemma EscapeHead(s: string)
    requires s != ""
    ensures var e := EscapeOnce(s);
      e != "" && if |EscapeChar(s[0])| == 1 then e[0] == s[0] && e[1..] == EscapeOnce(s[1..]) else e[0] == '\\'
  {
  }

  /** A question mark and a third character of a trigraph. */
  predicate EndsTrigraph(s: string) {
    |s| >= 2 && s[0] == '?' && Trigraph(s[1]).Some?
  }

  lemma SameEnd(s: string)
    ensures EndsTrigraph(EscapeOnce(s)) <==> EndsTrigraph(s)
  {
    if s != "" {
      EscapeHead(s);
      if |EscapeChar(s[0])| == 1 && s[1..] != "" {
        EscapeHead(s[1..]);
        assert EscapeOnce(s)[1] == EscapeOnce(s[1..])[0];
      }
    }
  }

  /** The first three characters decide, and as long as they are not escaped they stay. */
  lemma SameStart(s: string)
    requires s != "" && |EscapeChar(s[0])| == 1
    ensures StartsTrigraph(EscapeOnce(s)) <==> StartsTrigraph(s)
  {
    EscapeHead(s);
    SameEnd(s[1..]);
    assert StartsTrigraph(s) <==> s[0] == '?' && EndsTrigraph(s[1..]);
    var e := EscapeOnce(s);
    assert StartsTrigraph(e) <==> e[0] == '?' && EndsTrigraph(e[1..]);
  }

  /** Escaping neither makes nor removes a trigraph. */
  lemma {:induction false} EscapeKeepsTrigraphs(s: string)
    ensures HasTrigraph(EscapeOnce(s)) <==> HasTrigraph(s)
  {
    if s != "" {
      EscapeKeepsTrigraphs(s[1..]);
      var e, tail := EscapeChar(s[0]), EscapeOnce(s[1..]);
      if |e| == 2 {
        assert (e + tail)[1..] == [e[1]] + tail && ([e[1]] + tail)[1..] == tail;
        assert !StartsTrigraph(e + tail) && !StartsTrigraph([e[1]] + tail) && !StartsTrigraph(s);
      } else {
        assert (e + tail)[1..] == tail;
        SameStart(s);
      }
    }
  }

  /** What a literal stands for takes, escaped, no more room than the literal has. */
  lemma {:induction false} LiteralCost(text: string)
    ensures match ReadLiteral(text)
      case None => true
      case Some((s, rest)) =>
        |rest| < |text| && ('\t' !in text[..|text| - |rest|] ==> |EscapeOnce(s)| + 1 + |rest| <= |text|)
    decreases |text|
  {
    if text != "" && text[0] != '"' && text[0] != '\n' && text[0] != '\r' {
      var used := if text[0] == '\\' then 2 else 1;
      if used <= |text| {
        var tail := text[used..];
        LiteralCost(tail);
        if ReadLiteral(text).Some? && ReadLiteral(tail).Some? {
          var (s, rest) := ReadLiteral(text).value;
          var (s', rest') := ReadLiteral(tail).value;
          assert s[1..] == s' && rest == rest';
          assert tail[..|tail| - |rest|] == text[..|text| - |rest|][used..];
          if '\t' !in text[..|text| - |rest|] {
            assert text[0] == text[..|text| - |rest|][0];
          }
        }
      }
    }
  }

  lemma {:induction false} TrigraphsMakeNoTab(s: string)
    requires '\t' !in s
    ensures '\t' !in ReplaceTrigraphs(s)
    decreases |s|
  {
    if s != "" {
      if StartsTrigraph(s) {
        TrigraphsMakeNoTab(s[3..]);
      } else {
        TrigraphsMakeNoTab(s[1..]);
      }
    }
  }

  /** For a compiler that replaces trigraphs the escaped string stands for the original exactly if that has none. */
  lemma ReadWithTrigraphs(s: string, rest: string)
    ensures ReadLiteral(ReplaceTrigraphs(Escape(s) + "\"" + rest)) == Some((s, ReplaceTrigraphs(rest))) <==>
      !HasTrigraph(s)
  {
    EscapeIsOnePass(s);
    EscapeKeepsTrigraphs(s);
    TrigraphsBeforeQuote(Escape(s), rest);
    TrigraphsShorten(Escape(s));
    if !HasTrigraph(s) {
      ReadEscaped(s, ReplaceTrigraphs(rest));
    } else {
      NoControlLeft(s);
      TrigraphsMakeNoTab(Escape(s));
      var body, r := ReplaceTrigraphs(Escape(s)), ReplaceTrigraphs(rest);
      var text := body + "\"" + r;
      LiteralCost(text);
      assert text[..|text| - |r|] == body + "\"";
    }
  }

  /** The escape of `??/` is read as a backslash that escapes the closing quote. */
  lemma TrigraphExample()
    ensures ReadLiteral(ReplaceTrigraphs(Escape("??/") + "\"" + "")) != Some(("??/", ""))
  {
    assert StartsTrigraph("??/");
    ReadWithTrigraphs("??/", "");
    assert ReplaceTrigraphs("") == "";
  }
}
