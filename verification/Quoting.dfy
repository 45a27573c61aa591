/** Single-quote escaping for three shells, against the readers of those shells. */
module Quoting {
  import opened Text

  /** Python's `str.replace` for a pattern of one character. */
  function Replace(s: string, c: char, put: string): string {
    if s == "" then "" else (if s[0] == c then put else [s[0]]) + Replace(s[1..], c, put)
  }

  function ShellSingleQuote(value: string): string {
    "'" + Replace(value, '\'', "'\"'\"'") + "'"
  }

  function PowershellQuote(value: string): string {
    "'" + Replace(value, '\'', "''") + "'"
  }

  function FishQuote(value: string): string {
    "'" + Replace(Replace(value, '\\', "\\\\"), '\'', "\\'") + "'"
  }

  // ---- POSIX ---------------------------------------------------------------------------------

  datatype Quote = Plain | Single | Double

  /** Characters that end a word or mean something when unquoted, sections 2.2 and 2.3 of POSIX.1-2017 XCU. */
  predicate Special(c: char) {
    c in "|&;<>()$`\\\"' \t\n*?[#~=%"
  }

  /** Characters that keep a meaning inside double quotes, section 2.2.3. */
  predicate DoubleSpecial(c: char) {
    c in "$`\\"
  }

  /**
   * A shell word read from the state `q`: section 2.2.2 takes everything up to the next single quote literally, 2.2.3
   * everything but its special characters up to the next double quote. `None` when the text is not one fully quoted
   * word, or uses anything beyond these two forms of quoting.
   */
  function PosixWord(q: Quote, text: string): Option<string>
    decreases |text|
  {
    if text == "" then (if q.Plain? then Some("") else None)
    else
      var c, rest := text[0], text[1..];
      match q
      case Plain =>
        if c == '\'' then PosixWord(Single, rest)
        else if c == '"' then PosixWord(Double, rest)
        else if Special(c) then None
        else Prefixed(c, PosixWord(Plain, rest))
      case Single =>
        if c == '\'' then PosixWord(Plain, rest) else Prefixed(c, PosixWord(Single, rest))
      case Double =>
        if c == '"' then PosixWord(Plain, rest)
        else if DoubleSpecial(c) then None
        else Prefixed(c, PosixWord(Double, rest))
  }

  function Prefixed(c: char, word: Option<string>): Option<string> {
    if word.Some? then Some([c] + word.value) else None
  }

  /** Inside single quotes, the escaped text reads back as the text itself. */
  lemma {:induction false} PosixBody(value: string)
    ensures PosixWord(Single, Replace(value, '\'', "'\"'\"'") + "'") == Some(value)
  {
    if value == "" {
      assert "" + "'" == "'";
      assert "'"[1..] == "";
    } else {
      var tail := Replace(value[1..], '\'', "'\"'\"'") + "'";
      PosixBody(value[1..]);
      assert value == [value[0]] + value[1..];
      if value[0] == '\'' {
        var text := "'\"'\"'" + tail;
        assert Replace(value, '\'', "'\"'\"'") + "'" == text;
        assert text[0] == '\'' && text[1..][0] == '"' && text[1..][1..][0] == '\'';
        assert text[1..][1..][1..][0] == '"' && text[1..][1..][1..][1..][0] == '\'';
        assert text[1..][1..][1..][1..][1..] == tail;
        assert PosixWord(Plain, text[1..][1..][1..][1..]) == Some(value[1..]);
        assert PosixWord(Double, text[1..][1..][1..]) == Some(value[1..]);
        assert PosixWord(Double, text[1..][1..]) == Some(value);
      } else {
        var text := [value[0]] + tail;
        assert Replace(value, '\'', "'\"'\"'") + "'" == text;
        assert text[1..] == tail;
      }
    }
  }

  /** Every text is quoted as one word that the shell reads back as the text. */
  lemma PosixReadsBack(value: string)
    ensures PosixWord(Plain, ShellSingleQuote(value)) == Some(value)
  {
    PosixBody(value);
    var text := ShellSingleQuote(value);
    assert text[1..] == Replace(value, '\'', "'\"'\"'") + "'";
  }

  // ---- PowerShell ----------------------------------------------------------------------------

  predicate Curly(c: char) {
    '\U{2018}' <= c <= '\U{201B}'
  }

  /** Delimiters of a verbatim string, section 2.3.5.2.2 of the Windows PowerShell language specification. */
  predicate SingleQuote(c: char) {
    c == '\'' || Curly(c)
  }

  /**
   * The inside of a verbatim string: two quotes in a row, of whatever kinds, are one, and a single one ends the string.
   * Which of the two a pair stands for is left open in `first`.
   */
  function PowershellInside(text: string, first: bool): Option<string> {
    if text == "" then None
    else if !SingleQuote(text[0]) then Prefixed(text[0], PowershellInside(text[1..], first))
    else if |text| == 1 then Some("")
    else if SingleQuote(text[1]) then
      Prefixed(if first then text[0] else text[1], PowershellInside(text[2..], first))
    else None
  }

  function PowershellWord(text: string, first: bool): Option<string> {
    if text == "" || !SingleQuote(text[0]) then None else PowershellInside(text[1..], first)
  }

  function Doubled(value: string): string {
    Replace(value, '\'', "''") + "'"
  }

  /** How the quoted inside goes on after its first character. */
  lemma DoubledStep(value: string)
    requires value != ""
    ensures var tail := Doubled(value[1..]);
            && tail != "" && (tail[0] == if |value| == 1 then '\'' else value[1])
            && (value[0] == '\'' ==> Doubled(value) == "''" + tail && Doubled(value)[2..] == tail
                                     && Doubled(value)[1..] == "'" + tail)
            && (value[0] != '\'' ==> Doubled(value) == [value[0]] + tail && Doubled(value)[1..] == tail
                                     && Doubled(value)[2..] == tail[1..])
  {
  }

  lemma {:induction false} PowershellBody(value: string, first: bool)
    requires forall i :: 0 <= i < |value| ==> !Curly(value[i])
    ensures PowershellInside(Doubled(value), first) == Some(value)
  {
    hide Doubled, Replace;
    if value == "" {
      NothingDoubled();
    } else {
      DoubledStep(value);
      PowershellBody(value[1..], first);
      assert value == [value[0]] + value[1..];
    }
  }

  lemma NothingDoubled()
    ensures Doubled("") == "'"
  {
  }

  /** Behind a stray quote the inside reads as no longer a text than was quoted. */
  lemma {:induction false} StrayQuote(q: char, value: string, first: bool)
    requires SingleQuote(q)
    ensures var w := PowershellInside([q] + Doubled(value), first); w.Some? ==> |w.value| <= |value|
    decreases |value|, 0
  {
    hide Doubled, Replace;
    var text := [q] + Doubled(value);
    assert text[1..] == Doubled(value);
    if value == "" {
      NothingDoubled();
      assert text[2..] == "";
    } else {
      DoubledStep(value);
      assert text[2..] == Doubled(value)[1..];
      if value[0] == '\'' {
        StrayQuote('\'', value[1..], first);
      } else if Curly(value[0]) {
        NeverLonger(value[1..], first);
      }
    }
  }

  /** The inside never reads as a longer text, and as a shorter one if it reads at all with a curly quote in it. */
  lemma {:induction false} NeverLonger(value: string, first: bool)
    ensures var w := PowershellInside(Doubled(value), first);
            w.Some? ==>
              |w.value| <= |value| && ((exists i :: 0 <= i < |value| && Curly(value[i])) ==> |w.value| < |value|)
    decreases |value|, 1
  {
    hide Doubled, Replace;
    if value == "" {
      NothingDoubled();
    } else {
      DoubledStep(value);
      var rest := value[1..];
      if !Curly(value[0]) {
        NeverLonger(rest, first);
        assert forall i :: 0 < i < |value| ==> value[i] == rest[i - 1];
      } else if rest == "" {
        NothingDoubled();
        assert Doubled(value)[2..] == "";
      } else {
        DoubledStep(rest);
        if rest[0] == '\'' {
          StrayQuote('\'', rest[1..], first);
        } else if Curly(rest[0]) {
          NeverLonger(rest[1..], first);
        }
      }
    }
  }

  /** A text reads back exactly when it holds none of the curly quotes, which the quoting leaves single. */
  lemma PowershellReadsBackIff(value: string, first: bool)
    ensures PowershellWord(PowershellQuote(value), first) == Some(value) <==>
            forall i :: 0 <= i < |value| ==> !('\U{2018}' <= value[i] <= '\U{201B}')
  {
    var quoted := PowershellQuote(value);
    assert quoted[1..] == Doubled(value);
    if forall i :: 0 <= i < |value| ==> !Curly(value[i]) {
      PowershellBody(value, first);
    } else {
      NeverLonger(value, first);
    }
  }

  /** A right quotation mark alone does not read as a string at all. */
  lemma CurlyQuoteIsLost(first: bool)
    ensures PowershellQuote("\U{2019}") == "'\U{2019}'" && PowershellWord("'\U{2019}'", first) == None
  {
    var value := "\U{2019}";
    assert value[1..] == "" && Replace(value, '\'', "''") == value;
    var inside := "'\U{2019}'"[1..];
    assert inside == "\U{2019}'" && inside[2..] == "";
    assert SingleQuote(inside[0]) && SingleQuote(inside[1]);
    assert PowershellInside(inside[2..], first) == None;
  }

  // ---- Fish ----------------------------------------------------------------------------------

  /** One escape per character: a backslash before each backslash and each quote. */
  function FishEscaped(value: string): string {
    if value == "" then ""
    else (if value[0] == '\\' || value[0] == '\'' then ['\\', value[0]] else [value[0]]) + FishEscaped(value[1..])
  }

  lemma {:induction false} ReplaceConcat(a: string, b: string, c: char, put: string)
    ensures Replace(a + b, c, put) == Replace(a, c, put) + Replace(b, c, put)
  {
    if a == "" {
      assert a + b == b;
    } else {
      assert (a + b)[1..] == a[1..] + b;
      ReplaceConcat(a[1..], b, c, put);
    }
  }

  /** The two replacements in a row are that escape; the first does not disturb the second. */
  lemma {:induction false} FishTwoPasses(value: string)
    ensures Replace(Replace(value, '\\', "\\\\"), '\'', "\\'") == FishEscaped(value)
  {
    if value != "" {
      FishTwoPasses(value[1..]);
      var head := if value[0] == '\\' then "\\\\" else [value[0]];
      ReplaceConcat(head, Replace(value[1..], '\\', "\\\\"), '\'', "\\'");
      assert Replace(head, '\'', "\\'") == (if value[0] == '\'' then "\\'" else head) by {
        assert head[1..] == (if value[0] == '\\' then "\\" else "");
        assert "\\"[1..] == "";
      }
    }
  }

  /** The inside of a Fish single-quoted string: a backslash escapes a backslash or a quote and is itself otherwise. */
  function FishInside(text: string): Option<string> {
    if text == "" then None
    else if text[0] == '\'' then (if |text| == 1 then Some("") else None)
    else if text[0] == '\\' && |text| > 1 && (text[1] == '\\' || text[1] == '\'') then
      Prefixed(text[1], FishInside(text[2..]))
    else Prefixed(text[0], FishInside(text[1..]))
  }

  function FishWord(text: string): Option<string> {
    if text == "" || text[0] != '\'' then None else FishInside(text[1..])
  }

  lemma {:induction false} FishBody(value: string)
    ensures FishInside(FishEscaped(value) + "'") == Some(value)
  {
    if value == "" {
      assert "" + "'" == "'";
    } else {
      var tail := FishEscaped(value[1..]) + "'";
      FishBody(value[1..]);
      assert value == [value[0]] + value[1..];
      var text := FishEscaped(value) + "'";
      if value[0] == '\\' || value[0] == '\'' {
        assert text == ['\\', value[0]] + tail;
        assert text[2..] == tail;
      } else {
        assert text == [value[0]] + tail;
        assert text[1..] == tail;
      }
    }
  }

  lemma FishReadsBack(value: string)
    ensures FishWord(FishQuote(value)) == Some(value)
  {
    FishTwoPasses(value);
    FishBody(value);
    assert FishQuote(value)[1..] == FishEscaped(value) + "'";
  }
}
