/** shellQuote, and the part of shell lexing that undoes it: quoting as in sections 2.2.2 and 2.2.3 of the
    Shell Command Language chapter of IEEE Std 1003.1, and words separated by blanks. */
module ShellQuote {
  import opened Contract

  /** strings.ReplaceAll of each single quote by '"'"'. */
  function Escape(s: string): string {
    if s == "" then "" else (if s[0] == '\'' then "'\"'\"'" else [s[0]]) + Escape(s[1..])
  }

  function Quote(s: string): string { "'" + Escape(s) + "'" }

  // ----- the lexer -----

  datatype Mode = Outside | Single | Double

  predicate IsBlank(c: char) { c == ' ' || c == '\t' }

  /** Characters that mean something else outside quotes: escapes, expansions, operators, comments, patterns. */
  predicate Special(c: char) { c in "\\$`|&;<>()\n#*?[~=%!{}" || c == '\0' }

  function Closed(word: Option<string>, words: seq<string>): seq<string> {
    if word.Some? then words + [word.value] else words
  }

  function Grown(word: Option<string>, more: string): Option<string> {
    Some(if word.Some? then word.value + more else more)
  }

  /** The words of s, read on from the given state; None if a quote stays open or anything but quoting,
      blanks and ordinary characters occurs. */
  function Lex(s: string, mode: Mode, word: Option<string>, words: seq<string>): Option<seq<string>> {
    if s == "" then (if mode == Outside then Some(Closed(word, words)) else None)
    else
      var c, rest := s[0], s[1..];
      if c == '\0' then None
      else match mode
           case Outside =>
             if IsBlank(c) then Lex(rest, Outside, None, Closed(word, words))
             else if c == '\'' then Lex(rest, Single, Grown(word, ""), words)
             else if c == '"' then Lex(rest, Double, Grown(word, ""), words)
             else if Special(c) then None
             else Lex(rest, Outside, Grown(word, [c]), words)
           case Single =>
             if c == '\'' then Lex(rest, Outside, word, words) else Lex(rest, Single, Grown(word, [c]), words)
           case Double =>
             if c == '"' then Lex(rest, Outside, word, words)
             else if c in "$`\\" then None
             else Lex(rest, Double, Grown(word, [c]), words)
  }

  // ----- round trips -----

  lemma LexOne(c: char, rest: string, mode: Mode, word: Option<string>, words: seq<string>)
    ensures ([c] + rest)[0] == c && ([c] + rest)[1..] == rest
  {
  }

  /** The five characters that stand for a quote close the quoting, add one quote, and reopen it. */
  lemma LexEscapedQuote(rest: string, w: string, words: seq<string>)
    ensures Lex("'\"'\"'" + rest, Single, Some(w), words) == Lex(rest, Single, Some(w + "'"), words)
  {
    var s := "'\"'\"'" + rest;
    assert s[1..] == "\"'\"'" + rest;
    assert s[1..][1..] == "'\"'" + rest;
    assert s[1..][1..][1..] == "\"'" + rest;
    assert s[1..][1..][1..][1..] == "'" + rest;
    assert s[1..][1..][1..][1..][1..] == rest;
    assert w + "" == w && w + "'" + "" == w + "'";
    calc {
      Lex(s, Single, Some(w), words);
      Lex(s[1..], Outside, Some(w), words);
      Lex(s[1..][1..], Double, Some(w), words);
      Lex(s[1..][1..][1..], Double, Some(w + "'"), words);
      Lex(s[1..][1..][1..][1..], Outside, Some(w + "'"), words);
      Lex(rest, Single, Some(w + "'"), words);
    }
  }

  lemma {:induction false} LexEscaped(s: string, rest: string, w: string, words: seq<string>)
    requires '\0' !in s
    ensures Lex(Escape(s) + "'" + rest, Single, Some(w), words) == Lex(rest, Outside, Some(w + s), words)
  {
    if s == "" {
      assert Escape(s) + "'" + rest == "'" + rest;
      LexOne('\'', rest, Single, Some(w), words);
      assert w + s == w;
    } else {
      var tail := Escape(s[1..]) + "'" + rest;
      assert s == [s[0]] + s[1..];
      assert w + s == w + [s[0]] + s[1..];
      assert '\0' !in s[1..];
      if s[0] == '\'' {
        assert Escape(s) + "'" + rest == "'\"'\"'" + tail;
        LexEscapedQuote(tail, w, words);
      } else {
        assert Escape(s) + "'" + rest == [s[0]] + tail;
        LexOne(s[0], tail, Single, Some(w), words);
      }
      LexEscaped(s[1..], rest, w + [s[0]], words);
    }
  }

  /** A quoted string is read back whole, whatever follows. */
  lemma LexQuoted(s: string, rest: string, words: seq<string>)
    requires '\0' !in s
    ensures Lex(Quote(s) + rest, Outside, None, words) == Lex(rest, Outside, Some(s), words)
  {
    var tail := Escape(s) + "'" + rest;
    assert Quote(s) + rest == ['\''] + tail;
    LexOne('\'', tail, Outside, None, words);
    LexEscaped(s, rest, "", words);
    assert "" + s == s;
  }

  /** Lexing a quoted string gives exactly one word, the string itself. */
  lemma QuoteRoundTrip(s: string)
    requires '\0' !in s
    ensures Lex(Quote(s), Outside, None, []) == Some([s])
  {
    assert Quote(s) + "" == Quote(s);
    LexQuoted(s, "", []);
    assert Closed(Some(s), []) == [s];
  }

  predicate Gap(s: string) { forall c :: c in s ==> IsBlank(c) }

  /** Quoted arguments, each followed by its gap. */
  function Line(args: seq<string>, gaps: seq<string>): string
    requires |gaps| == |args|
  {
    if args == [] then "" else Quote(args[0]) + gaps[0] + Line(args[1..], gaps[1..])
  }

  /** Gaps are blank, and none but the last is empty. */
  predicate Separated(gaps: seq<string>) {
    forall i :: 0 <= i < |gaps| ==> Gap(gaps[i]) && (i < |gaps| - 1 ==> gaps[i] != "")
  }

  lemma {:induction false} LexGap(gap: string, rest: string, word: Option<string>, words: seq<string>)
    requires Gap(gap)
    ensures gap != "" ==> Lex(gap + rest, Outside, word, words) == Lex(rest, Outside, None, Closed(word, words))
    ensures gap == "" ==> gap + rest == rest
  {
    if gap != "" {
      assert gap == [gap[0]] + gap[1..] && gap + rest == [gap[0]] + (gap[1..] + rest);
      assert gap[0] in gap;
      LexOne(gap[0], gap[1..] + rest, Outside, word, words);
      LexGap(gap[1..], rest, None, Closed(word, words));
    }
  }

  /** Blank-separated quoted arguments lex back to the same list. */
  lemma {:induction false} LineRoundTrip(args: seq<string>, gaps: seq<string>, words: seq<string>)
    requires |gaps| == |args| && Separated(gaps) && forall a :: a in args ==> '\0' !in a
    ensures Lex(Line(args, gaps), Outside, None, words) == Some(words + args)
  {
    if args == [] {
      assert words + args == words;
    } else {
      hide Quote, Lex;
      var rest := Line(args[1..], gaps[1..]);
      assert Line(args, gaps) == Quote(args[0]) + (gaps[0] + rest);
      LexQuoted(args[0], gaps[0] + rest, words);
      LexGap(gaps[0], rest, Some(args[0]), words);
      LineRoundTrip(args[1..], gaps[1..], words + [args[0]]);
      assert words + [args[0]] + args[1..] == words + args;
    }
  }
}
