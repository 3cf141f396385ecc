/** The quoted command line of an app manifest: how it is split into arguments. */
module CommandLine {

  import opened Text

  /** A quote position: outside quotes, or inside the quotes that this character opened. */
  const NO_QUOTE: char := '\0'

  predicate IsBlank(c: char) { c == ' ' || c == '\t' || c == '\r' || c == '\n' }

  predicate IsQuote(c: char) { c == '\'' || c == '"' }

  function TrimLeft(s: string): string {
    if s != [] && IsSpace(s[0]) then TrimLeft(s[1..]) else s
  }

  function TrimRight(s: string): string {
    if s != [] && IsSpace(s[|s| - 1]) then TrimRight(s[..|s| - 1]) else s
  }

  function Trim(s: string): string {
    TrimRight(TrimLeft(s))
  }

  /** The scanner's state: finished arguments, the one being built, whether it has begun, and the
      open quote. */
  datatype Scan = Scan(arguments: seq<string>, current: string, started: bool, quote: char)

  const BLANK: Scan := Scan([], "", false, NO_QUOTE)

  /** Does the backslash in front of `next` escape it? */
  predicate Escapes(quote: char, next: char) {
    next == '\\' || next == quote || (quote == NO_QUOTE && IsBlank(next))
  }

  function Put(scan: Scan, c: char): Scan {
    scan.(current := scan.current + [c], started := true)
  }

  function Flush(scan: Scan): Scan {
    if scan.started then Scan(scan.arguments + [scan.current], "", false, scan.quote) else scan
  }

  /** One plain character, not part of a backslash pair. */
  function Step(scan: Scan, c: char): Scan {
    if scan.quote != NO_QUOTE then
      if c == scan.quote then scan.(quote := NO_QUOTE, started := true) else Put(scan, c)
    else if IsQuote(c) then scan.(quote := c, started := true)
    else if IsBlank(c) then Flush(scan)
    else Put(scan, c)
  }

  /** How many characters the scanner consumes at the front of `rest`: 2 for an escape. */
  function Width(quote: char, rest: string): nat
    requires rest != []
  {
    if rest[0] == '\\' && quote != '\'' && |rest| > 1 && Escapes(quote, rest[1]) then 2 else 1
  }

  function Read(scan: Scan, rest: string): Scan
    decreases |rest|
  {
    if rest == [] then scan
    else if Width(scan.quote, rest) == 2 then Read(Put(scan, rest[1]), rest[2..])
    else if rest[0] == '\\' && scan.quote != '\'' then Read(Put(scan, '\\'), rest[1..])
    else Read(Step(scan, rest[0]), rest[1..])
  }

  function Split(value: string): Option<seq<string>> {
    var end := Read(BLANK, Trim(value));
    if end.quote != NO_QUOTE then None else Some(Flush(end).arguments)
  }

  /** The scanner's loop over the trimmed characters. */
  method SplitCommandLine(value: string) returns (result: Option<seq<string>>)
    ensures result == Split(value)
  {
    var arguments: seq<string> := [];
    var current := "";
    var quote := NO_QUOTE;
    var started := false;
    var characters := Trim(value);
    var index := 0;
    while index < |characters|
      invariant index <= |characters|
      invariant Read(Scan(arguments, current, started, quote), characters[index..]) == Read(BLANK, characters)
      decreases |characters| - index
    {
      var character := characters[index];
      ghost var rest := characters[index..];
      index := index + 1;
      if character == '\\' && quote != '\'' {
        if index < |characters| && Escapes(quote, characters[index]) {
          current := current + [characters[index]];
          index := index + 1;
          assert rest[2..] == characters[index..];
        } else {
          current := current + [character];
        }
        started := true;
      } else if quote != NO_QUOTE {
        if character == quote {
          quote := NO_QUOTE;
        } else {
          current := current + [character];
        }
        started := true;
      } else if IsQuote(character) {
        quote, started := character, true;
      } else if IsBlank(character) {
        if started {
          arguments, current, started := arguments + [current], "", false;
        }
      } else {
        current, started := current + [character], true;
      }
    }
    if quote != NO_QUOTE {
      return None;
    }
    if started {
      arguments := arguments + [current];
    }
    return Some(arguments);
  }

  // ---- Quoting and splitting back -------------------------------------------------------------

  function Escape(argument: string): string {
    if argument == "" then ""
    else (if argument[0] == '\\' || argument[0] == '"' then ['\\', argument[0]] else [argument[0]])
         + Escape(argument[1..])
  }

  function Quote(argument: string): string {
    ['"'] + Escape(argument) + ['"']
  }

  function Join(arguments: seq<string>): string {
    if arguments == [] then ""
    else if |arguments| == 1 then Quote(arguments[0])
    else Quote(arguments[0]) + [' '] + Join(arguments[1..])
  }

  /** Inside double quotes an escaped argument is read back character by character. */
  lemma {:induction false} ReadEscaped(scan: Scan, argument: string, rest: string)
    requires scan.quote == '"' && scan.started
    ensures Read(scan, Escape(argument) + rest) == Read(scan.(current := scan.current + argument), rest)
    decreases |argument|
  {
    var text := Escape(argument) + rest;
    if argument == "" {
      assert text == rest;
      assert scan.current + argument == scan.current;
    } else {
      var c := argument[0];
      var after := Escape(argument[1..]) + rest;
      ReadEscaped(Put(scan, c), argument[1..], rest);
      assert scan.current + argument == scan.current + [c] + argument[1..];
      if c == '\\' || c == '"' {
        assert text[0] == '\\' && text[1] == c && text[2..] == after;
      } else {
        assert text[0] == c && text[1..] == after;
      }
    }
  }

  lemma ReadQuoted(scan: Scan, argument: string, rest: string)
    requires scan.quote == NO_QUOTE && !scan.started && scan.current == ""
    ensures Read(scan, Quote(argument) + rest) == Read(scan.(current := argument, started := true), rest)
  {
    var text := Quote(argument) + rest;
    var inside := scan.(quote := '"', started := true);
    assert text[0] == '"' && text[1..] == Escape(argument) + (['"'] + rest);
    ReadEscaped(inside, argument, ['"'] + rest);
    assert inside.current + argument == argument;
    var closing := ['"'] + rest;
    assert closing[0] == '"' && closing[1..] == rest;
  }

  lemma ReadQuotedAndBlank(scan: Scan, argument: string, rest: string)
    requires scan.quote == NO_QUOTE && !scan.started && scan.current == ""
    ensures Read(scan, Quote(argument) + [' '] + rest)
         == Read(Scan(scan.arguments + [argument], "", false, NO_QUOTE), rest)
  {
    var tail := [' '] + rest;
    ReadQuoted(scan, argument, tail);
    assert Quote(argument) + [' '] + rest == Quote(argument) + tail;
    assert tail[0] == ' ' && tail[1..] == rest;
  }

  lemma {:induction false} ReadJoined(scan: Scan, arguments: seq<string>)
    requires scan.quote == NO_QUOTE && !scan.started && scan.current == ""
    ensures var end := Read(scan, Join(arguments));
            end.quote == NO_QUOTE && Flush(end).arguments == scan.arguments + arguments
    decreases |arguments|
  {
    if arguments == [] {
      assert scan.arguments + arguments == scan.arguments;
    } else if |arguments| == 1 {
      ReadQuoted(scan, arguments[0], "");
      assert Quote(arguments[0]) + "" == Quote(arguments[0]);
      assert arguments == [arguments[0]];
    } else {
      var next := Scan(scan.arguments + [arguments[0]], "", false, NO_QUOTE);
      ReadQuotedAndBlank(scan, arguments[0], Join(arguments[1..]));
      ReadJoined(next, arguments[1..]);
      assert scan.arguments + arguments == next.arguments + arguments[1..];
    }
  }

  lemma {:induction false} JoinedIsTrimmed(arguments: seq<string>)
    ensures Trim(Join(arguments)) == Join(arguments)
    ensures arguments != [] ==> Join(arguments) != "" && Join(arguments)[|Join(arguments)| - 1] == '"'
    decreases |arguments|
  {
    if |arguments| > 1 {
      JoinedIsTrimmed(arguments[1..]);
    }
    if arguments != [] {
      assert Join(arguments)[0] == '"';
    }
  }

  /** Every list of arguments survives: quote each, join with spaces, split again. */
  lemma SplitOfJoin(arguments: seq<string>)
    ensures Split(Join(arguments)) == Some(arguments)
  {
    JoinedIsTrimmed(arguments);
    ReadJoined(BLANK, arguments);
    assert BLANK.arguments + arguments == arguments;
  }

  // ---- When splitting fails -------------------------------------------------------------------

  /** An independent reading of the quotes alone: which quote is open after the text. */
  function OpenQuote(open: char, text: string): char
    decreases |text|
  {
    if text == "" then open
    else if open == '\'' then OpenQuote(if text[0] == '\'' then NO_QUOTE else '\'', text[1..])
    else if text[0] == '\\' && |text| > 1 && Escapes(open, text[1]) then OpenQuote(open, text[2..])
    else if open != NO_QUOTE then OpenQuote(if text[0] == open then NO_QUOTE else open, text[1..])
    else OpenQuote(if IsQuote(text[0]) then text[0] else NO_QUOTE, text[1..])
  }

  /** Splitting fails exactly on the texts that end inside a quote. */
  lemma FailsExactlyInsideAQuote(value: string)
    ensures Split(value) == None <==> OpenQuote(NO_QUOTE, Trim(value)) != NO_QUOTE
  {
    ReadTracksTheQuote(BLANK, Trim(value));
  }

  lemma {:induction false} ReadTracksTheQuote(scan: Scan, rest: string)
    requires scan.quote == NO_QUOTE || IsQuote(scan.quote)
    ensures Read(scan, rest).quote == OpenQuote(scan.quote, rest)
    decreases |rest|
  {
    if rest != [] {
      if Width(scan.quote, rest) == 2 {
        ReadTracksTheQuote(Put(scan, rest[1]), rest[2..]);
      } else if rest[0] == '\\' && scan.quote != '\'' {
        ReadTracksTheQuote(Put(scan, '\\'), rest[1..]);
      } else {
        ReadTracksTheQuote(Step(scan, rest[0]), rest[1..]);
      }
    }
  }

  // ---- Nothing is invented --------------------------------------------------------------------

  ghost predicate IsSubsequence(s: string, of: string)
    decreases |of|
  {
    if s == "" then true
    else if of == "" then false
    else IsSubsequence(s, of[1..]) || (s[0] == of[0] && IsSubsequence(s[1..], of[1..]))
  }

  function Concat(arguments: seq<string>): string {
    if arguments == [] then "" else Concat(arguments[..|arguments| - 1]) + arguments[|arguments| - 1]
  }

  function TextOf(scan: Scan): string {
    Concat(scan.arguments) + scan.current
  }

  /** The arguments, run together, are the value with some characters left out. */
  lemma ArgumentsComeFromTheValue(value: string)
    requires Split(value).Some?
    ensures IsSubsequence(Concat(Split(value).value), value)
  {
    var end := Read(BLANK, Trim(value));
    ReadAddsASubsequence(BLANK, Trim(value));
    var added :| IsSubsequence(added, Trim(value)) && TextOf(end) == TextOf(BLANK) + added;
    ReadKeepsTidy(BLANK, Trim(value));
    FlushKeepsText(end);
    assert Concat(Flush(end).arguments) == TextOf(end) == added;
    TrimIsSubsequence(value);
    SubsequenceIsTransitive(added, Trim(value), value);
  }

  ghost predicate Tidy(scan: Scan) { scan.started || scan.current == "" }

  lemma FlushKeepsText(scan: Scan)
    requires Tidy(scan)
    ensures Concat(Flush(scan).arguments) == TextOf(scan) == TextOf(Flush(scan))
  {
    if scan.started {
      var more := scan.arguments + [scan.current];
      assert more[..|more| - 1] == scan.arguments;
      assert Concat(more) + "" == Concat(more);
    } else {
      assert Concat(scan.arguments) + "" == Concat(scan.arguments);
    }
  }

  lemma {:induction false} ReadKeepsTidy(scan: Scan, rest: string)
    requires Tidy(scan)
    ensures Tidy(Read(scan, rest))
    decreases |rest|
  {
    if rest != [] {
      if Width(scan.quote, rest) == 2 {
        ReadKeepsTidy(Put(scan, rest[1]), rest[2..]);
      } else if rest[0] == '\\' && scan.quote != '\'' {
        ReadKeepsTidy(Put(scan, '\\'), rest[1..]);
      } else {
        ReadKeepsTidy(Step(scan, rest[0]), rest[1..]);
      }
    }
  }

  lemma {:induction false} ReadAddsASubsequence(scan: Scan, rest: string)
    requires Tidy(scan)
    ensures exists added :: IsSubsequence(added, rest) && TextOf(Read(scan, rest)) == TextOf(scan) + added
    decreases |rest|
  {
    if rest == [] {
      assert IsSubsequence("", rest) && TextOf(scan) + "" == TextOf(scan);
    } else if Width(scan.quote, rest) == 2 {
      ReadAddsASubsequence(Put(scan, rest[1]), rest[2..]);
      Extend(scan, Put(scan, rest[1]), rest[1..], rest, Read(scan, rest));
    } else if rest[0] == '\\' && scan.quote != '\'' {
      ReadAddsASubsequence(Put(scan, '\\'), rest[1..]);
      Extend(scan, Put(scan, '\\'), rest, rest, Read(scan, rest));
    } else {
      var next := Step(scan, rest[0]);
      ReadAddsASubsequence(next, rest[1..]);
      if next == Put(scan, rest[0]) {
        Extend(scan, next, rest, rest, Read(scan, rest));
      } else {
        FlushKeepsText(scan);
        var added :| IsSubsequence(added, rest[1..]) && TextOf(Read(next, rest[1..])) == TextOf(next) + added;
        assert IsSubsequence(added, rest);
      }
    }
  }

  /** A step that took over the first character of `from`, a tail of `rest`. */
  lemma Extend(scan: Scan, next: Scan, from: string, rest: string, end: Scan)
    requires from != "" && next == Put(scan, from[0]) && (from == rest || (rest != "" && from == rest[1..]))
    requires exists added :: IsSubsequence(added, from[1..]) && TextOf(end) == TextOf(next) + added
    ensures exists added :: IsSubsequence(added, rest) && TextOf(end) == TextOf(scan) + added
  {
    var added :| IsSubsequence(added, from[1..]) && TextOf(end) == TextOf(next) + added;
    var more := [from[0]] + added;
    assert more[1..] == added && IsSubsequence(more, from);
    assert IsSubsequence(more, rest);
    assert TextOf(end) == TextOf(scan) + more;
  }

  lemma {:induction false} SubsequenceIsTransitive(a: string, b: string, c: string)
    requires IsSubsequence(a, b) && IsSubsequence(b, c)
    ensures IsSubsequence(a, c)
    decreases |c|
  {
    if a != "" && c != "" && b != "" {
      if IsSubsequence(b, c[1..]) {
        SubsequenceIsTransitive(a, b, c[1..]);
      } else if IsSubsequence(a, b[1..]) {
        SubsequenceIsTransitive(a, b[1..], c[1..]);
      } else {
        SubsequenceIsTransitive(a[1..], b[1..], c[1..]);
      }
    }
  }

  lemma {:induction false} Reflexive(s: string)
    ensures IsSubsequence(s, s)
    decreases |s|
  {
    if s != "" {
      Reflexive(s[1..]);
    }
  }

  lemma TrimIsSubsequence(value: string)
    ensures IsSubsequence(Trim(value), value)
  {
    LeftIsSubsequence(value);
    RightIsSubsequence(TrimLeft(value));
    SubsequenceIsTransitive(Trim(value), TrimLeft(value), value);
  }

  lemma {:induction false} LeftIsSubsequence(s: string)
    ensures IsSubsequence(TrimLeft(s), s)
    decreases |s|
  {
    if s != [] && IsSpace(s[0]) {
      LeftIsSubsequence(s[1..]);
    } else {
      Reflexive(s);
    }
  }

  lemma {:induction false} RightIsSubsequence(s: string)
    ensures IsSubsequence(TrimRight(s), s)
    decreases |s|
  {
    if s != [] && IsSpace(s[|s| - 1]) {
      RightIsSubsequence(s[..|s| - 1]);
      PrefixIsSubsequence(s, |s| - 1);
      SubsequenceIsTransitive(TrimRight(s), s[..|s| - 1], s);
    } else {
      Reflexive(s);
    }
  }

  lemma {:induction false} PrefixIsSubsequence(s: string, n: nat)
    requires n <= |s|
    ensures IsSubsequence(s[..n], s)
    decreases |s|
  {
    if n > 0 {
      PrefixIsSubsequence(s[1..], n - 1);
      assert s[..n][1..] == s[1..][..n - 1];
    }
  }
}
