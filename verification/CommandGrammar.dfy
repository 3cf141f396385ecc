/** The grammar of command lines: what splitting gives, told without the scanner. */
module CommandGrammar {
  import opened Text
  import opened CommandLine

  // ---- The grammar ----------------------------------------------------------------------------

  /** What a command line is made of: characters that stand for themselves, backslash pairs, the marks
      that open and close quotes, and blanks between arguments. */
  datatype Token = Plain(c: char) | Escaped(c: char) | Open(mark: char) | Close(mark: char) | Gap(c: char)

  function Spelling(t: Token): string {
    match t
    case Plain(c) => [c]
    case Escaped(c) => ['\\', c]
    case Open(mark) => [mark]
    case Close(mark) => [mark]
    case Gap(c) => [c]
  }

  function Render(tokens: seq<Token>): string {
    if tokens == [] then "" else Spelling(tokens[0]) + Render(tokens[1..])
  }

  /** The characters that a backslash can escape outside quotes and inside double quotes. */
  predicate Escapable(open: char, c: char) {
    if open == NO_QUOTE then c in ['\\', '\0', ' ', '\t', '\r', '\n']
    else open == '"' && c in ['\\', '"']
  }

  /** Tokens that can follow each other when the quote `open` is open. A backslash stands for itself
      where it escapes nothing. */
  predicate Legal(tokens: seq<Token>, open: char) {
    if tokens == [] then true
    else
      var rest := tokens[1..];
      match tokens[0]
      case Plain(c) =>
        && (if open == NO_QUOTE then c !in ['\'', '"', ' ', '\t', '\r', '\n'] else c != open)
        && (c == '\\' && Render(rest) != "" ==> !Escapable(open, Render(rest)[0]))
        && Legal(rest, open)
      case Escaped(c) => Escapable(open, c) && Legal(rest, open)
      case Open(mark) => open == NO_QUOTE && mark in ['\'', '"'] && Legal(rest, mark)
      case Close(mark) => open == mark && mark in ['\'', '"'] && Legal(rest, NO_QUOTE)
      case Gap(c) => open == NO_QUOTE && c in [' ', '\t', '\r', '\n'] && Legal(rest, NO_QUOTE)
  }

  function NextOpen(t: Token, open: char): char {
    match t case Open(mark) => mark case Close(_) => NO_QUOTE case _ => open
  }

  function OpenAfter(tokens: seq<Token>, open: char): char {
    if tokens == [] then open else OpenAfter(tokens[1..], NextOpen(tokens[0], open))
  }

  function Written(t: Token): string {
    match t case Plain(c) => [c] case Escaped(c) => [c] case _ => ""
  }

  function Content(tokens: seq<Token>): string {
    if tokens == [] then "" else Written(tokens[0]) + Content(tokens[1..])
  }

  lemma Cons(t: Token, rest: seq<Token>, open: char)
    ensures ([t] + rest)[1..] == rest
    ensures Render([t] + rest) == Spelling(t) + Render(rest)
    ensures Content([t] + rest) == Written(t) + Content(rest)
    ensures OpenAfter([t] + rest, open) == OpenAfter(rest, NextOpen(t, open))
  {
    assert ([t] + rest)[1..] == rest;
  }

  lemma Associate(a: string, b: string, c: string)
    ensures a + (b + c) == (a + b) + c
  {
  }

  /** The length of the argument in front: up to the first gap. */
  function ArgumentLength(tokens: seq<Token>): (n: nat)
    ensures n <= |tokens|
  {
    if tokens == [] || tokens[0].Gap? then 0 else 1 + ArgumentLength(tokens[1..])
  }

  /** The arguments: what lies between the gaps. */
  function Arguments(tokens: seq<Token>): seq<string>
    decreases |tokens|
  {
    if tokens == [] then []
    else if tokens[0].Gap? then Arguments(tokens[1..])
    else [Content(tokens[..ArgumentLength(tokens)])] + Arguments(tokens[ArgumentLength(tokens)..])
  }

  /** A command line in full: legal tokens with all quotes closed, whose text is the trimmed value. */
  ghost predicate Spells(tokens: seq<Token>, value: string) {
    Legal(tokens, NO_QUOTE) && OpenAfter(tokens, NO_QUOTE) == NO_QUOTE && Render(tokens) == Trim(value)
  }

  function Take(scan: Scan, t: Token): Scan {
    match t
    case Plain(c) => Put(scan, c)
    case Escaped(c) => Put(scan, c)
    case Open(mark) => scan.(quote := mark, started := true)
    case Close(_) => scan.(quote := NO_QUOTE, started := true)
    case Gap(_) => Flush(scan)
  }

  lemma ReadPair(scan: Scan, c: char, rest: string)
    requires Escapable(scan.quote, c)
    ensures Read(scan, ['\\', c] + rest) == Read(Put(scan, c), rest)
  {
    var text := ['\\', c] + rest;
    assert text[0] == '\\' && text[1] == c && text[2..] == rest;
  }

  lemma ReadSingle(scan: Scan, c: char, rest: string)
    requires c == '\\' && scan.quote != '\'' && rest != "" ==> !Escapable(scan.quote, rest[0])
    requires scan.quote in [NO_QUOTE, '\'', '"']
    ensures Read(scan, [c] + rest) == if c == '\\' then Read(Put(scan, c), rest) else Read(Step(scan, c), rest)
  {
    var text := [c] + rest;
    assert text[0] == c && text[1..] == rest;
    if rest != "" {
      assert text[1] == rest[0];
    }
  }

  lemma ReadToken(scan: Scan, t: Token, rest: seq<Token>)
    requires Legal([t] + rest, scan.quote) && scan.quote in [NO_QUOTE, '\'', '"']
    ensures Read(scan, Spelling(t) + Render(rest)) == Read(Take(scan, t), Render(rest))
    ensures Legal(rest, Take(scan, t).quote) && Take(scan, t).quote in [NO_QUOTE, '\'', '"']
  {
    assert ([t] + rest)[1..] == rest;
    match t
    case Escaped(c) => ReadPair(scan, c, Render(rest));
    case Plain(c) => ReadSingle(scan, c, Render(rest));
    case Open(mark) => ReadSingle(scan, mark, Render(rest));
    case Close(mark) => ReadSingle(scan, mark, Render(rest));
    case Gap(c) => ReadSingle(scan, c, Render(rest));
  }

  function TakeAll(scan: Scan, tokens: seq<Token>): Scan
    decreases |tokens|
  {
    if tokens == [] then scan else TakeAll(Take(scan, tokens[0]), tokens[1..])
  }

  lemma {:induction false} ReadTokens(scan: Scan, tokens: seq<Token>)
    requires Legal(tokens, scan.quote) && scan.quote in [NO_QUOTE, '\'', '"']
    ensures Read(scan, Render(tokens)) == TakeAll(scan, tokens)
    ensures TakeAll(scan, tokens).quote == OpenAfter(tokens, scan.quote)
    decreases |tokens|
  {
    if tokens != [] {
      assert [tokens[0]] + tokens[1..] == tokens;
      ReadToken(scan, tokens[0], tokens[1..]);
      ReadTokens(Take(scan, tokens[0]), tokens[1..]);
    }
  }

  /** The arguments that `tokens` add behind an argument that may have begun. */
  function Continued(current: string, started: bool, tokens: seq<Token>): seq<string> {
    var n := ArgumentLength(tokens);
    if started then [current + Content(tokens[..n])] + Arguments(tokens[n..]) else Arguments(tokens)
  }

  lemma ContinuedStep(current: string, started: bool, t: Token, rest: seq<Token>)
    requires started || current == ""
    ensures Continued(current, started, [t] + rest)
         == if t.Gap? then (if started then [current] else []) + Continued("", false, rest)
            else Continued(current + Content([t]), true, rest)
  {
    var tokens := [t] + rest;
    assert tokens[1..] == rest;
    if t.Gap? {
      assert tokens[..0] == [] && tokens[0..] == tokens && current + "" == current;
      assert [] + Arguments(rest) == Arguments(rest);
    } else {
      var n := ArgumentLength(rest);
      assert tokens[..n + 1] == [t] + rest[..n] && tokens[n + 1..] == rest[n..];
      assert ([t] + rest[..n])[1..] == rest[..n];
      assert [t][1..] == [];
      assert Content([t]) + "" == Content([t]);
      assert Content([t] + rest[..n]) == Content([t]) + Content(rest[..n]);
      assert current + (Content([t]) + Content(rest[..n])) == (current + Content([t])) + Content(rest[..n]);
      assert !started ==> "" + Content(tokens[..n + 1]) == Content(tokens[..n + 1]);
    }
  }

  lemma {:induction false} TakenArguments(scan: Scan, tokens: seq<Token>)
    requires Tidy(scan)
    ensures Flush(TakeAll(scan, tokens)).arguments == scan.arguments + Continued(scan.current, scan.started, tokens)
    decreases |tokens|
  {
    if tokens == [] {
      assert tokens[..0] == [] && tokens[0..] == [];
      assert scan.current + "" == scan.current;
      assert scan.arguments + [] == scan.arguments;
    } else {
      assert [tokens[0]] + tokens[1..] == tokens;
      ContinuedStep(scan.current, scan.started, tokens[0], tokens[1..]);
      TakenArguments(Take(scan, tokens[0]), tokens[1..]);
      OneTaken(scan, tokens[0], tokens[1..]);
    }
  }

  lemma OneTaken(scan: Scan, t: Token, rest: seq<Token>)
    requires Tidy(scan)
    requires Continued(scan.current, scan.started, [t] + rest)
          == if t.Gap? then (if scan.started then [scan.current] else []) + Continued("", false, rest)
             else Continued(scan.current + Content([t]), true, rest)
    ensures var next := Take(scan, t);
            next.arguments + Continued(next.current, next.started, rest) ==
            scan.arguments + Continued(scan.current, scan.started, [t] + rest)
  {
    Cons(t, [], NO_QUOTE);
    assert [t] + [] == [t];
    var next, more := Take(scan, t), Continued(scan.current, scan.started, [t] + rest);
    if t.Gap? {
      var flushed := if scan.started then [scan.current] else [];
      assert next.arguments == scan.arguments + flushed;
      AssociateLists(scan.arguments, flushed, Continued("", false, rest));
    } else {
      assert next.current == scan.current + Content([t]);
      assert more == Continued(next.current, true, rest);
    }
  }

  lemma AssociateLists(a: seq<string>, b: seq<string>, c: seq<string>)
    ensures a + (b + c) == (a + b) + c
  {
  }

  /** Any spelling of a value gives its arguments. */
  lemma SpellingSplits(tokens: seq<Token>, value: string)
    requires Spells(tokens, value)
    ensures Split(value) == Some(Arguments(tokens))
  {
    ReadTokens(BLANK, tokens);
    TakenArguments(BLANK, tokens);
    assert [] + Arguments(tokens) == Arguments(tokens);
  }

  function Tokenize(text: string, open: char): seq<Token>
    decreases |text|
  {
    if text == "" then []
    else
      var c := text[0];
      if c == '\\' && |text| > 1 && Escapable(open, text[1]) then [Escaped(text[1])] + Tokenize(text[2..], open)
      else if open != NO_QUOTE && c == open then [Close(c)] + Tokenize(text[1..], NO_QUOTE)
      else if open == NO_QUOTE && (c == '\'' || c == '"') then [Open(c)] + Tokenize(text[1..], c)
      else if open == NO_QUOTE && c in [' ', '\t', '\r', '\n'] then [Gap(c)] + Tokenize(text[1..], open)
      else [Plain(c)] + Tokenize(text[1..], open)
  }

  lemma {:induction false} TokensSpell(text: string, open: char)
    requires open in [NO_QUOTE, '\'', '"']
    ensures Render(Tokenize(text, open)) == text && Legal(Tokenize(text, open), open)
    decreases |text|
  {
    if text != "" {
      var tokens := Tokenize(text, open);
      var t := tokens[0];
      var after := NextOpen(t, open);
      assert tokens == [t] + Tokenize(text[|Spelling(t)|..], after);
      assert tokens[1..] == Tokenize(text[|Spelling(t)|..], after);
      TokensSpell(text[|Spelling(t)|..], after);
      assert Spelling(t) == text[..|Spelling(t)|];
    }
  }

  /** What splitting gives, without the scanner: a value splits into these arguments if and only if
      it can be spelled with legal tokens that have them between their gaps. */
  lemma SplitsExactly(value: string, arguments: seq<string>)
    ensures Split(value) == Some(arguments) <==>
              exists tokens :: Spells(tokens, value) && Arguments(tokens) == arguments
  {
    if Split(value) == Some(arguments) {
      var tokens := Tokenize(Trim(value), NO_QUOTE);
      TokensSpell(Trim(value), NO_QUOTE);
      ReadTokens(BLANK, tokens);
      SpellingSplits(tokens, value);
      assert Spells(tokens, value);
    }
    if tokens :| Spells(tokens, value) && Arguments(tokens) == arguments {
      SpellingSplits(tokens, value);
    }
  }

  /** Only quote marks, escaping backslashes and gaps are left out. */
  lemma ArgumentsAreTheContent(tokens: seq<Token>, value: string)
    requires Spells(tokens, value)
    ensures Split(value).Some? && Concat(Split(value).value) == Content(tokens)
  {
    SpellingSplits(tokens, value);
    ContentOfArguments(tokens);
  }

  lemma {:induction false} ConcatOfCons(head: string, tail: seq<string>)
    ensures Concat([head] + tail) == head + Concat(tail)
    decreases |tail|
  {
    var all := [head] + tail;
    if tail == [] {
      assert all[..0] == [] && Concat([]) + head == head && head + "" == head;
    } else {
      ConcatOfCons(head, tail[..|tail| - 1]);
      assert all[..|all| - 1] == [head] + tail[..|tail| - 1];
    }
  }

  lemma {:induction false} ContentOfConcat(a: seq<Token>, b: seq<Token>)
    ensures Content(a + b) == Content(a) + Content(b)
    decreases |a|
  {
    if a == [] {
      assert a + b == b;
    } else {
      ContentOfConcat(a[1..], b);
      Cons(a[0], a[1..] + b, NO_QUOTE);
      assert a + b == [a[0]] + (a[1..] + b);
      Associate(Written(a[0]), Content(a[1..]), Content(b));
    }
  }

  lemma {:induction false} ContentOfArguments(tokens: seq<Token>)
    ensures Concat(Arguments(tokens)) == Content(tokens)
    decreases |tokens|
  {
    if tokens != [] {
      if tokens[0].Gap? {
        ContentOfArguments(tokens[1..]);
        assert "" + Content(tokens[1..]) == Content(tokens[1..]);
      } else {
        var n := ArgumentLength(tokens);
        ContentOfArguments(tokens[n..]);
        ConcatOfCons(Content(tokens[..n]), Arguments(tokens[n..]));
        ContentOfConcat(tokens[..n], tokens[n..]);
        assert tokens[..n] + tokens[n..] == tokens;
      }
    }
  }

  // ---- Lines put together from written arguments ----------------------------------------------

  /** Trimming takes off white space at both ends, and all of it. */
  lemma TrimIsExact(value: string) returns (before: string, after: string)
    ensures value == before + Trim(value) + after
    ensures forall c | c in before || c in after :: IsSpace(c)
    ensures Trim(value) != "" ==> !IsSpace(Trim(value)[0]) && !IsSpace(Trim(value)[|Trim(value)| - 1])
  {
    before := LeftIsExact(value);
    after := RightIsExact(TrimLeft(value));
    assert Trim(value) != "" ==> Trim(value)[0] == TrimLeft(value)[0];
    assert value == before + (Trim(value) + after);
  }

  lemma {:induction false} LeftIsExact(s: string) returns (before: string)
    ensures s == before + TrimLeft(s) && forall c | c in before :: IsSpace(c)
    ensures TrimLeft(s) != "" ==> !IsSpace(TrimLeft(s)[0])
    decreases |s|
  {
    before := "";
    if s != [] && IsSpace(s[0]) {
      var rest := LeftIsExact(s[1..]);
      before := [s[0]] + rest;
      assert s == [s[0]] + (rest + TrimLeft(s));
    }
  }

  lemma {:induction false} RightIsExact(s: string) returns (after: string)
    ensures s == TrimRight(s) + after && forall c | c in after :: IsSpace(c)
    ensures TrimRight(s) != "" ==> !IsSpace(TrimRight(s)[|TrimRight(s)| - 1])
    decreases |s|
  {
    after := "";
    if s != [] && IsSpace(s[|s| - 1]) {
      var rest := RightIsExact(s[..|s| - 1]);
      after := rest + [s[|s| - 1]];
      assert s == (TrimRight(s) + rest) + [s[|s| - 1]];
    }
  }

  /** Nothing is trimmed off the text. */
  predicate EndsBare(text: string) {
    text != "" ==> !IsSpace(text[0]) && !IsSpace(text[|text| - 1])
  }

  lemma BareIsTrimmed(text: string)
    requires EndsBare(text)
    ensures Trim(text) == text
  {
  }

  /** Legal wherever it stands: a backslash stands for itself only inside single quotes. */
  predicate Standalone(tokens: seq<Token>, open: char) {
    if tokens == [] then true
    else
      var rest := tokens[1..];
      match tokens[0]
      case Plain(c) =>
        && (if open == NO_QUOTE then c !in ['\'', '"', ' ', '\t', '\r', '\n'] else c != open)
        && (c == '\\' ==> open == '\'') && Standalone(rest, open)
      case Escaped(c) => Escapable(open, c) && Standalone(rest, open)
      case Open(mark) => open == NO_QUOTE && mark in ['\'', '"'] && Standalone(rest, mark)
      case Close(mark) => open == mark && mark in ['\'', '"'] && Standalone(rest, NO_QUOTE)
      case Gap(_) => false
  }

  /** One argument, written with or without quotes and backslashes. */
  predicate Writes(tokens: seq<Token>) {
    tokens != [] && Standalone(tokens, NO_QUOTE) && OpenAfter(tokens, NO_QUOTE) == NO_QUOTE
  }

  predicate IsGap(gap: string) {
    gap != "" && forall i | 0 <= i < |gap| :: gap[i] in [' ', '\t', '\r', '\n']
  }

  function Renders(parts: seq<seq<Token>>): seq<string> {
    if parts == [] then [] else [Render(parts[0])] + Renders(parts[1..])
  }

  function Contents(parts: seq<seq<Token>>): seq<string> {
    if parts == [] then [] else [Content(parts[0])] + Contents(parts[1..])
  }

  /** The texts with the gaps between them. */
  function JoinWith(texts: seq<string>, gaps: seq<string>): string
    requires |texts| == |gaps| + 1
  {
    if gaps == [] then texts[0] else texts[0] + gaps[0] + JoinWith(texts[1..], gaps[1..])
  }

  function GapTokens(gap: string): seq<Token> {
    if gap == "" then [] else [Gap(gap[0])] + GapTokens(gap[1..])
  }

  function Line(parts: seq<seq<Token>>, gaps: seq<string>): seq<Token>
    requires |parts| == |gaps| + 1
  {
    if gaps == [] then parts[0] else parts[0] + (GapTokens(gaps[0]) + Line(parts[1..], gaps[1..]))
  }

  lemma {:induction false} PartIsLegal(part: seq<Token>, open: char, rest: seq<Token>)
    requires Standalone(part, open) && Legal(rest, OpenAfter(part, open))
    ensures Legal(part + rest, open)
    decreases |part|
  {
    if part == [] {
      assert part + rest == rest;
    } else {
      var after := NextOpen(part[0], open);
      PartIsLegal(part[1..], after, rest);
      assert (part + rest)[1..] == part[1..] + rest;
    }
  }

  lemma {:induction false} PartEnds(part: seq<Token>, open: char, rest: seq<Token>)
    ensures OpenAfter(part + rest, open) == OpenAfter(rest, OpenAfter(part, open))
    decreases |part|
  {
    if part == [] {
      assert part + rest == rest;
    } else {
      var after := NextOpen(part[0], open);
      PartEnds(part[1..], after, rest);
      assert (part + rest)[1..] == part[1..] + rest;
    }
  }

  lemma {:induction false} PartInFront(part: seq<Token>, rest: seq<Token>)
    ensures Render(part + rest) == Render(part) + Render(rest)
    decreases |part|
  {
    if part == [] {
      assert part + rest == rest;
    } else {
      PartInFront(part[1..], rest);
      ConsInFront(part[0], part[1..], rest);
      assert part == [part[0]] + part[1..];
    }
  }

  lemma ConsInFront(t: Token, part: seq<Token>, rest: seq<Token>)
    requires Render(part + rest) == Render(part) + Render(rest)
    ensures Render([t] + part + rest) == Render([t] + part) + Render(rest)
  {
    AssociateTokens([t], part, rest);
    RenderCons(t, part);
    RenderCons(t, part + rest);
    Associate(Spelling(t), Render(part), Render(rest));
  }

  lemma RenderCons(t: Token, rest: seq<Token>)
    ensures Render([t] + rest) == Spelling(t) + Render(rest)
  {
    Cons(t, rest, NO_QUOTE);
  }

  lemma AssociateTokens(a: seq<Token>, b: seq<Token>, c: seq<Token>)
    ensures a + b + c == a + (b + c)
  {
  }

  lemma {:induction false} PartLength(part: seq<Token>, open: char, rest: seq<Token>)
    requires Standalone(part, open) && (rest == [] || rest[0].Gap?)
    ensures ArgumentLength(part + rest) == |part|
    decreases |part|
  {
    if part == [] {
      assert part + rest == rest;
    } else {
      var after := NextOpen(part[0], open);
      PartLength(part[1..], after, rest);
      assert (part + rest)[1..] == part[1..] + rest;
    }
  }

  lemma OneGapInFront(c: char, rest: seq<Token>)
    requires c in [' ', '\t', '\r', '\n'] && Legal(rest, NO_QUOTE)
    ensures Legal([Gap(c)] + rest, NO_QUOTE) && Arguments([Gap(c)] + rest) == Arguments(rest)
  {
    assert ([Gap(c)] + rest)[1..] == rest;
  }

  /** Gaps in front of legal tokens leave them legal, and their arguments as they are. */
  lemma {:induction false} GapInFront(gap: string, rest: seq<Token>)
    requires (forall i | 0 <= i < |gap| :: gap[i] in [' ', '\t', '\r', '\n']) && Legal(rest, NO_QUOTE)
    ensures Legal(GapTokens(gap) + rest, NO_QUOTE) && Arguments(GapTokens(gap) + rest) == Arguments(rest)
    decreases |gap|
  {
    if gap == "" {
      assert GapTokens(gap) + rest == rest;
    } else {
      GapInFront(gap[1..], rest);
      OneGapInFront(gap[0], GapTokens(gap[1..]) + rest);
      assert GapTokens(gap) + rest == [Gap(gap[0])] + (GapTokens(gap[1..]) + rest);
    }
  }

  lemma {:induction false} GapText(gap: string, rest: seq<Token>)
    ensures Render(GapTokens(gap) + rest) == gap + Render(rest)
    ensures OpenAfter(GapTokens(gap) + rest, NO_QUOTE) == OpenAfter(rest, NO_QUOTE)
    decreases |gap|
  {
    if gap == "" {
      assert GapTokens(gap) + rest == rest;
    } else {
      GapText(gap[1..], rest);
      Cons(Gap(gap[0]), GapTokens(gap[1..]) + rest, NO_QUOTE);
      assert GapTokens(gap) + rest == [Gap(gap[0])] + (GapTokens(gap[1..]) + rest);
      Associate([gap[0]], gap[1..], Render(rest));
      assert [gap[0]] + gap[1..] == gap;
    }
  }

  lemma {:induction false} LineIsLegal(parts: seq<seq<Token>>, gaps: seq<string>)
    requires |parts| == |gaps| + 1
    requires forall i | 0 <= i < |parts| :: Writes(parts[i])
    requires forall i | 0 <= i < |gaps| :: IsGap(gaps[i])
    ensures Legal(Line(parts, gaps), NO_QUOTE) && OpenAfter(Line(parts, gaps), NO_QUOTE) == NO_QUOTE
    ensures |Renders(parts)| == |parts| && Render(Line(parts, gaps)) == JoinWith(Renders(parts), gaps)
    ensures Arguments(Line(parts, gaps)) == Contents(parts)
    decreases |gaps|
  {
    if gaps == [] {
      PartIsLegal(parts[0], NO_QUOTE, []);
      PartLength(parts[0], NO_QUOTE, []);
      assert parts[0] + [] == parts[0] && parts[1..] == [];
      assert !parts[0][0].Gap?;
      assert parts[0][..|parts[0]|] == parts[0] && parts[0][|parts[0]|..] == [];
    } else {
      var rest := Line(parts[1..], gaps[1..]);
      LineIsLegal(parts[1..], gaps[1..]);
      GapInFront(gaps[0], rest);
      GapText(gaps[0], rest);
      var tail := GapTokens(gaps[0]) + rest;
      PartIsLegal(parts[0], NO_QUOTE, tail);
      PartEnds(parts[0], NO_QUOTE, tail);
      PartInFront(parts[0], tail);
      PartLength(parts[0], NO_QUOTE, tail);
      assert !parts[0][0].Gap?;
      var n := |parts[0]|;
      assert (parts[0] + tail)[..n] == parts[0] && (parts[0] + tail)[n..] == tail;
      LineText(Render(parts[0]), gaps[0], Renders(parts[1..]), gaps[1..]);
    }
  }

  lemma LineText(text: string, gap: string, texts: seq<string>, gaps: seq<string>)
    requires |texts| == |gaps| + 1
    ensures JoinWith([text] + texts, [gap] + gaps) == text + (gap + JoinWith(texts, gaps))
  {
    assert ([text] + texts)[1..] == texts && ([gap] + gaps)[1..] == gaps;
  }

  /** However the arguments are written, with gaps of blanks between them, they are split back, as
      long as the line does not begin or end with white space. */
  lemma WritingsSplit(parts: seq<seq<Token>>, gaps: seq<string>)
    requires |parts| == |gaps| + 1
    requires forall i | 0 <= i < |parts| :: Writes(parts[i])
    requires forall i | 0 <= i < |gaps| :: IsGap(gaps[i])
    requires |Renders(parts)| == |parts| && EndsBare(JoinWith(Renders(parts), gaps))
    ensures Split(JoinWith(Renders(parts), gaps)) == Some(Contents(parts))
  {
    LineIsLegal(parts, gaps);
    BareIsTrimmed(JoinWith(Renders(parts), gaps));
    SpellingSplits(Line(parts, gaps), JoinWith(Renders(parts), gaps));
  }

  // ---- Three ways of writing an argument ------------------------------------------------------

  function Plainly(word: string): seq<Token> {
    if word == "" then [] else [Plain(word[0])] + Plainly(word[1..])
  }

  /** A word with nothing special in it is written as it is. */
  lemma {:induction false} PlainlyWrites(word: string)
    requires forall i | 0 <= i < |word| :: word[i] !in ['\'', '"', '\\', ' ', '\t', '\r', '\n']
    ensures Render(Plainly(word)) == word == Content(Plainly(word))
    ensures Standalone(Plainly(word), NO_QUOTE) && OpenAfter(Plainly(word), NO_QUOTE) == NO_QUOTE
    ensures word != "" ==> Writes(Plainly(word))
  {
    if word != "" {
      PlainlyWrites(word[1..]);
      assert Plainly(word)[1..] == Plainly(word[1..]);
      assert word == [word[0]] + word[1..];
    }
  }

  function InSingleQuotes(text: string): seq<Token> {
    [Open('\'')] + (Plainly(text) + [Close('\'')])
  }

  lemma {:induction false} QuotedPlainly(text: string)
    requires '\'' !in text
    ensures var tokens := Plainly(text) + [Close('\'')];
      && Render(tokens) == text + "'" && Content(tokens) == text
      && Standalone(tokens, '\'') && OpenAfter(tokens, '\'') == NO_QUOTE
  {
    if text == "" {
      assert Plainly(text) + [Close('\'')] == [Close('\'')] + [];
      Cons(Close('\''), [], '\'');
    } else {
      var rest := Plainly(text[1..]) + [Close('\'')];
      QuotedPlainly(text[1..]);
      Cons(Plain(text[0]), rest, '\'');
      assert Plainly(text) + [Close('\'')] == [Plain(text[0])] + rest;
      assert text == [text[0]] + text[1..];
      Associate([text[0]], text[1..], "'");
    }
  }

  /** Any text without a single quote can be put between single quotes. */
  lemma SingleQuotesWrite(text: string)
    requires '\'' !in text
    ensures Render(InSingleQuotes(text)) == "'" + text + "'" && Content(InSingleQuotes(text)) == text
    ensures Writes(InSingleQuotes(text))
  {
    QuotedPlainly(text);
    Cons(Open('\''), Plainly(text) + [Close('\'')], NO_QUOTE);
    Associate("'", text, "'");
  }

  function WithBackslashes(text: string): seq<Token> {
    if text == "" then []
    else [if text[0] in ['\\', ' ', '\t', '\r', '\n'] then Escaped(text[0]) else Plain(text[0])]
         + WithBackslashes(text[1..])
  }

  function Backslashed(text: string): string {
    if text == "" then ""
    else (if text[0] in ['\\', ' ', '\t', '\r', '\n'] then ['\\', text[0]] else [text[0]]) + Backslashed(text[1..])
  }

  /** Any text without quote marks can be written with its blanks and backslashes escaped. */
  lemma {:induction false} BackslashesWrite(text: string)
    requires '\'' !in text && '"' !in text
    ensures Render(WithBackslashes(text)) == Backslashed(text) && Content(WithBackslashes(text)) == text
    ensures Standalone(WithBackslashes(text), NO_QUOTE) && OpenAfter(WithBackslashes(text), NO_QUOTE) == NO_QUOTE
    ensures text != "" ==> Writes(WithBackslashes(text))
  {
    if text != "" {
      BackslashesWrite(text[1..]);
      assert WithBackslashes(text)[1..] == WithBackslashes(text[1..]);
      assert text == [text[0]] + text[1..];
    }
  }

  datatype Style = Bare | Single | Slashes

  /** The texts that a style can write. */
  predicate Suits(style: Style, text: string) {
    match style
    case Bare => text != "" && forall i | 0 <= i < |text| :: text[i] !in ['\'', '"', '\\', ' ', '\t', '\r', '\n']
    case Single => '\'' !in text
    case Slashes => text != "" && '\'' !in text && '"' !in text
  }

  function Styled(style: Style, text: string): string {
    match style case Bare => text case Single => "'" + text + "'" case Slashes => Backslashed(text)
  }

  function StyledAll(styles: seq<Style>, texts: seq<string>): seq<string>
    requires |styles| == |texts|
  {
    if texts == [] then [] else [Styled(styles[0], texts[0])] + StyledAll(styles[1..], texts[1..])
  }

  function PartsOf(styles: seq<Style>, texts: seq<string>): seq<seq<Token>>
    requires |styles| == |texts|
  {
    if texts == [] then []
    else
      [match styles[0] case Bare => Plainly(texts[0]) case Single => InSingleQuotes(texts[0])
       case Slashes => WithBackslashes(texts[0])] + PartsOf(styles[1..], texts[1..])
  }

  lemma {:induction false} PartsWrite(styles: seq<Style>, texts: seq<string>)
    requires |styles| == |texts| && forall i | 0 <= i < |texts| :: Suits(styles[i], texts[i])
    ensures var parts := PartsOf(styles, texts);
      && |parts| == |texts| == |Renders(parts)| && Renders(parts) == StyledAll(styles, texts)
      && Contents(parts) == texts && forall i | 0 <= i < |parts| :: Writes(parts[i])
    decreases |texts|
  {
    if texts != [] {
      PartsWrite(styles[1..], texts[1..]);
      match styles[0] {
        case Bare => PlainlyWrites(texts[0]);
        case Single => SingleQuotesWrite(texts[0]);
        case Slashes => BackslashesWrite(texts[0]);
      }
      assert PartsOf(styles, texts)[1..] == PartsOf(styles[1..], texts[1..]);
      assert texts == [texts[0]] + texts[1..];
    }
  }

  /** Arguments written bare, between single quotes or with backslashes, each as it suits, and joined
      by runs of blanks are split back, as long as the line has no white space at its ends. */
  lemma WrittenArgumentsSplit(styles: seq<Style>, texts: seq<string>, gaps: seq<string>)
    requires |styles| == |texts| == |gaps| + 1 && |StyledAll(styles, texts)| == |texts|
    requires forall i | 0 <= i < |texts| :: Suits(styles[i], texts[i])
    requires forall i | 0 <= i < |gaps| :: IsGap(gaps[i])
    requires EndsBare(JoinWith(StyledAll(styles, texts), gaps))
    ensures Split(JoinWith(StyledAll(styles, texts), gaps)) == Some(texts)
  {
    PartsWrite(styles, texts);
    WritingsSplit(PartsOf(styles, texts), gaps);
  }

  /** The ends matter: an escaped blank at the end of a line is trimmed off, and so is white space
      that is no gap, as here a no-break space. */
  lemma TrimmingCanCutAnArgument()
    ensures Styled(Slashes, "a ") == "a\\ " && Split("a\\ ") == Some(["a\\"])
    ensures Suits(Bare, "\U{A0}a") && Split("\U{A0}a") == Some(["a"])
  {
    assert Backslashed("a ") == ['a'] + Backslashed(" ") && Backslashed(" ") == ['\\', ' '] + Backslashed("");
    CutSplits("a\\ ", "a\\", [Plain('a'), Plain('\\')]);
    CutSplits("\U{A0}a", "a", [Plain('a')]);
  }

  lemma CutSplits(value: string, text: string, tokens: seq<Token>)
    requires Trim(value) == text == Render(tokens) && tokens != []
    requires Legal(tokens, NO_QUOTE) && OpenAfter(tokens, NO_QUOTE) == NO_QUOTE
    requires ArgumentLength(tokens) == |tokens|
    ensures Split(value) == Some([Content(tokens)])
  {
    SpellingSplits(tokens, value);
    OneArgument(tokens);
  }

  lemma OneArgument(tokens: seq<Token>)
    requires tokens != [] && ArgumentLength(tokens) == |tokens|
    ensures Arguments(tokens) == [Content(tokens)]
  {
    assert tokens[..|tokens|] == tokens && tokens[|tokens|..] == [];
  }
}
