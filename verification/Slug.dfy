/** Slugs: how a file name becomes a URL segment, and the independent recogniser of slugs that
    the configuration uses. */
module Slug {
  import opened Text

  /** The extension: from the last dot on, if no path separator follows it. */
  function Extension(name: string): string {
    if name == "" || name[|name| - 1] == '/' then ""
    else if name[|name| - 1] == '.' then "."
    else
      var shorter := Extension(name[..|name| - 1]);
      if shorter == "" then "" else shorter + [name[|name| - 1]]
  }

  function AsciiFold(c: char): char {
    if 'A' <= c <= 'Z' then c - 'A' + 'a' else c
  }

  predicate EqualFold(s: string, folded: string) {
    |s| == |folded| && forall i | 0 <= i < |s| :: AsciiFold(s[i]) == folded[i]
  }

  lemma {:induction false} ExtensionIsSuffix(name: string)
    ensures |Extension(name)| <= |name| && Extension(name) == name[|name| - |Extension(name)|..]
  {
    if name != "" && name[|name| - 1] != '/' && name[|name| - 1] != '.' {
      ExtensionIsSuffix(name[..|name| - 1]);
    }
  }

  /** The name without an HTML extension. */
  function Stem(name: string): string {
    var extension := Extension(name);
    ExtensionIsSuffix(name);
    if EqualFold(extension, ".html") || EqualFold(extension, ".htm")
    then name[..|name| - |extension|] else name
  }

  predicate Unsafe(name: string) {
    HasPrefix(name, "..")
  }

  predicate IsSeparator(c: char) {
    c == ' ' || c == '_' || c == '-' || IsSpace(c)
  }

  /** The scanning loop: what is built so far, and whether a separator waits to be written. */
  function Scan(built: string, pending: bool, rest: string): string
    decreases |rest|
  {
    if rest == "" then built
    else if IsLetterOrDigit(rest[0])
    then Scan(built + (if pending && built != "" then "-" else "") + [rest[0]], false, rest[1..])
    else Scan(built, pending || IsSeparator(rest[0]), rest[1..])
  }

  function TrimHyphens(s: string): string {
    if s != "" && s[0] == '-' then TrimHyphens(s[1..])
    else if s != "" && s[|s| - 1] == '-' then TrimHyphens(s[..|s| - 1])
    else s
  }

  function Slug(name: string): string {
    if Unsafe(name) then "" else TrimHyphens(Scan("", false, Lower(Stem(name))))
  }

  method MakeSlug(name: string) returns (slug: string)
    ensures slug == Slug(name)
  {
    if Unsafe(name) {
      return "";
    }
    var lower := Lower(Stem(name));
    var builder := "";
    var separatorPending := false;
    for index := 0 to |lower|
      invariant Scan(builder, separatorPending, lower[index..]) == Scan("", false, lower)
    {
      var character := lower[index];
      assert lower[index..][1..] == lower[index + 1..];
      assert builder + "" == builder;
      if IsLetterOrDigit(character) {
        if separatorPending && |builder| > 0 {
          builder := builder + "-";
        }
        builder := builder + [character];
        separatorPending := false;
      } else if IsSeparator(character) {
        separatorPending := true;
      }
    }
    return TrimHyphens(builder);
  }

  // ---- The recogniser -------------------------------------------------------------------------

  /** Hyphen-separated runs of `a`-`z` and `0`-`9`. */
  predicate IsSlug(s: string) {
    && s != ""
    && (forall i | 0 <= i < |s| :: IsLetterOrDigit(s[i]) || (s[i] == '-' && 0 < i < |s| - 1))
    && (forall i | 0 < i < |s| :: !(s[i - 1] == '-' && s[i] == '-'))
  }

  method ValidSlug(value: string) returns (valid: bool)
    ensures valid <==> IsSlug(value)
  {
    for index := 0 to |value|
      invariant forall i | 0 <= i < index :: IsLetterOrDigit(value[i]) || (value[i] == '-' && 0 < i < |value| - 1)
    {
      if !(IsLetterOrDigit(value[index]) || (value[index] == '-' && index > 0 && index < |value| - 1)) {
        return false;
      }
    }
    return value != "" && !(exists i | 0 < i < |value| :: value[i - 1] == '-' && value[i] == '-');
  }

  // ---- Slug and recogniser agree --------------------------------------------------------------

  lemma {:induction false} ScanMakesSlugs(built: string, pending: bool, rest: string)
    requires built == "" || IsSlug(built)
    ensures var s := Scan(built, pending, rest); s == "" || IsSlug(s)
    decreases |rest|
  {
    if rest != "" {
      if IsLetterOrDigit(rest[0]) {
        ScanMakesSlugs(built + (if pending && built != "" then "-" else "") + [rest[0]], false, rest[1..]);
      } else {
        ScanMakesSlugs(built, pending || IsSeparator(rest[0]), rest[1..]);
      }
    }
  }

  /** The final trim never removes anything. */
  lemma TrimIsIdle(name: string)
    ensures TrimHyphens(Scan("", false, Lower(Stem(name)))) == Scan("", false, Lower(Stem(name)))
  {
    ScanMakesSlugs("", false, Lower(Stem(name)));
  }

  lemma SlugIsEmptyOrValid(name: string)
    ensures Slug(name) == "" || IsSlug(Slug(name))
  {
    ScanMakesSlugs("", false, Lower(Stem(name)));
    TrimIsIdle(name);
  }

  /** Scanning a slug from any of its positions rebuilds it. */
  lemma {:induction false} ScanRebuilds(value: string, n: nat)
    requires IsSlug(value) && 0 < n <= |value| && value[n - 1] != '-'
    ensures Scan(value[..n], false, value[n..]) == value
    decreases |value| - n
  {
    var rest := value[n..];
    if n < |value| {
      if value[n] == '-' {
        assert rest[0] == '-' && rest[1..][0] == value[n + 1] && rest[1..][1..] == value[n + 2..];
        assert value[..n] + "-" + [value[n + 1]] == value[..n + 2];
        ScanRebuilds(value, n + 2);
      } else {
        assert rest[1..] == value[n + 1..];
        assert value[..n] + "" + [value[n]] == value[..n + 1];
        ScanRebuilds(value, n + 1);
      }
    }
  }

  lemma {:induction false} NoDotNoExtension(name: string)
    requires forall i | 0 <= i < |name| :: name[i] != '.'
    ensures Extension(name) == ""
  {
    if name != "" {
      NoDotNoExtension(name[..|name| - 1]);
    }
  }

  /** The recogniser accepts exactly the non-empty fixed points of `Slug`. */
  lemma ValidSlugsAreFixedPoints(value: string)
    ensures IsSlug(value) <==> value != "" && Slug(value) == value
  {
    if IsSlug(value) {
      NoDotNoExtension(value);
      assert Lower(value) == value;
      assert value[1..] == value[..][1..] && value[..1] == "" + "" + [value[0]];
      ScanRebuilds(value, 1);
      TrimIsIdle(value);
    }
    SlugIsEmptyOrValid(value);
  }

  lemma SlugIsIdempotent(name: string)
    ensures Slug(Slug(name)) == Slug(name)
  {
    SlugIsEmptyOrValid(name);
    ValidSlugsAreFixedPoints(Slug(name));
  }

  // ---- What a slug says about its name --------------------------------------------------------

  /** Words found so far, and whether the last one can still grow. */
  datatype Reading = Reading(words: seq<string>, open: bool)

  /** The letters and digits of each separator-delimited piece, pieces without any left out. */
  function Words(s: string): (r: Reading)
    ensures r.open ==> r.words != []
    ensures forall i | 0 <= i < |r.words| :: r.words[i] != ""
  {
    if s == "" then Reading([], false)
    else
      var before, last := Words(s[..|s| - 1]), s[|s| - 1];
      if 'a' <= last <= 'z' || '0' <= last <= '9' then
        if before.open then
          var n := |before.words| - 1;
          Reading(before.words[..n] + [before.words[n] + [last]], true)
        else Reading(before.words + [[last]], true)
      else before.(open := before.open && last != ' ' && last != '_' && last != '-' && !IsSpace(last))
  }

  function Hyphenate(words: seq<string>): string {
    if words == [] then ""
    else if |words| == 1 then words[0]
    else Hyphenate(words[..|words| - 1]) + "-" + words[|words| - 1]
  }

  lemma HyphenateMore(words: seq<string>, word: string)
    ensures Hyphenate(words + [word]) == (if words == [] then word else Hyphenate(words) + "-" + word)
  {
    assert (words + [word])[..|words|] == words;
  }

  lemma HyphenateIsEmpty(words: seq<string>)
    requires forall i | 0 <= i < |words| :: words[i] != ""
    ensures Hyphenate(words) == "" <==> words == []
  {
    if words != [] {
      assert words[0] in words && |words[0]| > 0;
      if |words| > 1 {
        assert |Hyphenate(words)| > 0;
      }
    }
  }

  lemma HyphenateGrows(front: seq<string>, last: string, c: char)
    ensures Hyphenate(front + [last + [c]]) == Hyphenate(front + [last]) + [c]
  {
    HyphenateMore(front, last);
    HyphenateMore(front, last + [c]);
    if front != [] {
      var head := Hyphenate(front) + "-";
      assert head + (last + [c]) == (head + last) + [c];
    }
  }

  /** One more character: what the loop writes is what the words gain. */
  lemma WordsGrow(done: string, c: char)
    ensures var built, next := Hyphenate(Words(done).words), Hyphenate(Words(done + [c]).words);
            next == if !IsLetterOrDigit(c) then built
                    else built + (if !Words(done).open && built != "" then "-" else "") + [c]
  {
    assert (done + [c])[..|done|] == done;
    var words := Words(done).words;
    if IsLetterOrDigit(c) {
      if Words(done).open {
        var n := |words| - 1;
        HyphenateGrows(words[..n], words[n], c);
        assert words[..n] + [words[n]] == words;
        assert Hyphenate(words) + "" == Hyphenate(words);
      } else {
        HyphenateIsEmpty(words);
        HyphenateMore(words, [c]);
      }
    }
  }

  /** The scan, with a separator pending whenever no word is open, joins the words. */
  lemma {:induction false} ScanJoinsWords(done: string, rest: string)
    ensures Scan(Hyphenate(Words(done).words), !Words(done).open, rest) == Hyphenate(Words(done + rest).words)
    decreases |rest|
  {
    if rest == "" {
      assert done + rest == done;
    } else {
      var next := done + [rest[0]];
      assert next[..|done|] == done && next + rest[1..] == done + rest;
      WordsGrow(done, rest[0]);
      ScanJoinsWords(next, rest[1..]);
    }
  }

  /** A separator before the first letter is forgotten. */
  lemma {:induction false} LeadingSeparatorIsForgotten(rest: string)
    ensures Scan("", true, rest) == Scan("", false, rest)
    decreases |rest|
  {
    if rest != "" && !IsLetterOrDigit(rest[0]) {
      LeadingSeparatorIsForgotten(rest[1..]);
    }
  }

  /** A slug is the lower-cased words of the name, joined with hyphens. */
  lemma SlugIsHyphenatedWords(name: string)
    ensures Slug(name) == if Unsafe(name) then "" else Hyphenate(Words(Lower(Stem(name))).words)
  {
    var lower := Lower(Stem(name));
    TrimIsIdle(name);
    ScanJoinsWords("", lower);
    assert "" + lower == lower;
    LeadingSeparatorIsForgotten(lower);
  }

  /** A letter or digit, a capital made small; the two capitals with a small ASCII letter that are not
      ASCII themselves count as `i` and `k`. */
  function KeptChar(c: char): string {
    if 'a' <= c <= 'z' || '0' <= c <= '9' then [c]
    else if 'A' <= c <= 'Z' then ["abcdefghijklmnopqrstuvwxyz"[c as int - 'A' as int]]
    else if c == '\U{130}' then "i"
    else if c == '\U{212A}' then "k"
    else ""
  }

  function Kept(text: string): string {
    if text == "" then "" else KeptChar(text[0]) + Kept(text[1..])
  }

  function WithoutHyphens(s: string): string {
    if s == "" then ""
    else WithoutHyphens(s[..|s| - 1]) + if s[|s| - 1] == '-' then "" else [s[|s| - 1]]
  }

  /** A slug has every letter and digit of the name, in order, and nothing else but hyphens. */
  lemma SlugKeepsTheLetters(name: string)
    ensures WithoutHyphens(Slug(name)) == if HasPrefix(name, "..") then "" else Kept(Stem(name))
  {
    if !Unsafe(name) {
      TrimIsIdle(name);
      ScanKeepsTheLetters("", false, Stem(name));
      assert "" + Kept(Stem(name)) == Kept(Stem(name));
    }
  }

  lemma SnocWithoutHyphens(s: string, c: char)
    ensures WithoutHyphens(s + [c]) == WithoutHyphens(s) + if c == '-' then "" else [c]
  {
    assert (s + [c])[..|s|] == s;
  }

  lemma LoweredIsKept(c: char)
    ensures KeptChar(c) == if IsLetterOrDigit(LowerChar(c)) then [LowerChar(c)] else ""
  {
    if 'A' <= c <= 'Z' {
      assert "abcdefghijklmnopqrstuvwxyz"[c as int - 'A' as int] == c - 'A' + 'a';
    }
  }

  lemma WrittenLetter(built: string, hyphen: bool, c: char)
    requires c != '-'
    ensures WithoutHyphens(built + (if hyphen then "-" else "") + [c]) == WithoutHyphens(built) + [c]
  {
    assert built + "" == built;
    SnocWithoutHyphens(built, '-');
    assert WithoutHyphens(built) + "" == WithoutHyphens(built);
    SnocWithoutHyphens(built + if hyphen then "-" else "", c);
  }

  lemma Associate(a: string, b: string, c: string)
    ensures a + (b + c) == (a + b) + c
  {
  }

  lemma ScanOne(built: string, pending: bool, c: char, rest: string)
    ensures Scan(built, pending, [c] + rest)
         == if IsLetterOrDigit(c) then Scan(built + (if pending && built != "" then "-" else "") + [c], false, rest)
            else Scan(built, pending || IsSeparator(c), rest)
  {
    assert ([c] + rest)[1..] == rest;
  }

  lemma {:induction false} ScanKeepsTheLetters(built: string, pending: bool, text: string)
    ensures WithoutHyphens(Scan(built, pending, Lower(text))) == WithoutHyphens(built) + Kept(text)
    decreases |text|
  {
    if text == "" {
      assert WithoutHyphens(built) + "" == WithoutHyphens(built);
    } else {
      var c := LowerChar(text[0]);
      assert Lower(text) == [c] + Lower(text[1..]);
      ScanOne(built, pending, c, Lower(text[1..]));
      LoweredIsKept(text[0]);
      if IsLetterOrDigit(c) {
        var more := built + (if pending && built != "" then "-" else "") + [c];
        ScanKeepsTheLetters(more, false, text[1..]);
        WrittenLetter(built, pending && built != "", c);
        Associate(WithoutHyphens(built), [c], Kept(text[1..]));
      } else {
        ScanKeepsTheLetters(built, pending || IsSeparator(c), text[1..]);
        assert "" + Kept(text[1..]) == Kept(text[1..]);
      }
    }
  }

  lemma EmptyNameHasNoSlug()
    ensures Slug("") == ""
  {
    assert Stem("") == "" && Lower("") == "";
  }

  /** `html` or `htm` in any case. */
  predicate IsHtml(extension: string) {
    && (|extension| == 3 || |extension| == 4)
    && extension[0] in ['h', 'H'] && extension[1] in ['t', 'T'] && extension[2] in ['m', 'M']
    && (|extension| == 4 ==> extension[3] in ['l', 'L'])
  }

  /** Exactly an HTML extension is taken off, in any case, and no other one. */
  lemma StemExactly(base: string, extension: string)
    requires forall i | 0 <= i < |extension| :: extension[i] != '.' && extension[i] != '/'
    ensures Stem(base + "." + extension) == if IsHtml(extension) then base else base + "." + extension
    ensures (forall i | 0 <= i < |base| :: base[i] != '.') ==> Stem(base) == base
  {
    LastDot(base, extension);
    HtmlExactly(extension);
    if forall i | 0 <= i < |base| :: base[i] != '.' {
      NoDotNoExtension(base);
    }
    assert (base + "." + extension)[..|base|] == base;
  }

  lemma FoldIs(c: char, small: char, capital: char)
    requires 'a' <= small <= 'z' && capital as int == small as int - 32
    ensures AsciiFold(c) == small <==> c == small || c == capital
  {
  }

  lemma HtmlExactly(extension: string)
    ensures IsHtml(extension) <==> EqualFold("." + extension, ".html") || EqualFold("." + extension, ".htm")
  {
    var name := "." + extension;
    if |extension| == 3 || |extension| == 4 {
      FoldIs(extension[0], 'h', 'H');
      FoldIs(extension[1], 't', 'T');
      FoldIs(extension[2], 'm', 'M');
      assert name[0] == '.' && name[1] == extension[0] && name[2] == extension[1] && name[3] == extension[2];
      if |extension| == 4 {
        FoldIs(extension[3], 'l', 'L');
        assert name[4] == extension[3];
        assert ".html"[1] == 'h' && ".html"[2] == 't' && ".html"[3] == 'm' && ".html"[4] == 'l';
      } else {
        assert ".htm"[1] == 'h' && ".htm"[2] == 't' && ".htm"[3] == 'm';
      }
    }
  }

  lemma {:induction false} LastDot(base: string, extension: string)
    requires forall i | 0 <= i < |extension| :: extension[i] != '.' && extension[i] != '/'
    ensures Extension(base + "." + extension) == "." + extension
    decreases |extension|
  {
    var name := base + "." + extension;
    if extension != "" {
      var shorter := extension[..|extension| - 1];
      LastDot(base, shorter);
      assert name[..|name| - 1] == base + "." + shorter;
      assert "." + extension == "." + shorter + [extension[|extension| - 1]];
    }
  }
}
