/** Injection of a `<base>` element after the opening `<head>` tag of an ASCII document. */
module BaseHref {
  import opened Text

  type Ascii = c: char | c <= '\U{7F}' witness 'a'
  type Document = seq<Ascii>

  function LowerAscii(c: Ascii): Ascii {
    if 'A' <= c <= 'Z' then c - 'A' + 'a' else c
  }

  function LowerAll(document: Document): Document {
    seq(|document|, i requires 0 <= i < |document| => LowerAscii(document[i]))
  }

  // ---- The tag search -------------------------------------------------------------------------

  predicate At(document: Document, needle: Document, i: nat) {
    i + |needle| <= |document| && document[i..i + |needle|] == needle
  }

  /** The first occurrence of `needle` at or after `from`. */
  function IndexFrom(document: Document, needle: Document, from: nat): (r: Option<nat>)
    requires from <= |document|
    ensures r.Some? ==> from <= r.value && At(document, needle, r.value)
                        && forall i | from <= i < r.value :: !At(document, needle, i)
    ensures r.None? ==> forall i | from <= i :: !At(document, needle, i)
    decreases |document| - from
  {
    if At(document, needle, from) then Some(from)
    else if from == |document| then None
    else IndexFrom(document, needle, from + 1)
  }

  predicate EndsName(c: Ascii) {
    c == '>' || c == ' ' || c == '\t' || c == '\r' || c == '\n'
  }

  /** A real opening tag of that name: the name does not go on after `<name`. */
  predicate Genuine(document: Document, name: Document, i: nat) {
    var after := i + 1 + |name|;
    At(document, ['<'] + name, i) && (after < |document| ==> EndsName(document[after]))
  }

  ghost predicate FirstGenuine(document: Document, name: Document, i: nat) {
    Genuine(document, name, i) && forall k | 0 <= k < i :: !Genuine(document, name, k)
  }

  ghost predicate FirstClose(document: Document, from: nat, j: nat) {
    from <= j < |document| && document[j] == '>' && forall k | from <= k < j :: document[k] != '>'
  }

  /** `end` is just behind the `>` that ends the first genuine opening tag. */
  ghost predicate TagEndsAt(document: Document, name: Document, end: nat) {
    exists i: nat :: FirstGenuine(document, name, i) && end > 0 && FirstClose(document, i + 1 + |name|, end - 1)
  }

  ghost predicate NoTag(document: Document, name: Document) {
    forall i: nat | FirstGenuine(document, name, i) ::
      forall j | i + 1 + |name| <= j < |document| :: document[j] != '>'
  }

  /** The search loop. It ends, stays in bounds, and finds the first genuine tag. */
  method OpeningTagEnd(document: Document, name: Document) returns (end: nat, found: bool)
    requires name != [] && '<' !in name
    ensures found ==> end <= |document| && TagEndsAt(document, name, end)
    ensures !found ==> NoTag(document, name)
  {
    var needle := ['<'] + name;
    var searchFrom := 0;
    while searchFrom < |document|
      invariant searchFrom <= |document|
      invariant forall k | 0 <= k < searchFrom :: !Genuine(document, name, k)
      decreases |document| - searchFrom
    {
      var index := IndexFrom(document, needle, searchFrom);
      if index.None? {
        return 0, false;
      }
      var afterName := index.value + |needle|;
      if afterName < |document| && !EndsName(document[afterName]) {
        NoOverlap(document, name, index.value);
        searchFrom := afterName;
        continue;
      }
      assert FirstGenuine(document, name, index.value);
      var close := IndexFrom(document, ['>'], afterName);
      CloseDecides(document, name, index.value, close);
      if close.None? {
        return 0, false;
      }
      return close.value + 1, true;
    }
    return 0, false;
  }

  /** Behind the first genuine tag, the first `>` settles the search. */
  lemma CloseDecides(document: Document, name: Document, i: nat, close: Option<nat>)
    requires FirstGenuine(document, name, i)
    requires close == IndexFrom(document, ['>'], i + 1 + |name|)
    ensures close.Some? ==> close.value < |document| && TagEndsAt(document, name, close.value + 1)
    ensures close.None? ==> NoTag(document, name)
  {
    forall k | 0 <= k < |document| ensures At(document, ['>'], k) <==> document[k] == '>' {
      assert document[k..k + 1] == [document[k]];
    }
    if close.Some? {
      assert FirstClose(document, i + 1 + |name|, close.value + 1 - 1);
    } else {
      forall k: nat | FirstGenuine(document, name, k) ensures k == i {
      }
    }
  }

  /** Tags cannot overlap: `<` only starts them. */
  lemma NoOverlap(document: Document, name: Document, i: nat)
    requires '<' !in name && At(document, ['<'] + name, i)
    ensures forall k | i < k < i + 1 + |name| :: !At(document, ['<'] + name, k)
  {
    forall k | i < k < i + 1 + |name| ensures !At(document, ['<'] + name, k) {
      assert document[i..i + 1 + |name|][k - i] == (['<'] + name)[k - i] == name[k - i - 1];
      assert document[k] == name[k - i - 1] != '<';
      if At(document, ['<'] + name, k) {
        HeadOf(document, ['<'] + name, k);
      }
    }
  }

  lemma HeadOf(document: Document, needle: Document, i: nat)
    requires needle != [] && At(document, needle, i)
    ensures document[i] == needle[0]
  {
    assert document[i..i + |needle|][0] == needle[0];
  }

  /** A document has at most one such end, and not both an end and none. */
  lemma TagEndIsUnique(document: Document, name: Document, a: nat, b: nat)
    requires TagEndsAt(document, name, a)
    ensures TagEndsAt(document, name, b) ==> a == b
    ensures !NoTag(document, name)
  {
    var i: nat :| FirstGenuine(document, name, i) && FirstClose(document, i + 1 + |name|, a - 1);
    if TagEndsAt(document, name, b) {
      var j: nat :| FirstGenuine(document, name, j) && FirstClose(document, j + 1 + |name|, b - 1);
      assert i == j;
    }
  }

  /** `<header>` does not start a `<head>` tag. */
  lemma HeaderIsNotHead(document: Document, i: nat)
    requires At(document, "<header", i)
    ensures !Genuine(document, "head", i)
  {
    assert document[i + 5] == document[i..i + 7][5] == 'e';
  }

  // ---- Injection ------------------------------------------------------------------------------

  function BaseElement(prefix: Document): Document {
    "<base href=\"" + prefix + "/\">"
  }

  /** What injection may do to a document: nothing, or put the element behind the head tag. */
  ghost predicate Injected(document: Document, prefix: Document, always: bool, result: Document, changed: bool) {
    var lower := LowerAll(document);
    if (!NoTag(lower, "base") && !always) || NoTag(lower, "head")
    then !changed && result == document
    else changed && (exists end: nat ::
        && end <= |document| && TagEndsAt(lower, "head", end)
        && result == document[..end] + BaseElement(prefix) + document[end..])
  }

  method InjectBaseElement(document: Document, prefix: Document, always: bool)
    returns (result: Document, changed: bool)
    ensures Injected(document, prefix, always, result, changed)
  {
    var lower := LowerAll(document);
    var baseEnd, baseFound := OpeningTagEnd(lower, "base");
    if baseFound {
      TagEndIsUnique(lower, "base", baseEnd, 0);
    }
    if baseFound && !always {
      return document, false;
    }
    var headEnd, headFound := OpeningTagEnd(lower, "head");
    if !headFound {
      return document, false;
    }
    TagEndIsUnique(lower, "head", headEnd, 0);
    return document[..headEnd] + BaseElement(prefix) + document[headEnd..], true;
  }

  lemma LowerOfInsert(document: Document, end: nat, element: Document)
    requires end <= |document|
    ensures LowerAll(document[..end] + element + document[end..])
         == LowerAll(document)[..end] + LowerAll(element) + LowerAll(document)[end..]
  {
  }

  /** Wherever the element is put, the result has an opening `<base>` tag that ends. */
  lemma InsertedBaseIsFound(before: Document, prefix: Document, after: Document)
    ensures !NoTag(before + LowerAll(BaseElement(prefix)) + after, "base")
  {
    var element := LowerAll(BaseElement(prefix));
    var document := before + element + after;
    assert element[..6] == "<base " && element[|element| - 1] == '>';
    assert document[|before|..|before| + 5] == element[..5] == ['<'] + "base";
    assert document[|before| + 5] == element[5];
    assert Genuine(document, "base", |before|);
    var _ := LeastGenuine(document, "base", |before|);
    assert document[|before| + |element| - 1] == element[|element| - 1];
  }

  lemma {:induction false} LeastGenuine(document: Document, name: Document, bound: nat) returns (i: nat)
    requires Genuine(document, name, bound)
    ensures i <= bound && FirstGenuine(document, name, i)
    decreases bound
  {
    if k: nat :| k < bound && Genuine(document, name, k) {
      i := LeastGenuine(document, name, k);
    } else {
      i := bound;
    }
  }

  /** In auto mode a second injection changes nothing. */
  lemma AutoInjectionIsIdempotent(document: Document, prefix: Document, once: Document, changed: bool,
                                  twice: Document, changedAgain: bool)
    requires Injected(document, prefix, false, once, changed)
    requires Injected(once, prefix, false, twice, changedAgain)
    ensures !changedAgain && twice == once
  {
    if changed {
      var lower := LowerAll(document);
      var end: nat :| end <= |document| && TagEndsAt(lower, "head", end)
        && once == document[..end] + BaseElement(prefix) + document[end..];
      LowerOfInsert(document, end, BaseElement(prefix));
      InsertedBaseIsFound(lower[..end], prefix, lower[end..]);
    }
  }

  /** Taking the inserted bytes out again gives back the original document. */
  lemma InjectionIsReversible(document: Document, prefix: Document, always: bool, result: Document, changed: bool)
    requires Injected(document, prefix, always, result, changed) && changed
    ensures exists end: nat ::
      && end <= |document| && TagEndsAt(LowerAll(document), "head", end)
      && At(result, BaseElement(prefix), end)
      && result[..end] + result[end + |BaseElement(prefix)|..] == document
  {
    var end: nat :| end <= |document| && TagEndsAt(LowerAll(document), "head", end)
      && result == document[..end] + BaseElement(prefix) + document[end..];
    CutOut(document, end, BaseElement(prefix), result);
  }

  lemma CutOut(document: Document, end: nat, element: Document, result: Document)
    requires end <= |document| && result == document[..end] + element + document[end..]
    ensures At(result, element, end) && result[..end] + result[end + |element|..] == document
  {
    assert result[..end] == document[..end];
    assert result[end..end + |element|] == element;
    assert result[end + |element|..] == document[end..];
    assert document[..end] + document[end..] == document;
  }

  /** The end of the first tag depends only on the text up to it. */
  lemma TagEndDependsOnPrefix(before: Document, after: Document, other: Document, name: Document)
    requires TagEndsAt(before + after, name, |before|)
    ensures TagEndsAt(before + other, name, |before|)
  {
    var document, changed := before + after, before + other;
    var i: nat :| FirstGenuine(document, name, i) && FirstClose(document, i + 1 + |name|, |before| - 1);
    forall k: nat | k <= i ensures Genuine(changed, name, k) == Genuine(document, name, k) {
      assert document[k..k + 1 + |name|] == before[k..k + 1 + |name|] == changed[k..k + 1 + |name|];
      assert document[k + 1 + |name|] == before[k + 1 + |name|] == changed[k + 1 + |name|];
    }
    forall k | 0 <= k < |before| ensures changed[k] == document[k] {
      assert before[k] == changed[k];
    }
    assert Genuine(document, name, i);
    assert Genuine(changed, name, i);
    forall k | 0 <= k < i ensures !Genuine(changed, name, k) {
      assert !Genuine(document, name, k);
    }
    assert FirstGenuine(changed, name, i);
    assert FirstClose(changed, i + 1 + |name|, |before| - 1);
  }

  /** In always mode every further injection adds one more element at the same place. */
  lemma AlwaysInjectionRepeats(document: Document, prefix: Document, once: Document, twice: Document, again: bool)
    requires Injected(document, prefix, true, once, true) && Injected(once, prefix, true, twice, again)
    ensures again && |twice| == |once| + |BaseElement(prefix)|
    ensures exists end: nat :: end <= |document| && end <= |once| && TagEndsAt(LowerAll(document), "head", end)
              && twice == once[..end] + BaseElement(prefix) + once[end..]
  {
    var lower, element := LowerAll(document), BaseElement(prefix);
    var end: nat :| end <= |document| && TagEndsAt(lower, "head", end)
      && once == document[..end] + element + document[end..];
    LowerOfInsert(document, end, element);
    assert lower == lower[..end] + lower[end..];
    assert LowerAll(once) == lower[..end] + (LowerAll(element) + lower[end..]);
    TagEndDependsOnPrefix(lower[..end], lower[end..], LowerAll(element) + lower[end..], "head");
    TagEndIsUnique(LowerAll(once), "head", end, 0);
    assert again;
    var second: nat :| second <= |once| && TagEndsAt(LowerAll(once), "head", second)
      && twice == once[..second] + element + once[second..];
    TagEndIsUnique(LowerAll(once), "head", end, second);
  }

  /** The small letter itself or its capital. */
  predicate IsLetter(c: Ascii, small: Ascii) {
    c == small || c as int + 32 == small as int
  }

  /** A genuine opening tag, in any case: `<`, the letters of the name, and then the text's end, `>` or
      white space. */
  lemma TagExactly(document: Document, name: Document, i: nat)
    requires forall k | 0 <= k < |name| :: 'a' <= name[k] <= 'z'
    ensures Genuine(LowerAll(document), name, i) <==>
              && i + 1 + |name| <= |document| && document[i] == '<'
              && (forall k | 0 <= k < |name| :: IsLetter(document[i + 1 + k], name[k]))
              && (i + 1 + |name| < |document| ==>
                    document[i + 1 + |name|] in ['>', ' ', '\t', '\r', '\n'])
  {
    var lower, needle := LowerAll(document), ['<'] + name;
    if i + |needle| <= |document| {
      SliceIs(lower, needle, i);
      forall k | 0 <= k < |name| ensures lower[i + 1 + k] == name[k] <==> IsLetter(document[i + 1 + k], name[k]) {
        LetterIs(document[i + 1 + k], name[k]);
      }
      if forall k | 0 <= k < |needle| :: lower[i + k] == needle[k] {
        assert lower[i + 0] == needle[0];
        forall k | 0 <= k < |name| ensures lower[i + 1 + k] == name[k] {
          assert lower[i + (1 + k)] == needle[1 + k];
        }
      }
    }
  }

  lemma LetterIs(c: Ascii, small: Ascii)
    requires 'a' <= small <= 'z'
    ensures LowerAscii(c) == small <==> IsLetter(c, small)
  {
  }

  lemma SliceIs(document: Document, needle: Document, i: nat)
    requires i + |needle| <= |document|
    ensures At(document, needle, i) <==> forall k | 0 <= k < |needle| :: document[i + k] == needle[k]
  {
    if At(document, needle, i) {
      forall k | 0 <= k < |needle| ensures document[i + k] == needle[k] {
        assert document[i..i + |needle|][k] == needle[k];
      }
    }
  }

  /** Between the untouched parts stand the element's name, the prefix and its slash. */
  lemma InjectionWritesThePrefix(document: Document, prefix: Document, always: bool, result: Document)
    requires Injected(document, prefix, always, result, true)
    ensures exists before, after ::
      document == before + after && result == before + "<base href=\"" + prefix + "/\">" + after
  {
    var lower := LowerAll(document);
    var end: nat :| end <= |document| && TagEndsAt(lower, "head", end)
      && result == document[..end] + BaseElement(prefix) + document[end..];
    assert document == document[..end] + document[end..];
    assert document[..end] + ("<base href=\"" + prefix + "/\">") + document[end..]
        == document[..end] + "<base href=\"" + prefix + "/\">" + document[end..];
  }
}
