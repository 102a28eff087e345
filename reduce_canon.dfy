/**
 * The `group` wrapper installed by `mongolise`: before the request is sent,
 * the `reduce` callback is replaced by its source text with every line feed
 * removed and then every whitespace character removed. The text is what
 * `Function.prototype.toString` returns for the callback.
 */
module ReduceCanon {
  import opened Wrappers

  /** The characters the regular-expression class `\s` matches (ECMAScript WhiteSpace and LineTerminator). */
  predicate IsJsWhitespace(c: char) {
    || c == '\t' || c == '\n' || c == '\U{000B}' || c == '\U{000C}' || c == '\r' || c == ' '
    || c == '\U{00A0}' || c == '\U{1680}' || ('\U{2000}' <= c <= '\U{200A}')
    || c == '\U{2028}' || c == '\U{2029}' || c == '\U{202F}' || c == '\U{205F}'
    || c == '\U{3000}' || c == '\U{FEFF}'
  }

  predicate NoWhitespace(s: string) {
    forall i :: 0 <= i < |s| ==> !IsJsWhitespace(s[i])
  }

  /** `s.replace(/\n/g, '')`. */
  function RemoveNewlines(s: string): (r: string)
    ensures |r| <= |s|
    ensures forall i :: 0 <= i < |r| ==> r[i] != '\n'
  {
    if s == [] then []
    else (if s[0] == '\n' then [] else [s[0]]) + RemoveNewlines(s[1..])
  }

  /** `s.replace(/\s/g, '')`. */
  function RemoveWhitespace(s: string): (r: string)
    ensures |r| <= |s|
    ensures NoWhitespace(r)
  {
    if s == [] then []
    else (if IsJsWhitespace(s[0]) then [] else [s[0]]) + RemoveWhitespace(s[1..])
  }

  /** The two replacements in source order. */
  function Canonicalize(text: string): string {
    RemoveWhitespace(RemoveNewlines(text))
  }

  /** The arguments object handed to the wrapped `group`; `reduce` is the callback's text, None when absent. */
  class GroupArgs {
    var reduce: Option<string>

    constructor (reduce: Option<string>)
      ensures this.reduce == reduce
    {
      this.reduce := reduce;
    }
  }

  /** The rewrite of `a1.reduce` in place, before the original `group` is called. */
  method RewriteReduce(a1: GroupArgs)
    modifies a1
    ensures old(a1.reduce).None? ==> a1.reduce == None
    ensures old(a1.reduce).Some? ==> a1.reduce == Some(Canonicalize(old(a1.reduce).value))
  {
    if a1.reduce.Some? {
      a1.reduce := Some(RemoveNewlines(a1.reduce.value));
      a1.reduce := Some(RemoveWhitespace(a1.reduce.value));
    }
  }

  // ---------------------------------------------------------------------
  // Properties

  /** The whitespace filter distributes over concatenation, so it keeps the order of what it keeps. */
  lemma {:induction false} RemoveWhitespaceAppend(a: string, b: string)
    ensures RemoveWhitespace(a + b) == RemoveWhitespace(a) + RemoveWhitespace(b)
  {
    if a != [] {
      assert (a + b)[1..] == a[1..] + b;
      RemoveWhitespaceAppend(a[1..], b);
    } else {
      assert a + b == b;
    }
  }

  /** The line-feed pass changes nothing that the whitespace pass would not remove anyway. */
  lemma {:induction false} NewlinePassSubsumed(s: string)
    ensures RemoveWhitespace(RemoveNewlines(s)) == RemoveWhitespace(s)
  {
    if s != [] {
      NewlinePassSubsumed(s[1..]);
      var head := if s[0] == '\n' then [] else [s[0]];
      RemoveWhitespaceAppend(head, RemoveNewlines(s[1..]));
      assert RemoveWhitespace(head) == (if IsJsWhitespace(s[0]) then [] else [s[0]]);
    }
  }

  /** The filter leaves a string alone exactly when it has no whitespace. */
  lemma {:induction false} RemoveWhitespaceFixed(s: string)
    ensures RemoveWhitespace(s) == s <==> NoWhitespace(s)
  {
    if s != [] {
      RemoveWhitespaceFixed(s[1..]);
      if IsJsWhitespace(s[0]) {
        assert |RemoveWhitespace(s)| < |s|;
      } else {
        assert NoWhitespace(s) <==> NoWhitespace(s[1..]) by {
          assert forall i :: 1 <= i < |s| ==> s[i] == s[1..][i - 1];
        }
      }
    }
  }

  /** The canonical text is the input with its whitespace characters deleted, in the original order. */
  lemma CanonicalizeIsFilter(text: string)
    ensures Canonicalize(text) == RemoveWhitespace(text)
    ensures NoWhitespace(Canonicalize(text))
  {
    NewlinePassSubsumed(text);
  }

  /** Each non-whitespace character occurs as often in the output as in the input; whitespace not at all. */
  lemma {:induction false} CanonicalizeCounts(text: string, c: char)
    ensures IsJsWhitespace(c) ==> multiset(Canonicalize(text))[c] == 0
    ensures !IsJsWhitespace(c) ==> multiset(Canonicalize(text))[c] == multiset(text)[c]
  {
    NewlinePassSubsumed(text);
    WhitespaceCounts(text, c);
  }

  lemma {:induction false} WhitespaceCounts(s: string, c: char)
    ensures IsJsWhitespace(c) ==> multiset(RemoveWhitespace(s))[c] == 0
    ensures !IsJsWhitespace(c) ==> multiset(RemoveWhitespace(s))[c] == multiset(s)[c]
  {
    if s != [] {
      WhitespaceCounts(s[1..], c);
      assert s == [s[0]] + s[1..];
      var head := if IsJsWhitespace(s[0]) then [] else [s[0]];
      assert multiset(RemoveWhitespace(s)) == multiset(head) + multiset(RemoveWhitespace(s[1..]));
    }
  }

  /** Rewriting an already rewritten callback text changes nothing. */
  lemma CanonicalizeIdempotent(text: string)
    ensures Canonicalize(Canonicalize(text)) == Canonicalize(text)
  {
    CanonicalizeIsFilter(text);
    CanonicalizeIsFilter(Canonicalize(text));
    RemoveWhitespaceFixed(Canonicalize(text));
  }
}
