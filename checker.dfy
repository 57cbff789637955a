/** SpellingChecker: checks blocks of text against a dictionary, through the
    configured filter chain, and reports the words the dictionary rejects. */
module Checker {
  import opened Foreign
  import opened Chain

  /** A rejected word with the suggestions reported for it. */
  datatype Flag = Flag(word: string, suggestions: seq<string>)

  /** The checker's state after construction: the language, whether to ask
      for suggestions, the dictionary with the project's word list, and the
      filters its tokenizer applies. */
  datatype SpellingChecker = SpellingChecker(
    lang: string,
    suggest: bool,
    dictionary: Dictionary,
    filters: seq<FilterKind>,
    host: Host)

  /** `SpellingChecker.__init__`. */
  function NewChecker(lang: string, suggest: bool, wordListFilename: string,
                      filters: seq<FilterKind>, host: Host): (c: SpellingChecker)
    ensures c.lang == lang && c.suggest == suggest && c.filters == filters
    ensures c.dictionary == host.openDictionary(lang, wordListFilename)
  {
    SpellingChecker(lang, suggest, host.openDictionary(lang, wordListFilename), filters, host)
  }

  /** What the checker's tokenizer yields for `text`. */
  function Tokens(c: SpellingChecker, text: string): seq<string>
  {
    Apply(c.filters, c.host, c.host.tokenize(c.lang, text))
  }

  /** The suggestions reported with a rejected word. */
  function SuggestionsFor(d: Dictionary, suggest: bool, word: string): seq<string>
  {
    if suggest then d.suggest(word) else []
  }

  /** The words of `words` the dictionary rejects, in order, each with its suggestions. */
  function Misspellings(d: Dictionary, suggest: bool, words: seq<string>): seq<Flag>
  {
    if words == [] then []
    else
      var last := words[|words| - 1];
      Misspellings(d, suggest, words[..|words| - 1])
      + (if d.check(last) then [] else [Flag(last, SuggestionsFor(d, suggest, last))])
  }

  /** `check`: runs the tokenizer over `text` and yields each word the
      dictionary rejects. */
  method Check(c: SpellingChecker, text: string) returns (flags: seq<Flag>)
    ensures flags == Misspellings(c.dictionary, c.suggest, Tokens(c, text))
  {
    var words := Tokens(c, text);
    flags := [];
    var i := 0;
    while i < |words|
      invariant 0 <= i <= |words|
      invariant flags == Misspellings(c.dictionary, c.suggest, words[..i])
    {
      var word := words[i];
      assert words[..i + 1][..i] == words[..i];
      var correct := c.dictionary.check(word);
      if !correct {
        var suggestions := if c.suggest then c.dictionary.suggest(word) else [];
        flags := flags + [Flag(word, suggestions)];
      }
      i := i + 1;
    }
    assert words[..i] == words;
  }

  /** Every reported word is one of the checked words that the dictionary
      rejects, and it carries the dictionary's suggestions exactly when
      suggestions are on. */
  lemma {:induction false} MisspellingsSound(d: Dictionary, suggest: bool, words: seq<string>)
    ensures var r := Misspellings(d, suggest, words);
      |r| <= |words|
      && forall i :: 0 <= i < |r| ==>
           r[i].word in words && !d.check(r[i].word)
           && r[i].suggestions == (if suggest then d.suggest(r[i].word) else [])
  {
    if words != [] {
      var init := words[..|words| - 1];
      MisspellingsSound(d, suggest, init);
      assert forall w :: w in init ==> w in words;
    }
  }

  /** Every checked word that the dictionary rejects is reported. */
  lemma {:induction false} MisspellingsComplete(d: Dictionary, suggest: bool, words: seq<string>)
    ensures forall w :: w in words && !d.check(w) ==>
      exists i :: 0 <= i < |Misspellings(d, suggest, words)| && Misspellings(d, suggest, words)[i].word == w
  {
    if words != [] {
      var init := words[..|words| - 1];
      MisspellingsComplete(d, suggest, init);
      var r := Misspellings(d, suggest, words);
      var r0 := Misspellings(d, suggest, init);
      assert words == init + [words[|words| - 1]];
      assert r[..|r0|] == r0;
      forall w | w in words && !d.check(w)
        ensures exists i :: 0 <= i < |r| && r[i].word == w
      {
        if w in init {
          var i :| 0 <= i < |r0| && r0[i].word == w;
          assert r[i] == r0[i];
        } else {
          assert w == words[|words| - 1];
          assert r[|r| - 1].word == w;
        }
      }
      assert r == Misspellings(d, suggest, words);
    }
  }

  /** Checking a text piecewise reports the same words in the same order. */
  lemma {:induction false} MisspellingsConcat(d: Dictionary, suggest: bool, a: seq<string>, b: seq<string>)
    ensures Misspellings(d, suggest, a + b) == Misspellings(d, suggest, a) + Misspellings(d, suggest, b)
    decreases |b|
  {
    if b == [] {
      assert a + b == a;
    } else {
      var init := b[..|b| - 1];
      assert (a + b)[..|a + b| - 1] == a + init;
      MisspellingsConcat(d, suggest, a, init);
    }
  }

  /** A word that the filter at position `k` skips is never reported, as long
      as no filter from `k` on splits words. */
  lemma ReportedNotSkippedBy(c: SpellingChecker, text: string, k: nat)
    requires k < |c.filters|
    requires forall j :: k <= j < |c.filters| ==> !Splits(c.filters[j])
    ensures forall f :: f in Misspellings(c.dictionary, c.suggest, Tokens(c, text)) ==>
      !Skip(c.filters[k], c.host, f.word)
  {
    var words := Tokens(c, text);
    ChainDropsSkipped(c.filters, k, c.host, c.host.tokenize(c.lang, text));
    MisspellingsSound(c.dictionary, c.suggest, words);
    forall f | f in Misspellings(c.dictionary, c.suggest, words)
      ensures f.word in words
    {
      var r := Misspellings(c.dictionary, c.suggest, words);
      var i :| 0 <= i < |r| && r[i] == f;
    }
  }

  /** Nothing is reported exactly when the dictionary accepts every word. */
  lemma {:induction false} NoMisspellingsIff(d: Dictionary, suggest: bool, words: seq<string>)
    ensures Misspellings(d, suggest, words) == [] <==> forall w :: w in words ==> d.check(w)
  {
    MisspellingsSound(d, suggest, words);
    MisspellingsComplete(d, suggest, words);
    var r := Misspellings(d, suggest, words);
    if r != [] {
      assert r[0].word in words && !d.check(r[0].word);
    }
  }
}
