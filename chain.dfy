/** The filter chain. The tokenizer the checker uses is the host tokenizer
    wrapped by each filter of a list in turn, the first filter innermost.
    A filter first drops the words it skips and then replaces each remaining
    word by the tokens its split returns; filters that do not split return
    the word itself as the only token. */
module Chain {
  import opened Strings
  import opened Foreign
  import opened Filters

  /** The filters a spelling build can configure. */
  datatype FilterKind =
    | Contraction                          // ContractionFilter
    | Email                                // enchant's EmailFilter
    | WikiWord                             // enchant's WikiWordFilter
    | Acronym                              // AcronymFilter
    | IgnoreWords(wordSet: set<string>)    // IgnoreWordsFilter over a set fixed when it is built
    | Builtins                             // PythonBuiltinsFilter
    | ImportableModule                     // ImportableModuleFilter
    | User(name: string)                   // a class listed in `spelling_filters`

  /** Whether filter `f` drops `word`. The contraction filter keeps the
      default of never skipping; the importable-module filter's verdict is the
      finder's answer at the word's first lookup, which its cache repeats on
      every later call (see ImportableModuleFilter.Skip). */
  predicate Skip(f: FilterKind, host: Host, word: string): (skip: bool)
    ensures f.Contraction? ==> !skip
    ensures f.IgnoreWords? ==> (skip <==> word in f.wordSet)
    ensures f.Builtins? ==> (skip <==> word in host.builtins)
    ensures f.ImportableModule? ==> (skip <==> host.findModule(word).Found?)
    ensures f.Acronym? && NoLower(word) ==> skip
    ensures f.Acronym? && skip && |word| > 0 ==> NoLower(word[..|word| - 1])
  {
    match f
    case Contraction => false
    case Email => host.isEmail(word)
    case WikiWord => host.isWikiWord(word)
    case Acronym => AcronymSkip(word)
    case IgnoreWords(wordSet) => word in wordSet
    case Builtins => word in host.builtins
    case ImportableModule => host.findModule(word).Found?
    case User(name) => host.userSkip(name, word)
  }

  /** Only the contraction filter and user filters split words. */
  predicate Splits(f: FilterKind)
  {
    f.Contraction? || f.User?
  }

  /** The tokens filter `f` turns a word it keeps into. */
  function Split(f: FilterKind, host: Host, word: string): (r: seq<string>)
    ensures !Splits(f) ==> r == [word]
    ensures f.Contraction? ==> r == [ContractionStem(word)]
  {
    match f
    case Contraction => [ContractionStem(word)]
    case User(name) => host.userSplit(name, word)
    case _ => [word]
  }

  /** One filter over a stream of words. */
  function Pass(f: FilterKind, host: Host, words: seq<string>): seq<string>
  {
    if words == [] then []
    else (if Skip(f, host, words[0]) then [] else Split(f, host, words[0]))
         + Pass(f, host, words[1..])
  }

  /** The whole chain: `filters[0]` sees the host tokenizer's words first. */
  function Apply(filters: seq<FilterKind>, host: Host, words: seq<string>): seq<string>
    decreases |filters|
  {
    if filters == [] then words
    else Apply(filters[1..], host, Pass(filters[0], host, words))
  }

  /** A filter that does not split keeps exactly the words it does not skip,
      and adds none. */
  lemma {:induction false} PassKeepsUnskipped(f: FilterKind, host: Host, words: seq<string>)
    requires !Splits(f)
    ensures forall w :: w in Pass(f, host, words) <==> w in words && !Skip(f, host, w)
    ensures |Pass(f, host, words)| <= |words|
  {
    if words != [] {
      PassKeepsUnskipped(f, host, words[1..]);
      assert words == [words[0]] + words[1..];
    }
  }

  /** The contraction filter reduces every word to its stem, one for one. */
  lemma {:induction false} PassContraction(host: Host, words: seq<string>)
    ensures |Pass(Contraction, host, words)| == |words|
    ensures forall i :: 0 <= i < |words| ==> Pass(Contraction, host, words)[i] == ContractionStem(words[i])
  {
    if words != [] {
      PassContraction(host, words[1..]);
      var rest := Pass(Contraction, host, words[1..]);
      assert Pass(Contraction, host, words) == [ContractionStem(words[0])] + rest;
      forall i | 1 <= i < |words|
        ensures Pass(Contraction, host, words)[i] == ContractionStem(words[i])
      {
        assert words[1..][i - 1] == words[i];
      }
    }
  }

  /** Running two lists of filters one after the other is running their concatenation. */
  lemma {:induction false} ApplyConcat(a: seq<FilterKind>, b: seq<FilterKind>, host: Host, words: seq<string>)
    ensures Apply(a + b, host, words) == Apply(b, host, Apply(a, host, words))
    decreases |a|
  {
    if a != [] {
      assert (a + b)[1..] == a[1..] + b;
      ApplyConcat(a[1..], b, host, Pass(a[0], host, words));
    } else {
      assert a + b == b;
    }
  }

  /** Filters that do not split only ever remove words. */
  lemma {:induction false} ApplySkipOnlyRemoves(filters: seq<FilterKind>, host: Host, words: seq<string>)
    requires forall j :: 0 <= j < |filters| ==> !Splits(filters[j])
    ensures forall w :: w in Apply(filters, host, words) ==> w in words
    decreases |filters|
  {
    if filters != [] {
      PassKeepsUnskipped(filters[0], host, words);
      ApplySkipOnlyRemoves(filters[1..], host, Pass(filters[0], host, words));
    }
  }

  /** A word the filter at position `i` skips never leaves the chain, as long
      as no filter from `i` on splits words. */
  lemma ChainDropsSkipped(filters: seq<FilterKind>, i: nat, host: Host, words: seq<string>)
    requires i < |filters|
    requires forall j :: i <= j < |filters| ==> !Splits(filters[j])
    ensures forall w :: w in Apply(filters, host, words) ==> !Skip(filters[i], host, w)
  {
    var before, after := filters[..i], filters[i + 1..];
    assert filters == before + ([filters[i]] + after);
    ApplyConcat(before, [filters[i]] + after, host, words);
    var reached := Apply(before, host, words);
    ApplyConcat([filters[i]], after, host, reached);
    var kept := Apply([filters[i]], host, reached);
    assert kept == Pass(filters[i], host, reached);
    PassKeepsUnskipped(filters[i], host, reached);
    ApplySkipOnlyRemoves(after, host, kept);
  }
}
