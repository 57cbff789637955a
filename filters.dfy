/** The word filters the spelling extension defines: the acronym and
    contraction rules, and the importable-module filter with its lookup cache.
    The ignore-set and builtins filters are plain set membership and appear
    as filter kinds in module Chain. */
module Filters {
  import opened Strings
  import opened Foreign

  /** AcronymFilter: a word is skipped when it is all capitals, or all capitals
      followed by one trailing `s` of either case ("URLs"). The empty word is
      caught by the first test, so its last character is never looked at. */
  predicate AcronymSkip(word: string): (skip: bool)
    ensures NoLower(word) ==> skip
    ensures skip && |word| > 0 ==> NoLower(word[..|word| - 1])
  {
    UpperFixedIff(word);
    UpperFixedIff(if |word| > 0 then word[..|word| - 1] else word);
    word == ToUpper(word)
    || (|word| > 0
        && LowerChar(word[|word| - 1]) == 's'
        && word[..|word| - 1] == ToUpper(word[..|word| - 1]))
  }

  /** The acronym rule stated on characters: no lower-case letter at all, or
      none before a final `s` or `S`. */
  lemma AcronymSkipIff(word: string)
    ensures AcronymSkip(word) <==>
      NoLower(word)
      || (|word| > 0 && word[|word| - 1] in "sS" && NoLower(word[..|word| - 1]))
  {
    UpperFixedIff(word);
    if |word| > 0 {
      UpperFixedIff(word[..|word| - 1]);
      var c := word[|word| - 1];
      assert LowerChar(c) == 's' <==> c == 's' || c == 'S';
    }
  }

  lemma AcronymExamples()
    ensures AcronymSkip("URL")
    ensures AcronymSkip("URLs")
    ensures !AcronymSkip("Urls")
    ensures !AcronymSkip("cats")
    ensures AcronymSkip("")
  {
    AcronymSkipIff("URL");
    AcronymSkipIff("URLs");
    assert "URLs"[..3] == "URL";
    AcronymSkipIff("Urls");
    assert "Urls"[1] == 'r';
    assert "Urls"[..3][1] == 'r';
    AcronymSkipIff("cats");
    assert "cats"[0] == 'c';
    assert "cats"[..3][0] == 'c';
    AcronymSkipIff("");
  }

  /** ContractionFilter: the single token a word is reduced to before it is
      checked. Case-insensitively, and in this order: a trailing `'s` is
      dropped, a trailing `n't` is dropped, `i'm` becomes its first letter;
      any other word is kept whole. */
  function ContractionStem(word: string): (stem: string)
    ensures IsPrefix(stem, word)
  {
    var lower := ToLower(word);
    if EndsWith(lower, "'s") then word[..|word| - 2]
    else if EndsWith(lower, "n't") then word[..|word| - 3]
    else if lower == "i'm" then word[..1]
    else word
  }

  /** Lower-casing keeps an apostrophe and makes no new one. */
  lemma LowerApostrophe(word: string, i: nat)
    requires i < |word|
    ensures ToLower(word)[i] == '\'' <==> word[i] == '\''
  {
  }

  /** A word without an apostrophe is never shortened. */
  lemma NoApostropheKeepsWord(word: string)
    requires '\'' !in word
    ensures ContractionStem(word) == word
  {
    var lower := ToLower(word);
    if |word| >= 2 {
      LowerApostrophe(word, |word| - 2);
      assert lower[|word| - 2] != '\'';
    }
    if |word| == 3 {
      LowerApostrophe(word, 1);
      assert lower[1] != '\'';
    }
  }

  /** What the contraction rule removes holds the apostrophe and is a
      trailing `'s` or `n't`, in any case, or the `'m` of a word that is
      `i'm` as a whole. */
  lemma StrippedTailIsContraction(word: string)
    ensures var stem := ContractionStem(word);
      var tail := word[|stem|..];
      stem == word
      || ('\'' in tail
          && (ToLower(tail) in {"'s", "n't"} || (ToLower(word) == "i'm" && |stem| == 1)))
  {
    var lower := ToLower(word);
    var stem := ContractionStem(word);
    var tail := word[|stem|..];
    if EndsWith(lower, "'s") {
      assert ToLower(tail) == lower[|word| - 2..];
      LowerApostrophe(word, |word| - 2);
      assert tail[0] == word[|word| - 2];
    } else if EndsWith(lower, "n't") {
      assert ToLower(tail) == lower[|word| - 3..];
      LowerApostrophe(word, |word| - 2);
      assert tail[1] == word[|word| - 2];
    } else if lower == "i'm" {
      assert ToLower(tail) == lower[1..];
      LowerApostrophe(word, 1);
      assert tail[0] == word[1];
    }
  }

  /** The converse of StrippedTailIsContraction: a word made of a stem and a
      trailing `'s` or `n't`, in any case, is reduced to exactly that stem. */
  lemma ContractionStripped(stem: string, ending: string)
    requires ToLower(ending) in {"'s", "n't"}
    ensures ContractionStem(stem + ending) == stem
  {
    var word := stem + ending;
    ToLowerConcat(stem, ending);
    var lower := ToLower(word);
    assert lower[|word| - |ending|..] == ToLower(ending);
    if ToLower(ending) == "'s" {
      assert EndsWith(lower, "'s");
    } else {
      assert lower[|word| - 1] == 't';
      assert !EndsWith(lower, "'s");
      assert EndsWith(lower, "n't");
    }
    assert word[..|stem|] == stem;
  }

  /** `i'm`, in any case, is reduced to its first letter. */
  lemma ContractionIm(word: string)
    requires ToLower(word) == "i'm"
    ensures ContractionStem(word) == word[..1]
  {
    var lower := ToLower(word);
    assert lower[|word| - 1] == 'm';
    assert !EndsWith(lower, "'s") && !EndsWith(lower, "n't");
  }

  lemma ContractionExamples()
    ensures ContractionStem("don't") == "do"
    ensures ContractionStem("ISN'T") == "IS"
    ensures ContractionStem("it's") == "it"
    ensures ContractionStem("I'm") == "I"
    ensures ContractionStem("URLs") == "URLs"
  {
    assert ToLower("don't")[3..] == "'t";
    assert ToLower("don't")[2..] == "n't";
    assert ToLower("ISN'T")[3..] == "'t";
    assert ToLower("ISN'T")[2..] == "n't";
    assert ToLower("it's")[2..] == "'s";
    assert ToLower("I'm") == "i'm";
    NoApostropheKeepsWord("URLs");
  }

  /** ImportableModuleFilter: skips a word that names a module the
      interpreter can find. Every word is handed to the module finder at most
      once, and later calls for it repeat the first answer from the caches:
      `soughtModules` records the words asked about and `foundModules` those
      the finder found. The finder may answer differently over time, so only
      the caches make repeated verdicts agree. */
  class ImportableModuleFilter {
    const finder: ModuleFinder
    var foundModules: set<string>
    var soughtModules: set<string>
    // the words handed to the module finder, in the order they were asked
    ghost var resolved: seq<string>
    // the answer each sought word got at its one lookup
    ghost var answers: map<string, FindResult>

    ghost predicate Valid()
      reads this
    {
      foundModules <= soughtModules
      && answers.Keys == soughtModules
      && foundModules == (set w | w in soughtModules && answers[w].Found?)
      && (forall i :: 0 <= i < |resolved| ==> resolved[i] in soughtModules)
      && (forall w :: w in soughtModules ==> w in resolved)
      && (forall i, j :: 0 <= i < j < |resolved| ==> resolved[i] != resolved[j])
    }

    constructor (finder: ModuleFinder)
      ensures Valid()
      ensures this.finder == finder
      ensures foundModules == {} && soughtModules == {} && resolved == [] && answers == map[]
    {
      this.finder := finder;
      foundModules := {};
      soughtModules := {};
      resolved := [];
      answers := map[];
    }

    /** `_skip`: on the first call for a word the finder is asked and its
        answer of that moment decides; on any later call the cached answer
        decides and the finder is not asked. A failure leaves `foundModules`
        as it was. */
    method Skip(word: string) returns (skip: bool)
      requires Valid()
      modifies this, finder
      ensures Valid()
      ensures word in answers && (skip <==> answers[word].Found?)
      ensures skip <==> word in foundModules
      ensures soughtModules == old(soughtModules) + {word}
      ensures foundModules == if skip then old(foundModules) + {word} else old(foundModules)
      ensures word !in old(soughtModules) ==>
        resolved == old(resolved) + [word]
        && finder.lookups == old(finder.lookups) + 1
        && answers == old(answers)[word := finder.answer(old(finder.lookups), word)]
      ensures word in old(soughtModules) ==>
        resolved == old(resolved) && answers == old(answers)
        && finder.lookups == old(finder.lookups)
    {
      if word !in soughtModules {
        soughtModules := soughtModules + {word};
        resolved := resolved + [word];
        var outcome := finder.Find(word);
        answers := answers[word := outcome];
        match outcome
        case UnicodeEncodeError =>
          return false;
        case ImportError =>
          return false;
        case Found =>
          foundModules := foundModules + {word};
          return true;
      }
      return word in foundModules;
    }
  }

  /** Asking twice gives the same verdict, the finder's answer at the first
      lookup, however it would answer at the second; the second call does
      not reach the finder. */
  method SkipTwice(f: ImportableModuleFilter, word: string) returns (first: bool, second: bool)
    requires f.Valid()
    modifies f, f.finder
    ensures f.Valid()
    ensures first == second
    ensures word !in old(f.soughtModules) ==>
      (first <==> f.finder.answer(old(f.finder.lookups), word).Found?)
    ensures f.finder.lookups <= old(f.finder.lookups) + 1
    ensures |f.resolved| <= |old(f.resolved)| + 1
  {
    first := f.Skip(word);
    ghost var calls := f.finder.lookups;
    second := f.Skip(word);
    assert f.finder.lookups == calls;
  }
}
