/** The collaborators the spelling checker only calls into, given as values:
    enchant's tokenizer, dictionaries and regular-expression filters, the
    interpreter's module finder and builtins, the package index's name list,
    user filter classes and Sphinx's path helpers. */
module Foreign {

  /** How `imp.find_module(word)` ends: it finds the module, or it raises one
      of the two exceptions the importable-module filter catches. */
  datatype FindResult = Found | ImportError | UnicodeEncodeError

  /** A dictionary with a personal word list: whether it accepts a word, and
      the suggestions it ranks for a word. */
  datatype Dictionary = Dictionary(check: string -> bool, suggest: string -> seq<string>)

  /** Everything outside the spelling module that its behaviour depends on. */
  datatype Host = Host(
    // enchant's tokenizer for a language tag: the words of a text, in order
    tokenize: (string, string) -> seq<string>,
    // `enchant.DictWithPWL(lang, word_list_path)`
    openDictionary: (string, string) -> Dictionary,
    // the skip decision of enchant's EmailFilter
    isEmail: string -> bool,
    // the skip decision of enchant's WikiWordFilter
    isWikiWord: string -> bool,
    // the names in `__builtins__`
    builtins: set<string>,
    // what `imp.find_module` answers for a word at its first lookup, which
    // the importable-module filter then keeps in its caches
    findModule: string -> FindResult,
    // the package index's `list_packages()`, fetched once
    pypiPackageNames: set<string>,
    // the skip decision and the split of a user filter class, by its name
    userSkip: (string, string) -> bool,
    userSplit: (string, string) -> seq<string>,
    // `os.path.join`
    joinPath: (string, string) -> string,
    // `env.doc2path(docname, None)`
    doc2path: string -> string
  )

  /** `imp.find_module` as the file system answers it: the answer may change
      from one lookup to the next, so it depends on how many lookups came
      before. */
  class ModuleFinder {
    // the answer for a word when it is looked up after `n` earlier lookups
    const answer: (nat, string) -> FindResult
    var lookups: nat

    constructor (answer: (nat, string) -> FindResult)
      ensures this.answer == answer && lookups == 0
    {
      this.answer := answer;
      lookups := 0;
    }

    /** One lookup: the answer for this moment, after which time moves on. */
    method Find(word: string) returns (r: FindResult)
      modifies this
      ensures r == answer(old(lookups), word)
      ensures lookups == old(lookups) + 1
    {
      r := answer(lookups, word);
      lookups := lookups + 1;
    }
  }
}
