# sphinxcontrib.spelling, modelled in Dafny

This project models the core of the Sphinx spelling extension
(`spelling/sphinxcontrib/spelling.py`):

- the word filters it defines:
  - the acronym skip rule;
  - the contraction stripping rule;
  - the ignore-set filter behind the PyPI package names;
  - the Python builtins filter;
  - the importable-module filter with its two caches of sought and found names;
- how enchant chains filters around the tokenizer: a filter first drops the
  words it skips, then splits each word it keeps; the first filter of the
  list sees the tokenizer's words first;
- `SpellingChecker.check`, which yields each word the dictionary rejects,
  together with its suggestions;
- `SpellingBuilder.init`, which builds the filter list in a fixed order from
  the `spelling_*` configuration values;
- `format_suggestions` and the output record `<path>:<line>: (<word>) <suggestions>`;
- `write_doc`: which text nodes are checked, the parent-line lookup loop, the
  records written to `output.txt`, and the status code that fails the build.

Modules follow the structure of the program:

- `Strings`: ASCII case mapping, join, search, decimal rendering;
- `Foreign`: the collaborators the extension only calls into, given as values
  (an oracle is such a given function: the model assumes nothing about it
  beyond its type);
- `Filters`: the acronym and contraction rules and the importable-module
  filter class;
- `Chain`: filter kinds and their composition;
- `Checker`: the checker;
- `Report`: output text;
- `Builder`: configuration, filter list, document nodes, the application, and
  the builder class.

Behaviour of the code that the model keeps as written:

- `"don't"` is reduced to `"do"`: the contraction filter drops the three
  characters of a trailing `n't`.
- A record for a node without a line number prints `None`, the way Python's
  `%s` renders a missing value.
- The line number comes only from the node's immediate parent. The comment at
  spelling/sphinxcontrib/spelling.py:191-192 describes climbing the tree until
  some ancestor has a line number, but line 199 sets `parent = node.parent` on
  every pass, so the loop never looks past the parent; the model follows line
  199.
- A `#text` node without a parent makes the code raise at
  spelling/sphinxcontrib/spelling.py:189 when it reads the parent's tag. The
  model's `WriteDoc` stops at that node, keeps what it already wrote, and
  returns `false`.

## Model

| member | source | states |
|---|---|---|
| Filters.AcronymSkip | spelling/sphinxcontrib/spelling.py:39-47 | a word without lower-case letters is skipped; a skipped word has no lower-case letter before its last character |
| Filters.AcronymSkipIff | spelling/sphinxcontrib/spelling.py:39-47 | a word is skipped as an acronym iff it has no lower-case letter, or it has none before a final `s` or `S` |
| Filters.AcronymExamples | spelling/sphinxcontrib/spelling.py:39-47 | "URL", "URLs" and the empty word are skipped; "Urls" and "cats" are not |
| Filters.ContractionStem | spelling/sphinxcontrib/spelling.py:52-59 | the token a word is reduced to is always a prefix of the word |
| Filters.NoApostropheKeepsWord | spelling/sphinxcontrib/spelling.py:52-59 | a word without an apostrophe is never shortened |
| Filters.StrippedTailIsContraction | spelling/sphinxcontrib/spelling.py:52-59 | whatever is removed holds the apostrophe and is, in any case, a trailing `'s` or `n't`, or the `'m` of a word that is `i'm` as a whole (every other word ending in `'m` is kept) |
| Filters.ContractionStripped | spelling/sphinxcontrib/spelling.py:53-56 | a stem followed by `'s` or `n't`, in any case, is reduced to exactly that stem |
| Filters.ContractionIm | spelling/sphinxcontrib/spelling.py:57-58 | `i'm`, in any case, is reduced to its first letter |
| Filters.ContractionExamples | spelling/sphinxcontrib/spelling.py:52-59 | don't→do, ISN'T→IS, it's→it, I'm→I, URLs unchanged |
| Filters.ImportableModuleFilter.constructor | spelling/sphinxcontrib/spelling.py:88-91 | both caches start empty and the cache invariant holds |
| Filters.ImportableModuleFilter.Skip | spelling/sphinxcontrib/spelling.py:92-104 | the first call for a word asks the finder once, and its answer at that moment decides; every later call repeats the recorded answer without asking; the word joins the sought set and joins the found set exactly when found; the invariant found = {sought words whose answer was found} is kept |
| Filters.SkipTwice | spelling/sphinxcontrib/spelling.py:92-104 | two calls for the same word agree even when the finder would answer the second differently, and at most one of them reaches the finder |
| Chain.Skip | spelling/sphinxcontrib/spelling.py:67-68 | the contraction filter never drops a word; the ignore filter drops exactly the words of its set, the builtins filter exactly the builtin names (lines 82-83), and the acronym filter follows the acronym rule; the importable-module filter drops a word when its first lookup found a module (lines 92-104) |
| Chain.PassKeepsUnskipped | spelling/sphinxcontrib/spelling.py:67-68 | a non-splitting filter keeps a word iff the word was there and the filter does not skip it, and never adds words |
| Chain.PassContraction | spelling/sphinxcontrib/spelling.py:52-59 | the contraction filter maps the words one for one to their stems |
| Chain.ApplyConcat | spelling/sphinxcontrib/spelling.py:116 | chaining a list of filters after another is chaining their concatenation |
| Chain.ApplySkipOnlyRemoves | spelling/sphinxcontrib/spelling.py:116 | a chain of non-splitting filters yields only words it was given |
| Chain.ChainDropsSkipped | spelling/sphinxcontrib/spelling.py:116 | no word a filter skips leaves the chain, as long as no later filter splits |
| Checker.NewChecker | spelling/sphinxcontrib/spelling.py:114-117 | the checker keeps the language, the suggestion flag and the filter list it is given, and opens the dictionary for that language with the word list |
| Checker.Check | spelling/sphinxcontrib/spelling.py:119-127 | the loop yields exactly the rejected-word list of the tokens, in order |
| Checker.MisspellingsSound | spelling/sphinxcontrib/spelling.py:119-127 | every yielded word is a token the dictionary rejects, with the dictionary's suggestions when suggestions are on and none otherwise |
| Checker.MisspellingsComplete | spelling/sphinxcontrib/spelling.py:119-127 | every token the dictionary rejects is yielded |
| Checker.MisspellingsConcat | spelling/sphinxcontrib/spelling.py:119-127 | checking two token runs in turn yields the same as checking them joined |
| Checker.NoMisspellingsIff | spelling/sphinxcontrib/spelling.py:119-127 | nothing is yielded iff the dictionary accepts every token |
| Checker.ReportedNotSkippedBy | spelling/sphinxcontrib/spelling.py:116-126 | no yielded word is one the filter at a given position skips, as long as no later filter splits |
| Report.FormatSuggestions | spelling/sphinxcontrib/spelling.py:182-185 | the rendering is empty iff suggestions are off or there are none; otherwise it is bracketed |
| Report.SuggestionsRoundTrip | spelling/sphinxcontrib/spelling.py:182-185 | a quote-free suggestion list is read back exactly from its rendering |
| Report.FormatExamples | spelling/sphinxcontrib/spelling.py:182-185 | `["this", "thus"]` renders as `["this", "thus"]` with the quotes; off or empty renders as nothing |
| Report.LineText | spelling/sphinxcontrib/spelling.py:214-218 | a missing line prints as `None`; a line number prints as decimal digits without leading zeros that read back as that number |
| Report.LineTextInjective | spelling/sphinxcontrib/spelling.py:214-218 | different line numbers, or a number and none, print differently |
| Report.Record | spelling/sphinxcontrib/spelling.py:214-218 | a record starts with the document path and a colon and ends with a newline |
| Report.RecordIsOneLine | spelling/sphinxcontrib/spelling.py:214-218 | a record starts with the document path and is exactly one newline-terminated line when path, word and suggestions hold no newline |
| Report.RecordRoundTrip | spelling/sphinxcontrib/spelling.py:214-218 | reading a record back gives the line, the word and the suggestions it was written for (none when suggestions are off), for a word without `)` and quote-free suggestions |
| Builder.DefaultsRegistered | spelling/sphinxcontrib/spelling.py:234-250 | the registered defaults check `en_US` against `spelling_wordlist.txt` with no user filters, and without suggestions a record ends with `) ` (the empty suggestion text after the word's parenthesis and its space) and the newline |
| Builder.FilterList | spelling/sphinxcontrib/spelling.py:148-162 | the list starts with the contraction and e-mail filters, ends with the user filters, and has at most five filters in between |
| Builder.FilterListLength | spelling/sphinxcontrib/spelling.py:148-162 | the list has exactly two fixed filters, one per optional flag that is set, and one per configured user filter |
| Builder.AddEnabledMember | spelling/sphinxcontrib/spelling.py:151-161 | a filter is in the list iff it was there at the start or some switch holding it is on |
| Builder.AddEnabledIncreasing | spelling/sphinxcontrib/spelling.py:151-161 | appending the filters of switches in increasing rank keeps the list's ranks increasing |
| Builder.AddSwitch | spelling/sphinxcontrib/spelling.py:151-161 | one conditional append step of `init` adds the switch's filter exactly when its flag is on |
| Builder.FilterListMembership | spelling/sphinxcontrib/spelling.py:151-161 | each optional filter is in the list iff its configuration flag is set |
| Builder.FilterListOrder | spelling/sphinxcontrib/spelling.py:148-162 | built-in filters come in their fixed order, each at most once, before all user filters; only the first filter is the contraction filter; exactly the last `len(spelling_filters)` filters are user filters |
| Builder.DefaultFilterList | spelling/sphinxcontrib/spelling.py:240-250 | under the registered defaults the list is contraction, e-mail, wiki word, acronym, builtins, importable module |
| Builder.SpellingBuilder.Init | spelling/sphinxcontrib/spelling.py:144-171 | the checker gets the configured language and suggestion flag, the filter list, and the word list joined to the source directory; the output starts empty |
| Builder.FindLineNumber | spelling/sphinxcontrib/spelling.py:193-202 | the loop ends with the parent's line, or with none when there is no parent or the node is its own parent |
| Builder.Selected | spelling/sphinxcontrib/spelling.py:189 | a node that is checked is a `#text` node with a parent, so checking it never raises |
| Builder.CheckedKinds | spelling/sphinxcontrib/spelling.py:130-135 | text in a block quote, paragraph, list item, term or definition list item is checked; text in a title, literal block, comment or section directly is not |
| Builder.FirstCrash | spelling/sphinxcontrib/spelling.py:188-189 | the position of the first parentless text node, with none before it |
| Builder.DocRecordsEmptyIff | spelling/sphinxcontrib/spelling.py:187-223 | a document writes nothing iff the dictionary accepts every filtered token of every checked node |
| Builder.SpellingBuilder.WriteNode | spelling/sphinxcontrib/spelling.py:193-223 | the output grows by the node's records; the status code becomes 1 iff some record was written, and is otherwise unchanged |
| Builder.SpellingBuilder.WriteItem | spelling/sphinxcontrib/spelling.py:189 | a node that is not checked writes nothing and leaves the status code |
| Builder.SpellingBuilder.WriteDoc | spelling/sphinxcontrib/spelling.py:187-223 | it completes iff no text node lacks a parent; the output grows by the records of the nodes before the first such node; the status code becomes 1 iff anything was written |
| Builder.ReportedWordsPassEveryFilter | spelling/sphinxcontrib/spelling.py:148-162 | with no user filters, no reported word is one any configured filter skips |
| Builder.ReportedWordsAreStems | spelling/sphinxcontrib/spelling.py:148-150 | with no user filters, every reported word is the contraction stem of a tokenizer word |
| Builder.DefaultConfigSkipsAcronyms | spelling/sphinxcontrib/spelling.py:244 | under the defaults no acronym, and in particular not "URLs", is ever reported |
| Builder.PackageNamesNotReported | spelling/sphinxcontrib/spelling.py:155-157 | with the PyPI filter on and no user filters, no package name is reported |

## Left out

- Tokenizing, dictionaries, e-mail and wiki-word detection (enchant's `get_tokenizer`, `DictWithPWL`, `EmailFilter`, `WikiWordFilter`) are oracles in `Foreign.Host`, because they are library code outside the extension.
- Token positions from the tokenizer are dropped: `check` ignores them.
- Generator laziness: `check` and the filter chain are modelled as sequences.
- `unit_tokenize` is taken to yield its argument as the only token.
- `PyPIFilterFactory`'s XML-RPC call to the package index is replaced by the fetched name set `pypiPackageNames`, because it is network I/O.
- `imp.find_module` is `Foreign.ModuleFinder`, an oracle returning found, `ImportError` or `UnicodeEncodeError` whose answer may change from one lookup to the next, because it searches the file system.
- `__builtins__` is a given name set, because it is the interpreter's state.
- User filter classes from `spelling_filters` are oracles for skip and split, named by their class name.
- Chain.Skip: decides the importable-module filter by each word's answer at its first lookup (`Foreign.Host.findModule`) instead of running the class's caches; `Filters.ImportableModuleFilter.Skip` proves the cached filter repeats that first answer on every later call.
- `os.path.join` and `env.doc2path` are oracles, because they belong to the operating system and to Sphinx.
- `doctree.traverse(docutils.nodes.Text)` is the node sequence given to `WriteDoc`, because it is docutils code.
- Opening `output.txt` (`codecs.open`, UTF-8 encoding) and closing it in `finish` are left out: the output file is the sequence of lines written.
- The console messages (`self.info` and `app.info`, including the `if lineno:` line text with its colours) are left out, because they are terminal output.
- The unused `filename` local at spelling/sphinxcontrib/spelling.py:203 is left out, because nothing reads it.
- `get_outdated_docs`, `prepare_writing`, `get_target_uri` and `setup` are left out, because they only return constants or register with Sphinx. `setup`'s default values are kept as `Builder.DefaultConfig`.
- `self.docnames` and `self.document_data` are left out, because nothing in the core reads them.
- Case mapping covers ASCII letters only. Python's full Unicode `upper()` and `lower()` are not modelled.
- Python 2 byte and Unicode string types are not distinguished: every string is a sequence of characters.
