/** SpellingBuilder: builds the filter list from the configuration, walks the
    text nodes of each document, writes one record per rejected word and
    marks the application as failed when anything was reported. */
module Builder {
  import opened Strings
  import opened Foreign
  import opened Filters
  import opened Chain
  import opened Checker
  import opened Report

  /** The `spelling_*` configuration values. */
  datatype Config = Config(
    showSuggestions: bool,
    lang: string,
    wordListFilename: string,
    ignorePypiPackageNames: bool,
    ignoreWikiWords: bool,
    ignoreAcronyms: bool,
    ignorePythonBuiltins: bool,
    ignoreImportableModules: bool,
    filters: seq<string>)

  /** The values the extension registers when no configuration overrides them. */
  const DefaultConfig := Config(
    showSuggestions := false,
    lang := "en_US",
    wordListFilename := "spelling_wordlist.txt",
    ignorePypiPackageNames := false,
    ignoreWikiWords := true,
    ignoreAcronyms := true,
    ignorePythonBuiltins := true,
    ignoreImportableModules := true,
    filters := [])

  /** The node kinds whose text children are checked. */
  const TextNodes: set<string> :=
    {"block_quote", "paragraph", "list_item", "term", "definition_list_item"}

  /** The user filter classes, in the order they are configured. */
  function UserFilters(names: seq<string>): (r: seq<FilterKind>)
    ensures |r| == |names|
    ensures forall k :: 0 <= k < |r| ==> r[k] == User(names[k])
  {
    seq(|names|, k requires 0 <= k < |names| => User(names[k]))
  }

  function Optional(on: bool, f: FilterKind): seq<FilterKind>
  {
    if on then [f] else []
  }

  /** An optional built-in filter with the flag that turns it on. */
  datatype Switch = Switch(on: bool, filter: FilterKind)

  /** The five optional built-in filters in the order `init` considers them;
      `packageNames` is what the package index returned when the PyPI filter
      was built. */
  function Switches(config: Config, packageNames: set<string>): (sw: seq<Switch>)
    ensures |sw| == 5
  {
    [Switch(config.ignoreWikiWords, WikiWord),
     Switch(config.ignoreAcronyms, Acronym),
     Switch(config.ignorePypiPackageNames, IgnoreWords(packageNames)),
     Switch(config.ignorePythonBuiltins, Builtins),
     Switch(config.ignoreImportableModules, ImportableModule)]
  }

  /** `start` followed by the filter of each switch that is on, in order. */
  function AddEnabled(start: seq<FilterKind>, sw: seq<Switch>): (r: seq<FilterKind>)
    ensures |start| <= |r| <= |start| + |sw|
    ensures r[..|start|] == start
  {
    if sw == [] then start
    else
      var last := sw[|sw| - 1];
      AddEnabled(start, sw[..|sw| - 1]) + Optional(last.on, last.filter)
  }

  /** The filter list `init` builds. */
  function FilterList(config: Config, packageNames: set<string>): (fl: seq<FilterKind>)
    ensures 2 + |config.filters| <= |fl| <= 7 + |config.filters|
    ensures fl[..2] == [Contraction, Email]
    ensures fl[|fl| - |config.filters|..] == UserFilters(config.filters)
  {
    AddEnabled([Contraction, Email], Switches(config, packageNames)) + UserFilters(config.filters)
  }

  function Bit(b: bool): nat
  {
    if b then 1 else 0
  }

  /** How many switches are on. */
  function OnCount(sw: seq<Switch>): nat
  {
    if sw == [] then 0 else OnCount(sw[..|sw| - 1]) + Bit(sw[|sw| - 1].on)
  }

  /** Each switch that is on adds exactly one filter. */
  lemma {:induction false} AddEnabledLength(start: seq<FilterKind>, sw: seq<Switch>)
    ensures |AddEnabled(start, sw)| == |start| + OnCount(sw)
  {
    if sw != [] {
      AddEnabledLength(start, sw[..|sw| - 1]);
    }
  }

  /** The list holds the two fixed filters, one filter per flag that is set,
      and one per configured user filter. */
  lemma FilterListLength(config: Config, packageNames: set<string>)
    ensures |FilterList(config, packageNames)| ==
      2 + Bit(config.ignoreWikiWords) + Bit(config.ignoreAcronyms)
      + Bit(config.ignorePypiPackageNames) + Bit(config.ignorePythonBuiltins)
      + Bit(config.ignoreImportableModules) + |config.filters|
  {
    var sw := Switches(config, packageNames);
    AddEnabledLength([Contraction, Email], sw);
    OnCountFive(sw);
  }

  lemma OnCountFive(sw: seq<Switch>)
    requires |sw| == 5
    ensures OnCount(sw) == Bit(sw[0].on) + Bit(sw[1].on) + Bit(sw[2].on) + Bit(sw[3].on) + Bit(sw[4].on)
  {
    assert sw[..0] == [];
    OnCountSnoc(sw, 0);
    OnCountSnoc(sw, 1);
    OnCountSnoc(sw, 2);
    OnCountSnoc(sw, 3);
    OnCountSnoc(sw, 4);
    assert sw[..5] == sw;
  }

  lemma OnCountSnoc(sw: seq<Switch>, k: nat)
    requires k < |sw|
    ensures OnCount(sw[..k + 1]) == OnCount(sw[..k]) + Bit(sw[k].on)
  {
    assert sw[..k + 1][..k] == sw[..k];
  }

  /** The fixed position of each kind of filter in the list. */
  function Rank(f: FilterKind): nat
  {
    match f
    case Contraction => 0
    case Email => 1
    case WikiWord => 2
    case Acronym => 3
    case IgnoreWords(_) => 4
    case Builtins => 5
    case ImportableModule => 6
    case User(_) => 7
  }

  /** Considering one more switch appends its filter when it is on. */
  lemma AddEnabledSnoc(start: seq<FilterKind>, sw: seq<Switch>, k: nat)
    requires k < |sw|
    ensures AddEnabled(start, sw[..k + 1])
      == AddEnabled(start, sw[..k]) + Optional(sw[k].on, sw[k].filter)
  {
    assert sw[..k + 1][..k] == sw[..k];
  }

  /** A filter is added exactly when it is `start`'s or some switch holding it is on. */
  lemma {:induction false} AddEnabledMember(start: seq<FilterKind>, sw: seq<Switch>, f: FilterKind)
    ensures f in AddEnabled(start, sw) <==>
      f in start || exists k :: 0 <= k < |sw| && sw[k] == Switch(true, f)
  {
    if sw != [] {
      var init := sw[..|sw| - 1];
      AddEnabledMember(start, init, f);
      assert forall k :: 0 <= k < |init| ==> init[k] == sw[k];
      if exists k :: 0 <= k < |sw| && sw[k] == Switch(true, f) {
        var k :| 0 <= k < |sw| && sw[k] == Switch(true, f);
        if k < |init| {
          assert init[k] == Switch(true, f);
        }
      }
    }
  }

  /** Whether a filter held by exactly one switch is added depends on that switch alone. */
  lemma SwitchOn(sw: seq<Switch>, k: nat, f: FilterKind)
    requires k < |sw| && sw[k].filter == f
    requires forall j :: 0 <= j < |sw| && j != k ==> sw[j].filter != f
    ensures (exists j :: 0 <= j < |sw| && sw[j] == Switch(true, f)) <==> sw[k].on
  {
    if sw[k].on {
      assert sw[k] == Switch(true, f);
    }
  }

  /** Ranks strictly increase along `s`. */
  predicate Increasing(s: seq<FilterKind>)
  {
    forall i, j :: 0 <= i < j < |s| ==> Rank(s[i]) < Rank(s[j])
  }

  /** Every rank in `s` lies in `[lo, hi)`. */
  predicate RanksWithin(s: seq<FilterKind>, lo: nat, hi: nat)
  {
    forall k :: 0 <= k < |s| ==> lo <= Rank(s[k]) < hi
  }

  lemma AppendOptional(s: seq<FilterKind>, on: bool, f: FilterKind)
    requires Increasing(s) && RanksWithin(s, 0, Rank(f))
    ensures Increasing(s + Optional(on, f)) && RanksWithin(s + Optional(on, f), 0, Rank(f) + 1)
  {
  }

  /** Switches of increasing rank, all at least `lo`, keep an increasing list
      whose ranks are below `lo` increasing. */
  lemma {:induction false} AddEnabledIncreasing(start: seq<FilterKind>, sw: seq<Switch>, lo: nat, hi: nat)
    requires Increasing(start) && RanksWithin(start, 0, lo)
    requires forall i, j :: 0 <= i < j < |sw| ==> Rank(sw[i].filter) < Rank(sw[j].filter)
    requires forall k :: 0 <= k < |sw| ==> lo <= Rank(sw[k].filter) < hi
    requires lo <= hi
    ensures Increasing(AddEnabled(start, sw)) && RanksWithin(AddEnabled(start, sw), 0, hi)
  {
    if sw != [] {
      var init := sw[..|sw| - 1];
      var last := sw[|sw| - 1];
      AddEnabledIncreasing(start, init, lo, Rank(last.filter));
      AppendOptional(AddEnabled(start, init), last.on, last.filter);
    }
  }

  /** Each optional filter is in the list exactly when its flag is set. */
  lemma FilterListMembership(config: Config, packageNames: set<string>)
    ensures var fl := FilterList(config, packageNames);
      (WikiWord in fl <==> config.ignoreWikiWords)
      && (Acronym in fl <==> config.ignoreAcronyms)
      && (IgnoreWords(packageNames) in fl <==> config.ignorePypiPackageNames)
      && (Builtins in fl <==> config.ignorePythonBuiltins)
      && (ImportableModule in fl <==> config.ignoreImportableModules)
  {
    var sw := Switches(config, packageNames);
    var built := AddEnabled([Contraction, Email], sw);
    var users := UserFilters(config.filters);
    assert forall f :: f in users ==> f.User?;
    var optional := [WikiWord, Acronym, IgnoreWords(packageNames), Builtins, ImportableModule];
    forall k | 0 <= k < 5
      ensures optional[k] in FilterList(config, packageNames) <==> sw[k].on
    {
      AddEnabledMember([Contraction, Email], sw, optional[k]);
      SwitchOn(sw, k, optional[k]);
    }
    assert optional[0] == WikiWord && optional[1] == Acronym;
    assert optional[2] == IgnoreWords(packageNames);
    assert optional[3] == Builtins && optional[4] == ImportableModule;
  }

  /** The built-in filters come in their fixed order, each at most once, and
      all of them before the user filters; only the first filter is the
      contraction filter, and exactly the last `|config.filters|` are user filters. */
  lemma FilterListOrder(config: Config, packageNames: set<string>)
    ensures var fl := FilterList(config, packageNames);
      (forall i, j :: 0 <= i < j < |fl| && !fl[i].User? ==> Rank(fl[i]) < Rank(fl[j]))
      && (forall j :: 0 <= j < |fl| ==> (fl[j].Contraction? <==> j == 0))
      && (forall j :: 0 <= j < |fl| ==> (fl[j].User? <==> j >= |fl| - |config.filters|))
  {
    var sw := Switches(config, packageNames);
    var built := AddEnabled([Contraction, Email], sw);
    AddEnabledIncreasing([Contraction, Email], sw, 2, 7);
    ConcatOrder(built, UserFilters(config.filters));
  }

  /** Built-in filters in increasing rank, led by the contraction filter, then
      user filters. */
  lemma ConcatOrder(built: seq<FilterKind>, users: seq<FilterKind>)
    requires |built| > 0 && built[0] == Contraction
    requires Increasing(built) && RanksWithin(built, 0, 7)
    requires forall k :: 0 <= k < |users| ==> users[k].User?
    ensures var fl := built + users;
      (forall i, j :: 0 <= i < j < |fl| && !fl[i].User? ==> Rank(fl[i]) < Rank(fl[j]))
      && (forall j :: 0 <= j < |fl| ==> (fl[j].Contraction? <==> j == 0))
      && (forall j :: 0 <= j < |fl| ==> (fl[j].User? <==> j >= |fl| - |users|))
  {
    var fl := built + users;
    forall j | 0 <= j < |fl|
      ensures j < |built| ==> fl[j] == built[j] && Rank(fl[j]) < 7
      ensures j >= |built| ==> fl[j] == users[j - |built|] && fl[j].User?
    {
    }
    forall i, j | 0 <= i < j < |fl| && !fl[i].User?
      ensures Rank(fl[i]) < Rank(fl[j])
    {
      if j < |built| {
        assert Rank(built[i]) < Rank(built[j]);
      }
    }
    forall j | 0 < j < |built|
      ensures !fl[j].Contraction?
    {
      assert Rank(built[0]) < Rank(built[j]);
    }
  }

  lemma DefaultFilterList(packageNames: set<string>)
    ensures FilterList(DefaultConfig, packageNames)
      == [Contraction, Email, WikiWord, Acronym, Builtins, ImportableModule]
  {
    var sw := Switches(DefaultConfig, packageNames);
    var start := [Contraction, Email];
    assert sw[..0] == [];
    AddEnabledSnoc(start, sw, 0);
    AddEnabledSnoc(start, sw, 1);
    AddEnabledSnoc(start, sw, 2);
    AddEnabledSnoc(start, sw, 3);
    AddEnabledSnoc(start, sw, 4);
    assert sw[..5] == sw;
    assert UserFilters([]) == [];
  }

  /** The registered defaults check American English against
      `spelling_wordlist.txt` with no user filters, and print no suggestion
      list, so a record then ends with the word's closing parenthesis, a
      space (the empty suggestion text follows it) and the newline. */
  lemma DefaultsRegistered(path: string, lineno: Option<nat>, word: string, suggestions: seq<string>)
    ensures DefaultConfig.lang == "en_US"
    ensures DefaultConfig.wordListFilename == "spelling_wordlist.txt"
    ensures DefaultConfig.filters == []
    ensures Record(path, lineno, word, suggestions, DefaultConfig.showSuggestions)
      == path + ":" + LineText(lineno) + ": (" + word + ") \n"
  {
  }

  /** One `if config.spelling_ignore_...: filters.append(...)` step of `init`. */
  method AddSwitch(filters: seq<FilterKind>, on: bool, f: FilterKind,
                   ghost start: seq<FilterKind>, ghost sw: seq<Switch>, ghost k: nat)
    returns (r: seq<FilterKind>)
    requires k < |sw| && sw[k] == Switch(on, f)
    requires filters == AddEnabled(start, sw[..k])
    ensures r == AddEnabled(start, sw[..k + 1])
  {
    r := filters;
    if on {
      r := r + [f];
    }
    AddEnabledSnoc(start, sw, k);
  }

  /** A docutils node, as the walker sees it: its tag, its parent, its line
      number if it has one, and its text. The walker never changes a node. */
  class Node {
    const tagname: string
    const parent: Node?
    const line: Option<nat>
    const text: string

    constructor (tagname: string, parent: Node?, line: Option<nat>, text: string)
      ensures this.tagname == tagname && this.parent == parent
      ensures this.line == line && this.text == text
    {
      this.tagname := tagname;
      this.parent := parent;
      this.line := line;
      this.text := text;
    }
  }

  /** The Sphinx application; a non-zero status code fails the build. */
  class App {
    var statuscode: int

    constructor ()
      ensures statuscode == 0
    {
      statuscode := 0;
    }
  }

  /** The line reported for a node: its parent's line. No ancestor further up
      is consulted, and a node that is its own parent has none. */
  function ParentLine(node: Node): Option<nat>
  {
    if node.parent == null || node.parent == node then None else node.parent.line
  }

  /** The line-number loop of `write_doc`: it re-reads `node.parent` on every
      round, so it stops after at most two rounds with the parent's line. */
  method FindLineNumber(node: Node) returns (lineno: Option<nat>)
    ensures node.parent == null || node.parent == node ==> lineno == None
    ensures node.parent != null && node.parent != node ==> lineno == node.parent.line
  {
    lineno := None;
    var parent: Node? := node;
    var seen: set<Node?> := {};
    while lineno == None
      invariant (seen == {} && parent == node && lineno == None)
             || (seen == {node} && parent == node.parent && parent != null
                 && parent != node && lineno == parent.line)
      decreases 2 - |seen|
    {
      seen := seen + {parent};
      parent := node.parent;
      if parent == null || parent in seen {
        break;
      }
      lineno := parent.line;
    }
  }

  /** A `#text` node without a parent: reading its parent's tag raises. */
  predicate Crashes(node: Node)
  {
    node.tagname == "#text" && node.parent == null
  }

  /** A node the walker checks: text directly inside a prose node. */
  predicate Selected(node: Node): (selected: bool)
    ensures selected ==> !Crashes(node) && node.tagname == "#text"
  {
    node.tagname == "#text" && node.parent != null && node.parent.tagname in TextNodes
  }

  /** Only text in prose is checked: text in a paragraph or a list item is,
      text in a title, a literal block or a comment is not. */
  lemma CheckedKinds(node: Node)
    requires node.tagname == "#text" && node.parent != null
    ensures node.parent.tagname in {"paragraph", "list_item", "block_quote", "term", "definition_list_item"}
      ==> Selected(node)
    ensures node.parent.tagname in {"title", "literal_block", "comment", "section"} ==> !Selected(node)
  {
  }

  /** The position of the first node that raises, or `|nodes|`. */
  function FirstCrash(nodes: seq<Node>): (k: nat)
    ensures k <= |nodes|
    ensures forall j :: 0 <= j < k ==> !Crashes(nodes[j])
    ensures k < |nodes| ==> Crashes(nodes[k])
  {
    if nodes == [] then 0
    else if Crashes(nodes[0]) then 0
    else 1 + FirstCrash(nodes[1..])
  }

  /** The records for the flags found in one node. */
  function FlagRecords(path: string, lineno: Option<nat>, flags: seq<Flag>,
                       showSuggestions: bool): (r: seq<string>)
    ensures |r| == |flags|
    ensures forall k :: 0 <= k < |r| ==>
      r[k] == Record(path, lineno, flags[k].word, flags[k].suggestions, showSuggestions)
  {
    seq(|flags|, k requires 0 <= k < |flags| =>
      Record(path, lineno, flags[k].word, flags[k].suggestions, showSuggestions))
  }

  lemma FlagRecordsSnoc(path: string, lineno: Option<nat>, flags: seq<Flag>,
                        showSuggestions: bool, j: nat)
    requires j < |flags|
    ensures FlagRecords(path, lineno, flags[..j + 1], showSuggestions)
      == FlagRecords(path, lineno, flags[..j], showSuggestions)
         + [Record(path, lineno, flags[j].word, flags[j].suggestions, showSuggestions)]
  {
    var a := FlagRecords(path, lineno, flags[..j + 1], showSuggestions);
    var b := FlagRecords(path, lineno, flags[..j], showSuggestions);
    assert forall k :: 0 <= k < j ==> a[k] == b[k];
  }

  /** The words of a node the checker rejects; none for a node that is not checked. */
  function NodeFlags(c: SpellingChecker, node: Node): seq<Flag>
  {
    if Selected(node) then Misspellings(c.dictionary, c.suggest, Tokens(c, node.text)) else []
  }

  /** The records written for one node. */
  function NodeRecords(c: SpellingChecker, showSuggestions: bool, path: string, node: Node): (r: seq<string>)
    ensures |r| == |NodeFlags(c, node)|
  {
    FlagRecords(path, ParentLine(node), NodeFlags(c, node), showSuggestions)
  }

  /** Appending `added` to an output that holds `start + done`. */
  lemma AppendStep(start: seq<string>, done: seq<string>, added: seq<string>,
                   before: seq<string>, after: seq<string>)
    requires before == start + done && after == before + added
    ensures after == start + (done + added)
    ensures after == start <==> done + added == []
  {
    assert |after| == |start| + |done| + |added|;
  }

  /** What the walker writes for a sequence of nodes, in order. */
  function DocRecords(c: SpellingChecker, showSuggestions: bool, path: string,
                      nodes: seq<Node>): seq<string>
  {
    if nodes == [] then []
    else
      var last := nodes[|nodes| - 1];
      DocRecords(c, showSuggestions, path, nodes[..|nodes| - 1])
      + NodeRecords(c, showSuggestions, path, last)
  }

  lemma DocRecordsSnoc(c: SpellingChecker, showSuggestions: bool, path: string,
                       nodes: seq<Node>, i: nat)
    requires i < |nodes|
    ensures DocRecords(c, showSuggestions, path, nodes[..i + 1])
      == DocRecords(c, showSuggestions, path, nodes[..i])
         + NodeRecords(c, showSuggestions, path, nodes[i])
  {
    assert nodes[..i + 1][..i] == nodes[..i];
  }

  /** A node that writes nothing: it is not checked, or the dictionary accepts
      every filtered token of its text. */
  predicate Clean(c: SpellingChecker, node: Node)
  {
    Selected(node) ==> forall w :: w in Tokens(c, node.text) ==> c.dictionary.check(w)
  }

  /** One record per rejected word, so something is written exactly when some
      checked node has a word the dictionary rejects. */
  lemma DocRecordsEmptyIff(c: SpellingChecker, showSuggestions: bool,
                           path: string, nodes: seq<Node>)
    ensures DocRecords(c, showSuggestions, path, nodes) == [] <==>
      forall k :: 0 <= k < |nodes| && Selected(nodes[k]) ==>
        forall w :: w in Tokens(c, nodes[k].text) ==> c.dictionary.check(w)
  {
    DocRecordsCleanIff(c, showSuggestions, path, nodes);
    assert (forall k :: 0 <= k < |nodes| ==> Clean(c, nodes[k])) <==>
      forall k :: 0 <= k < |nodes| && Selected(nodes[k]) ==>
        forall w :: w in Tokens(c, nodes[k].text) ==> c.dictionary.check(w);
  }

  lemma {:induction false} DocRecordsCleanIff(c: SpellingChecker, showSuggestions: bool,
                                              path: string, nodes: seq<Node>)
    ensures DocRecords(c, showSuggestions, path, nodes) == [] <==>
      forall k :: 0 <= k < |nodes| ==> Clean(c, nodes[k])
  {
    if nodes != [] {
      var init := nodes[..|nodes| - 1];
      var last := nodes[|nodes| - 1];
      DocRecordsCleanIff(c, showSuggestions, path, init);
      NodeRecordsEmptyIff(c, showSuggestions, path, last);
      assert |DocRecords(c, showSuggestions, path, nodes)|
        == |DocRecords(c, showSuggestions, path, init)| + |NodeRecords(c, showSuggestions, path, last)|;
      assert forall k :: 0 <= k < |init| ==> init[k] == nodes[k];
    }
  }

  /** A node writes nothing exactly when it is clean. */
  lemma NodeRecordsEmptyIff(c: SpellingChecker, showSuggestions: bool, path: string, node: Node)
    ensures NodeRecords(c, showSuggestions, path, node) == [] <==> Clean(c, node)
  {
    if Selected(node) {
      NoMisspellingsIff(c.dictionary, c.suggest, Tokens(c, node.text));
    }
  }

  /** The spelling builder after `init`. */
  class SpellingBuilder {
    const config: Config
    const host: Host
    const srcdir: string
    const app: App
    const checker: SpellingChecker
    // the lines written to output.txt so far
    var output: seq<string>

    /** `init`: builds the filter list in its fixed order, creates the checker
        with the project's word list, and opens an empty output file. */
    constructor Init(config: Config, host: Host, srcdir: string, app: App)
      ensures this.config == config && this.host == host
      ensures this.srcdir == srcdir && this.app == app
      ensures checker.filters == FilterList(config, host.pypiPackageNames)
      ensures checker.lang == config.lang && checker.suggest == config.showSuggestions
      ensures checker.dictionary
        == host.openDictionary(config.lang, host.joinPath(srcdir, config.wordListFilename))
      ensures checker.host == host
      ensures output == []
    {
      ghost var sw := Switches(config, host.pypiPackageNames);
      var filters := [Contraction, Email];
      assert filters == AddEnabled(filters, sw[..0]);
      filters := AddSwitch(filters, config.ignoreWikiWords, WikiWord, [Contraction, Email], sw, 0);
      filters := AddSwitch(filters, config.ignoreAcronyms, Acronym, [Contraction, Email], sw, 1);
      filters := AddSwitch(filters, config.ignorePypiPackageNames, IgnoreWords(host.pypiPackageNames),
                           [Contraction, Email], sw, 2);
      filters := AddSwitch(filters, config.ignorePythonBuiltins, Builtins, [Contraction, Email], sw, 3);
      filters := AddSwitch(filters, config.ignoreImportableModules, ImportableModule,
                           [Contraction, Email], sw, 4);
      assert sw[..5] == sw;
      filters := filters + UserFilters(config.filters);
      var projectWords := host.joinPath(srcdir, config.wordListFilename);
      this.config := config;
      this.host := host;
      this.srcdir := srcdir;
      this.app := app;
      checker := NewChecker(config.lang, config.showSuggestions, projectWords, filters, host);
      output := [];
    }

    /** The body of `write_doc` for one selected node: finds its line number,
        checks its text, and writes one record per rejected word. */
    method WriteNode(path: string, node: Node)
      requires Selected(node)
      modifies this, app
      ensures output == old(output)
        + FlagRecords(path, ParentLine(node), NodeFlags(checker, node), config.showSuggestions)
      ensures app.statuscode == if NodeFlags(checker, node) == [] then old(app.statuscode) else 1
    {
      var show := config.showSuggestions;
      var lineno := FindLineNumber(node);
      var flags := Check(checker, node.text);
      var j := 0;
      while j < |flags|
        invariant 0 <= j <= |flags|
        invariant output == old(output) + FlagRecords(path, lineno, flags[..j], show)
        invariant app.statuscode == if j == 0 then old(app.statuscode) else 1
      {
        FlagRecordsSnoc(path, lineno, flags, show, j);
        ghost var before := output;
        output := output + [Record(path, lineno, flags[j].word, flags[j].suggestions, show)];
        AppendStep(old(output), FlagRecords(path, lineno, flags[..j], show),
                   [Record(path, lineno, flags[j].word, flags[j].suggestions, show)], before, output);
        app.statuscode := 1;
        j := j + 1;
      }
      assert flags[..j] == flags;
    }

    /** The body of `write_doc`'s loop for a node that does not raise: a
        selected node gets its records, any other node none. */
    method WriteItem(path: string, node: Node)
      requires !Crashes(node)
      modifies this, app
      ensures output == old(output) + NodeRecords(checker, config.showSuggestions, path, node)
      ensures app.statuscode ==
        if NodeRecords(checker, config.showSuggestions, path, node) == [] then old(app.statuscode) else 1
    {
      if node.tagname == "#text" && node.parent.tagname in TextNodes {
        WriteNode(path, node);
      }
    }

    /** `write_doc`: checks every selected node of the document in order and
        writes a record per rejected word; the status code becomes 1 when
        anything was written. It stops at a `#text` node without a parent,
        where the source raises, and then returns false. */
    method WriteDoc(docname: string, nodes: seq<Node>) returns (completed: bool)
      modifies this, app
      ensures completed <==> FirstCrash(nodes) == |nodes|
      ensures var written := DocRecords(checker, config.showSuggestions,
                                        host.doc2path(docname), nodes[..FirstCrash(nodes)]);
        output == old(output) + written
        && app.statuscode == (if written == [] then old(app.statuscode) else 1)
    {
      var path := host.doc2path(docname);
      var i := 0;
      while i < |nodes| && !Crashes(nodes[i])
        invariant i <= FirstCrash(nodes)
        invariant output == old(output) + DocRecords(checker, config.showSuggestions, path, nodes[..i])
        invariant app.statuscode == (if output == old(output) then old(app.statuscode) else 1)
      {
        ghost var before := output;
        WriteItem(path, nodes[i]);
        DocRecordsSnoc(checker, config.showSuggestions, path, nodes, i);
        AppendStep(old(output), DocRecords(checker, config.showSuggestions, path, nodes[..i]),
                   NodeRecords(checker, config.showSuggestions, path, nodes[i]), before, output);
        i := i + 1;
      }
      assert i == FirstCrash(nodes);
      completed := i == |nodes|;
      assert |output| == |old(output)| + |DocRecords(checker, config.showSuggestions, path, nodes[..i])|;
    }
  }

  /** With no user filters, no reported word is one that any configured filter skips. */
  lemma ReportedWordsPassEveryFilter(config: Config, c: SpellingChecker, text: string)
    requires config.filters == []
    requires c.filters == FilterList(config, c.host.pypiPackageNames)
    ensures forall f, k ::
      (f in Misspellings(c.dictionary, c.suggest, Tokens(c, text)) && 0 <= k < |c.filters|)
      ==> !Skip(c.filters[k], c.host, f.word)
  {
    FilterListOrder(config, c.host.pypiPackageNames);
    forall k | 1 <= k < |c.filters|
      ensures forall f :: f in Misspellings(c.dictionary, c.suggest, Tokens(c, text)) ==>
        !Skip(c.filters[k], c.host, f.word)
    {
      ReportedNotSkippedBy(c, text, k);
    }
  }

  /** With no user filters, every reported word is the contraction stem of a
      word of the host tokenizer. */
  lemma ReportedWordsAreStems(config: Config, c: SpellingChecker, text: string)
    requires config.filters == []
    requires c.filters == FilterList(config, c.host.pypiPackageNames)
    ensures forall f :: f in Misspellings(c.dictionary, c.suggest, Tokens(c, text)) ==>
      exists t :: t in c.host.tokenize(c.lang, text) && f.word == ContractionStem(t)
  {
    var fl := c.filters;
    var base := c.host.tokenize(c.lang, text);
    var words := Tokens(c, text);
    FilterListOrder(config, c.host.pypiPackageNames);
    var stems := Pass(Contraction, c.host, base);
    assert words == Apply(fl[1..], c.host, stems);
    ApplySkipOnlyRemoves(fl[1..], c.host, stems);
    PassContraction(c.host, base);
    MisspellingsSound(c.dictionary, c.suggest, words);
    forall f | f in Misspellings(c.dictionary, c.suggest, words)
      ensures exists t :: t in base && f.word == ContractionStem(t)
    {
      var r := Misspellings(c.dictionary, c.suggest, words);
      var i :| 0 <= i < |r| && r[i] == f;
      assert f.word in stems;
      var k :| 0 <= k < |stems| && stems[k] == f.word;
      assert base[k] in base;
    }
  }

  /** Under the default configuration an acronym is never reported; in particular "URLs" is not. */
  lemma DefaultConfigSkipsAcronyms(c: SpellingChecker, text: string)
    requires c.filters == FilterList(DefaultConfig, c.host.pypiPackageNames)
    ensures forall f :: f in Misspellings(c.dictionary, c.suggest, Tokens(c, text)) ==>
      !AcronymSkip(f.word) && f.word != "URLs"
  {
    DefaultFilterList(c.host.pypiPackageNames);
    ReportedWordsPassEveryFilter(DefaultConfig, c, text);
    assert c.filters[3] == Acronym;
    AcronymExamples();
  }

  /** With the PyPI filter on and no user filters, no package name is reported. */
  lemma PackageNamesNotReported(config: Config, c: SpellingChecker, text: string)
    requires config.ignorePypiPackageNames && config.filters == []
    requires c.filters == FilterList(config, c.host.pypiPackageNames)
    ensures forall f :: f in Misspellings(c.dictionary, c.suggest, Tokens(c, text)) ==>
      f.word !in c.host.pypiPackageNames
  {
    FilterListMembership(config, c.host.pypiPackageNames);
    FilterListOrder(config, c.host.pypiPackageNames);
    var k :| 0 <= k < |c.filters| && c.filters[k] == IgnoreWords(c.host.pypiPackageNames);
    ReportedNotSkippedBy(c, text, k);
  }
}
