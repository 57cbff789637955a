/** The text the spelling builder writes: the rendering of a suggestion list
    and one output record per rejected word. */
module Report {
  import opened Strings

  /** Each suggestion between double quotes. */
  function Quoted(suggestions: seq<string>): (r: seq<string>)
    ensures |r| == |suggestions|
    ensures forall k :: 0 <= k < |r| ==> r[k] == "\"" + suggestions[k] + "\""
  {
    seq(|suggestions|, k requires 0 <= k < |suggestions| => "\"" + suggestions[k] + "\"")
  }

  /** `format_suggestions`: empty when suggestions are off or there are none,
      otherwise the quoted suggestions, comma-separated, in brackets. */
  function FormatSuggestions(showSuggestions: bool, suggestions: seq<string>): (r: string)
    ensures r == "" <==> !showSuggestions || suggestions == []
    ensures r != "" ==> r[0] == '[' && r[|r| - 1] == ']'
  {
    if !showSuggestions || suggestions == [] then ""
    else "[" + Join(", ", Quoted(suggestions)) + "]"
  }

  /** Reads back a rendered suggestion list whose suggestions hold no double
      quote: the inverse of FormatSuggestions with suggestions on. */
  function ParseSuggestions(s: string): Option<seq<string>>
  {
    if s == "" then Some([])
    else if |s| >= 2 && s[0] == '[' && s[|s| - 1] == ']' then ParseItems(s[1..|s| - 1])
    else None
  }

  /** Reads `"x1", "x2", ...` into `[x1, x2, ...]`. */
  function ParseItems(s: string): Option<seq<string>>
    decreases |s|
  {
    if |s| < 2 || s[0] != '"' then None
    else
      var j := IndexOf(s[1..], '"');
      if j == |s| - 1 then None
      else
        var item := s[1..j + 1];
        var rest := s[j + 2..];
        if rest == [] then Some([item])
        else if |rest| >= 2 && rest[..2] == ", " then
          match ParseItems(rest[2..])
          case None => None
          case Some(items) => Some([item] + items)
        else None
  }

  /** A quoted item without inner quotes, followed by `rest`, is read as the
      item with `rest` left over. */
  lemma ParseQuoted(item: string, rest: string)
    requires '"' !in item
    ensures var s := "\"" + item + "\"" + rest;
      |s| >= 2 && s[0] == '"' && IndexOf(s[1..], '"') == |item|
      && s[1..|item| + 1] == item && s[|item| + 2..] == rest
  {
    var s := "\"" + item + "\"" + rest;
    assert s[1..] == item + ['"'] + rest;
    IndexOfAfter(item, '"', rest);
  }

  lemma {:induction false} ParseItemsJoin(suggestions: seq<string>)
    requires |suggestions| > 0
    requires forall k :: 0 <= k < |suggestions| ==> '"' !in suggestions[k]
    ensures ParseItems(Join(", ", Quoted(suggestions))) == Some(suggestions)
  {
    var first := suggestions[0];
    var s := Join(", ", Quoted(suggestions));
    if |suggestions| == 1 {
      assert s == "\"" + first + "\"" + [];
      ParseQuoted(first, []);
      assert suggestions == [first];
    } else {
      var tail := Join(", ", Quoted(suggestions[1..]));
      assert Quoted(suggestions)[1..] == Quoted(suggestions[1..]);
      assert s == "\"" + first + "\"" + (", " + tail);
      ParseQuoted(first, ", " + tail);
      ParseItemsJoin(suggestions[1..]);
      assert [first] + suggestions[1..] == suggestions;
    }
  }

  /** With suggestions on, a list of suggestions without double quotes is
      recovered from its rendering, so distinct lists render differently. */
  lemma SuggestionsRoundTrip(suggestions: seq<string>)
    requires forall k :: 0 <= k < |suggestions| ==> '"' !in suggestions[k]
    ensures ParseSuggestions(FormatSuggestions(true, suggestions)) == Some(suggestions)
  {
    if suggestions != [] {
      var body := Join(", ", Quoted(suggestions));
      var r := FormatSuggestions(true, suggestions);
      assert r[1..|r| - 1] == body;
      ParseItemsJoin(suggestions);
    }
  }

  lemma FormatExamples()
    ensures FormatSuggestions(true, ["this", "thus"]) == "[\"this\", \"thus\"]"
    ensures FormatSuggestions(false, ["this"]) == ""
    ensures FormatSuggestions(true, []) == ""
  {
    var q := Quoted(["this", "thus"]);
    assert q[0] == "\"this\"" && q[1] == "\"thus\"";
    assert q[1..] == ["\"thus\""];
  }

  /** Python's `'%s' % lineno` for a line number that may be missing. */
  function LineText(lineno: Option<nat>): (text: string)
    ensures lineno.None? ==> text == "None"
    ensures lineno.Some? ==> |text| > 0 && AllDigits(text) && DecimalValue(text) == lineno.value
    ensures lineno.Some? && text[0] == '0' ==> |text| == 1
  {
    match lineno
    case None => "None"
    case Some(n) => DecimalRoundTrip(n); NatToString(n)
  }

  /** Different line numbers, or a number and none, render differently. */
  lemma LineTextInjective(a: Option<nat>, b: Option<nat>)
    ensures LineText(a) == LineText(b) ==> a == b
  {
    match a
    case None =>
      if b.Some? {
        assert LineText(b)[0] != 'N';
      }
    case Some(n) =>
      if b.Some? {
        DecimalRoundTrip(n);
        DecimalRoundTrip(b.value);
      } else {
        assert LineText(a)[0] != 'N';
      }
  }

  /** One line of the output file: `<path>:<line>: (<word>) <suggestions>`. */
  function Record(path: string, lineno: Option<nat>, word: string,
                  suggestions: seq<string>, showSuggestions: bool): (r: string)
    ensures |r| > |path| + 1 && r[..|path|] == path && r[|path|] == ':'
    ensures r[|r| - 1] == '\n'
  {
    path + ":" + LineText(lineno) + ": (" + word + ") "
    + FormatSuggestions(showSuggestions, suggestions) + "\n"
  }

  lemma NoNewlineInSuggestions(showSuggestions: bool, suggestions: seq<string>)
    requires forall k :: 0 <= k < |suggestions| ==> '\n' !in suggestions[k]
    ensures '\n' !in FormatSuggestions(showSuggestions, suggestions)
  {
    if showSuggestions && suggestions != [] {
      var q := Quoted(suggestions);
      JoinAvoids(", ", q, '\n');
    }
  }

  /** A record starts with the document path and is exactly one line when
      the path, the word and the suggestions hold no line break. */
  lemma RecordIsOneLine(path: string, lineno: Option<nat>, word: string,
                        suggestions: seq<string>, showSuggestions: bool)
    requires '\n' !in path && '\n' !in word
    requires forall k :: 0 <= k < |suggestions| ==> '\n' !in suggestions[k]
    ensures var r := Record(path, lineno, word, suggestions, showSuggestions);
      |r| > |path| && r[..|path|] == path
      && r[|r| - 1] == '\n' && '\n' !in r[..|r| - 1]
  {
    var r := Record(path, lineno, word, suggestions, showSuggestions);
    var line := path + ":" + LineText(lineno) + ": (" + word + ") "
                + FormatSuggestions(showSuggestions, suggestions);
    assert r == line + "\n";
    assert r[..|r| - 1] == line;
    assert r[..|path|] == path;
    NoNewlineInSuggestions(showSuggestions, suggestions);
    assert '\n' !in LineText(lineno);
  }

  /** What a record says about one rejected word. */
  datatype Entry = Entry(lineno: Option<nat>, word: string, suggestions: seq<string>)

  /** Reads back the line part of a record. */
  function ParseLine(s: string): Option<Option<nat>>
  {
    if s == "None" then Some(None)
    else if |s| > 0 && AllDigits(s) then Some(Some(DecimalValue(s)))
    else None
  }

  /** Reads back a record of the document at `path`: the line up to the next
      colon, the word up to the next closing parenthesis, then the
      suggestion list. */
  function ParseRecord(path: string, r: string): Option<Entry>
  {
    if |r| < |path| + 2 || r[..|path| + 1] != path + ":" || r[|r| - 1] != '\n' then None
    else ParseBody(r[|path| + 1..|r| - 1])
  }

  /** Reads `<line>: (<word>) <suggestions>`. */
  function ParseBody(body: string): Option<Entry>
  {
    var i := IndexOf(body, ':');
    var rest := body[i..];
    if |rest| < 3 || rest[..3] != ": (" then None
    else
      match (ParseLine(body[..i]), ParseTail(rest[3..]))
      case (Some(lineno), Some((word, suggestions))) => Some(Entry(lineno, word, suggestions))
      case _ => None
  }

  /** Reads `<word>) <suggestions>`. */
  function ParseTail(tail: string): Option<(string, seq<string>)>
  {
    var j := IndexOf(tail, ')');
    var after := tail[j..];
    if |after| < 2 || after[..2] != ") " then None
    else
      match ParseSuggestions(after[2..])
      case Some(suggestions) => Some((tail[..j], suggestions))
      case None => None
  }

  lemma ParseLineText(lineno: Option<nat>)
    ensures ParseLine(LineText(lineno)) == Some(lineno)
    ensures ':' !in LineText(lineno)
  {
    if lineno.Some? {
      assert LineText(lineno) != "None" by {
        assert '0' <= LineText(lineno)[0] <= '9';
      }
    }
  }

  /** The text before the first `c` of `x + [c] + y`, and from it on. */
  lemma SplitAt(x: string, c: char, y: string)
    requires c !in x
    ensures var s := x + [c] + y; var i := IndexOf(s, c);
      s[..i] == x && s[i..] == [c] + y
  {
    IndexOfAfter(x, c, y);
    var s := x + [c] + y;
    assert s[..|x|] == x;
    assert s[|x|..] == [c] + y;
  }

  lemma ParseTailRoundTrip(word: string, suggestions: seq<string>, showSuggestions: bool)
    requires ')' !in word
    requires forall k :: 0 <= k < |suggestions| ==> '"' !in suggestions[k]
    ensures ParseTail(word + ") " + FormatSuggestions(showSuggestions, suggestions))
      == Some((word, if showSuggestions then suggestions else []))
  {
    var sugg := FormatSuggestions(showSuggestions, suggestions);
    var tail := word + ") " + sugg;
    assert tail == word + [')'] + (" " + sugg);
    SplitAt(word, ')', " " + sugg);
    var after := tail[IndexOf(tail, ')')..];
    assert after[..2] == ") " && after[2..] == sugg;
    if showSuggestions {
      SuggestionsRoundTrip(suggestions);
    }
  }

  /** The body is cut at the first colon, which is the one after a line part
      without colons. */
  lemma ParseBodyOf(line: string, tail: string)
    requires ':' !in line
    ensures ParseBody(line + ": (" + tail) ==
      match (ParseLine(line), ParseTail(tail))
      case (Some(lineno), Some((word, suggestions))) => Some(Entry(lineno, word, suggestions))
      case _ => None
  {
    var body := line + ": (" + tail;
    assert body == line + [':'] + (" (" + tail);
    SplitAt(line, ':', " (" + tail);
    var rest := body[IndexOf(body, ':')..];
    assert rest[..3] == ": (" && rest[3..] == tail;
  }

  lemma ParseBodyRoundTrip(lineno: Option<nat>, word: string,
                           suggestions: seq<string>, showSuggestions: bool)
    requires ')' !in word
    requires forall k :: 0 <= k < |suggestions| ==> '"' !in suggestions[k]
    ensures ParseBody(LineText(lineno) + ": (" + word + ") "
                      + FormatSuggestions(showSuggestions, suggestions))
      == Some(Entry(lineno, word, if showSuggestions then suggestions else []))
  {
    var line := LineText(lineno);
    var sugg := FormatSuggestions(showSuggestions, suggestions);
    assert line + ": (" + word + ") " + sugg == line + ": (" + (word + ") " + sugg);
    ParseLineText(lineno);
    ParseBodyOf(line, word + ") " + sugg);
    ParseTailRoundTrip(word, suggestions, showSuggestions);
  }

  /** A record names the line, the word and the suggestions it was written
      for: reading it back gives them, with no suggestions when they are off,
      for a word without a closing parenthesis and suggestions without
      double quotes. */
  lemma RecordRoundTrip(path: string, lineno: Option<nat>, word: string,
                        suggestions: seq<string>, showSuggestions: bool)
    requires ')' !in word
    requires forall k :: 0 <= k < |suggestions| ==> '"' !in suggestions[k]
    ensures ParseRecord(path, Record(path, lineno, word, suggestions, showSuggestions))
      == Some(Entry(lineno, word, if showSuggestions then suggestions else []))
  {
    var line := LineText(lineno);
    var sugg := FormatSuggestions(showSuggestions, suggestions);
    Framed(path, line, word, sugg);
    ParseBodyRoundTrip(lineno, word, suggestions, showSuggestions);
  }

  /** The frame of a record around its body. */
  lemma Framed(path: string, line: string, word: string, sugg: string)
    ensures var r := path + ":" + line + ": (" + word + ") " + sugg + "\n";
      var body := line + ": (" + word + ") " + sugg;
      |r| >= |path| + 2 && r[..|path| + 1] == path + ":" && r[|r| - 1] == '\n'
      && r[|path| + 1..|r| - 1] == body
  {
    var r := path + ":" + line + ": (" + word + ") " + sugg + "\n";
    var body := line + ": (" + word + ") " + sugg;
    assert r == path + ":" + body + "\n";
  }
}
