/** The defensive reading of the vision service's reply in the edge
    function's `analyzeVideoFrame`: parse the reply text as a JSON array of
    labels, and if it is not JSON, scan its words for lexicon keys. */
module FrameAnalysis {
  import opened Text
  import opened Lexicon

  /** A character of the pattern `[\s,]`: ECMAScript white space and line
      terminators, or a comma. */
  predicate IsSeparator(c: char) {
    || c == ',' || c == ' ' || c == '\t' || c == '\n' || c == '\U{000B}' || c == '\U{000C}' || c == '\r'
    || c == '\U{00A0}' || c == '\U{1680}' || ('\U{2000}' <= c <= '\U{200A}')
    || c == '\U{2028}' || c == '\U{2029}' || c == '\U{202F}' || c == '\U{205F}' || c == '\U{3000}'
    || c == '\U{FEFF}'
  }

  predicate NoSeparator(w: string) {
    forall i :: 0 <= i < |w| ==> !IsSeparator(w[i])
  }

  /** The longest prefix of `s` without a separator. */
  function LeadingWord(s: string): (w: string)
    ensures |w| <= |s| && w == s[..|w|] && NoSeparator(w)
    ensures |w| < |s| ==> IsSeparator(s[|w|])
  {
    if s == [] || IsSeparator(s[0]) then []
    else [s[0]] + LeadingWord(s[1..])
  }

  /** `s` without its leading run of separators. */
  function SkipSeparators(s: string): (r: string)
    ensures |r| <= |s| && r == s[|s| - |r|..]
    ensures s != [] && IsSeparator(s[0]) ==> |r| < |s|
  {
    if s == [] || !IsSeparator(s[0]) then s
    else SkipSeparators(s[1..])
  }

  /** `s.split(/[\s,]+/)`: the pieces between maximal runs of separators.
      A leading or trailing run yields an empty first or last piece, and
      the empty string yields one empty piece. */
  function Split(s: string): (pieces: seq<string>)
    ensures |pieces| > 0
    ensures forall i :: 0 <= i < |pieces| ==> NoSeparator(pieces[i])
    decreases |s|
  {
    var w := LeadingWord(s);
    var rest := s[|w|..];
    if rest == [] then [w] else [w] + Split(SkipSeparators(rest))
  }

  predicate AllSeparators(run: string) {
    forall i :: 0 <= i < |run| ==> IsSeparator(run[i])
  }

  /** A word followed by a separator (or by nothing) is the leading word. */
  lemma {:induction false} LeadingWordOf(w: string, t: string)
    requires NoSeparator(w) && (t == [] || IsSeparator(t[0]))
    ensures LeadingWord(w + t) == w
    decreases |w|
  {
    if w != [] {
      assert (w + t)[1..] == w[1..] + t;
      LeadingWordOf(w[1..], t);
    }
  }

  /** A run of separators is skipped up to the next word. */
  lemma {:induction false} SkipSeparatorsOf(run: string, t: string)
    requires AllSeparators(run) && (t == [] || !IsSeparator(t[0]))
    ensures SkipSeparators(run + t) == t
    decreases |run|
  {
    if run != [] {
      assert (run + t)[1..] == run[1..] + t;
      SkipSeparatorsOf(run[1..], t);
    }
  }

  /** A lone word splits into itself. */
  lemma SplitWord(w: string)
    requires NoSeparator(w)
    ensures Split(w) == [w]
  {
    LeadingWordOf(w, []);
    assert w + [] == w;
  }

  /** A word, a separator run and a text starting with a word split into
      that word followed by the pieces of the text. */
  lemma SplitCons(w: string, run: string, t: string)
    requires NoSeparator(w) && run != [] && AllSeparators(run)
    requires t == [] || !IsSeparator(t[0])
    ensures Split(w + run + t) == [w] + Split(t)
  {
    var s := w + run + t;
    assert s == w + (run + t);
    LeadingWordOf(w, run + t);
    assert s[|w|..] == run + t;
    SkipSeparatorsOf(run, t);
  }

  /** Splitting undoes joining: words without separators, joined by any
      non-empty run of separators, split back into the same words. */
  lemma {:induction false} SplitJoin(words: seq<string>, sep: string)
    requires |words| > 0 && sep != [] && AllSeparators(sep)
    requires forall i :: 0 <= i < |words| ==> words[i] != [] && NoSeparator(words[i])
    ensures Split(Join(words, sep)) == words
    decreases |words|
  {
    if |words| == 1 {
      SplitWord(words[0]);
    } else {
      var t := Join(words[1..], sep);
      SplitJoin(words[1..], sep);
      JoinFirst(words[1..], sep);
      SplitCons(words[0], sep, t);
      assert words == [words[0]] + words[1..];
    }
  }

  /** A join starts with the first part. */
  lemma JoinFirst(parts: seq<string>, sep: string)
    requires |parts| > 0 && parts[0] != []
    ensures Join(parts, sep) != [] && Join(parts, sep)[0] == parts[0][0]
  {
  }

  /** The words that are keys of the table, in order, repeats kept:
      `words.filter(word => objectNarrations[word])`. */
  function KeepKeys(lex: map<string, string>, words: seq<string>): (kept: seq<string>)
    ensures |kept| <= |words|
    ensures forall w :: w in kept <==> w in words && w in lex
    decreases |words|
  {
    if words == [] then []
    else
      assert words == [words[0]] + words[1..];
      (if words[0] in lex then [words[0]] else []) + KeepKeys(lex, words[1..])
  }

  /** The filter works word by word: it distributes over concatenation,
      so the kept words stay in their order and repeats are kept. */
  lemma {:induction false} KeepKeysAppend(lex: map<string, string>, a: seq<string>, b: seq<string>)
    ensures KeepKeys(lex, a + b) == KeepKeys(lex, a) + KeepKeys(lex, b)
    decreases |a|
  {
    if a == [] {
      assert a + b == b;
    } else {
      assert (a + b)[1..] == a[1..] + b;
      KeepKeysAppend(lex, a[1..], b);
    }
  }

  /** A single word is kept exactly when it is a key. */
  lemma KeepKeysOne(lex: map<string, string>, w: string)
    ensures KeepKeys(lex, [w]) == if w in lex then [w] else []
  {
    assert [w][1..] == [];
  }

  /** The fallback scan over the lower-cased reply text. */
  function TokenScan(lex: map<string, string>, content: string): seq<string> {
    KeepKeys(lex, Split(Lower(content)))
  }

  /** Every label the scan returns is a key of the table that contains no
      space; in particular a multi-word key is never recovered. */
  lemma TokenScanOnlyKeys(lex: map<string, string>, content: string)
    ensures forall w :: w in TokenScan(lex, content) <==> w in Split(Lower(content)) && w in lex
    ensures forall w :: w in TokenScan(lex, content) ==> w in lex && ' ' !in w
  {
    var words := Split(Lower(content));
    forall w | w in words ensures ' ' !in w {
      var i :| 0 <= i < |words| && words[i] == w;
      assert NoSeparator(words[i]);
    }
  }

  lemma MultiWordKeysNeverScanned(content: string)
    ensures "traffic light" !in TokenScan(EdgeLexicon, content)
    ensures "stop sign" !in TokenScan(EdgeLexicon, content)
  {
    TokenScanOnlyKeys(EdgeLexicon, content);
    assert "traffic light"[7] == ' ';
    assert "stop sign"[4] == ' ';
  }

  /** The parse of the reply text, which the model does not re-implement:
      not JSON at all, a JSON array of strings, or some other JSON value. */
  datatype ParseOutcome = NotJson | JsonArray(items: seq<string>) | JsonOther

  /** How the call to the vision service ended: a non-OK status, an
      exception (transport, or a body without the expected shape), or an
      answer whose message content may be missing. */
  datatype VisionReply = Rejected | Threw | Answered(content: Option<string>)

  /** `content || '[]'`: a missing or empty content reads as an empty array. */
  function ReplyText(content: Option<string>): (text: string)
    ensures text != ""
  {
    if content.None? || content.value == "" then "[]" else content.value
  }

  /** The labels `analyzeVideoFrame` returns for a reply, with `parse`
      standing for `JSON.parse`. It has a result for every reply: the
      function never fails. */
  function AnalyzeFrame(reply: VisionReply, parse: string -> ParseOutcome): (labels: seq<string>)
    ensures !reply.Answered? ==> labels == []
    ensures reply.Answered? && parse(ReplyText(reply.content)).JsonOther? ==> labels == []
    ensures reply.Answered? && parse(ReplyText(reply.content)).JsonArray? ==>
      labels == parse(ReplyText(reply.content)).items
    ensures reply.Answered? && parse(ReplyText(reply.content)).NotJson? ==>
      labels == TokenScan(EdgeLexicon, ReplyText(reply.content))
    ensures reply.Answered? && parse(ReplyText(reply.content)).NotJson? ==>
      forall w :: w in labels ==> w in EdgeLexicon && ' ' !in w
  {
    match reply
    case Rejected => []
    case Threw => []
    case Answered(content) =>
      var text := ReplyText(content);
      match parse(text)
      case JsonArray(items) => items
      case JsonOther => []
      case NotJson =>
        TokenScanOnlyKeys(EdgeLexicon, text);
        TokenScan(EdgeLexicon, text)
  }

  /** A reply without content is read exactly as the reply "[]". */
  lemma MissingContentReadsAsEmptyArray(parse: string -> ParseOutcome)
    ensures AnalyzeFrame(Answered(None), parse) == AnalyzeFrame(Answered(Some("[]")), parse)
    ensures AnalyzeFrame(Answered(Some("")), parse) == AnalyzeFrame(Answered(Some("[]")), parse)
  {
  }

  lemma ScenarioText()
    ensures Lower("Dog, bicycle") == Join(["dog", "bicycle"], ", ")
  {
  }

  lemma ScenarioWords()
    ensures NoSeparator("dog") && NoSeparator("bicycle") && AllSeparators(", ")
  {
  }

  lemma ScenarioKeys()
    ensures KeepKeys(EdgeLexicon, ["dog", "bicycle"]) == ["dog", "bicycle"]
  {
  }

  /** Reply text "Dog, bicycle" that is not JSON: both labels are found. */
  lemma ScanFindsCommaSeparatedLabels()
    ensures TokenScan(EdgeLexicon, "Dog, bicycle") == ["dog", "bicycle"]
  {
    ScenarioText();
    ScenarioWords();
    ScenarioKeys();
    SplitJoin(["dog", "bicycle"], ", ");
  }

  /** The scan as written keeps the word "constructor", because the
      filter's lookup finds it on Object.prototype; against the table's own
      keys it is dropped. */
  lemma PrototypeNameScanned()
    ensures TokenScan(EdgeLookupAsWritten, "constructor") == ["constructor"]
    ensures TokenScan(EdgeLexicon, "constructor") == []
  {
    LowerOfLowerCase("constructor");
    ScenarioConstructorWord();
    SplitWord("constructor");
  }

  lemma ScenarioConstructorWord()
    ensures NoSeparator("constructor") && "constructor" !in EdgeLexicon
  {
  }
}
