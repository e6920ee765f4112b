/** The object-to-narration policy. The three source variants share one
    shape: look each label up under its lower-cased form, join the
    sentences found with single spaces, and fall back to a generic caution
    sentence when none is found. They differ in what they feed it (the
    edge function deduplicates first, the reference script does not) and
    in the table they consult. */
module Narration {
  import opened Text
  import opened Lexicon

  /** The sentences of the labels that have an entry under their
      lower-cased form, in label order; unknown labels are skipped. */
  function Sentences(lex: map<string, string>, labels: seq<string>): (found: seq<string>)
    ensures |found| <= |labels|
    ensures forall i :: 0 <= i < |found| ==> found[i] in lex.Values
    decreases |labels|
  {
    if labels == [] then []
    else
      var key := Lower(labels[|labels| - 1]);
      Sentences(lex, labels[..|labels| - 1]) + (if key in lex then [lex[key]] else [])
  }

  /** The sentence used when no label has an entry. */
  function Fallback(labels: seq<string>): string {
    "Detected objects: " + Join(labels, ", ") + ". Please be careful."
  }

  /** The narration for a list of labels under a given table. */
  function Compose(lex: map<string, string>, labels: seq<string>): string {
    var found := Sentences(lex, labels);
    if found == [] then Fallback(labels) else Join(found, " ")
  }

  /** `generateNarration` of the edge function, as a function of its input. */
  function EdgeNarration(detectedObjects: seq<string>): string {
    Compose(EdgeLexicon, Dedup(detectedObjects))
  }

  /** Sentences is computed label by label: it distributes over
      concatenation, so the sentences appear in label order. */
  lemma {:induction false} SentencesAppend(lex: map<string, string>, a: seq<string>, b: seq<string>)
    ensures Sentences(lex, a + b) == Sentences(lex, a) + Sentences(lex, b)
    decreases |b|
  {
    if b == [] {
      assert a + b == a;
    } else {
      var b' := b[..|b| - 1];
      assert (a + b)[..|a + b| - 1] == a + b';
      SentencesAppend(lex, a, b');
    }
  }

  /** A single label contributes its own sentence, or nothing. */
  lemma SentencesOne(lex: map<string, string>, obj: string)
    ensures Sentences(lex, [obj]) == if Lower(obj) in lex then [lex[Lower(obj)]] else []
  {
    assert [obj][..0] == [];
  }

  /** The narration is never empty, whatever the labels, as long as the
      table has no empty sentence. */
  lemma ComposeNonEmpty(lex: map<string, string>, labels: seq<string>)
    requires forall k :: k in lex ==> lex[k] != ""
    ensures |Compose(lex, labels)| > 0
  {
    var found := Sentences(lex, labels);
    if found != [] {
      assert found[0] in lex.Values;
      JoinNonEmpty(found, " ");
    }
  }

  /** No sentence is found exactly when no label is known under its
      lower-cased form. */
  lemma {:induction false} SentencesEmptyIffUnknown(lex: map<string, string>, labels: seq<string>)
    ensures Sentences(lex, labels) == [] <==> (forall l :: l in labels ==> Lower(l) !in lex)
    decreases |labels|
  {
    if labels != [] {
      var init := labels[..|labels| - 1];
      var last := labels[|labels| - 1];
      assert labels == init + [last];
      SentencesEmptyIffUnknown(lex, init);
      forall l | l in labels ensures l in init || l == last {
      }
    }
  }

  /** The narration is the fallback sentence exactly when no label is
      known; otherwise it is the labels' own sentences, in label order,
      joined by single spaces. */
  lemma ComposeUsesLexiconSentences(lex: map<string, string>, labels: seq<string>)
    ensures (forall l :: l in labels ==> Lower(l) !in lex) ==>
      Compose(lex, labels) == Fallback(labels)
    ensures (exists l :: l in labels && Lower(l) in lex) ==>
      Sentences(lex, labels) != [] && Compose(lex, labels) == Join(Sentences(lex, labels), " ")
  {
    SentencesEmptyIffUnknown(lex, labels);
  }

  /** With no label known, the narration lists the labels verbatim; with
      no labels at all it is this fixed sentence. */
  lemma EmptyInputFallback()
    ensures Compose(EdgeLexicon, []) == "Detected objects: . Please be careful."
    ensures EdgeNarration([]) == "Detected objects: . Please be careful."
  {
  }

  /** Python: a label that occurs twice contributes its sentence twice. */
  lemma RepeatedLabelRepeatsSentence(obj: string)
    requires Lower(obj) in PythonLexicon
    ensures var s := PythonLexicon[Lower(obj)];
      Compose(PythonLexicon, [obj, obj]) == s + " " + s
  {
    SentencesAppend(PythonLexicon, [obj], [obj]);
    SentencesOne(PythonLexicon, obj);
    assert [obj] + [obj] == [obj, obj];
    var t := PythonLexicon[Lower(obj)];
    assert Sentences(PythonLexicon, [obj, obj]) == [t, t];
    assert [t, t][1..] == [t];
    assert Join([t, t], " ") == t + " " + Join([t], " ");
  }

  /** Edge: an exact repeat of a label changes nothing, because it is
      removed before lookup. */
  lemma ExactRepeatCollapses(detectedObjects: seq<string>, obj: string)
    requires obj in detectedObjects
    ensures EdgeNarration(detectedObjects + [obj]) == EdgeNarration(detectedObjects)
  {
    var xs := detectedObjects + [obj];
    assert xs[..|xs| - 1] == detectedObjects;
  }

  /** Edge: deduplication compares raw strings, before lower-casing, so two
      spellings of one known label ("Car", "car") both contribute. */
  lemma CaseVariantsBothNarrated(a: string, b: string)
    requires a != b && Lower(a) == Lower(b) && Lower(a) in EdgeLexicon
    ensures var s := EdgeLexicon[Lower(a)];
      EdgeNarration([a, b]) == s + " " + s
  {
    assert [a, b][..1] == [a];
    assert [a][..0] == [];
    assert Dedup([a]) == [a];
    assert Dedup([a, b]) == [a, b];
    SentencesAppend(EdgeLexicon, [a], [b]);
    SentencesOne(EdgeLexicon, a);
    SentencesOne(EdgeLexicon, b);
    assert [a] + [b] == [a, b];
    var t := EdgeLexicon[Lower(a)];
    assert Sentences(EdgeLexicon, [a, b]) == [t, t];
    assert [t, t][1..] == [t];
    assert Join([t, t], " ") == t + " " + Join([t], " ");
  }

  /** `generateNarration` (edge function): deduplicate, then collect the
      sentence of each distinct label in a loop. */
  method GenerateNarration(detectedObjects: seq<string>) returns (r: string)
    ensures r == EdgeNarration(detectedObjects)
    ensures |r| > 0
  {
    var uniqueObjects := Dedup(detectedObjects);
    var narrations: seq<string> := [];
    for i := 0 to |uniqueObjects|
      invariant narrations == Sentences(EdgeLexicon, uniqueObjects[..i])
    {
      assert uniqueObjects[..i + 1][..i] == uniqueObjects[..i];
      var key := Lower(uniqueObjects[i]);
      if key in EdgeLexicon {
        narrations := narrations + [EdgeLexicon[key]];
      }
    }
    assert uniqueObjects[..|uniqueObjects|] == uniqueObjects;
    if |narrations| == 0 {
      r := Fallback(uniqueObjects);
    } else {
      r := Join(narrations, " ");
    }
    SentencesNonEmpty();
    ComposeNonEmpty(EdgeLexicon, uniqueObjects);
  }

  /** `get_narration` (reference script): no deduplication; every label is
      looked up in turn. */
  method GetNarration(detectedObjects: seq<string>) returns (r: string)
    ensures r == Compose(PythonLexicon, detectedObjects)
    ensures |r| > 0
  {
    var narrations: seq<string> := [];
    for i := 0 to |detectedObjects|
      invariant narrations == Sentences(PythonLexicon, detectedObjects[..i])
    {
      assert detectedObjects[..i + 1][..i] == detectedObjects[..i];
      var key := Lower(detectedObjects[i]);
      if key in PythonLexicon {
        narrations := narrations + [PythonLexicon[key]];
      }
    }
    assert detectedObjects[..|detectedObjects|] == detectedObjects;
    if |narrations| == 0 {
      r := Fallback(detectedObjects);
    } else {
      r := Join(narrations, " ");
    }
    SentencesNonEmpty();
    ComposeNonEmpty(PythonLexicon, detectedObjects);
  }

  /** `generateNarration` with the inherited names visible, as written. */
  function EdgeNarrationAsWritten(detectedObjects: seq<string>): string {
    Compose(EdgeLookupAsWritten, Dedup(detectedObjects))
  }

  /** A single label is narrated by its own sentence when the table has
      its lower-cased form, and by the fallback naming it verbatim when not. */
  lemma ComposeOne(lex: map<string, string>, obj: string)
    ensures Lower(obj) in lex ==> Compose(lex, [obj]) == lex[Lower(obj)]
    ensures Lower(obj) !in lex ==>
      Compose(lex, [obj]) == "Detected objects: " + obj + ". Please be careful."
  {
    SentencesOne(lex, obj);
  }

  lemma DedupOne(obj: string)
    ensures Dedup([obj]) == [obj]
  {
    assert [obj][..0] == [];
  }

  lemma ConstructorNotInLexicon()
    ensures Sentences(EdgeLexicon, ["constructor"]) == []
  {
    LowerOfLowerCase("constructor");
    SentencesOne(EdgeLexicon, "constructor");
  }

  lemma ConstructorFallback()
    ensures Fallback(["constructor"]) == "Detected objects: constructor. Please be careful."
  {
  }

  /** A detection named "constructor" is narrated with the source text of
      the Object constructor instead of the caution fallback. */
  lemma PrototypeNameLeaks()
    ensures EdgeNarrationAsWritten(["constructor"]) == "function Object() { [native code] }"
    ensures EdgeNarration(["constructor"]) == "Detected objects: constructor. Please be careful."
  {
    DedupOne("constructor");
    LowerOfLowerCase("constructor");
    ComposeOne(EdgeLookupAsWritten, "constructor");
    ConstructorNotInLexicon();
    ConstructorFallback();
  }
}
