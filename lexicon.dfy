/** The object-to-narration lexicons. Both sources write the table as a
    literal with one binding per line. In Python a later binding of a key
    in a dict display replaces the earlier one; a Dafny map display
    behaves the same way, so each literal is transcribed binding for
    binding, in source order. */
module Lexicon {

  /** `objectNarrations` of the edge function: 27 distinct keys. */
  const EdgeLexicon: map<string, string> := map[
    "person" :=
      "There is a person ahead. Please stay alert.",
    "bicycle" :=
      "There is a bicycle nearby. Be careful and give way.",
    "car" :=
      "There are cars coming on the road. Do not cross the road now.",
    "motorcycle" :=
      "There are motorcycles nearby. Stay cautious.",
    "bus" :=
      "There is a bus approaching. Please wait safely.",
    "truck" :=
      "There is a truck nearby. Keep a safe distance.",
    "traffic light" :=
      "There is a traffic light ahead. Wait for the green signal before crossing.",
    "stop sign" :=
      "There is a stop sign ahead. Please stop and look around before moving.",
    "crosswalk" :=
      "There is a zebra crossing in front of you. You can cross the road safely here.",
    "fire hydrant" :=
      "There is a fire hydrant nearby. Watch your step.",
    "bench" :=
      "There is a bench nearby. You may sit if needed.",
    "parking meter" :=
      "There is a parking meter close by.",
    "bird" :=
      "There are birds ahead. Stay calm and keep safe.",
    "cat" :=
      "There is a cat nearby. Please avoid sudden movements.",
    "dog" :=
      "There is a dog nearby. Be cautious and quiet.",
    "traffic cone" :=
      "There is a traffic cone ahead. Take extra caution.",
    "construction barrier" :=
      "There is a construction barrier nearby. Avoid this area.",
    "fire extinguisher" :=
      "There is a fire extinguisher close by.",
    "mailbox" :=
      "There is a mailbox nearby.",
    "potted plant" :=
      "There is a potted plant near you. Watch your path.",
    "sidewalk" :=
      "You are near the sidewalk. Stay on it for safety.",
    "crosswalk signal" :=
      "There is a crosswalk signal ahead. Follow its directions.",
    "road work sign" :=
      "There is a road work sign nearby. Be very cautious.",
    "barrier" :=
      "There is a barrier ahead. Please avoid walking into it.",
    "wheelchair" :=
      "There is a wheelchair nearby. Give way and be respectful.",
    "stroller" :=
      "There is a stroller nearby. Be careful around it.",
    "traffic sign" :=
      "There is a traffic sign nearby. Follow the traffic instructions."
  ]

  /** `object_narrations` of the reference script: 29 bindings, two of
      which ("truck" and "stop sign") rebind a key bound earlier. */
  const PythonLexicon: map<string, string> := map[
    "person" :=
      "There is a person ahead. Please stay alert.",
    "bicycle" :=
      "There is a bicycle nearby. Be careful and give way.",
    "car" :=
      "There are cars coming on the road. Do not cross the road now.",
    "motorcycle" :=
      "There are motorcycles nearby. Stay cautious.",
    "bus" :=
      "There is a bus approaching. Please wait safely.",
    "truck" :=
      "There is a truck nearby. Keep a safe distance.",
    "traffic light" :=
      "There is a traffic light ahead. Wait for the green signal before crossing.",
    "stop sign" :=
      "There is a stop sign ahead. Please stop and look around before moving.",
    "crosswalk" :=
      "There is a zebra crossing in front of you. You can cross the road safely here.",
    "fire hydrant" :=
      "There is a fire hydrant nearby. Watch your step.",
    "bench" :=
      "There is a bench nearby. You may sit if needed.",
    "parking meter" :=
      "There is a parking meter close by.",
    "bird" :=
      "There are birds ahead. Stay calm and keep safe.",
    "cat" :=
      "There is a cat nearby. Please avoid sudden movements.",
    "dog" :=
      "There is a dog nearby. Be cautious and quiet.",
    "truck" :=
      "There is a truck approaching. Keep a safe distance.",
    "traffic cone" :=
      "There is a traffic cone ahead. Take extra caution.",
    "construction barrier" :=
      "There is a construction barrier nearby. Avoid this area.",
    "stop sign" :=
      "There is a stop sign ahead. Please stop and check before proceeding.",
    "fire extinguisher" :=
      "There is a fire extinguisher close by.",
    "mailbox" :=
      "There is a mailbox nearby.",
    "potted plant" :=
      "There is a potted plant near you. Watch your path.",
    "sidewalk" :=
      "You are near the sidewalk. Stay on it for safety.",
    "crosswalk signal" :=
      "There is a crosswalk signal ahead. Follow its directions.",
    "road work sign" :=
      "There is a road work sign nearby. Be very cautious.",
    "barrier" :=
      "There is a barrier ahead. Please avoid walking into it.",
    "wheelchair" :=
      "There is a wheelchair nearby. Give way and be respectful.",
    "stroller" :=
      "There is a stroller nearby. Be careful around it.",
    "traffic sign" :=
      "There is a traffic sign nearby. Follow the traffic instructions."
  ]

  const TruckApproaching := "There is a truck approaching. Keep a safe distance."
  const StopSignCheck := "There is a stop sign ahead. Please stop and check before proceeding."

  /** The later "truck" and "stop sign" bindings of the Python literal
      are the ones in force. */
  lemma PythonLastBindingWins()
    ensures PythonLexicon["truck"] == TruckApproaching
    ensures PythonLexicon["stop sign"] == StopSignCheck
    ensures PythonLexicon["truck"] != EdgeLexicon["truck"]
    ensures PythonLexicon["stop sign"] != EdgeLexicon["stop sign"]
  {
  }

  /** Apart from those two rebindings the two tables are the same. */
  lemma PythonIsEdgeWithRebindings()
    ensures PythonLexicon == EdgeLexicon["truck" := TruckApproaching]["stop sign" := StopSignCheck]
  {
  }

  /** The lookup `objectNarrations[key]` as the edge function writes it:
      the table is a plain object, so a key it lacks is looked up on
      Object.prototype as well. Of the inherited names only "constructor"
      and "__proto__" are entirely lower case, so only they survive the
      lower-casing; their values are truthy and stringify as shown. */
  const EdgeLookupAsWritten: map<string, string> :=
    EdgeLexicon["constructor" := "function Object() { [native code] }"]["__proto__" := "[object Object]"]

  /** Every sentence of either table is non-empty, so the sources'
      truthiness test on a looked-up sentence is the same as "has a key". */
  lemma SentencesNonEmpty()
    ensures forall k :: k in EdgeLexicon ==> EdgeLexicon[k] != ""
    ensures forall k :: k in PythonLexicon ==> PythonLexicon[k] != ""
  {
  }
}
