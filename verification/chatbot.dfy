/**
 * The canned chatbot replies used when the AI service fails, and the
 * lookup of a message in them.
 *
 * The table is a plain JavaScript object, so indexing it with an arbitrary
 * key also finds the properties every object inherits. Lower-cased input
 * can only ever spell two of those: `constructor` (the `Object` function)
 * and `__proto__` (the prototype object itself). `LookupAsWritten` models
 * that; `FallbackReply` is the lookup restricted to the table's own keys,
 * which the rest of the model uses. As the handler is written, the lookup
 * is never reached (see `ChatHandlers.ChatbotMessageAsWritten`).
 */
module Chatbot {
  import opened Outcomes
  import opened Text

  const DefaultKey: string := "default"

  const Greeting: string := "Hello! How can I assist you with medical information today?"

  const ChatbotResponses: map<string, string> := map[
    "hello" := Greeting,
    "hi" := Greeting,
    "appointment" := "To book an appointment, please visit the appointments section.",
    "doctor" := "Our doctors are available. Check the doctors section for details.",
    "emergency" := "For emergencies, please call 911 or visit the nearest emergency room.",
    "bed" := "Current bed availability: 2 general beds and 1 ICU bed available.",
    "patient" := "We have 3 patients currently admitted.",
    DefaultKey := "I understand you're asking about medical services. Please contact our staff for detailed medical advice."
  ]

  /** The canned reply for a message: the entry for its lower-cased text,
      or the default entry when the table has none. */
  function FallbackReply(message: string): (r: string)
    ensures r in ChatbotResponses.Values && r != ""
    ensures Lower(message) in ChatbotResponses ==> r == ChatbotResponses[Lower(message)]
    ensures Lower(message) !in ChatbotResponses ==> r == ChatbotResponses[DefaultKey]
  {
    var key := Lower(message);
    if key in ChatbotResponses then ChatbotResponses[key] else ChatbotResponses[DefaultKey]
  }

  /** Every table key is lower case, so the reply ignores case. */
  lemma FallbackIgnoresCase(message: string)
    ensures FallbackReply(Lower(message)) == FallbackReply(message)
  {
    LowerIdempotent(message);
  }

  /** Every key of the table is written in lower case. */
  lemma KeysAreLowerCase()
    ensures forall k :: k in ChatbotResponses ==> Lower(k) == k
  {
  }

  /** Each keyword, "default" included, gets its own entry. */
  lemma EveryKeywordIsRecognised()
    ensures forall k :: k in ChatbotResponses ==> FallbackReply(k) == ChatbotResponses[k]
  {
    KeysAreLowerCase();
  }

  /** A keyword in any case gets its own reply. */
  lemma KeywordsAreRecognised()
    ensures FallbackReply("HeLLo") == Greeting
    ensures FallbackReply("BED") == ChatbotResponses["bed"]
  {
    assert Lower("HeLLo") == "hello";
    assert Lower("BED") == "bed";
  }

  // ---------------------------------------------------------------------
  // The lookup as written: a property read on an ordinary object
  // ---------------------------------------------------------------------

  /** The values a property read on the table can produce. */
  datatype JsValue =
    | Str(s: string)
    | ObjectConstructor   // the inherited `constructor`: a function
    | ObjectPrototype     // the inherited `__proto__`: an object with no own enumerable property

  predicate Truthy(v: JsValue)
  {
    !v.Str? || v.s != ""
  }

  /** `chatbotResponses[key]`: own properties first, then the ones every
      object inherits; `None` is `undefined`. */
  function PropertyRead(key: string): (r: Option<JsValue>)
    ensures key in ChatbotResponses ==> r == Some(Str(ChatbotResponses[key]))
    ensures r.Some? && !r.value.Str? ==> key !in ChatbotResponses
  {
    if key in ChatbotResponses then Some(Str(ChatbotResponses[key]))
    else if key == "constructor" then Some(ObjectConstructor)
    else if key == "__proto__" then Some(ObjectPrototype)
    else None
  }

  /** `chatbotResponses[message.toLowerCase()] || chatbotResponses['default']`. */
  function LookupAsWritten(message: string): (r: JsValue)
    ensures Truthy(r)
  {
    var found := PropertyRead(Lower(message));
    if found.Some? && Truthy(found.value) then found.value else Str(ChatbotResponses[DefaultKey])
  }

  /** What `JSON.stringify` makes of the reply's `message` field. */
  datatype MessageField = TextField(text: string) | FieldOmitted | EmptyObject

  function Serialized(v: JsValue): MessageField
  {
    match v
    case Str(s) => TextField(s)
    case ObjectConstructor => FieldOmitted
    case ObjectPrototype => EmptyObject
  }

  /** On the table's own keys, and on every message that spells no
      inherited property, the lookup as written and the corrected one agree. */
  lemma LookupAgreesOnOwnKeys(message: string)
    requires Lower(message) != "constructor" && Lower(message) != "__proto__"
    ensures LookupAsWritten(message) == Str(FallbackReply(message))
  {
  }

  /** The lookup is reached only once `message` is declared outside the
      handler's `try`, as in the corrected handler. There, the message
      "Constructor" gets a reply without a `message` field, and "__proto__"
      one whose `message` is an empty object. The corrected lookup answers
      both with the default text. */
  lemma InheritedKeysBreakTheReply()
    ensures Serialized(LookupAsWritten("Constructor")) == FieldOmitted
    ensures Serialized(LookupAsWritten("__proto__")) == EmptyObject
    ensures FallbackReply("Constructor") == ChatbotResponses[DefaultKey]
    ensures FallbackReply("__proto__") == ChatbotResponses[DefaultKey]
  {
    assert Lower("Constructor") == "constructor";
    assert Lower("__proto__") == "__proto__";
  }
}
