/** The error banner under the assistant's chat
    (`src/components/resume/assistant/chatbot.tsx`): which message it
    shows and when it offers the way to the settings page. */
module ChatErrors {
  import opened Wrappers
  import opened Strings

  /** The chat's `error`: a plain string, or an object with an optional
      `message`, its `JSON.stringify` text and its `toString()` text. */
  datatype ChatError =
    | TextError(text: string)
    | ErrorObject(message: Option<string>, json: string, description: string)

  const MissingKeyMessage := "OpenAI API key not found. Please set your API key in settings to continue."
  const InvalidAnthropicKeyMessage :=
    "Your Anthropic API key is invalid, please try updating it in settings and try again."
  const InvalidOpenAIKeyMessage :=
    "Your OpenAI API key is invalid, please try updating it in settings and try again."
  const GenericMessage := "An error occurred. Please try again or check your settings."

  /** The object's `message` includes `inMessage`, or its JSON text
      includes `inJson`; a missing message includes nothing. */
  predicate Mentions(e: ChatError, inMessage: string, inJson: string) {
    e.ErrorObject? && ((e.message.Some? && Contains(e.message.value, inMessage)) || Contains(e.json, inJson))
  }

  predicate OpenAIKeyMissing(e: ChatError) {
    Mentions(e, "OpenAI API key not found", "OpenAI API key not found")
  }

  predicate AnthropicKeyRejected(e: ChatError) {
    Mentions(e, "invalid x-api-key", "authentication_error")
  }

  predicate OpenAIKeyRejected(e: ChatError) {
    Mentions(e, "Incorrect API key provided", "invalid_api_key")
  }

  /** The banner's text: a string error verbatim, otherwise the first
      matching cause in the order missing key, rejected Anthropic key,
      rejected OpenAI key, and a generic message when none matches. */
  function ErrorMessage(e: ChatError): (m: string)
    ensures e.TextError? ==> m == e.text
    ensures e.ErrorObject? ==>
      m in {MissingKeyMessage, InvalidAnthropicKeyMessage, InvalidOpenAIKeyMessage, GenericMessage}
  {
    if e.TextError? then e.text
    else if OpenAIKeyMissing(e) then MissingKeyMessage
    else if AnthropicKeyRejected(e) then InvalidAnthropicKeyMessage
    else if OpenAIKeyRejected(e) then InvalidOpenAIKeyMessage
    else GenericMessage
  }

  /** For an error object, each fixed message is shown exactly when its
      cause is the first one the error matches. */
  lemma MessageIdentifiesCause(e: ChatError)
    requires e.ErrorObject?
    ensures ErrorMessage(e) == MissingKeyMessage <==> OpenAIKeyMissing(e)
    ensures ErrorMessage(e) == InvalidAnthropicKeyMessage <==>
      !OpenAIKeyMissing(e) && AnthropicKeyRejected(e)
    ensures ErrorMessage(e) == InvalidOpenAIKeyMessage <==>
      !OpenAIKeyMissing(e) && !AnthropicKeyRejected(e) && OpenAIKeyRejected(e)
    ensures ErrorMessage(e) == GenericMessage <==>
      !OpenAIKeyMissing(e) && !AnthropicKeyRejected(e) && !OpenAIKeyRejected(e)
  {
    assert |MissingKeyMessage| == 74 && |GenericMessage| == 59;
    assert |InvalidAnthropicKeyMessage| == 84 && |InvalidOpenAIKeyMessage| == 81;
  }

  /** The text the settings test reads: `error.toString()`. */
  function ErrorString(e: ChatError): string {
    match e
    case TextError(t) => t
    case ErrorObject(_, _, d) => d
  }

  /** The "Go to Settings" button: shown when the lower-cased error text
      mentions an API key or authentication. */
  function ShowsSettingsButton(e: ChatError): (shown: bool)
    ensures shown ==> |ErrorString(e)| >= |"api key"|
    ensures Contains(ToLower(ErrorString(e)), "authentication") ==> shown
  {
    Contains(ToLower(ErrorString(e)), "api key") || Contains(ToLower(ErrorString(e)), "authentication")
  }

  /** Lower-casing keeps an occurrence. */
  lemma {:induction false} ContainsLower(s: string, sub: string)
    requires Contains(s, sub)
    ensures Contains(ToLower(s), ToLower(sub))
  {
    var i :| 0 <= i <= |s| && OccursAt(s, sub, i);
    assert ToLower(s)[i..i + |sub|] == ToLower(sub) by {
      forall k | 0 <= k < |sub| ensures ToLower(s)[i + k] == ToLower(sub)[k] {
        assert s[i + k] == s[i..i + |sub|][k];
      }
    }
    assert OccursAt(ToLower(s), ToLower(sub), i);
  }

  /** An occurrence of an occurrence is an occurrence. */
  lemma {:induction false} ContainsTransitive(a: string, b: string, c: string)
    requires Contains(a, b) && Contains(b, c)
    ensures Contains(a, c)
  {
    var i :| 0 <= i <= |a| && OccursAt(a, b, i);
    var j :| 0 <= j <= |b| && OccursAt(b, c, j);
    forall k | 0 <= k < |c| ensures a[i + j..i + j + |c|][k] == c[k] {
      assert a[i..i + |b|][j + k] == b[j + k];
      assert b[j..j + |c|][k] == c[k];
    }
    assert OccursAt(a, c, i + j);
  }

  /** The test ignores case: an error whose text mentions "API key" in any
      capitalisation, for instance the missing-key text, offers the
      settings page. */
  lemma MentionOfApiKeyShowsSettings(e: ChatError, mention: string)
    requires Contains(ErrorString(e), mention)
    requires ToLower(mention) == "api key"
    ensures ShowsSettingsButton(e)
  {
    ContainsLower(ErrorString(e), mention);
  }

  /** A string error carrying the missing-key text both shows that text
      and offers the settings page. */
  lemma MissingKeyTextShowsSettings(t: string)
    requires Contains(t, "OpenAI API key not found")
    ensures ErrorMessage(TextError(t)) == t
    ensures ShowsSettingsButton(TextError(t))
  {
    assert OccursAt("OpenAI API key not found", "API key", 7);
    ContainsTransitive(t, "OpenAI API key not found", "API key");
    MentionOfApiKeyShowsSettings(TextError(t), "API key");
  }

  /** An error object whose `toString()` carries its message, as an
      `Error`'s does, offers the settings page once the message mentions
      authentication. */
  lemma AuthenticationMessageShowsSettings(e: ChatError)
    requires e.ErrorObject? && e.message.Some?
    requires Contains(e.description, e.message.value)
    requires Contains(e.message.value, "authentication")
    ensures ShowsSettingsButton(e)
  {
    ContainsTransitive(e.description, e.message.value, "authentication");
    ContainsLower(e.description, "authentication");
    assert ToLower("authentication") == "authentication";
  }
}
