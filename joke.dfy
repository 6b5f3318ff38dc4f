/** The decision part of `get_joke`: whether a joke is returned and which text. The HTTP
    request and JSON decoding are not modelled; the response is an abstract record. */
module Joke {

  import opened Wrappers
  import opened Text

  /** One element of `choices`: its `message.content` when that is a string, `None`
      when `message` or `content` is missing or not text (indexing or `.strip()` then
      raises and the exception handler returns `None`). */
  datatype Choice = Choice(content: Option<string>)

  /** What the service call produced: the request raised, the body was not JSON, or a
      decoded object whose `choices` entry may be absent. */
  datatype Response = RequestFailed | NotJson | Decoded(choices: Option<seq<Choice>>)

  /** `if not DEEPSEEK_API_KEY`: a missing or empty key. */
  predicate HasApiKey(apiKey: Option<string>) {
    apiKey.Some? && apiKey.value != ""
  }

  /** The first choice's content, when the response has one. */
  function FirstContent(resp: Response): Option<string>
  {
    if resp.Decoded? && resp.choices.Some? && |resp.choices.value| > 0
    then resp.choices.value[0].content
    else None
  }

  /** `get_joke` (lines 59-112): no key gives `None` without a request; otherwise the
      stripped content of the first choice, or `None` when there is none. */
  function GetJoke(apiKey: Option<string>, resp: Response): Option<string>
  {
    if !HasApiKey(apiKey) then None
    else match resp
      case RequestFailed => None
      case NotJson => None
      case Decoded(choices) =>
        if choices.Some? && |choices.value| > 0 then
          match choices.value[0].content
          case None => None
          case Some(text) => Some(Strip(text))
        else None
  }

  /** The main loop's `if joke:` (line 237): a joke was obtained and is not empty. */
  predicate IsJoke(joke: Option<string>) {
    joke.Some? && joke.value != ""
  }

  /** `get_joke` yields text exactly when a key is set and the response's first choice
      has string content; the text is that content with surrounding whitespace removed,
      so it neither starts nor ends with whitespace and lies inside the content. */
  lemma GetJokeResult(apiKey: Option<string>, resp: Response)
    ensures GetJoke(apiKey, resp).Some? <==> HasApiKey(apiKey) && FirstContent(resp).Some?
    ensures GetJoke(apiKey, resp).Some? ==>
      var joke := GetJoke(apiKey, resp).value;
      var content := FirstContent(resp).value;
      && joke == Strip(content)
      && |joke| <= |content|
      && (joke == [] || (!IsSpace(joke[0]) && !IsSpace(joke[|joke| - 1])))
  {
  }

  /** A delivered joke needs a key and first content holding a non-whitespace
      character; whitespace-only content counts as no joke. */
  lemma IsJokeIff(apiKey: Option<string>, resp: Response)
    ensures IsJoke(GetJoke(apiKey, resp)) <==>
      HasApiKey(apiKey) && FirstContent(resp).Some? &&
      exists k :: 0 <= k < |FirstContent(resp).value| && !IsSpace(FirstContent(resp).value[k])
  {
    if HasApiKey(apiKey) && FirstContent(resp).Some? {
      StripEmptyIff(FirstContent(resp).value);
    }
  }

  /** Without a key no response is consulted. */
  lemma NoKeyNoJoke(resp: Response)
    ensures GetJoke(None, resp) == None && GetJoke(Some(""), resp) == None
  {
  }
}
