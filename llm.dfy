/** The OpenAI client of the backend (backend/src/services/llm.py): the key
    check at construction, prompt assembly, and the step that guarantees the
    citation marker. The two hosted endpoints are function-valued fields: what
    the embeddings endpoint returns for a text, and what the chat endpoint
    completes for a system and a user prompt. Ghost fields record the requests
    made, so that callers can state which endpoints were used. */
module Llm {
  import opened Wrappers
  import opened Strings

  const Marker := "[CITATION]"

  const SystemPrompt :=
    "You are a compliance-focused assistant that answers factual mutual fund questions.\n"
    + "Rules:\n"
    + "1. Only use the supplied context excerpts.\n"
    + "2. Respond in <=3 sentences, clear declarative tone.\n"
    + "3. Append a single citation token '[CITATION]' at the end of the answer.\n"
    + "4. If the context does not contain the answer, say you couldn't find it.\n"
    + "5. Never provide investment or portfolio advice; redirect users to SEBI-registered advisers if they ask."

  const MissingKey := "OPENAI_API_KEY is required"

  datatype OpenAISettings = OpenAISettings(apiKey: string, chatModel: string, embedModel: string)

  /** The user message: the contexts separated by blank lines, then the question. */
  function UserPrompt(question: string, contexts: seq<string>): string {
    "Context:\n" + Join("\n\n", contexts) + "\n\nQuestion: " + question + "\nAnswer:"
  }

  /** The user prompt carries the question and every context string verbatim. */
  lemma PromptCarriesInputs(question: string, contexts: seq<string>)
    ensures Contains(UserPrompt(question, contexts), question)
    ensures forall k :: 0 <= k < |contexts| ==> Contains(UserPrompt(question, contexts), contexts[k])
  {
    var blob := Join("\n\n", contexts);
    var head := "Context:\n";
    var p := UserPrompt(question, contexts);
    assert p == head + blob + "\n\nQuestion: " + question + "\nAnswer:";
    var qi := |head| + |blob| + |"\n\nQuestion: "|;
    assert p[qi..qi + |question|] == question;
    ContainsAt(p, question, qi);
    forall k | 0 <= k < |contexts| ensures Contains(p, contexts[k]) {
      JoinContainsPart("\n\n", contexts, k);
      var i :| OccursAt(blob, contexts[k], i);
      assert OccursAt(blob, contexts[k], i);
      assert p[|head| + i..|head| + i + |contexts[k]|] == blob[i..i + |contexts[k]|];
      ContainsAt(p, contexts[k], |head| + i);
    }
  }

  /** The post-processing of a completion in `answer`: strip it, and append the
      marker after a space unless it is already there. */
  function WithMarker(completion: string): (r: string)
    ensures Contains(r, Marker)
    ensures Contains(Strip(completion), Marker) ==> r == Strip(completion)
    ensures !Contains(Strip(completion), Marker) ==> r == Strip(completion) + " " + Marker
  {
    var text := Strip(completion);
    if Contains(text, Marker) then text
    else
      var r := text + " " + Marker;
      assert r[|text| + 1..|text| + 1 + |Marker|] == Marker;
      ContainsAt(r, Marker, |text| + 1);
      r
  }

  /** For a completion that is not blank, the step is idempotent: feeding its
      result back through it changes nothing. */
  lemma WithMarkerIdempotent(completion: string)
    requires Strip(completion) != ""
    ensures WithMarker(WithMarker(completion)) == WithMarker(completion)
  {
    var text := Strip(completion);
    StripIdempotent(completion);
    StripEnds(completion);
    var r := WithMarker(completion);
    if !Contains(text, Marker) {
      assert r == text + " " + Marker;
      assert r[0] == text[0] && r[|r| - 1] == ']';
      StripOfTrimmed(r);
    }
  }

  /** A blank completion shows that idempotence needs a non-blank one: the
      first pass yields " [CITATION]", the second strips the leading space. */
  lemma BlankCompletionNotIdempotent()
    ensures WithMarker("") == " " + Marker
    ensures WithMarker(WithMarker("")) == Marker
  {
    var once := " " + Marker;
    assert Strip("") == "" by { assert TrimStart("", IsSpace) == ""; }
    assert WithMarker("") == once;
    StripSpacedMarker();
    MarkerFacts();
  }

  /** The marker holds itself and has no white space to strip. */
  lemma MarkerFacts()
    ensures Contains(Marker, Marker) && Strip(Marker) == Marker
  {
    assert Marker[0..|Marker|] == Marker;
    ContainsAt(Marker, Marker, 0);
    assert Marker[0] == '[' && Marker[|Marker| - 1] == ']';
    StripOfTrimmed(Marker);
  }

  lemma StripSpacedMarker()
    ensures Strip(" " + Marker) == Marker
  {
    var once := " " + Marker;
    StripOfTrimmed(Marker);
    assert TrimStart(once, IsSpace) == TrimStart(Marker, IsSpace) by { assert once[1..] == Marker; }
  }

  class OpenAIClient {
    const settings: OpenAISettings
    /** What the embeddings endpoint returns for a text. */
    const embedder: string -> seq<real>
    /** What the chat endpoint returns for a system prompt and a user prompt. */
    const chat: (string, string) -> string
    /** The texts sent to the embeddings endpoint, in order. */
    ghost var embedded: seq<string>
    /** The user prompts sent to the chat endpoint, in order. */
    ghost var prompts: seq<string>

    constructor (settings: OpenAISettings, embedder: string -> seq<real>, chat: (string, string) -> string)
      requires settings.apiKey != ""
      ensures this.settings == settings && this.embedder == embedder && this.chat == chat
      ensures embedded == [] && prompts == []
    {
      this.settings := settings;
      this.embedder := embedder;
      this.chat := chat;
      embedded := [];
      prompts := [];
    }

    /** `OpenAIClient()`: raises `ValueError` when the API key is empty. */
    static method Connect(settings: OpenAISettings, embedder: string -> seq<real>, chat: (string, string) -> string)
      returns (r: Result<OpenAIClient, string>)
      ensures r.Failure? <==> settings.apiKey == ""
      ensures r.Failure? ==> r.error == MissingKey
      ensures r.Success? ==> fresh(r.value) && r.value.settings == settings
      ensures r.Success? ==> r.value.embedder == embedder && r.value.chat == chat
      ensures r.Success? ==> r.value.embedded == [] && r.value.prompts == []
    {
      if settings.apiKey == "" {
        return Failure(MissingKey);
      }
      var client := new OpenAIClient(settings, embedder, chat);
      return Success(client);
    }

    /** `embed`: one request to the embeddings endpoint. */
    method Embed(text: string) returns (v: seq<real>)
      modifies this
      ensures v == embedder(text)
      ensures embedded == old(embedded) + [text] && prompts == old(prompts)
    {
      embedded := embedded + [text];
      v := embedder(text);
    }

    /** `answer`: one chat request with the assembled prompt; the completion
        comes back stripped and carrying the marker. */
    method Answer(question: string, contexts: seq<string>) returns (text: string)
      modifies this
      ensures text == WithMarker(chat(SystemPrompt, UserPrompt(question, contexts)))
      ensures Contains(text, Marker)
      ensures prompts == old(prompts) + [UserPrompt(question, contexts)] && embedded == old(embedded)
    {
      var prompt := UserPrompt(question, contexts);
      prompts := prompts + [prompt];
      var completion := chat(SystemPrompt, prompt);
      text := WithMarker(completion);
    }
  }
}
