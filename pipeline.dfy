/**
  What the page does with one question: nothing for an empty question, a
  warning when no document matches, and otherwise a prompt for the language
  model together with the file name of the first match as the cited source.
  The language model is a parameter: a function from request to completion.
 */
module Pipeline {
  import opened Knowledge
  import opened Compose

  /** The three ways a question can end before the model is asked. */
  datatype Outcome = NoQuery | NoResults | Answer(source: string, prompt: string)

  /** The decision taken on a question once its search results are known. */
  function Decide(query: string, results: seq<Entry>): (o: Outcome)
    ensures o.NoQuery? <==> query == ""
    ensures o.NoResults? <==> query != "" && results == []
    ensures o.Answer? ==> results != [] && o.source == results[0].0
    ensures o.Answer? ==> o.prompt == Prompt(Context(results), query)
    ensures o.Answer? ==> ParsePrompt(o.prompt, |Context(results)|) == Some((Context(results), query))
  {
    if query == "" then NoQuery
    else if results == [] then NoResults
    else Answer(results[0].0, Prompt(Context(results), query))
  }

  /** Handling one question against the knowledge base: the search runs only for a
      non-empty question. */
  method Respond(kb: seq<Entry>, query: string) returns (o: Outcome)
    ensures o.NoQuery? <==> query == ""
    ensures o.NoResults? <==> query != "" && forall i :: 0 <= i < |kb| ==> !Matches(query, kb[i].1)
    ensures o.Answer? ==> exists i :: IsFirstMatch(kb, query, i) && o.source == kb[i].0
    ensures o.Answer? ==> o.prompt == Prompt(Context(Search(kb, query)), query)
  {
    if query == "" {
      return NoQuery;
    }
    var results := SearchDocuments(kb, query);
    FirstResult(kb, query);
    o := Decide(query, results);
  }

  /** What the application sends the model for a prompt. */
  datatype Request = Request(model: string, system: string, user: string, maxTokens: nat)

  const ModelName := "gpt-3.5-turbo"
  const SystemMessage := "Eres un experto en energía fotovoltaica."
  const MaxTokens: nat := 200

  /** The request built for a prompt (helper for Present). */
  function MakeRequest(prompt: string): (r: Request)
    ensures r.user == prompt
    ensures r.model == ModelName && r.system == SystemMessage && r.maxTokens == MaxTokens
  {
    Request(ModelName, SystemMessage, prompt, MaxTokens)
  }

  /** The model either completes or fails with an error message. */
  datatype Completion = Completed(text: string) | Failed(error: string)

  /** What the user is shown. */
  datatype Report = Nothing | Warning(message: string) | Shown(source: string, answer: string) | Error(message: string)

  const NoInformation := "No se encontró información relevante en los documentos almacenados."
  const ErrorPrefix := "\U{274C} ERROR: "

  /** The report for an outcome; only an Answer consults the model. */
  function Present(o: Outcome, model: Request -> Completion): (r: Report)
    ensures o.NoQuery? <==> r.Nothing?
    ensures o.NoResults? <==> r.Warning?
    ensures r.Warning? ==> r.message == NoInformation
    ensures r.Shown? ==> o.Answer? && r.source == o.source && model(MakeRequest(o.prompt)) == Completed(r.answer)
    ensures r.Error? ==>
              o.Answer? && model(MakeRequest(o.prompt)).Failed?
              && r.message == ErrorPrefix + model(MakeRequest(o.prompt)).error
    ensures o.Answer? ==> (r.Shown? <==> model(MakeRequest(o.prompt)).Completed?)
  {
    match o
    case NoQuery => Nothing
    case NoResults => Warning(NoInformation)
    case Answer(source, prompt) =>
      match model(MakeRequest(prompt))
      case Completed(text) => Shown(source, text)
      case Failed(e) => Error(ErrorPrefix + e)
  }

  /** Without an answer outcome, no model is consulted: any two models give the same report. */
  lemma NoModelCallWithoutAnswer(o: Outcome, m1: Request -> Completion, m2: Request -> Completion)
    requires !o.Answer?
    ensures Present(o, m1) == Present(o, m2)
  {
  }

  /** With an answer outcome, the report depends on the model only through its reply to the prompt. */
  lemma ModelSeesOnlyThePrompt(o: Outcome, m1: Request -> Completion, m2: Request -> Completion)
    requires o.Answer? && m1(MakeRequest(o.prompt)) == m2(MakeRequest(o.prompt))
    ensures Present(o, m1) == Present(o, m2)
  {
  }
}
