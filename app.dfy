/** The handler of the "Generiere Rezepte" button: parse the ingredients,
    build the prompts, ask the remote model when a key is configured, fall
    back to the rule-based generator without a key or when the call raises,
    and hand the one result text to both the page and the download. */
module App {
  import opened Strings
  import Ingredients
  import Prompts
  import Fallback

  /** The outcome of the remote chat call: its text, or the message of the
      exception it raised. */
  datatype RemoteOutcome = Reply(text: string) | Raised(message: string)

  /** The two instructions handed to the remote model. */
  datatype Request = Request(system: string, user: string)

  /** What the page shows once the button is pressed. */
  datatype Screen =
    | MissingIngredients
    | Shown(error: Option<string>, markdown: string, download: string)

  const ErrorLead: string := "Fehler beim Modellaufruf: "

  /** The request built for a non-empty ingredient list. */
  function RequestFor(ingredients: seq<string>, diet: string, cuisine: string, n: int): Request {
    Request(Prompts.SystemPrompt(n), Prompts.UserPrompt(ingredients, diet, cuisine, n))
  }

  /** The connection to the chat model. answer stands for what the model
      replies to a request, or the exception the call raises; log records
      every request sent, in order. answer may be applied only where the
      handler is allowed to ask the model, so a call anywhere else does not
      verify. */
  class ChatClient {
    const answer: Request --> RemoteOutcome
    ghost var log: seq<Request>

    constructor(answer: Request --> RemoteOutcome)
      ensures this.answer == answer && log == []
    {
      this.answer := answer;
      log := [];
    }

    /** call_openai_chat(system, user): one request, recorded in the log. */
    method Complete(request: Request) returns (outcome: RemoteOutcome)
      requires answer.requires(request)
      modifies this
      ensures log == old(log) + [request]
      ensures outcome == answer(request)
    {
      log := log + [request];
      outcome := answer(request);
    }
  }

  /** The button handler. hasKey says whether an API key is configured;
      client is the connection to the chat model. The model is asked exactly
      once, with the two prompts, when there is a key and some ingredient,
      and never otherwise. */
  method OnGenerate(input: string, diet: string, cuisine: string, n: int, hasKey: bool,
                    client: ChatClient)
    returns (screen: Screen)
    requires hasKey && Ingredients.ParseIngredients(input) != [] ==>
      forall r :: client.answer.requires(r)
    modifies client
    ensures var ingredients := Ingredients.ParseIngredients(input);
      && (screen == MissingIngredients <==> ingredients == [])
      && (ingredients == [] || !hasKey ==> client.log == old(client.log))
      && (ingredients != [] && hasKey ==>
            client.log == old(client.log) + [RequestFor(ingredients, diet, cuisine, n)])
    ensures screen.Shown? ==> screen.download == screen.markdown
    ensures screen.Shown? && !hasKey ==>
      screen.error == None
      && screen.markdown == Fallback.RuleBasedText(Ingredients.ParseIngredients(input), n)
    ensures screen.Shown? && hasKey ==>
      var ingredients := Ingredients.ParseIngredients(input);
      match client.answer(RequestFor(ingredients, diet, cuisine, n))
      case Reply(t) => screen.error == None && screen.markdown == t
      case Raised(e) =>
        && screen.error == Some(ErrorLead + e)
        && screen.markdown == Fallback.RuleBasedText(ingredients, n)
  {
    var ingredients := Ingredients.ParseIngredients(input);
    if ingredients == [] {
      screen := MissingIngredients;
    } else {
      var systemPrompt := Prompts.SystemPrompt(n);
      var userPrompt := Prompts.UserPrompt(ingredients, diet, cuisine, n);
      var resultText: string;
      var error: Option<string> := None;
      if hasKey {
        var outcome := client.Complete(Request(systemPrompt, userPrompt));
        match outcome
        case Reply(t) =>
          resultText := t;
        case Raised(e) =>
          error := Some(ErrorLead + e);
          resultText := Fallback.SimpleRuleBased(ingredients, diet, cuisine, n);
      } else {
        resultText := Fallback.SimpleRuleBased(ingredients, diet, cuisine, n);
      }
      screen := Shown(error, resultText, resultText);
    }
  }
}
