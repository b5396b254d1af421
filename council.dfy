/** The configuration the council runs on, the persona lookup, and the records, messages and
    requests that the three stages pass between them (`backend/council.py`). */
module Council {
  import opened Wrappers

  /** The configuration `council.py` imports: the council's model identifiers, one Sheldon
      name per council slot, the context text of each Sheldon name, and the chairman's model
      and context. */
  datatype Config = Config(
    councilModels: seq<string>,
    sheldonNames: seq<string>,
    councilContext: map<string, string>,
    chairmanModel: string,
    chairmanContext: string)

  /** A persona: the Sheldon name of a slot, absent past the end of the names list, and the
      context text that goes with it. */
  datatype Persona = Persona(name: Option<string>, context: string)

  /** `get_sheldon_context_for_model`: the name at `index` and its context, the empty context
      when the name has none, and no name at all past the end of the names list. */
  function SheldonContext(cfg: Config, index: nat): (p: Persona)
    ensures p.name.None? <==> index >= |cfg.sheldonNames|
    ensures p.name.Some? ==> p.name.value == cfg.sheldonNames[index]
    ensures p.name.Some? && p.name.value in cfg.councilContext ==>
      p.context == cfg.councilContext[p.name.value]
    ensures p.name.None? || p.name.value !in cfg.councilContext ==> p.context == ""
  {
    if index >= |cfg.sheldonNames| then Persona(None, "")
    else
      var name := cfg.sheldonNames[index];
      Persona(Some(name), if name in cfg.councilContext then cfg.councilContext[name] else "")
  }

  /** A name as an f-string shows it: the text itself, or `None` when there is no name. */
  function ShowName(name: Option<string>): (r: string)
    ensures name.Some? ==> r == name.value
    ensures name.None? ==> r == "None"
  {
    match name
    case Some(n) => n
    case None => "None"
  }

  /** `sheldon_name or model`: the Sheldon name when there is a non-empty one, else the model. */
  function FailedParty(name: Option<string>, model: string): (r: string)
    ensures r == model || (name == Some(r) && r != "")
    ensures name.Some? && name.value != "" ==> r == name.value
  {
    if name.Some? && name.value != "" then name.value else model
  }

  /** Who speaks in a chat message. */
  datatype Role = System | User

  /** What a message says. Free text is kept as it is; the long ranking and chairman prompts
      are kept as the values they embed, since the rest of their wording has no effect on what
      the council computes. */
  datatype Content =
    | Text(text: string)
    | RankingPrompt(name: Option<string>, context: string, query: string, ballot: string)
    | ChairmanPrompt(query: string, responses: string, rankings: string, context: string)
    | TitlePrompt(query: string)

  datatype Message = Message(role: Role, content: Content)

  /** One call to the model gateway: the model and the conversation sent to it. */
  datatype Request = Request(model: string, messages: seq<Message>)

  /** A Stage-1 record: the model, its Sheldon name and its answer or a placeholder. */
  datatype Answer = Answer(model: string, sheldonName: Option<string>, response: string)

  /** A Stage-2 record: the model, its Sheldon name, the raw ranking text or a placeholder, and
      the labels parsed from it. */
  datatype Ranking = Ranking(model: string, sheldonName: Option<string>, ranking: string, parsedRanking: seq<string>)

  /** The Stage-3 result: the model that wrote the final answer, and the answer. */
  datatype FinalAnswer = FinalAnswer(model: string, response: string)

  /** The configuration error Stage 1 raises: the number of models and of Sheldon names. */
  datatype ConfigError = Mismatch(models: nat, names: nat)

  /** Every council slot of a matching configuration has a Sheldon name. */
  lemma MatchedSlotsAreNamed(cfg: Config, index: nat)
    requires |cfg.councilModels| == |cfg.sheldonNames| && index < |cfg.councilModels|
    ensures SheldonContext(cfg, index).name == Some(cfg.sheldonNames[index])
  {
  }

  /** A persona with context text has a name, so a system message never shows `None`. */
  lemma ContextHasName(cfg: Config, index: nat)
    requires SheldonContext(cfg, index).context != ""
    ensures index < |cfg.sheldonNames|
    ensures ShowName(SheldonContext(cfg, index).name) == cfg.sheldonNames[index]
  {
  }
}
