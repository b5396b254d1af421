/** Stage 1 of the council (`stage1_collect_responses`): the configuration check, the
    messages each council model is sent, and one record per model in slot order. The gateway's
    answers are a parameter: for each slot, the content the model returned, or `None` when
    the call failed. */
module Stage1 {
  import opened Wrappers
  import opened Council

  /** The sentence that follows a persona's context in its system message. */
  const InCharacter := "\n\nAnswer the following question in character, embodying this Sheldon personality."

  /** The system message that puts a model in the persona's character. */
  function PersonaMessage(p: Persona): (m: Message)
    ensures m.role == System && m.content.Text?
  {
    Message(System, Text("You are " + ShowName(p.name) + ": " + p.context + InCharacter))
  }

  /** The conversation a council model is sent: the persona's system message when the persona
      has context text, then the user's question. */
  function QueryMessages(p: Persona, query: string): (ms: seq<Message>)
    ensures 1 <= |ms| <= 2
    ensures ms[|ms| - 1] == Message(User, Text(query))
    ensures |ms| == 2 <==> p.context != ""
    ensures |ms| == 2 ==> ms[0] == PersonaMessage(p)
  {
    (if p.context != "" then [PersonaMessage(p)] else []) + [Message(User, Text(query))]
  }

  /** Builds the conversation of one slot by appending to an empty list. */
  method BuildMessages(p: Persona, query: string) returns (messages: seq<Message>)
    ensures messages == QueryMessages(p, query)
  {
    messages := [];
    if p.context != "" {
      messages := messages + [PersonaMessage(p)];
    }
    messages := messages + [Message(User, Text(query))];
  }

  /** The text that stands in for the answer of a model whose call failed. */
  function NoAnswer(party: string): string
  {
    "*Error: " + party + " failed to respond. Please try again.*"
  }

  /** The record of slot `i`: the model's answer when the gateway returned one, even an empty
      one, and otherwise the placeholder naming the persona or, failing that, the model. */
  function AnswerFor(cfg: Config, i: nat, reply: Option<string>): (a: Answer)
    requires i < |cfg.councilModels|
    ensures a.model == cfg.councilModels[i]
    ensures a.sheldonName == SheldonContext(cfg, i).name
    ensures reply.Some? ==> a.response == reply.value
    ensures reply.None? ==> a.response == NoAnswer(FailedParty(a.sheldonName, a.model))
  {
    var name := SheldonContext(cfg, i).name;
    var model := cfg.councilModels[i];
    Answer(model, name, if reply.Some? then reply.value else NoAnswer(FailedParty(name, model)))
  }

  /** The Stage-1 records: one per council model, in slot order, failed calls included. */
  function Answers(cfg: Config, replies: seq<Option<string>>): (records: seq<Answer>)
    requires |replies| == |cfg.councilModels|
    ensures |records| == |cfg.councilModels|
    ensures forall i :: 0 <= i < |records| ==> records[i] == AnswerFor(cfg, i, replies[i])
  {
    seq(|replies|, i requires 0 <= i < |replies| => AnswerFor(cfg, i, replies[i]))
  }

  /** The request of slot `i`: its model and the conversation of its persona. */
  function QueryFor(cfg: Config, i: nat, query: string): Request
    requires i < |cfg.councilModels|
  {
    Request(cfg.councilModels[i], QueryMessages(SheldonContext(cfg, i), query))
  }

  /** `stage1_collect_responses`. A configuration whose model and name lists differ in length
      is refused before any model is queried. Otherwise every slot is queried with its
      persona's conversation and gets a record, in slot order. */
  method CollectResponses(cfg: Config, query: string, replies: seq<Option<string>>)
    returns (result: Result<seq<Answer>, ConfigError>, sent: seq<Request>)
    requires |replies| == |cfg.councilModels|
    ensures result.Failure? <==> |cfg.councilModels| != |cfg.sheldonNames|
    ensures result.Failure? ==> result.error == Mismatch(|cfg.councilModels|, |cfg.sheldonNames|) && sent == []
    ensures result.Success? ==> result.value == Answers(cfg, replies)
    ensures result.Success? ==> |sent| == |cfg.councilModels|
    ensures result.Success? ==> forall i :: 0 <= i < |sent| ==> sent[i] == QueryFor(cfg, i, query)
  {
    if |cfg.councilModels| != |cfg.sheldonNames| {
      return Failure(Mismatch(|cfg.councilModels|, |cfg.sheldonNames|)), [];
    }
    sent := [];
    var i := 0;
    while i < |cfg.councilModels|
      invariant 0 <= i <= |cfg.councilModels|
      invariant |sent| == i && forall k :: 0 <= k < i ==> sent[k] == QueryFor(cfg, k, query)
    {
      var messages := BuildMessages(SheldonContext(cfg, i), query);
      sent := sent + [Request(cfg.councilModels[i], messages)];
      i := i + 1;
    }
    var records: seq<Answer> := [];
    i := 0;
    while i < |replies|
      invariant 0 <= i <= |replies|
      invariant |records| == i && forall k :: 0 <= k < i ==> records[k] == AnswerFor(cfg, k, replies[k])
    {
      var model, name := cfg.councilModels[i], SheldonContext(cfg, i).name;
      if replies[i].Some? {
        records := records + [Answer(model, name, replies[i].value)];
      } else {
        records := records + [Answer(model, name, NoAnswer(FailedParty(name, model)))];
      }
      i := i + 1;
    }
    result := Success(records);
  }

  /** Failed slots keep their place, so Stage 1 returns no records only for an empty council. */
  lemma NoAnswersOnlyForEmptyCouncil(cfg: Config, replies: seq<Option<string>>)
    requires |replies| == |cfg.councilModels|
    ensures Answers(cfg, replies) == [] <==> cfg.councilModels == []
  {
    if cfg.councilModels != [] {
      assert Answers(cfg, replies)[0].model == cfg.councilModels[0];
    }
  }

  /** In a matching configuration the placeholder of a failed slot names its Sheldon, unless
      that name is empty; the model is named only then. */
  lemma FailedSlotNamesSheldon(cfg: Config, i: nat)
    requires |cfg.councilModels| == |cfg.sheldonNames| && i < |cfg.councilModels|
    ensures AnswerFor(cfg, i, None).response
      == NoAnswer(if cfg.sheldonNames[i] != "" then cfg.sheldonNames[i] else cfg.councilModels[i])
  {
  }
}
