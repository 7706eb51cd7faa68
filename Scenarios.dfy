/**
 Worked consultations over a small registry transcribed from the clinical
 protocol text: the Headache (URG-109) and Leg/Calf Pain (URG-111)
 screening questions, each "Yes" leading to a RED card, plus a one-question
 GENERIC fallback module.
 */
module Scenarios {
  import opened Wrappers
  import opened Protocol
  import opened TriageEngine
  import opened TriageApp
  import Text

  const RedCard: ActionCard :=
    ActionCard("CALL CARE TEAM OR 911", "Contact care team ASAP or Call 911.", "Immediately", "", Red)

  const YellowCard: ActionCard :=
    ActionCard("NOTIFY CARE TEAM", "Please notify your care team.", "Today", "", Yellow)

  /** A Yes/No screening question: "Yes" shows `card`, "No" moves on. */
  function Screening(id: string, text: string, card: ActionCard): ProtocolQuestion
  {
    ProtocolQuestion(id, text, ["Yes", "No"], [
      ProtocolLogic("Yes", ShowCard, None, Some(card)),
      ProtocolLogic("No", NextQuestion, None, None)])
  }

  const Headache: ProtocolModule := ProtocolModule("URG-109", "Headache", [
    Screening("HA-1", "Is this worst headache ever?", RedCard),
    Screening("HA-2", "Any vision changes, trouble speaking, droopy face, weakness, balance issues, confusion?", RedCard)])

  const LegPain: ProtocolModule := ProtocolModule("URG-111", "Leg/Calf Pain", [
    Screening("LEG-1", "Leg swollen/red/warm?", RedCard),
    Screening("LEG-2", "Pain worse when walking/pressing calf?", RedCard)])

  const GenericModule: ProtocolModule := ProtocolModule("GENERIC", "General", [
    Screening("GEN-1", "Are your symptoms severe or getting worse?", YellowCard)])

  const SampleRegistry: map<string, ProtocolModule> :=
    map["URG-109" := Headache, "URG-111" := LegPain, "GENERIC" := GenericModule]

  const Fresh: EngineState := EngineState(None, 0, false, [])

  lemma SampleRegistryIsValid()
    ensures ValidRegistry(SampleRegistry)
  {
  }

  /** Headache, "Yes" to the first question: a RED card after exactly one question. */
  lemma WorstHeadacheIsRed()
    ensures ValidRegistry(SampleRegistry)
    ensures var s := LoadStep(SampleRegistry, Fresh, "URG-109");
            var r := AnswerStep(SampleRegistry, s, "Yes");
            && r.complete && r.index == 0 && |r.messages| == 2
            && r.messages[1].actionCard == Some(RedCard) && RedCard.level == Red
  {
  }

  /** Headache, "No" and "No": the module runs out and the GREEN monitor card is shown. */
  lemma HeadacheNoNoMonitors()
    ensures ValidRegistry(SampleRegistry)
    ensures var r := Run(SampleRegistry, LoadStep(SampleRegistry, Fresh, "URG-109"), ["No", "No"]);
            && r.complete && |r.messages| == 3
            && r.messages[2].actionCard == Some(MonitorCard) && MonitorCard.level == Green
  {
    var s0 := LoadStep(SampleRegistry, Fresh, "URG-109");
    var s1 := AnswerStep(SampleRegistry, s0, "No");
    assert s1.index == 1;
    var s2 := AnswerStep(SampleRegistry, s1, "No");
    assert Run(SampleRegistry, s0, ["No", "No"]) == Run(SampleRegistry, s1, ["No"]);
    assert Run(SampleRegistry, s1, ["No"]) == s2;
  }

  /** Leg pain, "Yes" to swelling: RED at once, the second question is never asked. */
  lemma SwollenLegIsRed()
    ensures ValidRegistry(SampleRegistry)
    ensures var r := AnswerStep(SampleRegistry, LoadStep(SampleRegistry, Fresh, "URG-111"), "Yes");
            && r.complete && r.index == 0 && |r.messages| == 2
            && r.messages[1].actionCard == Some(RedCard)
  {
  }

  /** A symptom code with no protocol falls back to GENERIC and still asks a well-formed first question. */
  lemma UnknownCodeAsksGeneric()
    ensures ValidRegistry(SampleRegistry)
    ensures var r := LoadStep(SampleRegistry, Fresh, "NAU-203");
            && r.moduleId == Some("NAU-203")
            && r.messages == [Ask(GenericModule.questions[0])]
            && r.messages[0].options == Some(["Yes", "No"])
  {
  }

  /** An answer matching no rule re-asks the same question. */
  lemma UnclearAnswerReprompts()
    ensures ValidRegistry(SampleRegistry)
    ensures var s := LoadStep(SampleRegistry, Fresh, "URG-109");
            var r := AnswerStep(SampleRegistry, s, "Maybe");
            && !r.complete && r.index == 0
            && r.messages == s.messages + [BotMessage(RepromptText, Some(["Yes", "No"]), None)]
  {
  }

  /** "Yes" to the first Headache question, whatever the transcript so far. */
  lemma HeadacheYesTurn(messages: seq<Message>)
    ensures ValidRegistry(SampleRegistry)
    ensures AnswerStep(SampleRegistry, EngineState(Some("URG-109"), 0, false, messages), "Yes")
            == EngineState(Some("URG-109"), 0, true, messages + [BotMessage(CompleteText, None, Some(RedCard))])
  {
  }

  /** Through the component to the first Headache question: deny emergencies, pick Headache, start. */
  method StartHeadache() returns (app: App)
    ensures fresh(app) && app.Valid() && app.registry == SampleRegistry && app.view == Chat
    ensures app.Session() == EngineState(Some("URG-109"), 0, false, [IntroMessage("Headache"), Ask(Headache.questions[0])])
  {
    SampleRegistryIsValid();
    app := new App(SampleRegistry);
    app.DenyEmergencies();
    app.ToggleSymptom("Headache", "URG-109");
    app.HandleStartConsultation();
  }

  /** A whole visit through the component: pick Headache, start, answer "Yes". */
  method HeadacheVisit() returns (app: App)
    ensures fresh(app) && app.Valid() && app.registry == SampleRegistry
    ensures app.view == Chat && app.isConsultationComplete
    ensures |app.messages| == 4 && app.messages[3].actionCard == Some(RedCard)
  {
    app := StartHeadache();
    HeadacheYesTurn([IntroMessage("Headache"), Ask(Headache.questions[0]), UserMessage("yes, it is the worst")]);
    assert !Text.IsJsWhitespace("yes, it is the worst"[0]);
    app.HandleSendMessage("yes, it is the worst", "Yes");
    assert app.isConsultationComplete;
  }

  /** After the RED card, a further message is recorded but the engine ignores it. */
  method LateMessageVisit()
  {
    var app := HeadacheVisit();
    assert !Text.IsJsWhitespace("hello?"[0]);
    app.HandleSendMessage("hello?", "No");
    assert |app.messages| == 5 && app.messages[4] == UserMessage("hello?");
    assert app.isConsultationComplete && app.messages[3].actionCard == Some(RedCard);
  }

  /** An emergency button goes to the red screen without starting any module. */
  method EmergencyVisit()
  {
    SampleRegistryIsValid();
    var app := new App(SampleRegistry);
    app.SelectEmergencyCheck(GlobalEmergencyChecks[1]);
    assert app.view == EmergencyRed && app.currentModuleId == None && app.messages == [];
    app.Restart();
    assert app.view == TriageWizard;
  }
}
