/**
 The App component's state and handlers: the screen shown, the symptom
 picker, the transcript, and the engine's three state cells. Each handler
 updates the fields it sets in the source and no others; the engine
 handlers are proved to perform exactly the steps of TriageEngine.
 */
module TriageApp {
  import opened Wrappers
  import opened Text
  import opened Protocol
  import opened TriageEngine
  import opened SymptomPicker

  /** The four screens. */
  datatype ViewState = TriageWizard | SymptomSelection | Chat | EmergencyRed

  /** An emergency button; `text` is the source's `label`, which Dafny reserves as a keyword. */
  datatype EmergencyCheck = EmergencyCheck(id: string, text: string)

  /** The life-threatening conditions asked about before any module starts. */
  const GlobalEmergencyChecks: seq<EmergencyCheck> := [
    EmergencyCheck("URG-101", "Trouble breathing or shortness of breath"),
    EmergencyCheck("URG-102", "Chest pain"),
    EmergencyCheck("URG-103", "Uncontrolled bleeding"),
    EmergencyCheck("URG-107", "Fainting or Syncope"),
    EmergencyCheck("URG-108", "Confusion or Altered Mental Status")
  ]

  /** The first message of a consultation, naming the chosen symptom. */
  function IntroMessage(name: string): (r: Message)
    ensures r.role == Model && r.options == None && r.actionCard == None
    ensures |r.text| == 34 + |name| + 40 && OccursAt(r.text, name, 34)
    ensures r.text[..34] == "I understand you are experiencing "
    ensures r.text[34 + |name|..] == ". Let me ask you a few safety questions."
  {
    Message(Model, "I understand you are experiencing " + name + ". Let me ask you a few safety questions.", None, None)
  }

  /** The transcript entry for what the user typed: kept verbatim, with no chips and no card. */
  function UserMessage(text: string): (r: Message)
    ensures r.role == User && r.text == text
    ensures r.options == None && r.actionCard == None
  {
    Message(User, text, None, None)
  }

  class App {
    /** The protocol registry, fixed for the life of the component. */
    const registry: map<string, ProtocolModule>

    var view: ViewState
    var selectedSymptoms: seq<Symptom>
    var symptomSearch: string
    var messages: seq<Message>
    var inputText: string
    var showEndSessionConfirm: bool

    var currentModuleId: Option<string>
    var currentQuestionIndex: nat
    var isConsultationComplete: bool

    /** The engine's part of the state. */
    function Session(): EngineState
      reads this
    {
      EngineState(currentModuleId, currentQuestionIndex, isConsultationComplete, messages)
    }

    ghost predicate Valid()
      reads this
    {
      ValidRegistry(registry) && InBounds(registry, Session())
    }

    /** The state of a freshly mounted component. */
    constructor (registry: map<string, ProtocolModule>)
      requires ValidRegistry(registry)
      ensures Valid() && this.registry == registry
      ensures view == TriageWizard && selectedSymptoms == [] && symptomSearch == ""
      ensures messages == [] && inputText == "" && !showEndSessionConfirm
      ensures currentModuleId == None && currentQuestionIndex == 0 && !isConsultationComplete
    {
      this.registry := registry;
      view := TriageWizard;
      selectedSymptoms := [];
      symptomSearch := "";
      messages := [];
      inputText := "";
      showEndSessionConfirm := false;
      currentModuleId := None;
      currentQuestionIndex := 0;
      isConsultationComplete := false;
    }

    /** `addBotMessage`: append one assistant message. */
    method AddBotMessage(text: string, options: Option<seq<string>>, card: Option<ActionCard>)
      modifies this`messages
      ensures messages == old(messages) + [BotMessage(text, options, card)]
    {
      messages := messages + [BotMessage(text, options, card)];
    }

    /** `loadModule`. */
    method LoadModule(moduleId: string)
      requires Valid()
      modifies this`currentModuleId, this`currentQuestionIndex, this`isConsultationComplete, this`messages
      ensures Valid()
      ensures Session() == LoadStep(registry, old(Session()), moduleId)
    {
      var protocol := Resolve(registry, moduleId);
      currentModuleId := Some(moduleId);
      currentQuestionIndex := 0;
      isConsultationComplete := false;
      var firstQ := protocol.questions[0];
      AddBotMessage(firstQ.text, Some(firstQ.options), None);
    }

    /** `processAnswer`, given what the interpreter returned for the user's text. */
    method ProcessAnswer(interpretedAnswer: string)
      requires Valid()
      modifies this`currentQuestionIndex, this`isConsultationComplete, this`messages
      ensures Valid()
      ensures Session() == AnswerStep(registry, old(Session()), interpretedAnswer)
      ensures old(isConsultationComplete) ==> Session() == old(Session())
      ensures IsPrefix(old(messages), messages)
    {
      if currentModuleId.None? || currentModuleId.value == "" || isConsultationComplete {
        return;
      }
      var protocol := Resolve(registry, currentModuleId.value);
      var question := protocol.questions[currentQuestionIndex];

      var found := FindRule(question.logic, interpretedAnswer);
      if found.None? {
        AddBotMessage(RepromptText, Some(question.options), None);
        return;
      }
      var rule := question.logic[found.value];

      if rule.actionType == ShowCard {
        AddBotMessage(CompleteText, None, rule.cardData);
        isConsultationComplete := true;
      } else if rule.actionType == NextQuestion {
        var nextIndex := currentQuestionIndex + 1;
        if nextIndex < |protocol.questions| {
          currentQuestionIndex := nextIndex;
          var nextQ := protocol.questions[nextIndex];
          AddBotMessage(nextQ.text, Some(nextQ.options), None);
        } else {
          AddBotMessage(StableText, None, Some(MonitorCard));
          isConsultationComplete := true;
        }
      }
    }

    /** `handleStartConsultation`: open the chat on the first selected symptom's module. */
    method HandleStartConsultation()
      requires Valid()
      modifies this`view, this`messages, this`currentModuleId, this`currentQuestionIndex, this`isConsultationComplete
      ensures Valid()
      ensures old(selectedSymptoms) == [] ==> view == old(view) && Session() == old(Session())
      ensures old(selectedSymptoms) != [] ==>
                var primary := old(selectedSymptoms)[0];
                && view == Chat
                && Session() == LoadStep(registry, old(Session()).(messages := [IntroMessage(primary.name)]), primary.code)
    {
      if |selectedSymptoms| == 0 {
        return;
      }
      var primarySymptom := selectedSymptoms[0];
      view := Chat;
      messages := [IntroMessage(primarySymptom.name)];
      LoadModule(primarySymptom.code);
    }

    /**
     `handleSendMessage`: ignore blank text; otherwise record the user's text,
     clear the input box and hand the interpreter's reading of it to the engine.
     */
    method HandleSendMessage(text: string, interpretedAnswer: string)
      requires Valid()
      modifies this`messages, this`inputText, this`currentQuestionIndex, this`isConsultationComplete
      ensures Valid()
      ensures IsBlank(text) ==> inputText == old(inputText) && Session() == old(Session())
      ensures !IsBlank(text) ==>
                && inputText == ""
                && Session() == AnswerStep(registry, old(Session()).(messages := old(messages) + [UserMessage(text)]), interpretedAnswer)
    {
      if Trim(text) == "" {
        return;
      }
      messages := messages + [UserMessage(text)];
      inputText := "";
      ProcessAnswer(interpretedAnswer);
    }

    /** `handleEndSession`: back to the first screen with everything cleared except the question index. */
    method HandleEndSession()
      requires Valid()
      modifies this`showEndSessionConfirm, this`view, this`selectedSymptoms, this`messages, this`symptomSearch
      modifies this`currentModuleId, this`isConsultationComplete
      ensures Valid()
      ensures !showEndSessionConfirm && view == TriageWizard && selectedSymptoms == [] && messages == []
      ensures symptomSearch == "" && currentModuleId == None && !isConsultationComplete
    {
      showEndSessionConfirm := false;
      view := TriageWizard;
      selectedSymptoms := [];
      messages := [];
      symptomSearch := "";
      currentModuleId := None;
      isConsultationComplete := false;
    }

    /** Any of the global emergency buttons: straight to the red screen; no module is loaded. */
    method SelectEmergencyCheck(check: EmergencyCheck)
      requires check in GlobalEmergencyChecks
      modifies this`view
      ensures view == EmergencyRed
    {
      view := EmergencyRed;
    }

    /** "NO - I do not have these symptoms". */
    method DenyEmergencies()
      modifies this`view
      ensures view == SymptomSelection
    {
      view := SymptomSelection;
    }

    /** "Restart" on the red screen. */
    method Restart()
      modifies this`view
      ensures view == TriageWizard
    {
      view := TriageWizard;
    }

    /** A symptom button on the selection screen. */
    method ToggleSymptom(name: string, code: string)
      modifies this`selectedSymptoms
      ensures selectedSymptoms == Toggle(old(selectedSymptoms), name, code)
    {
      selectedSymptoms := Toggle(selectedSymptoms, name, code);
    }

    /** The "Clear" button on the selection screen. */
    method ClearSelection()
      modifies this`selectedSymptoms
      ensures selectedSymptoms == []
    {
      selectedSymptoms := [];
    }

    /** Typing in the search box. */
    method SetSymptomSearch(search: string)
      modifies this`symptomSearch
      ensures symptomSearch == search
    {
      symptomSearch := search;
    }

    /** Typing in the chat input box. */
    method SetInputText(text: string)
      modifies this`inputText
      ensures inputText == text
    {
      inputText := text;
    }

    /** "END SESSION" opens the confirmation; "Cancel" closes it. */
    method RequestEndSession()
      modifies this`showEndSessionConfirm
      ensures showEndSessionConfirm
    {
      showEndSessionConfirm := true;
    }

    method CancelEndSession()
      modifies this`showEndSessionConfirm
      ensures !showEndSessionConfirm
    {
      showEndSessionConfirm := false;
    }

    /** The catalogue groups listed under the search box, in catalogue order. */
    function ShownGroups(): (r: seq<SymptomGroup>)
      reads this
      ensures IsBlank(symptomSearch) ==> r == SymptomGroups
      ensures !IsBlank(symptomSearch) ==> forall g :: g in r ==> |g.symptoms| > 0
      ensures !IsBlank(symptomSearch) ==>
                forall g, s :: g in r && s in g.symptoms ==> Matches(s, ToLower(symptomSearch))
      ensures Subsequence(Categories(r), Categories(SymptomGroups))
      ensures r == FilteredGroups(SymptomGroups, symptomSearch)
    {
      SearchKeepsCategoryOrder(SymptomGroups, symptomSearch);
      ShownMatchesSearch(SymptomGroups, symptomSearch);
      FilteredGroups(SymptomGroups, symptomSearch)
    }
  }
}
