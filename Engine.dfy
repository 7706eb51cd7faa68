/**
 The table-driven triage engine of App.tsx as pure step functions over the
 engine's state: the requested module id, the question index, the
 completion flag and the transcript. The class in App.dfy performs the same
 steps by updating its fields and is proved against these functions.

 The registry of protocols is an input: a map from module id to module that
 holds the reserved fallback "GENERIC" and whose modules all have at least
 one question.
 */
module TriageEngine {
  import opened Wrappers
  import opened Protocol

  const Generic: string := "GENERIC"

  const RepromptText: string := "I didn't quite catch that. Could you please select one of the options?"
  const CompleteText: string := "Assessment Complete."
  const StableText: string := "Based on your answers, your symptoms appear stable. Please monitor carefully."

  /** The card shown when a module runs out of questions without any card rule firing. */
  const MonitorCard: ActionCard :=
    ActionCard("MONITOR SYMPTOMS", "Home Care / Monitor", "As needed", "Keep an eye on symptoms.", Green)

  predicate ValidRegistry(reg: map<string, ProtocolModule>)
  {
    && Generic in reg
    && forall id :: id in reg ==> |reg[id].questions| > 0
  }

  /** `CLINICAL_PROTOCOLS[id] || CLINICAL_PROTOCOLS["GENERIC"]`. */
  function Resolve(reg: map<string, ProtocolModule>, id: string): (m: ProtocolModule)
    requires ValidRegistry(reg)
    ensures |m.questions| > 0
    ensures m in reg.Values
    ensures id in reg ==> m == reg[id]
    ensures id !in reg ==> m == reg[Generic]
  {
    if id in reg then reg[id] else reg[Generic]
  }

  /** A message from the assistant, as `addBotMessage` builds it. */
  function BotMessage(text: string, options: Option<seq<string>>, card: Option<ActionCard>): (r: Message)
    ensures r.role == Model && r.role != User
    ensures r.text == text && r.options == options && r.actionCard == card
  {
    Message(Model, text, options, card)
  }

  /** The message that asks question `q`. */
  function Ask(q: ProtocolQuestion): (r: Message)
    ensures r.role == Model && r.text == q.text
    ensures r.options == Some(q.options) && r.actionCard == None
  {
    BotMessage(q.text, Some(q.options), None)
  }

  datatype EngineState = EngineState(
    moduleId: Option<string>,
    index: nat,
    complete: bool,
    messages: seq<Message>)

  /** An answer is processed only when a module id is set, is non-empty (JavaScript truthiness), and the consultation is open. */
  predicate Active(s: EngineState)
  {
    s.moduleId.Some? && s.moduleId.value != "" && !s.complete
  }

  /** The question index addresses a question of the module the id resolves to. */
  predicate InBounds(reg: map<string, ProtocolModule>, s: EngineState)
    requires ValidRegistry(reg)
  {
    s.moduleId.Some? ==> s.index < |Resolve(reg, s.moduleId.value).questions|
  }

  function CurrentQuestion(reg: map<string, ProtocolModule>, s: EngineState): ProtocolQuestion
    requires ValidRegistry(reg) && InBounds(reg, s) && s.moduleId.Some?
  {
    Resolve(reg, s.moduleId.value).questions[s.index]
  }

  /** `xs` is an initial part of `ys`. */
  predicate IsPrefix<T(==)>(xs: seq<T>, ys: seq<T>)
  {
    |xs| <= |ys| && ys[..|xs|] == xs
  }

  /** The index of the rule `logic.find(r => r.condition === answer)` returns: the first whose condition equals the answer. */
  function FindRule(logic: seq<ProtocolLogic>, answer: string): (r: Option<nat>)
    ensures r.Some? ==> r.value < |logic| && logic[r.value].condition == answer
    ensures r.Some? ==> forall j :: 0 <= j < r.value ==> logic[j].condition != answer
    ensures r.None? <==> !HasRuleFor(logic, answer)
    decreases |logic|
  {
    if logic == [] then None
    else if logic[0].condition == answer then Some(0)
    else match FindRule(logic[1..], answer)
      case None => None
      case Some(i) => Some(i + 1)
  }

  /** `loadModule(id)`: start the module `id` resolves to, at its first question. */
  function LoadStep(reg: map<string, ProtocolModule>, s: EngineState, id: string): (r: EngineState)
    requires ValidRegistry(reg)
    ensures r.moduleId == Some(id) && r.index == 0 && !r.complete
    ensures r.messages == s.messages + [Ask(Resolve(reg, id).questions[0])]
    ensures InBounds(reg, r)
  {
    var protocol := Resolve(reg, id);
    EngineState(Some(id), 0, false, s.messages + [Ask(protocol.questions[0])])
  }

  /**
   `processAnswer` once the interpreter has returned `answer`: apply the first
   rule of the current question whose condition is `answer`.
   */
  function AnswerStep(reg: map<string, ProtocolModule>, s: EngineState, answer: string): (r: EngineState)
    requires ValidRegistry(reg) && InBounds(reg, s)
    ensures InBounds(reg, r)
    ensures !Active(s) ==> r == s
    ensures r.moduleId == s.moduleId
    ensures s.complete ==> r.complete
    ensures r.index == s.index || (r.index == s.index + 1 && !r.complete)
    ensures IsPrefix(s.messages, r.messages) && |r.messages| <= |s.messages| + 1
  {
    if !Active(s) then s
    else
      var protocol := Resolve(reg, s.moduleId.value);
      var question := protocol.questions[s.index];
      match FindRule(question.logic, answer)
      case None =>
        s.(messages := s.messages + [BotMessage(RepromptText, Some(question.options), None)])
      case Some(k) =>
        var rule := question.logic[k];
        match rule.actionType
        case ShowCard =>
          s.(messages := s.messages + [BotMessage(CompleteText, None, rule.cardData)], complete := true)
        case NextQuestion =>
          var nextIndex := s.index + 1;
          if nextIndex < |protocol.questions| then
            s.(index := nextIndex, messages := s.messages + [Ask(protocol.questions[nextIndex])])
          else
            s.(messages := s.messages + [BotMessage(StableText, None, Some(MonitorCard))], complete := true)
        case JumpModule =>
          s
  }

  /**
   Feeding the engine a sequence of interpreted answers, one turn each. Once
   the consultation is complete, no sequence of answers changes anything, not
   even the transcript.
   */
  function Run(reg: map<string, ProtocolModule>, s: EngineState, answers: seq<string>): (r: EngineState)
    requires ValidRegistry(reg) && InBounds(reg, s)
    ensures InBounds(reg, r)
    ensures r.moduleId == s.moduleId
    ensures s.complete ==> r == s
    ensures IsPrefix(s.messages, r.messages) && |r.messages| <= |s.messages| + |answers|
    decreases |answers|
  {
    if answers == [] then s
    else
      var t := AnswerStep(reg, s, answers[0]);
      var r := Run(reg, t, answers[1..]);
      assert r.messages[..|s.messages|] == r.messages[..|t.messages|][..|s.messages|];
      r
  }

  /** The questions still to be asked: zero once nothing more will be processed. */
  function Remaining(reg: map<string, ProtocolModule>, s: EngineState): nat
    requires ValidRegistry(reg) && InBounds(reg, s)
  {
    if Active(s) then |Resolve(reg, s.moduleId.value).questions| - s.index else 0
  }

  /** An answer moved the consultation: it advanced the question or ended the consultation. */
  predicate Moved(s: EngineState, t: EngineState)
  {
    t.index != s.index || t.complete != s.complete
  }

  /** How many turns of a run moved the consultation forward. */
  function Moves(reg: map<string, ProtocolModule>, s: EngineState, answers: seq<string>): nat
    requires ValidRegistry(reg) && InBounds(reg, s)
    decreases |answers|
  {
    if answers == [] then 0
    else
      var t := AnswerStep(reg, s, answers[0]);
      (if Moved(s, t) then 1 else 0) + Moves(reg, t, answers[1..])
  }

  /**
   Bounded, guaranteed conclusion within one module: however the answers
   fall, at most `Remaining` turns move the consultation, and once that many
   have, it is complete.
   */
  lemma {:induction false} MovesBounded(reg: map<string, ProtocolModule>, s: EngineState, answers: seq<string>)
    requires ValidRegistry(reg) && InBounds(reg, s)
    ensures Moves(reg, s, answers) <= Remaining(reg, s)
    ensures Active(s) && Moves(reg, s, answers) == Remaining(reg, s) ==> Run(reg, s, answers).complete
    decreases |answers|
  {
    if answers != [] {
      var t := AnswerStep(reg, s, answers[0]);
      MovesBounded(reg, t, answers[1..]);
      if Moved(s, t) && !t.complete {
        assert Remaining(reg, t) == Remaining(reg, s) - 1;
      }
    }
  }

  /** No rule matches: the same question's options are offered again and nothing else changes. */
  lemma NoRuleReprompts(reg: map<string, ProtocolModule>, s: EngineState, answer: string)
    requires ValidRegistry(reg) && InBounds(reg, s) && Active(s)
    requires !HasRuleFor(CurrentQuestion(reg, s).logic, answer)
    ensures AnswerStep(reg, s, answer)
         == s.(messages := s.messages + [BotMessage(RepromptText, Some(CurrentQuestion(reg, s).options), None)])
  {
  }

  /** A matched SHOW_CARD rule ends the consultation with the rule's card; the index stays. */
  lemma ShowCardConcludes(reg: map<string, ProtocolModule>, s: EngineState, answer: string)
    requires ValidRegistry(reg) && InBounds(reg, s) && Active(s)
    requires FindRule(CurrentQuestion(reg, s).logic, answer).Some?
    requires CurrentQuestion(reg, s).logic[FindRule(CurrentQuestion(reg, s).logic, answer).value].actionType == ShowCard
    ensures var rule := CurrentQuestion(reg, s).logic[FindRule(CurrentQuestion(reg, s).logic, answer).value];
            var r := AnswerStep(reg, s, answer);
            && r.complete && r.index == s.index && r.moduleId == s.moduleId
            && r.messages == s.messages + [BotMessage(CompleteText, None, rule.cardData)]
            && (CardPresent(rule) ==> r.messages[|s.messages|].actionCard.Some?)
  {
  }

  /** A matched NEXT_QUESTION rule before the last question asks the following one. */
  lemma NextQuestionAdvances(reg: map<string, ProtocolModule>, s: EngineState, answer: string)
    requires ValidRegistry(reg) && InBounds(reg, s) && Active(s)
    requires FindRule(CurrentQuestion(reg, s).logic, answer).Some?
    requires CurrentQuestion(reg, s).logic[FindRule(CurrentQuestion(reg, s).logic, answer).value].actionType == NextQuestion
    requires s.index + 1 < |Resolve(reg, s.moduleId.value).questions|
    ensures var r := AnswerStep(reg, s, answer);
            && r.index == s.index + 1 && !r.complete && r.moduleId == s.moduleId
            && r.messages == s.messages + [Ask(CurrentQuestion(reg, r))]
  {
  }

  /** A matched NEXT_QUESTION rule on the last question ends with the fixed GREEN monitor card. */
  lemma LastQuestionMonitors(reg: map<string, ProtocolModule>, s: EngineState, answer: string)
    requires ValidRegistry(reg) && InBounds(reg, s) && Active(s)
    requires FindRule(CurrentQuestion(reg, s).logic, answer).Some?
    requires CurrentQuestion(reg, s).logic[FindRule(CurrentQuestion(reg, s).logic, answer).value].actionType == NextQuestion
    requires s.index + 1 == |Resolve(reg, s.moduleId.value).questions|
    ensures var r := AnswerStep(reg, s, answer);
            && r.complete && r.index == s.index && r.moduleId == s.moduleId
            && r.messages == s.messages + [BotMessage(StableText, None, Some(MonitorCard))]
            && MonitorCard.level == Green
  {
  }

  /** A matched JUMP_MODULE rule has no branch: no state changes and no message appears. */
  lemma JumpModuleIsInert(reg: map<string, ProtocolModule>, s: EngineState, answer: string)
    requires ValidRegistry(reg) && InBounds(reg, s) && Active(s)
    requires FindRule(CurrentQuestion(reg, s).logic, answer).Some?
    requires CurrentQuestion(reg, s).logic[FindRule(CurrentQuestion(reg, s).logic, answer).value].actionType == JumpModule
    ensures AnswerStep(reg, s, answer) == s
  {
  }

  /** When every option has a rule and the interpreter returns one of the options, the engine never re-prompts. */
  lemma CoveredOptionIsNeverReprompted(reg: map<string, ProtocolModule>, s: EngineState, answer: string)
    requires ValidRegistry(reg) && InBounds(reg, s) && Active(s)
    requires OptionsCovered(CurrentQuestion(reg, s)) && answer in CurrentQuestion(reg, s).options
    ensures AnswerStep(reg, s, answer)
         != s.(messages := s.messages + [BotMessage(RepromptText, Some(CurrentQuestion(reg, s).options), None)])
  {
    var k := FindRule(CurrentQuestion(reg, s).logic, answer);
    assert k.Some?;
  }

  /**
   An id absent from the registry keeps being answered by the GENERIC
   protocol on every turn, while the state keeps the raw id.
   */
  lemma UnknownIdAnswersAsGeneric(reg: map<string, ProtocolModule>, s: EngineState, answer: string)
    requires ValidRegistry(reg) && InBounds(reg, s)
    requires s.moduleId.Some? && s.moduleId.value !in reg && s.moduleId.value != ""
    ensures InBounds(reg, s.(moduleId := Some(Generic)))
    ensures AnswerStep(reg, s, answer)
         == AnswerStep(reg, s.(moduleId := Some(Generic)), answer).(moduleId := s.moduleId)
  {
  }

  /** Loading an id absent from the registry asks GENERIC's first question but records the raw id. */
  lemma UnknownIdLoadsGeneric(reg: map<string, ProtocolModule>, s: EngineState, id: string)
    requires ValidRegistry(reg) && id !in reg
    ensures LoadStep(reg, s, id).messages == s.messages + [Ask(reg[Generic].questions[0])]
    ensures LoadStep(reg, s, id).moduleId == Some(id)
  {
  }

  /** Loading a registered id asks that module's own first question. */
  lemma KnownIdLoadsItsModule(reg: map<string, ProtocolModule>, s: EngineState, id: string)
    requires ValidRegistry(reg) && id in reg
    ensures LoadStep(reg, s, id).messages == s.messages + [Ask(reg[id].questions[0])]
    ensures LoadStep(reg, s, id).moduleId == Some(id)
  {
  }

  /** With a registered id, every turn reads the question of that module at the current index. */
  lemma KnownIdAnswersFromItsModule(reg: map<string, ProtocolModule>, s: EngineState)
    requires ValidRegistry(reg) && InBounds(reg, s)
    requires s.moduleId.Some? && s.moduleId.value in reg
    ensures s.index < |reg[s.moduleId.value].questions|
    ensures CurrentQuestion(reg, s) == reg[s.moduleId.value].questions[s.index]
  {
  }

  /** The same registry with every rule's `targetId` erased. */
  function EraseTargets(reg: map<string, ProtocolModule>): map<string, ProtocolModule>
  {
    map id | id in reg :: EraseModule(reg[id])
  }

  function EraseModule(m: ProtocolModule): ProtocolModule
  {
    m.(questions := seq(|m.questions|, i requires 0 <= i < |m.questions| => EraseQuestion(m.questions[i])))
  }

  function EraseQuestion(q: ProtocolQuestion): ProtocolQuestion
  {
    q.(logic := seq(|q.logic|, i requires 0 <= i < |q.logic| => q.logic[i].(targetId := None)))
  }

  lemma FindRuleIgnoresTargets(q: ProtocolQuestion, answer: string)
    ensures FindRule(EraseQuestion(q).logic, answer) == FindRule(q.logic, answer)
  {
    var e := EraseQuestion(q).logic;
    assert forall j :: 0 <= j < |q.logic| ==> e[j].condition == q.logic[j].condition;
    var a, b := FindRule(e, answer), FindRule(q.logic, answer);
    if a.Some? && b.Some? {
      assert !(a.value < b.value) && !(b.value < a.value);
    }
  }

  /** The engine never reads `targetId`: erasing every target leaves each turn's outcome unchanged. */
  lemma TargetIdIgnored(reg: map<string, ProtocolModule>, s: EngineState, answer: string)
    requires ValidRegistry(reg) && InBounds(reg, s)
    ensures ValidRegistry(EraseTargets(reg)) && InBounds(EraseTargets(reg), s)
    ensures AnswerStep(EraseTargets(reg), s, answer) == AnswerStep(reg, s, answer)
  {
    var ereg := EraseTargets(reg);
    assert Generic in ereg;
    if s.moduleId.Some? {
      var id := s.moduleId.value;
      assert Resolve(ereg, id) == EraseModule(Resolve(reg, id));
      if Active(s) {
        var q := Resolve(reg, id).questions[s.index];
        assert Resolve(ereg, id).questions[s.index] == EraseQuestion(q);
        FindRuleIgnoresTargets(q, answer);
      }
    }
  }
}
