/**
 The protocol data of the strict-protocol triage mode: action cards, the
 logic rules attached to a question, questions, modules, and the chat
 transcript's messages. Each TypeScript string-literal union becomes an
 enumeration. The two that the protocol data spells out, the urgency level
 and the action type, also get their spelling and a parser, so that "a level
 is exactly one of RED, AMBER, YELLOW, GREEN" is a proved fact rather than a
 convention; the message role is never parsed and stays a plain enumeration.
 */
module Protocol {
  import opened Wrappers

  /** Severity of an action card. */
  datatype Level = Red | Amber | Yellow | Green

  function LevelName(l: Level): string
  {
    match l
    case Red => "RED"
    case Amber => "AMBER"
    case Yellow => "YELLOW"
    case Green => "GREEN"
  }

  /** Reads a `level` string; exactly the four spellings are accepted, each as its own level. */
  function ParseLevel(s: string): (r: Option<Level>)
    ensures r.Some? ==> LevelName(r.value) == s
    ensures r.None? ==> forall l: Level :: LevelName(l) != s
  {
    if s == "RED" then Some(Red)
    else if s == "AMBER" then Some(Amber)
    else if s == "YELLOW" then Some(Yellow)
    else if s == "GREEN" then Some(Green)
    else None
  }

  /** Every level is named by exactly one string, and the parser reads it back. */
  lemma LevelNameRoundTrip(l: Level, m: Level)
    ensures ParseLevel(LevelName(l)) == Some(l)
    ensures LevelName(l) == LevelName(m) ==> l == m
  {
  }

  /** What a matched rule does. */
  datatype ActionType = NextQuestion | JumpModule | ShowCard

  function ActionTypeName(a: ActionType): string
  {
    match a
    case NextQuestion => "NEXT_QUESTION"
    case JumpModule => "JUMP_MODULE"
    case ShowCard => "SHOW_CARD"
  }

  /** Reads an `actionType` string; exactly the three spellings are accepted. */
  function ParseActionType(s: string): (r: Option<ActionType>)
    ensures r.Some? ==> ActionTypeName(r.value) == s
    ensures r.None? ==> forall a: ActionType :: ActionTypeName(a) != s
  {
    if s == "NEXT_QUESTION" then Some(NextQuestion)
    else if s == "JUMP_MODULE" then Some(JumpModule)
    else if s == "SHOW_CARD" then Some(ShowCard)
    else None
  }

  lemma ActionTypeNameRoundTrip(a: ActionType, b: ActionType)
    ensures ParseActionType(ActionTypeName(a)) == Some(a)
    ensures ActionTypeName(a) == ActionTypeName(b) ==> a == b
  {
  }

  /** The recommendation shown when the consultation ends. */
  datatype ActionCard = ActionCard(title: string, action: string, timing: string, script: string, level: Level)

  /**
   One rule of a question: when the interpreted answer equals `condition`,
   perform `actionType`. `targetId` names a next question or module but is
   never read by the engine; `cardData` is the card a SHOW_CARD rule shows.
   */
  datatype ProtocolLogic = ProtocolLogic(
    condition: string,
    actionType: ActionType,
    targetId: Option<string>,
    cardData: Option<ActionCard>)

  /** The convention of the `cardData` field: a SHOW_CARD rule carries its card. */
  predicate CardPresent(rule: ProtocolLogic)
  {
    rule.actionType == ShowCard ==> rule.cardData.Some?
  }

  /** A question: the prompt, the options offered in order, and the rules consulted in order. */
  datatype ProtocolQuestion = ProtocolQuestion(
    id: string,
    text: string,
    options: seq<string>,
    logic: seq<ProtocolLogic>)

  /** Some rule of `logic` is keyed by exactly `answer`. */
  predicate HasRuleFor(logic: seq<ProtocolLogic>, answer: string)
  {
    exists i :: 0 <= i < |logic| && logic[i].condition == answer
  }

  /** The completeness the authors expect but nothing checks: every offered option has a rule. */
  predicate OptionsCovered(q: ProtocolQuestion)
  {
    forall o :: o in q.options ==> HasRuleFor(q.logic, o)
  }

  /** A symptom module: an ordered list of questions. */
  datatype ProtocolModule = ProtocolModule(id: string, name: string, questions: seq<ProtocolQuestion>)

  datatype Role = User | Model | System

  /** One entry of the transcript; `options` and `actionCard` are absent unless given. */
  datatype Message = Message(
    role: Role,
    text: string,
    options: Option<seq<string>>,
    actionCard: Option<ActionCard>)

  /** The chat-state record declared alongside the protocol types. */
  datatype ChatState = ChatState(
    messages: seq<Message>,
    isLoading: bool,
    currentModuleId: Option<string>,
    currentQuestionIndex: nat)
}
