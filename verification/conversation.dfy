/**
 * The chat page's conversation state and its transitions: the seeded
 * greeting, editing the draft, pressing send (guarded by a non-blank draft),
 * and the settlement of each request, which either overwrites the last turn
 * with the reply or appends an error turn. Requests are not serialised: any
 * number may be in flight, and each settlement acts on whatever turn is last
 * at that moment.
 */
module Conversation {
  import opened JsValue
  import opened Options
  import opened Transport
  import opened Text

  datatype Role = User | Assistant

  /** One message of the thread; `content` is whatever JavaScript value was stored. */
  datatype Turn = Turn(role: Role, content: Json)

  /**
   * The page state: the thread, the input draft, and the number of sends
   * whose request has not yet settled (their pending continuations).
   */
  datatype State = State(turns: seq<Turn>, draft: string, inFlight: nat)

  const Greeting := "Hi! I'm your personal assistant. How can I help you today?"
  const SorryReply := "I'm sorry, can I help with something else?"
  const ErrorReply := "There was an error. Please try again later."

  /** The instruction template around the user's text in the outgoing prompt. */
  const PromptHead := "You are a helpful, knowledgeable assistant designed to support users navigating a platform focused on education, mentorship, and community building. The user asked: \""
  const PromptTail := "\". Your response should be:\n                    - Friendly and conversational, making users feel welcome and supported, especially within a learning and mentorship context.\n                    - Clear, concise, and direct, providing actionable guidance and helpful suggestions related to platform features (such as community forums, mentorship programs, resources, events, etc.).\n                    - Empathetic and personalized, especially for users who may need extra support, such as students or mentees.\n                    - Focused on providing resources, next steps, or pointing users to relevant areas of the platform (e.g., profile management, resource library, event registration, mentor matching).\n                    - Engaging and motivating, encouraging users to take full advantage of platform features without being overly formal or corporate.\n                    - Adaptable to different user needs, whether a mentor, student, or administrator.\n\n                    Provide an informative yet supportive response that helps users engage with the platform effectively and encourages their involvement in the community."

  const GreetingTurn := Turn(Assistant, JStr(Greeting))
  const Placeholder := Turn(Assistant, JStr(""))
  const ErrorTurn := Turn(Assistant, JStr(ErrorReply))

  /** The state the page mounts with: the greeting alone, an empty draft, nothing pending. */
  function Init(): (s: State)
    ensures s.turns == [GreetingTurn] && s.draft == "" && s.inFlight == 0
  {
    State([GreetingTurn], "", 0)
  }

  /** Typing into the input field replaces the draft and nothing else. */
  function Edit(s: State, text: string): (s': State)
    ensures s'.draft == text && s'.turns == s.turns && s'.inFlight == s.inFlight
  {
    s.(draft := text)
  }

  /** `message.trim()` is truthy: the send guard, and the condition under which the send button is enabled. */
  function CanSend(draft: string): (b: bool)
    ensures b <==> exists i :: 0 <= i < |draft| && !IsWhitespace(draft[i])
  {
    !IsBlank(draft)
  }

  /** The outgoing prompt: the raw, untrimmed draft inside the instruction template. */
  function Prompt(draft: string): (p: string)
    ensures |p| == |PromptHead| + |draft| + |PromptTail|
    ensures p[..|PromptHead|] == PromptHead
    ensures p[|PromptHead|..|PromptHead| + |draft|] == draft
    ensures p[|PromptHead| + |draft|..] == PromptTail
  {
    PromptHead + draft + PromptTail
  }

  /** Recovers the user's text from a prompt, when the prompt has the template's shape. */
  function UserText(p: string): Option<string> {
    if |p| >= |PromptHead| + |PromptTail| && p[..|PromptHead|] == PromptHead
      && p[|p| - |PromptTail|..] == PromptTail
    then Some(p[|PromptHead|..|p| - |PromptTail|])
    else None
  }

  /** The template embeds the draft verbatim: `UserText` inverts `Prompt`, in both directions. */
  lemma PromptRoundTrip(draft: string, p: string)
    ensures UserText(Prompt(draft)) == Some(draft)
    ensures UserText(p) == Some(draft) ==> Prompt(draft) == p
  {
    if UserText(p) == Some(draft) {
      assert p == p[..|PromptHead|] + p[|PromptHead|..|p| - |PromptTail|] + p[|p| - |PromptTail|..];
    }
  }

  /**
   * `sendMessage`, up to its `await`: with a blank draft nothing happens;
   * otherwise the draft is cleared and the untrimmed user turn and an empty
   * assistant placeholder are appended after an unchanged prefix.
   */
  function Send(s: State): (s': State)
    ensures s' == s <==> forall i :: 0 <= i < |s.draft| ==> IsWhitespace(s.draft[i])
    ensures s' != s ==>
      && s'.draft == ""
      && |s'.turns| == |s.turns| + 2
      && s'.turns[..|s.turns|] == s.turns
      && s'.turns[|s.turns|] == Turn(User, JStr(s.draft))
      && s'.turns[|s.turns| + 1] == Placeholder
      && s'.inFlight == s.inFlight + 1
  {
    if CanSend(s.draft) then
      State(s.turns + [Turn(User, JStr(s.draft)), Placeholder], "", s.inFlight + 1)
    else
      s
  }

  /**
   * The prompt of the request `sendMessage` issues: none for a blank draft,
   * and otherwise one from which the draft is recovered verbatim.
   */
  function Request(s: State): (p: Option<string>)
    ensures p.Some? <==> Send(s) != s
    ensures p.Some? ==> UserText(p.value) == Some(s.draft)
  {
    if CanSend(s.draft) then
      PromptRoundTrip(s.draft, "");
      Some(Prompt(s.draft))
    else
      None
  }

  /** How the page reads a settled request. */
  datatype Settlement = Write(content: Json) | Fail

  /**
   * The page's reading of a settled fetch. The status is never inspected.
   * A rejected fetch, a body that is not JSON, or a `null` body (reading
   * `.content` of it throws) fails; otherwise `data.content` is written when
   * truthy and the apology otherwise, so what is written is never falsy.
   */
  function Settle(o: FetchOutcome): (st: Settlement)
    ensures st.Fail? <==> ParsedBody(o).None? || ParsedBody(o).value == JNull
    ensures st.Write? ==> Truthy(st.content)
    ensures st.Write? && TruthyField(ParsedBody(o).value, "content")
      ==> st.content == ParsedBody(o).value.fields["content"]
    ensures st.Write? && !TruthyField(ParsedBody(o).value, "content")
      ==> st.content == JStr(SorryReply)
  {
    match o
    case NetworkError => Fail
    case Received(response) =>
      match response.body
      case None => Fail
      case Some(data) =>
        var content := Get(data, "content");
        if content.TypeError? then Fail
        else Write(if LookupTruthy(content) then content.value else JStr(SorryReply))
  }

  /** The page's reading of a response depends only on its body, never on its status. */
  lemma SettleIgnoresStatus(a: Response, b: Response)
    requires a.body == b.body
    ensures Settle(Received(a)) == Settle(Received(b))
  {
  }

  /**
   * A request settles: on success the last turn — whichever it is now — gets
   * the written content and keeps its role, with the length and every other
   * turn unchanged; on failure one error turn is appended and every earlier
   * turn, the empty placeholder included, stays as it was.
   */
  function Complete(s: State, o: FetchOutcome): (s': State)
    requires s.inFlight > 0 && |s.turns| > 0
    ensures s'.draft == s.draft && s'.inFlight == s.inFlight - 1
    ensures Settle(o).Write? ==>
      && |s'.turns| == |s.turns|
      && (forall i :: 0 <= i < |s.turns| - 1 ==> s'.turns[i] == s.turns[i])
      && s'.turns[|s.turns| - 1].role == s.turns[|s.turns| - 1].role
      && s'.turns[|s.turns| - 1].content == Settle(o).content
    ensures Settle(o).Fail? ==>
      && |s'.turns| == |s.turns| + 1
      && s'.turns[..|s.turns|] == s.turns
      && s'.turns[|s.turns|] == ErrorTurn
  {
    var last := |s.turns| - 1;
    match Settle(o)
    case Write(c) => s.(turns := s.turns[last := s.turns[last].(content := c)], inFlight := s.inFlight - 1)
    case Fail => s.(turns := s.turns + [ErrorTurn], inFlight := s.inFlight - 1)
  }

  /** A send that succeeds leaves the user turn followed by the reply. */
  lemma SendThenWrite(s: State, o: FetchOutcome)
    requires CanSend(s.draft) && Settle(o).Write?
    ensures Complete(Send(s), o).turns == s.turns + [Turn(User, JStr(s.draft)), Turn(Assistant, Settle(o).content)]
  {
    var mid := Send(s);
    var fin := Complete(mid, o);
    assert fin.turns[..|s.turns|] == mid.turns[..|s.turns|];
  }

  /** A send that fails keeps the empty placeholder and appends the error turn after it. */
  lemma SendThenFail(s: State, o: FetchOutcome)
    requires CanSend(s.draft) && Settle(o).Fail?
    ensures Complete(Send(s), o).turns == s.turns + [Turn(User, JStr(s.draft)), Placeholder, ErrorTurn]
  {
  }

  /** The events the page reacts to: typing, pressing send, and one pending request settling. */
  datatype Event = Type(text: string) | Press | Settled(outcome: FetchOutcome)

  /** One event. A settlement with nothing pending has no continuation to run and changes nothing. */
  function Step(s: State, e: Event): (s': State)
    ensures |s'.turns| >= |s.turns|
    ensures |s.turns| > 0 ==> s'.turns[..|s.turns| - 1] == s.turns[..|s.turns| - 1]
    ensures e.Type? ==> s' == s.(draft := e.text)
    ensures e.Settled? && s.inFlight == 0 ==> s' == s
  {
    match e
    case Type(text) => Edit(s, text)
    case Press => Send(s)
    case Settled(o) => if s.inFlight > 0 && |s.turns| > 0 then Complete(s, o) else s
  }

  /** The state after a sequence of events, starting from `Init`. */
  function Run(events: seq<Event>): State
    decreases |events|
  {
    if |events| == 0 then Init() else Step(Run(events[..|events| - 1]), events[|events| - 1])
  }

  /** Each user turn holds a non-blank string and is directly followed by an assistant turn. */
  predicate UserTurnOk(turns: seq<Turn>, i: int)
    requires 0 <= i < |turns|
  {
    i + 1 < |turns| && turns[i + 1].role == Assistant && turns[i].content.JStr? && CanSend(turns[i].content.s)
  }

  /**
   * What holds of every reachable state: the greeting is first, the last
   * turn is an assistant's, a pending request implies a send has happened,
   * and every user turn is well formed.
   */
  predicate Inv(s: State) {
    && |s.turns| >= 1
    && s.turns[0] == GreetingTurn
    && s.turns[|s.turns| - 1].role == Assistant
    && (s.inFlight > 0 ==> |s.turns| >= 3)
    && forall i :: 0 <= i < |s.turns| && s.turns[i].role == User ==> UserTurnOk(s.turns, i)
  }

  /** Pressing send preserves the invariant. */
  lemma SendPreservesInv(s: State)
    requires Inv(s)
    ensures Inv(Send(s))
  {
    var s' := Send(s);
    if s' != s {
      var n := |s.turns|;
      forall i | 0 <= i < |s'.turns| && s'.turns[i].role == User
        ensures UserTurnOk(s'.turns, i)
      {
        if i < n {
          assert s'.turns[i] == s.turns[i];
          assert UserTurnOk(s.turns, i);
        }
      }
    }
  }

  /** A settlement preserves the invariant and alters no turn but the last. */
  lemma CompletePreservesInv(s: State, o: FetchOutcome)
    requires Inv(s) && s.inFlight > 0
    ensures Inv(Complete(s, o))
  {
    var s' := Complete(s, o);
    var n := |s.turns|;
    forall i | 0 <= i < |s'.turns| && s'.turns[i].role == User
      ensures UserTurnOk(s'.turns, i)
    {
      assert i < n - 1;
      assert s'.turns[i] == s.turns[i];
      assert UserTurnOk(s.turns, i);
    }
  }

  /** Every event preserves the invariant, keeps all turns but the last, and never shrinks the thread. */
  lemma StepPreservesInv(s: State, e: Event)
    requires Inv(s)
    ensures Inv(Step(s, e))
    ensures |Step(s, e).turns| >= |s.turns|
    ensures Step(s, e).turns[..|s.turns| - 1] == s.turns[..|s.turns| - 1]
  {
    var n := |s.turns|;
    match e
    case Type(_) =>
    case Press =>
      SendPreservesInv(s);
      assert Send(s).turns[..n - 1] == s.turns[..n - 1];
    case Settled(o) =>
      if s.inFlight > 0 {
        CompletePreservesInv(s, o);
        assert Complete(s, o).turns[..n - 1] == s.turns[..n - 1];
      }
  }

  /** Every reachable state satisfies the invariant. */
  lemma {:induction false} RunInv(events: seq<Event>)
    ensures Inv(Run(events))
    decreases |events|
  {
    if |events| > 0 {
      RunInv(events[..|events| - 1]);
      StepPreservesInv(Run(events[..|events| - 1]), events[|events| - 1]);
    }
  }

  /** The greeting is never overwritten, however sends and settlements interleave. */
  lemma GreetingPersists(events: seq<Event>)
    ensures |Run(events).turns| >= 1 && Run(events).turns[0] == GreetingTurn
  {
    RunInv(events);
  }

  /** In a reachable state a settlement never writes into a user turn or into the greeting. */
  lemma SettlementTargetsAssistantReply(events: seq<Event>, o: FetchOutcome)
    requires Run(events).inFlight > 0
    ensures |Run(events).turns| >= 3
    ensures Run(events).turns[|Run(events).turns| - 1].role == Assistant
    ensures Complete(Run(events), o).turns[0] == GreetingTurn
  {
    RunInv(events);
    var s := Run(events);
    var s' := Complete(s, o);
    assert s'.turns[0] == s.turns[0];
  }
}
