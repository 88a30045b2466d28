/**
 * The conversation history kept by the assistant: an ordered log of role-tagged
 * messages that starts with one fixed system message.
 */
module Conversation {

  datatype Role = System | User | Assistant

  datatype Message = Message(role: Role, content: string)

  /** The system prompt installed at construction and on every clear. */
  const SystemPrompt: string :=
    "You are a helpful terminal assistant. Provide clear, concise responses focused on programming and technical help."

  const SystemMessage: Message := Message(System, SystemPrompt)

  /**
   * The shape every history has between two operations: the system message at
   * index 0 and nowhere else, and every assistant message directly after a user
   * message. Two user messages in a row are allowed: a failed turn leaves its
   * user message behind without an answer.
   */
  ghost predicate WellFormedHistory(h: seq<Message>)
  {
    && |h| >= 1
    && h[0] == SystemMessage
    && (forall i :: 1 <= i < |h| ==> h[i].role != System)
    && (forall i :: 1 <= i < |h| && h[i].role == Assistant ==> h[i - 1].role == User)
  }

  /** The same shape for the messages after the system message. */
  ghost predicate WellFormedLog(log: seq<Message>)
  {
    && (forall i :: 0 <= i < |log| ==> log[i].role != System)
    && (forall i :: 0 <= i < |log| && log[i].role == Assistant ==> 0 < i && log[i - 1].role == User)
  }

  lemma WellFormedHistoryLog(h: seq<Message>)
    requires |h| >= 1 && h[0] == SystemMessage
    ensures WellFormedHistory(h) <==> WellFormedLog(h[1..])
  {
    var log := h[1..];
    if WellFormedHistory(h) {
      forall i | 0 <= i < |log| && log[i].role == Assistant
        ensures 0 < i && log[i - 1].role == User
      {
        assert h[i + 1] == log[i];
      }
    }
    if WellFormedLog(log) {
      forall i | 1 <= i < |h| && h[i].role == Assistant
        ensures h[i - 1].role == User
      {
        assert h[i] == log[i - 1];
      }
    }
  }

  /** One turn as the history records it: a question that was answered, or one whose exchange failed. */
  datatype Turn = Answered(question: string, reply: string) | Unanswered(question: string)

  function TurnMessages(t: Turn): seq<Message>
  {
    match t
    case Answered(q, a) => [Message(User, q), Message(Assistant, a)]
    case Unanswered(q) => [Message(User, q)]
  }

  /** The messages a sequence of turns leaves after the system message. */
  function TurnLog(turns: seq<Turn>): seq<Message>
  {
    if turns == [] then [] else TurnLog(turns[..|turns| - 1]) + TurnMessages(turns[|turns| - 1])
  }

  /** The history after the given turns, starting from a fresh or cleared conversation. */
  function Transcript(turns: seq<Turn>): seq<Message>
  {
    [SystemMessage] + TurnLog(turns)
  }

  function CountAnswered(turns: seq<Turn>): nat
  {
    if turns == [] then 0
    else CountAnswered(turns[..|turns| - 1]) + (if turns[|turns| - 1].Answered? then 1 else 0)
  }

  /** Appending one turn to a well-formed history keeps it well-formed. */
  lemma AppendTurnWellFormed(h: seq<Message>, t: Turn)
    requires WellFormedHistory(h)
    ensures WellFormedHistory(h + TurnMessages(t))
  {
    var h' := h + TurnMessages(t);
    forall i | 1 <= i < |h'| && h'[i].role == Assistant
      ensures h'[i - 1].role == User
    {
      if i >= |h| {
        assert t.Answered? && i == |h| + 1;
      }
    }
  }

  /** Every history built from turns is well-formed, and its length counts two messages per answered turn. */
  lemma {:induction false} TranscriptWellFormed(turns: seq<Turn>)
    ensures WellFormedHistory(Transcript(turns))
    ensures |Transcript(turns)| == 1 + |turns| + CountAnswered(turns)
  {
    if turns != [] {
      var init := turns[..|turns| - 1];
      TranscriptWellFormed(init);
      assert Transcript(turns) == Transcript(init) + TurnMessages(turns[|turns| - 1]);
      AppendTurnWellFormed(Transcript(init), turns[|turns| - 1]);
    }
  }

  /**
   * After N answered turns the history holds 2N messages beyond the system
   * message, alternating user, assistant, user, assistant, ... from index 1.
   */
  lemma {:induction false} AnsweredTurnsAlternate(turns: seq<Turn>)
    requires forall k :: 0 <= k < |turns| ==> turns[k].Answered?
    ensures |Transcript(turns)| == 1 + 2 * |turns|
    ensures forall k :: 0 <= k < |turns| ==>
      && Transcript(turns)[2 * k + 1] == Message(User, turns[k].question)
      && Transcript(turns)[2 * k + 2] == Message(Assistant, turns[k].reply)
  {
    if turns != [] {
      var init, t := turns[..|turns| - 1], turns[|turns| - 1];
      AnsweredTurnsAlternate(init);
      var h := Transcript(turns);
      assert h == Transcript(init) + TurnMessages(t);
      forall k | 0 <= k < |turns|
        ensures h[2 * k + 1] == Message(User, turns[k].question)
        ensures h[2 * k + 2] == Message(Assistant, turns[k].reply)
      {
        if k < |init| {
          assert turns[k] == init[k];
        }
      }
    }
  }

  /** Reads the messages after the system message back as the turns that produced them. */
  function TurnsOf(log: seq<Message>): seq<Turn>
  {
    if log == [] then []
    else
      var last := log[|log| - 1];
      if last.role == Assistant && |log| >= 2 then
        TurnsOf(log[..|log| - 2]) + [Answered(log[|log| - 2].content, last.content)]
      else
        TurnsOf(log[..|log| - 1]) + [Unanswered(last.content)]
  }

  /** Turns recorded in the history are read back unchanged. */
  lemma {:induction false} TurnsOfTurnLog(turns: seq<Turn>)
    ensures TurnsOf(TurnLog(turns)) == turns
  {
    if turns != [] {
      var init, t := turns[..|turns| - 1], turns[|turns| - 1];
      var log := TurnLog(turns);
      assert log == TurnLog(init) + TurnMessages(t);
      TurnsOfTurnLog(init);
      match t
      case Answered(q, a) =>
        assert log[..|log| - 2] == TurnLog(init);
      case Unanswered(q) =>
        assert log[..|log| - 1] == TurnLog(init);
    }
    assert turns == [] ==> TurnLog(turns) == [];
  }

  /** A prefix of a well-formed log is well-formed. */
  lemma WellFormedLogPrefix(log: seq<Message>, k: nat)
    requires WellFormedLog(log) && k <= |log|
    ensures WellFormedLog(log[..k])
  {
    var init := log[..k];
    forall i | 0 <= i < |init| && init[i].role == Assistant
      ensures 0 < i && init[i - 1].role == User
    {
      assert init[i] == log[i] && (0 < i ==> init[i - 1] == log[i - 1]);
    }
  }

  lemma TurnLogSnoc(turns: seq<Turn>, t: Turn)
    ensures TurnLog(turns + [t]) == TurnLog(turns) + TurnMessages(t)
  {
    assert (turns + [t])[..|turns|] == turns;
  }

  /** Where the last turn of a non-empty log starts. */
  function LastTurnStart(log: seq<Message>): nat
    requires log != []
  {
    if log[|log| - 1].role == Assistant && |log| >= 2 then |log| - 2 else |log| - 1
  }

  /** Reading the last turn of a well-formed log gives back exactly its last messages. */
  lemma LastTurn(log: seq<Message>)
    requires WellFormedLog(log) && log != []
    ensures var k := LastTurnStart(log);
      && TurnsOf(log)[..|TurnsOf(log)| - 1] == TurnsOf(log[..k])
      && TurnMessages(TurnsOf(log)[|TurnsOf(log)| - 1]) == log[k..]
  {
    var n := |log|;
    if log[n - 1].role == Assistant && n >= 2 {
      assert log[n - 2].role == User;
      assert log[n - 2..] == [log[n - 2], log[n - 1]];
    } else {
      assert log[n - 1].role == User;
      assert log[n - 1..] == [log[n - 1]];
    }
  }

  /** Every well-formed log is the record of the turns read from it. */
  lemma {:induction false} TurnLogTurnsOf(log: seq<Message>)
    requires WellFormedLog(log)
    ensures TurnLog(TurnsOf(log)) == log
    decreases |log|
  {
    if log != [] {
      var k := LastTurnStart(log);
      var ts := TurnsOf(log);
      var t := ts[|ts| - 1];
      WellFormedLogPrefix(log, k);
      TurnLogTurnsOf(log[..k]);
      LastTurn(log);
      assert ts == TurnsOf(log[..k]) + [t];
      TurnLogSnoc(TurnsOf(log[..k]), t);
      assert log == log[..k] + log[k..];
    }
  }

  /**
   * The well-formed histories are exactly the transcripts: every history the
   * assistant can hold is the system message followed by the record of its turns.
   */
  lemma HistoryIsTranscript(h: seq<Message>)
    requires WellFormedHistory(h)
    ensures Transcript(TurnsOf(h[1..])) == h
  {
    WellFormedHistoryLog(h);
    TurnLogTurnsOf(h[1..]);
  }
}
