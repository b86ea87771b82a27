/** The Streamlit session of the second iteration: every turn shows the prompt
    and the answer, but records them in the conversation history only when the
    response is signed by a chain that should be remembered; after a FAQ turn
    the history is cut to its last 10 messages. The history is the same
    `ChatHistory` as the chatbot's; the chain's response is a parameter. */
module Session {
  import opened Wrappers
  import opened Documents
  import opened PyStr
  import History
  import Chains
  import ChatbotSession

  type Shown = ChatbotSession.Shown

  /** The FAQ branch keeps at most this many history messages. */
  const FaqHistoryCap := 10

  /** `signature and signature != excluded`, for `signature = response.get('signature', None)`. */
  predicate Recorded(signature: Option<string>, excluded: string) {
    signature.Some? && signature.value != "" && signature.value != excluded
  }

  /** Which answers reach the history: after a typed prompt, every chain's
      answer (no chain is named `NegativeChain`); after a FAQ button, every
      answer except the conversational chain's; never the `{}` returned after a
      handled error. */
  lemma RecordingGate(d: Chains.Dispatch, answer: string)
    ensures Recorded(Chains.Respond(d, answer).signature, "NegativeChain")
    ensures Recorded(Chains.Respond(d, answer).signature, "ConversationalChain") <==> d.chain != Chains.ConversationalChain
    ensures !Recorded(EmptyResponse.signature, "NegativeChain") && !Recorded(EmptyResponse.signature, "ConversationalChain")
  {
    if d.chain != Chains.ConversationalChain {
      Chains.NamesDistinct(d.chain, Chains.ConversationalChain);
    }
  }

  class Session {
    var messages: seq<Shown>
    const history: History.ChatHistory

    /** `initialize_session_state` on a fresh state: no messages, a new history. */
    constructor ()
      ensures messages == [] && history.messages == [] && history.vectorizer == None
      ensures fresh(history)
    {
      messages := [];
      history := new History.ChatHistory();
    }

    /** The Clear button. */
    method Clear()
      modifies this, history
      ensures messages == [] && history.messages == [] && history.vectorizer == None
    {
      messages := [];
      history.Clear();
    }

    /** Records the prompt and the response in the history. */
    method Record(prompt: string, response: Response)
      modifies history
      ensures ChatbotSession.RecordedTurn(old(history.messages), history.messages, prompt, response)
      ensures History.MessagesOf(history.messages) ==
              old(History.MessagesOf(history.messages)) +
              [History.HumanMessage(prompt), History.AIMessage(response.answer.GetOr(""))]
      ensures history.vectorizer == old(history.vectorizer)
    {
      ghost var before := history.messages;
      history.AddMessageFromUser(prompt);
      history.AddMessageFromResponse(response);
      assert ChatbotSession.RecordedTurn(before, history.messages, prompt, response);
      ChatbotSession.RecordedTurnMessages(before, history.messages, prompt, response);
    }

    /** The typed-prompt branch: recorded unless unsigned or signed
        `NegativeChain`, never capped. */
    method ChatTurn(prompt: string, response: Response, responseTime: real)
      modifies this, history
      ensures messages == old(messages) + [ChatbotSession.Human(prompt), ChatbotSession.Ai(response.answer, responseTime)]
      ensures History.MessagesOf(history.messages) ==
              old(History.MessagesOf(history.messages)) +
              (if Recorded(response.signature, "NegativeChain")
               then [History.HumanMessage(prompt), History.AIMessage(response.answer.GetOr(""))] else [])
      ensures if Recorded(response.signature, "NegativeChain")
              then ChatbotSession.RecordedTurn(old(history.messages), history.messages, prompt, response)
              else history.messages == old(history.messages)
      ensures history.vectorizer == old(history.vectorizer)
    {
      messages := messages + [ChatbotSession.Human(prompt)];
      if Recorded(response.signature, "NegativeChain") {
        Record(prompt, response);
      }
      messages := messages + [ChatbotSession.Ai(response.answer, responseTime)];
    }

    /** The history cut to its last 10 messages when it is longer. */
    method CapHistory()
      modifies history
      ensures history.messages == ChatbotSession.Limited(old(history.messages), FaqHistoryCap)
      ensures history.vectorizer == old(history.vectorizer)
    {
      if |history.messages| > FaqHistoryCap {
        history.messages := history.messages[|history.messages| - FaqHistoryCap..];
      }
    }

    /** The FAQ branch: recorded unless unsigned or signed `ConversationalChain`,
        then capped at the last 10 history messages. */
    method FaqTurn(prompt: string, response: Response, responseTime: real)
      modifies this, history
      ensures messages == old(messages) + [ChatbotSession.Human(prompt), ChatbotSession.Ai(response.answer, responseTime)]
      ensures History.MessagesOf(history.messages) ==
              if Recorded(response.signature, "ConversationalChain")
              then ChatbotSession.Limited(old(History.MessagesOf(history.messages)) +
                     [History.HumanMessage(prompt), History.AIMessage(response.answer.GetOr(""))], FaqHistoryCap)
              else old(History.MessagesOf(history.messages))
      ensures if Recorded(response.signature, "ConversationalChain")
              then exists recorded :: ChatbotSession.RecordedTurn(old(history.messages), recorded, prompt, response) &&
                                      history.messages == ChatbotSession.Limited(recorded, FaqHistoryCap)
              else history.messages == old(history.messages)
      ensures Recorded(response.signature, "ConversationalChain") ==> |history.messages| <= FaqHistoryCap
      ensures history.vectorizer == old(history.vectorizer)
    {
      messages := messages + [ChatbotSession.Human(prompt)];
      if Recorded(response.signature, "ConversationalChain") {
        ghost var before := history.messages;
        Record(prompt, response);
        ghost var recorded := history.messages;
        CapHistory();
        ChatbotSession.LimitedMessages(recorded, FaqHistoryCap);
        assert ChatbotSession.RecordedTurn(before, recorded, prompt, response) &&
               history.messages == ChatbotSession.Limited(recorded, FaqHistoryCap);
      }
      messages := messages + [ChatbotSession.Ai(response.answer, responseTime)];
    }

    /** `update`: the Clear button first, then the FAQ prompt if a button was
        pressed, else the typed prompt if one was entered (an empty one is
        falsy). */
    method Update(clear: bool, faqPrompt: string, typed: Option<string>, response: Response, responseTime: real)
      modifies this, history
      ensures var shown := if clear then [] else old(messages);
              var asked := faqPrompt != "" || (typed.Some? && typed.value != "");
              var prompt := if faqPrompt != "" then faqPrompt else typed.GetOr("");
              messages == shown + (if asked then [ChatbotSession.Human(prompt), ChatbotSession.Ai(response.answer, responseTime)] else [])
      ensures var kept := if clear then [] else old(History.MessagesOf(history.messages));
              && (faqPrompt == "" && typed.Some? && typed.value != "" ==>
                    History.MessagesOf(history.messages) ==
                    kept + (if Recorded(response.signature, "NegativeChain")
                            then [History.HumanMessage(typed.value), History.AIMessage(response.answer.GetOr(""))] else []))
              && (faqPrompt == "" && !(typed.Some? && typed.value != "") ==> History.MessagesOf(history.messages) == kept)
              && (faqPrompt != "" && Recorded(response.signature, "ConversationalChain") ==>
                    History.MessagesOf(history.messages) ==
                    ChatbotSession.Limited(kept + [History.HumanMessage(faqPrompt), History.AIMessage(response.answer.GetOr(""))], FaqHistoryCap))
              && (faqPrompt != "" && !Recorded(response.signature, "ConversationalChain") ==>
                    History.MessagesOf(history.messages) == kept)
      ensures var kept := if clear then [] else old(history.messages);
              && (faqPrompt == "" && typed.Some? && typed.value != "" ==>
                    if Recorded(response.signature, "NegativeChain")
                    then ChatbotSession.RecordedTurn(kept, history.messages, typed.value, response)
                    else history.messages == kept)
              && (faqPrompt == "" && !(typed.Some? && typed.value != "") ==> history.messages == kept)
              && (faqPrompt != "" ==>
                    if Recorded(response.signature, "ConversationalChain")
                    then exists recorded :: ChatbotSession.RecordedTurn(kept, recorded, faqPrompt, response) &&
                                            history.messages == ChatbotSession.Limited(recorded, FaqHistoryCap)
                    else history.messages == kept)
    {
      if clear {
        Clear();
        assert History.MessagesOf(history.messages) == [];
      }
      if faqPrompt == "" {
        if typed.Some? && typed.value != "" {
          ChatTurn(typed.value, response, responseTime);
        }
      } else {
        FaqTurn(faqPrompt, response, responseTime);
      }
    }
  }
}
