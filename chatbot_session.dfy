/** The chatbot's Streamlit session: the list of messages shown on the page and
    the conversation history, which after every turn is cut to the last
    `history_size` messages. Page rendering and the chain are left out; the
    chain's response is a parameter of a turn. */
module ChatbotSession {
  import opened Wrappers
  import opened Documents
  import opened PyStr
  import History

  /** `messages[-k:]` when `len(messages) > k`, the messages as they are
      otherwise. */
  function Limited<T>(s: seq<T>, k: int): (r: seq<T>)
    ensures |r| <= |s| && r == s[|s| - |r|..]
    ensures |s| <= k ==> r == s
    ensures 1 <= k < |s| ==> r == s[|s| - k..] && |r| == k
    ensures k >= 1 ==> |r| <= k
    ensures k == 0 ==> r == s
    ensures k < 0 ==> r == if -k < |s| then s[-k..] else []
  {
    if |s| > k then SliceFrom(s, -k) else s
  }

  /** Limiting commutes with any element-wise view of the list. */
  lemma LimitedMessages(s: seq<History.MessageWithDocs>, k: int)
    ensures History.MessagesOf(Limited(s, k)) == Limited(History.MessagesOf(s), k)
  {
    var r := Limited(s, k);
    var m := History.MessagesOf(s);
    var n := |s| - |r|;
    assert Limited(m, k) == m[n..] by {
      if |s| > k {
        assert Limited(m, k) == SliceFrom(m, -k) && r == SliceFrom(s, -k);
      }
    }
    assert History.MessagesOf(r) == m[n..] by {
      forall i | 0 <= i < |r| ensures History.MessagesOf(r)[i] == m[n..][i] {
        assert r[i] == s[n + i];
      }
    }
  }

  /** Cutting at a non-negative size twice is cutting once. */
  lemma LimitedIdempotent<T>(s: seq<T>, k: int)
    requires k >= 0
    ensures Limited(Limited(s, k), k) == Limited(s, k)
  {
  }

  /** `after` is `before` with one recorded turn appended: the prompt with no
      documents, then the answer (default `''`) with the response's context
      (default `''`). */
  predicate RecordedTurn(before: seq<History.MessageWithDocs>, after: seq<History.MessageWithDocs>,
                         prompt: string, response: Response)
  {
    && |after| == |before| + 2 && after[..|before|] == before
    && after[|before|].message == History.HumanMessage(prompt)
    && after[|before|].documents == DocList([])
    && after[|before| + 1].message == History.AIMessage(response.answer.GetOr(""))
    && after[|before| + 1].documents == response.context.GetOr(Text(""))
  }

  /** A recorded turn adds the prompt and the answer to the plain messages. */
  lemma RecordedTurnMessages(before: seq<History.MessageWithDocs>, after: seq<History.MessageWithDocs>,
                             prompt: string, response: Response)
    requires RecordedTurn(before, after, prompt, response)
    ensures History.MessagesOf(after) ==
            History.MessagesOf(before) + [History.HumanMessage(prompt), History.AIMessage(response.answer.GetOr(""))]
  {
    assert forall i :: 0 <= i < |before| ==> after[i] == before[i];
  }

  /** A recorded turn, limited, is the limited plain messages with the prompt
      and the answer added. */
  lemma LimitedTurnMessages(before: seq<History.MessageWithDocs>, after: seq<History.MessageWithDocs>,
                            prompt: string, response: Response, k: int)
    requires RecordedTurn(before, after, prompt, response)
    ensures History.MessagesOf(Limited(after, k)) ==
            Limited(History.MessagesOf(before) + [History.HumanMessage(prompt), History.AIMessage(response.answer.GetOr(""))], k)
  {
    RecordedTurnMessages(before, after, prompt, response);
    LimitedMessages(after, k);
  }

  /** An entry of `st.session_state.messages`: the human prompt, or the AI's
      `response.get('answer', None)` with the handler's response time. */
  datatype Shown = Human(content: string) | Ai(answer: Option<string>, responseTime: real)

  class Session {
    var messages: seq<Shown>
    const history: History.ChatHistory
    /** `config['history_size']`. */
    const historySize: int

    /** `initialize_session_state` on a fresh state: no messages, a new history. */
    constructor (historySize: int)
      ensures messages == [] && history.messages == [] && history.vectorizer == None
      ensures this.historySize == historySize
      ensures fresh(history)
    {
      messages := [];
      history := new History.ChatHistory();
      this.historySize := historySize;
    }

    /** `limit_history(k)`. */
    method LimitHistory(k: int)
      modifies history
      ensures history.messages == Limited(old(history.messages), k)
      ensures history.vectorizer == old(history.vectorizer)
    {
      if |history.messages| > k {
        history.messages := SliceFrom(history.messages, -k);
      }
    }

    /** The Clear button: no message shown and an empty history. */
    method Clear()
      modifies this, history
      ensures messages == [] && history.messages == [] && history.vectorizer == None
    {
      messages := [];
      history.Clear();
    }

    /** Records the prompt and the response in the history. */
    method Record(prompt: string, response: Response)
      modifies history
      ensures RecordedTurn(old(history.messages), history.messages, prompt, response)
      ensures history.vectorizer == old(history.vectorizer)
    {
      history.AddMessageFromUser(prompt);
      history.AddMessageFromResponse(response);
    }

    /** One turn, for a typed prompt or a FAQ button alike: show the prompt,
        record the prompt and the response in the history, limit the history,
        show the answer. */
    method Turn(prompt: string, response: Response, responseTime: real)
      modifies this, history
      ensures messages == old(messages) + [Human(prompt), Ai(response.answer, responseTime)]
      ensures exists recorded :: RecordedTurn(old(history.messages), recorded, prompt, response) &&
                                 history.messages == Limited(recorded, historySize)
      ensures History.MessagesOf(history.messages) ==
              Limited(old(History.MessagesOf(history.messages)) +
                      [History.HumanMessage(prompt), History.AIMessage(response.answer.GetOr(""))], historySize)
      ensures historySize >= 1 ==> |history.messages| <= historySize
      ensures history.vectorizer == old(history.vectorizer)
    {
      ghost var before := history.messages;
      messages := messages + [Human(prompt)];
      Record(prompt, response);
      ghost var recorded := history.messages;
      LimitHistory(historySize);
      assert history.messages == Limited(recorded, historySize);
      LimitedTurnMessages(before, recorded, prompt, response, historySize);
      messages := messages + [Ai(response.answer, responseTime)];
      assert RecordedTurn(before, recorded, prompt, response) && history.messages == Limited(recorded, historySize);
    }

    /** `update`: the Clear button first, then the FAQ prompt if a button was
        pressed, else the typed prompt if one was entered (an empty one is
        falsy). */
    method Update(clear: bool, faqPrompt: string, typed: Option<string>, response: Response, responseTime: real)
      modifies this, history
      ensures var shown := if clear then [] else old(messages);
              var kept := if clear then [] else old(History.MessagesOf(history.messages));
              var prompt := if faqPrompt != "" then Some(faqPrompt)
                            else if typed.Some? && typed.value != "" then typed else None;
              && (prompt.None? ==> messages == shown && History.MessagesOf(history.messages) == kept)
              && (prompt.Some? ==>
                    && messages == shown + [Human(prompt.value), Ai(response.answer, responseTime)]
                    && History.MessagesOf(history.messages) ==
                       Limited(kept + [History.HumanMessage(prompt.value), History.AIMessage(response.answer.GetOr(""))], historySize))
      ensures var kept := if clear then [] else old(history.messages);
              var prompt := if faqPrompt != "" then Some(faqPrompt)
                            else if typed.Some? && typed.value != "" then typed else None;
              && (prompt.None? ==> history.messages == kept)
              && (prompt.Some? ==>
                    exists recorded :: RecordedTurn(kept, recorded, prompt.value, response) &&
                                       history.messages == Limited(recorded, historySize))
    {
      if clear {
        Clear();
        assert History.MessagesOf(history.messages) == [];
      }
      if faqPrompt == "" {
        if typed.Some? && typed.value != "" {
          Turn(typed.value, response, responseTime);
        }
      } else {
        Turn(faqPrompt, response, responseTime);
      }
    }
  }
}
