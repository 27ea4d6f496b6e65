/** The bookkeeping of `process_email_content`: the sentiment label derived
    from a polarity score, and the exchange appended to the caller's chat
    history. The polarity score and the model's reply are inputs here. */
module EmailProcessing {

  /** One exchange, the dictionary {'human': email, 'AI': reply}. */
  datatype Message = Message(human: string, ai: string)

  /** Buckets a polarity score by its sign. */
  function SentimentLabel(polarity: real): (sentiment: string)
    ensures sentiment == "positive" || sentiment == "negative" || sentiment == "neutral"
    ensures sentiment == "positive" <==> polarity > 0.0
    ensures sentiment == "negative" <==> polarity < 0.0
    ensures sentiment == "neutral" <==> polarity == 0.0
  {
    if polarity > 0.0 then "positive" else if polarity < 0.0 then "negative" else "neutral"
  }

  /** The caller's `chat_history` list, which is updated in place. */
  class ChatHistory {
    var messages: seq<Message>

    constructor ()
      ensures messages == []
    {
      messages := [];
    }
  }

  /** Labels the email's polarity, records the exchange at the end of the
      caller's history and returns the reply with the sentiment label. */
  method ProcessEmailContent(emailContent: string, chatHistory: ChatHistory, polarity: real, response: string)
    returns (reply: string, sentiment: string)
    modifies chatHistory
    ensures |chatHistory.messages| == |old(chatHistory.messages)| + 1
    ensures chatHistory.messages[..|old(chatHistory.messages)|] == old(chatHistory.messages)
    ensures chatHistory.messages[|chatHistory.messages| - 1] == Message(emailContent, response)
    ensures reply == chatHistory.messages[|chatHistory.messages| - 1].ai
    ensures sentiment == SentimentLabel(polarity)
  {
    sentiment := SentimentLabel(polarity);
    var message := Message(emailContent, response);
    chatHistory.messages := chatHistory.messages + [message];
    reply := response;
  }
}
