/**
  The chat handler: it selects the relevant products, builds their context,
  asks the completion client for a reply, and packages both.
 */
module Chat {
  import opened Wrappers
  import opened Text
  import opened Catalog
  import opened Relevance
  import opened ProductContext
  import opened Completion

  /** A chat request. The history may be absent (`null`) as well as empty. */
  datatype ChatRequest = ChatRequest(message: string, chatHistory: Option<seq<Message>>)

  /** The handler's answer. */
  datatype ChatReply = ChatReply(reply: string, recommendations: seq<Product>)

  /**
    Handle one request against `catalog`; `upstream` stands for the HTTP call
    to the completion endpoint. The recommendations are the filter's result
    and the reply is the completion client's answer for the built context.
   */
  method HandleChat(request: ChatRequest, catalog: seq<Product>, upstream: seq<Message> -> Exchange)
    returns (response: ChatReply)
    ensures response.recommendations == Relevant(request.message, catalog)
    ensures forall p :: p in response.recommendations ==> p in catalog
    ensures request.chatHistory.None? ==> response.reply == ApologyPrefix + NoneNotIterable
    ensures request.chatHistory.Some? ==>
              response.reply == Reply(upstream(PromptMessages(request.message, request.chatHistory.value,
                                                             BuildContext(response.recommendations))))
  {
    var relevantProducts := Relevant(request.message, catalog);
    RecommendationsFromCatalog(request.message, catalog);
    var productContext := BuildContext(relevantProducts);
    var aiResponse := GetAiResponse(request.message, request.chatHistory, productContext, upstream);
    response := ChatReply(aiResponse, relevantProducts);
  }

  /**
    A request matching neither keyword group gets no recommendations, an
    empty context, and a system message holding only the fixed instructions.
   */
  lemma UnmatchedRequest(message: string, catalog: seq<Product>)
    requires !AsksAboutAcne(message) && !AsksAboutFaceWash(message)
    ensures Relevant(message, catalog) == []
    ensures BuildContext(Relevant(message, catalog)) == ""
    ensures SystemPrompt(BuildContext(Relevant(message, catalog))) == PromptIntro + PromptOutro
  {
  }

  const AcneQuestion: string := "I have acne, what should I use?"

  /** The sample question mentions acne. */
  lemma AcneQuestionAsksAboutAcne()
    ensures AsksAboutAcne(AcneQuestion)
  {
    var before, after := "I have ", ", what should I use?";
    assert AcneQuestion == before + "acne" + after;
    LowerConcat(before + "acne", after);
    LowerConcat(before, "acne");
    assert ToLower("acne") == "acne";
    var lower := ToLower(before) + "acne" + ToLower(after);
    assert lower[|before|..|before| + 4] == "acne";
    assert OccursAt("acne", lower, |before|);
  }

  /** Every product of the built-in catalog is acne-prone, so the acne rule selects all of it. */
  lemma CatalogAllAcneProne()
    ensures Select(Products, IsAcneProne) == Products
  {
    assert IsAcneProne(Products[0]) && IsAcneProne(Products[1]) && IsAcneProne(Products[2]);
    SelectAll(Products, IsAcneProne);
  }

  /** The sample question gets all three catalog products, each acne-prone. */
  lemma AcneRequestExample()
    ensures var recs := Relevant(AcneQuestion, Products);
      |recs| == 3 && recs == Products && forall k :: 0 <= k < 3 ==> recs[k].skinType == "acne-prone"
  {
    AcneQuestionAsksAboutAcne();
    CatalogAllAcneProne();
  }
}
