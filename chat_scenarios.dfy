/**
 * Requests worked through the model: short words, blank input, a stored
 * question asked verbatim, an empty knowledge base, a failing gateway and a
 * long conversation.
 */
module ChatScenarios {
  import opened Wrappers
  import opened JsText
  import opened KnowledgeBase
  import opened ConversationMemory
  import opened ChatPipeline

  /** A string of four or more characters with no whitespace at either end passes the guard unchanged. */
  lemma AcceptedAsIs(s: string)
    requires |s| >= 4 && !IsWhitespace(s[0]) && !IsWhitespace(s[|s| - 1])
    ensures Screen(Text(s)) == Accepted(s)
  {
    TrimOfTrimmed(s);
    Utf16LengthBounds(s);
  }

  /**
   * Two or three ASCII letters, whatever whitespace surrounds them, get the
   * "meaningful question" reply.
   */
  lemma ShortWordIsJunk(pre: string, word: string, post: string)
    requires AllWhitespace(pre) && AllWhitespace(post)
    requires 2 <= |word| <= 3 && forall k :: 0 <= k < |word| ==> IsAsciiLetter(word[k])
    ensures Screen(Text(pre + word + post)) == Rejected(JunkReply)
  {
    TrimPadded(pre, word, post);
    Utf16LengthBounds(word);
  }

  /** "ab" is two letters. */
  lemma AbIsJunk()
    ensures Screen(Text("ab")) == Rejected(JunkReply)
  {
    var w := ['a', 'b'];
    assert "ab" == [] + w + [];
    ShortWordIsJunk([], w, []);
  }

  /** "hi" with a space before and a line feed after is two letters once trimmed. */
  lemma HiIsJunk()
    ensures Screen(Text(" hi\n")) == Rejected(JunkReply)
  {
    var w := ['h', 'i'];
    assert " hi\n" == [' '] + w + ['\n'];
    ShortWordIsJunk([' '], w, ['\n']);
  }

  /** "ab" and " hi\n" are junk: no lookup and no gateway call. */
  lemma ShortWordsRejected(kb: seq<Entry>, rate: (string, string) -> real, memory: map<Id, seq<Turn>>, id: Id, gw: Gateway)
    ensures Respond(kb, rate, memory, id, Text("ab"), gw) == Response(JunkReply, 200, memory, None)
    ensures Respond(kb, rate, memory, id, Text(" hi\n"), gw) == Response(JunkReply, 200, memory, None)
  {
    AbIsJunk();
    HiIsJunk();
  }

  /** One character surrounded by whitespace gets the "valid question" reply. */
  lemma SingleCharacterTooShort(pre: string, c: char, post: string)
    requires AllWhitespace(pre) && AllWhitespace(post) && !IsWhitespace(c) && (c as int) < 0x1_0000
    ensures Screen(Text(pre + [c] + post)) == Rejected(InvalidReply)
  {
    TrimPadded(pre, [c], post);
    assert Utf16Length([c]) == 1;
  }

  /** A blank message, or one letter after trimming, gets the "valid question" reply. */
  lemma TooShortRejected(kb: seq<Entry>, rate: (string, string) -> real, memory: map<Id, seq<Turn>>, id: Id, gw: Gateway)
    ensures Respond(kb, rate, memory, id, Text("  a "), gw) == Response(InvalidReply, 200, memory, None)
    ensures Respond(kb, rate, memory, id, Missing, gw) == Response(InvalidReply, 200, memory, None)
  {
    assert "  a " == "  " + ['a'] + " ";
    SingleCharacterTooShort("  ", 'a', " ");
  }

  /** A message with a digit passes the guard however short its letters are. */
  lemma DigitsAccepted()
    ensures Screen(Text("xyz123")) == Accepted("xyz123")
  {
    AcceptedAsIs("xyz123");
  }

  /**
   * A knowledge base of one entry, asked its own question in lower case: the
   * answer followed by the law-reference footer, with no gateway call.
   */
  lemma StoredQuestionAnswered(rate: (string, string) -> real, memory: map<Id, seq<Turn>>, id: Id, gw: Gateway,
                               question: string, answer: string, reference: string)
    requires IsSimilarity(rate)
    requires |question| >= 4 && !IsWhitespace(question[0]) && !IsWhitespace(question[|question| - 1])
    requires IsLower(question) && reference != []
    ensures Respond([Entry(question, answer, reference)], rate, memory, id, Text(question), gw)
      == Response(answer + Footer + reference, 200, memory, None)
  {
    AcceptedAsIs(question);
    LowerOfLower(question);
    ExactQuestionHits([Entry(question, answer, reference)], rate, question, 0);
  }

  /**
   * With an empty knowledge base (a table with no data rows, or a request
   * served before the first row has been read) no question is answered from it: every accepted message goes to the gateway, or gets the
   * "unavailable" reply when there is none.
   */
  lemma EmptyKnowledgeBase(rate: (string, string) -> real, memory: map<Id, seq<Turn>>, id: Id, m: MessageField, gw: Gateway)
    requires Screen(m).Accepted?
    ensures gw.Unconfigured? ==> Respond([], rate, memory, id, m, gw) == Response(UnavailableReply, 200, memory, None)
    ensures gw.Configured? ==> Respond([], rate, memory, id, m, gw) == Fallback(memory, id, Screen(m).message, gw.generate)
  {
    assert Lookup([], rate, Screen(m).message) == None;
  }

  /**
   * A gateway failure (a timeout, say) for a caller with no history: the error
   * reply with status 500, and the caller's history now holds the user turn alone.
   */
  lemma NewCallerFailure(kb: seq<Entry>, rate: (string, string) -> real, memory: map<Id, seq<Turn>>,
                         id: Id, m: MessageField, generate: seq<Turn> -> Outcome)
    requires id !in memory
    requires ReachesGateway(kb, rate, m, Configured(generate))
    requires generate([Turn(User, Screen(m).message)]).Failed?
    ensures Respond(kb, rate, memory, id, m, Configured(generate)) ==
      Response(ServerErrorReply, 500, memory[id := [Turn(User, Screen(m).message)]], Some([Turn(User, Screen(m).message)]))
  {
    assert AddUserTurn([], Screen(m).message) == [Turn(User, Screen(m).message)];
  }

  /**
   * The cut happens before the model turn is pushed: a caller with eight or
   * more stored turns whose next fallback succeeds is left with nine.
   */
  lemma NineTurnsAfterSuccess(kb: seq<Entry>, rate: (string, string) -> real, memory: map<Id, seq<Turn>>,
                              id: Id, m: MessageField, gw: Gateway)
    requires |Stored(memory, id)| >= MaxTurns
    requires ReachesGateway(kb, rate, m, gw)
    requires gw.generate(AddUserTurn(Stored(memory, id), Screen(m).message)).Generated?
    ensures |Stored(Respond(kb, rate, memory, id, m, gw).memory, id)| == MaxTurns + 1
  {
  }
}
