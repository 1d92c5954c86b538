/**
 * The `/chat` request handler: input guard, knowledge lookup, gateway gate,
 * memory update and gateway outcome, in that order, each step ending the
 * request with a fixed reply or passing it on.
 *
 * `Respond` is the handler as a function of the knowledge base, the score,
 * the memory before the request, the caller's identity, the `message` field
 * of the request body and the gateway. `ChatServer` holds the process state
 * the handler updates in place and resolves requests against `Respond`.
 */
module ChatPipeline {
  import opened Wrappers
  import opened JsText
  import opened KnowledgeBase
  import opened ConversationMemory

  /** The caller identity (the request's address); only compared for equality. */
  type Id = string

  /**
   * `req.body.message`: absent (or null), a string, or a value of another
   * type, which JavaScript treats as falsy or truthy.
   */
  datatype MessageField = Missing | Text(s: string) | NonString(truthy: bool)

  /** What the generative model's call returns: its text, or a thrown error. */
  datatype Outcome = Generated(text: string) | Failed

  /** The AI client: absent when no API key is set, otherwise a call from history to outcome. */
  datatype Gateway = Unconfigured | Configured(generate: seq<Turn> -> Outcome)

  /**
   * The result of one request: the `reply` field and HTTP status sent back,
   * the memory afterwards, and the history handed to the gateway, if it was called.
   */
  datatype Response = Response(reply: string, status: nat, memory: map<Id, seq<Turn>>, sent: Option<seq<Turn>>)

  const InvalidReply: string := "Please enter a valid question."
  const JunkReply: string := "Please ask a meaningful legal question."
  const UnavailableReply: string := "AI service unavailable."
  const RephraseReply: string := "Please rephrase your question."
  const ServerErrorReply: string := "Server error while generating reply."

  /** Outcome of the input guard. `Crashed` is the `TypeError` of calling `trim` on a non-string. */
  datatype Screening = Rejected(reply: string) | Crashed | Accepted(message: string)

  /**
   * The input guard: a falsy field, or a string shorter than two UTF-16 units
   * once trimmed, gets the "valid question" reply; a trimmed string of one to
   * three ASCII letters gets the "meaningful question" reply; a truthy
   * non-string makes `trim` throw; anything else goes on, trimmed.
   */
  function Screen(m: MessageField): (r: Screening)
    ensures r.Accepted? ==> m.Text? && r.message != []
    ensures r.Crashed? <==> m.NonString? && m.truthy
    ensures r.Rejected? ==> r.reply == InvalidReply || r.reply == JunkReply
  {
    match m
    case Missing => Rejected(InvalidReply)
    case NonString(truthy) => if truthy then Crashed else Rejected(InvalidReply)
    case Text(s) =>
      var t := Trim(s);
      if s == [] || Utf16Length(t) < 2 then Rejected(InvalidReply)
      else if IsJunkToken(t) then Rejected(JunkReply)
      else
        Utf16LengthBounds(t);
        Accepted(t)
  }

  /**
   * What the guard lets through is the trimmed string, at least two UTF-16
   * units long, not junk and with no whitespace at either end; the
   * "meaningful question" reply is given exactly to junk of that length.
   */
  lemma ScreenVerdicts(m: MessageField)
    ensures Screen(m).Accepted? ==> Screen(m).message == Trim(m.s)
    ensures Screen(m).Accepted? ==> Utf16Length(Screen(m).message) >= 2 && !IsJunkToken(Screen(m).message)
    ensures Screen(m).Accepted? ==>
      !IsWhitespace(Screen(m).message[0]) && !IsWhitespace(Screen(m).message[|Screen(m).message| - 1])
    ensures Screen(m) == Rejected(JunkReply) <==> m.Text? && Utf16Length(Trim(m.s)) >= 2 && IsJunkToken(Trim(m.s))
  {
  }

  /**
   * A string passes the guard exactly when, once trimmed, it has at least two
   * UTF-16 units and either four or more characters or a character that is
   * not an ASCII letter (a digit, a space, punctuation, any other script).
   */
  lemma {:induction false} ScreenAcceptsIff(s: string)
    ensures Screen(Text(s)).Accepted? <==>
      Utf16Length(Trim(s)) >= 2 &&
      (|Trim(s)| >= 4 || exists k :: 0 <= k < |Trim(s)| && !IsAsciiLetter(Trim(s)[k]))
  {
    var t := Trim(s);
    if s == [] {
      assert t == [];
    } else if Utf16Length(t) >= 2 {
      Utf16LengthBounds(t);
      NotJunkIff(t);
    }
  }

  /**
   * The "valid question" reply goes exactly to a missing or falsy field and to
   * a string shorter than two UTF-16 units once trimmed.
   */
  lemma InvalidIff(m: MessageField)
    ensures Screen(m) == Rejected(InvalidReply) <==>
      m.Missing? || (m.NonString? && !m.truthy) || (m.Text? && Utf16Length(Trim(m.s)) < 2)
  {
    if m.Text? && m.s == [] {
      assert Trim(m.s) == [];
    }
  }

  /** The reply taken from the model's text: trimmed, or the "rephrase" sentinel when that is empty. */
  function ModelReply(text: string): (r: string)
    ensures r != []
    ensures Trim(text) != [] ==> r == Trim(text)
    ensures Trim(text) == [] ==> r == RephraseReply
  {
    if Trim(text) != [] then Trim(text) else RephraseReply
  }

  /** The history stored for `id`; an identity without an entry has none. */
  function Stored(memory: map<Id, seq<Turn>>, id: Id): seq<Turn> {
    if id in memory then memory[id] else []
  }

  /**
   * The fallback path once a gateway is configured: the caller's history is
   * created if absent, the user turn pushed and the history cut; the gateway
   * is called with it; a failure leaves the user turn stored and answers with
   * the error reply, a success stores one model turn holding the reply.
   */
  function Fallback(memory: map<Id, seq<Turn>>, id: Id, message: string, generate: seq<Turn> -> Outcome): (r: Response)
    ensures r.sent == Some(AddUserTurn(Stored(memory, id), message))
    ensures generate(r.sent.value).Failed? ==>
      r.reply == ServerErrorReply && r.status == 500 && r.memory == memory[id := r.sent.value]
    ensures generate(r.sent.value).Generated? ==>
      r.reply == ModelReply(generate(r.sent.value).text) && r.status == 200 &&
      r.memory == memory[id := r.sent.value + [Turn(Model, r.reply)]]
  {
    var history := AddUserTurn(Stored(memory, id), message);
    match generate(history)
    case Failed => Response(ServerErrorReply, 500, memory[id := history], Some(history))
    case Generated(text) =>
      var reply := ModelReply(text);
      Response(reply, 200, memory[id := history + [Turn(Model, reply)]], Some(history))
  }

  /** True when a request reaches the gateway: it passes the guard, misses the knowledge base and a gateway is set. */
  predicate ReachesGateway(kb: seq<Entry>, rate: (string, string) -> real, m: MessageField, gw: Gateway) {
    Screen(m).Accepted? && Lookup(kb, rate, Screen(m).message).None? && gw.Configured?
  }

  /**
   * One request to the `/chat` handler. The guard's replies, a knowledge hit
   * and a missing gateway answer with memory unchanged and no gateway call;
   * exactly the requests that reach the gateway take the fallback path.
   */
  function Respond(kb: seq<Entry>, rate: (string, string) -> real, memory: map<Id, seq<Turn>>,
                   id: Id, m: MessageField, gw: Gateway): (r: Response)
    ensures Screen(m).Rejected? ==> r == Response(Screen(m).reply, 200, memory, None)
    ensures Screen(m).Crashed? ==> r == Response(ServerErrorReply, 500, memory, None)
    ensures Screen(m).Accepted? && Lookup(kb, rate, Screen(m).message).Some? ==>
      r == Response(FormatAnswer(kb[Lookup(kb, rate, Screen(m).message).value]), 200, memory, None)
    ensures Screen(m).Accepted? && Lookup(kb, rate, Screen(m).message).None? && gw.Unconfigured? ==>
      r == Response(UnavailableReply, 200, memory, None)
    ensures ReachesGateway(kb, rate, m, gw) ==> r == Fallback(memory, id, Screen(m).message, gw.generate)
    ensures r.sent.Some? <==> ReachesGateway(kb, rate, m, gw)
    ensures r.sent.Some? ==> 1 <= |r.sent.value| <= MaxTurns
  {
    match Screen(m)
    case Rejected(reply) => Response(reply, 200, memory, None)
    case Crashed => Response(ServerErrorReply, 500, memory, None)
    case Accepted(message) =>
      match Lookup(kb, rate, message)
      case Some(i) => Response(FormatAnswer(kb[i]), 200, memory, None)
      case None =>
        match gw
        case Unconfigured => Response(UnavailableReply, 200, memory, None)
        case Configured(generate) => Fallback(memory, id, message, generate)
  }

  /** A request leaves every other caller's history as it was, and adds no other caller. */
  lemma RespondOtherCaller(kb: seq<Entry>, rate: (string, string) -> real, memory: map<Id, seq<Turn>>,
                           id: Id, m: MessageField, gw: Gateway, other: Id)
    requires other != id
    ensures other in Respond(kb, rate, memory, id, m, gw).memory <==> other in memory
    ensures Stored(Respond(kb, rate, memory, id, m, gw).memory, other) == Stored(memory, other)
  {
    if ReachesGateway(kb, rate, m, gw) {
      var r := Fallback(memory, id, Screen(m).message, gw.generate);
      assert r.memory == memory[id := r.memory[id]];
    }
  }

  /** Every stored history is well formed. */
  ghost predicate MemoryWellFormed(memory: map<Id, seq<Turn>>) {
    forall id :: id in memory ==> WellFormed(memory[id])
  }

  /** Storing a well-formed history keeps the memory well formed. */
  lemma StoreWellFormed(memory: map<Id, seq<Turn>>, id: Id, h: seq<Turn>)
    requires MemoryWellFormed(memory) && WellFormed(h)
    ensures MemoryWellFormed(memory[id := h])
  {
  }

  /** The fallback path stores a well-formed history whatever the gateway returns. */
  lemma FallbackKeepsWellFormed(memory: map<Id, seq<Turn>>, id: Id, message: string, generate: seq<Turn> -> Outcome)
    requires MemoryWellFormed(memory) && message != []
    ensures MemoryWellFormed(Fallback(memory, id, message, generate).memory)
  {
    var h := AddUserTurn(Stored(memory, id), message);
    match generate(h)
    case Failed =>
      UserTurnWellFormed(Stored(memory, id), message);
      StoreWellFormed(memory, id, h);
    case Generated(text) =>
      ExchangeWellFormed(Stored(memory, id), message, ModelReply(text));
      StoreWellFormed(memory, id, h + [Turn(Model, ModelReply(text))]);
  }

  /** A request keeps every stored history within nine turns, with no empty turn. */
  lemma RespondKeepsWellFormed(kb: seq<Entry>, rate: (string, string) -> real, memory: map<Id, seq<Turn>>,
                               id: Id, m: MessageField, gw: Gateway)
    requires MemoryWellFormed(memory)
    ensures MemoryWellFormed(Respond(kb, rate, memory, id, m, gw).memory)
  {
    if ReachesGateway(kb, rate, m, gw) {
      FallbackKeepsWellFormed(memory, id, Screen(m).message, gw.generate);
    }
  }

  /**
   * A reply is empty only for a knowledge hit on an entry with neither answer
   * nor reference; every other reply, fixed or generated, is non-empty.
   */
  lemma EmptyReplyOnlyFromEmptyEntry(kb: seq<Entry>, rate: (string, string) -> real, memory: map<Id, seq<Turn>>,
                                     id: Id, m: MessageField, gw: Gateway)
    ensures Respond(kb, rate, memory, id, m, gw).reply == [] ==>
      Screen(m).Accepted? && Lookup(kb, rate, Screen(m).message).Some? &&
      kb[Lookup(kb, rate, Screen(m).message).value].answer == [] &&
      kb[Lookup(kb, rate, Screen(m).message).value].lawReference == []
  {
    var s := Screen(m);
    if s.Accepted? && Lookup(kb, rate, s.message).Some? {
      FormatAnswerEmpty(kb[Lookup(kb, rate, s.message).value]);
    }
  }

  /**
   * A message that equals a stored question up to ASCII case and surrounding
   * whitespace is answered from the knowledge base, with the answer of a
   * question scoring 1: no gateway call and no memory change.
   */
  lemma ExactQuestionAnswered(kb: seq<Entry>, rate: (string, string) -> real, memory: map<Id, seq<Turn>>,
                              id: Id, s: string, gw: Gateway, i: nat)
    requires IsSimilarity(rate)
    requires Screen(Text(s)).Accepted?
    requires i < |kb| && Lower(Trim(s)) == kb[i].question
    ensures exists j :: (0 <= j <= i && rate(Lower(Trim(s)), kb[j].question) == 1.0 &&
      Respond(kb, rate, memory, id, Text(s), gw) == Response(FormatAnswer(kb[j]), 200, memory, None))
  {
    ScreenVerdicts(Text(s));
    ExactQuestionHits(kb, rate, Trim(s), i);
    var j := Lookup(kb, rate, Trim(s)).value;
    assert rate(Lower(Trim(s)), kb[j].question) == 1.0;
  }
}
