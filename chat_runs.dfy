/**
 * Sequences of requests handled one after another from process start, and
 * what they leave in memory: each caller's stored history is the tail of
 * everything recorded for that caller, at least its last eight turns and at
 * most nine.
 */
module ChatRuns {
  import opened Wrappers
  import opened KnowledgeBase
  import opened ConversationMemory
  import opened ChatPipeline

  datatype Request = Request(id: Id, message: MessageField, gateway: Gateway)

  /** The memory after the requests, handled in order, starting from an empty memory. */
  function Run(kb: seq<Entry>, rate: (string, string) -> real, requests: seq<Request>): map<Id, seq<Turn>>
  {
    if requests == [] then map[]
    else
      var last := requests[|requests| - 1];
      Respond(kb, rate, Run(kb, rate, requests[..|requests| - 1]), last.id, last.message, last.gateway).memory
  }

  /**
   * The turns a request with the trimmed `message` records: none when the
   * gateway is not called, the user turn after a failure, the user turn and
   * the reply after a success.
   */
  function Recorded(message: string, r: Response): seq<Turn> {
    if r.sent.None? then []
    else if r.status == 500 then [Turn(User, message)]
    else [Turn(User, message), Turn(Model, r.reply)]
  }

  /** The turns a request with the `message` field `m` records. */
  function RequestRecords(m: MessageField, r: Response): seq<Turn> {
    if Screen(m).Accepted? then Recorded(Screen(m).message, r) else []
  }

  /** Every turn ever recorded for `id`, oldest first, truncation ignored. */
  function Transcript(kb: seq<Entry>, rate: (string, string) -> real, requests: seq<Request>, id: Id): seq<Turn>
  {
    if requests == [] then []
    else
      var before := requests[..|requests| - 1];
      var last := requests[|requests| - 1];
      var r := Respond(kb, rate, Run(kb, rate, before), last.id, last.message, last.gateway);
      Transcript(kb, rate, before, id) + (if last.id == id then RequestRecords(last.message, r) else [])
  }

  /**
   * A failed gateway call leaves the caller's history as the cut history
   * handed to the gateway, and records the user turn alone.
   */
  lemma FailureRecords(memory: map<Id, seq<Turn>>, id: Id, message: string, generate: seq<Turn> -> Outcome)
    requires generate(AddUserTurn(Stored(memory, id), message)).Failed?
    ensures Stored(Fallback(memory, id, message, generate).memory, id) == AddUserTurn(Stored(memory, id), message)
    ensures Recorded(message, Fallback(memory, id, message, generate)) == [Turn(User, message)]
  {
  }

  /**
   * A successful call leaves the cut history followed by the model turn, and
   * records the user turn and the model turn.
   */
  lemma SuccessRecords(memory: map<Id, seq<Turn>>, id: Id, message: string, generate: seq<Turn> -> Outcome)
    requires generate(AddUserTurn(Stored(memory, id), message)).Generated?
    ensures var r := Fallback(memory, id, message, generate);
      Stored(r.memory, id) == AddUserTurn(Stored(memory, id), message) + [Turn(Model, r.reply)] &&
      Recorded(message, r) == [Turn(User, message), Turn(Model, r.reply)]
  {
  }

  /** One request extends the caller's transcript by what it records and keeps the tail relation. */
  lemma RespondKeepsTail(kb: seq<Entry>, rate: (string, string) -> real, memory: map<Id, seq<Turn>>,
                         id: Id, m: MessageField, gw: Gateway, transcript: seq<Turn>)
    requires KeepsTail(Stored(memory, id), transcript)
    ensures KeepsTail(Stored(Respond(kb, rate, memory, id, m, gw).memory, id),
                      transcript + RequestRecords(m, Respond(kb, rate, memory, id, m, gw)))
  {
    var r := Respond(kb, rate, memory, id, m, gw);
    if ReachesGateway(kb, rate, m, gw) {
      var message := Screen(m).message;
      if gw.generate(AddUserTurn(Stored(memory, id), message)).Failed? {
        FailureRecords(memory, id, message, gw.generate);
        UserTurnKeepsTail(Stored(memory, id), transcript, message);
      } else {
        SuccessRecords(memory, id, message, gw.generate);
        ExchangeKeepsTail(Stored(memory, id), transcript, message, r.reply);
      }
    } else {
      assert RequestRecords(m, r) == [];
      assert transcript + RequestRecords(m, r) == transcript;
    }
  }

  /**
   * After any sequence of requests, each caller's stored history is the tail
   * of its transcript: its most recent turns in their original order, at
   * least eight of them (all, if there are fewer) and at most nine.
   */
  lemma {:induction false} RunKeepsTail(kb: seq<Entry>, rate: (string, string) -> real, requests: seq<Request>, id: Id)
    ensures KeepsTail(Stored(Run(kb, rate, requests), id), Transcript(kb, rate, requests, id))
  {
    if requests != [] {
      var before := requests[..|requests| - 1];
      var last := requests[|requests| - 1];
      RunKeepsTail(kb, rate, before, id);
      var memory := Run(kb, rate, before);
      var r := Respond(kb, rate, memory, last.id, last.message, last.gateway);
      assert Run(kb, rate, requests) == r.memory;
      if last.id == id {
        RespondKeepsTail(kb, rate, memory, id, last.message, last.gateway, Transcript(kb, rate, before, id));
        assert Transcript(kb, rate, requests, id) == Transcript(kb, rate, before, id) + RequestRecords(last.message, r);
      } else {
        RespondOtherCaller(kb, rate, memory, last.id, last.message, last.gateway, id);
        assert Transcript(kb, rate, requests, id) == Transcript(kb, rate, before, id);
      }
    }
  }

  /** From process start, every stored history is well formed, whatever the requests. */
  lemma {:induction false} RunWellFormed(kb: seq<Entry>, rate: (string, string) -> real, requests: seq<Request>)
    ensures MemoryWellFormed(Run(kb, rate, requests))
  {
    if requests != [] {
      var last := requests[|requests| - 1];
      RunWellFormed(kb, rate, requests[..|requests| - 1]);
      RespondKeepsWellFormed(kb, rate, Run(kb, rate, requests[..|requests| - 1]), last.id, last.message, last.gateway);
    }
  }
}
