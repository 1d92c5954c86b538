/**
 * The process state of the server: `legalData`, filled row by row while the
 * FAQ table streams in, and `userMemory`, whose per-caller histories the
 * `/chat` handler creates, extends and cuts in place.
 */
module ChatService {
  import opened Wrappers
  import opened JsText
  import opened KnowledgeBase
  import opened ConversationMemory
  import opened ChatPipeline

  /** The normalised entries of a table, in row order: one per row, every question in lower case. */
  function NormalizeRows(rows: seq<Row>): (kb: seq<Entry>)
    ensures |kb| == |rows|
    ensures forall k :: 0 <= k < |kb| ==> IsLower(kb[k].question)
  {
    seq(|rows|, k requires 0 <= k < |rows| => NormalizeRow(rows[k]))
  }

  /** Writing a key twice leaves the second value. */
  lemma OverwriteTwice(memory: map<Id, seq<Turn>>, id: Id, first: seq<Turn>, second: seq<Turn>)
    ensures memory[id := first][id := second] == memory[id := second]
  {
  }

  class ChatServer {
    var legalData: seq<Entry>
    var userMemory: map<Id, seq<Turn>>
    /** The similarity score of the matching library. */
    const rate: (string, string) -> real

    ghost predicate Valid()
      reads this
    {
      MemoryWellFormed(userMemory)
    }

    /** Process start: an empty knowledge base and an empty memory. */
    constructor (rate: (string, string) -> real)
      ensures Valid()
      ensures this.rate == rate && legalData == [] && userMemory == map[]
    {
      this.rate := rate;
      legalData := [];
      userMemory := map[];
    }

    /** The parser's `data` callback: pushes the normalised row. */
    method AddRow(row: Row)
      modifies this`legalData
      ensures legalData == old(legalData) + [NormalizeRow(row)]
    {
      legalData := legalData + [NormalizeRow(row)];
    }

    /** The table streamed in, one `data` event per row, in order. */
    method LoadRows(rows: seq<Row>)
      modifies this`legalData
      ensures legalData == old(legalData) + NormalizeRows(rows)
    {
      var k := 0;
      while k < |rows|
        invariant 0 <= k <= |rows|
        invariant legalData == old(legalData) + NormalizeRows(rows[..k])
      {
        AddRow(rows[k]);
        assert NormalizeRows(rows[..k + 1]) == NormalizeRows(rows[..k]) + [NormalizeRow(rows[k])];
        k := k + 1;
      }
      assert rows[..k] == rows;
    }

    /**
     * The memory update of the fallback path: creates an empty history for a
     * new caller, pushes the user turn and cuts the history to its last eight
     * turns. Returns the history as it now stands.
     */
    method PushUserTurn(id: Id, message: string) returns (history: seq<Turn>)
      requires Valid() && message != []
      modifies this`userMemory
      ensures Valid()
      ensures history == AddUserTurn(Stored(old(userMemory), id), message)
      ensures userMemory == old(userMemory)[id := history]
    {
      if id !in userMemory {
        userMemory := userMemory[id := []];
      }
      assert userMemory[id] == Stored(old(userMemory), id);
      history := userMemory[id] + [Turn(User, message)];
      OverwriteTwice(old(userMemory), id, userMemory[id], history);
      userMemory := userMemory[id := history];
      if |history| > MaxTurns {
        history := history[|history| - MaxTurns..];
        OverwriteTwice(old(userMemory), id, userMemory[id], history);
        userMemory := userMemory[id := history];
      }
      UserTurnWellFormed(Stored(old(userMemory), id), message);
      StoreWellFormed(old(userMemory), id, history);
    }

    /**
     * The fallback path of the `/chat` handler: pushes the user turn, calls
     * the gateway with the cut history and, on success, pushes the model turn.
     */
    method AskGateway(id: Id, message: string, generate: seq<Turn> -> Outcome)
      returns (reply: string, status: nat, sent: Option<seq<Turn>>)
      requires Valid() && message != []
      modifies this`userMemory
      ensures Valid()
      ensures Response(reply, status, userMemory, sent) == Fallback(old(userMemory), id, message, generate)
    {
      ghost var memory := userMemory;
      FallbackKeepsWellFormed(memory, id, message, generate);
      var history := PushUserTurn(id, message);
      sent := Some(history);
      var outcome := generate(history);
      if outcome.Failed? {
        return ServerErrorReply, 500, sent;
      }
      reply := ModelReply(outcome.text);
      OverwriteTwice(memory, id, history, history + [Turn(Model, reply)]);
      userMemory := userMemory[id := history + [Turn(Model, reply)]];
      status := 200;
    }

    /**
     * The `/chat` handler. Returns the reply, the HTTP status and the history
     * the gateway was called with, if it was called.
     */
    method Resolve(id: Id, m: MessageField, gw: Gateway) returns (reply: string, status: nat, sent: Option<seq<Turn>>)
      requires Valid()
      modifies this`userMemory
      ensures Valid()
      ensures Response(reply, status, userMemory, sent) == Respond(legalData, rate, old(userMemory), id, m, gw)
    {
      ghost var r := Respond(legalData, rate, userMemory, id, m, gw);
      var screening := Screen(m);
      if screening.Rejected? {
        assert r == Response(screening.reply, 200, userMemory, None);
        return screening.reply, 200, None;
      }
      if screening.Crashed? {
        assert r == Response(ServerErrorReply, 500, userMemory, None);
        return ServerErrorReply, 500, None;
      }
      var hit := Lookup(legalData, rate, screening.message);
      if hit.Some? {
        assert r == Response(FormatAnswer(legalData[hit.value]), 200, userMemory, None);
        return FormatAnswer(legalData[hit.value]), 200, None;
      }
      if gw.Unconfigured? {
        assert r == Response(UnavailableReply, 200, userMemory, None);
        return UnavailableReply, 200, None;
      }
      assert ReachesGateway(legalData, rate, m, gw);
      reply, status, sent := AskGateway(id, screening.message, gw.generate);
    }
  }
}
