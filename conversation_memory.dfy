/**
 * The per-caller conversation history kept in `userMemory`: turns tagged
 * with their speaker, cut from the front to the last eight turns after each
 * user turn is added.
 */
module ConversationMemory {

  /** The role a turn is sent to the gateway with: "user" or "model". */
  datatype Role = User | Model

  datatype Turn = Turn(role: Role, text: string)

  /** How many turns survive the truncation that follows a user turn. */
  const MaxTurns: nat := 8

  /** `b` ends with `a`. */
  predicate IsSuffix(a: seq<Turn>, b: seq<Turn>) {
    |a| <= |b| && b[|b| - |a|..] == a
  }

  /** A suffix of a suffix is a suffix. */
  lemma SuffixTransitive(a: seq<Turn>, b: seq<Turn>, c: seq<Turn>)
    requires IsSuffix(a, b) && IsSuffix(b, c)
    ensures IsSuffix(a, c)
  {
    assert c[|c| - |a|..] == c[|c| - |b|..][|b| - |a|..];
  }

  /** Extending both sides by the same turns keeps a suffix a suffix. */
  lemma SuffixAppend(a: seq<Turn>, b: seq<Turn>, x: seq<Turn>)
    requires IsSuffix(a, b)
    ensures IsSuffix(a + x, b + x)
  {
    assert (b + x)[|b + x| - |a + x|..] == b[|b| - |a|..] + x;
  }

  /**
   * `if (history.length > 8) history.splice(0, history.length - 8)`: keeps
   * the last eight turns in their order.
   */
  function KeepLast(h: seq<Turn>): (r: seq<Turn>)
    ensures |r| == if |h| > MaxTurns then MaxTurns else |h|
    ensures IsSuffix(r, h)
  {
    if |h| > MaxTurns then h[|h| - MaxTurns..] else h
  }

  /** The history after the user turn is pushed and the front is cut: what the gateway receives. */
  function AddUserTurn(h: seq<Turn>, message: string): (r: seq<Turn>)
    ensures 1 <= |r| <= MaxTurns
    ensures r[|r| - 1] == Turn(User, message)
    ensures IsSuffix(r, h + [Turn(User, message)])
    ensures |r| == if |h| >= MaxTurns then MaxTurns else |h| + 1
  {
    KeepLast(h + [Turn(User, message)])
  }

  /**
   * What every stored history satisfies between requests. The cut happens
   * before the model turn is pushed, so a history can hold nine turns, and
   * then its last turn is a model turn; no turn has empty text.
   */
  predicate WellFormed(h: seq<Turn>) {
    && |h| <= MaxTurns + 1
    && (|h| == MaxTurns + 1 ==> h[MaxTurns].role == Model)
    && NoEmptyTurn(h)
  }

  /** No turn of `h` has empty text. */
  predicate NoEmptyTurn(h: seq<Turn>) {
    forall k :: 0 <= k < |h| ==> h[k].text != []
  }

  /** Adding a non-empty user turn keeps a history well formed, and it then has room for one more turn. */
  lemma UserTurnWellFormed(h: seq<Turn>, message: string)
    requires WellFormed(h) && message != []
    ensures WellFormed(AddUserTurn(h, message)) && |AddUserTurn(h, message)| <= MaxTurns
  {
    var u := h + [Turn(User, message)];
    var r := AddUserTurn(h, message);
    assert NoEmptyTurn(u) by {
      forall k | 0 <= k < |u|
        ensures u[k].text != []
      {
        if k < |h| {
          assert u[k] == h[k];
        }
      }
    }
    assert r == u[|u| - |r|..];
    forall k | 0 <= k < |r|
      ensures r[k].text != []
    {
      assert r[k] == u[|u| - |r| + k];
    }
  }

  /** Adding a non-empty model turn to a well-formed history of at most eight turns keeps it well formed. */
  lemma ModelTurnWellFormed(h: seq<Turn>, reply: string)
    requires WellFormed(h) && |h| <= MaxTurns && reply != []
    ensures WellFormed(h + [Turn(Model, reply)])
  {
    var e := h + [Turn(Model, reply)];
    forall k | 0 <= k < |e|
      ensures e[k].text != []
    {
      if k < |h| {
        assert e[k] == h[k];
      }
    }
  }

  /** Adding a non-empty user turn and then a non-empty model turn keeps a history well formed. */
  lemma ExchangeWellFormed(h: seq<Turn>, message: string, reply: string)
    requires WellFormed(h) && message != [] && reply != []
    ensures WellFormed(AddUserTurn(h, message))
    ensures WellFormed(AddUserTurn(h, message) + [Turn(Model, reply)])
  {
    UserTurnWellFormed(h, message);
    ModelTurnWellFormed(AddUserTurn(h, message), reply);
  }

  function Min(a: nat, b: nat): nat { if a <= b then a else b }

  /**
   * A stored history keeps the tail of a transcript: it ends the transcript
   * and holds its last eight turns, or all of them when there are fewer, and
   * never more than nine.
   */
  predicate KeepsTail(stored: seq<Turn>, transcript: seq<Turn>) {
    IsSuffix(stored, transcript) && Min(|transcript|, MaxTurns) <= |stored| <= MaxTurns + 1
  }

  /** Pushing a user turn and cutting keeps the tail of the transcript extended by that turn. */
  lemma UserTurnKeepsTail(h: seq<Turn>, transcript: seq<Turn>, message: string)
    requires KeepsTail(h, transcript)
    ensures KeepsTail(AddUserTurn(h, message), transcript + [Turn(User, message)])
  {
    var u := Turn(User, message);
    SuffixAppend(h, transcript, [u]);
    SuffixTransitive(AddUserTurn(h, message), h + [u], transcript + [u]);
  }

  /** The same, followed by the model's turn: the transcript grows by both turns. */
  lemma ExchangeKeepsTail(h: seq<Turn>, transcript: seq<Turn>, message: string, reply: string)
    requires KeepsTail(h, transcript)
    ensures KeepsTail(AddUserTurn(h, message) + [Turn(Model, reply)],
                      transcript + [Turn(User, message), Turn(Model, reply)])
  {
    var u := Turn(User, message);
    var mm := Turn(Model, reply);
    UserTurnKeepsTail(h, transcript, message);
    SuffixAppend(AddUserTurn(h, message), transcript + [u], [mm]);
    assert transcript + [u] + [mm] == transcript + [u, mm];
  }
}
