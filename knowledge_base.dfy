/**
 * The knowledge base of the chat handler: the rows of the FAQ table as
 * normalised at load time, the best-match search over them and the reply
 * built from a hit.
 *
 * The similarity score is the `string-similarity` library's, which is not
 * part of this model: it enters as a parameter `rate`. The search picks the
 * first entry of maximal score, as the library's left-to-right scan with a
 * strict `>` does.
 */
module KnowledgeBase {
  import opened Wrappers
  import opened JsText

  /** One CSV row as the parser delivers it: a column that is missing is `None`. */
  datatype Row = Row(question: Option<string>, answer: Option<string>, lawReference: Option<string>)

  /** One element of `legalData`. */
  datatype Entry = Entry(question: string, answer: string, lawReference: string)

  /** A match must score strictly above this to be accepted. */
  const Threshold: real := 0.65

  /** The separator between an answer and its law reference. */
  const Footer: string := "\n\n\U{1F4D8} Related Law: "

  /** The load-time normalisation of one row: a missing column becomes "", the question is lower-cased. */
  function NormalizeRow(row: Row): (e: Entry)
    ensures IsLower(e.question)
    ensures e.question == Lower(row.question.GetOr(""))
    ensures row.answer.None? ==> e.answer == ""
    ensures row.answer.Some? ==> e.answer == row.answer.value
    ensures row.lawReference.None? ==> e.lawReference == ""
    ensures row.lawReference.Some? ==> e.lawReference == row.lawReference.value
  {
    Entry(Lower(row.question.GetOr("")), row.answer.GetOr(""), row.lawReference.GetOr(""))
  }

  /** The index of the first maximum of a non-empty list of scores. */
  function FirstMaxIndex(scores: seq<real>): (i: nat)
    requires |scores| > 0
    ensures i < |scores|
    ensures forall j :: 0 <= j < |scores| ==> scores[j] <= scores[i]
    ensures forall j :: 0 <= j < i ==> scores[j] < scores[i]
  {
    if |scores| == 1 then 0
    else
      var k := FirstMaxIndex(scores[..|scores| - 1]);
      if scores[|scores| - 1] > scores[k] then |scores| - 1 else k
  }

  /** The score of every stored question against the query, in load order. */
  function Scores(kb: seq<Entry>, rate: (string, string) -> real, query: string): seq<real> {
    seq(|kb|, j requires 0 <= j < |kb| => rate(query, kb[j].question))
  }

  /**
   * The knowledge lookup for a trimmed message: nothing when the knowledge
   * base is empty, otherwise the first best-scoring entry if its score is
   * above the threshold. The message is lower-cased before it is compared.
   */
  function Lookup(kb: seq<Entry>, rate: (string, string) -> real, message: string): (r: Option<nat>)
    ensures r.Some? ==> r.value < |kb| && rate(Lower(message), kb[r.value].question) > Threshold
    ensures r.Some? ==> forall j :: 0 <= j < |kb| ==> rate(Lower(message), kb[j].question) <= rate(Lower(message), kb[r.value].question)
    ensures r.Some? ==> forall j :: 0 <= j < r.value ==> rate(Lower(message), kb[j].question) < rate(Lower(message), kb[r.value].question)
  {
    if |kb| == 0 then None
    else
      var s := Scores(kb, rate, Lower(message));
      assert forall j :: 0 <= j < |kb| ==> s[j] == rate(Lower(message), kb[j].question);
      var i := FirstMaxIndex(s);
      if rate(Lower(message), kb[i].question) > Threshold then Some(i) else None
  }

  /** There is a hit exactly when some stored question scores above the threshold. */
  lemma LookupHitIff(kb: seq<Entry>, rate: (string, string) -> real, message: string)
    ensures Lookup(kb, rate, message).Some? <==>
      exists j :: 0 <= j < |kb| && rate(Lower(message), kb[j].question) > Threshold
  {
    if j :| 0 <= j < |kb| && rate(Lower(message), kb[j].question) > Threshold {
      var s := Scores(kb, rate, Lower(message));
      var i := FirstMaxIndex(s);
      assert s[j] <= s[i];
    }
  }

  /** The reply for a hit: the answer, then the footer and the reference when the reference is non-empty. */
  function FormatAnswer(e: Entry): string {
    if e.lawReference != "" then e.answer + Footer + e.lawReference else e.answer
  }

  /**
   * Reading a formatted reply back: it starts with the answer, and what follows
   * the answer is empty exactly when there is no reference, and otherwise is the
   * footer followed by the reference.
   */
  lemma FormatAnswerParts(e: Entry)
    ensures |FormatAnswer(e)| >= |e.answer| && FormatAnswer(e)[..|e.answer|] == e.answer
    ensures FormatAnswer(e)[|e.answer|..] == [] <==> e.lawReference == []
    ensures e.lawReference != [] ==>
      FormatAnswer(e)[|e.answer|..|e.answer| + |Footer|] == Footer &&
      FormatAnswer(e)[|e.answer| + |Footer|..] == e.lawReference
  {
  }

  /** The reply for a hit is empty only when the entry has neither an answer nor a reference. */
  lemma FormatAnswerEmpty(e: Entry)
    ensures FormatAnswer(e) == [] <==> e.answer == [] && e.lawReference == []
  {
  }

  /** What the library promises about its score, as far as this model needs it. */
  ghost predicate IsSimilarity(rate: (string, string) -> real) {
    && (forall a, b :: 0.0 <= rate(a, b) <= 1.0)
    && (forall a :: rate(a, a) == 1.0)
  }

  /**
   * A message that equals a stored question up to ASCII case is always a hit
   * (its score is 1, above the threshold), and the hit is an entry at or before
   * that question whose score is also 1.
   */
  lemma ExactQuestionHits(kb: seq<Entry>, rate: (string, string) -> real, message: string, i: nat)
    requires IsSimilarity(rate)
    requires i < |kb| && Lower(message) == kb[i].question
    ensures Lookup(kb, rate, message).Some?
    ensures Lookup(kb, rate, message).value <= i
    ensures rate(Lower(message), kb[Lookup(kb, rate, message).value].question) == 1.0
  {
    assert rate(Lower(message), kb[i].question) == 1.0;
    LookupHitIff(kb, rate, message);
    var h := Lookup(kb, rate, message).value;
    assert rate(Lower(message), kb[h].question) <= 1.0;
  }
}
