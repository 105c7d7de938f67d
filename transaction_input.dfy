/**
 * The manual entry form (src/components/TransactionInput.tsx): the user
 * types or pastes text, "parse" sends it to the language model and shows
 * the parsed transactions, "save" inserts them for the user. The form's
 * React state is a class whose fields the two handlers update; the parse
 * call, the insert and the parent's callback are parameters and results.
 */
module TransactionInput {
  import opened Wrappers
  import opened Records
  import opened Text
  import GeminiClient

  const EMPTY_TEXT_MESSAGE := "Please enter transaction text"
  const PARSE_FALLBACK_MESSAGE := "Failed to parse transactions"
  const NOTHING_TO_SAVE_MESSAGE := "No transactions to save"
  const SAVE_FALLBACK_MESSAGE := "Failed to save transactions"
  const PARSED_PREFIX := "Successfully parsed "
  const SAVED_PREFIX := "Saved "
  const PARSED_SUFFIX := " transaction(s)!"
  const SAVED_SUFFIX := " transaction(s) successfully!"

  /** `Successfully parsed ${n} transaction(s)!` */
  function ParsedMessage(n: nat): string
  {
    PARSED_PREFIX + NatToString(n) + PARSED_SUFFIX
  }

  /** `Saved ${n} transaction(s) successfully!` */
  function SavedMessage(n: nat): string
  {
    SAVED_PREFIX + NatToString(n) + SAVED_SUFFIX
  }

  /** The count can be read back from either message, so different counts give different messages. */
  lemma MessagesCarryCount(n: nat)
    ensures var m := ParsedMessage(n);
      |m| > |PARSED_PREFIX| + |PARSED_SUFFIX|
      && DecimalValue(m[|PARSED_PREFIX|..|m| - |PARSED_SUFFIX|]) == n
    ensures var m := SavedMessage(n);
      |m| > |SAVED_PREFIX| + |SAVED_SUFFIX|
      && DecimalValue(m[|SAVED_PREFIX|..|m| - |SAVED_SUFFIX|]) == n
  {
    var digits := NatToString(n);
    DecimalRoundTrip(n);
    var m := ParsedMessage(n);
    assert m[|PARSED_PREFIX|..|m| - |PARSED_SUFFIX|] == digits;
    var w := SavedMessage(n);
    assert w[|SAVED_PREFIX|..|w| - |SAVED_SUFFIX|] == digits;
  }

  /** `parsedTransactions.map(...)`: every row carries the user and the whole input text. */
  function ManualRows(ps: seq<ParsedTransaction>, userId: string, text: string): (rows: seq<InsertRow>)
    ensures |rows| == |ps|
    ensures forall k :: 0 <= k < |ps| ==>
              RowFields(rows[k]) == ps[k] && rows[k].userId == userId && rows[k].rawText == text
  {
    if ps == [] then [] else ManualRows(ps[..|ps| - 1], userId, text) + [ToRow(ps[|ps| - 1], userId, text)]
  }

  /** The component's state. */
  class TransactionForm {
    const userId: string
    var text: string
    var loading: bool
    var parsed: seq<ParsedTransaction>
    var error: string
    var success: string

    /** The initial `useState` values. */
    constructor (userId: string)
      ensures this.userId == userId
      ensures text == "" && !loading && parsed == [] && error == "" && success == ""
    {
      this.userId := userId;
      text := "";
      loading := false;
      parsed := [];
      error := "";
      success := "";
    }

    /**
     * After a parse: a success shows the list and its count with no error,
     * a failure an empty list and the error's message with no success text.
     */
    predicate Shows(result: Result<seq<ParsedTransaction>, Raised>)
      reads this
    {
      match result
      case Ok(ps) => parsed == ps && success == ParsedMessage(|ps|) && error == ""
      case Err(e) => parsed == [] && success == "" && error == MessageOr(e, PARSE_FALLBACK_MESSAGE)
    }

    /** The textarea's `onChange`. */
    method SetText(t: string)
      modifies this
      ensures text == t
      ensures loading == old(loading) && parsed == old(parsed) && error == old(error) && success == old(success)
    {
      text := t;
    }

    /**
     * `handleParse`: blank text only sets an error; otherwise the old
     * results are cleared and replaced by the parse's outcome.
     */
    method HandleParse(key: Option<string>, gemini: string -> GeminiClient.GenerateReply,
                       parseJson: string -> Result<seq<ParsedTransaction>, Raised>)
      modifies this
      ensures text == old(text)
      ensures IsBlank(old(text)) ==>
                && error == EMPTY_TEXT_MESSAGE && parsed == old(parsed) && success == old(success)
                && loading == old(loading)
      ensures !IsBlank(old(text)) ==>
                !loading && Shows(GeminiClient.ParseTransactionText(key, old(text), gemini, parseJson))
    {
      if TrimmedEmpty(text) {
        error := EMPTY_TEXT_MESSAGE;
        return;
      }
      Parse(key, gemini, parseJson);
    }

    /** The part of `handleParse` after its guard: clear, call the parser, show its outcome. */
    method Parse(key: Option<string>, gemini: string -> GeminiClient.GenerateReply,
                 parseJson: string -> Result<seq<ParsedTransaction>, Raised>)
      modifies this
      ensures text == old(text) && !loading
      ensures Shows(GeminiClient.ParseTransactionText(key, old(text), gemini, parseJson))
    {
      loading := true;
      error := "";
      success := "";
      parsed := [];
      var result := GeminiClient.ParseTransactionText(key, text, gemini, parseJson);
      if result.Ok? {
        parsed := result.value;
        success := ParsedMessage(|result.value|);
      } else {
        error := MessageOr(result.error, PARSE_FALLBACK_MESSAGE);
      }
      loading := false;
    }

    /**
     * `handleSave`: with nothing parsed it only sets an error and inserts
     * nothing; otherwise it inserts one row per parsed transaction. The
     * rows handed to the insert are returned in `attempted`, and
     * `notified` says whether `onTransactionsAdded` was called.
     */
    method HandleSave(insert: seq<InsertRow> -> Option<Raised>)
      returns (attempted: Option<seq<InsertRow>>, notified: bool)
      modifies this
      ensures old(parsed) == [] ==>
                && attempted.None? && !notified && error == NOTHING_TO_SAVE_MESSAGE
                && text == old(text) && parsed == old(parsed) && success == old(success) && loading == old(loading)
      ensures old(parsed) != [] ==> attempted == Some(ManualRows(old(parsed), userId, old(text))) && !loading
      ensures old(parsed) != [] && insert(ManualRows(old(parsed), userId, old(text))).None? ==>
                && notified && error == "" && success == SavedMessage(|old(parsed)|)
                && text == "" && parsed == []
      ensures old(parsed) != [] && insert(ManualRows(old(parsed), userId, old(text))).Some? ==>
                && !notified
                && error == MessageOr(insert(ManualRows(old(parsed), userId, old(text))).value, SAVE_FALLBACK_MESSAGE)
                && text == old(text) && parsed == old(parsed) && success == old(success)
    {
      if |parsed| == 0 {
        error := NOTHING_TO_SAVE_MESSAGE;
        return None, false;
      }
      loading := true;
      error := "";
      var rows := ManualRows(parsed, userId, text);
      var failure := insert(rows);
      attempted := Some(rows);
      if failure.Some? {
        error := MessageOr(failure.value, SAVE_FALLBACK_MESSAGE);
        notified := false;
      } else {
        success := SavedMessage(|parsed|);
        text := "";
        parsed := [];
        notified := true;
      }
      loading := false;
    }
  }

  /**
   * Parse then save with a failing insert: the parsed list stays, so the
   * save can be retried with the same rows.
   */
  method RetryAfterFailedSave(form: TransactionForm, insert: seq<InsertRow> -> Option<Raised>)
    returns (first: Option<seq<InsertRow>>, second: Option<seq<InsertRow>>)
    requires form.parsed != []
    requires insert(ManualRows(form.parsed, form.userId, form.text)).Some?
    modifies form
    ensures first == second && first.Some?
  {
    var n;
    first, n := form.HandleSave(insert);
    second, n := form.HandleSave(insert);
  }
}
