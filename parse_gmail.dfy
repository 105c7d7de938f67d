/**
 * The import edge function (supabase/functions/parse-gmail/index.ts): each
 * email of the request becomes one text, the language model parses it,
 * every parsed transaction is tagged with the email's id, and all of them
 * are inserted for the authenticated user in one call. The first failure
 * anywhere aborts the request before the insert.
 */
module ParseGmail {
  import opened Wrappers
  import opened Records
  import GeminiClient
  import EdgeAuth

  const GEMINI_FAILED_MESSAGE := "Failed to parse with Gemini"
  const NO_EMAILS_MESSAGE := "No emails provided"

  /**
   * `parseWithGemini`: the same prompt and scraping as the front end, but
   * no key guard and its own message for a non-2xx status.
   */
  function ParseWithGemini(text: string, gemini: string -> GeminiClient.GenerateReply,
                           parseJson: string -> Result<seq<ParsedTransaction>, Raised>)
    : Result<seq<ParsedTransaction>, Raised>
  {
    match gemini(GeminiClient.TransactionPrompt(text))
    case NotOk => Err(ErrorValue(GEMINI_FAILED_MESSAGE))
    case Threw(e) => Err(e)
    case Answered(t) => GeminiClient.ParseGenerated(t, parseJson)
  }

  /**
   * With a key configured, the server-side parser agrees with the browser's
   * `parseTransactionText` except for the message of a non-2xx reply.
   */
  lemma ParseWithGeminiMatchesClient(key: Option<string>, text: string, gemini: string -> GeminiClient.GenerateReply,
                                     parseJson: string -> Result<seq<ParsedTransaction>, Raised>)
    requires GeminiClient.KeyConfigured(key)
    ensures gemini(GeminiClient.TransactionPrompt(text)) != GeminiClient.NotOk
            ==> ParseWithGemini(text, gemini, parseJson) == GeminiClient.ParseTransactionText(key, text, gemini, parseJson)
    ensures gemini(GeminiClient.TransactionPrompt(text)) == GeminiClient.NotOk
            ==> && ParseWithGemini(text, gemini, parseJson) == Err(ErrorValue(GEMINI_FAILED_MESSAGE))
                && GeminiClient.ParseTransactionText(key, text, gemini, parseJson)
                   == Err(ErrorValue(GeminiClient.PARSE_FAILED_MESSAGE))
  {
  }

  /** The text handed to the parser for one email. */
  function EmailText(e: Email): string
  {
    "Subject: " + e.subject + "\n\nFrom: " + e.from + "\n\nContent: " + e.body
  }

  /** Each field of the email stands verbatim at a fixed place of its text. */
  lemma EmailTextFields(e: Email)
    ensures var t := EmailText(e);
      && |t| == 9 + |e.subject| + 8 + |e.from| + 11 + |e.body|
      && t[..9] == "Subject: "
      && t[9..9 + |e.subject|] == e.subject
      && t[9 + |e.subject|..17 + |e.subject|] == "\n\nFrom: "
      && t[17 + |e.subject|..17 + |e.subject| + |e.from|] == e.from
      && t[17 + |e.subject| + |e.from|..28 + |e.subject| + |e.from|] == "\n\nContent: "
      && t[28 + |e.subject| + |e.from|..] == e.body
  {
  }

  /** A parsed transaction spread into a new object with `source: email.id`. */
  datatype Sourced = Sourced(tx: ParsedTransaction, source: string)

  /** The transactions of one email, tagged with its id. */
  function Tagged(ps: seq<ParsedTransaction>, source: string): (r: seq<Sourced>)
    ensures |r| == |ps|
    ensures forall k :: 0 <= k < |ps| ==> r[k] == Sourced(ps[k], source)
  {
    if ps == [] then [] else Tagged(ps[..|ps| - 1], source) + [Sourced(ps[|ps| - 1], source)]
  }

  /**
   * `allTransactions` after the loop over `emails`: the tagged lists in email
   * order, or the first email's failure.
   */
  function Accumulate(emails: seq<Email>, parse: Email -> Result<seq<ParsedTransaction>, Raised>)
    : Result<seq<Sourced>, Raised>
  {
    if emails == [] then Ok([])
    else
      var e := emails[|emails| - 1];
      match Accumulate(emails[..|emails| - 1], parse)
      case Err(err) => Err(err)
      case Ok(before) =>
        match parse(e)
        case Err(err) => Err(err)
        case Ok(ps) => Ok(before + Tagged(ps, e.id))
  }

  /** What the handler does with one email: parse its text. */
  function ParseEmail(gemini: string -> GeminiClient.GenerateReply,
                      parseJson: string -> Result<seq<ParsedTransaction>, Raised>)
    : Email -> Result<seq<ParsedTransaction>, Raised>
  {
    e => ParseWithGemini(EmailText(e), gemini, parseJson)
  }

  /** Accumulation is a fold: over two batches it is the first batch's list followed by the second's. */
  lemma {:induction false} AccumulateAppend(a: seq<Email>, b: seq<Email>, parse: Email -> Result<seq<ParsedTransaction>, Raised>)
    ensures Accumulate(a + b, parse)
         == match (Accumulate(a, parse), Accumulate(b, parse))
            case (Err(e), _) => Err(e)
            case (Ok(_), Err(e)) => Err(e)
            case (Ok(x), Ok(y)) => Ok(x + y)
  {
    if b == [] {
      assert a + b == a;
      if Accumulate(a, parse).Ok? {
        assert Accumulate(a, parse).value + [] == Accumulate(a, parse).value;
      }
    } else {
      var init := b[..|b| - 1];
      assert (a + b)[..|a + b| - 1] == a + init;
      assert (a + b)[|a + b| - 1] == b[|b| - 1];
      AccumulateAppend(a, init, parse);
      var last := b[|b| - 1];
      if Accumulate(a, parse).Ok? && Accumulate(init, parse).Ok? && parse(last).Ok? {
        var x, y, t := Accumulate(a, parse).value, Accumulate(init, parse).value, Tagged(parse(last).value, last.id);
        assert (x + y) + t == x + (y + t);
      }
    }
  }

  /** The import succeeds exactly when every email parses. */
  lemma {:induction false} AccumulateOkIff(emails: seq<Email>, parse: Email -> Result<seq<ParsedTransaction>, Raised>)
    ensures Accumulate(emails, parse).Ok?
        <==> forall k :: 0 <= k < |emails| ==> parse(emails[k]).Ok?
  {
    if emails != [] {
      var init := emails[..|emails| - 1];
      AccumulateOkIff(init, parse);
      assert forall k :: 0 <= k < |init| ==> init[k] == emails[k];
    }
  }

  /** A failed import reports the error of the first email that failed to parse. */
  lemma {:induction false} AccumulateFirstError(emails: seq<Email>, parse: Email -> Result<seq<ParsedTransaction>, Raised>)
    requires Accumulate(emails, parse).Err?
    ensures exists k :: 0 <= k < |emails|
              && parse(emails[k]) == Err(Accumulate(emails, parse).error)
              && forall j :: 0 <= j < k ==> parse(emails[j]).Ok?
  {
    var init := emails[..|emails| - 1];
    var k := |emails| - 1;
    assert forall j :: 0 <= j < |init| ==> init[j] == emails[j];
    AccumulateOkIff(init, parse);
    if Accumulate(init, parse).Err? {
      AccumulateFirstError(init, parse);
    }
  }

  /** The number of transactions the parser returned over all emails. */
  function ParsedCount(emails: seq<Email>, parse: Email -> Result<seq<ParsedTransaction>, Raised>): nat
  {
    if emails == [] then 0
    else
      var r := parse(emails[|emails| - 1]);
      ParsedCount(emails[..|emails| - 1], parse) + (if r.Ok? then |r.value| else 0)
  }

  /** On success the accumulated list holds every parsed transaction, each tagged with its email's id. */
  lemma {:induction false} AccumulateContents(emails: seq<Email>, parse: Email -> Result<seq<ParsedTransaction>, Raised>)
    requires Accumulate(emails, parse).Ok?
    ensures |Accumulate(emails, parse).value| == ParsedCount(emails, parse)
    ensures forall x :: x in Accumulate(emails, parse).value ==>
              exists k :: 0 <= k < |emails| && x.source == emails[k].id
                && parse(emails[k]).Ok? && x.tx in parse(emails[k]).value
  {
    if emails != [] {
      var init := emails[..|emails| - 1];
      var e := emails[|emails| - 1];
      AccumulateContents(init, parse);
      var before := Accumulate(init, parse).value;
      var ps := parse(e).value;
      forall x | x in Accumulate(emails, parse).value
        ensures exists k :: 0 <= k < |emails| && x.source == emails[k].id
                  && parse(emails[k]).Ok? && x.tx in parse(emails[k]).value
      {
        if x in before {
          var k :| 0 <= k < |init| && x.source == init[k].id
                   && parse(init[k]).Ok? && x.tx in parse(init[k]).value;
          assert emails[k] == init[k];
        } else {
          var t := Tagged(ps, e.id);
          assert x in t;
          var j :| 0 <= j < |t| && t[j] == x;
          assert x.tx == ps[j];
        }
      }
    }
  }

  /** `allTransactions.map(...)`: one insert row per accumulated transaction, with the email id as `raw_text`. */
  function ImportRows(all: seq<Sourced>, userId: string): (rows: seq<InsertRow>)
    ensures |rows| == |all|
    ensures forall k :: 0 <= k < |all| ==> rows[k] == ToRow(all[k].tx, userId, all[k].source)
  {
    if all == [] then [] else ImportRows(all[..|all| - 1], userId) + [ToRow(all[|all| - 1].tx, userId, all[|all| - 1].source)]
  }

  /** The parts of the POST request the handler reads; `emails` is `None` when the body's field is not an array. */
  datatype ImportRequest = ImportRequest(httpMethod: string, authorization: Option<string>, emails: Option<seq<Email>>)

  /** `{ success: true, transactionsCount }`, `{ error }` with status 400, or the CORS preflight answer. */
  datatype ImportResponse = Preflight | Imported(transactionsCount: nat) | Rejected(message: string)

  /** A request that gets past the preflight, the user check and the emails guard. */
  predicate Admitted(req: ImportRequest, getUser: string -> Option<string>)
  {
    && req.httpMethod != "OPTIONS"
    && EdgeAuth.Authenticate(req.authorization, getUser).Ok?
    && req.emails.Some? && req.emails.value != []
  }

  /**
   * The whole handler as a function: the response, and the rows handed to
   * the insert (`None` when no insert was attempted). `insert` returns the
   * error the database reported, if any.
   */
  function ImportOutcome(req: ImportRequest, getUser: string -> Option<string>,
                         gemini: string -> GeminiClient.GenerateReply,
                         parseJson: string -> Result<seq<ParsedTransaction>, Raised>,
                         insert: seq<InsertRow> -> Option<Raised>)
    : (r: (ImportResponse, Option<seq<InsertRow>>))
    ensures r.1.Some? ==> && req.emails.Some?
                          && Accumulate(req.emails.value, ParseEmail(gemini, parseJson)).Ok?
                          && EdgeAuth.Authenticate(req.authorization, getUser).Ok?
                          && r.1.value == ImportRows(Accumulate(req.emails.value, ParseEmail(gemini, parseJson)).value,
                                                     EdgeAuth.Authenticate(req.authorization, getUser).value)
    ensures r.0.Imported? ==> r.1.Some? && r.0.transactionsCount == |r.1.value| && insert(r.1.value).None?
    ensures r.1.Some? && insert(r.1.value).Some? ==> r.0.Rejected?
    ensures req.httpMethod != "OPTIONS" && r.1.None? ==> r.0.Rejected?
    ensures req.httpMethod == "OPTIONS" ==> r == (Preflight, None)
    ensures req.httpMethod != "OPTIONS" && EdgeAuth.Authenticate(req.authorization, getUser).Err?
            ==> r == (Rejected(MessageOr(EdgeAuth.Authenticate(req.authorization, getUser).error,
                                         EdgeAuth.UNKNOWN_ERROR_MESSAGE)), None)
    ensures req.httpMethod != "OPTIONS" && EdgeAuth.Authenticate(req.authorization, getUser).Ok?
            && (req.emails.None? || req.emails.value == [])
            ==> r == (Rejected(NO_EMAILS_MESSAGE), None)
    ensures Admitted(req, getUser) && Accumulate(req.emails.value, ParseEmail(gemini, parseJson)).Err?
            ==> r == (Rejected(MessageOr(Accumulate(req.emails.value, ParseEmail(gemini, parseJson)).error,
                                         EdgeAuth.UNKNOWN_ERROR_MESSAGE)), None)
    ensures Admitted(req, getUser) && Accumulate(req.emails.value, ParseEmail(gemini, parseJson)).Ok?
            ==> r.1 == Some(ImportRows(Accumulate(req.emails.value, ParseEmail(gemini, parseJson)).value,
                                       EdgeAuth.Authenticate(req.authorization, getUser).value))
    ensures Admitted(req, getUser) && Accumulate(req.emails.value, ParseEmail(gemini, parseJson)).Ok?
            && r.1.Some? && insert(r.1.value).None?
            ==> r.0 == Imported(|Accumulate(req.emails.value, ParseEmail(gemini, parseJson)).value|)
    ensures Admitted(req, getUser) && Accumulate(req.emails.value, ParseEmail(gemini, parseJson)).Ok?
            && r.1.Some? && insert(r.1.value).Some?
            ==> r.0 == Rejected(MessageOr(insert(r.1.value).value, EdgeAuth.UNKNOWN_ERROR_MESSAGE))
  {
    if req.httpMethod == "OPTIONS" then (Preflight, None)
    else
      match EdgeAuth.Authenticate(req.authorization, getUser)
      case Err(e) => (Rejected(MessageOr(e, EdgeAuth.UNKNOWN_ERROR_MESSAGE)), None)
      case Ok(user) =>
        if req.emails.None? || req.emails.value == [] then (Rejected(NO_EMAILS_MESSAGE), None)
        else
          match Accumulate(req.emails.value, ParseEmail(gemini, parseJson))
          case Err(e) => (Rejected(MessageOr(e, EdgeAuth.UNKNOWN_ERROR_MESSAGE)), None)
          case Ok(all) =>
            var rows := ImportRows(all, user);
            match insert(rows)
            case Some(e) => (Rejected(MessageOr(e, EdgeAuth.UNKNOWN_ERROR_MESSAGE)), Some(rows))
            case None => (Imported(|all|), Some(rows))
  }

  /** A failed prefix fails the whole batch with the same error. */
  lemma AccumulateAbort(emails: seq<Email>, n: nat, parse: Email -> Result<seq<ParsedTransaction>, Raised>)
    requires n <= |emails| && Accumulate(emails[..n], parse).Err?
    ensures Accumulate(emails, parse) == Accumulate(emails[..n], parse)
  {
    assert emails == emails[..n] + emails[n..];
    AccumulateAppend(emails[..n], emails[n..], parse);
  }

  /** `allTransactions.push(...transactions.map(...))` for one email's list. */
  method PushTagged(all: seq<Sourced>, ps: seq<ParsedTransaction>, source: string) returns (r: seq<Sourced>)
    ensures r == all + Tagged(ps, source)
  {
    r := all;
    for j := 0 to |ps|
      invariant r == all + Tagged(ps[..j], source)
    {
      assert ps[..j + 1][..j] == ps[..j];
      r := r + [Sourced(ps[j], source)];
    }
    assert ps[..|ps|] == ps;
  }

  /** The `for (const email of emails)` loop; a failed parse throws out of it. */
  method ParseAll(emails: seq<Email>, parse: Email -> Result<seq<ParsedTransaction>, Raised>)
    returns (r: Result<seq<Sourced>, Raised>)
    ensures r == Accumulate(emails, parse)
  {
    var all: seq<Sourced> := [];
    for i := 0 to |emails|
      invariant Accumulate(emails[..i], parse) == Ok(all)
    {
      var email := emails[i];
      assert emails[..i + 1][..i] == emails[..i];
      var parsed := parse(email);
      if parsed.Err? {
        AccumulateAbort(emails, i + 1, parse);
        return Err(parsed.error);
      }
      all := PushTagged(all, parsed.value, email.id);
    }
    assert emails[..|emails|] == emails;
    return Ok(all);
  }

  /**
   * The Deno.serve handler: the preflight answer, the user check, the
   * emails guard, the parsing loop, then one insert of the mapped rows;
   * anything thrown becomes a 400 with its message.
   */
  method HandleImport(req: ImportRequest, getUser: string -> Option<string>,
                      gemini: string -> GeminiClient.GenerateReply,
                      parseJson: string -> Result<seq<ParsedTransaction>, Raised>,
                      insert: seq<InsertRow> -> Option<Raised>)
    returns (resp: ImportResponse, inserted: Option<seq<InsertRow>>)
    ensures (resp, inserted) == ImportOutcome(req, getUser, gemini, parseJson, insert)
  {
    if req.httpMethod == "OPTIONS" {
      return Preflight, None;
    }
    var auth := EdgeAuth.Authenticate(req.authorization, getUser);
    if auth.Err? {
      return Rejected(MessageOr(auth.error, EdgeAuth.UNKNOWN_ERROR_MESSAGE)), None;
    }
    if req.emails.None? || |req.emails.value| == 0 {
      return Rejected(NO_EMAILS_MESSAGE), None;
    }
    var accumulated := ParseAll(req.emails.value, ParseEmail(gemini, parseJson));
    if accumulated.Err? {
      return Rejected(MessageOr(accumulated.error, EdgeAuth.UNKNOWN_ERROR_MESSAGE)), None;
    }
    var rows := ImportRows(accumulated.value, auth.value);
    var failure := insert(rows);
    if failure.Some? {
      return Rejected(MessageOr(failure.value, EdgeAuth.UNKNOWN_ERROR_MESSAGE)), Some(rows);
    }
    return Imported(|accumulated.value|), Some(rows);
  }
}
