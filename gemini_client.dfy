/**
 * The front end's client of the generative-language API (src/lib/gemini.ts):
 * the API-key guard, the fixed prompt templates, the scraping of a JSON
 * array out of the model's free-form reply, and the fallbacks for an empty
 * reply. The HTTP call is the parameter `gemini`, a function from the prompt
 * to the reply it gets; `JSON.parse` is the parameter `parseJson`.
 */
module GeminiClient {
  import opened Wrappers
  import opened Records
  import opened Text

  const API_KEY_PLACEHOLDER := "your_gemini_api_key_here"
  const MISSING_KEY_MESSAGE := "Please add your Gemini API key to the .env file"
  const PARSE_FAILED_MESSAGE := "Failed to parse transaction with Gemini API"
  const ASK_FAILED_MESSAGE := "Failed to get response from Gemini API"
  const NO_ANSWER_TEXT := "Sorry, I could not generate a response."
  const EMPTY_ARRAY := "[]"

  /** The transaction-parsing prompt up to the embedded text. */
  const TRANSACTION_PROMPT_HEADER :=
    "You are a financial transaction parser. Extract structured transaction data from the following text.\n"
    + "Return a JSON array of transactions with this exact format:\n"
    + "[{\n"
    + "  \"amount\": number (positive value),\n"
    + "  \"type\": \"credit\" or \"debit\",\n"
    + "  \"category\": one of [\"Food & Dining\", \"Shopping\", \"Transport\", \"Bills & Utilities\", "
    + "\"Entertainment\", \"Healthcare\", \"Salary\", \"Investment\", \"Other\"],\n"
    + "  \"merchant\": string (store/company name),\n"
    + "  \"description\": string (brief description),\n"
    + "  \"transaction_date\": ISO date string (YYYY-MM-DD)\n"
    + "}]\n"
    + "\n"
    + "Text to parse:\n"

  /** The transaction-parsing prompt after the embedded text. */
  const TRANSACTION_PROMPT_TRAILER := "\n\nReturn ONLY valid JSON, no markdown or explanations."

  /**
   * What one `generateContent` call yields: a non-2xx status, a JSON body
   * whose first candidate's first part may carry a text, or an exception
   * (from `fetch`, from `response.json()`, or from reading the candidate path).
   */
  datatype GenerateReply = NotOk | Answered(firstText: Option<string>) | Threw(error: Raised)

  /** `GEMINI_API_KEY` is set, non-empty and not the placeholder of the sample `.env`. */
  predicate KeyConfigured(key: Option<string>)
  {
    Truthy(key) && key.value != API_KEY_PLACEHOLDER
  }

  /** The prompt sent to parse `text`: the fixed header, the text verbatim, the fixed trailer. */
  function TransactionPrompt(text: string): (p: string)
    ensures |p| == |TRANSACTION_PROMPT_HEADER| + |text| + |TRANSACTION_PROMPT_TRAILER|
    ensures p[..|TRANSACTION_PROMPT_HEADER|] == TRANSACTION_PROMPT_HEADER
    ensures p[|TRANSACTION_PROMPT_HEADER|..|p| - |TRANSACTION_PROMPT_TRAILER|] == text
    ensures p[|p| - |TRANSACTION_PROMPT_TRAILER|..] == TRANSACTION_PROMPT_TRAILER
  {
    TRANSACTION_PROMPT_HEADER + text + TRANSACTION_PROMPT_TRAILER
  }

  /** Different texts give different prompts: the text can be read back from the prompt. */
  lemma TransactionPromptInjective(a: string, b: string)
    requires TransactionPrompt(a) == TransactionPrompt(b)
    ensures a == b
  {
    var p := TransactionPrompt(a);
    assert a == p[|TRANSACTION_PROMPT_HEADER|..|p| - |TRANSACTION_PROMPT_TRAILER|] == b;
  }

  // ---------------------------------------------------------------------
  // Scraping the JSON array out of the reply: /\[[\s\S]*\]/
  // ---------------------------------------------------------------------

  /** `s[i..j]` is matched by `/\[[\s\S]*\]/`: it opens with `[` and closes with `]`. */
  predicate BracketSpan(s: string, i: nat, j: nat)
  {
    i + 2 <= j <= |s| && s[i] == '[' && s[j - 1] == ']'
  }

  /** The regex matches somewhere in `s`. */
  ghost predicate HasBracketSpan(s: string)
  {
    exists i: nat, j: nat :: BracketSpan(s, i, j)
  }

  /**
   * The match `String.prototype.match` reports: the leftmost start, and
   * from there the longest span, since `[\s\S]*` is greedy and accepts any
   * character, newlines included.
   */
  ghost predicate IsRegexMatch(s: string, i: nat, j: nat)
  {
    && BracketSpan(s, i, j)
    && forall i': nat, j': nat :: BracketSpan(s, i', j') ==> i <= i' && (i' == i ==> j' <= j)
  }

  /** `jsonMatch ? jsonMatch[0] : '[]'`: from the first `[` to the last `]`, or `[]` without a match. */
  function ExtractJsonArray(s: string): (r: string)
    ensures |r| >= 2 && r[0] == '[' && r[|r| - 1] == ']'
  {
    match (IndexOf(s, '['), LastIndexOf(s, ']'))
    case (Some(i), Some(j)) => if i < j then s[i..j + 1] else EMPTY_ARRAY
    case _ => EMPTY_ARRAY
  }

  /** The extraction is the regex's match when there is one, and `[]` otherwise. */
  lemma ExtractIsRegexMatch(s: string)
    ensures HasBracketSpan(s) ==> exists i: nat, j: nat :: IsRegexMatch(s, i, j) && ExtractJsonArray(s) == s[i..j]
    ensures !HasBracketSpan(s) ==> ExtractJsonArray(s) == EMPTY_ARRAY
  {
    var first, last := IndexOf(s, '['), LastIndexOf(s, ']');
    forall i': nat, j': nat | BracketSpan(s, i', j')
      ensures first.Some? && last.Some? && first.value <= i' && j' - 1 <= last.value
    {
      assert s[i'] == '[' && s[j' - 1] == ']';
    }
    if first.Some? && last.Some? && first.value < last.value {
      assert BracketSpan(s, first.value, last.value + 1);
      assert IsRegexMatch(s, first.value, last.value + 1);
    }
  }

  /** An array embedded between a prefix without `[` and a suffix without `]` is extracted exactly. */
  lemma ExtractRoundTrip(prefix: string, a: string, suffix: string)
    requires '[' !in prefix && ']' !in suffix
    requires |a| >= 2 && a[0] == '[' && a[|a| - 1] == ']'
    ensures ExtractJsonArray(prefix + a + suffix) == a
  {
    var s := prefix + a + suffix;
    var first, last := IndexOf(s, '['), LastIndexOf(s, ']');
    assert s[|prefix|] == '[';
    assert s[|prefix| + |a| - 1] == ']';
    assert first.Some? && first.value == |prefix| by {
      assert '[' in s;
    }
    assert last.Some? && last.value == |prefix| + |a| - 1 by {
      assert ']' in s;
    }
    assert s[|prefix|..|prefix| + |a|] == a;
  }

  /** Extracting from an extracted array changes nothing. */
  lemma ExtractIdempotent(s: string)
    ensures ExtractJsonArray(ExtractJsonArray(s)) == ExtractJsonArray(s)
  {
    var r := ExtractJsonArray(s);
    assert "" + r + "" == r;
    ExtractRoundTrip("", r, "");
  }

  /**
   * What both parsers do with a reply body: `text || '[]'`, the bracket
   * extraction, then `JSON.parse`, whose exception propagates unchanged.
   */
  function ParseGenerated(firstText: Option<string>, parseJson: string -> Result<seq<ParsedTransaction>, Raised>)
    : Result<seq<ParsedTransaction>, Raised>
  {
    parseJson(ExtractJsonArray(TruthyOr(firstText, EMPTY_ARRAY)))
  }

  /** A reply with no text, or an empty one, parses as the empty list. */
  lemma EmptyReplyParsesEmpty(firstText: Option<string>, parseJson: string -> Result<seq<ParsedTransaction>, Raised>)
    requires !Truthy(firstText)
    requires parseJson(EMPTY_ARRAY) == Ok([])
    ensures ParseGenerated(firstText, parseJson) == Ok([])
  {
    assert TruthyOr(firstText, EMPTY_ARRAY) == EMPTY_ARRAY;
    assert "" + EMPTY_ARRAY + "" == EMPTY_ARRAY;
    ExtractRoundTrip("", EMPTY_ARRAY, "");
  }

  /** A reply that wraps a JSON array in prose without brackets parses as that array. */
  lemma EmbeddedArrayParses(prefix: string, a: string, suffix: string,
                            parseJson: string -> Result<seq<ParsedTransaction>, Raised>)
    requires '[' !in prefix && ']' !in suffix
    requires |a| >= 2 && a[0] == '[' && a[|a| - 1] == ']'
    ensures ParseGenerated(Some(prefix + a + suffix), parseJson) == parseJson(a)
  {
    ExtractRoundTrip(prefix, a, suffix);
  }

  /**
   * `parseTransactionText`: the key guard comes before any request; a
   * non-2xx status raises a fixed error; any other exception is rethrown
   * unchanged; otherwise the reply is scraped and parsed.
   */
  function ParseTransactionText(key: Option<string>, text: string, gemini: string -> GenerateReply,
                                parseJson: string -> Result<seq<ParsedTransaction>, Raised>)
    : (r: Result<seq<ParsedTransaction>, Raised>)
    ensures !KeyConfigured(key) ==> r == Err(ErrorValue(MISSING_KEY_MESSAGE))
    ensures KeyConfigured(key) && gemini(TransactionPrompt(text)) == NotOk ==> r == Err(ErrorValue(PARSE_FAILED_MESSAGE))
    ensures KeyConfigured(key) && gemini(TransactionPrompt(text)).Threw? ==> r == Err(gemini(TransactionPrompt(text)).error)
    ensures KeyConfigured(key) && gemini(TransactionPrompt(text)).Answered?
            ==> r == ParseGenerated(gemini(TransactionPrompt(text)).firstText, parseJson)
  {
    if !KeyConfigured(key) then Err(ErrorValue(MISSING_KEY_MESSAGE))
    else
      match gemini(TransactionPrompt(text))
      case NotOk => Err(ErrorValue(PARSE_FAILED_MESSAGE))
      case Threw(e) => Err(e)
      case Answered(t) => ParseGenerated(t, parseJson)
  }

  // ---------------------------------------------------------------------
  // askGemini
  // ---------------------------------------------------------------------

  const ANSWER_PROMPT_HEADER :=
    "You are a financial assistant. Answer the user's question based on their transaction data.\n\n"
    + "Transaction Data:\n"
  const ANSWER_PROMPT_QUESTION := "\n\nUser Question: "
  const ANSWER_PROMPT_TRAILER := "\n\nProvide a clear, concise answer with specific numbers and insights."

  /** The question-answering prompt around the serialised transactions and the question. */
  function AnswerPrompt(question: string, transactionsJson: string): string
  {
    ANSWER_PROMPT_HEADER + transactionsJson + ANSWER_PROMPT_QUESTION + question + ANSWER_PROMPT_TRAILER
  }

  /**
   * `askGemini`: the same key guard, its own failure message, and a fixed
   * apology when the reply has no text, so an answer is never empty.
   * `transactionsJson` is `JSON.stringify(transactions, null, 2)`.
   */
  function AskGemini(key: Option<string>, question: string, transactionsJson: string, gemini: string -> GenerateReply)
    : (r: Result<string, Raised>)
    ensures !KeyConfigured(key) ==> r == Err(ErrorValue(MISSING_KEY_MESSAGE))
    ensures KeyConfigured(key) && gemini(AnswerPrompt(question, transactionsJson)) == NotOk
            ==> r == Err(ErrorValue(ASK_FAILED_MESSAGE))
    ensures r.Ok? ==> r.value != ""
    ensures KeyConfigured(key) && gemini(AnswerPrompt(question, transactionsJson)) == Answered(None)
            ==> r == Ok(NO_ANSWER_TEXT)
    ensures forall t ::
              KeyConfigured(key) && gemini(AnswerPrompt(question, transactionsJson)) == Answered(Some(t))
              ==> r == Ok(if t == "" then NO_ANSWER_TEXT else t)
  {
    if !KeyConfigured(key) then Err(ErrorValue(MISSING_KEY_MESSAGE))
    else
      match gemini(AnswerPrompt(question, transactionsJson))
      case NotOk => Err(ErrorValue(ASK_FAILED_MESSAGE))
      case Threw(e) => Err(e)
      case Answered(t) => Ok(TruthyOr(t, NO_ANSWER_TEXT))
  }
}
