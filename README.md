# Finance tracker core, modelled in Dafny

The system is a personal finance tracker. Users paste transaction text or
import Gmail messages. A language model (Gemini) turns the text into
structured transactions, which are stored in Supabase, and a dashboard
aggregates them. This project models the logic at the core of that flow:

- `dashboard.dfy`: the dashboard aggregates (src/components/Dashboard.tsx).
  These are credit and debit totals and the balance, the per-category and
  per-merchant debit totals (built by a loop over a map), the top-five lists
  from a stable sort, the bar widths and the list of recent transactions.
  The top lists are non-increasing by total, so equal totals may stand side
  by side, in first-occurrence order.
- `gemini_client.dfy`: the browser's Gemini client (src/lib/gemini.ts).
  It covers the API-key guard, the prompt templates, the scraping of a JSON
  array out of the free-form reply, and the fallbacks for an empty reply.
  The scrape is the greedy `/\[[\s\S]*\]/`, so it runs from the first `[`
  to the last `]`, newlines included.
- `edge_auth.dfy`: the bearer-token check both edge functions open with.
- `parse_gmail.dfy`: the import edge function
  (supabase/functions/parse-gmail/index.ts). Each email becomes a text, it
  is parsed, and its transactions are tagged with the email id. All of them
  go out in one insert, and a single failure aborts the whole request.
- `fetch_gmail.dfy`: the inbox edge function
  (supabase/functions/fetch-gmail/index.ts). It picks the MIME body, looks
  up the headers, decides whether to refresh the token, and fetches the
  first ten messages while dropping the failed ones.
- `transaction_input.dfy`: the manual entry form
  (src/components/TransactionInput.tsx). It is a class whose fields are the
  component's state, and its parse and save handlers update those fields.
- `records.dfy`, `text.dfy`, `wrappers.dfy`: the records of
  src/lib/supabase.ts, the string operations the model builds on (the first
  `[` and the last `]` that the greedy regex match comes down to, `replace`
  with a string pattern, `trim`, number formatting, truthiness and `||` on
  strings), and Option/Result.

Amounts are exact integers (for example cents). A thrown JavaScript value
is `Raised`: an `Error` with its message, or anything else. That way
`err instanceof Error ? err.message : fallback` is modelled as it is
written. Every call the core makes to the outside world is a parameter of
the operation that makes it: the Gemini request, `JSON.parse`, `atob`,
the auth service's `getUser`, the database insert and the stored-token
lookup, the Gmail list and message requests, the token refresh, and the
clock.

## Model

| member | source | states |
|---|---|---|
| Records.ToRow | supabase/functions/parse-gmail/index.ts:110-119 | an insert row keeps the six parsed fields unchanged and carries the given user id and raw text |
| Records.MessageOr | supabase/functions/parse-gmail/index.ts:140 | an `Error` reports its own message; any other thrown value reports the fallback |
| Text.IndexOf | src/lib/gemini.ts:52 | `None` exactly when the character is absent; otherwise the position of its first occurrence, where the regex match starts |
| Text.LastIndexOf | src/lib/gemini.ts:52 | `None` exactly when the character is absent; otherwise the position of its last occurrence, where the greedy match ends |
| Text.FindFrom | supabase/functions/parse-gmail/index.ts:79 | the first occurrence of a pattern at or after a position, or `None` when there is none |
| Text.ReplaceFirst | supabase/functions/parse-gmail/index.ts:79 | `replace` with a string pattern: only the first occurrence is replaced, and a string without one is returned unchanged |
| Text.TrimStart | src/components/TransactionInput.tsx:19 | the result is a suffix of the input, every removed character is whitespace, and the result does not start with whitespace |
| Text.TrimEnd | src/components/TransactionInput.tsx:19 | the result is a prefix of the input, every removed character is whitespace, and the result does not end with whitespace |
| Text.Trim | src/components/TransactionInput.tsx:19 | `trim()`: leading then trailing whitespace removed; TrimStart and TrimEnd state each half |
| Text.TrimEmptyIffBlank | src/components/TransactionInput.tsx:19 | the trimmed text is empty if and only if every character is whitespace |
| Text.TrimmedEmpty | src/components/TransactionInput.tsx:19 | `!text.trim()` holds exactly for whitespace-only text |
| Text.TruthyOr | src/lib/gemini.ts:50 | an absent or empty string yields the fallback, any other yields itself |
| Text.NatToString | src/components/TransactionInput.tsx:32 | a non-empty string of decimal digits with no leading zero except for 0 itself |
| Text.DecimalRoundTrip | src/components/TransactionInput.tsx:32 | reading back the formatted count gives the count |
| Dashboard.TotalOfType | src/components/Dashboard.tsx:48-54 | the sum of the amounts of the transactions of one type; CreditDebitPartition and TotalsNonNegative state its properties |
| Dashboard.TotalCredit | src/components/Dashboard.tsx:48-50 | totalCredit: the sum over the credit transactions |
| Dashboard.TotalDebit | src/components/Dashboard.tsx:52-54 | totalDebit: the sum over the debit transactions |
| Dashboard.Balance | src/components/Dashboard.tsx:56 | totalCredit minus totalDebit; BalanceIsSignedTotal relates it to the signed sum |
| Dashboard.CreditDebitPartition | src/components/Dashboard.tsx:48-54 | every transaction counts in exactly one of totalCredit and totalDebit: they add up to the total of all amounts |
| Dashboard.BalanceIsSignedTotal | src/components/Dashboard.tsx:56 | the balance equals the sum of the amounts with credits added and debits subtracted |
| Dashboard.TotalsNonNegative | src/components/Dashboard.tsx:48-54 | with non-negative amounts both totals are non-negative |
| Dashboard.GroupEntries | src/components/Dashboard.tsx:58-74 | the entries of categoryTotals or merchantTotals: each seen key in first-occurrence order with its group total; GroupTotals computes it, GroupTotalsSum sums it |
| Dashboard.GroupTotals | src/components/Dashboard.tsx:58-63 | the accumulator loop yields, for each key in first-occurrence order, the sum of that key's counted amounts |
| Dashboard.SeenKeysSpec | src/components/Dashboard.tsx:58-63 | the keys are distinct, and a key appears exactly when some counted transaction carries it |
| Dashboard.UnseenKeyTotalZero | src/components/Dashboard.tsx:61 | a key that never occurs has total 0, since a new key starts from 0 |
| Dashboard.EntriesFor | src/components/Dashboard.tsx:65 | one entry per key, in order, with that key's exact total |
| Dashboard.GroupTotalsSum | src/components/Dashboard.tsx:58-74 | the group totals add up to the sum of all counted amounts |
| Dashboard.CategoryCountsEveryDebit | src/components/Dashboard.tsx:58-59 | categories count every debit and no credit |
| Dashboard.CategoryTotalsSumToDebit | src/components/Dashboard.tsx:58-63 | the category totals add up to exactly totalDebit |
| Dashboard.MerchantCountsNamedDebits | src/components/Dashboard.tsx:69-70 | the merchant groups count exactly the debits with a non-empty merchant |
| Dashboard.MerchantTotalsSum | src/components/Dashboard.tsx:69-74 | the merchant totals add up to totalDebit minus the unnamed debits, hence at most totalDebit for non-negative amounts |
| Dashboard.UnnamedNonNegative | src/components/Dashboard.tsx:70 | with non-negative amounts the debits left out of the merchant groups total at least 0 |
| Dashboard.GroupTotalBounded | src/components/Dashboard.tsx:58-74 | with non-negative amounts every group total lies between 0 and totalDebit |
| Dashboard.InsertPermutes | src/components/Dashboard.tsx:66 | inserting into the sorted list adds exactly the new entry |
| Dashboard.InsertSorted | src/components/Dashboard.tsx:66 | insertion keeps the list non-increasing |
| Dashboard.InsertStable | src/components/Dashboard.tsx:66 | the new entry goes in front of every entry with the same total |
| Dashboard.SortByTotal | src/components/Dashboard.tsx:66 | the sorted list is a permutation of the entries and is non-increasing by total |
| Dashboard.SortStable | src/components/Dashboard.tsx:66 | entries with equal totals keep their first-occurrence order |
| Dashboard.InsertKeepsKeysDistinct | src/components/Dashboard.tsx:66 | inserting a new key keeps the keys distinct |
| Dashboard.SortKeepsKeysDistinct | src/components/Dashboard.tsx:66 | sorting keeps the keys distinct |
| Dashboard.SortedLength | src/components/Dashboard.tsx:66 | sorting keeps the number of entries |
| Dashboard.TopGroups | src/components/Dashboard.tsx:65-67 | the first five entries of the sorted group list; TopGroupsLength, TopGroupsOrdered, TopGroupsExact, TopGroupsKeepLargest and TopGroupsStable state its properties |
| Dashboard.TopGroupsLength | src/components/Dashboard.tsx:65-67 | a top list has min(5, number of groups) entries and is the whole sorted list when there are at most five groups |
| Dashboard.TopGroupsOrdered | src/components/Dashboard.tsx:76-78 | a top list is non-increasing by total and has distinct keys |
| Dashboard.TopGroupsExact | src/components/Dashboard.tsx:65-67 | every top entry is a seen key carrying its exact group total |
| Dashboard.TopGroupsKeepLargest | src/components/Dashboard.tsx:65-67 | every omitted group's total is at most every kept group's total |
| Dashboard.WithTotalAppend | src/components/Dashboard.tsx:67 | selecting the entries of one total distributes over concatenation |
| Dashboard.TopGroupsStable | src/components/Dashboard.tsx:76-78 | among equal totals the top list keeps a prefix of their first-occurrence order |
| Dashboard.BarWidth | src/components/Dashboard.tsx:171 | the width is undefined (NaN or Infinity in the source) exactly when totalDebit is 0 |
| Dashboard.RatioAtMostOne | src/components/Dashboard.tsx:198 | a share of a positive whole no larger than the whole lies in [0, 1] |
| Dashboard.TopBarWidthsBounded | src/components/Dashboard.tsx:171 | with non-negative amounts and totalDebit > 0 every top-list bar width lies in [0, 100] |
| Dashboard.RecentRowOf | src/components/Dashboard.tsx:220-232 | one display row: merchant or else category as title, description, date, `+` for credit and `-` for debit, amount and category |
| Dashboard.RowsOf | src/components/Dashboard.tsx:214-232 | one display row per transaction, in order |
| Dashboard.RecentView | src/components/Dashboard.tsx:214-232 | the first min(10, n) transactions in order, titled by merchant or else category, with `+` for credit and `-` for debit |
| Dashboard.RecentIgnoresLater | src/components/Dashboard.tsx:214 | transactions after the tenth never change the recent list |
| GeminiClient.KeyConfigured | src/lib/gemini.ts:13 | the key is present, non-empty and not the placeholder |
| GeminiClient.TransactionPrompt | src/lib/gemini.ts:17-31 | the prompt is the fixed header, the text verbatim, the fixed trailer |
| GeminiClient.TransactionPromptInjective | src/lib/gemini.ts:17-31 | different texts give different prompts |
| GeminiClient.ExtractJsonArray | src/lib/gemini.ts:52-53 | the extracted string always starts with `[` and ends with `]` |
| GeminiClient.ExtractIsRegexMatch | src/lib/gemini.ts:52-53 | the extracted string is the leftmost-longest match of `/\[[\s\S]*\]/`, or `"[]"` when there is none |
| GeminiClient.ExtractRoundTrip | src/lib/gemini.ts:52-53 | a bracketed array between a prefix without `[` and a suffix without `]` is extracted exactly |
| GeminiClient.ExtractIdempotent | src/lib/gemini.ts:52-53 | extracting from an extracted string returns it unchanged |
| GeminiClient.ParseGenerated | src/lib/gemini.ts:50-55 | the reply text, or `"[]"` when absent or empty, scraped and handed to `JSON.parse`; EmptyReplyParsesEmpty and EmbeddedArrayParses state its cases |
| GeminiClient.EmptyReplyParsesEmpty | src/lib/gemini.ts:50-55 | an absent or empty reply text parses to the empty list |
| GeminiClient.EmbeddedArrayParses | src/lib/gemini.ts:50-55 | a reply with an array embedded in prose parses as that array |
| GeminiClient.ParseTransactionText | src/lib/gemini.ts:12-60 | the key guard raises before any request; a non-2xx reply raises its message; anything thrown is rethrown unchanged; otherwise the scraped array is parsed |
| GeminiClient.AnswerPrompt | src/lib/gemini.ts:67-74 | the question-answering prompt around the serialised transactions and the question |
| GeminiClient.AskGemini | src/lib/gemini.ts:62-98 | same key guard; a non-2xx reply raises its own message; an answer is never empty, and an empty or absent text gives the apology |
| EdgeAuth.BearerToken | supabase/functions/parse-gmail/index.ts:79 | the header with its first `Bearer ` removed; BearerTokenOfPrefixed states the prefixed case |
| EdgeAuth.BearerTokenOfPrefixed | supabase/functions/parse-gmail/index.ts:79 | a header `Bearer <t>` yields the token `<t>` |
| EdgeAuth.Authenticate | supabase/functions/parse-gmail/index.ts:74-84 | a missing or empty header is refused first; a token that names a non-empty user id gives that id; a token that names no user, or one with an empty id, is refused as unauthorized |
| ParseGmail.ParseWithGemini | supabase/functions/parse-gmail/index.ts:25-63 | the prompt, scrape and parse of the browser client without its key guard and with its own non-2xx message |
| ParseGmail.EmailText | supabase/functions/parse-gmail/index.ts:95 | the labelled subject, sender and body; EmailTextFields reads each field back |
| ParseGmail.Accumulate | supabase/functions/parse-gmail/index.ts:92-105 | allTransactions: the tagged lists of the emails in order, or the first failure; AccumulateAppend, AccumulateOkIff, AccumulateFirstError and AccumulateContents state its properties |
| ParseGmail.ParseEmail | supabase/functions/parse-gmail/index.ts:95-97 | one email's text handed to the parser |
| ParseGmail.ParseWithGeminiMatchesClient | supabase/functions/parse-gmail/index.ts:25-63 | the server-side parser agrees with the browser's except for the message of a non-2xx reply |
| ParseGmail.EmailTextFields | supabase/functions/parse-gmail/index.ts:95 | each email field appears verbatim at its fixed place after its label |
| ParseGmail.Tagged | supabase/functions/parse-gmail/index.ts:99-104 | each transaction in order, unchanged, tagged with the email id |
| ParseGmail.AccumulateAppend | supabase/functions/parse-gmail/index.ts:94-105 | accumulating two batches is the concatenation of their lists, with the first failure winning |
| ParseGmail.AccumulateOkIff | supabase/functions/parse-gmail/index.ts:94-105 | the import succeeds if and only if every email parses |
| ParseGmail.AccumulateFirstError | supabase/functions/parse-gmail/index.ts:97 | a failed import reports the error of the first email that failed |
| ParseGmail.AccumulateContents | supabase/functions/parse-gmail/index.ts:94-105 | on success the list has as many entries as were parsed, and each comes, unchanged, from the email whose id it carries |
| ParseGmail.ImportRows | supabase/functions/parse-gmail/index.ts:110-119 | one row per accumulated transaction, in order, for the user, with the source email id as raw text |
| ParseGmail.ImportOutcome | supabase/functions/parse-gmail/index.ts:65-149 | OPTIONS gets the preflight answer; an authentication error, a missing or empty email list and a parse failure are rejected with their messages before any insert; otherwise exactly the mapped rows are inserted, and the response is the row count, or the insert error's message |
| ParseGmail.AccumulateAbort | supabase/functions/parse-gmail/index.ts:97 | a failure among the first emails fails the whole batch with that error |
| ParseGmail.PushTagged | supabase/functions/parse-gmail/index.ts:99-104 | the inner loop appends the tagged transactions of one email |
| ParseGmail.ParseAll | supabase/functions/parse-gmail/index.ts:94-105 | the email loop computes the accumulation, stopping at the first failure |
| ParseGmail.HandleImport | supabase/functions/parse-gmail/index.ts:65-149 | the handler computes exactly the specified response and insert |
| FetchGmail.Decoded | supabase/functions/fetch-gmail/index.ts:61-65 | the decoded text, or the raw data when decoding throws |
| FetchGmail.FirstPlainPart | supabase/functions/fetch-gmail/index.ts:69-77 | the first part that is exactly `text/plain` with non-empty data, or `None` when no part is |
| FetchGmail.EmailBody | supabase/functions/fetch-gmail/index.ts:57-81 | the body `extractEmailBody` returns; NoPayloadNoBody, TopLevelDataWins, BodyFromFirstPlainPart and OnlyPlainPartsMatter state its cases |
| FetchGmail.ExtractEmailBody | supabase/functions/fetch-gmail/index.ts:57-81 | the loop with early return computes the specified body |
| FetchGmail.NoPayloadNoBody | supabase/functions/fetch-gmail/index.ts:58 | a missing payload gives an empty body |
| FetchGmail.TopLevelDataWins | supabase/functions/fetch-gmail/index.ts:60-66 | non-empty top-level data gives the body, whatever the parts are |
| FetchGmail.BodyFromFirstPlainPart | supabase/functions/fetch-gmail/index.ts:68-80 | otherwise the body is empty, or comes from the first plain part and from no other |
| FetchGmail.PlainParts | supabase/functions/fetch-gmail/index.ts:70 | keeps exactly the plain parts |
| FetchGmail.OnlyPlainPartsMatter | supabase/functions/fetch-gmail/index.ts:68-78 | dropping every part that is not plain leaves the body unchanged |
| FetchGmail.FirstOfPlainParts | supabase/functions/fetch-gmail/index.ts:69-70 | the first plain part is the head of the plain parts |
| FetchGmail.FindHeader | supabase/functions/fetch-gmail/index.ts:157 | the first header whose name matches exactly, or `None` when none does |
| FetchGmail.HeaderValue | supabase/functions/fetch-gmail/index.ts:156-158 | the value of the first header with that exact name, or `""`; HeaderValueSpec states it |
| FetchGmail.HeaderValueSpec | supabase/functions/fetch-gmail/index.ts:156-158 | a header value is the first exact-name match's value, and `""` when no name matches |
| FetchGmail.EmailOf | supabase/functions/fetch-gmail/index.ts:154-166 | the email carries the message id, snippet, Subject, From and extracted body |
| FetchGmail.AccessToken | supabase/functions/fetch-gmail/index.ts:114-121 | the stored token, or the refreshed one when expired; AccessTokenDecision states its cases |
| FetchGmail.ResolveAccessToken | supabase/functions/fetch-gmail/index.ts:114-121 | the reassigned token equals the specified access-token decision |
| FetchGmail.AccessTokenDecision | supabase/functions/fetch-gmail/index.ts:114-121 | the stored token is used unless it expired strictly before now; only then is a refresh token required and used |
| FetchGmail.Selected | supabase/functions/fetch-gmail/index.ts:140 | a prefix of the list of length min(10, n): all ids when there are at most ten, exactly ten otherwise |
| FetchGmail.Replies | supabase/functions/fetch-gmail/index.ts:140-148 | one detail reply per selected id, in order |
| FetchGmail.FirstThrown | supabase/functions/fetch-gmail/index.ts:139-168 | `None` exactly when no call threw; otherwise the first throw in list order |
| FetchGmail.FirstThrownPrefix | supabase/functions/fetch-gmail/index.ts:139 | a throw among the first replies decides the outcome |
| FetchGmail.Kept | supabase/functions/fetch-gmail/index.ts:170 | no more emails than replies |
| FetchGmail.DetailIndices | supabase/functions/fetch-gmail/index.ts:150-152 | strictly increasing positions, exactly those of the OK replies |
| FetchGmail.KeptInOrder | supabase/functions/fetch-gmail/index.ts:150-170 | the k-th kept email is built from the k-th OK reply |
| FetchGmail.FetchEmails | supabase/functions/fetch-gmail/index.ts:139-170 | the first thrown error of the detail calls for the first ten ids, or the emails of the OK replies; FetchEmailsSpec states it |
| FetchGmail.MessageIds | supabase/functions/fetch-gmail/index.ts:137 | the listed ids, or none when `messages` is absent; NoMessagesNoEmails states the absent case |
| FetchGmail.FetchEmailsSpec | supabase/functions/fetch-gmail/index.ts:137-170 | at most ten emails; success exactly when no call threw; the emails are those of the OK replies among the first ten ids, in list order |
| FetchGmail.NoMessagesNoEmails | supabase/functions/fetch-gmail/index.ts:137 | a missing `messages` field gives no email |
| FetchGmail.FetchMessages | supabase/functions/fetch-gmail/index.ts:139-170 | the loop computes the specified emails or the first throw |
| FetchGmail.FetchOutcome | supabase/functions/fetch-gmail/index.ts:83-189 | preflight exactly for OPTIONS; an authentication error, a missing token row, a token error and a failed or thrown list call each give their own rejection; otherwise the response is the fetched emails (at most ten) or the first thrown error |
| FetchGmail.HandleFetch | supabase/functions/fetch-gmail/index.ts:83-189 | the handler computes exactly the specified response |
| TransactionInput.ParsedMessage | src/components/TransactionInput.tsx:32 | `Successfully parsed ${n} transaction(s)!` |
| TransactionInput.SavedMessage | src/components/TransactionInput.tsx:67 | `Saved ${n} transaction(s) successfully!` |
| TransactionInput.MessagesCarryCount | src/components/TransactionInput.tsx:32-67 | the count can be read back from both success messages |
| TransactionInput.ManualRows | src/components/TransactionInput.tsx:50-59 | one row per parsed transaction, in order, fields unchanged, with the user id and the whole input text |
| TransactionInput.TransactionForm.constructor | src/components/TransactionInput.tsx:12-16 | the initial state: empty text, lists and messages, not loading |
| TransactionInput.TransactionForm.SetText | src/components/TransactionInput.tsx:92 | only the text changes |
| TransactionInput.TransactionForm.HandleParse | src/components/TransactionInput.tsx:18-38 | blank text only sets the error and leaves the rest; otherwise the parse outcome is shown and loading ends |
| TransactionInput.TransactionForm.Parse | src/components/TransactionInput.tsx:24-37 | old results are cleared; a success shows the list and its count, a failure an empty list and the error |
| TransactionInput.TransactionForm.HandleSave | src/components/TransactionInput.tsx:40-76 | nothing parsed means no insert; otherwise the mapped rows are inserted; a success clears text and list, reports the count and notifies; a failure changes neither and sets the error |
| TransactionInput.RetryAfterFailedSave | src/components/TransactionInput.tsx:61-72 | after a failed save a second save inserts the very same rows |

## Left out

- React rendering, icons, CSS, the tab switching of src/App.tsx and the chat UI of src/components/AIChat.tsx; what the dashboard shows is modelled as values.
- The dashboard's query: the week and month cut-offs use JavaScript `Date` arithmetic in the database query, and the ordering by `transaction_date` is done by the database. The transaction list is taken as given.
- Floating point: amounts are exact integers, the sums cannot round, and `toFixed(2)` and the percentage strings are not modelled. A bar width is an exact real number, and `None` stands for the NaN or Infinity of a zero totalDebit.
- Dashboard.GroupTotals: groups come in first-occurrence order. `Object.entries` lists integer-like keys (a merchant named "7") first. This only matters when two groups have equal totals. Keys that collide with `Object.prototype` members are not modelled.
- `parseJson` has the type `string -> Result<seq<ParsedTransaction>, Raised>`: the model assumes `JSON.parse` yields well-formed transaction records, while src/lib/gemini.ts:55 and supabase/functions/parse-gmail/index.ts:62 never check the shape of the elements.
- `JSON.parse`, `atob`, `getUser`, `fetch` and the database calls are parameters. The model does not say what they compute, only how the core uses their results.
- `refreshAccessToken` (supabase/functions/fetch-gmail/index.ts:37-55) is the parameter `refresh`. supabase/functions/gmail-callback/index.ts, src/components/GmailIntegration.tsx and the client set-up of src/lib/supabase.ts are not part of this model.
- FetchGmail.GmailToken: `expires_at` is an optional instant. A value that `new Date` cannot parse behaves like an absent one, as it does in the source, because a comparison with an invalid date is false.
- FetchGmail.FirstThrown: `Promise.all` runs the detail requests concurrently and rejects with the first rejection in time. The model runs them in list order, so it reports the first in list order.
- EdgeAuth.Authenticate: an error reported by `getUser` is not modelled separately. Like the source, the model only looks at whether a user id came back.
- ParseGmail.HandleImport: a request body that `req.json()` cannot parse is left out. Emails are taken to be objects with string fields. In the source a missing field would appear as the text `undefined` in the email text sent to Gemini (supabase/functions/parse-gmail/index.ts:95), a missing `id` would leave `raw_text` out of the serialised row, and a `null` email would throw a TypeError that is reported with its message.
- CORS headers, console logging, and the JSON serialisation of responses. The HTTP status is not a separate value: a rejection is the 400 response and every other response is 200.
- The inbox list request's `maxResults=20` query (supabase/functions/fetch-gmail/index.ts:124) belongs to the `list` parameter. The model only takes the first ten of whatever ids it returns.
- TransactionInput.TransactionForm.HandleParse: the intermediate `loading = true` is visible only while the request is in flight. Only the final state is stated.
- AIChat's construction of the `transactions` argument and `JSON.stringify(..., null, 2)` are outside the model. `AskGemini` takes the serialised text as input.
