/**
 * The record shapes shared by the front end and the edge functions:
 * the stored `transactions` row (src/lib/supabase.ts), the record the
 * language model is asked to produce (src/lib/gemini.ts), the row handed
 * to the `transactions` insert, the transient Email, and thrown values.
 * Amounts are integer cents: the source's floating-point `Number`
 * arithmetic is not modelled.
 */
module Records {

  /** The `type` column: `'credit' | 'debit'`. */
  datatype TxType = Credit | Debit

  /** A stored row of the `transactions` table. */
  datatype Transaction = Transaction(
    id: string,
    userId: string,
    amount: int,
    txType: TxType,
    category: string,
    merchant: string,
    description: string,
    transactionDate: string,
    createdAt: string,
    rawText: string)

  /** One element of the JSON array the language model returns. */
  datatype ParsedTransaction = ParsedTransaction(
    amount: int,
    txType: TxType,
    category: string,
    merchant: string,
    description: string,
    transactionDate: string)

  /** A row handed to the `transactions` insert: the six parsed fields plus owner and audit text. */
  datatype InsertRow = InsertRow(
    userId: string,
    amount: int,
    txType: TxType,
    category: string,
    merchant: string,
    description: string,
    transactionDate: string,
    rawText: string)

  /** An email as fetch-gmail returns it and parse-gmail receives it. */
  datatype Email = Email(id: string, subject: string, from: string, snippet: string, body: string)

  /**
   * A thrown JavaScript value: an `Error` instance carries a message,
   * anything else (a plain object, a string) does not.
   */
  datatype Raised = ErrorValue(message: string) | OtherValue

  /** `e instanceof Error ? e.message : fallback`, as every catch block of the source computes it. */
  function MessageOr(e: Raised, fallback: string): (m: string)
    ensures e.ErrorValue? ==> m == e.message
    ensures e.OtherValue? ==> m == fallback
  {
    match e
    case ErrorValue(message) => message
    case OtherValue => fallback
  }

  /** The six parsed fields of an insert row. */
  function RowFields(r: InsertRow): ParsedTransaction
  {
    ParsedTransaction(r.amount, r.txType, r.category, r.merchant, r.description, r.transactionDate)
  }

  /**
   * The insert row built from a parsed transaction: both the manual-entry
   * form and the Gmail import copy the six fields unchanged and add the
   * owner and the audit text.
   */
  function ToRow(p: ParsedTransaction, userId: string, rawText: string): (r: InsertRow)
    ensures RowFields(r) == p
    ensures r.userId == userId && r.rawText == rawText
  {
    InsertRow(userId, p.amount, p.txType, p.category, p.merchant, p.description, p.transactionDate, rawText)
  }
}
