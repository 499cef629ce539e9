/**
 * `load_data`: every stored `#F` message becomes one row of the expense
 * table, or none when the parser rejects it. The row's date is the calendar
 * day of the message's timestamp; `dropna` then removes the rejected rows,
 * keeping the others in the order the records came in.
 */
module Ledger {
  import opened Wrappers
  import opened Seqs
  import opened Parser
  import opened Text
  import opened Decimal

  /** A stored message: its text and its timestamp, in seconds since the epoch (naive time). */
  datatype Record = Record(text: string, timestamp: int)

  /** One row of the cleaned table: `data`, `descricao`, `valor`, `forma_pagamento`. */
  datatype Entry = Entry(date: int, desc: string, amount: real, payment: string)

  /** Building the table from no records fails: there is no `message_timestamp` column to read. */
  datatype LoadError = MissingTimestampColumn

  const SecondsPerDay := 86400

  /** `.dt.date`: the calendar day, counted from the epoch, that a timestamp falls on. */
  function DateOf(timestamp: int): (day: int)
    ensures day * SecondsPerDay <= timestamp < (day + 1) * SecondsPerDay
  {
    timestamp / SecondsPerDay
  }

  /** The row a record becomes: its entry when the parser accepts its message, none otherwise. */
  function RowOf(r: Record): Option<Entry>
  {
    match ParseMessage(r.text)
    case Success(f) => Some(Entry(DateOf(r.timestamp), f.desc, f.amount, f.payment))
    case Failure(_) => None
  }

  /** The parser accepts the record's message, so its row survives `dropna`. */
  predicate Accepted(r: Record)
  {
    RowOf(r).Some?
  }

  /** The table after parsing every record and dropping the rejected ones. */
  function BuildLedger(records: seq<Record>): seq<Entry>
  {
    FilterMap(records, RowOf)
  }

  /**
   * The table holds exactly the accepted records' rows, in record order: row
   * `i` comes from record `src[i]`, the sources ascend, and a record is a
   * source exactly when the parser accepts it.
   */
  lemma LedgerRowsFromAcceptedRecords(records: seq<Record>)
    ensures var ledger, src := BuildLedger(records), KeptIndices(records, Accepted);
      && |ledger| == |src|
      && StrictlyIncreasing(src)
      && (forall i :: 0 <= i < |src| ==> src[i] < |records| && RowOf(records[src[i]]) == Some(ledger[i]))
      && (forall j :: 0 <= j < |records| ==> (Accepted(records[j]) <==> j in src))
  {
    FilterMapPicksKeptIndices(records, RowOf, Accepted);
  }

  /**
   * A record whose message is written as `|`-separated pieces 0..n (n at
   * least 4) yields a row exactly when the stripped piece 2, with every `,`
   * read as `.`, is a number; the row is dated by the record's timestamp and
   * carries the stripped piece 1 as description, that number as amount and
   * the stripped piece 4 as payment method.
   */
  lemma RecordRow(r: Record, parts: seq<string>)
    requires Pieces(r.text, parts) && |parts| >= 5
    ensures RowOf(r) ==
      match ParseDecimal(Replace(Trim(parts[2]), ',', '.'))
      case Some(v) => Some(Entry(DateOf(r.timestamp), Trim(parts[1]), v, Trim(parts[4])))
      case None => None
  {
    FieldsByPosition(r.text, parts);
  }

  /** Removing a rejected record, wherever it stands, leaves the table unchanged. */
  lemma RejectedRecordAddsNoRow(records: seq<Record>, j: nat)
    requires j < |records| && !Accepted(records[j])
    ensures BuildLedger(records) == BuildLedger(records[..j] + records[j + 1..])
  {
    FilterMapSkip(records, RowOf, j);
  }

  /** A message with fewer than four `|` never yields a row. */
  lemma TooFewFieldsAddsNoRow(records: seq<Record>, j: nat)
    requires j < |records| && Text.Count(records[j].text, Separator) < 4
    ensures !Accepted(records[j])
    ensures BuildLedger(records) == BuildLedger(records[..j] + records[j + 1..])
  {
    RejectedRecordAddsNoRow(records, j);
  }

  /**
   * The loading step as the source performs it: read every record, attach
   * its date, parse its message and keep the accepted rows. An empty input
   * fails, because the table then has no `message_timestamp` column.
   */
  method LoadData(records: seq<Record>) returns (result: Result<seq<Entry>, LoadError>)
    ensures records == [] ==> result == Failure(MissingTimestampColumn)
    ensures records != [] ==> result == Success(BuildLedger(records))
  {
    if records == [] {
      return Failure(MissingTimestampColumn);
    }
    var ledger: seq<Entry> := [];
    var i := 0;
    while i < |records|
      invariant 0 <= i <= |records|
      invariant ledger == BuildLedger(records[..i])
    {
      var r := records[i];
      match ParseMessage(r.text) {
        case Success(f) =>
          ledger := ledger + [Entry(DateOf(r.timestamp), f.desc, f.amount, f.payment)];
        case Failure(_) =>
      }
      assert records[..i + 1] == records[..i] + [r];
      FilterMapSnoc(records[..i], r, RowOf);
      i := i + 1;
    }
    assert records[..|records|] == records;
    return Success(ledger);
  }
}
