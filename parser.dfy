/**
 * `parse_message`: one chat message of the form
 * `tag | description | amount | other | payment method [| ...]`
 * becomes a description, an amount and a payment method, or is rejected.
 */
module Parser {
  import opened Wrappers
  import opened Text
  import opened Decimal

  /**
   * Why a message yields no expense. The source returns the same
   * `(None, None, None)` triple for both; the reason only tells apart the
   * two branches that produce it.
   */
  datatype Rejection = TooFewFields | InvalidAmount

  /** The `(descricao, valor, forma_pagamento)` triple of an accepted message. */
  datatype Fields = Fields(desc: string, amount: real, payment: string)

  const Separator := '|'

  /** The message split at every `|`, each piece stripped of surrounding whitespace. */
  function Segments(msg: string): (parts: seq<string>)
    ensures |parts| == Count(msg, Separator) + 1
  {
    var pieces := Split(msg, Separator);
    seq(|pieces|, i requires 0 <= i < |pieces| => Trim(pieces[i]))
  }

  /** The fields read from the description, amount and payment-method texts. */
  function ReadFields(desc: string, amount: string, payment: string): Result<Fields, Rejection>
  {
    match ParseDecimal(Replace(amount, ',', '.'))
    case Some(v) => Success(Fields(desc, v, payment))
    case None => Failure(InvalidAmount)
  }

  /**
   * Segment 1 is the description, segment 2 the amount (every `,` read as a
   * decimal point) and segment 4 the payment method; segments 0 and 3 and any
   * beyond 4 are ignored. A message with fewer than four `|` is rejected for
   * too few fields, and only such a message.
   */
  function ParseMessage(msg: string): (r: Result<Fields, Rejection>)
    ensures r == Failure(TooFewFields) <==> Count(msg, Separator) < 4
  {
    var parts := Segments(msg);
    if |parts| >= 5 then ReadFields(parts[1], parts[2], parts[4]) else Failure(TooFewFields)
  }

  /** The message written as `|`-separated pieces, none holding a `|`. */
  predicate Pieces(msg: string, parts: seq<string>)
  {
    && |parts| > 0
    && (forall i :: 0 <= i < |parts| ==> Separator !in parts[i])
    && msg == Join(parts, Separator)
  }

  /**
   * Which piece feeds which field: the description is the stripped piece 1,
   * the payment method the stripped piece 4, and the amount is read from the
   * stripped piece 2 with commas as points; pieces 0, 3 and later play no part.
   */
  lemma FieldsByPosition(msg: string, parts: seq<string>)
    requires Pieces(msg, parts) && |parts| >= 5
    ensures ParseMessage(msg) == ReadFields(Trim(parts[1]), Trim(parts[2]), Trim(parts[4]))
  {
    SplitJoin(parts, Separator);
  }

  /** Changing pieces 0 and 3, or the pieces after 4, never changes the result. */
  lemma UnusedPiecesIgnored(msg: string, parts: seq<string>, msg': string, parts': seq<string>)
    requires Pieces(msg, parts) && Pieces(msg', parts') && |parts| >= 5 && |parts'| >= 5
    requires parts[1] == parts'[1] && parts[2] == parts'[2] && parts[4] == parts'[4]
    ensures ParseMessage(msg) == ParseMessage(msg')
  {
    FieldsByPosition(msg, parts);
    FieldsByPosition(msg', parts');
  }

  /** Writing the amount with a decimal comma or a decimal point gives the same result. */
  lemma CommaIsPoint(msg: string, parts: seq<string>, msg': string, parts': seq<string>)
    requires Pieces(msg, parts) && Pieces(msg', parts') && |parts| >= 5
    requires parts' == parts[2 := Replace(parts[2], ',', '.')]
    ensures ParseMessage(msg) == ParseMessage(msg')
  {
    FieldsByPosition(msg, parts);
    FieldsByPosition(msg', parts');
    var amount := Trim(parts[2]);
    ReplaceTrim(parts[2], ',', '.');
    ReplaceIdempotent(amount, ',', '.');
  }

  /** An amount with two or more separators, commas and points together, is rejected. */
  lemma TwoSeparatorsRejected(msg: string, parts: seq<string>)
    requires Pieces(msg, parts) && |parts| >= 5
    requires Count(Trim(parts[2]), ',') + Count(Trim(parts[2]), '.') >= 2
    ensures ParseMessage(msg) == Failure(InvalidAmount)
  {
    FieldsByPosition(msg, parts);
    ReplaceCounts(Trim(parts[2]), ',', '.');
    SeveralPointsRejected(Replace(Trim(parts[2]), ',', '.'));
  }
}
