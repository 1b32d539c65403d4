/** The dashboard's submit handler seen from the store: the body the client
    sends for a draft, which drafts the server accepts, and the draft reset
    that follows any JSON response, a refusal included. */
module Submission {
  import opened JsValues
  import opened Dashboard
  import opened TransactionStore

  /** A number after `JSON.stringify` on the client and `JSON.parse` on the
      server: NaN and the infinities are written as `null`. */
  function ThroughJson(n: Number): JsValue {
    if n.Finite? then Num(n) else Null
  }

  /** The body the server receives for draft `d`: `{...newTransaction,
      amount: parseFloat(newTransaction.amount)}`, where `parsed` is what
      `parseFloat` returned. */
  function SubmittedBody(d: Draft, parsed: Number): Body {
    BodyOf(Str(d.kind), Str(d.category), ThroughJson(parsed), Str(d.date))
  }

  /** The server accepts a draft exactly when its type, category and date are
      non-empty and its amount parses to a finite non-zero number. */
  lemma SubmissionAcceptedIff(d: Draft, parsed: Number)
    ensures HasRequiredFields(SubmittedBody(d, parsed)) <==>
      d.kind != "" && d.category != "" && d.date != "" && parsed.Finite? && parsed.value != 0.0
  {
    var b := SubmittedBody(d, parsed);
    assert Field(b, "type") == Some(Str(d.kind));
    assert Field(b, "category") == Some(Str(d.category));
    assert Field(b, "amount") == Some(ThroughJson(parsed));
    assert Field(b, "date") == Some(Str(d.date));
  }

  /** What one submit does: the server's outcome for the body, and the view
      afterwards. The client resets the draft once the response parses as
      JSON, whatever its status. */
  function Submit(v: ViewState, t: Table, parsed: Number, failure: Option<string>): (r: (ViewState, Outcome))
    ensures r.1 == Post(t, SubmittedBody(v.draft, parsed), failure)
    ensures r.0.draft == BlankDraft && r.0.transactions == v.transactions && r.0.filter == v.filter
  {
    (AfterSubmit(v), Post(t, SubmittedBody(v.draft, parsed), failure))
  }

  /** The drafts the form lets through to `onSubmit`: the type comes from the
      two-option select, category, amount and date are `required`, and the
      amount input is `type="number"`, so its text is a number that parses to
      a finite value. `parsed` is what `parseFloat` makes of that text. */
  predicate FormAllows(d: Draft, parsed: Number) {
    && (d.kind == "Expense" || d.kind == "Income")
    && d.category != ""
    && d.amount != ""
    && d.date != ""
    && parsed.Finite?
  }

  /** For a draft the form lets through, the server accepts the body exactly
      when the amount is not zero. */
  lemma FormDraftAcceptedIff(d: Draft, parsed: Number)
    requires FormAllows(d, parsed)
    ensures HasRequiredFields(SubmittedBody(d, parsed)) <==> parsed.value != 0.0
  {
    SubmissionAcceptedIff(d, parsed);
  }

  /** Through the form, the only refusal with 400 is an amount of zero (such as
      "0"); it leaves the table as it was and still clears the draft. */
  lemma FormSubmitRefusedIffZero(v: ViewState, t: Table, parsed: Number, failure: Option<string>)
    requires FormAllows(v.draft, parsed)
    ensures Submit(v, t, parsed, failure).1.response.status == 400 <==> parsed.value == 0.0
    ensures parsed.value == 0.0 ==>
      && Submit(v, t, parsed, failure).1 == Outcome(t, Response(400, ErrorBody(MissingFieldsMessage)), None)
      && Submit(v, t, parsed, failure).0.draft == BlankDraft
  {
    FormDraftAcceptedIff(v.draft, parsed);
  }

  /** The untouched form is never submitted by the browser; `submitTransaction`
      called on it directly is refused and changes nothing. */
  lemma BlankDraftRefused(v: ViewState, t: Table, parsed: Number, failure: Option<string>)
    requires v.draft == BlankDraft
    ensures !FormAllows(v.draft, parsed)
    ensures Submit(v, t, parsed, failure).1 == Outcome(t, Response(400, ErrorBody(MissingFieldsMessage)), None)
    ensures Submit(v, t, parsed, failure).0 == v
  {
    SubmissionAcceptedIff(BlankDraft, parsed);
  }

  /** An amount that does not parse (NaN) never gets past the form;
      `submitTransaction` called with one is refused, yet clears the draft the
      user typed. */
  lemma UnparsedAmountRefusedAndCleared(v: ViewState, t: Table, failure: Option<string>)
    ensures !FormAllows(v.draft, NaN)
    ensures Submit(v, t, NaN, failure).1.response.status == 400
    ensures Submit(v, t, NaN, failure).1.table == t
    ensures Submit(v, t, NaN, failure).0.draft == BlankDraft
  {
    SubmissionAcceptedIff(v.draft, NaN);
  }
}
