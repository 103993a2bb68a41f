/** The `/recommend` handler (app.py:35-87): validate the form, send the
    prompt through the retry loop, inspect the JSON that comes back
    (app.py:64-68) and render the extracted sections. Every exception the
    body raises ends in the handler's catch-all, which answers with an
    internal-error page; the model records which kind of exception it was. */
module Handler {
  import opened Wrappers
  import opened Json
  import opened Text
  import opened Extractor
  import opened Form
  import opened Inference

  /** The exceptions the response inspection can raise. */
  datatype Fault = TypeError | IndexError | AttributeError

  /** A Python expression's value, or the exception it raised. */
  datatype Outcome<T> = Ok(value: T) | Raised(fault: Fault)

  /** The page the handler answers with. */
  datatype Page =
    | MissingFields                 // the required-fields message
    | UpstreamError(detail: Value)  // "An error occurred: " and the `error` member
    | InternalError(fault: Fault)   // the catch-all's "Internal error: " page
    | Rendered(rec: Recommendation) // the result template

  // ---------------------------------------------------------------------------
  // Python operations on the decoded response

  /** `"error" in v`: a key of a dict, an element of a list, a substring of a
      string; any other JSON value is not a container and raises. */
  function HasErrorMember(v: Value): Outcome<bool> {
    match v
    case Object(m) => Ok("error" in m)
    case Array(items) => Ok(Str("error") in items)
    case Str(s) => Ok(Contains(s, "error"))
    case _ => Raised(TypeError)
  }

  /** `v['error']` once `"error" in v` held: only a dict can be indexed by a
      string; a list or a string raises. */
  function ErrorMember(v: Value): Outcome<Value>
    requires HasErrorMember(v) == Ok(true)
  {
    match v
    case Object(m) => Ok(m["error"])
    case _ => Raised(TypeError)
  }

  /** `v.get("generated_text", "")`: only a dict has `get`. */
  function GetText(v: Value): Outcome<Value> {
    match v
    case Object(m) => Ok(if "generated_text" in m then m["generated_text"] else Str(""))
    case _ => Raised(AttributeError)
  }

  /** The conditional expression of app.py:68: the first element's text for a
      list, the value's own text otherwise. */
  function GeneratedText(v: Value): Outcome<Value> {
    match v
    case Array(items) => if items == [] then Raised(IndexError) else GetText(items[0])
    case _ => GetText(v)
  }

  /** What the handler makes of the decoded response. A generated text that is
      not a string makes `re.search` raise. */
  function Dispatch(v: Value, region: string): (p: Page)
    ensures !p.MissingFields?
    ensures p.UpstreamError? <==> v.Object? && "error" in v.fields
    ensures p.UpstreamError? ==> p.detail == v.fields["error"]
    ensures p.Rendered? ==> p.rec.region == region
  {
    match HasErrorMember(v)
    case Raised(f) => InternalError(f)
    case Ok(true) =>
      (match ErrorMember(v)
       case Ok(detail) => UpstreamError(detail)
       case Raised(f) => InternalError(f))
    case Ok(false) =>
      match GeneratedText(v)
      case Raised(f) => InternalError(f)
      case Ok(Str(text)) => Rendered(Render(text, region))
      case Ok(_) => InternalError(TypeError)
  }

  // ---------------------------------------------------------------------------
  // Reference description of the response shapes

  /** The text a well-formed reply carries: a dict without an `error` key, or a
      non-empty list with no `"error"` element whose first element is a dict;
      the dict's `generated_text` is a string or absent (then empty). */
  ghost predicate CarriesText(v: Value, text: string) {
    || (v.Object? && "error" !in v.fields && TextField(v.fields, text))
    || (v.Array? && Str("error") !in v.items && |v.items| > 0
        && v.items[0].Object? && TextField(v.items[0].fields, text))
  }

  ghost predicate TextField(m: map<string, Value>, text: string) {
    if "generated_text" in m then m["generated_text"] == Str(text) else text == ""
  }

  /** The handler renders a result exactly when the response carries a text,
      and the result is that text's extraction. */
  lemma RenderedExactly(v: Value, region: string)
    ensures Dispatch(v, region).Rendered? <==> exists text :: CarriesText(v, text)
    ensures forall text :: CarriesText(v, text) ==> Dispatch(v, region) == Rendered(Render(text, region))
  {
    if Dispatch(v, region).Rendered? {
      var m := if v.Array? then v.items[0].fields else v.fields;
      var text := if "generated_text" in m then m["generated_text"].s else "";
      assert CarriesText(v, text);
    }
  }

  /** Every other response ends on the internal-error page: a scalar, a list
      or string mentioning `error`, an empty list, a list whose first element
      is not a dict, a string, or a text that is not a string. */
  lemma OtherwiseInternalError(v: Value, region: string)
    requires !(v.Object? && "error" in v.fields)
    requires forall text :: !CarriesText(v, text)
    ensures Dispatch(v, region).InternalError?
  {
    RenderedExactly(v, region);
  }

  /** A one-element list holding a dict is handled like the dict itself, as
      long as the dict has no `error` key: the two reply shapes agree. */
  lemma ListAndDictAgree(m: map<string, Value>, region: string)
    requires "error" !in m
    ensures Dispatch(Array([Object(m)]), region) == Dispatch(Object(m), region)
  {
  }

  /** An `error` key inside a list element is not seen: the list is treated as
      a reply with an empty text. */
  lemma ErrorInsideListUnseen(detail: Value, region: string)
    ensures Dispatch(Array([Object(map["error" := detail])]), region) == Rendered(Render("", region))
  {
    var v := Array([Object(map["error" := detail])]);
    assert Str("error") !in v.items;
    assert GeneratedText(v) == Ok(Str(""));
  }

  /** A reply without a text renders four empty sections. */
  lemma EmptyTextRendersNothing(region: string)
    ensures Render("", region) == Recommendation([], [], [], [], region)
  {
    forall s: Section ensures ExtractList("", s) == [] {
      MissingHeaderGivesNothing("", s);
    }
  }

  // ---------------------------------------------------------------------------
  // The whole exchange

  /** What one POST to `/recommend` did: the payload sent upstream, if any,
      the requests and pauses of the retry loop, and the page returned. */
  datatype Exchange = Exchange(payload: Option<Value>, attempts: nat, pauses: seq<nat>, page: Page)

  /** The JSON payload `{"inputs": prompt}`. */
  function Payload(prompt: string): Value {
    Object(map["inputs" := Str(prompt)])
  }

  /** `recommend()` for a submitted form and a network. */
  function Handle(form: FormData, upstream: (Value, nat) -> Attempt): (x: Exchange)
    ensures x.page.MissingFields? <==> Validate(form).None?
    ensures x.payload.None? <==> Validate(form).None?
    ensures x.payload.None? ==> x.attempts == 0 && x.pauses == []
    ensures x.payload.Some? ==>
              && x.payload.value == Payload(BuildPrompt(ReadFields(form)))
              && 1 <= x.attempts <= Retries && |x.pauses| <= Retries
    ensures x.page.Rendered? ==> x.page.rec.region == ReadFields(form).region
  {
    match Validate(form)
    case None => Exchange(None, 0, [], MissingFields)
    case Some(f) =>
      var payload := Payload(BuildPrompt(f));
      var t := Query(payload, upstream);
      Exchange(Some(payload), t.attempts, t.pauses, Dispatch(t.response, f.region))
  }

  /** With the network down the handler sends three requests, pauses three
      times and reports the give-up message as an upstream error. */
  lemma UpstreamDown(form: FormData, upstream: (Value, nat) -> Attempt)
    requires Validate(form).Some?
    requires forall i :: 0 <= i < 3 ==> upstream(Payload(BuildPrompt(ReadFields(form))), i) == Failed
    ensures Handle(form, upstream)
         == Exchange(Some(Payload(BuildPrompt(ReadFields(form)))), 3, [5, 5, 5],
                     UpstreamError(Str("Failed after 3 attempts.")))
  {
    var payload := Payload(BuildPrompt(ReadFields(form)));
    ThreeFailures(payload, upstream);
  }

  /** A delivered reply on the first attempt is rendered for the submitted
      region, with no pause. */
  lemma FirstReplyRendered(form: FormData, upstream: (Value, nat) -> Attempt, m: map<string, Value>, text: string)
    requires Validate(form).Some?
    requires "error" !in m && "generated_text" in m && m["generated_text"] == Str(text)
    requires upstream(Payload(BuildPrompt(ReadFields(form))), 0) == Delivered(Object(m))
    ensures Handle(form, upstream)
         == Exchange(Some(Payload(BuildPrompt(ReadFields(form)))), 1, [],
                     Rendered(Render(text, ReadFields(form).region)))
  {
    FirstDeliveryWins(Payload(BuildPrompt(ReadFields(form))), upstream, Retries, Delay, 0);
  }
}
