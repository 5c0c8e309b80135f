/** The two defensive readers of api/generate.js: `safeParseBody`, which
    turns whatever the platform hands over as the request body into a value,
    and `normalizeSlides`, which digs the slide array out of Gemini's parsed
    answer. Neither ever throws. */
module Payloads {
  import opened JsValues

  /** The empty object `{}`. */
  const EmptyObject: JsValue := Obj(map[])

  /** `safeParseBody(body)` (api/generate.js:6-17). */
  function SafeParseBody(body: JsValue, parse: Parser): (r: JsValue)
    ensures Falsy(body) ==> r == EmptyObject
    ensures !Falsy(body) && (body.Arr? || body.Obj?) ==> r == body
    ensures body.Str? && body.s != "" ==>
              r == (if parse(body.s).Some? then parse(body.s).value else EmptyObject)
    ensures !body.Str? && !IsTypeofObject(body) ==> r == EmptyObject
  {
    if Falsy(body) then EmptyObject
    else if IsTypeofObject(body) then body
    else if body.Str? then
      match parse(body.s)
      case Some(v) => v
      case None => EmptyObject
    else EmptyObject
  }

  /** The only way the normalised body can be null or undefined (so that
      destructuring it throws) is a non-empty string body that JSON.parse
      reads as such a value. */
  lemma {:induction false} SafeParseBodyNullish(body: JsValue, parse: Parser)
    ensures var r := SafeParseBody(body, parse);
            (r.Null? || r.Undefined?) <==>
            (body.Str? && body.s != "" && parse(body.s).Some?
             && (parse(body.s).value.Null? || parse(body.s).value.Undefined?))
  {
  }

  /** `Array.isArray(v.slides)` holds, and the array's elements. */
  function SlidesOf(v: JsValue): (r: Option<seq<JsValue>>)
    ensures r.Some? <==> v.Obj? && "slides" in v.fields && v.fields["slides"].Arr?
    ensures r.Some? ==> v.fields["slides"] == Arr(r.value)
  {
    if v.Obj? && "slides" in v.fields && v.fields["slides"].Arr?
    then Some(v.fields["slides"].items) else None
  }

  /** `normalizeSlides(payload)` (api/generate.js:19-33); None is its `null`.
      A TypeError from reading `.slides` off a parsed null falls into the
      `catch` and gives null as well. */
  function NormalizeSlides(payload: JsValue, parse: Parser): (r: Option<seq<JsValue>>)
    ensures Falsy(payload) ==> r == None
    ensures SlidesOf(payload).Some? ==> r == SlidesOf(payload)
    ensures r.Some? ==>
              || r == SlidesOf(payload)
              || (payload.Str? && parse(payload.s).Some? && r == SlidesOf(parse(payload.s).value))
    ensures !payload.Str? ==> r == SlidesOf(payload)
  {
    if Falsy(payload) then None
    else if SlidesOf(payload).Some? then SlidesOf(payload)
    else if payload.Str? then
      match parse(payload.s)
      case None => None
      case Some(parsed) => SlidesOf(parsed)
    else None
  }

  /** One level of string-encoded JSON is tolerated: a string whose parse
      carries a slide array yields that same array. */
  lemma {:induction false} NormalizeEncodedSlides(s: string, v: JsValue, parse: Parser)
    requires parse(s) == Some(v)
    requires s != ""
    ensures NormalizeSlides(Str(s), parse) == SlidesOf(v)
  {
  }

  /** ... but only one: a string that parses to another string is not
      parsed again, whatever the inner string holds. */
  lemma {:induction false} NormalizeParsesOnce(s: string, t: string, parse: Parser)
    requires parse(s) == Some(Str(t))
    ensures NormalizeSlides(Str(s), parse) == None
  {
  }
}
