/** What the handler decides about a request before it calls Gemini
    (api/generate.js:52-86): which API key it uses, whether the topic is
    acceptable, how many slides it asks for, and the prompt it sends. */
module Gate {
  import opened JsValues
  import opened JsStrings

  /** The two environment variables the handler reads; None is an unset
      variable. */
  datatype Env = Env(geminiKey: Option<string>, googleKey: Option<string>)

  /** `process.env.GEMINI_API_KEY || process.env.GOOGLE_API_KEY`: the first
      variable unless it is unset or empty, the second otherwise. */
  function ApiKey(env: Env): (key: Option<string>)
    ensures env.geminiKey.Some? && env.geminiKey.value != "" ==> key == env.geminiKey
    ensures !(env.geminiKey.Some? && env.geminiKey.value != "") ==> key == env.googleKey
  {
    if env.geminiKey.Some? && env.geminiKey.value != "" then env.geminiKey else env.googleKey
  }

  /** `!API_KEY` fails, so the handler goes on. */
  predicate HasApiKey(env: Env): (found: bool)
    ensures found ==> env.geminiKey.Some? || env.googleKey.Some?
  {
    var key := ApiKey(env);
    key.Some? && key.value != ""
  }

  /** A key is found exactly when one of the two variables is set to a
      non-empty string. */
  lemma {:induction false} HasApiKeyIff(env: Env)
    ensures HasApiKey(env) <==>
              (env.geminiKey.Some? && env.geminiKey.value != "")
              || (env.googleKey.Some? && env.googleKey.value != "")
  {
  }

  /** The negation of the rejection test
      `!topic || typeof topic !== 'string' || topic.trim().length === 0`. */
  predicate ValidTopic(topic: JsValue): (ok: bool)
    ensures ok ==> topic.Str? && topic.s != ""
  {
    !(Falsy(topic) || !topic.Str? || |Trim(topic.s)| == 0)
  }

  /** A topic is accepted exactly when it is a string holding at least one
      non-whitespace character. */
  lemma {:induction false} ValidTopicIff(topic: JsValue)
    ensures ValidTopic(topic) <==> topic.Str? && !AllWhitespace(topic.s)
  {
    if topic.Str? {
      TrimEmptyIffAllWhitespace(topic.s);
    }
  }

  /** `total` after destructuring with the default `total = 5`: the default
      applies only when the property reads as undefined. */
  function Total(payload: JsValue): (total: JsValue)
    requires !payload.Null? && !payload.Undefined?
    ensures Get(payload, "total") == Undefined ==> total == Num(5.0)
    ensures Get(payload, "total") != Undefined ==> total == Get(payload, "total")
  {
    var t := Get(payload, "total");
    if t.Undefined? then Num(5.0) else t
  }

  /** What `parseInt(v, 10)` gives: an integer, NaN, or the TypeError that
      its conversion of `v` to a string throws (an object whose `toString`
      and `valueOf` cannot be called, or throw). */
  datatype IntRead = NaN | Int(n: int) | Throws(error: JsError)

  /** `parseInt(·, 10)`, taken as given. */
  type IntParser = JsValue -> IntRead

  /** `Math.min(Math.max(parseInt(total, 10) || 5, 3), 10)`, given what
      parseInt returned. Because of `|| 5`, a NaN and a 0 both become 5
      before the clamp. */
  function NumSlides(parsed: IntRead): (n: int)
    requires !parsed.Throws?
    ensures 3 <= n <= 10
    ensures parsed == NaN || parsed == Int(0) ==> n == 5
    ensures parsed.Int? && 3 <= parsed.n <= 10 ==> n == parsed.n
    ensures parsed.Int? && parsed.n != 0 && parsed.n < 3 ==> n == 3
    ensures parsed.Int? && parsed.n > 10 ==> n == 10
  {
    var v := if parsed.NaN? || parsed.n == 0 then 5 else parsed.n;
    var atLeast3 := if v > 3 then v else 3;
    if atLeast3 < 10 then atLeast3 else 10
  }

  /** The slide count the handler asks for, when parseInt returns. */
  function SlideCount(payload: JsValue, parseInt: IntParser): (n: int)
    requires !payload.Null? && !payload.Undefined?
    requires !parseInt(Total(payload)).Throws?
    ensures 3 <= n <= 10
  {
    NumSlides(parseInt(Total(payload)))
  }

  /** Without a `total` the count is 5, for any parseInt that reads the
      number 5 as 5. */
  lemma {:induction false} SlideCountDefault(payload: JsValue, parseInt: IntParser)
    requires !payload.Null? && !payload.Undefined?
    requires Get(payload, "total") == Undefined
    requires parseInt(Num(5.0)) == Int(5)
    ensures SlideCount(payload, parseInt) == 5
  {
  }

  const PromptIntro: string :=
    "Você é um estrategista de conteúdo "
    + "especialista em criar carrosséis virais para Instagram.\n"
    + "Gere um carrossel com exatamente "
  const PromptMiddle: string := " slides sobre o seguinte tema:\n\nTEMA: "
  const PromptRules: string := PromptInstructions + "}"
  const PromptInstructions: string :=
    "\n\nREGRAS OBRIGATÓRIAS:\n"
    + "- Responda APENAS com um JSON válido, sem texto antes ou depois, sem blocos de código markdown\n"
    + "- Cada slide deve ter: \"title\" (título curto e impactante, máximo 6 palavras) e \"body\" (2 a 3 frases explicativas, conteúdo denso e valioso)\n"
    + "- O primeiro slide deve ser um gancho forte que prenda a atenção\n"
    + "- O último slide deve ter uma call-to-action clara (ex: seguir, salvar, comentar)\n"
    + "- Tom: autoridade, direto, transformador\n"
    + "- Idioma: Português Brasileiro\n"
    + "\n"
    + "FORMATO EXATO DE RESPOSTA (sem nenhum caractere fora deste JSON):\n"
    + "{\n"
    + "  \"slides\": [\n"
    + "    { \"title\": \"Título do Slide 1\", \"body\": \"Texto descritivo do slide 1.\" },\n"
    + "    { \"title\": \"Título do Slide 2\", \"body\": \"Texto descritivo do slide 2.\" }\n"
    + "  ]\n"

  /** A piece of a template literal: fixed text or one of the two
      substitutions the prompt uses. */
  datatype Piece = Text(text: string) | SlideCountSlot | TopicSlot

  /** The template literal's value: `${numSlides}` renders the count in
      decimal, `${topic.trim()}` the trimmed topic. */
  function Render(template: seq<Piece>, numSlides: nat, topic: string): (text: string)
    decreases |template|
  {
    if template == [] then ""
    else
      var head := match template[0]
        case Text(s) => s
        case SlideCountSlot => Decimal(numSlides)
        case TopicSlot => Trim(topic);
      head + Render(template[1..], numSlides, topic)
  }

  /** The prompt's template literal, which starts and ends with a line
      break (api/generate.js:65-86). */
  const PromptTemplate: seq<Piece> :=
    [Text("\n" + PromptIntro), SlideCountSlot, Text(PromptMiddle), TopicSlot, Text(PromptRules + "\n")]

  /** The prompt sent to Gemini: the template rendered, then trimmed, so
      that it carries no whitespace at either end. */
  function Prompt(numSlides: nat, topic: string): (prompt: string)
    ensures Unpadded(prompt)
  {
    TrimUnpaddedResult(Render(PromptTemplate, numSlides, topic));
    Trim(Render(PromptTemplate, numSlides, topic))
  }

  /** The trim removes exactly the two line breaks: the prompt is the fixed
      text with the count and the trimmed topic in their places. */
  lemma {:induction false} PromptText(numSlides: nat, topic: string)
    ensures Prompt(numSlides, topic)
            == PromptIntro + Decimal(numSlides) + PromptMiddle + Trim(topic) + PromptRules
  {
    var p := PromptIntro + Decimal(numSlides) + PromptMiddle + Trim(topic) + PromptRules;
    RenderFilled(PromptIntro, PromptMiddle, PromptRules, numSlides, topic);
    assert PromptIntro[0] == 'V';
    assert PromptRules[|PromptRules| - 1] == '}';
    FilledTemplateUnpadded(PromptIntro, Decimal(numSlides), PromptMiddle, Trim(topic), PromptRules);
    TrimInnerLine(p);
  }

  lemma {:induction false} RenderFilled(intro: string, middle: string, rules: string,
                                         numSlides: nat, topic: string)
    ensures Render([Text("\n" + intro), SlideCountSlot, Text(middle), TopicSlot, Text(rules + "\n")],
                   numSlides, topic)
            == "\n" + (intro + Decimal(numSlides) + middle + Trim(topic) + rules) + "\n"
  {
    var t := [Text("\n" + intro), SlideCountSlot, Text(middle), TopicSlot, Text(rules + "\n")];
    assert t[1..][1..][1..][1..][1..] == [];
    assert Render(t[1..][1..][1..][1..], numSlides, topic) == rules + "\n";
    assert Render(t[1..][1..][1..], numSlides, topic) == Trim(topic) + (rules + "\n");
    assert Render(t[1..][1..], numSlides, topic) == middle + (Trim(topic) + (rules + "\n"));
    assert Render(t[1..], numSlides, topic) == Decimal(numSlides) + (middle + (Trim(topic) + (rules + "\n")));
  }

  lemma {:induction false} FilledTemplateUnpadded(intro: string, d: string, middle: string,
                                                   t: string, rules: string)
    requires intro != [] && !IsWhitespace(intro[0])
    requires rules != [] && !IsWhitespace(rules[|rules| - 1])
    ensures var p := intro + d + middle + t + rules;
            p != [] && !IsWhitespace(p[0]) && !IsWhitespace(p[|p| - 1])
  {
    var p := intro + d + middle + t + rules;
    assert p[0] == intro[0];
    assert p[|p| - 1] == rules[|rules| - 1];
  }

  /** A text that starts and ends with non-whitespace, put between two line
      breaks, trims back to itself. */
  lemma {:induction false} TrimInnerLine(p: string)
    requires p != [] && !IsWhitespace(p[0]) && !IsWhitespace(p[|p| - 1])
    ensures Trim("\n" + p + "\n") == p
  {
    assert "\n" + p + "\n" == "\n" + (p + "\n");
    TrimStartSkipsWhitespace("\n", p + "\n");
    assert (p + "\n")[0] == p[0];
    assert TrimStart(p + "\n") == p + "\n";
    assert (p + "\n")[..|p|] == p;
    assert TrimEnd(p) == p;
  }

  /** The prompt determines the slide count and the trimmed topic it was
      built from. */
  lemma {:induction false} PromptInjective(n1: nat, topic1: string, n2: nat, topic2: string)
    requires Prompt(n1, topic1) == Prompt(n2, topic2)
    ensures n1 == n2 && Trim(topic1) == Trim(topic2)
  {
    SamePromptSameFillings(n1, topic1, n2, topic2);
    MiddleStartsWithSpace();
    CountAndTopicDetermined(PromptIntro, PromptMiddle, PromptRules, n1, Trim(topic1), n2, Trim(topic2));
  }

  lemma {:induction false} SamePromptSameFillings(n1: nat, topic1: string, n2: nat, topic2: string)
    requires Prompt(n1, topic1) == Prompt(n2, topic2)
    ensures PromptIntro + Decimal(n1) + PromptMiddle + Trim(topic1) + PromptRules
            == PromptIntro + Decimal(n2) + PromptMiddle + Trim(topic2) + PromptRules
  {
    PromptText(n1, topic1);
    PromptText(n2, topic2);
  }

  lemma MiddleStartsWithSpace()
    ensures PromptMiddle != [] && PromptMiddle[0] == ' '
  {
  }

  lemma {:induction false} CountAndTopicDetermined(intro: string, middle: string, rules: string,
                                                    n1: nat, t1: string, n2: nat, t2: string)
    requires middle != [] && !('0' <= middle[0] <= '9')
    requires intro + Decimal(n1) + middle + t1 + rules == intro + Decimal(n2) + middle + t2 + rules
    ensures n1 == n2 && t1 == t2
  {
    FillingsDetermined(intro, Decimal(n1), Decimal(n2), middle, t1, t2, rules);
    DecimalInjective(n1, n2);
  }

  /** Two fillings of the same template that give the same text are the
      same, when the first slot holds digits and is followed by a non-digit. */
  lemma {:induction false} FillingsDetermined(intro: string, d1: string, d2: string, middle: string,
                           t1: string, t2: string, rules: string)
    requires AllDigits(d1) && AllDigits(d2)
    requires middle != [] && !('0' <= middle[0] <= '9')
    requires intro + d1 + middle + t1 + rules == intro + d2 + middle + t2 + rules
    ensures d1 == d2 && t1 == t2
  {
    var a1 := d1 + (middle + t1 + rules);
    var a2 := d2 + (middle + t2 + rules);
    assert intro + d1 + middle + t1 + rules == intro + a1;
    assert intro + d2 + middle + t2 + rules == intro + a2;
    assert a1 == (intro + a1)[|intro|..] == (intro + a2)[|intro|..] == a2;
    if |d1| < |d2| {
      DigitsEndFirst(d1, d2, middle + t1 + rules, middle + t2 + rules);
      assert false;
    } else if |d2| < |d1| {
      DigitsEndFirst(d2, d1, middle + t2 + rules, middle + t1 + rules);
      assert false;
    }
    assert d1 == a1[..|d1|] == a2[..|d2|] == d2;
    var k := |d1| + |middle|;
    assert a1[k..] == t1 + rules && a2[k..] == t2 + rules;
    assert t1 == (t1 + rules)[..|t1|] == (t2 + rules)[..|t2|] == t2;
  }

  /** A shorter run of digits followed by a non-digit cannot agree with a
      longer run of digits. */
  lemma {:induction false} DigitsEndFirst(d1: string, d2: string, rest1: string, rest2: string)
    requires AllDigits(d2) && |d1| < |d2|
    requires rest1 != [] && !('0' <= rest1[0] <= '9')
    ensures d1 + rest1 != d2 + rest2
  {
    assert (d1 + rest1)[|d1|] == rest1[0];
    assert (d2 + rest2)[|d1|] == d2[|d1|];
  }
}
