/** The request rule sets of the AI endpoints: vision, audio, text
    processing, content generation, code and education. Each is an object
    rule; optional settings with a default are filled in on acceptance. */
module Ai {
  import opened Wrappers
  import opened Values
  import opened Rules
  import opened RuleLaws

  /** A mandatory-text rule: at least one character, with the given message. */
  function NonEmpty(msg: string): Rule {
    Text([MinLen(1, Some(msg))])
  }

  /** Any text at all. */
  const AnyText: Rule := Text([])

  const TextRequired: Rule := NonEmpty("Text is required")

  // ---------------------------------------------------------------------
  // The option lists
  // ---------------------------------------------------------------------

  const ImageSizes: seq<string> := ["1024x1024", "1792x1024", "1024x1792"]
  const ImageQualities: seq<string> := ["standard", "hd"]
  const ImageStyles: seq<string> := ["vivid", "natural"]
  const Voices: seq<string> := ["alloy", "echo", "fable", "onyx", "nova", "shimmer"]
  const Lengths: seq<string> := ["short", "medium", "long"]
  const SummaryFormats: seq<string> := ["paragraph", "bullets"]
  const Formalities: seq<string> := ["formal", "informal", "neutral"]
  const ReadingLevels: seq<string> := ["elementary", "middle", "high", "college"]
  const EntityTypes: seq<string> := ["person", "organization", "location", "date", "money", "product"]
  const EmailTones: seq<string> := ["professional", "friendly", "formal", "casual"]
  const ProductTones: seq<string> := ["professional", "casual", "luxury", "technical"]
  const CodeStyles: seq<string> := ["concise", "documented", "verbose"]
  const ReviewFocus: seq<string> := ["security", "performance", "readability", "bugs", "best-practices"]
  const SqlDialects: seq<string> := ["postgresql", "mysql", "sqlite", "mssql"]
  const RegexFlavors: seq<string> := ["javascript", "python", "pcre"]
  const DocFormats: seq<string> := ["openapi", "markdown", "jsdoc"]
  const Difficulties: seq<string> := ["easy", "medium", "hard"]
  const QuizTypes: seq<string> := ["multiple-choice", "true-false", "mixed"]

  // ---------------------------------------------------------------------
  // Vision and images
  // ---------------------------------------------------------------------

  const ImageAnalyzeSchema: Rule := Object([
    Field("image", NonEmpty("Image URL is required"), Mandatory),
    Field("question", AnyText, Optional),
    Field("maxTokens", Number([IsInt, Above(0.0)]), Optional)
  ])

  const ImageGenerateSchema: Rule := Object([
    Field("prompt", NonEmpty("Prompt is required"), Mandatory),
    Field("size", Enum(ImageSizes), Defaulted(Str("1024x1024"))),
    Field("quality", Enum(ImageQualities), Defaulted(Str("standard"))),
    Field("style", Enum(ImageStyles), Defaulted(Str("vivid"))),
    Field("n", Number([IsInt, AtLeast(1.0), AtMost(10.0)]), Defaulted(Num(1.0)))
  ])

  const OcrExtractSchema: Rule := Object([
    Field("image", NonEmpty("Image URL is required"), Mandatory),
    Field("language", AnyText, Optional)
  ])

  // ---------------------------------------------------------------------
  // Audio
  // ---------------------------------------------------------------------

  const TextSynthesizeSchema: Rule := Object([
    Field("text", Text([MinLen(1, Some("Text is required")), MaxLen(4096, Some("Text too long"))]), Mandatory),
    Field("voice", Enum(Voices), Defaulted(Str("alloy"))),
    Field("speed", Number([AtLeast(0.25), AtMost(4.0)]), Defaulted(Num(1.0)))
  ])

  const AudioTranscribeSchema: Rule := Object([
    Field("audio", NonEmpty("Audio URL is required"), Mandatory),
    Field("language", AnyText, Optional),
    Field("prompt", AnyText, Optional)
  ])

  // ---------------------------------------------------------------------
  // Text processing
  // ---------------------------------------------------------------------

  const TextSummarizeSchema: Rule := Object([
    Field("text", TextRequired, Mandatory),
    Field("length", Enum(Lengths), Defaulted(Str("medium"))),
    Field("format", Enum(SummaryFormats), Defaulted(Str("paragraph")))
  ])

  const TextTranslateSchema: Rule := Object([
    Field("text", TextRequired, Mandatory),
    Field("sourceLang", Text([MinLen(2, Some("Source language is required"))]), Mandatory),
    Field("targetLang", Text([MinLen(2, Some("Target language is required"))]), Mandatory),
    Field("formality", Enum(Formalities), Optional)
  ])

  const SentimentAnalyzeSchema: Rule := Object([
    Field("text", TextRequired, Mandatory),
    Field("detailed", Boolean, Defaulted(Bool(false)))
  ])

  const ContentModerateSchema: Rule := Object([
    Field("content", NonEmpty("Content is required"), Mandatory),
    Field("categories", ArrayOf(AnyText), Optional)
  ])

  const TextSimplifySchema: Rule := Object([
    Field("text", TextRequired, Mandatory),
    Field("targetLevel", Enum(ReadingLevels), Defaulted(Str("middle")))
  ])

  const EntityExtractSchema: Rule := Object([
    Field("text", TextRequired, Mandatory),
    Field("types", ArrayOf(Enum(EntityTypes)), Optional)
  ])

  // ---------------------------------------------------------------------
  // Content generation
  // ---------------------------------------------------------------------

  const EmailGenerateSchema: Rule := Object([
    Field("context", NonEmpty("Context is required"), Mandatory),
    Field("tone", Enum(EmailTones), Defaulted(Str("professional"))),
    Field("length", Enum(Lengths), Defaulted(Str("medium")))
  ])

  const ProductDescriptionSchema: Rule := Object([
    Field("product", NonEmpty("Product name/description is required"), Mandatory),
    Field("features", ArrayOf(AnyText), Optional),
    Field("audience", AnyText, Optional),
    Field("tone", Enum(ProductTones), Defaulted(Str("professional")))
  ])

  /** The URL syntax check is a parameter: `isUrl` says which strings the
      runtime's URL parser accepts. */
  function SeoOptimizeSchema(isUrl: string -> bool): Rule {
    Object([
      Field("content", NonEmpty("Content is required"), Mandatory),
      Field("keywords", ArrayOf(AnyText), Optional),
      Field("targetUrl", Text([Url(isUrl)]), Optional)
    ])
  }

  // ---------------------------------------------------------------------
  // Code and technical
  // ---------------------------------------------------------------------

  const CodeGenerateSchema: Rule := Object([
    Field("prompt", NonEmpty("Prompt is required"), Mandatory),
    Field("language", NonEmpty("Programming language is required"), Mandatory),
    Field("framework", AnyText, Optional),
    Field("style", Enum(CodeStyles), Defaulted(Str("documented")))
  ])

  const CodeReviewSchema: Rule := Object([
    Field("code", NonEmpty("Code is required"), Mandatory),
    Field("language", AnyText, Optional),
    Field("focus", ArrayOf(Enum(ReviewFocus)), Optional)
  ])

  const SqlQuerySchema: Rule := Object([
    Field("description", NonEmpty("Description is required"), Mandatory),
    Field("schema", AnyText, Optional),
    Field("dialect", Enum(SqlDialects), Defaulted(Str("postgresql")))
  ])

  /** One example string for a regular expression, and whether it should match. */
  const RegexExampleSchema: Rule := Object([
    Field("input", AnyText, Mandatory),
    Field("shouldMatch", Boolean, Mandatory)
  ])

  const RegexGenerateSchema: Rule := Object([
    Field("description", NonEmpty("Description is required"), Mandatory),
    Field("examples", ArrayOf(RegexExampleSchema), Optional),
    Field("flavor", Enum(RegexFlavors), Defaulted(Str("javascript")))
  ])

  const ApiDocsSchema: Rule := Object([
    Field("code", NonEmpty("Code is required"), Mandatory),
    Field("format", Enum(DocFormats), Defaulted(Str("markdown"))),
    Field("includeExamples", Boolean, Defaulted(Bool(true)))
  ])

  // ---------------------------------------------------------------------
  // Education
  // ---------------------------------------------------------------------

  const QuizGenerateSchema: Rule := Object([
    Field("topic", NonEmpty("Topic is required"), Mandatory),
    Field("questionCount", Number([IsInt, AtLeast(1.0), AtMost(50.0)]), Defaulted(Num(10.0))),
    Field("difficulty", Enum(Difficulties), Defaulted(Str("medium"))),
    Field("type", Enum(QuizTypes), Defaulted(Str("multiple-choice")))
  ])

  // ---------------------------------------------------------------------
  // Every rule set is normal
  // ---------------------------------------------------------------------

  lemma ImageSchemasNormal()
    ensures Normal(ImageAnalyzeSchema) && Normal(ImageGenerateSchema) && Normal(OcrExtractSchema)
  {
  }

  lemma AudioSchemasNormal()
    ensures Normal(TextSynthesizeSchema) && Normal(AudioTranscribeSchema)
  {
  }

  lemma TextSchemasNormal()
    ensures Normal(TextSummarizeSchema) && Normal(TextTranslateSchema) && Normal(SentimentAnalyzeSchema)
  {
  }

  lemma ListSchemasNormal()
    ensures Normal(ContentModerateSchema) && Normal(TextSimplifySchema) && Normal(EntityExtractSchema)
  {
  }

  lemma GenerationSchemasNormal(isUrl: string -> bool)
    ensures Normal(EmailGenerateSchema) && Normal(ProductDescriptionSchema)
    ensures Normal(SeoOptimizeSchema(isUrl))
  {
  }

  lemma CodeSchemasNormal()
    ensures Normal(CodeGenerateSchema) && Normal(CodeReviewSchema) && Normal(SqlQuerySchema)
  {
  }

  lemma RegexSchemasNormal()
    ensures Normal(RegexExampleSchema) && Normal(RegexGenerateSchema)
  {
    assert Normal(ArrayOf(RegexExampleSchema));
  }

  lemma DocsNormal()
    ensures Normal(ApiDocsSchema)
  {
  }

  lemma QuizNormal()
    ensures Normal(QuizGenerateSchema)
  {
  }

  // ---------------------------------------------------------------------
  // Counts and defaults
  // ---------------------------------------------------------------------

  /** A count field: an integer in [1, hi], with a default in that range. */
  lemma CountField(name: string, hi: real, d: real, es: seq<Entry>, p: seq<Segment>)
    requires IsInteger(d) && 1.0 <= d <= hi
    ensures var o := FieldOutcome(Field(name, Number([IsInt, AtLeast(1.0), AtMost(hi)]), Defaulted(Num(d))), es, p);
            && (o.Ok? <==> AbsentOr(Lookup(es, name), (x: Value) => x.Num? && IsInteger(x.n) && 1.0 <= x.n <= hi))
            && (o.Ok? ==> o.value == Some(Lookup(es, name).GetOr(Num(d))))
            && (o.Ok? ==> IntWhere(o.value, x => 1.0 <= x <= hi))
  {
    var c := [IsInt, AtLeast(1.0), AtMost(hi)];
    NumberDefaultField(name, c, d, es, p);
    if Lookup(es, name).Some? && Lookup(es, name).value.Num? {
      var y := Lookup(es, name).value.n;
      assert (forall i :: 0 <= i < |c| ==> NumPasses(c[i], y)) <==> NumPasses(c[0], y) && NumPasses(c[1], y) && NumPasses(c[2], y);
    }
  }

  // ---------------------------------------------------------------------
  // Image generation
  // ---------------------------------------------------------------------

  /** What an image-generation request must look like. */
  predicate ImageGenerateShape(es: seq<Entry>) {
    && TextWhere(Lookup(es, "prompt"), s => |s| >= 1)
    && AbsentOr(Lookup(es, "size"), (x: Value) => x.Str? && x.s in ImageSizes)
    && AbsentOr(Lookup(es, "quality"), (x: Value) => x.Str? && x.s in ImageQualities)
    && AbsentOr(Lookup(es, "style"), (x: Value) => x.Str? && x.s in ImageStyles)
    && AbsentOr(Lookup(es, "n"), (x: Value) => x.Num? && IsInteger(x.n) && 1.0 <= x.n <= 10.0)
  }

  lemma ImageGenerateNames()
    ensures |ImageGenerateSchema.fields| == 5 && DistinctNames(ImageGenerateSchema.fields)
  {
  }

  /** An image-generation request is accepted exactly when the prompt is
      non-empty, size, quality and style are absent or among their options,
      and n is absent or an integer from 1 to 10. */
  lemma ImageGenerateAccepts(v: Value, p: seq<Segment>)
    ensures Apply(ImageGenerateSchema, v, p).Ok? <==> v.Obj? && ImageGenerateShape(v.entries)
  {
    if v.Obj? {
      var es := v.entries;
      var fs := ImageGenerateSchema.fields;
      ObjectOfFive(fs[0], fs[1], fs[2], fs[3], fs[4], es, p);
      MinLenField("prompt", 1, "Prompt is required", es, p);
      EnumDefaultField("size", ImageSizes, "1024x1024", es, p);
      EnumDefaultField("quality", ImageQualities, "standard", es, p);
      EnumDefaultField("style", ImageStyles, "vivid", es, p);
      CountField("n", 10.0, 1.0, es, p);
    }
  }

  /** An accepted request comes out with every setting filled in: the given
      one or its default, and a count from 1 to 10. */
  lemma ImageGenerateOutput(v: Value, p: seq<Segment>)
    requires Apply(ImageGenerateSchema, v, p).Ok?
    ensures v.Obj?
    ensures var w := Apply(ImageGenerateSchema, v, p).value;
            && w.Obj?
            && Lookup(w.entries, "prompt") == Lookup(v.entries, "prompt")
            && Lookup(w.entries, "size") == Some(Lookup(v.entries, "size").GetOr(Str("1024x1024")))
            && Lookup(w.entries, "quality") == Some(Lookup(v.entries, "quality").GetOr(Str("standard")))
            && Lookup(w.entries, "style") == Some(Lookup(v.entries, "style").GetOr(Str("vivid")))
            && Lookup(w.entries, "n") == Some(Lookup(v.entries, "n").GetOr(Num(1.0)))
            && IntWhere(Lookup(w.entries, "n"), x => 1.0 <= x <= 10.0)
  {
    var es := v.entries;
    var fs := ImageGenerateSchema.fields;
    assert v.Obj?;
    ImageGenerateNames();
    ObjectOutputOfFive(fs[0], fs[1], fs[2], fs[3], fs[4], es, p);
    MinLenField("prompt", 1, "Prompt is required", es, p);
    EnumDefaultField("size", ImageSizes, "1024x1024", es, p);
    EnumDefaultField("quality", ImageQualities, "standard", es, p);
    EnumDefaultField("style", ImageStyles, "vivid", es, p);
    CountField("n", 10.0, 1.0, es, p);
  }

  /** Changing only the count of an accepted request keeps it accepted
      exactly when the new count is an integer from 1 to 10. */
  lemma ImageCountRange(es: seq<Entry>, x: real, p: seq<Segment>)
    requires Apply(ImageGenerateSchema, Obj(es), p).Ok?
    ensures Apply(ImageGenerateSchema, Obj(Put(es, "n", Num(x))), p).Ok? <==> IsInteger(x) && 1.0 <= x <= 10.0
  {
    ImageGenerateNames();
    PutField(ImageGenerateSchema.fields, es, p, 4, Num(x));
    CountField("n", 10.0, 1.0, Put(es, "n", Num(x)), p);
  }

  /** A request holding only a prompt comes out with every default, in the
      order the rule set lists them. */
  lemma ImageGeneratePromptOnly(s: string, p: seq<Segment>)
    requires |s| >= 1
    ensures Apply(ImageGenerateSchema, Obj([Entry("prompt", Str(s))]), p) ==
            Ok(Obj([Entry("prompt", Str(s)), Entry("size", Str("1024x1024")), Entry("quality", Str("standard")),
                    Entry("style", Str("vivid")), Entry("n", Num(1.0))]))
  {
    var es := [Entry("prompt", Str(s))];
    var fs := ImageGenerateSchema.fields;
    assert Lookup(es, "prompt") == Some(Str(s));
    assert Lookup(es, "size") == None && Lookup(es, "quality") == None;
    assert Lookup(es, "style") == None && Lookup(es, "n") == None;
    MinLenField("prompt", 1, "Prompt is required", es, p);
    EnumDefaultField("size", ImageSizes, "1024x1024", es, p);
    EnumDefaultField("quality", ImageQualities, "standard", es, p);
    EnumDefaultField("style", ImageStyles, "vivid", es, p);
    CountField("n", 10.0, 1.0, es, p);
    ObjectFilledFive(fs[0], fs[1], fs[2], fs[3], fs[4], es, p,
                     Str(s), Str("1024x1024"), Str("standard"), Str("vivid"), Num(1.0));
  }

  // ---------------------------------------------------------------------
  // Speech synthesis
  // ---------------------------------------------------------------------

  /** What a speech-synthesis request must look like. */
  predicate TextSynthesizeShape(es: seq<Entry>) {
    && TextWhere(Lookup(es, "text"), s => 1 <= |s| <= 4096)
    && AbsentOr(Lookup(es, "voice"), (x: Value) => x.Str? && x.s in Voices)
    && AbsentOr(Lookup(es, "speed"), (x: Value) => x.Num? && 0.25 <= x.n <= 4.0)
  }

  /** The text to speak: 1 to 4096 characters. */
  lemma SpokenTextField(es: seq<Entry>, p: seq<Segment>)
    ensures var o := FieldOutcome(TextSynthesizeSchema.fields[0], es, p);
            && (o.Ok? <==> TextWhere(Lookup(es, "text"), s => 1 <= |s| <= 4096))
            && (o.Ok? ==> o.value == Lookup(es, "text"))
  {
    var t := [MinLen(1, Some("Text is required")), MaxLen(4096, Some("Text too long"))];
    assert TextSynthesizeSchema.fields[0] == Field("text", Text(t), Mandatory);
    MandatoryField("text", Text(t), es, p);
    if Lookup(es, "text").Some? && Lookup(es, "text").value.Str? {
      var y := Lookup(es, "text").value.s;
      assert (forall i :: 0 <= i < |t| ==> TextPasses(t[i], y)) <==> TextPasses(t[0], y) && TextPasses(t[1], y);
    }
  }

  /** The speaking speed: a number in [0.25, 4], 1 by default. */
  lemma SpeedField(es: seq<Entry>, p: seq<Segment>)
    ensures var o := FieldOutcome(TextSynthesizeSchema.fields[2], es, p);
            && (o.Ok? <==> AbsentOr(Lookup(es, "speed"), (x: Value) => x.Num? && 0.25 <= x.n <= 4.0))
            && (o.Ok? ==> o.value == Some(Lookup(es, "speed").GetOr(Num(1.0))))
            && (o.Ok? ==> o.value.value.Num? && 0.25 <= o.value.value.n <= 4.0)
  {
    var c := [AtLeast(0.25), AtMost(4.0)];
    assert TextSynthesizeSchema.fields[2] == Field("speed", Number(c), Defaulted(Num(1.0)));
    NumberDefaultField("speed", c, 1.0, es, p);
    if Lookup(es, "speed").Some? && Lookup(es, "speed").value.Num? {
      var y := Lookup(es, "speed").value.n;
      assert (forall i :: 0 <= i < |c| ==> NumPasses(c[i], y)) <==> NumPasses(c[0], y) && NumPasses(c[1], y);
    }
  }

  /** A speech-synthesis request is accepted exactly when the text has 1 to
      4096 characters, the voice is absent or one of the six, and the speed
      is absent or in [0.25, 4]. */
  lemma TextSynthesizeAccepts(v: Value, p: seq<Segment>)
    ensures Apply(TextSynthesizeSchema, v, p).Ok? <==> v.Obj? && TextSynthesizeShape(v.entries)
  {
    if v.Obj? {
      var es := v.entries;
      var fs := TextSynthesizeSchema.fields;
      ObjectOfThree(fs[0], fs[1], fs[2], es, p);
      SpokenTextField(es, p);
      EnumDefaultField("voice", Voices, "alloy", es, p);
      SpeedField(es, p);
    }
  }

  /** An accepted request comes out with a voice among the six ("alloy"
      when none was given) and a speed in [0.25, 4] (1 when none was given). */
  lemma TextSynthesizeOutput(v: Value, p: seq<Segment>)
    requires Apply(TextSynthesizeSchema, v, p).Ok?
    ensures v.Obj?
    ensures var w := Apply(TextSynthesizeSchema, v, p).value;
            && w.Obj?
            && Lookup(w.entries, "text") == Lookup(v.entries, "text")
            && Lookup(w.entries, "voice") == Some(Lookup(v.entries, "voice").GetOr(Str("alloy")))
            && Lookup(w.entries, "speed") == Some(Lookup(v.entries, "speed").GetOr(Num(1.0)))
            && TextWhere(Lookup(w.entries, "voice"), s => s in Voices)
            && Lookup(w.entries, "speed").value.Num?
            && 0.25 <= Lookup(w.entries, "speed").value.n <= 4.0
  {
    var es := v.entries;
    var fs := TextSynthesizeSchema.fields;
    assert v.Obj?;
    assert DistinctNames(fs);
    ObjectOutputOfThree(fs[0], fs[1], fs[2], es, p);
    SpokenTextField(es, p);
    EnumDefaultField("voice", Voices, "alloy", es, p);
    SpeedField(es, p);
  }

  // ---------------------------------------------------------------------
  // Image analysis
  // ---------------------------------------------------------------------

  /** What an image-analysis request must look like. */
  predicate ImageAnalyzeShape(es: seq<Entry>) {
    && TextWhere(Lookup(es, "image"), s => |s| >= 1)
    && AbsentOr(Lookup(es, "question"), (x: Value) => x.Str?)
    && AbsentOr(Lookup(es, "maxTokens"), (x: Value) => x.Num? && IsInteger(x.n) && x.n > 0.0)
  }

  /** An image-analysis request is accepted exactly when the image is
      non-empty, the question absent or text, and maxTokens absent or a
      positive integer. */
  lemma ImageAnalyzeAccepts(v: Value, p: seq<Segment>)
    ensures Apply(ImageAnalyzeSchema, v, p).Ok? <==> v.Obj? && ImageAnalyzeShape(v.entries)
  {
    if v.Obj? {
      var es := v.entries;
      var fs := ImageAnalyzeSchema.fields;
      ObjectOfThree(fs[0], fs[1], fs[2], es, p);
      MinLenField("image", 1, "Image URL is required", es, p);
      OptionalTextField("question", es, p);
      MaxTokensField(es, p);
    }
  }

  /** The token limit: absent, or a positive integer, passed through. */
  lemma MaxTokensField(es: seq<Entry>, p: seq<Segment>)
    ensures var o := FieldOutcome(ImageAnalyzeSchema.fields[2], es, p);
            && (o.Ok? <==> AbsentOr(Lookup(es, "maxTokens"), (x: Value) => x.Num? && IsInteger(x.n) && x.n > 0.0))
            && (o.Ok? ==> o.value == Lookup(es, "maxTokens"))
  {
    var c := [IsInt, Above(0.0)];
    assert ImageAnalyzeSchema.fields[2] == Field("maxTokens", Number(c), Optional);
    OptionalNumberField("maxTokens", c, es, p);
    if Lookup(es, "maxTokens").Some? && Lookup(es, "maxTokens").value.Num? {
      var y := Lookup(es, "maxTokens").value.n;
      assert (forall i :: 0 <= i < |c| ==> NumPasses(c[i], y)) <==> NumPasses(c[0], y) && NumPasses(c[1], y);
    }
  }

  /** The optional settings of an accepted request pass through as given:
      absent ones stay absent, none is filled in. */
  lemma ImageAnalyzeKeepsOptional(v: Value, p: seq<Segment>)
    requires Apply(ImageAnalyzeSchema, v, p).Ok?
    ensures v.Obj?
    ensures var w := Apply(ImageAnalyzeSchema, v, p).value;
            && w.Obj?
            && Lookup(w.entries, "question") == Lookup(v.entries, "question")
            && Lookup(w.entries, "maxTokens") == Lookup(v.entries, "maxTokens")
  {
    var es := v.entries;
    var fs := ImageAnalyzeSchema.fields;
    assert v.Obj?;
    assert DistinctNames(fs);
    ObjectOutputOfThree(fs[0], fs[1], fs[2], es, p);
    OptionalTextField("question", es, p);
    MaxTokensField(es, p);
  }

  // ---------------------------------------------------------------------
  // Translation
  // ---------------------------------------------------------------------

  /** What a translation request must look like. */
  predicate TextTranslateShape(es: seq<Entry>) {
    && TextWhere(Lookup(es, "text"), s => |s| >= 1)
    && TextWhere(Lookup(es, "sourceLang"), s => |s| >= 2)
    && TextWhere(Lookup(es, "targetLang"), s => |s| >= 2)
    && AbsentOr(Lookup(es, "formality"), (x: Value) => x.Str? && x.s in Formalities)
  }

  /** A translation request is accepted exactly when the text is non-empty,
      both language codes have at least two characters, and the formality
      is absent or one of the three. */
  lemma TextTranslateAccepts(v: Value, p: seq<Segment>)
    ensures Apply(TextTranslateSchema, v, p).Ok? <==> v.Obj? && TextTranslateShape(v.entries)
  {
    if v.Obj? {
      var es := v.entries;
      var fs := TextTranslateSchema.fields;
      ObjectOfFour(fs[0], fs[1], fs[2], fs[3], es, p);
      MinLenField("text", 1, "Text is required", es, p);
      MinLenField("sourceLang", 2, "Source language is required", es, p);
      MinLenField("targetLang", 2, "Target language is required", es, p);
      EnumOptionalField("formality", Formalities, es, p);
    }
  }

  /** The formality has no default: an accepted request without one comes
      out without one. */
  lemma FormalityHasNoDefault(v: Value, p: seq<Segment>)
    requires Apply(TextTranslateSchema, v, p).Ok?
    ensures v.Obj?
    ensures Lookup(Apply(TextTranslateSchema, v, p).value.entries, "formality") == Lookup(v.entries, "formality")
  {
    var es := v.entries;
    var fs := TextTranslateSchema.fields;
    assert v.Obj?;
    assert DistinctNames(fs);
    ObjectOutputOfFour(fs[0], fs[1], fs[2], fs[3], es, p);
    EnumOptionalField("formality", Formalities, es, p);
  }

  // ---------------------------------------------------------------------
  // Quizzes and API documentation
  // ---------------------------------------------------------------------

  /** An accepted quiz request asks for 1 to 50 questions (10 when it does
      not say) and has a difficulty and a question type, "medium" and
      "multiple-choice" by default. */
  lemma QuizGenerateOutput(v: Value, p: seq<Segment>)
    requires Apply(QuizGenerateSchema, v, p).Ok?
    ensures v.Obj?
    ensures var w := Apply(QuizGenerateSchema, v, p).value;
            && w.Obj?
            && Lookup(w.entries, "questionCount") == Some(Lookup(v.entries, "questionCount").GetOr(Num(10.0)))
            && IntWhere(Lookup(w.entries, "questionCount"), x => 1.0 <= x <= 50.0)
            && Lookup(w.entries, "difficulty") == Some(Lookup(v.entries, "difficulty").GetOr(Str("medium")))
            && Lookup(w.entries, "type") == Some(Lookup(v.entries, "type").GetOr(Str("multiple-choice")))
  {
    var es := v.entries;
    var fs := QuizGenerateSchema.fields;
    assert v.Obj?;
    assert DistinctNames(fs);
    ObjectOutputOfFour(fs[0], fs[1], fs[2], fs[3], es, p);
    CountField("questionCount", 50.0, 10.0, es, p);
    EnumDefaultField("difficulty", Difficulties, "medium", es, p);
    EnumDefaultField("type", QuizTypes, "multiple-choice", es, p);
  }

  /** A quiz request is accepted exactly when the topic is non-empty, the
      question count is absent or an integer from 1 to 50, and difficulty
      and type are absent or among their options. */
  lemma QuizGenerateAccepts(v: Value, p: seq<Segment>)
    ensures Apply(QuizGenerateSchema, v, p).Ok? <==>
            && v.Obj?
            && TextWhere(Lookup(v.entries, "topic"), s => |s| >= 1)
            && AbsentOr(Lookup(v.entries, "questionCount"), (x: Value) => x.Num? && IsInteger(x.n) && 1.0 <= x.n <= 50.0)
            && AbsentOr(Lookup(v.entries, "difficulty"), (x: Value) => x.Str? && x.s in Difficulties)
            && AbsentOr(Lookup(v.entries, "type"), (x: Value) => x.Str? && x.s in QuizTypes)
  {
    if v.Obj? {
      var es := v.entries;
      var fs := QuizGenerateSchema.fields;
      ObjectOfFour(fs[0], fs[1], fs[2], fs[3], es, p);
      MinLenField("topic", 1, "Topic is required", es, p);
      CountField("questionCount", 50.0, 10.0, es, p);
      EnumDefaultField("difficulty", Difficulties, "medium", es, p);
      EnumDefaultField("type", QuizTypes, "multiple-choice", es, p);
    }
  }

  /** Validating a validated quiz request again changes nothing. */
  lemma QuizGenerateIdempotent(v: Value, p: seq<Segment>)
    requires Apply(QuizGenerateSchema, v, p).Ok?
    ensures Apply(QuizGenerateSchema, Apply(QuizGenerateSchema, v, p).value, p) == Apply(QuizGenerateSchema, v, p)
  {
    QuizNormal();
    Idempotent(QuizGenerateSchema, v, p);
  }

  /** An accepted documentation request has a format ("markdown" by
      default) and says whether to include examples (yes by default). */
  lemma ApiDocsOutput(v: Value, p: seq<Segment>)
    requires Apply(ApiDocsSchema, v, p).Ok?
    ensures v.Obj?
    ensures var w := Apply(ApiDocsSchema, v, p).value;
            && w.Obj?
            && Lookup(w.entries, "format") == Some(Lookup(v.entries, "format").GetOr(Str("markdown")))
            && TextWhere(Lookup(w.entries, "format"), s => s in DocFormats)
            && Lookup(w.entries, "includeExamples") == Some(Lookup(v.entries, "includeExamples").GetOr(Bool(true)))
            && Lookup(w.entries, "includeExamples").value.Bool?
  {
    var es := v.entries;
    var fs := ApiDocsSchema.fields;
    assert v.Obj?;
    assert DistinctNames(fs);
    ObjectOutputOfThree(fs[0], fs[1], fs[2], es, p);
    EnumDefaultField("format", DocFormats, "markdown", es, p);
    BoolDefaultField("includeExamples", true, es, p);
  }

  /** A documentation request is accepted exactly when the code is
      non-empty, the format is absent or one of the three, and the examples
      flag is absent or a boolean. */
  lemma ApiDocsAccepts(v: Value, p: seq<Segment>)
    ensures Apply(ApiDocsSchema, v, p).Ok? <==>
            && v.Obj?
            && TextWhere(Lookup(v.entries, "code"), s => |s| >= 1)
            && AbsentOr(Lookup(v.entries, "format"), (x: Value) => x.Str? && x.s in DocFormats)
            && AbsentOr(Lookup(v.entries, "includeExamples"), (x: Value) => x.Bool?)
  {
    if v.Obj? {
      var es := v.entries;
      var fs := ApiDocsSchema.fields;
      ObjectOfThree(fs[0], fs[1], fs[2], es, p);
      MinLenField("code", 1, "Code is required", es, p);
      EnumDefaultField("format", DocFormats, "markdown", es, p);
      BoolDefaultField("includeExamples", true, es, p);
    }
  }

  /** Validating a validated documentation request again changes nothing. */
  lemma ApiDocsIdempotent(v: Value, p: seq<Segment>)
    requires Apply(ApiDocsSchema, v, p).Ok?
    ensures Apply(ApiDocsSchema, Apply(ApiDocsSchema, v, p).value, p) == Apply(ApiDocsSchema, v, p)
  {
    DocsNormal();
    Idempotent(ApiDocsSchema, v, p);
  }

  // ---------------------------------------------------------------------
  // Lists inside requests
  // ---------------------------------------------------------------------

  /** A list of text values. */
  predicate TextList(x: Value) {
    x.Arr? && forall i :: 0 <= i < |x.items| ==> x.items[i].Str?
  }

  /** A list of texts, each one of `options`. */
  predicate EnumList(x: Value, options: seq<string>) {
    x.Arr? && forall i :: 0 <= i < |x.items| ==> x.items[i].Str? && x.items[i].s in options
  }

  /** An example for a regular expression: an input text and a flag. */
  predicate RegexExample(x: Value) {
    && x.Obj?
    && TextWhere(Lookup(x.entries, "input"), s => true)
    && Lookup(x.entries, "shouldMatch").Some? && Lookup(x.entries, "shouldMatch").value.Bool?
  }

  lemma TextListAccepts(x: Value, q: seq<Segment>)
    ensures Apply(ArrayOf(AnyText), x, q).Ok? <==> TextList(x)
  {
    if x.Arr? { ArrayAccepts(AnyText, x.items, q); }
  }

  /** An entity-extraction request is accepted exactly when the text is
      non-empty and the types are absent or a list of known entity types. */
  lemma EntityExtractAccepts(v: Value, p: seq<Segment>)
    ensures Apply(EntityExtractSchema, v, p).Ok? <==>
            v.Obj? && TextWhere(Lookup(v.entries, "text"), s => |s| >= 1) &&
            AbsentOr(Lookup(v.entries, "types"), x => EnumList(x, EntityTypes))
  {
    if v.Obj? {
      var es := v.entries;
      var fs := EntityExtractSchema.fields;
      ObjectOfTwo(fs[0], fs[1], es, p);
      MinLenField("text", 1, "Text is required", es, p);
      EnumListField("types", EntityTypes, es, p);
    }
  }

  /** An optional list field of options: absent, or a list every element
      of which is one of them. */
  lemma EnumListField(name: string, options: seq<string>, es: seq<Entry>, p: seq<Segment>)
    ensures FieldOutcome(Field(name, ArrayOf(Enum(options)), Optional), es, p).Ok? <==>
            AbsentOr(Lookup(es, name), x => EnumList(x, options))
  {
    OptionalField(name, ArrayOf(Enum(options)), es, p);
    var t := Lookup(es, name);
    if t.Some? && t.value.Arr? {
      ArrayAccepts(Enum(options), t.value.items, p + [Key(name)]);
    }
  }

  lemma RegexExampleAccepts(x: Value, q: seq<Segment>)
    ensures Apply(RegexExampleSchema, x, q).Ok? <==> RegexExample(x)
  {
    if x.Obj? {
      var fs := RegexExampleSchema.fields;
      ObjectOfTwo(fs[0], fs[1], x.entries, q);
      MandatoryField("input", AnyText, x.entries, q);
      MandatoryField("shouldMatch", Boolean, x.entries, q);
    }
  }

  /** A list of examples, each an input text and a flag. */
  predicate ExampleList(x: Value) {
    x.Arr? && forall i :: 0 <= i < |x.items| ==> RegexExample(x.items[i])
  }

  lemma ExamplesField(es: seq<Entry>, p: seq<Segment>)
    ensures FieldOutcome(Field("examples", ArrayOf(RegexExampleSchema), Optional), es, p).Ok? <==>
            AbsentOr(Lookup(es, "examples"), ExampleList)
  {
    OptionalField("examples", ArrayOf(RegexExampleSchema), es, p);
    var q := p + [Key("examples")];
    var t := Lookup(es, "examples");
    if t.Some? && t.value.Arr? {
      ArrayAccepts(RegexExampleSchema, t.value.items, q);
      forall i | 0 <= i < |t.value.items|
        ensures Apply(RegexExampleSchema, t.value.items[i], q + [Index(i)]).Ok? <==> RegexExample(t.value.items[i])
      {
        RegexExampleAccepts(t.value.items[i], q + [Index(i)]);
      }
    }
  }

  /** A regex-generation request is accepted exactly when the description is
      non-empty, the examples are absent or a list of examples, and the
      flavour is absent or one of the three. */
  lemma RegexGenerateAccepts(v: Value, p: seq<Segment>)
    ensures Apply(RegexGenerateSchema, v, p).Ok? <==>
            && v.Obj?
            && TextWhere(Lookup(v.entries, "description"), s => |s| >= 1)
            && AbsentOr(Lookup(v.entries, "examples"), ExampleList)
            && AbsentOr(Lookup(v.entries, "flavor"), (x: Value) => x.Str? && x.s in RegexFlavors)
  {
    if v.Obj? {
      var es := v.entries;
      ObjectOfThree(Field("description", NonEmpty("Description is required"), Mandatory),
                    Field("examples", ArrayOf(RegexExampleSchema), Optional),
                    Field("flavor", Enum(RegexFlavors), Defaulted(Str("javascript"))), es, p);
      MinLenField("description", 1, "Description is required", es, p);
      ExamplesField(es, p);
      EnumDefaultField("flavor", RegexFlavors, "javascript", es, p);
    }
  }

  /** An accepted regex-generation request keeps its description, has
      examples exactly when it gave some, and has a flavour, "javascript"
      by default. */
  lemma RegexGenerateOutput(v: Value, p: seq<Segment>)
    requires Apply(RegexGenerateSchema, v, p).Ok?
    ensures v.Obj?
    ensures var w := Apply(RegexGenerateSchema, v, p).value;
            && w.Obj?
            && Lookup(w.entries, "description") == Lookup(v.entries, "description")
            && (Lookup(w.entries, "examples").Some? <==> Lookup(v.entries, "examples").Some?)
            && Lookup(w.entries, "flavor") == Some(Lookup(v.entries, "flavor").GetOr(Str("javascript")))
            && TextWhere(Lookup(w.entries, "flavor"), s => s in RegexFlavors)
  {
    var es := v.entries;
    var fs := RegexGenerateSchema.fields;
    assert v.Obj?;
    assert DistinctNames(fs);
    ObjectOutputOfThree(fs[0], fs[1], fs[2], es, p);
    MinLenField("description", 1, "Description is required", es, p);
    OptionalField("examples", ArrayOf(RegexExampleSchema), es, p);
    EnumDefaultField("flavor", RegexFlavors, "javascript", es, p);
  }

  /** An SEO request is accepted exactly when the content is non-empty, the
      keywords are absent or a list of texts, and the target URL is absent
      or a string the URL parser accepts. */
  lemma SeoOptimizeAccepts(isUrl: string -> bool, v: Value, p: seq<Segment>)
    ensures Apply(SeoOptimizeSchema(isUrl), v, p).Ok? <==>
            && v.Obj?
            && TextWhere(Lookup(v.entries, "content"), s => |s| >= 1)
            && AbsentOr(Lookup(v.entries, "keywords"), TextList)
            && AbsentOr(Lookup(v.entries, "targetUrl"), (x: Value) => x.Str? && isUrl(x.s))
  {
    if v.Obj? {
      var es := v.entries;
      var fs := SeoOptimizeSchema(isUrl).fields;
      ObjectOfThree(fs[0], fs[1], fs[2], es, p);
      MinLenField("content", 1, "Content is required", es, p);
      TextListField("keywords", es, p);
      UrlField(isUrl, es, p);
    }
  }

  /** An optional list-of-texts field: absent, or a list of texts. */
  lemma TextListField(name: string, es: seq<Entry>, p: seq<Segment>)
    ensures FieldOutcome(Field(name, ArrayOf(AnyText), Optional), es, p).Ok? <==>
            AbsentOr(Lookup(es, name), TextList)
  {
    OptionalField(name, ArrayOf(AnyText), es, p);
    if Lookup(es, name).Some? {
      TextListAccepts(Lookup(es, name).value, p + [Key(name)]);
    }
  }

  lemma UrlField(isUrl: string -> bool, es: seq<Entry>, p: seq<Segment>)
    ensures FieldOutcome(Field("targetUrl", Text([Url(isUrl)]), Optional), es, p).Ok? <==>
            AbsentOr(Lookup(es, "targetUrl"), (x: Value) => x.Str? && isUrl(x.s))
  {
    OptionalField("targetUrl", Text([Url(isUrl)]), es, p);
    if Lookup(es, "targetUrl").Some? && Lookup(es, "targetUrl").value.Str? {
      var u := Lookup(es, "targetUrl").value.s;
      var c := [Url(isUrl)];
      assert (forall i :: 0 <= i < |c| ==> TextPasses(c[i], u)) <==> TextPasses(c[0], u);
    }
  }

  // ---------------------------------------------------------------------
  // The other request rule sets
  // ---------------------------------------------------------------------

  /** An OCR request is accepted exactly when the image is non-empty and the
      language absent or text. */
  lemma OcrExtractAccepts(v: Value, p: seq<Segment>)
    ensures Apply(OcrExtractSchema, v, p).Ok? <==>
            && v.Obj?
            && TextWhere(Lookup(v.entries, "image"), s => |s| >= 1)
            && AbsentOr(Lookup(v.entries, "language"), (x: Value) => x.Str?)
  {
    if v.Obj? {
      var es := v.entries;
      var fs := OcrExtractSchema.fields;
      ObjectOfTwo(fs[0], fs[1], es, p);
      MinLenField("image", 1, "Image URL is required", es, p);
      OptionalTextField("language", es, p);
    }
  }

  /** A transcription request is accepted exactly when the audio is
      non-empty and the language and prompt absent or text. */
  lemma AudioTranscribeAccepts(v: Value, p: seq<Segment>)
    ensures Apply(AudioTranscribeSchema, v, p).Ok? <==>
            && v.Obj?
            && TextWhere(Lookup(v.entries, "audio"), s => |s| >= 1)
            && AbsentOr(Lookup(v.entries, "language"), (x: Value) => x.Str?)
            && AbsentOr(Lookup(v.entries, "prompt"), (x: Value) => x.Str?)
  {
    if v.Obj? {
      var es := v.entries;
      var fs := AudioTranscribeSchema.fields;
      ObjectOfThree(fs[0], fs[1], fs[2], es, p);
      MinLenField("audio", 1, "Audio URL is required", es, p);
      OptionalTextField("language", es, p);
      OptionalTextField("prompt", es, p);
    }
  }

  /** A summary request is accepted exactly when the text is non-empty and
      length and format are absent or among their options. */
  lemma TextSummarizeAccepts(v: Value, p: seq<Segment>)
    ensures Apply(TextSummarizeSchema, v, p).Ok? <==>
            && v.Obj?
            && TextWhere(Lookup(v.entries, "text"), s => |s| >= 1)
            && AbsentOr(Lookup(v.entries, "length"), (x: Value) => x.Str? && x.s in Lengths)
            && AbsentOr(Lookup(v.entries, "format"), (x: Value) => x.Str? && x.s in SummaryFormats)
  {
    if v.Obj? {
      var es := v.entries;
      var fs := TextSummarizeSchema.fields;
      ObjectOfThree(fs[0], fs[1], fs[2], es, p);
      MinLenField("text", 1, "Text is required", es, p);
      EnumDefaultField("length", Lengths, "medium", es, p);
      EnumDefaultField("format", SummaryFormats, "paragraph", es, p);
    }
  }

  /** An accepted summary request keeps its text and has a length ("medium"
      by default) and a format ("paragraph" by default). */
  lemma TextSummarizeOutput(v: Value, p: seq<Segment>)
    requires Apply(TextSummarizeSchema, v, p).Ok?
    ensures v.Obj?
    ensures var w := Apply(TextSummarizeSchema, v, p).value;
            && w.Obj?
            && Lookup(w.entries, "text") == Lookup(v.entries, "text")
            && Lookup(w.entries, "length") == Some(Lookup(v.entries, "length").GetOr(Str("medium")))
            && TextWhere(Lookup(w.entries, "length"), s => s in Lengths)
            && Lookup(w.entries, "format") == Some(Lookup(v.entries, "format").GetOr(Str("paragraph")))
            && TextWhere(Lookup(w.entries, "format"), s => s in SummaryFormats)
  {
    var es := v.entries;
    var fs := TextSummarizeSchema.fields;
    assert v.Obj?;
    assert DistinctNames(fs);
    ObjectOutputOfThree(fs[0], fs[1], fs[2], es, p);
    MinLenField("text", 1, "Text is required", es, p);
    EnumDefaultField("length", Lengths, "medium", es, p);
    EnumDefaultField("format", SummaryFormats, "paragraph", es, p);
  }

  /** A sentiment request is accepted exactly when the text is non-empty and
      the detail flag absent or a boolean. */
  lemma SentimentAnalyzeAccepts(v: Value, p: seq<Segment>)
    ensures Apply(SentimentAnalyzeSchema, v, p).Ok? <==>
            && v.Obj?
            && TextWhere(Lookup(v.entries, "text"), s => |s| >= 1)
            && AbsentOr(Lookup(v.entries, "detailed"), (x: Value) => x.Bool?)
  {
    if v.Obj? {
      var es := v.entries;
      var fs := SentimentAnalyzeSchema.fields;
      ObjectOfTwo(fs[0], fs[1], es, p);
      MinLenField("text", 1, "Text is required", es, p);
      BoolDefaultField("detailed", false, es, p);
    }
  }

  /** An accepted sentiment request says whether to go into detail: as
      given, or not by default. */
  lemma SentimentAnalyzeOutput(v: Value, p: seq<Segment>)
    requires Apply(SentimentAnalyzeSchema, v, p).Ok?
    ensures v.Obj?
    ensures var w := Apply(SentimentAnalyzeSchema, v, p).value;
            && w.Obj?
            && Lookup(w.entries, "text") == Lookup(v.entries, "text")
            && Lookup(w.entries, "detailed") == Some(Lookup(v.entries, "detailed").GetOr(Bool(false)))
            && Lookup(w.entries, "detailed").value.Bool?
  {
    var es := v.entries;
    var fs := SentimentAnalyzeSchema.fields;
    assert v.Obj?;
    assert DistinctNames(fs);
    ObjectOutput(fs, es, p, 0);
    ObjectOutput(fs, es, p, 1);
    MinLenField("text", 1, "Text is required", es, p);
    BoolDefaultField("detailed", false, es, p);
  }

  /** A moderation request is accepted exactly when the content is non-empty
      and the categories absent or a list of texts. */
  lemma ContentModerateAccepts(v: Value, p: seq<Segment>)
    ensures Apply(ContentModerateSchema, v, p).Ok? <==>
            && v.Obj?
            && TextWhere(Lookup(v.entries, "content"), s => |s| >= 1)
            && AbsentOr(Lookup(v.entries, "categories"), TextList)
  {
    if v.Obj? {
      var es := v.entries;
      var fs := ContentModerateSchema.fields;
      ObjectOfTwo(fs[0], fs[1], es, p);
      MinLenField("content", 1, "Content is required", es, p);
      TextListField("categories", es, p);
    }
  }

  /** A simplification request is accepted exactly when the text is
      non-empty and the reading level absent or one of the four. */
  lemma TextSimplifyAccepts(v: Value, p: seq<Segment>)
    ensures Apply(TextSimplifySchema, v, p).Ok? <==>
            && v.Obj?
            && TextWhere(Lookup(v.entries, "text"), s => |s| >= 1)
            && AbsentOr(Lookup(v.entries, "targetLevel"), (x: Value) => x.Str? && x.s in ReadingLevels)
  {
    if v.Obj? {
      var es := v.entries;
      var fs := TextSimplifySchema.fields;
      ObjectOfTwo(fs[0], fs[1], es, p);
      MinLenField("text", 1, "Text is required", es, p);
      EnumDefaultField("targetLevel", ReadingLevels, "middle", es, p);
    }
  }

  /** An accepted simplification request has a reading level, "middle" by
      default. */
  lemma TextSimplifyOutput(v: Value, p: seq<Segment>)
    requires Apply(TextSimplifySchema, v, p).Ok?
    ensures v.Obj?
    ensures var w := Apply(TextSimplifySchema, v, p).value;
            && w.Obj?
            && Lookup(w.entries, "text") == Lookup(v.entries, "text")
            && Lookup(w.entries, "targetLevel") == Some(Lookup(v.entries, "targetLevel").GetOr(Str("middle")))
            && TextWhere(Lookup(w.entries, "targetLevel"), s => s in ReadingLevels)
  {
    var es := v.entries;
    var fs := TextSimplifySchema.fields;
    assert v.Obj?;
    assert DistinctNames(fs);
    ObjectOutput(fs, es, p, 0);
    ObjectOutput(fs, es, p, 1);
    MinLenField("text", 1, "Text is required", es, p);
    EnumDefaultField("targetLevel", ReadingLevels, "middle", es, p);
  }

  /** An email request is accepted exactly when the context is non-empty and
      tone and length are absent or among their options. */
  lemma EmailGenerateAccepts(v: Value, p: seq<Segment>)
    ensures Apply(EmailGenerateSchema, v, p).Ok? <==>
            && v.Obj?
            && TextWhere(Lookup(v.entries, "context"), s => |s| >= 1)
            && AbsentOr(Lookup(v.entries, "tone"), (x: Value) => x.Str? && x.s in EmailTones)
            && AbsentOr(Lookup(v.entries, "length"), (x: Value) => x.Str? && x.s in Lengths)
  {
    if v.Obj? {
      var es := v.entries;
      var fs := EmailGenerateSchema.fields;
      ObjectOfThree(fs[0], fs[1], fs[2], es, p);
      MinLenField("context", 1, "Context is required", es, p);
      EnumDefaultField("tone", EmailTones, "professional", es, p);
      EnumDefaultField("length", Lengths, "medium", es, p);
    }
  }

  /** An accepted email request has a tone ("professional" by default) and a
      length ("medium" by default). */
  lemma EmailGenerateOutput(v: Value, p: seq<Segment>)
    requires Apply(EmailGenerateSchema, v, p).Ok?
    ensures v.Obj?
    ensures var w := Apply(EmailGenerateSchema, v, p).value;
            && w.Obj?
            && Lookup(w.entries, "context") == Lookup(v.entries, "context")
            && Lookup(w.entries, "tone") == Some(Lookup(v.entries, "tone").GetOr(Str("professional")))
            && TextWhere(Lookup(w.entries, "tone"), s => s in EmailTones)
            && Lookup(w.entries, "length") == Some(Lookup(v.entries, "length").GetOr(Str("medium")))
            && TextWhere(Lookup(w.entries, "length"), s => s in Lengths)
  {
    var es := v.entries;
    var fs := EmailGenerateSchema.fields;
    assert v.Obj?;
    assert DistinctNames(fs);
    ObjectOutputOfThree(fs[0], fs[1], fs[2], es, p);
    MinLenField("context", 1, "Context is required", es, p);
    EnumDefaultField("tone", EmailTones, "professional", es, p);
    EnumDefaultField("length", Lengths, "medium", es, p);
  }

  /** A product-description request is accepted exactly when the product is
      non-empty, the features absent or a list of texts, the audience absent
      or text and the tone absent or one of the four. */
  lemma ProductDescriptionAccepts(v: Value, p: seq<Segment>)
    ensures Apply(ProductDescriptionSchema, v, p).Ok? <==>
            && v.Obj?
            && TextWhere(Lookup(v.entries, "product"), s => |s| >= 1)
            && AbsentOr(Lookup(v.entries, "features"), TextList)
            && AbsentOr(Lookup(v.entries, "audience"), (x: Value) => x.Str?)
            && AbsentOr(Lookup(v.entries, "tone"), (x: Value) => x.Str? && x.s in ProductTones)
  {
    if v.Obj? {
      var es := v.entries;
      var fs := ProductDescriptionSchema.fields;
      ObjectOfFour(fs[0], fs[1], fs[2], fs[3], es, p);
      MinLenField("product", 1, "Product name/description is required", es, p);
      TextListField("features", es, p);
      OptionalTextField("audience", es, p);
      EnumDefaultField("tone", ProductTones, "professional", es, p);
    }
  }

  /** An accepted product-description request has a tone, "professional" by
      default, and keeps an absent audience absent. */
  lemma ProductDescriptionOutput(v: Value, p: seq<Segment>)
    requires Apply(ProductDescriptionSchema, v, p).Ok?
    ensures v.Obj?
    ensures var w := Apply(ProductDescriptionSchema, v, p).value;
            && w.Obj?
            && Lookup(w.entries, "audience") == Lookup(v.entries, "audience")
            && Lookup(w.entries, "tone") == Some(Lookup(v.entries, "tone").GetOr(Str("professional")))
            && TextWhere(Lookup(w.entries, "tone"), s => s in ProductTones)
  {
    var es := v.entries;
    var fs := ProductDescriptionSchema.fields;
    assert v.Obj?;
    assert DistinctNames(fs);
    ObjectOutputOfFour(fs[0], fs[1], fs[2], fs[3], es, p);
    OptionalTextField("audience", es, p);
    EnumDefaultField("tone", ProductTones, "professional", es, p);
  }

  /** A code-generation request is accepted exactly when prompt and language
      are non-empty, the framework absent or text and the style absent or
      one of the three. */
  lemma CodeGenerateAccepts(v: Value, p: seq<Segment>)
    ensures Apply(CodeGenerateSchema, v, p).Ok? <==>
            && v.Obj?
            && TextWhere(Lookup(v.entries, "prompt"), s => |s| >= 1)
            && TextWhere(Lookup(v.entries, "language"), s => |s| >= 1)
            && AbsentOr(Lookup(v.entries, "framework"), (x: Value) => x.Str?)
            && AbsentOr(Lookup(v.entries, "style"), (x: Value) => x.Str? && x.s in CodeStyles)
  {
    if v.Obj? {
      var es := v.entries;
      var fs := CodeGenerateSchema.fields;
      ObjectOfFour(fs[0], fs[1], fs[2], fs[3], es, p);
      MinLenField("prompt", 1, "Prompt is required", es, p);
      MinLenField("language", 1, "Programming language is required", es, p);
      OptionalTextField("framework", es, p);
      EnumDefaultField("style", CodeStyles, "documented", es, p);
    }
  }

  /** An accepted code-generation request has a style, "documented" by
      default. */
  lemma CodeGenerateOutput(v: Value, p: seq<Segment>)
    requires Apply(CodeGenerateSchema, v, p).Ok?
    ensures v.Obj?
    ensures var w := Apply(CodeGenerateSchema, v, p).value;
            && w.Obj?
            && Lookup(w.entries, "prompt") == Lookup(v.entries, "prompt")
            && Lookup(w.entries, "language") == Lookup(v.entries, "language")
            && Lookup(w.entries, "style") == Some(Lookup(v.entries, "style").GetOr(Str("documented")))
            && TextWhere(Lookup(w.entries, "style"), s => s in CodeStyles)
  {
    var es := v.entries;
    var fs := CodeGenerateSchema.fields;
    assert v.Obj?;
    assert DistinctNames(fs);
    ObjectOutputOfFour(fs[0], fs[1], fs[2], fs[3], es, p);
    MinLenField("prompt", 1, "Prompt is required", es, p);
    MinLenField("language", 1, "Programming language is required", es, p);
    EnumDefaultField("style", CodeStyles, "documented", es, p);
  }

  /** A code-review request is accepted exactly when the code is non-empty,
      the language absent or text and the focus absent or a list of the five
      review areas. */
  lemma CodeReviewAccepts(v: Value, p: seq<Segment>)
    ensures Apply(CodeReviewSchema, v, p).Ok? <==>
            && v.Obj?
            && TextWhere(Lookup(v.entries, "code"), s => |s| >= 1)
            && AbsentOr(Lookup(v.entries, "language"), (x: Value) => x.Str?)
            && AbsentOr(Lookup(v.entries, "focus"), x => EnumList(x, ReviewFocus))
  {
    if v.Obj? {
      var es := v.entries;
      var fs := CodeReviewSchema.fields;
      ObjectOfThree(fs[0], fs[1], fs[2], es, p);
      MinLenField("code", 1, "Code is required", es, p);
      OptionalTextField("language", es, p);
      EnumListField("focus", ReviewFocus, es, p);
    }
  }

  /** A query request is accepted exactly when the description is non-empty,
      the schema absent or text and the dialect absent or one of the four. */
  lemma SqlQueryAccepts(v: Value, p: seq<Segment>)
    ensures Apply(SqlQuerySchema, v, p).Ok? <==>
            && v.Obj?
            && TextWhere(Lookup(v.entries, "description"), s => |s| >= 1)
            && AbsentOr(Lookup(v.entries, "schema"), (x: Value) => x.Str?)
            && AbsentOr(Lookup(v.entries, "dialect"), (x: Value) => x.Str? && x.s in SqlDialects)
  {
    if v.Obj? {
      var es := v.entries;
      var fs := SqlQuerySchema.fields;
      ObjectOfThree(fs[0], fs[1], fs[2], es, p);
      MinLenField("description", 1, "Description is required", es, p);
      OptionalTextField("schema", es, p);
      EnumDefaultField("dialect", SqlDialects, "postgresql", es, p);
    }
  }

  /** An accepted query request has a dialect, "postgresql" by default. */
  lemma SqlQueryOutput(v: Value, p: seq<Segment>)
    requires Apply(SqlQuerySchema, v, p).Ok?
    ensures v.Obj?
    ensures var w := Apply(SqlQuerySchema, v, p).value;
            && w.Obj?
            && Lookup(w.entries, "schema") == Lookup(v.entries, "schema")
            && Lookup(w.entries, "dialect") == Some(Lookup(v.entries, "dialect").GetOr(Str("postgresql")))
            && TextWhere(Lookup(w.entries, "dialect"), s => s in SqlDialects)
  {
    var es := v.entries;
    var fs := SqlQuerySchema.fields;
    assert v.Obj?;
    assert DistinctNames(fs);
    ObjectOutputOfThree(fs[0], fs[1], fs[2], es, p);
    OptionalTextField("schema", es, p);
    EnumDefaultField("dialect", SqlDialects, "postgresql", es, p);
  }
}
