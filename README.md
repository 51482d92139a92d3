# @perkos/validators in Dafny

A model of the validation library for two kinds of request:

- AI endpoints: vision, audio, text processing, content generation, code and quizzes;
- the x402 payment protocol: addresses, hashes, signatures, CAIP-2 network strings, prices, the payment header, payment envelopes, configuration, verification, tokens, settlement and error responses.

The library declares each rule set with Zod. Its index adds five helpers: `validate`, `safeValidate`, `partial`, `required` and `formatZodErrors`.

Each declaration is a value here: a `Rule` constant in module `Payment` or `Ai`. One recursive function `Rules.Apply` gives every rule its meaning, the same way Zod's parser does:

- **Scalars.** Text, number, boolean and enumerations are checked; each failing check adds one issue, in chain order.
- **Regular expressions.** A pattern check uses a small regular-expression model (`Patterns.Re`). Its meaning is the set of positions where a match can end.
- **Objects.** An object checks every field of its shape and collects all their issues. Its output lists the shape's fields in order, so unknown keys are dropped.
- **Field presence.** A field is `Mandatory`, `Optional`, `Defaulted(d)` or `Reinstates(d)`; only `partial` produces the last:
  - a mandatory field that is missing has its rule applied to an absent value: a union gives one `invalid_union` issue, since each alternative fails on the type; `unknown` accepts it and the key stays out of the output; every other rule gives one `invalid_type` issue, "Required";
  - an optional field that is missing stays missing in the output;
  - a defaulted field that is missing is filled with `d`, which also passes through the field's rule;
  - a `Reinstates(d)` field is optional, but `required` turns it back into `Defaulted(d)`.
- **Issues.** Issues are reported per failing check, not per field: an image count of 0.5 fails both `.int()` and `.min(1)` and gives two issues.
- **Arrays and records.** These check every element or every value.
- **Unions.** A union returns the first alternative that accepts the value. When none does, it reports the issues of the first alternative that failed on a value of its own type. When every alternative failed on type, it reports one `invalid_union` issue.

The modules are:

- `Wrappers`: `Option` and `Result`.
- `Values`: JSON-like input values, and key lookup in an object.
- `Patterns`: the regular-expression model.
- `Rules`: the rule language and `Apply`.
- `RuleLaws`: laws that hold for every rule set. Examples:
  - what objects, arrays, records and unions accept;
  - where defaults come from;
  - absent optional fields stay absent;
  - changing one field of an accepted object;
  - normalising twice is the same as normalising once.
- `Payment`: `src/payment.ts`. Each format pattern is proved to accept exactly a shape written without patterns. Each composite rule set is proved to accept exactly a stated field-by-field condition.
- `Ai`: `src/ai.ts`. Every one of the twenty request rule sets has an acceptance lemma. Those with defaults also have an output lemma that names each default.
- `Validators`: `src/index.ts`. This covers:
  - `Validate` and `SafeValidate`, as `Result` values;
  - `Partial` and `Required`, as transforms on an object rule;
  - `FormatZodErrors`, with path joining and its inverse.

The URL check of `seoOptimizeSchema` is a parameter, `isUrl`.

## Rule sets

Each declaration of the source is one constant (a function, for the URL-dependent one):

- `src/payment.ts`: `NetworkSchema` 12-19, `Caip2NetworkSchema` 21-24, `EthereumAddressSchema` and `AddressRe` 26-29, `TransactionHashSchema` and `TxHashRe` 31-34, `SignatureSchema` and `SignatureRe` 36-39, `PayloadSchema` 46-54, `PaymentEnvelopeSchema` 45-56, `PaymentHeaderSchema` and `HeaderRe` 58-61, `PriceSchema` and `PriceTextRe` 67-70, `PaymentConfigSchema` 72-77, `RouteConfigSchema` 79-83, `PaymentRequestSchema` 89-95, `PaymentVerificationSchema` 97-102, `TokenInfoSchema` 108-114, `Eip712DomainSchema` 116-121, `SettlementRequestSchema` 127-130, `SettlementResultSchema` 132-137, `PaymentErrorSchema` and `PaymentErrorCodes` 143-155.
- `src/ai.ts`: `ImageAnalyzeSchema` 12-16, `ImageGenerateSchema` 18-24, `OcrExtractSchema` 26-29, `TextSynthesizeSchema` 35-41, `AudioTranscribeSchema` 43-47, `TextSummarizeSchema` 53-57, `TextTranslateSchema` 59-64, `SentimentAnalyzeSchema` 66-69, `ContentModerateSchema` 71-74, `TextSimplifySchema` 76-79, `EntityExtractSchema` 81-84, `EmailGenerateSchema` 90-94, `ProductDescriptionSchema` 96-101, `SeoOptimizeSchema` 103-107, `CodeGenerateSchema` 113-118, `CodeReviewSchema` 120-124, `SqlQuerySchema` 126-130, `RegexExampleSchema` 134-137, `RegexGenerateSchema` 132-139, `ApiDocsSchema` 141-145, `QuizGenerateSchema` 151-156.

## Model

| member | source | states |
|---|---|---|
| Rules.Apply | src/index.ts:18-23 | Zod's parse of a value against a rule, as `validate` calls it: either the normalised value or the ordered issues. A rejection always carries at least one issue. |
| Rules.Missing | src/payment.ts:79-83 | A missing mandatory field is accepted iff its rule accepts an absent value, and then stays out of the output. Otherwise it gives one issue: `invalid_union` for a union, `invalid_type` "Required" for any other rule. |
| Payment.NetworkAccepts | src/payment.ts:12-19 | The network rule accepts exactly the six listed names, and nothing that is not text. |
| Payment.Caip2Matches | src/payment.ts:21-24 | `^eip155:\d+$` matches exactly "eip155:" followed by one or more ASCII digits and nothing else. |
| Payment.Caip2NetworkAccepts | src/payment.ts:21-24 | The CAIP-2 rule accepts a value iff it is text of that shape. |
| Payment.BareCaip2Rejected | src/payment.ts:21-24 | "eip155:" alone is rejected with exactly one `invalid_string` issue carrying the rule's own message. |
| Payment.AddressMatches | src/payment.ts:26-29 | The address pattern matches exactly strings of length 42 that start with lowercase "0x" and continue with 40 hex digits of either case. |
| Payment.EthereumAddressAccepts | src/payment.ts:26-29 | The address rule accepts a value iff it is text of that shape. |
| Payment.ShortAddressRejected | src/payment.ts:26-29 | "0xabc" is rejected with exactly one issue, at the root, with the message "Invalid Ethereum address". |
| Payment.TxHashMatches | src/payment.ts:31-34 | The hash pattern matches exactly "0x" followed by 64 hex digits (length 66). |
| Payment.TransactionHashAccepts | src/payment.ts:31-34 | The hash rule accepts a value iff it is text of that shape. |
| Payment.SignatureMatches | src/payment.ts:36-39 | The signature pattern matches exactly "0x" followed by at least one hex digit. |
| Payment.SignatureAccepts | src/payment.ts:36-39 | The signature rule accepts a value iff it is text of that shape. |
| Payment.AddressesAndHashesAreSignatures | src/payment.ts:26-39 | Every accepted address and every accepted hash is an accepted signature. |
| Payment.PayloadAccepts | src/payment.ts:46-54 | The payload is accepted iff all of these hold: `from` and `to` are addresses, `value` and `nonce` are non-empty text, `validAfter` is an integer of at least 0, `validBefore` is an integer above 0, and `network` is a CAIP-2 string. |
| Payment.PaymentEnvelopeAccepts | src/payment.ts:45-56 | An envelope is accepted iff its payload meets the conditions above and its signature is a signature. |
| Payment.PayloadValidBeforeRejected | src/payment.ts:51 | A payload that differs from an accepted one only by a non-positive integer `validBefore` is rejected with exactly one `too_small` issue at `validBefore`. |
| Payment.ValidBeforeOutOfRange | src/payment.ts:45-56 | For an envelope, that same issue is the only one, at path `payload.validBefore`. |
| Payment.EnvelopePayloadRejected | src/payment.ts:45-56 | An otherwise valid envelope whose payload is rejected is rejected with exactly the payload's issues. |
| Payment.HeaderMatches | src/payment.ts:58-61 | `/^x402\s+/i` matches exactly strings that begin with "x402", with the first letter in either case, followed by at least one whitespace character. |
| Payment.PaymentHeaderAccepts | src/payment.ts:58-61 | The header rule accepts a value iff it is text of that shape. |
| Payment.DecimalMatches | src/payment.ts:68 | `^\d+(\.\d+)?$` matches exactly one or more digits, optionally followed by a dot and one or more digits. |
| Payment.PriceAccepts | src/payment.ts:67-70 | A price is accepted iff it is such a decimal string or a number strictly above 0. An accepted price is returned unchanged. |
| Payment.PriceRejected | src/payment.ts:67-70 | A rejected price gets exactly one issue: `invalid_string` "Invalid price format" for text, `too_small` for a number, and `invalid_union` for any other value. |
| Payment.MalformedPricesRejected | src/payment.ts:67-70 | "", "1.", ".5" and "-1" are each rejected with exactly the price-format issue. |
| Payment.PaymentConfigAccepts | src/payment.ts:72-77 | A configuration is accepted iff all of these hold: the recipient is an address, the network is one of the six names, the token address is absent or an address, and every entry of the price table is a price. |
| Payment.ConfigPrices | src/payment.ts:76 | Every entry of an accepted configuration's price table is a price. |
| Payment.RouteConfigAccepts | src/payment.ts:79-83 | A route is accepted iff its path is non-empty, its price is a price, and its description is absent or text. |
| Payment.PaymentRequestAccepts | src/payment.ts:89-95 | A request is accepted iff all of these hold: the amount is a price, the recipient is an address, the network is one of the six names, the memo is absent or text, and the expiry is absent or a positive integer. |
| Payment.PaymentVerificationAccepts | src/payment.ts:97-102 | A verification is accepted iff all of these hold: the envelope is an envelope, the expected amount is text, the expected recipient is an address, and the tolerance is absent or a number in [0, 1]. |
| Payment.ToleranceDefault | src/payment.ts:101 | An accepted verification has a tolerance in [0, 1]. It is 0 when the input had none and the given one otherwise. |
| Payment.TokenInfoAccepts | src/payment.ts:108-114 | A token is accepted iff all of these hold: the address is an address, name and symbol are text, `decimals` is an integer in [0, 18], and `chainId` is a positive integer. |
| Payment.TokenInfoRanges | src/payment.ts:112-113 | An accepted token has integer decimals in [0, 18] and a positive integer chain id. |
| Payment.Eip712DomainAccepts | src/payment.ts:116-121 | A domain is accepted iff all of these hold: name and version are text, the chain id is a positive integer, and the verifying contract is an address. |
| Payment.SettlementRequestAccepts | src/payment.ts:127-130 | A settlement request is accepted iff the envelope is an envelope and the private key is absent or text. |
| Payment.SettlementResultAccepts | src/payment.ts:132-137 | A result is accepted iff all of these hold: `success` is a boolean, the hash is absent or a hash, and `error` and `gasUsed` are each absent or text. |
| Payment.SettlementHash | src/payment.ts:134 | A hash present in an accepted result is a transaction hash. |
| Payment.PaymentErrorAccepts | src/payment.ts:143-155 | An error response is accepted iff the error is text, the code is one of the seven, and the details are absent or an object of any values. |
| Payment.PaymentErrorCodeAccepts | src/payment.ts:145-153 | An accepted error response carries one of exactly the seven listed codes. |
| Payment.BogusErrorCodeRejected | src/payment.ts:143-155 | An error response with a text `error`, no details or object details, and a code outside the seven is rejected with exactly one `invalid_enum_value` issue, at `code`. |
| Payment.BogusCodeExample | src/payment.ts:145-153 | For instance, the code "BOGUS" gets exactly that issue. |
| Payment.MissingPriceRejected | src/payment.ts:67-95 | Dropping `price` from an accepted route, or `amount` from an accepted request, gives exactly one `invalid_union` issue at that key. |
| Payment.PaymentFormatsNormal | src/payment.ts:12-70 | The format rules have unique field names and only scalar unions, so `RuleLaws.Idempotent` applies to them. |
| Payment.EnvelopeNormal | src/payment.ts:45-56 | The same holds for the payload and the envelope. |
| Payment.PaymentMessagesNormal | src/payment.ts:72-83 | The same holds for the configuration and route rules. |
| Payment.RequestNormal | src/payment.ts:89-95 | The same holds for the payment request. |
| Payment.VerificationNormal | src/payment.ts:97-102 | The same holds for verification; the settlement request is covered as well. |
| Payment.TokenSchemasNormal | src/payment.ts:108-121 | The same holds for the token and domain rules. |
| Payment.SettlementSchemasNormal | src/payment.ts:132-155 | The same holds for the settlement result and error rules. |
| Ai.ImageAnalyzeAccepts | src/ai.ts:12-16 | An image-analysis request is accepted iff the image is non-empty, the question is absent or text, and `maxTokens` is absent or a positive integer. |
| Ai.ImageAnalyzeKeepsOptional | src/ai.ts:14-15 | `question` and `maxTokens` pass through as given. An absent one stays absent and nothing is filled in. |
| Ai.ImageGenerateAccepts | src/ai.ts:18-24 | An image-generation request is accepted iff the prompt is non-empty, size, quality and style are each absent or one of their options, and `n` is absent or an integer in [1, 10]. |
| Ai.ImageGenerateOutput | src/ai.ts:18-24 | An accepted request keeps its prompt. Each setting is the given value or its default ("1024x1024", "standard", "vivid", 1), and `n` is an integer in [1, 10]. |
| Ai.ImageGeneratePromptOnly | src/ai.ts:18-24 | A request holding only a non-empty prompt is accepted, and all four defaults are filled in shape order. |
| Ai.ImageCountRange | src/ai.ts:23 | Changing only `n` in an accepted request keeps it accepted iff the new `n` is an integer in [1, 10]. |
| Ai.OcrExtractAccepts | src/ai.ts:26-29 | An OCR request is accepted iff the image is non-empty and the language is absent or text. |
| Ai.TextSynthesizeAccepts | src/ai.ts:35-41 | A speech request is accepted iff the text has 1 to 4096 characters, the voice is absent or one of the six, and the speed is absent or a number in [0.25, 4.0]. |
| Ai.TextSynthesizeOutput | src/ai.ts:35-41 | An accepted speech request keeps its text. Its voice is one of the six ("alloy" by default) and its speed is in [0.25, 4.0] (1.0 by default). |
| Ai.AudioTranscribeAccepts | src/ai.ts:43-47 | A transcription request is accepted iff the audio is non-empty and the language and prompt are each absent or text. |
| Ai.TextSummarizeAccepts | src/ai.ts:53-57 | A summary request is accepted iff the text is non-empty and length and format are each absent or one of their options. |
| Ai.TextSummarizeOutput | src/ai.ts:53-57 | An accepted summary request keeps its text and has a length ("medium" by default) and a format ("paragraph" by default), each among its options. |
| Ai.TextTranslateAccepts | src/ai.ts:59-64 | A translation request is accepted iff the text is non-empty, both language codes have at least 2 characters, and the formality is absent or one of the three. |
| Ai.FormalityHasNoDefault | src/ai.ts:63 | The output's formality is exactly the input's: an absent one stays absent. |
| Ai.SentimentAnalyzeAccepts | src/ai.ts:66-69 | A sentiment request is accepted iff the text is non-empty and `detailed` is absent or a boolean. |
| Ai.SentimentAnalyzeOutput | src/ai.ts:66-69 | An accepted sentiment request keeps its text, and `detailed` is the given boolean or `false`. |
| Ai.ContentModerateAccepts | src/ai.ts:71-74 | A moderation request is accepted iff the content is non-empty and the categories are absent or a list of texts. |
| Ai.TextSimplifyAccepts | src/ai.ts:76-79 | A simplification request is accepted iff the text is non-empty and the level is absent or one of the four. |
| Ai.TextSimplifyOutput | src/ai.ts:76-79 | An accepted simplification request keeps its text and has a level among the four ("middle" by default). |
| Ai.EntityExtractAccepts | src/ai.ts:81-84 | An extraction request is accepted iff the text is non-empty and `types` is absent or a list every element of which is one of the six entity types. |
| Ai.EmailGenerateAccepts | src/ai.ts:90-94 | An email request is accepted iff the context is non-empty and tone and length are each absent or one of their options. |
| Ai.EmailGenerateOutput | src/ai.ts:90-94 | An accepted email request keeps its context and has a tone ("professional" by default) and a length ("medium" by default), each among its options. |
| Ai.ProductDescriptionAccepts | src/ai.ts:96-101 | A product request is accepted iff all of these hold: the product is non-empty, the features are absent or a list of texts, the audience is absent or text, and the tone is absent or one of the four. |
| Ai.ProductDescriptionOutput | src/ai.ts:96-101 | An accepted product request keeps an absent audience absent and has a tone among the four ("professional" by default). |
| Ai.SeoOptimizeAccepts | src/ai.ts:103-107 | An SEO request is accepted iff the content is non-empty, the keywords are absent or a list of texts, and the target URL is absent or a string that the URL predicate accepts. |
| Ai.CodeGenerateAccepts | src/ai.ts:113-118 | A code request is accepted iff prompt and language are non-empty, the framework is absent or text, and the style is absent or one of the three. |
| Ai.CodeGenerateOutput | src/ai.ts:113-118 | An accepted code request keeps prompt and language and has a style among the three ("documented" by default). |
| Ai.CodeReviewAccepts | src/ai.ts:120-124 | A review request is accepted iff the code is non-empty, the language is absent or text, and the focus is absent or a list of the five review areas. |
| Ai.SqlQueryAccepts | src/ai.ts:126-130 | A query request is accepted iff the description is non-empty, the schema is absent or text, and the dialect is absent or one of the four. |
| Ai.SqlQueryOutput | src/ai.ts:126-130 | An accepted query request keeps an absent schema absent and has a dialect among the four ("postgresql" by default). |
| Ai.RegexExampleAccepts | src/ai.ts:134-137 | An example is accepted iff it is an object with a text `input` and a boolean `shouldMatch`. |
| Ai.RegexGenerateAccepts | src/ai.ts:132-139 | A regex request is accepted iff the description is non-empty, the examples are absent or a list of valid examples, and the flavour is absent or one of the three. |
| Ai.RegexGenerateOutput | src/ai.ts:132-139 | An accepted regex request keeps its description, has examples exactly when it gave some, and has a flavour among the three ("javascript" by default). |
| Ai.ApiDocsAccepts | src/ai.ts:141-145 | A docs request is accepted iff the code is non-empty, the format is absent or one of the three, and `includeExamples` is absent or a boolean. |
| Ai.ApiDocsOutput | src/ai.ts:141-145 | An accepted docs request has a format among the three ("markdown" by default) and a boolean `includeExamples` (`true` by default). |
| Ai.ApiDocsIdempotent | src/ai.ts:141-145 | Validating an accepted docs request's output again gives the same result. |
| Ai.QuizGenerateAccepts | src/ai.ts:151-156 | A quiz request is accepted iff the topic is non-empty, the question count is absent or an integer in [1, 50], and difficulty and type are each absent or one of their three options. |
| Ai.QuizGenerateOutput | src/ai.ts:151-156 | An accepted quiz request has an integer question count in [1, 50] (10 by default), a difficulty ("medium" by default) and a type ("multiple-choice" by default). |
| Ai.QuizGenerateIdempotent | src/ai.ts:151-156 | Validating an accepted quiz request's output again gives the same result. |
| Ai.ImageSchemasNormal | src/ai.ts:12-29 | The vision rule sets have unique field names, so `RuleLaws.Idempotent` applies to them. |
| Ai.AudioSchemasNormal | src/ai.ts:35-47 | The same holds for the audio rule sets. |
| Ai.TextSchemasNormal | src/ai.ts:53-69 | The same holds for summary, translation and sentiment. |
| Ai.ListSchemasNormal | src/ai.ts:71-84 | The same holds for moderation, simplification and extraction. |
| Ai.GenerationSchemasNormal | src/ai.ts:90-107 | The same holds for email, product and SEO, for every URL predicate. |
| Ai.CodeSchemasNormal | src/ai.ts:113-130 | The same holds for code generation, review and SQL. |
| Ai.RegexSchemasNormal | src/ai.ts:132-139 | The same holds for the regex request and its example element. |
| RuleLaws.ObjectAccepts | src/payment.ts:45-56 | An object rule accepts an object iff every field, taken alone, accepts its entry. |
| RuleLaws.ObjectOutput | src/ai.ts:18-24 | In an accepted object, the output's entry for each field is that field's own outcome. |
| RuleLaws.DropMandatory | src/payment.ts:46-54 | Removing from an accepted object one mandatory field whose rule does not accept an absent value gives exactly one issue at that field's path: `invalid_union` for a union, otherwise `invalid_type` "Required". |
| RuleLaws.OneFieldFails | src/payment.ts:45-56 | When exactly one field fails, the object's issues are exactly that field's issues. |
| RuleLaws.PutField | src/ai.ts:18-24 | Changing one field of an accepted object keeps it accepted iff that field accepts the new value. |
| RuleLaws.ReplaceField | src/ai.ts:18-24 | If the changed field rejects the new value, the object reports exactly that field's issues. |
| RuleLaws.AbsentStaysAbsent | src/ai.ts:14-15 | An absent optional field without a default is absent from the output, not filled with a null. |
| RuleLaws.DefaultFills | src/ai.ts:20-23 | A defaulted field is always present in the output. When it was absent, the output holds the default as normalised by the field's rule. |
| RuleLaws.MandatoryField | src/payment.ts:46-54 | A mandatory field is accepted iff it is present and its rule accepts it, or absent and its rule accepts an absent value. |
| RuleLaws.OptionalField | src/ai.ts:14 | An optional field is accepted iff it is absent or its rule accepts it. An absent one contributes nothing. |
| RuleLaws.DefaultedField | src/ai.ts:20 | A defaulted field's outcome is its rule applied to the given value, or to the default when absent. |
| RuleLaws.ArrayAccepts | src/ai.ts:83 | An array rule accepts a list iff every element is accepted at its own index. The output holds each element's normalised value. |
| RuleLaws.RecordAccepts | src/payment.ts:76 | A record rule accepts an object iff every value is accepted under its key. The output keeps keys and order. |
| RuleLaws.UnionOfTwo | src/payment.ts:67-70 | A two-way union returns the first accepting alternative's result. When both reject, it reports the issues of the first alternative that got a value of its own type (a "dirty" failure). It gives one `invalid_union` issue only when both failed on type. |
| RuleLaws.PatternRule | src/payment.ts:21-39 | A pattern rule rejects non-text with `invalid_type`, accepts a matching string unchanged, and otherwise gives one `invalid_string` issue with the rule's message. |
| RuleLaws.Idempotent | src/ai.ts:151-156 | For every normal rule set, applying the rule to its own accepted output gives the same output. |
| RuleLaws.ScalarKeeps | src/payment.ts:12-39 | A text, number, boolean or enumeration rule returns an accepted value unchanged. |
| Validators.Validate | src/index.ts:18-23 | `validate` succeeds iff the rule accepts the data, and then returns the normalised data. A failure carries exactly the rule's issues, and there is at least one. |
| Validators.SafeValidate | src/index.ts:28-37 | `safeValidate` reports success with the data exactly when `validate` returns that data. Otherwise it reports failure with `validate`'s error. |
| Validators.ValidateIdempotent | src/index.ts:18-23 | Validating the output of a successful validation again gives the same result (normal rule sets). |
| Validators.Partial | src/index.ts:42-44 | `partial` returns a new object rule with the same fields in the same order, each with its own rule, each optional. A field keeps its default only for a later `required`. |
| Validators.PartialAccepts | src/index.ts:42-44 | The partial rule accepts an object iff every present field is accepted by its original rule. |
| Validators.PartialAcceptsEmpty | src/index.ts:40-44 | The partial form of any object rule accepts `{}` and returns `{}`. |
| Validators.PartialWeakens | src/index.ts:42-44 | Whatever the original rule accepts, its partial form accepts. |
| Validators.Required | src/index.ts:49-51 | `required` returns a new object rule with the same fields and rules, each mandatory or defaulted. Mandatory and defaulted fields keep their presence, and every default is kept. |
| Validators.RequiredAgrees | src/index.ts:49-51 | On input where every optional field is present (or absent with a rule that accepts that) and every field whose default `required` restores is present, the required form gives exactly the original result. |
| Validators.RequiredAccepts | src/index.ts:46-51 | The required form accepts an object iff the original accepts it and, field by field, every optional field is present (or its rule accepts an absent value) and every restored default, where needed, is accepted. |
| Validators.RequiredRejectsMissing | src/index.ts:49-51 | The required form rejects an object that lacks a field that was optional, unless that field's rule accepts an absent value. |
| Validators.TransformsIdempotent | src/index.ts:42-51 | Applying `partial` twice is the same as once, and so is applying `required` twice. |
| Validators.RequiredOfPartial | src/index.ts:42-51 | `required(partial(R))` equals `required(R)`: defaults come back. For a rule set with no optional field it equals `R`. |
| Validators.FormatZodErrors | src/index.ts:56-66 | Exactly one record per issue, in order. Its path is the issue's segments joined with ".", and its message and code are copied unchanged. |
| Validators.JoinPathSplits | src/index.ts:62 | For a non-empty path whose segments contain no ".", splitting the joined path at "." gives back the segments. |
| Validators.NatToStringRoundTrip | src/index.ts:62 | An array index written into a path reads back as the same number. |
| Validators.ShortAddressReported | src/index.ts:56-66 | The report for "0xabc" against the address rule is one record: path "", the rule's message, and `invalid_string`. |
| Validators.ValidBeforeReported | src/index.ts:56-66 | An envelope whose only fault is a non-positive `validBefore` is reported as one record: path "payload.validBefore", code `too_small`. |

## Left out

- `z.infer` type exports (`src/payment.ts:161-175`, `src/ai.ts:162-181`): type-level only, with no behaviour.
- `tsup.config.ts`: build configuration, with no behaviour. It is not part of this model.
- The exception thrown by `validate` is modelled as an `Err` result carrying the issues.
- Zod's default issue messages are fixed stand-ins: "Required" and "Invalid input". The codes are Zod's code names as plain strings. Rules with their own message (patterns, `min(1, …)`, `max(4096, …)`) carry that message exactly.
- RuleLaws.UnionOfTwo: a failed union reports its `invalid_union` issue without the nested per-alternative errors that Zod attaches to it. Only text and number alternatives can fail "dirty". So a union of object or array alternatives, which the library never declares, reports `invalid_union` where Zod might report a dirty alternative's issues.
- Unknown keys: Zod strips them. The model does the same, since an object's output holds only its shape's fields in shape order. Zod's `passthrough` and `strict` modes are not modelled; the library does not use them.
- Duplicate keys in an input object resolve to the first entry. A JavaScript object cannot hold duplicates, so this never arises there.
- Numbers are exact reals, and integrality is tested with `Floor`. IEEE-754 doubles, NaN, infinities and rounding are not modelled.
- Text lengths count Dafny characters. JavaScript counts UTF-16 code units, so the two differ for characters outside the Basic Multilingual Plane.
- `\s` in the header pattern is the fixed ECMAScript whitespace and line-terminator set. The `i` flag is modelled as an ASCII case fold, which is exact for "x402".
- `z.string().url()` (`src/ai.ts:106`) is the parameter `isUrl`. The platform URL parser is not modelled.
- `z.unknown()` (`src/payment.ts:154`) accepts every value.
- No cryptographic check is modelled: no EIP-55 address checksum, no signature recovery, and no EIP-712 or EIP-3009 semantics. Only shape is checked, exactly as in the source.
- Validators.Partial: a field declared `.optional().default(d)` becomes `Reinstates(d)`, so an absent field stays absent under `partial`. `src/index.ts:42-44` delegates to Zod's `partial` and says nothing about defaults. The model matches Zod v3, whose `partial` wraps each field in `optional`, and `optional` returns early on a missing value.
- Validators.Required: a defaulted field keeps its default under `required`, and a field that `partial` wrapped gets its default back. `src/index.ts:49-51` delegates to Zod's `required`. The model matches Zod v3, which strips `optional` wrappers but keeps `default`.
- `partial` and `required` with a key mask (`partial({a: true})`) are not modelled; the library never passes one.
