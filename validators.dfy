/** The utility layer of the package: strict and safe validation, the
    partial and required transforms of an object rule set, and the
    flattening of validation issues for API responses. */
module Validators {
  import opened Wrappers
  import opened Values
  import opened Rules
  import opened RuleLaws
  import opened Payment
  import opened Patterns

  // ---------------------------------------------------------------------
  // Strict and safe validation
  // ---------------------------------------------------------------------

  /** The error a failed validation raises: its list of issues. */
  datatype ValidationError = ValidationError(issues: seq<Issue>)

  /** `validate`: the normalised data, or the error the library throws
      (here a failed result). A failure always carries an issue. */
  function Validate(schema: Rule, data: Value): (r: Result<Value, ValidationError>)
    ensures r.Err? ==> r.error.issues != []
    ensures r.Ok? <==> Apply(schema, data, []).Ok?
    ensures r.Ok? ==> r.value == Apply(schema, data, []).value
    ensures r.Err? ==> r.error.issues == Apply(schema, data, []).error
  {
    match Apply(schema, data, [])
    case Ok(w) => Ok(w)
    case Err(e) => Err(ValidationError(e))
  }

  /** What `safeValidate` returns. */
  datatype SafeResult = Success(data: Value) | Failure(error: ValidationError)

  /** `safeValidate` succeeds with some data exactly when `validate` returns
      that data, and otherwise fails with the error `validate` raises. */
  function SafeValidate(schema: Rule, data: Value): (r: SafeResult)
    ensures r.Success? <==> Validate(schema, data).Ok?
    ensures r.Success? ==> Validate(schema, data) == Ok(r.data)
    ensures r.Failure? ==> Validate(schema, data) == Err(r.error)
  {
    match Validate(schema, data)
    case Ok(d) => Success(d)
    case Err(e) => Failure(e)
  }

  /** Validating validated data again gives it back unchanged. */
  lemma ValidateIdempotent(schema: Rule, data: Value)
    requires Normal(schema)
    requires Validate(schema, data).Ok?
    ensures Validate(schema, Validate(schema, data).value) == Validate(schema, data)
  {
    Idempotent(schema, data, []);
  }

  // ---------------------------------------------------------------------
  // partial and required
  // ---------------------------------------------------------------------

  /** The default a presence carries, if any. */
  function DefaultOf(pr: Presence): Option<Value> {
    match pr
    case Defaulted(d) => Some(d)
    case Reinstates(d) => Some(d)
    case _ => None
  }

  /** `partial`: the same object rule set with every field optional. A
      field with a default keeps it only for a later `required`: while
      partial, an absent field stays absent. The given rule set is a value
      and stays as it was. */
  function Partial(schema: Rule): (r: Rule)
    requires schema.Object?
    ensures r.Object? && |r.fields| == |schema.fields|
    ensures forall i :: 0 <= i < |r.fields| ==>
              && r.fields[i].name == schema.fields[i].name
              && r.fields[i].rule == schema.fields[i].rule
              && DefaultOf(r.fields[i].presence) == DefaultOf(schema.fields[i].presence)
              && (r.fields[i].presence.Optional? || r.fields[i].presence.Reinstates?)
  {
    var fs := schema.fields;
    Object(seq(|fs|, i requires 0 <= i < |fs| =>
      Field(fs[i].name, fs[i].rule,
            match DefaultOf(fs[i].presence) case Some(d) => Reinstates(d) case None => Optional)))
  }

  /** `required`: the same object rule set with every optional wrapper
      removed. A plain optional field becomes mandatory; one that
      `partial` made of a defaulted field gets its default back. */
  function Required(schema: Rule): (r: Rule)
    requires schema.Object?
    ensures r.Object? && |r.fields| == |schema.fields|
    ensures forall i :: 0 <= i < |r.fields| ==>
              && r.fields[i].name == schema.fields[i].name
              && r.fields[i].rule == schema.fields[i].rule
              && DefaultOf(r.fields[i].presence) == DefaultOf(schema.fields[i].presence)
              && (r.fields[i].presence.Mandatory? || r.fields[i].presence.Defaulted?)
              && (schema.fields[i].presence.Mandatory? || schema.fields[i].presence.Defaulted? ==>
                    r.fields[i].presence == schema.fields[i].presence)
  {
    var fs := schema.fields;
    Object(seq(|fs|, i requires 0 <= i < |fs| =>
      match fs[i].presence
      case Optional => Field(fs[i].name, fs[i].rule, Mandatory)
      case Reinstates(d) => Field(fs[i].name, fs[i].rule, Defaulted(d))
      case _ => fs[i]))
  }

  /** The partial form accepts an object exactly when every field it holds
      is accepted by that field's rule. */
  lemma PartialAccepts(schema: Rule, es: seq<Entry>, p: seq<Segment>)
    requires schema.Object?
    ensures Apply(Partial(schema), Obj(es), p).Ok? <==>
            forall i :: 0 <= i < |schema.fields| && Lookup(es, schema.fields[i].name).Some? ==>
              Apply(schema.fields[i].rule, Lookup(es, schema.fields[i].name).value,
                    p + [Key(schema.fields[i].name)]).Ok?
  {
    var fs := Partial(schema).fields;
    ObjectAccepts(fs, es, p);
    forall i | 0 <= i < |fs|
      ensures FieldOutcome(fs[i], es, p).Ok? <==>
              (Lookup(es, fs[i].name).Some? ==> Apply(fs[i].rule, Lookup(es, fs[i].name).value, p + [Key(fs[i].name)]).Ok?)
    {
      PartialField(fs[i], es, p);
    }
  }

  /** A field made optional by `partial` succeeds with nothing when absent
      and with its rule's outcome when present. */
  lemma PartialField(f: Field, es: seq<Entry>, p: seq<Segment>)
    requires f.presence.Optional? || f.presence.Reinstates?
    ensures FieldOutcome(f, es, p) ==
            if Lookup(es, f.name).None? then Ok(None)
            else Lift(Apply(f.rule, Lookup(es, f.name).value, p + [Key(f.name)]))
  {
  }

  /** So the partial form of any object rule set accepts the empty object,
      and gives it back empty. */
  lemma PartialAcceptsEmpty(schema: Rule, p: seq<Segment>)
    requires schema.Object?
    ensures Apply(Partial(schema), Obj([]), p) == Ok(Obj([]))
  {
    var fs := Partial(schema).fields;
    var outs := seq(|fs|, i requires 0 <= i < |fs| => None);
    forall i | 0 <= i < |fs| ensures FieldOutcome(fs[i], [], p) == Ok(outs[i]) {
      PartialField(fs[i], [], p);
    }
    ObjectOfOutcomes(fs, [], p, outs);
    PresentNone(fs, outs);
  }

  /** The partial form accepts everything the rule set itself accepts. */
  lemma PartialWeakens(schema: Rule, es: seq<Entry>, p: seq<Segment>)
    requires schema.Object?
    requires Apply(schema, Obj(es), p).Ok?
    ensures Apply(Partial(schema), Obj(es), p).Ok?
  {
    var fs := schema.fields;
    ObjectAccepts(fs, es, p);
    PartialAccepts(schema, es, p);
    forall i | 0 <= i < |fs| && Lookup(es, fs[i].name).Some?
      ensures Apply(fs[i].rule, Lookup(es, fs[i].name).value, p + [Key(fs[i].name)]).Ok?
    {
      assert FieldOutcome(fs[i], es, p).Ok?;
    }
  }

  /** What `required` adds to a field's own demands: a plain optional field
      must be present, unless its rule accepts an absent value; a field
      whose default `required` brings back must be present or have a
      default its rule accepts. */
  predicate MeetsRequired(f: Field, es: seq<Entry>, p: seq<Segment>) {
    match f.presence
    case Optional => Lookup(es, f.name).Some? || AcceptsAbsent(f.rule)
    case Reinstates(d) => Lookup(es, f.name).Some? || Apply(f.rule, d, p + [Key(f.name)]).Ok?
    case _ => true
  }

  /** One field of the required form against the same field before. */
  lemma RequiredField(f: Field, g: Field, es: seq<Entry>, p: seq<Segment>)
    requires g.name == f.name && g.rule == f.rule
    requires g.presence == match f.presence
                           case Optional => Mandatory
                           case Reinstates(d) => Defaulted(d)
                           case _ => f.presence
    ensures FieldOutcome(g, es, p).Ok? <==> FieldOutcome(f, es, p).Ok? && MeetsRequired(f, es, p)
    ensures (f.presence.Optional? ==> Lookup(es, f.name).Some? || AcceptsAbsent(f.rule)) &&
            (f.presence.Reinstates? ==> Lookup(es, f.name).Some?) ==>
            FieldOutcome(g, es, p) == FieldOutcome(f, es, p)
  {
  }

  /** The fields of the required form, one by one. */
  lemma RequiredFields(schema: Rule, i: nat)
    requires schema.Object? && i < |schema.fields|
    ensures var f := schema.fields[i];
            var g := Required(schema).fields[i];
            g.name == f.name && g.rule == f.rule &&
            g.presence == match f.presence
                          case Optional => Mandatory
                          case Reinstates(d) => Defaulted(d)
                          case _ => f.presence
  {
  }

  /** Where every optional field is present, or absent with a rule that
      accepts that, and every field whose default `required` brings back
      is present, the required form behaves exactly like the rule set
      itself: same output, same issues. */
  lemma RequiredAgrees(schema: Rule, es: seq<Entry>, p: seq<Segment>)
    requires schema.Object?
    requires forall i :: 0 <= i < |schema.fields| && schema.fields[i].presence.Optional? ==>
               Lookup(es, schema.fields[i].name).Some? || AcceptsAbsent(schema.fields[i].rule)
    requires forall i :: 0 <= i < |schema.fields| && schema.fields[i].presence.Reinstates? ==>
               Lookup(es, schema.fields[i].name).Some?
    ensures Apply(Required(schema), Obj(es), p) == Apply(schema, Obj(es), p)
  {
    var fs := schema.fields;
    var gs := Required(schema).fields;
    var rs := seq(|fs|, i requires 0 <= i < |fs| => FieldOutcome(fs[i], es, p));
    var ts := seq(|gs|, i requires 0 <= i < |gs| => FieldOutcome(gs[i], es, p));
    forall i | 0 <= i < |fs| ensures ts[i] == rs[i] {
      RequiredFields(schema, i);
      RequiredField(fs[i], gs[i], es, p);
    }
    assert ts == rs;
    assert Apply(Required(schema), Obj(es), p) ==
           (match Collect(ts)
            case Ok(outs) => Ok(Obj(Present(gs, outs)))
            case Err(e) => Err(e));
    if Collect(rs).Ok? {
      assert Present(gs, Collect(rs).value) == Present(fs, Collect(rs).value) by {
        PresentSameNames(gs, fs, Collect(rs).value);
      }
    }
  }

  /** Field lists with the same names in the same order produce the same
      output. */
  lemma {:induction false} PresentSameNames(a: seq<Field>, b: seq<Field>, outs: seq<Option<Value>>)
    requires |a| == |b| == |outs|
    requires forall i :: 0 <= i < |a| ==> a[i].name == b[i].name
    ensures Present(a, outs) == Present(b, outs)
  {
    if a != [] {
      PresentSameNames(a[1..], b[1..], outs[1..]);
    }
  }

  /** An absent optional field whose rule does not accept an absence makes
      the required form reject. */
  lemma RequiredRejectsMissing(schema: Rule, es: seq<Entry>, p: seq<Segment>, j: nat)
    requires schema.Object? && j < |schema.fields|
    requires schema.fields[j].presence.Optional? && !AcceptsAbsent(schema.fields[j].rule)
    requires Lookup(es, schema.fields[j].name).None?
    ensures Apply(Required(schema), Obj(es), p).Err?
  {
    var gs := Required(schema).fields;
    ObjectAccepts(gs, es, p);
    RequiredFields(schema, j);
    RequiredField(schema.fields[j], gs[j], es, p);
  }

  /** Together: the required form accepts exactly what the rule set accepts
      and meets the demands `required` adds, field by field. */
  lemma RequiredAccepts(schema: Rule, es: seq<Entry>, p: seq<Segment>)
    requires schema.Object?
    ensures Apply(Required(schema), Obj(es), p).Ok? <==>
            && Apply(schema, Obj(es), p).Ok?
            && forall i :: 0 <= i < |schema.fields| ==> MeetsRequired(schema.fields[i], es, p)
  {
    var fs := schema.fields;
    var gs := Required(schema).fields;
    ObjectAccepts(fs, es, p);
    ObjectAccepts(gs, es, p);
    forall i | 0 <= i < |fs|
      ensures FieldOutcome(gs[i], es, p).Ok? <==> FieldOutcome(fs[i], es, p).Ok? && MeetsRequired(fs[i], es, p)
    {
      RequiredFields(schema, i);
      RequiredField(fs[i], gs[i], es, p);
    }
  }

  /** Making a rule set partial twice is making it partial once, and the
      same holds for required. */
  lemma TransformsIdempotent(schema: Rule)
    requires schema.Object?
    ensures Partial(Partial(schema)) == Partial(schema)
    ensures Required(Required(schema)) == Required(schema)
  {
    assert Partial(Partial(schema)).fields == Partial(schema).fields;
    assert Required(Required(schema)).fields == Required(schema).fields;
  }

  /** `required` undoes `partial`: every field comes back mandatory or with
      its default, as `required` alone would make it. A rule set with no
      optional field is given back as it was. */
  lemma RequiredOfPartial(schema: Rule)
    requires schema.Object?
    ensures Required(Partial(schema)) == Required(schema)
    ensures (forall i :: 0 <= i < |schema.fields| ==> schema.fields[i].presence.Mandatory? || schema.fields[i].presence.Defaulted?) ==>
            Required(Partial(schema)) == schema
  {
    assert Required(Partial(schema)).fields == Required(schema).fields;
    if forall i :: 0 <= i < |schema.fields| ==> schema.fields[i].presence.Mandatory? || schema.fields[i].presence.Defaulted? {
      assert Required(schema).fields == schema.fields;
    }
  }

  // ---------------------------------------------------------------------
  // formatZodErrors
  // ---------------------------------------------------------------------

  /** One issue as an API response shows it. */
  datatype FormattedIssue = FormattedIssue(path: string, message: string, code: string)

  function DigitChar(d: nat): (c: char)
    requires d < 10
    ensures IsDigit(c) && c as int - '0' as int == d
  {
    ('0' as int + d) as char
  }

  /** The decimal form of an array index, as JavaScript prints it: digits
      only, and no leading zero. */
  function NatToString(n: nat): (r: string)
    ensures |r| >= 1
    ensures forall i :: 0 <= i < |r| ==> IsDigit(r[i])
    ensures |r| > 1 ==> r[0] != '0'
    decreases n
  {
    if n < 10 then [DigitChar(n)] else NatToString(n / 10) + [DigitChar(n % 10)]
  }

  /** The number a string of decimal digits denotes. */
  function DigitsValue(s: string): nat
    requires forall i :: 0 <= i < |s| ==> IsDigit(s[i])
  {
    if s == [] then 0
    else
      assert IsDigit(s[|s| - 1]);
      DigitsValue(s[..|s| - 1]) * 10 + (s[|s| - 1] as int - '0' as int)
  }

  /** Reading the decimal form back gives the index. */
  lemma {:induction false} NatToStringRoundTrip(n: nat)
    ensures DigitsValue(NatToString(n)) == n
    decreases n
  {
    if n >= 10 {
      var r := NatToString(n);
      NatToStringRoundTrip(n / 10);
      assert r[..|r| - 1] == NatToString(n / 10);
    }
  }

  /** A path segment as text: a key as it is, an index in decimal. */
  function SegmentText(s: Segment): string {
    match s
    case Key(k) => k
    case Index(i) => NatToString(i)
  }

  /** `parts.join(sep)`: the parts with one separator between neighbours. */
  function Join(parts: seq<string>, sep: char): (r: string)
    ensures parts == [] ==> r == ""
    ensures |parts| == 1 ==> r == parts[0]
  {
    if parts == [] then ""
    else if |parts| == 1 then parts[0]
    else parts[0] + [sep] + Join(parts[1..], sep)
  }

  /** The text of every segment of a path. */
  function SegmentTexts(path: seq<Segment>): (r: seq<string>)
    ensures |r| == |path|
    ensures forall i :: 0 <= i < |path| ==> r[i] == SegmentText(path[i])
  {
    seq(|path|, i requires 0 <= i < |path| => SegmentText(path[i]))
  }

  /** `path.join(".")`. */
  function JoinPath(path: seq<Segment>): (r: string)
    ensures path == [] ==> r == ""
  {
    Join(SegmentTexts(path), '.')
  }

  /** `s.split(sep)`: the pieces between separators, at least one. */
  function Split(s: string, sep: char): (r: seq<string>)
    ensures |r| >= 1
  {
    if s == [] then [""]
    else
      var rest := Split(s[1..], sep);
      if s[0] == sep then [""] + rest else [[s[0]] + rest[0]] + rest[1..]
  }

  lemma {:induction false} SplitPlain(a: string, sep: char)
    requires sep !in a
    ensures Split(a, sep) == [a]
  {
    if a != [] {
      SplitPlain(a[1..], sep);
      assert [a[0]] + a[1..] == a;
    }
  }

  lemma {:induction false} SplitAt(a: string, sep: char, b: string)
    requires sep !in a
    ensures Split(a + [sep] + b, sep) == [a] + Split(b, sep)
  {
    if a == [] {
      assert a + [sep] + b == [sep] + b;
      assert ([sep] + b)[1..] == b;
    } else {
      SplitAt(a[1..], sep, b);
      assert (a + [sep] + b)[1..] == a[1..] + [sep] + b;
      assert [a[0]] + a[1..] == a;
    }
  }

  /** Splitting a join gives the parts back, when no part holds the
      separator. */
  lemma {:induction false} SplitJoin(parts: seq<string>, sep: char)
    requires parts != []
    requires forall i :: 0 <= i < |parts| ==> sep !in parts[i]
    ensures Split(Join(parts, sep), sep) == parts
  {
    if |parts| == 1 {
      SplitPlain(parts[0], sep);
    } else {
      SplitJoin(parts[1..], sep);
      SplitAt(parts[0], sep, Join(parts[1..], sep));
    }
  }

  /** So a formatted path can be taken apart again when no key contains a
      dot: the pieces are the segments' texts. */
  lemma JoinPathSplits(path: seq<Segment>)
    requires path != []
    requires forall i :: 0 <= i < |path| ==> '.' !in SegmentText(path[i])
    ensures Split(JoinPath(path), '.') == SegmentTexts(path)
  {
    SplitJoin(SegmentTexts(path), '.');
  }

  /** An issue with its path flattened. */
  function FormatIssue(e: Issue): FormattedIssue {
    FormattedIssue(JoinPath(e.path), e.message, e.code)
  }

  function FormatIssues(issues: seq<Issue>): (r: seq<FormattedIssue>)
    ensures |r| == |issues|
    ensures forall i :: 0 <= i < |issues| ==> r[i] == FormatIssue(issues[i])
  {
    if issues == [] then [] else [FormatIssue(issues[0])] + FormatIssues(issues[1..])
  }

  /** `formatZodErrors`: one record per issue, in the same order, holding
      the issue's path joined with dots and its message and code as they
      are. */
  function FormatZodErrors(error: ValidationError): (r: seq<FormattedIssue>)
    ensures |r| == |error.issues|
    ensures forall i :: 0 <= i < |r| ==>
              && r[i].path == JoinPath(error.issues[i].path)
              && r[i].message == error.issues[i].message
              && r[i].code == error.issues[i].code
  {
    FormatIssues(error.issues)
  }

  // ---------------------------------------------------------------------
  // Two responses end to end
  // ---------------------------------------------------------------------

  /** A short address, validated at the top level, is reported with the
      empty path. */
  lemma ShortAddressReported()
    ensures Validate(EthereumAddressSchema, Str("0xabc")).Err?
    ensures FormatZodErrors(Validate(EthereumAddressSchema, Str("0xabc")).error) ==
            [FormattedIssue("", "Invalid Ethereum address", "invalid_string")]
  {
    ShortAddressRejected();
  }

  lemma ValidBeforeRejectedAtRoot(v: Value, x: real)
    requires EnvelopeShape(v)
    requires IsInteger(x) && x <= 0.0
    ensures var pl := Lookup(v.entries, "payload").value;
            var bad := Obj(Put(v.entries, "payload", Obj(Put(pl.entries, "validBefore", Num(x)))));
            Validate(PaymentEnvelopeSchema, bad) ==
            Err(ValidationError([Issue([] + [Key("payload")] + [Key("validBefore")], TooSmall, InvalidMessage)]))
  {
    ValidBeforeOutOfRange(v, x, []);
  }

  lemma ValidBeforeFormatted(bad: Value, e: Issue)
    requires Validate(PaymentEnvelopeSchema, bad) == Err(ValidationError([e]))
    requires e == Issue([] + [Key("payload")] + [Key("validBefore")], TooSmall, InvalidMessage)
    ensures FormatZodErrors(Validate(PaymentEnvelopeSchema, bad).error) ==
            [FormattedIssue("payload.validBefore", "Invalid input", "too_small")]
  {
    assert e.path == [Key("payload"), Key("validBefore")];
    PayloadValidBeforeText();
  }

  /** A non-positive `validBefore` in an otherwise accepted envelope is
      reported once, at "payload.validBefore". */
  lemma ValidBeforeReported(v: Value, x: real)
    requires EnvelopeShape(v)
    requires IsInteger(x) && x <= 0.0
    ensures var pl := Lookup(v.entries, "payload").value;
            var bad := Obj(Put(v.entries, "payload", Obj(Put(pl.entries, "validBefore", Num(x)))));
            && Validate(PaymentEnvelopeSchema, bad).Err?
            && FormatZodErrors(Validate(PaymentEnvelopeSchema, bad).error) ==
               [FormattedIssue("payload.validBefore", "Invalid input", "too_small")]
  {
    var pl := Lookup(v.entries, "payload").value;
    var bad := Obj(Put(v.entries, "payload", Obj(Put(pl.entries, "validBefore", Num(x)))));
    ValidBeforeRejectedAtRoot(v, x);
    ValidBeforeFormatted(bad, Issue([] + [Key("payload")] + [Key("validBefore")], TooSmall, InvalidMessage));
  }

  lemma PayloadValidBeforeText()
    ensures JoinPath([Key("payload"), Key("validBefore")]) == "payload.validBefore"
  {
    assert SegmentTexts([Key("payload"), Key("validBefore")]) == ["payload", "validBefore"];
  }
}
