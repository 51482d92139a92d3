/** The rule vocabulary the schemas are written in, and the one generic
    routine that applies a rule to an untyped value: it checks every
    constraint, fills defaults, drops keys the rule does not name, and
    returns either the normalised value or the ordered list of issues. */
module Rules {
  import opened Wrappers
  import opened Values
  import opened Patterns

  /** A step of an issue path: an object key or an array index. */
  datatype Segment = Key(key: string) | Index(index: nat)

  /** One violation: where, the machine-readable code, the message. */
  datatype Issue = Issue(path: seq<Segment>, code: string, message: string)

  // Issue codes, as opaque strings.
  const InvalidType := "invalid_type"
  const TooSmall := "too_small"
  const TooBig := "too_big"
  const InvalidString := "invalid_string"
  const InvalidEnumValue := "invalid_enum_value"
  const InvalidUnion := "invalid_union"

  /** The message of a missing mandatory field; every other built-in message
      is modelled by the one stand-in `InvalidMessage`. */
  const RequiredMessage := "Required"
  const InvalidMessage := "Invalid input"

  /** A check on a string, in the order the schema chains them. */
  datatype StrCheck =
    | MinLen(atLeast: nat, minMessage: Option<string>)
    | MaxLen(atMost: nat, maxMessage: Option<string>)
    | Pattern(re: Re, patternMessage: string)
    | Url(isUrl: string -> bool)     // the URL parser, left uninterpreted

  /** A check on a number. */
  datatype NumCheck =
    | IsInt                 // .int()
    | AtLeast(low: real)    // .min(low), .nonnegative()
    | Above(bound: real)    // .positive()
    | AtMost(high: real)    // .max(high)

  /** How a field treats its absence. `Optional` and `Defaulted` are
      `.optional()` and `.default(d)`. `Reinstates(d)` is what `partial`
      makes of a defaulted field: an optional wrapper around it, so an
      absent field stays absent, while `required` strips the wrapper and
      the default `d` applies again. */
  datatype Presence = Mandatory | Optional | Defaulted(fill: Value) | Reinstates(kept: Value)

  datatype Rule =
    | Text(textChecks: seq<StrCheck>)
    | Number(numChecks: seq<NumCheck>)
    | Boolean
    | Enum(options: seq<string>)
    | ArrayOf(element: Rule)
    | Object(fields: seq<Field>)
    | Union(alternatives: seq<Rule>)
    | Record(valueRule: Rule)      // a map from any string key to values of valueRule
    | Unknown                      // accepts anything

  datatype Field = Field(name: string, rule: Rule, presence: Presence)

  predicate TextPasses(c: StrCheck, s: string) {
    match c
    case MinLen(n, _) => |s| >= n
    case MaxLen(n, _) => |s| <= n
    case Pattern(re, _) => Matches(re, s)
    case Url(isUrl) => isUrl(s)
  }

  function TextIssue(c: StrCheck, path: seq<Segment>): Issue {
    match c
    case MinLen(_, m) => Issue(path, TooSmall, m.GetOr(InvalidMessage))
    case MaxLen(_, m) => Issue(path, TooBig, m.GetOr(InvalidMessage))
    case Pattern(_, m) => Issue(path, InvalidString, m)
    case Url(_) => Issue(path, InvalidString, InvalidMessage)
  }

  /** One issue per failing check, in the order of the checks. */
  function TextIssues(checks: seq<StrCheck>, s: string, path: seq<Segment>): (r: seq<Issue>)
    ensures r == [] <==> forall i :: 0 <= i < |checks| ==> TextPasses(checks[i], s)
    ensures forall i :: 0 <= i < |r| ==> r[i].path == path
  {
    if checks == [] then []
    else
      var rest := TextIssues(checks[1..], s, path);
      assert forall i :: 1 <= i < |checks| ==> checks[i] == checks[1..][i - 1];
      (if TextPasses(checks[0], s) then [] else [TextIssue(checks[0], path)]) + rest
  }

  predicate NumPasses(c: NumCheck, x: real) {
    match c
    case IsInt => IsInteger(x)
    case AtLeast(low) => x >= low
    case Above(bound) => x > bound
    case AtMost(high) => x <= high
  }

  function NumIssue(c: NumCheck, path: seq<Segment>): Issue {
    match c
    case IsInt => Issue(path, InvalidType, InvalidMessage)
    case AtLeast(_) => Issue(path, TooSmall, InvalidMessage)
    case Above(_) => Issue(path, TooSmall, InvalidMessage)
    case AtMost(_) => Issue(path, TooBig, InvalidMessage)
  }

  function NumIssues(checks: seq<NumCheck>, x: real, path: seq<Segment>): (r: seq<Issue>)
    ensures r == [] <==> forall i :: 0 <= i < |checks| ==> NumPasses(checks[i], x)
    ensures forall i :: 0 <= i < |r| ==> r[i].path == path
  {
    if checks == [] then []
    else
      var rest := NumIssues(checks[1..], x, path);
      assert forall i :: 1 <= i < |checks| ==> checks[i] == checks[1..][i - 1];
      (if NumPasses(checks[0], x) then [] else [NumIssue(checks[0], path)]) + rest
  }

  /** The issues of all failed outcomes, in order. */
  function Issues<T>(rs: seq<Result<T, seq<Issue>>>): seq<Issue> {
    if rs == [] then []
    else (if rs[0].Err? then rs[0].error else []) + Issues(rs[1..])
  }

  /** All outcomes succeeded: their values; otherwise every issue of every
      failed outcome, in order. */
  function Collect<T>(rs: seq<Result<T, seq<Issue>>>): (r: Result<seq<T>, seq<Issue>>)
    ensures r.Ok? <==> forall i :: 0 <= i < |rs| ==> rs[i].Ok?
    ensures r.Ok? ==> |r.value| == |rs| && forall i :: 0 <= i < |rs| ==> rs[i] == Ok(r.value[i])
    ensures r.Err? ==> r.error == Issues(rs)
  {
    if rs == [] then Ok([])
    else
      var rest := Collect(rs[1..]);
      assert forall i :: 1 <= i < |rs| ==> rs[i] == rs[1..][i - 1];
      match rs[0]
      case Ok(x) => if rest.Ok? then Ok([x] + rest.value) else rest
      case Err(e) => Err(e + Issues(rs[1..]))
  }

  /** The value of the first successful outcome, if any. */
  function FirstSuccess(rs: seq<Result<Value, seq<Issue>>>): (r: Option<Value>)
    ensures r.Some? <==> exists i :: 0 <= i < |rs| && rs[i].Ok?
    ensures r.Some? ==> exists i :: 0 <= i < |rs| && rs[i] == Ok(r.value) && forall j :: 0 <= j < i ==> rs[j].Err?
  {
    if rs == [] then None
    else if rs[0].Ok? then Some(rs[0].value)
    else
      var r := FirstSuccess(rs[1..]);
      assert forall i :: 1 <= i < |rs| ==> rs[i] == rs[1..][i - 1];
      r
  }

  /** The issues of the first failed outcome marked in `dirty`, if any. */
  function FirstDirty(rs: seq<Result<Value, seq<Issue>>>, dirty: seq<bool>): (r: Option<seq<Issue>>)
    requires |dirty| == |rs|
    ensures r.Some? <==> exists i :: 0 <= i < |rs| && dirty[i] && rs[i].Err?
    ensures r.Some? ==>
            exists i :: 0 <= i < |rs| && dirty[i] && rs[i] == Err(r.value) &&
                        forall j :: 0 <= j < i ==> !(dirty[j] && rs[j].Err?)
  {
    if rs == [] then None
    else if dirty[0] && rs[0].Err? then Some(rs[0].error)
    else
      var r := FirstDirty(rs[1..], dirty[1..]);
      assert forall i :: 1 <= i < |rs| ==> rs[i] == rs[1..][i - 1] && dirty[i] == dirty[1..][i - 1];
      r
  }

  /** A failure Zod marks "dirty" rather than aborted: the value has the
      rule's type, so only its checks can have failed. Every other failure
      of a scalar rule is a type or enumeration mismatch and aborts. */
  predicate Dirty(rule: Rule, v: Value) {
    (rule.Text? && v.Str?) || (rule.Number? && v.Num?)
  }

  /** What a union reports: the first success; else the issues of the first
      dirty failure; else one union issue. */
  function UnionOutcome(rs: seq<Result<Value, seq<Issue>>>, dirty: seq<bool>, path: seq<Segment>)
    : (r: Result<Value, seq<Issue>>)
    requires |dirty| == |rs|
    requires forall i :: 0 <= i < |rs| && rs[i].Err? ==> rs[i].error != []
    ensures r.Err? ==> r.error != []
  {
    match FirstSuccess(rs)
    case Some(x) => Ok(x)
    case None =>
      (match FirstDirty(rs, dirty)
       case Some(e) => Err(e)
       case None => Err([Issue(path, InvalidUnion, InvalidMessage)]))
  }

  /** The output entries of an object: one per field whose outcome is
      present, in the order of the fields. */
  function Present(fields: seq<Field>, outs: seq<Option<Value>>): seq<Entry>
    requires |outs| == |fields|
  {
    if fields == [] then []
    else (if outs[0].Some? then [Entry(fields[0].name, outs[0].value)] else []) + Present(fields[1..], outs[1..])
  }

  /** The entries of a record with their values replaced. */
  function Rekey(entries: seq<Entry>, ws: seq<Value>): seq<Entry>
    requires |ws| == |entries|
  {
    seq(|ws|, i requires 0 <= i < |ws| => Entry(entries[i].key, ws[i]))
  }

  function TypeError(path: seq<Segment>): Result<Value, seq<Issue>> {
    Err([Issue(path, InvalidType, InvalidMessage)])
  }

  /** Applies `rule` to `v`, found at `path` of the top-level input. A
      rejection always carries at least one issue. */
  function Apply(rule: Rule, v: Value, path: seq<Segment>): (r: Result<Value, seq<Issue>>)
    ensures r.Err? ==> r.error != []
    decreases rule, 0
  {
    match rule
    case Text(checks) =>
      if !v.Str? then TypeError(path)
      else
        var issues := TextIssues(checks, v.s, path);
        if issues == [] then Ok(v) else Err(issues)
    case Number(checks) =>
      if !v.Num? then TypeError(path)
      else
        var issues := NumIssues(checks, v.n, path);
        if issues == [] then Ok(v) else Err(issues)
    case Boolean =>
      if v.Bool? then Ok(v) else TypeError(path)
    case Enum(options) =>
      if !v.Str? then TypeError(path)
      else if v.s in options then Ok(v)
      else Err([Issue(path, InvalidEnumValue, InvalidMessage)])
    case ArrayOf(element) =>
      if !v.Arr? then TypeError(path)
      else
        var rs := seq(|v.items|, i requires 0 <= i < |v.items| => Apply(element, v.items[i], path + [Index(i)]));
        (match Collect(rs)
         case Ok(ws) => Ok(Arr(ws))
         case Err(e) => NonEmptyIssues(rs); Err(e))
    case Object(fields) =>
      if !v.Obj? then TypeError(path)
      else
        var rs := seq(|fields|, i requires 0 <= i < |fields| => FieldOutcome(fields[i], v.entries, path));
        (match Collect(rs)
         case Ok(outs) => Ok(Obj(Present(fields, outs)))
         case Err(e) => NonEmptyIssues(rs); Err(e))
    case Union(alternatives) =>
      var rs := seq(|alternatives|, i requires 0 <= i < |alternatives| => Apply(alternatives[i], v, path));
      var dirty := seq(|alternatives|, i requires 0 <= i < |alternatives| => Dirty(alternatives[i], v));
      UnionOutcome(rs, dirty, path)
    case Record(valueRule) =>
      if !v.Obj? then TypeError(path)
      else
        var es := v.entries;
        var rs := seq(|es|, i requires 0 <= i < |es| => Apply(valueRule, es[i].val, path + [Key(es[i].key)]));
        (match Collect(rs)
         case Ok(ws) => Ok(Obj(Rekey(es, ws)))
         case Err(e) => NonEmptyIssues(rs); Err(e))
    case Unknown =>
      Ok(v)
  }

  /** What a field contributes to the output: its value, or nothing when it
      is absent and optional. */
  function FieldOutcome(f: Field, entries: seq<Entry>, path: seq<Segment>): (r: Result<Option<Value>, seq<Issue>>)
    ensures r.Err? ==> r.error != []
    decreases f.rule, 2
  {
    ApplyField(f.rule, f.presence, Lookup(entries, f.name), path + [Key(f.name)])
  }

  function ApplyField(rule: Rule, presence: Presence, input: Option<Value>, path: seq<Segment>)
    : (r: Result<Option<Value>, seq<Issue>>)
    ensures r.Err? ==> r.error != []
    decreases rule, 1
  {
    match input
    case Some(x) => Lift(Apply(rule, x, path))
    case None =>
      (match presence
       case Mandatory => Missing(rule, path)
       case Optional => Ok(None)
       case Defaulted(d) => Lift(Apply(rule, d, path))
       case Reinstates(_) => Ok(None))
  }

  /** Whether a rule accepts an absent value: `unknown` does, and so does a
      union with an alternative that does. */
  predicate AcceptsAbsent(rule: Rule) {
    match rule
    case Unknown => true
    case Union(alternatives) => exists i :: 0 <= i < |alternatives| && AcceptsAbsent(alternatives[i])
    case _ => false
  }

  /** A missing mandatory field: its rule is applied to an absent value.
      A rule that accepts it leaves the key out of the output. A union that
      does not reports one union issue, since each alternative fails on the
      type alone; any other rule reports "Required". */
  function Missing(rule: Rule, path: seq<Segment>): (r: Result<Option<Value>, seq<Issue>>)
    ensures r.Ok? <==> AcceptsAbsent(rule)
    ensures r.Ok? ==> r.value.None?
    ensures r.Err? ==> r.error == [Issue(path, if rule.Union? then InvalidUnion else InvalidType,
                                         if rule.Union? then InvalidMessage else RequiredMessage)]
  {
    if AcceptsAbsent(rule) then Ok(None)
    else if rule.Union? then Err([Issue(path, InvalidUnion, InvalidMessage)])
    else Err([Issue(path, InvalidType, RequiredMessage)])
  }

  function Lift(r: Result<Value, seq<Issue>>): Result<Option<Value>, seq<Issue>> {
    match r
    case Ok(x) => Ok(Some(x))
    case Err(e) => Err(e)
  }

  /** Some failed outcome with issues makes the collected issues non-empty. */
  lemma NonEmptyIssues<T>(rs: seq<Result<T, seq<Issue>>>)
    requires forall i :: 0 <= i < |rs| ==> rs[i].Err? ==> rs[i].error != []
    requires exists i :: 0 <= i < |rs| && rs[i].Err?
    ensures Issues(rs) != []
  {
    if !rs[0].Err? {
      assert forall i :: 1 <= i < |rs| ==> rs[i] == rs[1..][i - 1];
      var i :| 0 <= i < |rs| && rs[i].Err?;
      assert rs[1..][i - 1].Err?;
      NonEmptyIssues(rs[1..]);
    }
  }
}
