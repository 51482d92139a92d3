/** Properties of `Rules.Apply` that hold for every rule set of the
    library: what an object rule accepts, what its output holds for each
    field, and that normalising an accepted value again changes nothing. */
module RuleLaws {
  import opened Wrappers
  import opened Values
  import opened Rules

  /** Field names of an object rule are unique. */
  predicate DistinctNames(fields: seq<Field>) {
    forall i, j :: 0 <= i < j < |fields| ==> fields[i].name != fields[j].name
  }

  /** A rule that only filters: on success it returns its input unchanged. */
  predicate Scalar(rule: Rule) {
    rule.Text? || rule.Number? || rule.Boolean? || rule.Enum? || rule.Unknown?
  }

  /** The shape every rule set of the library has: unique field names in
      every object, and unions only of scalar alternatives. */
  predicate Normal(rule: Rule) {
    match rule
    case ArrayOf(e) => Normal(e)
    case Record(r) => Normal(r)
    case Object(fields) =>
      DistinctNames(fields) && forall i :: 0 <= i < |fields| ==> Normal(fields[i].rule)
    case Union(alts) => forall i :: 0 <= i < |alts| ==> Scalar(alts[i])
    case _ => true
  }

  /** A present text value satisfying `ok`. */
  predicate TextWhere(o: Option<Value>, ok: string -> bool) {
    o.Some? && o.value.Str? && ok(o.value.s)
  }

  /** A present integer satisfying `ok`. */
  predicate IntWhere(o: Option<Value>, ok: real -> bool) {
    o.Some? && o.value.Num? && IsInteger(o.value.n) && ok(o.value.n)
  }

  /** An absent value, or a present one satisfying `ok`. */
  predicate AbsentOr(o: Option<Value>, ok: Value -> bool) {
    o.None? || ok(o.value)
  }

  lemma CollectOks<T>(rs: seq<Result<T, seq<Issue>>>, xs: seq<T>)
    requires |rs| == |xs|
    requires forall i :: 0 <= i < |rs| ==> rs[i] == Ok(xs[i])
    ensures Collect(rs) == Ok(xs)
  {
    assert Collect(rs).value == xs;
  }

  /** A scalar rule returns exactly what it was given. */
  lemma ScalarKeeps(rule: Rule, v: Value, p: seq<Segment>)
    requires Scalar(rule)
    requires Apply(rule, v, p).Ok?
    ensures Apply(rule, v, p).value == v
  {
  }

  /** A field's outcome depends only on the value stored under its name. */
  lemma SameLookupSameOutcome(f: Field, es: seq<Entry>, es2: seq<Entry>, p: seq<Segment>)
    requires Lookup(es2, f.name) == Lookup(es, f.name)
    ensures FieldOutcome(f, es2, p) == FieldOutcome(f, es, p)
  {
  }

  /** An object is accepted exactly when every field's outcome is. */
  lemma ObjectAccepts(fields: seq<Field>, es: seq<Entry>, p: seq<Segment>)
    ensures Apply(Object(fields), Obj(es), p).Ok? <==>
            forall i :: 0 <= i < |fields| ==> FieldOutcome(fields[i], es, p).Ok?
  {
    var rs := seq(|fields|, i requires 0 <= i < |fields| => FieldOutcome(fields[i], es, p));
    assert forall i :: 0 <= i < |fields| ==> rs[i] == FieldOutcome(fields[i], es, p);
  }

  /** The same law for objects of two, three, four, five and seven fields. */
  lemma ObjectOfTwo(f0: Field, f1: Field, es: seq<Entry>, p: seq<Segment>)
    ensures Apply(Object([f0, f1]), Obj(es), p).Ok? <==>
            FieldOutcome(f0, es, p).Ok? && FieldOutcome(f1, es, p).Ok?
  {
    var fs := [f0, f1];
    ObjectAccepts(fs, es, p);
    assert fs[0] == f0 && fs[1] == f1;
  }

  lemma ObjectOfThree(f0: Field, f1: Field, f2: Field, es: seq<Entry>, p: seq<Segment>)
    ensures Apply(Object([f0, f1, f2]), Obj(es), p).Ok? <==>
            FieldOutcome(f0, es, p).Ok? && FieldOutcome(f1, es, p).Ok? && FieldOutcome(f2, es, p).Ok?
  {
    var fs := [f0, f1, f2];
    ObjectAccepts(fs, es, p);
    assert fs[0] == f0 && fs[1] == f1 && fs[2] == f2;
  }

  lemma ObjectOfFour(f0: Field, f1: Field, f2: Field, f3: Field, es: seq<Entry>, p: seq<Segment>)
    ensures Apply(Object([f0, f1, f2, f3]), Obj(es), p).Ok? <==>
            FieldOutcome(f0, es, p).Ok? && FieldOutcome(f1, es, p).Ok? && FieldOutcome(f2, es, p).Ok? &&
            FieldOutcome(f3, es, p).Ok?
  {
    var fs := [f0, f1, f2, f3];
    ObjectAccepts(fs, es, p);
    assert fs[0] == f0 && fs[1] == f1 && fs[2] == f2 && fs[3] == f3;
  }

  lemma ObjectOfFive(f0: Field, f1: Field, f2: Field, f3: Field, f4: Field, es: seq<Entry>, p: seq<Segment>)
    ensures Apply(Object([f0, f1, f2, f3, f4]), Obj(es), p).Ok? <==>
            FieldOutcome(f0, es, p).Ok? && FieldOutcome(f1, es, p).Ok? && FieldOutcome(f2, es, p).Ok? &&
            FieldOutcome(f3, es, p).Ok? && FieldOutcome(f4, es, p).Ok?
  {
    var fs := [f0, f1, f2, f3, f4];
    ObjectAccepts(fs, es, p);
    assert fs[0] == f0 && fs[1] == f1 && fs[2] == f2 && fs[3] == f3 && fs[4] == f4;
  }

  /** A key that is no field's name is not in the output. */
  lemma {:induction false} PresentKeys(fields: seq<Field>, outs: seq<Option<Value>>, key: string)
    requires |outs| == |fields|
    requires forall i :: 0 <= i < |fields| ==> fields[i].name != key
    ensures Lookup(Present(fields, outs), key) == None
  {
    if fields != [] {
      PresentKeys(fields[1..], outs[1..], key);
    }
  }

  /** In the output of an object rule, a field's name holds that field's
      outcome: its value, or nothing when the outcome is absent. */
  lemma {:induction false} LookupPresent(fields: seq<Field>, outs: seq<Option<Value>>, i: nat)
    requires |outs| == |fields| && i < |fields|
    requires DistinctNames(fields)
    ensures Lookup(Present(fields, outs), fields[i].name) == outs[i]
  {
    var head := if outs[0].Some? then [Entry(fields[0].name, outs[0].value)] else [];
    assert Present(fields, outs) == head + Present(fields[1..], outs[1..]);
    if i == 0 {
      forall k | 0 <= k < |fields[1..]| ensures fields[1..][k].name != fields[0].name {
        assert fields[1..][k] == fields[k + 1];
      }
      PresentKeys(fields[1..], outs[1..], fields[0].name);
    } else {
      assert fields[1..][i - 1] == fields[i];
      LookupPresent(fields[1..], outs[1..], i - 1);
      var rest := Present(fields[1..], outs[1..]);
      if outs[0].Some? {
        assert (head + rest)[1..] == rest;
      } else {
        assert head + rest == rest;
      }
    }
  }

  /** In an accepted object, each field of the rule maps to its own outcome:
      the checked (or defaulted) value, or absence for an absent optional
      field. */
  lemma ObjectOutput(fields: seq<Field>, es: seq<Entry>, p: seq<Segment>, i: nat)
    requires DistinctNames(fields) && i < |fields|
    requires Apply(Object(fields), Obj(es), p).Ok?
    ensures FieldOutcome(fields[i], es, p).Ok?
    ensures Apply(Object(fields), Obj(es), p).value.Obj?
    ensures Lookup(Apply(Object(fields), Obj(es), p).value.entries, fields[i].name)
            == FieldOutcome(fields[i], es, p).value
  {
    var rs := seq(|fields|, k requires 0 <= k < |fields| => FieldOutcome(fields[k], es, p));
    var outs := Collect(rs).value;
    assert rs[i] == FieldOutcome(fields[i], es, p);
    LookupPresent(fields, outs, i);
  }

  lemma ObjectOfSeven(f0: Field, f1: Field, f2: Field, f3: Field, f4: Field, f5: Field, f6: Field,
                      es: seq<Entry>, p: seq<Segment>)
    ensures Apply(Object([f0, f1, f2, f3, f4, f5, f6]), Obj(es), p).Ok? <==>
            FieldOutcome(f0, es, p).Ok? && FieldOutcome(f1, es, p).Ok? && FieldOutcome(f2, es, p).Ok? &&
            FieldOutcome(f3, es, p).Ok? && FieldOutcome(f4, es, p).Ok? && FieldOutcome(f5, es, p).Ok? &&
            FieldOutcome(f6, es, p).Ok?
  {
    var fs := [f0, f1, f2, f3, f4, f5, f6];
    ObjectAccepts(fs, es, p);
    assert fs[0] == f0 && fs[1] == f1 && fs[2] == f2 && fs[3] == f3 && fs[4] == f4 && fs[5] == f5 && fs[6] == f6;
  }

  /** The same law for accepted objects of three, four and five fields. */
  lemma ObjectOutputOfThree(f0: Field, f1: Field, f2: Field, es: seq<Entry>, p: seq<Segment>)
    requires DistinctNames([f0, f1, f2])
    requires Apply(Object([f0, f1, f2]), Obj(es), p).Ok?
    ensures FieldOutcome(f0, es, p).Ok? && FieldOutcome(f1, es, p).Ok? && FieldOutcome(f2, es, p).Ok?
    ensures var w := Apply(Object([f0, f1, f2]), Obj(es), p).value;
            && w.Obj?
            && Lookup(w.entries, f0.name) == FieldOutcome(f0, es, p).value
            && Lookup(w.entries, f1.name) == FieldOutcome(f1, es, p).value
            && Lookup(w.entries, f2.name) == FieldOutcome(f2, es, p).value
  {
    var fs := [f0, f1, f2];
    ObjectOutput(fs, es, p, 0);
    ObjectOutput(fs, es, p, 1);
    ObjectOutput(fs, es, p, 2);
  }

  lemma ObjectOutputOfFour(f0: Field, f1: Field, f2: Field, f3: Field, es: seq<Entry>, p: seq<Segment>)
    requires DistinctNames([f0, f1, f2, f3])
    requires Apply(Object([f0, f1, f2, f3]), Obj(es), p).Ok?
    ensures FieldOutcome(f0, es, p).Ok? && FieldOutcome(f1, es, p).Ok? && FieldOutcome(f2, es, p).Ok?
    ensures FieldOutcome(f3, es, p).Ok?
    ensures var w := Apply(Object([f0, f1, f2, f3]), Obj(es), p).value;
            && w.Obj?
            && Lookup(w.entries, f0.name) == FieldOutcome(f0, es, p).value
            && Lookup(w.entries, f1.name) == FieldOutcome(f1, es, p).value
            && Lookup(w.entries, f2.name) == FieldOutcome(f2, es, p).value
            && Lookup(w.entries, f3.name) == FieldOutcome(f3, es, p).value
  {
    var fs := [f0, f1, f2, f3];
    ObjectOutput(fs, es, p, 0);
    ObjectOutput(fs, es, p, 1);
    ObjectOutput(fs, es, p, 2);
    ObjectOutput(fs, es, p, 3);
  }

  lemma ObjectOutputOfFive(f0: Field, f1: Field, f2: Field, f3: Field, f4: Field, es: seq<Entry>, p: seq<Segment>)
    requires DistinctNames([f0, f1, f2, f3, f4])
    requires Apply(Object([f0, f1, f2, f3, f4]), Obj(es), p).Ok?
    ensures FieldOutcome(f0, es, p).Ok? && FieldOutcome(f1, es, p).Ok? && FieldOutcome(f2, es, p).Ok?
    ensures FieldOutcome(f3, es, p).Ok? && FieldOutcome(f4, es, p).Ok?
    ensures var w := Apply(Object([f0, f1, f2, f3, f4]), Obj(es), p).value;
            && w.Obj?
            && Lookup(w.entries, f0.name) == FieldOutcome(f0, es, p).value
            && Lookup(w.entries, f1.name) == FieldOutcome(f1, es, p).value
            && Lookup(w.entries, f2.name) == FieldOutcome(f2, es, p).value
            && Lookup(w.entries, f3.name) == FieldOutcome(f3, es, p).value
            && Lookup(w.entries, f4.name) == FieldOutcome(f4, es, p).value
  {
    var fs := [f0, f1, f2, f3, f4];
    ObjectOutput(fs, es, p, 0);
    ObjectOutput(fs, es, p, 1);
    ObjectOutput(fs, es, p, 2);
    ObjectOutput(fs, es, p, 3);
    ObjectOutput(fs, es, p, 4);
  }

  /** Mutual-recursion partner of `Idempotent` for one field. */
  lemma {:induction false} FieldIdempotent(f: Field, es: seq<Entry>, p: seq<Segment>, out: Option<Value>)
    requires Normal(f.rule)
    requires FieldOutcome(f, es, p) == Ok(out)
    ensures ApplyField(f.rule, f.presence, out, p + [Key(f.name)]) == Ok(out)
    decreases f.rule, 2
  {
    var q := p + [Key(f.name)];
    match Lookup(es, f.name)
    case Some(x) =>
      Idempotent(f.rule, x, q);
    case None =>
      match f.presence
      case Mandatory =>
      case Optional =>
      case Defaulted(d) =>
        Idempotent(f.rule, d, q);
      case Reinstates(_) =>
  }

  /** Normalisation is idempotent: applying a rule to its own accepted
      output accepts it and returns it unchanged. */
  lemma {:induction false} Idempotent(rule: Rule, v: Value, p: seq<Segment>)
    requires Normal(rule)
    requires Apply(rule, v, p).Ok?
    ensures Apply(rule, Apply(rule, v, p).value, p) == Apply(rule, v, p)
    decreases rule, 1
  {
    match rule
    case Text(_) =>
    case Number(_) =>
    case Boolean =>
    case Enum(_) =>
    case Unknown =>
    case ArrayOf(e) =>
      ArrayIdempotent(rule, v, p);
    case Object(fields) =>
      ObjectIdempotent(rule, v, p);
    case Union(alts) =>
      var rs := seq(|alts|, i requires 0 <= i < |alts| => Apply(alts[i], v, p));
      var j :| 0 <= j < |rs| && rs[j] == Ok(FirstSuccess(rs).value);
      ScalarKeeps(alts[j], v, p);
    case Record(r) =>
      RecordIdempotent(rule, v, p);
  }

  /** The array case of `Idempotent`. */
  lemma {:induction false} ArrayIdempotent(rule: Rule, v: Value, p: seq<Segment>)
    requires rule.ArrayOf? && Normal(rule)
    requires Apply(rule, v, p).Ok?
    ensures Apply(rule, Apply(rule, v, p).value, p) == Apply(rule, v, p)
    decreases rule, 0
  {
    var e := rule.element;
    var w := Apply(rule, v, p).value;
    var rs := seq(|v.items|, i requires 0 <= i < |v.items| => Apply(e, v.items[i], p + [Index(i)]));
    var ws := Collect(rs).value;
    assert w == Arr(ws);
    var rs2 := seq(|ws|, i requires 0 <= i < |ws| => Apply(e, ws[i], p + [Index(i)]));
    forall i | 0 <= i < |ws| ensures rs2[i] == Ok(ws[i]) {
      assert rs[i] == Ok(ws[i]);
      Idempotent(e, v.items[i], p + [Index(i)]);
    }
    CollectOks(rs2, ws);
  }

  /** The object case of `Idempotent`. */
  lemma {:induction false} ObjectIdempotent(rule: Rule, v: Value, p: seq<Segment>)
    requires rule.Object? && Normal(rule)
    requires Apply(rule, v, p).Ok?
    ensures Apply(rule, Apply(rule, v, p).value, p) == Apply(rule, v, p)
    decreases rule, 0
  {
    var fields := rule.fields;
    var w := Apply(rule, v, p).value;
    var rs := seq(|fields|, i requires 0 <= i < |fields| => FieldOutcome(fields[i], v.entries, p));
    var outs := Collect(rs).value;
    assert w == Obj(Present(fields, outs));
    var rs2 := seq(|fields|, i requires 0 <= i < |fields| => FieldOutcome(fields[i], w.entries, p));
    forall i | 0 <= i < |fields| ensures rs2[i] == Ok(outs[i]) {
      assert rs[i] == Ok(outs[i]);
      LookupPresent(fields, outs, i);
      FieldIdempotent(fields[i], v.entries, p, outs[i]);
    }
    CollectOks(rs2, outs);
  }

  /** The record case of `Idempotent`. */
  lemma {:induction false} RecordIdempotent(rule: Rule, v: Value, p: seq<Segment>)
    requires rule.Record? && Normal(rule)
    requires Apply(rule, v, p).Ok?
    ensures Apply(rule, Apply(rule, v, p).value, p) == Apply(rule, v, p)
    decreases rule, 0
  {
    var r := rule.valueRule;
    var w := Apply(rule, v, p).value;
    var es := v.entries;
    var rs := seq(|es|, i requires 0 <= i < |es| => Apply(r, es[i].val, p + [Key(es[i].key)]));
    var ws := Collect(rs).value;
    assert w == Obj(Rekey(es, ws));
    var es2 := Rekey(es, ws);
    var rs2 := seq(|es2|, i requires 0 <= i < |es2| => Apply(r, es2[i].val, p + [Key(es2[i].key)]));
    forall i | 0 <= i < |es2| ensures rs2[i] == Ok(ws[i]) {
      assert rs[i] == Ok(ws[i]);
      Idempotent(r, es[i].val, p + [Key(es[i].key)]);
    }
    CollectOks(rs2, ws);
    assert Rekey(es2, ws) == es2;
  }

  /** When exactly one outcome failed, the collected issues are its own. */
  lemma {:induction false} IssuesOfOne<T>(rs: seq<Result<T, seq<Issue>>>, j: nat)
    requires j < |rs| && rs[j].Err?
    requires forall i :: 0 <= i < |rs| && i != j ==> rs[i].Ok?
    ensures Issues(rs) == rs[j].error
  {
    assert forall i :: 1 <= i < |rs| ==> rs[i] == rs[1..][i - 1];
    if j == 0 {
      IssuesNone(rs[1..]);
    } else {
      IssuesOfOne(rs[1..], j - 1);
    }
  }

  lemma {:induction false} IssuesNone<T>(rs: seq<Result<T, seq<Issue>>>)
    requires forall i :: 0 <= i < |rs| ==> rs[i].Ok?
    ensures Issues(rs) == []
  {
    if rs != [] {
      assert forall i :: 1 <= i < |rs| ==> rs[i] == rs[1..][i - 1];
      IssuesNone(rs[1..]);
    }
  }

  /** Deleting from an accepted object one mandatory field whose rule does
      not accept an absent value gives exactly one issue at that field's
      path: "Required", or the union issue when the rule is a union. */
  lemma DropMandatory(fields: seq<Field>, es: seq<Entry>, p: seq<Segment>, j: nat)
    requires DistinctNames(fields) && j < |fields|
    requires fields[j].presence == Mandatory && !AcceptsAbsent(fields[j].rule)
    requires Apply(Object(fields), Obj(es), p).Ok?
    ensures Apply(Object(fields), Obj(Without(es, fields[j].name)), p)
            == Err([if fields[j].rule.Union? then Issue(p + [Key(fields[j].name)], InvalidUnion, InvalidMessage)
                    else Issue(p + [Key(fields[j].name)], InvalidType, RequiredMessage)])
  {
    var es2 := Without(es, fields[j].name);
    var rs := seq(|fields|, i requires 0 <= i < |fields| => FieldOutcome(fields[i], es, p));
    var rs2 := seq(|fields|, i requires 0 <= i < |fields| => FieldOutcome(fields[i], es2, p));
    forall i | 0 <= i < |fields| && i != j ensures rs2[i].Ok? {
      assert rs[i].Ok?;
      assert Lookup(es2, fields[i].name) == Lookup(es, fields[i].name);
    }
    assert Lookup(es2, fields[j].name) == None;
    var f := fields[j];
    assert rs2[j] == FieldOutcome(f, es2, p);
    assert FieldOutcome(f, es2, p) == ApplyField(f.rule, Mandatory, None, p + [Key(f.name)]);
    IssuesOfOne(rs2, j);
  }

  /** An array is accepted exactly when every element is, and the output
      holds each element's normalised value at its index. */
  lemma ArrayAccepts(e: Rule, items: seq<Value>, p: seq<Segment>)
    ensures Apply(ArrayOf(e), Arr(items), p).Ok? <==>
            forall i :: 0 <= i < |items| ==> Apply(e, items[i], p + [Index(i)]).Ok?
    ensures Apply(ArrayOf(e), Arr(items), p).Ok? ==>
            var w := Apply(ArrayOf(e), Arr(items), p).value;
            w.Arr? && |w.items| == |items| &&
            forall i :: 0 <= i < |items| ==> Apply(e, items[i], p + [Index(i)]) == Ok(w.items[i])
  {
    var rs := seq(|items|, i requires 0 <= i < |items| => Apply(e, items[i], p + [Index(i)]));
    assert forall i :: 0 <= i < |items| ==> rs[i] == Apply(e, items[i], p + [Index(i)]);
  }

  /** A single pattern check: the value must be a string the pattern
      matches; otherwise one issue with the pattern's message. */
  lemma PatternRule(re: Patterns.Re, msg: string, v: Value, p: seq<Segment>)
    ensures Apply(Text([Pattern(re, msg)]), v, p) ==
            if !v.Str? then TypeError(p)
            else if Patterns.Matches(re, v.s) then Ok(v)
            else Err([Issue(p, InvalidString, msg)])
  {
    if v.Str? {
      assert TextIssues([Pattern(re, msg)], v.s, p) ==
             (if Patterns.Matches(re, v.s) then [] else [Issue(p, InvalidString, msg)]);
    }
  }

  /** A mandatory field succeeds exactly when it is present and its value
      is accepted, or absent and its rule accepts an absent value. */
  lemma MandatoryField(name: string, rule: Rule, es: seq<Entry>, p: seq<Segment>)
    ensures FieldOutcome(Field(name, rule, Mandatory), es, p).Ok? <==>
            if Lookup(es, name).Some? then Apply(rule, Lookup(es, name).value, p + [Key(name)]).Ok?
            else AcceptsAbsent(rule)
  {
  }

  /** An optional field succeeds when absent, and otherwise exactly when
      its value is accepted. */
  lemma OptionalField(name: string, rule: Rule, es: seq<Entry>, p: seq<Segment>)
    ensures FieldOutcome(Field(name, rule, Optional), es, p).Ok? <==>
            Lookup(es, name).None? || Apply(rule, Lookup(es, name).value, p + [Key(name)]).Ok?
    ensures Lookup(es, name).None? ==> FieldOutcome(Field(name, rule, Optional), es, p) == Ok(None)
  {
  }

  /** An absent defaulted field takes the outcome of its default. */
  lemma DefaultedField(name: string, rule: Rule, d: Value, es: seq<Entry>, p: seq<Segment>)
    ensures Lookup(es, name).None? ==>
            FieldOutcome(Field(name, rule, Defaulted(d)), es, p) == Lift(Apply(rule, d, p + [Key(name)]))
    ensures Lookup(es, name).Some? ==>
            FieldOutcome(Field(name, rule, Defaulted(d)), es, p) ==
            Lift(Apply(rule, Lookup(es, name).value, p + [Key(name)]))
  {
  }

  /** A union of two alternatives takes the first that succeeds; when both
      fail, it reports the first dirty failure, and one union issue only
      when both failed on their type. */
  lemma UnionOfTwo(a: Rule, b: Rule, v: Value, p: seq<Segment>)
    ensures Apply(Union([a, b]), v, p) ==
            if Apply(a, v, p).Ok? then Apply(a, v, p)
            else if Apply(b, v, p).Ok? then Apply(b, v, p)
            else if Dirty(a, v) then Apply(a, v, p)
            else if Dirty(b, v) then Apply(b, v, p)
            else Err([Issue(p, InvalidUnion, InvalidMessage)])
  {
    var rs := seq(2, i requires 0 <= i < 2 => Apply([a, b][i], v, p));
    var dirty := seq(2, i requires 0 <= i < 2 => Dirty([a, b][i], v));
    assert rs == [Apply(a, v, p), Apply(b, v, p)];
    assert dirty == [Dirty(a, v), Dirty(b, v)];
    assert Apply(Union([a, b]), v, p) == UnionOutcome(rs, dirty, p);
    OutcomeOfTwo(Apply(a, v, p), Apply(b, v, p), Dirty(a, v), Dirty(b, v), p);
  }

  /** The union outcome of two results, case by case. */
  lemma OutcomeOfTwo(x: Result<Value, seq<Issue>>, y: Result<Value, seq<Issue>>, dx: bool, dy: bool, p: seq<Segment>)
    requires x.Err? ==> x.error != []
    requires y.Err? ==> y.error != []
    ensures UnionOutcome([x, y], [dx, dy], p) ==
            if x.Ok? then x else if y.Ok? then y
            else if dx then x else if dy then y
            else Err([Issue(p, InvalidUnion, InvalidMessage)])
  {
    var rs, dirty := [x, y], [dx, dy];
    assert rs[1..] == [y] && dirty[1..] == [dy];
    assert FirstSuccess(rs[1..][1..]) == None;
    assert FirstDirty(rs[1..][1..], dirty[1..][1..]) == None;
    assert FirstSuccess(rs) == if x.Ok? then Some(x.value) else if y.Ok? then Some(y.value) else None;
    assert FirstDirty(rs, dirty) ==
           if dx && x.Err? then Some(x.error) else if dy && y.Err? then Some(y.error) else None;
  }

  /** A record is accepted exactly when every value is, and keeps its keys
      in order. */
  lemma RecordAccepts(r: Rule, es: seq<Entry>, p: seq<Segment>)
    ensures Apply(Record(r), Obj(es), p).Ok? <==>
            forall i :: 0 <= i < |es| ==> Apply(r, es[i].val, p + [Key(es[i].key)]).Ok?
    ensures Apply(Record(r), Obj(es), p).Ok? ==>
            var w := Apply(Record(r), Obj(es), p).value;
            w.Obj? && |w.entries| == |es| &&
            forall i :: 0 <= i < |es| ==>
              w.entries[i].key == es[i].key && Apply(r, es[i].val, p + [Key(es[i].key)]) == Ok(w.entries[i].val)
  {
    var rs := seq(|es|, i requires 0 <= i < |es| => Apply(r, es[i].val, p + [Key(es[i].key)]));
    assert forall i :: 0 <= i < |es| ==> rs[i] == Apply(r, es[i].val, p + [Key(es[i].key)]);
  }

  /** When exactly one field of an object fails, the object's issues are
      that field's issues. */
  lemma OneFieldFails(fields: seq<Field>, es: seq<Entry>, p: seq<Segment>, j: nat)
    requires j < |fields| && FieldOutcome(fields[j], es, p).Err?
    requires forall i :: 0 <= i < |fields| && i != j ==> FieldOutcome(fields[i], es, p).Ok?
    ensures Apply(Object(fields), Obj(es), p) == Err(FieldOutcome(fields[j], es, p).error)
  {
    var rs := seq(|fields|, i requires 0 <= i < |fields| => FieldOutcome(fields[i], es, p));
    assert forall i :: 0 <= i < |fields| ==> rs[i] == FieldOutcome(fields[i], es, p);
    IssuesOfOne(rs, j);
  }

  /** Replacing one field's value in an accepted object keeps it accepted
      exactly when that field accepts the new value. */
  lemma PutField(fields: seq<Field>, es: seq<Entry>, p: seq<Segment>, j: nat, x: Value)
    requires DistinctNames(fields) && j < |fields|
    requires Apply(Object(fields), Obj(es), p).Ok?
    ensures Apply(Object(fields), Obj(Put(es, fields[j].name, x)), p).Ok? <==>
            FieldOutcome(fields[j], Put(es, fields[j].name, x), p).Ok?
  {
    var es2 := Put(es, fields[j].name, x);
    ObjectAccepts(fields, es, p);
    ObjectAccepts(fields, es2, p);
    forall i | 0 <= i < |fields| && i != j ensures FieldOutcome(fields[i], es2, p).Ok? {
      assert Lookup(es2, fields[i].name) == Lookup(es, fields[i].name);
    }
  }

  /** Replacing one field's value in an accepted object by a value that
      field rejects gives exactly that field's issues. */
  lemma ReplaceField(fields: seq<Field>, es: seq<Entry>, p: seq<Segment>, j: nat, x: Value)
    requires DistinctNames(fields) && j < |fields|
    requires Apply(Object(fields), Obj(es), p).Ok?
    requires FieldOutcome(fields[j], Put(es, fields[j].name, x), p).Err?
    ensures Apply(Object(fields), Obj(Put(es, fields[j].name, x)), p) ==
            Err(FieldOutcome(fields[j], Put(es, fields[j].name, x), p).error)
  {
    var es2 := Put(es, fields[j].name, x);
    ObjectAccepts(fields, es, p);
    forall i | 0 <= i < |fields| && i != j ensures FieldOutcome(fields[i], es2, p).Ok? {
      assert Lookup(es2, fields[i].name) == Lookup(es, fields[i].name);
    }
    OneFieldFails(fields, es2, p, j);
  }

  /** A mandatory text field with a minimum length. */
  lemma MinLenField(name: string, n: nat, msg: string, es: seq<Entry>, p: seq<Segment>)
    ensures var o := FieldOutcome(Field(name, Text([MinLen(n, Some(msg))]), Mandatory), es, p);
            && (o.Ok? <==> TextWhere(Lookup(es, name), s => |s| >= n))
            && (o.Ok? ==> o.value == Lookup(es, name))
  {
    MandatoryField(name, Text([MinLen(n, Some(msg))]), es, p);
  }

  /** An enumeration field with a default (itself one of the options):
      accepted when absent or one of the options, and then it holds the
      given value or the default. */
  lemma EnumDefaultField(name: string, options: seq<string>, d: string, es: seq<Entry>, p: seq<Segment>)
    requires d in options
    ensures var o := FieldOutcome(Field(name, Enum(options), Defaulted(Str(d))), es, p);
            && (o.Ok? <==> AbsentOr(Lookup(es, name), (x: Value) => x.Str? && x.s in options))
            && (o.Ok? ==> o.value == Some(Lookup(es, name).GetOr(Str(d))))
            && (o.Ok? ==> TextWhere(o.value, s => s in options))
  {
    var f := Field(name, Enum(options), Defaulted(Str(d)));
    var x := Lookup(es, name);
    match x
    case Some(y) => assert FieldOutcome(f, es, p) == Lift(Apply(Enum(options), y, p + [Key(name)]));
    case None => assert FieldOutcome(f, es, p) == Lift(Apply(Enum(options), Str(d), p + [Key(name)]));
  }

  /** An optional enumeration field: accepted when absent or one of the
      options, and absent from the output when absent from the input. */
  lemma EnumOptionalField(name: string, options: seq<string>, es: seq<Entry>, p: seq<Segment>)
    ensures var o := FieldOutcome(Field(name, Enum(options), Optional), es, p);
            && (o.Ok? <==> AbsentOr(Lookup(es, name), (x: Value) => x.Str? && x.s in options))
            && (o.Ok? ==> o.value == Lookup(es, name))
  {
    var f := Field(name, Enum(options), Optional);
    var x := Lookup(es, name);
    match x
    case Some(y) => assert FieldOutcome(f, es, p) == Lift(Apply(Enum(options), y, p + [Key(name)]));
    case None => assert FieldOutcome(f, es, p) == Ok(None);
  }

  /** A numeric field with a default that meets its own checks: accepted
      when absent or a number meeting every check, and then it holds the
      given number or the default. */
  lemma NumberDefaultField(name: string, checks: seq<NumCheck>, d: real, es: seq<Entry>, p: seq<Segment>)
    requires forall i :: 0 <= i < |checks| ==> NumPasses(checks[i], d)
    ensures var o := FieldOutcome(Field(name, Number(checks), Defaulted(Num(d))), es, p);
            var x := Lookup(es, name);
            && (o.Ok? <==> AbsentOr(x, (y: Value) => y.Num? && forall i :: 0 <= i < |checks| ==> NumPasses(checks[i], y.n)))
            && (o.Ok? ==> o.value == Some(x.GetOr(Num(d))))
            && (o.Ok? ==> o.value.value.Num? && forall i :: 0 <= i < |checks| ==> NumPasses(checks[i], o.value.value.n))
  {
    var f := Field(name, Number(checks), Defaulted(Num(d)));
    var path := p + [Key(name)];
    match Lookup(es, name)
    case Some(y) => assert FieldOutcome(f, es, p) == Lift(Apply(Number(checks), y, path));
    case None =>
      assert NumIssues(checks, d, path) == [];
      assert FieldOutcome(f, es, p) == Lift(Apply(Number(checks), Num(d), path));
  }

  /** A boolean field with a default: accepted when absent or a boolean,
      and then it holds the given flag or the default. */
  lemma BoolDefaultField(name: string, d: bool, es: seq<Entry>, p: seq<Segment>)
    ensures var o := FieldOutcome(Field(name, Boolean, Defaulted(Bool(d))), es, p);
            && (o.Ok? <==> AbsentOr(Lookup(es, name), (x: Value) => x.Bool?))
            && (o.Ok? ==> o.value == Some(Lookup(es, name).GetOr(Bool(d))) && o.value.value.Bool?)
  {
    var f := Field(name, Boolean, Defaulted(Bool(d)));
    match Lookup(es, name)
    case Some(y) => assert FieldOutcome(f, es, p) == Lift(Apply(Boolean, y, p + [Key(name)]));
    case None => assert FieldOutcome(f, es, p) == Lift(Apply(Boolean, Bool(d), p + [Key(name)]));
  }

  /** An optional text field: accepted when absent or text, and passed
      through unchanged. */
  lemma OptionalTextField(name: string, es: seq<Entry>, p: seq<Segment>)
    ensures var o := FieldOutcome(Field(name, Text([]), Optional), es, p);
            && (o.Ok? <==> AbsentOr(Lookup(es, name), (x: Value) => x.Str?))
            && (o.Ok? ==> o.value == Lookup(es, name))
  {
    var f := Field(name, Text([]), Optional);
    match Lookup(es, name)
    case Some(y) => assert FieldOutcome(f, es, p) == Lift(Apply(Text([]), y, p + [Key(name)]));
    case None => assert FieldOutcome(f, es, p) == Ok(None);
  }

  /** An optional numeric field: accepted when absent or a number meeting
      every check, and passed through unchanged. */
  lemma OptionalNumberField(name: string, checks: seq<NumCheck>, es: seq<Entry>, p: seq<Segment>)
    ensures var o := FieldOutcome(Field(name, Number(checks), Optional), es, p);
            && (o.Ok? <==> AbsentOr(Lookup(es, name), (y: Value) => y.Num? && forall i :: 0 <= i < |checks| ==> NumPasses(checks[i], y.n)))
            && (o.Ok? ==> o.value == Lookup(es, name))
  {
    var f := Field(name, Number(checks), Optional);
    match Lookup(es, name)
    case Some(y) => assert FieldOutcome(f, es, p) == Lift(Apply(Number(checks), y, p + [Key(name)]));
    case None => assert FieldOutcome(f, es, p) == Ok(None);
  }

  /** An optional field absent from an accepted input is absent from the
      output: nothing is filled in for it. */
  lemma AbsentStaysAbsent(fields: seq<Field>, es: seq<Entry>, p: seq<Segment>, i: nat)
    requires DistinctNames(fields) && i < |fields| && fields[i].presence == Optional
    requires Apply(Object(fields), Obj(es), p).Ok?
    requires Lookup(es, fields[i].name).None?
    ensures Lookup(Apply(Object(fields), Obj(es), p).value.entries, fields[i].name).None?
  {
    ObjectOutput(fields, es, p, i);
    assert FieldOutcome(fields[i], es, p) == Ok(None);
  }

  /** A field with a default is always in the output of an accepted input;
      when the input lacks it, the output holds the normalised default. */
  lemma DefaultFills(fields: seq<Field>, es: seq<Entry>, p: seq<Segment>, i: nat)
    requires DistinctNames(fields) && i < |fields| && fields[i].presence.Defaulted?
    requires Apply(Object(fields), Obj(es), p).Ok?
    ensures var out := Lookup(Apply(Object(fields), Obj(es), p).value.entries, fields[i].name);
            && out.Some?
            && (Lookup(es, fields[i].name).None? ==>
                Apply(fields[i].rule, fields[i].presence.fill, p + [Key(fields[i].name)]) == Ok(out.value))
  {
    ObjectOutput(fields, es, p, i);
  }

  /** When every field succeeds, the output holds exactly the present
      outcomes, in field order. */
  lemma ObjectOfOutcomes(fields: seq<Field>, es: seq<Entry>, p: seq<Segment>, outs: seq<Option<Value>>)
    requires |outs| == |fields|
    requires forall i :: 0 <= i < |fields| ==> FieldOutcome(fields[i], es, p) == Ok(outs[i])
    ensures Apply(Object(fields), Obj(es), p) == Ok(Obj(Present(fields, outs)))
  {
    var rs := seq(|fields|, i requires 0 <= i < |fields| => FieldOutcome(fields[i], es, p));
    CollectOks(rs, outs);
  }

  /** For five fields that all produce a value, the output lists the five
      names with their values, in field order. */
  lemma ObjectFilledFive(f0: Field, f1: Field, f2: Field, f3: Field, f4: Field, es: seq<Entry>, p: seq<Segment>,
                         v0: Value, v1: Value, v2: Value, v3: Value, v4: Value)
    requires FieldOutcome(f0, es, p) == Ok(Some(v0)) && FieldOutcome(f1, es, p) == Ok(Some(v1))
    requires FieldOutcome(f2, es, p) == Ok(Some(v2)) && FieldOutcome(f3, es, p) == Ok(Some(v3))
    requires FieldOutcome(f4, es, p) == Ok(Some(v4))
    ensures Apply(Object([f0, f1, f2, f3, f4]), Obj(es), p) ==
            Ok(Obj([Entry(f0.name, v0), Entry(f1.name, v1), Entry(f2.name, v2), Entry(f3.name, v3), Entry(f4.name, v4)]))
  {
    var fs := [f0, f1, f2, f3, f4];
    var outs := [Some(v0), Some(v1), Some(v2), Some(v3), Some(v4)];
    forall i | 0 <= i < |fs| ensures FieldOutcome(fs[i], es, p) == Ok(outs[i]) {
      if i == 0 {} else if i == 1 {} else if i == 2 {} else if i == 3 {} else {}
    }
    ObjectOfOutcomes(fs, es, p, outs);
    PresentAll(fs, outs);
    assert Present(fs, outs) ==
           [Entry(f0.name, v0), Entry(f1.name, v1), Entry(f2.name, v2), Entry(f3.name, v3), Entry(f4.name, v4)];
  }

  /** When every field is present, the output pairs each field's name with
      its value, in field order. */
  lemma {:induction false} PresentAll(fields: seq<Field>, outs: seq<Option<Value>>)
    requires |outs| == |fields|
    requires forall i :: 0 <= i < |outs| ==> outs[i].Some?
    ensures |Present(fields, outs)| == |fields|
    ensures forall i :: 0 <= i < |fields| ==> Present(fields, outs)[i] == Entry(fields[i].name, outs[i].value)
  {
    if fields != [] {
      PresentAll(fields[1..], outs[1..]);
    }
  }

  /** When every field is absent, the output is empty. */
  lemma {:induction false} PresentNone(fields: seq<Field>, outs: seq<Option<Value>>)
    requires |outs| == |fields|
    requires forall i :: 0 <= i < |outs| ==> outs[i].None?
    ensures Present(fields, outs) == []
  {
    if fields != [] {
      PresentNone(fields[1..], outs[1..]);
    }
  }
}
