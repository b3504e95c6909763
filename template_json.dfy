/**
 * The `{ pages }` value the builder hands to `JSON.stringify`, as an
 * abstract JSON value that keeps the order of arrays and of object members,
 * and the reading back of such a value into a template.
 */
module TemplateJson {
  import opened Wrappers
  import opened Template

  datatype Json =
    | JNull
    | JBool(b: bool)
    | JNumber(n: int)
    | JString(s: string)
    | JArray(items: seq<Json>)
    | JObject(members: seq<(string, Json)>)

  /** `JSON.stringify` writes NaN as `null`. */
  function RuleToJson(v: Rule): Json {
    match v
    case IntRule(n) => JNumber(n)
    case NaNRule => JNull
    case TextRule(s) => JString(s)
  }

  function RulesToJson(rules: Rules): (r: seq<(string, Json)>)
    ensures |r| == |rules|
    ensures forall i :: 0 <= i < |rules| ==> r[i] == (rules[i].0, RuleToJson(rules[i].1))
  {
    if rules == [] then [] else [(rules[0].0, RuleToJson(rules[0].1))] + RulesToJson(rules[1..])
  }

  function StringsToJson(ss: seq<string>): (r: seq<Json>)
    ensures |r| == |ss|
    ensures forall i :: 0 <= i < |ss| ==> r[i] == JString(ss[i])
  {
    if ss == [] then [] else [JString(ss[0])] + StringsToJson(ss[1..])
  }

  /** All seven keys are written, the default `[""]` slots included. */
  function FieldToJson(f: Field): (r: Json)
    ensures r.JObject? && |r.members| == |FieldKeys|
    ensures forall i :: 0 <= i < |FieldKeys| ==> r.members[i].0 == FieldKeys[i]
  {
    JObject([
      ("label", JString(f.fieldLabel)),
      ("name", JString(f.fieldName)),
      ("type", JString(f.fieldType)),
      ("required", JBool(f.required)),
      ("validation", JObject(RulesToJson(f.validation))),
      ("options", JArray(StringsToJson(f.options))),
      ("accept", JArray(StringsToJson(f.accept)))])
  }

  function FieldsToJson(fs: seq<Field>): (r: seq<Json>)
    ensures |r| == |fs|
    ensures forall i :: 0 <= i < |fs| ==> r[i] == FieldToJson(fs[i])
  {
    if fs == [] then [] else [FieldToJson(fs[0])] + FieldsToJson(fs[1..])
  }

  /** Keys in the order of the object literal in `addPage`. */
  function PageToJson(p: Page): (r: Json)
    ensures r.JObject? && |r.members| == |PageKeys|
    ensures forall i :: 0 <= i < |PageKeys| ==> r.members[i].0 == PageKeys[i]
  {
    JObject([
      ("pageIndex", JNumber(p.pageIndex)),
      ("title", JString(p.title)),
      ("fields", JArray(FieldsToJson(p.fields)))])
  }

  function PagesToJson(ps: seq<Page>): (r: seq<Json>)
    ensures |r| == |ps|
    ensures forall i :: 0 <= i < |ps| ==> r[i] == PageToJson(ps[i])
  {
    if ps == [] then [] else [PageToJson(ps[0])] + PagesToJson(ps[1..])
  }

  /** The value `JSON.stringify({ pages }, null, 2)` renders. */
  function Serialize(pages: seq<Page>): Json {
    JObject([("pages", JArray(PagesToJson(pages)))])
  }

  // ----- reading a template back -----

  function ParseRule(j: Json): Option<Rule> {
    match j
    case JNumber(n) => Some(IntRule(n))
    case JNull => Some(NaNRule)
    case JString(s) => Some(TextRule(s))
    case _ => None
  }

  function ParseRules(ms: seq<(string, Json)>): Option<Rules> {
    if ms == [] then Some([])
    else
      var v := ParseRule(ms[0].1);
      var rest := ParseRules(ms[1..]);
      if v.Some? && rest.Some? then Some([(ms[0].0, v.value)] + rest.value) else None
  }

  function ParseStrings(js: seq<Json>): Option<seq<string>> {
    if js == [] then Some([])
    else
      var rest := ParseStrings(js[1..]);
      if js[0].JString? && rest.Some? then Some([js[0].s] + rest.value) else None
  }

  /** The member names of a field object, in the order `addField` creates them. */
  const FieldKeys: seq<string> := ["label", "name", "type", "required", "validation", "options", "accept"]

  /** The member names of a page object, in the order `addPage` creates them. */
  const PageKeys: seq<string> := ["pageIndex", "title", "fields"]

  function ParseField(j: Json): Option<Field> {
    if !j.JObject? || |j.members| != 7 then None
    else
      var ms := j.members;
      if (forall i :: 0 <= i < 7 ==> ms[i].0 == FieldKeys[i])
         && ms[0].1.JString? && ms[1].1.JString? && ms[2].1.JString? && ms[3].1.JBool?
         && ms[4].1.JObject? && ms[5].1.JArray? && ms[6].1.JArray?
      then
        var rules := ParseRules(ms[4].1.members);
        var opts := ParseStrings(ms[5].1.items);
        var acc := ParseStrings(ms[6].1.items);
        if rules.Some? && opts.Some? && acc.Some? then
          Some(Field(ms[0].1.s, ms[1].1.s, ms[2].1.s, ms[3].1.b, rules.value, opts.value, acc.value))
        else None
      else None
  }

  function ParseFields(js: seq<Json>): Option<seq<Field>> {
    if js == [] then Some([])
    else
      var f := ParseField(js[0]);
      var rest := ParseFields(js[1..]);
      if f.Some? && rest.Some? then Some([f.value] + rest.value) else None
  }

  function ParsePage(j: Json): Option<Page> {
    if !j.JObject? || |j.members| != 3 then None
    else
      var ms := j.members;
      if (forall i :: 0 <= i < 3 ==> ms[i].0 == PageKeys[i])
         && ms[0].1.JNumber? && ms[0].1.n >= 0 && ms[1].1.JString? && ms[2].1.JArray?
      then
        var fields := ParseFields(ms[2].1.items);
        if fields.Some? then Some(Page(ms[0].1.n, ms[1].1.s, fields.value)) else None
      else None
  }

  function ParsePages(js: seq<Json>): Option<seq<Page>> {
    if js == [] then Some([])
    else
      var p := ParsePage(js[0]);
      var rest := ParsePages(js[1..]);
      if p.Some? && rest.Some? then Some([p.value] + rest.value) else None
  }

  function Parse(j: Json): Option<seq<Page>> {
    if j.JObject? && |j.members| == 1 && j.members[0].0 == "pages" && j.members[0].1.JArray?
    then ParsePages(j.members[0].1.items)
    else None
  }

  // ----- round trip -----

  lemma {:induction false} RulesRoundTrip(rules: Rules)
    ensures ParseRules(RulesToJson(rules)) == Some(rules)
    decreases |rules|
  {
    if rules != [] {
      var ms := RulesToJson(rules);
      RuleRoundTrip(rules[0].1);
      RulesRoundTrip(rules[1..]);
      assert ms[0] == (rules[0].0, RuleToJson(rules[0].1));
      assert ms[1..] == RulesToJson(rules[1..]);
      assert rules == [rules[0]] + rules[1..];
    }
  }

  lemma RuleRoundTrip(v: Rule)
    ensures ParseRule(RuleToJson(v)) == Some(v)
  {
  }

  lemma {:induction false} StringsRoundTrip(ss: seq<string>)
    ensures ParseStrings(StringsToJson(ss)) == Some(ss)
    decreases |ss|
  {
    if ss != [] {
      var js := StringsToJson(ss);
      StringsRoundTrip(ss[1..]);
      assert js[0] == JString(ss[0]);
      assert js[1..] == StringsToJson(ss[1..]);
      assert ss == [ss[0]] + ss[1..];
    }
  }

  lemma FieldRoundTrip(f: Field)
    ensures ParseField(FieldToJson(f)) == Some(f)
  {
    RulesRoundTrip(f.validation);
    StringsRoundTrip(f.options);
    StringsRoundTrip(f.accept);
  }

  /** A list of field objects parses when each of its elements does. */
  lemma {:induction false} ParseFieldsEach(js: seq<Json>, fs: seq<Field>)
    requires |js| == |fs|
    requires forall i :: 0 <= i < |js| ==> ParseField(js[i]) == Some(fs[i])
    ensures ParseFields(js) == Some(fs)
    decreases |js|
  {
    if js != [] {
      ParseFieldsEach(js[1..], fs[1..]);
      assert fs == [fs[0]] + fs[1..];
    }
  }

  lemma FieldsRoundTrip(fs: seq<Field>)
    ensures ParseFields(FieldsToJson(fs)) == Some(fs)
  {
    var js := FieldsToJson(fs);
    forall i | 0 <= i < |js|
      ensures ParseField(js[i]) == Some(fs[i])
    {
      FieldRoundTrip(fs[i]);
    }
    ParseFieldsEach(js, fs);
  }

  lemma PageRoundTrip(p: Page)
    ensures ParsePage(PageToJson(p)) == Some(p)
  {
    FieldsRoundTrip(p.fields);
  }

  /** A list of page objects parses when each of its elements does. */
  lemma {:induction false} ParsePagesEach(js: seq<Json>, ps: seq<Page>)
    requires |js| == |ps|
    requires forall i :: 0 <= i < |js| ==> ParsePage(js[i]) == Some(ps[i])
    ensures ParsePages(js) == Some(ps)
    decreases |js|
  {
    if js != [] {
      ParsePagesEach(js[1..], ps[1..]);
      assert ps == [ps[0]] + ps[1..];
    }
  }

  lemma PagesRoundTrip(ps: seq<Page>)
    ensures ParsePages(PagesToJson(ps)) == Some(ps)
  {
    var js := PagesToJson(ps);
    forall i | 0 <= i < |js|
      ensures ParsePage(js[i]) == Some(ps[i])
    {
      PageRoundTrip(ps[i]);
    }
    ParsePagesEach(js, ps);
  }

  /**
   * The serialised value holds the whole template: reading it back gives the
   * same pages in the same order, each with its fields in the same order and
   * every attribute, rule and list slot intact.
   */
  lemma SerializeRoundTrip(pages: seq<Page>)
    ensures Parse(Serialize(pages)) == Some(pages)
  {
    PagesRoundTrip(pages);
  }

  /** Different templates serialise to different values. */
  lemma SerializeInjective(p: seq<Page>, q: seq<Page>)
    requires Serialize(p) == Serialize(q)
    ensures p == q
  {
    SerializeRoundTrip(p);
    SerializeRoundTrip(q);
  }
}
