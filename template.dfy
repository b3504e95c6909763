/**
 * The form template of the builder: an ordered list of pages, each with an
 * ordered list of fields, and the pure edits the handlers apply to a single
 * field. The handlers themselves, which update the builder's state, are in
 * module Builder.
 */
module Template {
  import opened Wrappers
  import Text

  /**
   * A validation value as the inputs store it: `parseInt` of the min/max
   * inputs gives an integer or NaN, the regex input gives a string.
   */
  datatype Rule = IntRule(n: int) | NaNRule | TextRule(s: string)

  /**
   * A field's `validation` object. JavaScript objects keep their string keys
   * in insertion order, so the object is an association list; its keys are
   * distinct (see UniqueKeys).
   */
  type Rules = seq<(string, Rule)>

  datatype Field = Field(
    fieldLabel: string,
    fieldName: string,
    fieldType: string,
    required: bool,
    validation: Rules,
    options: seq<string>,
    accept: seq<string>)

  /** `pageIndex` is set when the page is created and never updated afterwards. */
  datatype Page = Page(pageIndex: nat, title: string, fields: seq<Field>)

  /** The `(key, value)` pairs the editor passes to `updateField`. */
  datatype FieldUpdate =
    | SetLabel(newLabel: string)
    | SetName(newName: string)
    | SetType(newType: string)
    | SetRequired(newRequired: bool)

  /** The two list-valued attributes `updateArrayField` and `addArrayFieldItem` edit. */
  datatype ListKey = Options | Accept

  /** The field `addField` appends. */
  const DefaultField: Field := Field("", "", "text", false, [], [""], [""])

  /** The page `addPage` appends to a template of `count` pages. */
  function NewPage(count: nat): Page {
    Page(count + 1, "Page " + Text.Decimal(count + 1), [])
  }

  /** The shape every field has right after creation or a type change. */
  predicate DefaultShape(f: Field) {
    f.validation == [] && f.options == [""] && f.accept == [""]
  }

  // ----- the validation object -----

  predicate UniqueKeys(rules: Rules) {
    forall i, j :: 0 <= i < j < |rules| ==> rules[i].0 != rules[j].0
  }

  /** `validation[key]`, or None when the key is absent. */
  function Lookup(rules: Rules, key: string): (r: Option<Rule>)
    ensures r.Some? <==> exists i :: 0 <= i < |rules| && rules[i].0 == key
    ensures r.Some? ==> exists i :: 0 <= i < |rules| && rules[i] == (key, r.value)
  {
    if rules == [] then None
    else if rules[0].0 == key then Some(rules[0].1)
    else
      var r := Lookup(rules[1..], key);
      assert forall i :: 1 <= i < |rules| ==> rules[i] == rules[1..][i - 1];
      r
  }

  /** The value read is the one of the first entry with the key. */
  lemma {:induction false} LookupFindsFirst(rules: Rules, key: string)
    ensures Lookup(rules, key).Some? ==>
      exists i :: 0 <= i < |rules| && rules[i] == (key, Lookup(rules, key).value)
                  && forall j :: 0 <= j < i ==> rules[j].0 != key
    decreases |rules|
  {
    if rules != [] && rules[0].0 != key && Lookup(rules[1..], key).Some? {
      LookupFindsFirst(rules[1..], key);
      var i :| 0 <= i < |rules| - 1 && rules[1..][i] == (key, Lookup(rules[1..], key).value)
               && forall j :: 0 <= j < i ==> rules[1..][j].0 != key;
      assert rules[i + 1] == (key, Lookup(rules, key).value);
      assert forall j :: 0 <= j < i + 1 ==> rules[j].0 != key by {
        forall j | 0 <= j < i + 1
          ensures rules[j].0 != key
        {
          if j > 0 {
            assert rules[j] == rules[1..][j - 1];
          }
        }
      }
    }
  }

  /**
   * `validation[key] = value`: an existing key keeps its position and gets
   * the new value; a new key goes at the end.
   */
  function Put(rules: Rules, key: string, value: Rule): (r: Rules)
    ensures Lookup(r, key) == Some(value)
    ensures forall k :: k != key ==> Lookup(r, k) == Lookup(rules, k)
    ensures Lookup(rules, key).Some? ==> |r| == |rules| && forall i :: 0 <= i < |r| ==> r[i].0 == rules[i].0
    ensures Lookup(rules, key).None? ==> r == rules + [(key, value)]
  {
    if rules == [] then [(key, value)]
    else if rules[0].0 == key then [(key, value)] + rules[1..]
    else [rules[0]] + Put(rules[1..], key, value)
  }

  /** Writing a key never duplicates one: the object keeps distinct keys. */
  lemma {:induction false} PutKeepsUniqueKeys(rules: Rules, key: string, value: Rule)
    requires UniqueKeys(rules)
    ensures UniqueKeys(Put(rules, key, value))
    decreases |rules|
  {
    if rules != [] && rules[0].0 != key {
      var tail := Put(rules[1..], key, value);
      assert UniqueKeys(rules[1..]);
      PutKeepsUniqueKeys(rules[1..], key, value);
      forall i | 0 <= i < |tail|
        ensures tail[i].0 != rules[0].0
      {
        if Lookup(rules[1..], key).Some? {
          assert tail[i].0 == rules[i + 1].0;
        } else if i < |rules| - 1 {
          assert tail[i] == rules[i + 1];
        }
      }
      assert Put(rules, key, value) == [rules[0]] + tail;
    }
  }

  // ----- `updateField` -----

  /**
   * `field[key] = value`, followed, when the key is "type", by the reset of
   * `options`, `accept` and `validation`.
   */
  function ApplyUpdate(f: Field, u: FieldUpdate): (r: Field)
    ensures r.fieldLabel == (if u.SetLabel? then u.newLabel else f.fieldLabel)
    ensures r.fieldName == (if u.SetName? then u.newName else f.fieldName)
    ensures r.fieldType == (if u.SetType? then u.newType else f.fieldType)
    ensures r.required == (if u.SetRequired? then u.newRequired else f.required)
    ensures u.SetType? ==> DefaultShape(r)
    ensures !u.SetType? ==> r.validation == f.validation && r.options == f.options && r.accept == f.accept
  {
    match u
    case SetLabel(text) => f.(fieldLabel := text)
    case SetName(text) => f.(fieldName := text)
    case SetType(t) => f.(fieldType := t, validation := [], options := [""], accept := [""])
    case SetRequired(b) => f.(required := b)
  }

  /**
   * Nothing of the previous type survives a type write: two fields that agree
   * on label, name and required flag are identical after the same type write,
   * whatever their types, rules and lists were before (the same type included).
   */
  lemma TypeWriteForgetsPrevious(f: Field, g: Field, t: string)
    requires f.fieldLabel == g.fieldLabel && f.fieldName == g.fieldName && f.required == g.required
    ensures ApplyUpdate(f, SetType(t)) == ApplyUpdate(g, SetType(t))
  {
  }

  // ----- `updateValidation` -----

  /** `validation[key] = value` on one field; no other attribute changes. */
  function SetRule(f: Field, key: string, value: Rule): (r: Field)
    ensures Lookup(r.validation, key) == Some(value)
    ensures forall k :: k != key ==> Lookup(r.validation, k) == Lookup(f.validation, k)
    ensures r.(validation := f.validation) == f
  {
    f.(validation := Put(f.validation, key, value))
  }

  // ----- `updateArrayField` and `addArrayFieldItem` -----

  function ListOf(f: Field, key: ListKey): seq<string> {
    match key
    case Options => f.options
    case Accept => f.accept
  }

  function WithList(f: Field, key: ListKey, items: seq<string>): (r: Field)
    ensures ListOf(r, key) == items
  {
    match key
    case Options => f.(options := items)
    case Accept => f.(accept := items)
  }

  /** `field[key][index] = value` for an index inside the list. */
  function SetListItem(f: Field, key: ListKey, index: nat, value: string): (r: Field)
    requires index < |ListOf(f, key)|
    ensures |ListOf(r, key)| == |ListOf(f, key)|
    ensures ListOf(r, key)[index] == value
    ensures forall i :: 0 <= i < |ListOf(f, key)| && i != index ==> ListOf(r, key)[i] == ListOf(f, key)[i]
    ensures WithList(r, key, ListOf(f, key)) == f
  {
    WithList(f, key, ListOf(f, key)[index := value])
  }

  /** `field[key].push('')`. */
  function AppendListItem(f: Field, key: ListKey): (r: Field)
    ensures ListOf(r, key) == ListOf(f, key) + [""]
    ensures WithList(r, key, ListOf(f, key)) == f
  {
    WithList(f, key, ListOf(f, key) + [""])
  }

  /** After an append, the new last slot can be written, and only it changes. */
  lemma AppendThenSet(f: Field, key: ListKey, value: string)
    ensures |ListOf(f, key)| < |ListOf(AppendListItem(f, key), key)|
    ensures ListOf(SetListItem(AppendListItem(f, key), key, |ListOf(f, key)|, value), key)
            == ListOf(f, key) + [value]
  {
    var g := AppendListItem(f, key);
    var h := SetListItem(g, key, |ListOf(f, key)|, value);
    assert ListOf(h, key) == ListOf(f, key) + [value];
  }

  // ----- the invariant every edit keeps -----

  /**
   * A well-formed field has at least one slot in each list, because no
   * operation removes a slot and a type write resets each list to one slot,
   * and a validation object with distinct keys.
   */
  predicate WellFormedField(f: Field) {
    |f.options| >= 1 && |f.accept| >= 1 && UniqueKeys(f.validation)
  }

  predicate WellFormedPage(p: Page) {
    forall i :: 0 <= i < |p.fields| ==> WellFormedField(p.fields[i])
  }

  predicate WellFormed(pages: seq<Page>) {
    forall i :: 0 <= i < |pages| ==> WellFormedPage(pages[i])
  }

  lemma FieldEditsKeepWellFormed(f: Field, u: FieldUpdate, key: ListKey, index: nat, name: string, value: Rule, item: string)
    requires WellFormedField(f)
    ensures WellFormedField(DefaultField)
    ensures WellFormedField(ApplyUpdate(f, u))
    ensures WellFormedField(SetRule(f, name, value))
    ensures WellFormedField(AppendListItem(f, key))
    ensures index < |ListOf(f, key)| ==> WellFormedField(SetListItem(f, key, index, item))
  {
    PutKeepsUniqueKeys(f.validation, name, value);
  }

  // ----- edits addressed by page and field index -----

  /** Page `pi` exists and has a field `fi`. */
  predicate FieldExists(pages: seq<Page>, pi: nat, fi: nat) {
    pi < |pages| && fi < |pages[pi].fields|
  }

  /** The template with field `fi` of page `pi` replaced by `nf`; nothing else changes. */
  function ReplaceField(pages: seq<Page>, pi: nat, fi: nat, nf: Field): (r: seq<Page>)
    requires pi < |pages| && fi < |pages[pi].fields|
    ensures |r| == |pages|
    ensures forall i :: 0 <= i < |pages| && i != pi ==> r[i] == pages[i]
    ensures r[pi].title == pages[pi].title && r[pi].pageIndex == pages[pi].pageIndex
    ensures |r[pi].fields| == |pages[pi].fields| && r[pi].fields[fi] == nf
    ensures forall j :: 0 <= j < |pages[pi].fields| && j != fi ==> r[pi].fields[j] == pages[pi].fields[j]
    ensures WellFormed(pages) && WellFormedField(nf) ==> WellFormed(r)
  {
    pages[pi := pages[pi].(fields := pages[pi].fields[fi := nf])]
  }
}
