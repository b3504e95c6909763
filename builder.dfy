/**
 * The state of the template builder and its event handlers. The state is
 * the list of pages and the two collapse toggles beside it; every handler
 * either completes its edit or, where the source would throw a TypeError
 * on a missing page or field before calling `setPages`, reports `ok ==
 * false` and changes nothing.
 */
module Builder {
  import opened Wrappers
  import opened Template
  import Splice
  import Text
  import TemplateJson

  // ----- the collapsed-pages list -----

  predicate NoDuplicates(s: seq<nat>) {
    forall i, j :: 0 <= i < j < |s| ==> s[i] != s[j]
  }

  /** The collapsed list without index `v`, the others kept in order. */
  function Drop(prev: seq<nat>, v: nat): (r: seq<nat>)
    ensures forall x :: x in r <==> x in prev && x != v
    ensures |r| <= |prev|
    ensures NoDuplicates(prev) ==> NoDuplicates(r)
  {
    if prev == [] then []
    else
      var rest := Drop(prev[1..], v);
      assert forall x :: x in prev[1..] ==> x in prev;
      assert NoDuplicates(prev) ==> prev[0] !in prev[1..];
      if prev[0] == v then rest else [prev[0]] + rest
  }

  /**
   * `toggleCollapse`: a page index in the list is removed from it, one not
   * in the list is appended; membership of every other index is unchanged.
   */
  function ToggledPages(prev: seq<nat>, pageIdx: nat): (r: seq<nat>)
    ensures pageIdx in r <==> pageIdx !in prev
    ensures forall i :: i != pageIdx ==> (i in r <==> i in prev)
    ensures pageIdx !in prev ==> r == prev + [pageIdx]
    ensures NoDuplicates(prev) ==> NoDuplicates(r)
  {
    if pageIdx in prev then Drop(prev, pageIdx) else prev + [pageIdx]
  }

  /** Toggling the same page twice gives back the same set of collapsed pages. */
  lemma ToggledPagesTwice(prev: seq<nat>, pageIdx: nat)
    ensures forall i :: i in ToggledPages(ToggledPages(prev, pageIdx), pageIdx) <==> i in prev
  {
  }

  // ----- the collapsed-fields map -----

  /** The template literal `${pageIdx}-${fieldIdx}`. */
  function FieldKey(pageIdx: nat, fieldIdx: nat): string {
    Text.Decimal(pageIdx) + "-" + Text.Decimal(fieldIdx)
  }

  /** Each (page, field) pair has a key of its own. */
  lemma FieldKeyInjective(p1: nat, f1: nat, p2: nat, f2: nat)
    requires FieldKey(p1, f1) == FieldKey(p2, f2)
    ensures p1 == p2 && f1 == f2
  {
    var a, b := Text.Decimal(p1), Text.Decimal(f1);
    var c, d := Text.Decimal(p2), Text.Decimal(f2);
    var k := FieldKey(p1, f1);
    assert |a| == |c| by {
      assert forall i :: 0 <= i < |a| ==> Text.IsDigit(k[i]);
      assert forall i :: 0 <= i < |c| ==> Text.IsDigit(k[i]);
      assert !Text.IsDigit(k[|a|]) && !Text.IsDigit(k[|c|]);
    }
    assert a == k[..|a|] == c;
    assert b == k[|a| + 1..] == d;
    Text.DecimalInjective(p1, p2);
    Text.DecimalInjective(f1, f2);
  }

  /** A field is shown collapsed when its key maps to a truthy value. */
  predicate IsCollapsed(m: map<string, bool>, pageIdx: nat, fieldIdx: nat) {
    var key := FieldKey(pageIdx, fieldIdx);
    key in m && m[key]
  }

  /**
   * `toggleFieldCollapse`: a copy of the map in which the field's key is set
   * to the negation of its old value, an absent key reading as false.
   */
  function ToggledFields(prev: map<string, bool>, pageIdx: nat, fieldIdx: nat): (r: map<string, bool>)
    ensures r.Keys == prev.Keys + {FieldKey(pageIdx, fieldIdx)}
    ensures r[FieldKey(pageIdx, fieldIdx)] == !IsCollapsed(prev, pageIdx, fieldIdx)
    ensures forall k :: k in prev && k != FieldKey(pageIdx, fieldIdx) ==> r[k] == prev[k]
  {
    var key := FieldKey(pageIdx, fieldIdx);
    prev[key := !(key in prev && prev[key])]
  }

  /** The toggle flips exactly one field's collapsed state. */
  lemma ToggledFieldsFlipsOne(prev: map<string, bool>, p: nat, f: nat, q: nat, g: nat)
    ensures IsCollapsed(ToggledFields(prev, p, f), q, g) ==
            if q == p && g == f then !IsCollapsed(prev, q, g) else IsCollapsed(prev, q, g)
  {
    if FieldKey(q, g) == FieldKey(p, f) {
      FieldKeyInjective(q, g, p, f);
    }
  }

  // ----- the drag and drop result -----

  /** The `type` of the droppable a drag ended in. */
  datatype DragKind = PageDrag | FieldDrag | OtherDrag

  class TemplateBuilder {
    var pages: seq<Page>
    var collapsedPages: seq<nat>
    var collapsedFields: map<string, bool>

    ghost predicate Valid()
      reads this
    {
      WellFormed(pages) && NoDuplicates(collapsedPages)
    }

    /** The initial state of the three `useState` hooks. */
    constructor ()
      ensures Valid()
      ensures pages == [] && collapsedPages == [] && collapsedFields == map[]
    {
      pages := [];
      collapsedPages := [];
      collapsedFields := map[];
    }

    /** The `{ pages }` value that is shown and downloaded. */
    function Serialized(): (r: TemplateJson.Json)
      reads this
      ensures TemplateJson.Parse(r) == Some(pages)
    {
      TemplateJson.SerializeRoundTrip(pages);
      TemplateJson.Serialize(pages)
    }

    method ToggleCollapse(pageIdx: nat)
      requires Valid()
      modifies this`collapsedPages
      ensures Valid()
      ensures collapsedPages == ToggledPages(old(collapsedPages), pageIdx)
    {
      collapsedPages := ToggledPages(collapsedPages, pageIdx);
    }

    method ToggleFieldCollapse(pageIdx: nat, fieldIdx: nat)
      requires Valid()
      modifies this`collapsedFields
      ensures Valid()
      ensures collapsedFields == ToggledFields(old(collapsedFields), pageIdx, fieldIdx)
    {
      collapsedFields := ToggledFields(collapsedFields, pageIdx, fieldIdx);
    }

    /** `addPage`: appends "Page n+1" with `pageIndex` n+1 and no fields. */
    method AddPage()
      requires Valid()
      modifies this`pages
      ensures Valid()
      ensures |pages| == |old(pages)| + 1
      ensures pages[..|old(pages)|] == old(pages)
      ensures pages[|old(pages)|] == Page(|old(pages)| + 1, "Page " + Text.Decimal(|old(pages)| + 1), [])
    {
      pages := pages + [NewPage(|pages|)];
    }

    /** `deletePage`: removes the page at `pageIdx`; later pages move down one place. */
    method DeletePage(pageIdx: nat)
      requires Valid()
      modifies this`pages
      ensures Valid()
      ensures pageIdx >= |old(pages)| ==> pages == old(pages)
      ensures pageIdx < |old(pages)| ==> |pages| == |old(pages)| - 1
      ensures forall i :: 0 <= i < pageIdx && i < |pages| ==> pages[i] == old(pages)[i]
      ensures pageIdx < |old(pages)| ==> forall i :: pageIdx <= i < |pages| ==> pages[i] == old(pages)[i + 1]
    {
      Splice.WithoutIndexIsRemoveAt(pages, pageIdx);
      pages := Splice.WithoutIndex(pages, pageIdx);
    }

    /** `addField`: appends the default field to page `pageIdx`. */
    method AddField(pageIdx: nat) returns (ok: bool)
      requires Valid()
      modifies this`pages
      ensures Valid()
      ensures ok == (pageIdx < |old(pages)|)
      ensures ok ==> pages == old(pages)[pageIdx := old(pages)[pageIdx].(fields := old(pages)[pageIdx].fields + [DefaultField])]
      ensures !ok ==> pages == old(pages)
    {
      if pageIdx >= |pages| {
        return false;
      }
      var page := pages[pageIdx];
      page := page.(fields := page.fields + [DefaultField]);
      pages := pages[pageIdx := page];
      ok := true;
    }

    /** `deleteField`: removes field `fieldIdx` of page `pageIdx` by a one-element splice. */
    method DeleteField(pageIdx: nat, fieldIdx: nat) returns (ok: bool)
      requires Valid()
      modifies this`pages
      ensures Valid()
      ensures ok == (pageIdx < |old(pages)|)
      ensures ok ==> pages == old(pages)[pageIdx := old(pages)[pageIdx].(fields := Splice.RemoveAt(old(pages)[pageIdx].fields, fieldIdx))]
      ensures ok && fieldIdx < |old(pages)[pageIdx].fields| ==> |pages[pageIdx].fields| == |old(pages)[pageIdx].fields| - 1
      ensures !ok ==> pages == old(pages)
    {
      if pageIdx >= |pages| {
        return false;
      }
      var page := pages[pageIdx];
      page := page.(fields := Splice.RemoveAt(page.fields, fieldIdx));
      pages := pages[pageIdx := page];
      ok := true;
    }

    /** `updateField`: one attribute of one field, with the reset on a type write. */
    method UpdateField(pageIdx: nat, fieldIdx: nat, u: FieldUpdate) returns (ok: bool)
      requires Valid()
      modifies this`pages
      ensures Valid()
      ensures ok == FieldExists(old(pages), pageIdx, fieldIdx)
      ensures ok ==> pages == ReplaceField(old(pages), pageIdx, fieldIdx, ApplyUpdate(old(pages)[pageIdx].fields[fieldIdx], u))
      ensures !ok ==> pages == old(pages)
    {
      if !FieldExists(pages, pageIdx, fieldIdx) {
        return false;
      }
      var field := ApplyUpdate(pages[pageIdx].fields[fieldIdx], u);
      pages := ReplaceField(pages, pageIdx, fieldIdx, field);
      ok := true;
    }

    /** `updateValidation`: `validation[key] = value` on one field. */
    method UpdateValidation(pageIdx: nat, fieldIdx: nat, key: string, value: Rule) returns (ok: bool)
      requires Valid()
      modifies this`pages
      ensures Valid()
      ensures ok == FieldExists(old(pages), pageIdx, fieldIdx)
      ensures ok ==> pages == ReplaceField(old(pages), pageIdx, fieldIdx, SetRule(old(pages)[pageIdx].fields[fieldIdx], key, value))
      ensures !ok ==> pages == old(pages)
    {
      if !FieldExists(pages, pageIdx, fieldIdx) {
        return false;
      }
      PutKeepsUniqueKeys(pages[pageIdx].fields[fieldIdx].validation, key, value);
      var field := SetRule(pages[pageIdx].fields[fieldIdx], key, value);
      pages := ReplaceField(pages, pageIdx, fieldIdx, field);
      ok := true;
    }

    /** `updateArrayField`: overwrites one slot of `options` or `accept`. */
    method UpdateArrayField(pageIdx: nat, fieldIdx: nat, key: ListKey, index: nat, value: string) returns (ok: bool)
      requires Valid()
      requires FieldExists(pages, pageIdx, fieldIdx) ==> index < |ListOf(pages[pageIdx].fields[fieldIdx], key)|
      modifies this`pages
      ensures Valid()
      ensures ok == FieldExists(old(pages), pageIdx, fieldIdx)
      ensures ok ==> pages == ReplaceField(old(pages), pageIdx, fieldIdx, SetListItem(old(pages)[pageIdx].fields[fieldIdx], key, index, value))
      ensures !ok ==> pages == old(pages)
    {
      if !FieldExists(pages, pageIdx, fieldIdx) {
        return false;
      }
      var field := SetListItem(pages[pageIdx].fields[fieldIdx], key, index, value);
      pages := ReplaceField(pages, pageIdx, fieldIdx, field);
      ok := true;
    }

    /** `addArrayFieldItem`: appends an empty slot to `options` or `accept`. */
    method AddArrayFieldItem(pageIdx: nat, fieldIdx: nat, key: ListKey) returns (ok: bool)
      requires Valid()
      modifies this`pages
      ensures Valid()
      ensures ok == FieldExists(old(pages), pageIdx, fieldIdx)
      ensures ok ==> pages == ReplaceField(old(pages), pageIdx, fieldIdx, AppendListItem(old(pages)[pageIdx].fields[fieldIdx], key))
      ensures !ok ==> pages == old(pages)
    {
      if !FieldExists(pages, pageIdx, fieldIdx) {
        return false;
      }
      var field := AppendListItem(pages[pageIdx].fields[fieldIdx], key);
      pages := ReplaceField(pages, pageIdx, fieldIdx, field);
      ok := true;
    }

    /** The title input's change handler. */
    method SetPageTitle(pageIdx: nat, title: string) returns (ok: bool)
      requires Valid()
      modifies this`pages
      ensures Valid()
      ensures ok == (pageIdx < |old(pages)|)
      ensures ok ==> pages == old(pages)[pageIdx := old(pages)[pageIdx].(title := title)]
      ensures !ok ==> pages == old(pages)
    {
      if pageIdx >= |pages| {
        return false;
      }
      pages := pages[pageIdx := pages[pageIdx].(title := title)];
      ok := true;
    }

    /** The page branch of `onDragEnd`: two splices on a copy of the page list. */
    method ReorderPages(source: nat, destination: nat)
      requires Valid()
      requires source < |pages|
      modifies this`pages
      ensures Valid()
      ensures pages == Splice.Move(old(pages), source, destination)
    {
      var reordered := pages;
      var moved := reordered[source];
      reordered := Splice.RemoveAt(reordered, source);
      reordered := Splice.InsertAt(reordered, destination, moved);
      MovedPagesWellFormed(pages, source, destination);
      pages := reordered;
    }

    /** The field branch of `onDragEnd`: two splices on a copy of one page's fields. */
    method ReorderFields(pageIdx: nat, source: nat, destination: nat) returns (ok: bool)
      requires Valid()
      requires pageIdx < |pages| ==> source < |pages[pageIdx].fields|
      modifies this`pages
      ensures Valid()
      ensures ok == (pageIdx < |old(pages)|)
      ensures ok ==> pages == old(pages)[pageIdx := old(pages)[pageIdx].(fields := Splice.Move(old(pages)[pageIdx].fields, source, destination))]
      ensures !ok ==> pages == old(pages)
    {
      if pageIdx >= |pages| {
        return false;
      }
      var page := pages[pageIdx];
      var fields := page.fields;
      var moved := fields[source];
      fields := Splice.RemoveAt(fields, source);
      fields := Splice.InsertAt(fields, destination, moved);
      MovedFieldsWellFormed(page, source, destination);
      pages := pages[pageIdx := page.(fields := fields)];
      ok := true;
    }

    /**
     * `onDragEnd`: without a destination nothing happens; a page drag moves
     * a page, a field drag moves a field within the page it was dragged
     * from, whatever page it was dropped on.
     */
    method OnDragEnd(kind: DragKind, source: nat, destination: Option<nat>, pageIdx: nat) returns (ok: bool)
      requires Valid()
      requires destination.Some? && kind == PageDrag ==> source < |pages|
      requires destination.Some? && kind == FieldDrag && pageIdx < |pages| ==> source < |pages[pageIdx].fields|
      modifies this`pages
      ensures Valid()
      ensures ok == !(destination.Some? && kind == FieldDrag && pageIdx >= |old(pages)|)
      ensures destination.None? || kind == OtherDrag || !ok ==> pages == old(pages)
      ensures destination.Some? && kind == PageDrag ==> pages == Splice.Move(old(pages), source, destination.value)
      ensures destination.Some? && kind == FieldDrag && ok ==>
        pages == old(pages)[pageIdx := old(pages)[pageIdx].(fields := Splice.Move(old(pages)[pageIdx].fields, source, destination.value))]
    {
      if destination.None? {
        return true;
      }
      match kind
      case PageDrag =>
        ReorderPages(source, destination.value);
        ok := true;
      case FieldDrag =>
        ok := ReorderFields(pageIdx, source, destination.value);
      case OtherDrag =>
        ok := true;
    }
  }

  /** Reordering the fields of a well-formed page leaves it well-formed. */
  lemma MovedFieldsWellFormed(p: Page, from: nat, to: nat)
    requires WellFormedPage(p) && from < |p.fields|
    ensures WellFormedPage(p.(fields := Splice.Move(p.fields, from, to)))
  {
    var r := Splice.Move(p.fields, from, to);
    forall k | 0 <= k < |r|
      ensures WellFormedField(r[k])
    {
      Splice.MoveKeepsElements(p.fields, from, to, k);
    }
  }

  /** Reordering the pages of a well-formed template leaves it well-formed. */
  lemma MovedPagesWellFormed(pages: seq<Page>, from: nat, to: nat)
    requires WellFormed(pages) && from < |pages|
    ensures WellFormed(Splice.Move(pages, from, to))
  {
    var r := Splice.Move(pages, from, to);
    forall k | 0 <= k < |r|
      ensures WellFormedPage(r[k])
    {
      Splice.MoveKeepsElements(pages, from, to, k);
    }
  }

  // ----- two sessions, start to finish -----

  lemma FirstPages()
    ensures NewPage(0) == Page(1, "Page 1", [])
    ensures NewPage(1) == Page(2, "Page 2", [])
  {
    assert Text.Decimal(1) == "1" && Text.Decimal(2) == "2";
  }

  /** The template the select-field session below ends with. */
  const SelectFieldTemplate: seq<Page> := [Page(1, "Page 1", [Field("", "", "select", false, [], ["", "Gold"], [""])])]

  /**
   * A page with one select field carrying a second option "Gold", built by
   * the handlers one call after another.
   */
  method SelectFieldSession() returns (pages: seq<Page>)
    ensures pages == SelectFieldTemplate
  {
    var b := new TemplateBuilder();
    AddSelectField(b);
    var f1 := Field("", "", "select", false, [], [""], [""]);
    var f2 := f1.(options := ["", ""]);
    var f3 := f1.(options := ["", "Gold"]);
    assert AppendListItem(f1, Options) == f2;
    assert SetListItem(f2, Options, 1, "Gold") == f3;
    var ok := b.AddArrayFieldItem(0, 0, Options);
    assert b.pages[0].fields == [f2];
    assert |b.pages| == 1 && b.pages[0] == Page(1, "Page 1", [f2]);
    assert b.pages == [Page(1, "Page 1", [f2])];
    ok := b.UpdateArrayField(0, 0, Options, 1, "Gold");
    assert b.pages[0].fields == [f3];
    assert |b.pages| == 1 && b.pages[0] == Page(1, "Page 1", [f3]);
    assert b.pages == [Page(1, "Page 1", [f3])];
    pages := b.pages;
  }

  /** The first three steps of the session: a page, a field, and the field's type set to "select". */
  method AddSelectField(b: TemplateBuilder)
    requires b.Valid() && b.pages == []
    modifies b
    ensures b.Valid()
    ensures b.pages == [Page(1, "Page 1", [Field("", "", "select", false, [], [""], [""])])]
  {
    FirstPages();
    b.AddPage();
    var ok := b.AddField(0);
    assert b.pages[0].fields == [] + [DefaultField];
    assert |b.pages| == 1 && b.pages[0] == Page(1, "Page 1", [DefaultField]);
    assert b.pages == [Page(1, "Page 1", [DefaultField])];
    var f1 := Field("", "", "select", false, [], [""], [""]);
    assert ApplyUpdate(DefaultField, SetType("select")) == f1;
    ok := b.UpdateField(0, 0, SetType("select"));
    assert b.pages[0].fields == [f1];
    assert |b.pages| == 1 && b.pages[0] == Page(1, "Page 1", [f1]);
  }

  /** What that template serialises to: the untouched default slots are written out too. */
  lemma SelectFieldJson()
    ensures TemplateJson.Serialize(SelectFieldTemplate) == TemplateJson.JObject([("pages", TemplateJson.JArray([
      TemplateJson.JObject([
        ("pageIndex", TemplateJson.JNumber(1)),
        ("title", TemplateJson.JString("Page 1")),
        ("fields", TemplateJson.JArray([
          TemplateJson.JObject([
            ("label", TemplateJson.JString("")),
            ("name", TemplateJson.JString("")),
            ("type", TemplateJson.JString("select")),
            ("required", TemplateJson.JBool(false)),
            ("validation", TemplateJson.JObject([])),
            ("options", TemplateJson.JArray([TemplateJson.JString(""), TemplateJson.JString("Gold")])),
            ("accept", TemplateJson.JArray([TemplateJson.JString("")]))])]))])]))])
  {
    var field := SelectFieldTemplate[0].fields[0];
    assert TemplateJson.RulesToJson(field.validation) == [];
    assert TemplateJson.StringsToJson(field.options) == [TemplateJson.JString(""), TemplateJson.JString("Gold")];
    assert TemplateJson.StringsToJson(field.accept) == [TemplateJson.JString("")];
    assert TemplateJson.FieldsToJson(SelectFieldTemplate[0].fields) == [TemplateJson.FieldToJson(field)];
    assert TemplateJson.PagesToJson(SelectFieldTemplate) == [TemplateJson.PageToJson(SelectFieldTemplate[0])];
  }

  /**
   * Two pages with one field each, the first dragged below the second: the
   * serialised order is swapped and each page keeps the `pageIndex` it was
   * created with.
   */
  method SwapPagesSession() returns (json: TemplateJson.Json)
    ensures TemplateJson.Parse(json) == Some([Page(2, "Page 2", [DefaultField]), Page(1, "Page 1", [DefaultField])])
  {
    var p1 := Page(1, "Page 1", [DefaultField]);
    var p2 := Page(2, "Page 2", [DefaultField]);
    var b := new TemplateBuilder();
    AddTwoPagesWithFields(b);
    var ok := b.OnDragEnd(PageDrag, 0, Some(1), 0);
    assert Splice.RemoveAt([p1, p2], 0) == [p2];
    assert Splice.Move([p1, p2], 0, 1) == [p2, p1];
    assert b.pages == [p2, p1];
    json := b.Serialized();
  }

  /** The first four steps of that session: two pages, then a field on each. */
  method AddTwoPagesWithFields(b: TemplateBuilder)
    requires b.Valid() && b.pages == []
    modifies b
    ensures b.Valid()
    ensures b.pages == [Page(1, "Page 1", [DefaultField]), Page(2, "Page 2", [DefaultField])]
  {
    FirstPages();
    b.AddPage();
    b.AddPage();
    assert b.pages[0] == Page(1, "Page 1", []) && b.pages[1] == Page(2, "Page 2", []);
    var ok := b.AddField(0);
    assert b.pages[0].fields == [] + [DefaultField];
    ok := b.AddField(1);
    assert b.pages[1].fields == [] + [DefaultField];
    assert b.pages[0] == Page(1, "Page 1", [DefaultField]) && b.pages[1] == Page(2, "Page 2", [DefaultField]);
    assert |b.pages| == 2;
  }
}
