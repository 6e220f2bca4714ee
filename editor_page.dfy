/**
 * The editor page's logic around the store: drag-and-drop reordering
 * (`findIndex` + `arrayMove`), the column toggle, the photo-feedback colour,
 * and the write rules of the section forms (paragraph, list and skills items,
 * the "Add" buttons and custom fields).
 */
module EditorPage {
  import opened Wrappers
  import opened Seqs
  import opened Strings
  import RC = ResumeContext
  import RP = ResumeProvider
  import TV = TemplateViewer

  // ----- Drag-and-drop reordering -----

  /** `sections.findIndex(s => s.id === id)`: the first position carrying `id`, or -1. */
  function FindIndex(ss: seq<RC.Section>, id: string): (r: int)
    ensures -1 <= r < |ss|
    ensures r == -1 ==> forall k :: 0 <= k < |ss| ==> ss[k].id != id
    ensures 0 <= r ==> ss[r].id == id && forall k :: 0 <= k < r ==> ss[k].id != id
    decreases |ss|
  {
    if ss == [] then -1
    else if ss[0].id == id then 0
    else
      var r := FindIndex(ss[1..], id);
      if r == -1 then -1 else r + 1
  }

  /** An id carried by some section is found. */
  lemma FindIndexFound(ss: seq<RC.Section>, id: string)
    requires id in RC.Ids(ss)
    ensures 0 <= FindIndex(ss, id)
  {
    var k :| 0 <= k < |ss| && RC.Ids(ss)[k] == id;
    assert ss[k].id == id;
  }

  /** `arrayMove(s, from, to)`: take out the element at `from` and insert it so it sits at `to`. */
  function ArrayMove<T>(s: seq<T>, from: nat, to: nat): (r: seq<T>)
    requires from < |s| && to < |s|
    ensures |r| == |s|
  {
    InsertAt(RemoveAt(s, from), to, s[from])
  }

  /**
   * Moving keeps the same elements, puts the moved one at `to`, and leaves all
   * the others in their relative order.
   */
  lemma ArrayMovePermutes<T>(s: seq<T>, from: nat, to: nat)
    requires from < |s| && to < |s|
    ensures multiset(ArrayMove(s, from, to)) == multiset(s)
    ensures ArrayMove(s, from, to)[to] == s[from]
    ensures RemoveAt(ArrayMove(s, from, to), to) == RemoveAt(s, from)
  {
    var t, r := RemoveAt(s, from), ArrayMove(s, from, to);
    assert s == s[..from] + [s[from]] + s[from + 1..];
    assert multiset(s) == multiset(t) + multiset{s[from]};
    assert r == t[..to] + [s[from]] + t[to..];
    assert t == t[..to] + t[to..];
    assert r[..to] == t[..to];
    assert r[to + 1..] == t[to..];
  }

  /** Where the element at position `i` after a move came from. */
  function MovedFrom(from: nat, to: nat, i: nat): nat
  {
    if i == to then from
    else
      var j := if i < to then i else i - 1;
      if j < from then j else j + 1
  }

  lemma ArrayMoveAt<T>(s: seq<T>, from: nat, to: nat, i: nat)
    requires from < |s| && to < |s| && i < |s|
    ensures MovedFrom(from, to, i) < |s|
    ensures ArrayMove(s, from, to)[i] == s[MovedFrom(from, to, i)]
  {
  }

  /** A move sends distinct positions to distinct positions. */
  lemma MovedFromInjective(n: nat, from: nat, to: nat, i: nat, j: nat)
    requires from < n && to < n && i < n && j < n && i != j
    ensures MovedFrom(from, to, i) != MovedFrom(from, to, j)
  {
  }

  /**
   * `handleDragEnd`: when the dragged section is dropped on a different one,
   * move it to the target's position. A drop outside any section (`over` is
   * null) throws before anything changes.
   */
  function HandleDragEnd(d: RC.Resume, active: string, over: Option<string>): (r: RC.Resume)
    requires over.Some? && active != over.value ==> active in RC.Ids(d.sections) && over.value in RC.Ids(d.sections)
  {
    if over.None? || active == over.value then d
    else
      FindIndexFound(d.sections, active);
      FindIndexFound(d.sections, over.value);
      var oldIndex := FindIndex(d.sections, active);
      var newIndex := FindIndex(d.sections, over.value);
      RC.ReorderSections(d, ArrayMove(d.sections, oldIndex, newIndex))
  }

  /**
   * A drag only ever hands `reorderSections` a permutation of the current
   * sections: the dragged section lands where the target was, the others keep
   * their relative order, nothing else in the document changes, and distinct
   * ids stay distinct.
   */
  lemma DragEndPermutes(d: RC.Resume, active: string, over: string)
    requires active != over
    requires active in RC.Ids(d.sections) && over in RC.Ids(d.sections)
    ensures var r := HandleDragEnd(d, active, Some(over));
      var oldIndex, newIndex := FindIndex(d.sections, active), FindIndex(d.sections, over);
      && 0 <= oldIndex && 0 <= newIndex
      && RC.OnlySectionsChanged(d, r)
      && multiset(r.sections) == multiset(d.sections)
      && r.sections[newIndex] == d.sections[oldIndex]
      && r.sections[newIndex].id == active
      && RemoveAt(r.sections, newIndex) == RemoveAt(d.sections, oldIndex)
      && (RC.IdsDistinct(d.sections) ==> RC.IdsDistinct(r.sections))
  {
    var ss := d.sections;
    FindIndexFound(ss, active);
    FindIndexFound(ss, over);
    var oldIndex, newIndex := FindIndex(ss, active), FindIndex(ss, over);
    var moved := ArrayMove(ss, oldIndex, newIndex);
    ArrayMovePermutes(ss, oldIndex, newIndex);
    assert HandleDragEnd(d, active, Some(over)).sections == moved;
    if RC.IdsDistinct(ss) {
      forall i, j | 0 <= i < j < |moved|
        ensures moved[i].id != moved[j].id
      {
        ArrayMoveAt(ss, oldIndex, newIndex, i);
        ArrayMoveAt(ss, oldIndex, newIndex, j);
        MovedFromInjective(|ss|, oldIndex, newIndex, i, j);
        var a, b := MovedFrom(oldIndex, newIndex, i), MovedFrom(oldIndex, newIndex, j);
        if a < b {
          assert ss[a].id != ss[b].id;
        } else {
          assert ss[b].id != ss[a].id;
        }
      }
    }
  }

  /** Dropping a section on itself, or outside the list, changes nothing. */
  lemma DragEndWithoutTargetIsNoop(d: RC.Resume, active: string, over: Option<string>)
    requires over.None? || over.value == active
    ensures HandleDragEnd(d, active, over) == d
  {
  }

  /** The drag handler on the store: it computes the move and hands it to `reorderSections`. */
  method DragEnd(store: RP.Store, active: string, over: Option<string>)
    requires over.Some? && active != over.value ==>
               active in RC.Ids(store.resume.sections) && over.value in RC.Ids(store.resume.sections)
    modifies store`resume
    ensures store.resume == HandleDragEnd(old(store.resume), active, over)
  {
    if over.Some? && active != over.value {
      FindIndexFound(store.resume.sections, active);
      FindIndexFound(store.resume.sections, over.value);
      var oldIndex := FindIndex(store.resume.sections, active);
      var newIndex := FindIndex(store.resume.sections, over.value);
      store.ReorderSections(ArrayMove(store.resume.sections, oldIndex, newIndex));
    }
  }

  // ----- Column toggle -----

  /** The column the toggle button asks for: `sidebar` becomes `main`, anything else (unset too) `sidebar`. */
  function ToggleColumn(column: Option<string>): (r: Option<string>)
    ensures r.Some?
    ensures r == Some("main") <==> column == Some("sidebar")
    ensures r == Some("sidebar") <==> column != Some("sidebar")
  {
    Some(if column == Some("sidebar") then "main" else "sidebar")
  }

  /**
   * After a toggle, ModernClean shows the section in the main column exactly
   * when it had been placed in the sidebar, and in the sidebar otherwise, so an
   * unplaced non-experience section, already in the sidebar, stays there.
   */
  lemma ToggleMovesRegion(s: RC.Section)
    ensures var t := s.(column := ToggleColumn(s.column));
      && TV.KnownColumn(t)
      && (TV.InModernMain(t) <==> s.column == Some("sidebar"))
      && (TV.InModernSidebar(t) <==> s.column != Some("sidebar"))
    ensures s.column == Some("main") || s.column == Some("sidebar") ==>
      ToggleColumn(ToggleColumn(s.column)) == s.column
  {
  }

  /**
   * The store only ever holds columns ModernClean can place: the presets use
   * `main` and `sidebar`, a new section has none, the toggle writes `main` or
   * `sidebar`, and the other section operations leave columns alone (a drag
   * too: see `DragKeepsColumnsKnown`).
   */
  lemma StoreKeepsColumnsKnown(d: RC.Resume, purpose: string, now: nat, title: string, kind: string,
                               id: string, item: RC.Item, column: Option<string>, index: int,
                               field: Option<string>, value: string)
    requires TV.ColumnsKnown(d.sections)
    ensures TV.ColumnsKnown(RC.LoadPurposeConfig(d, purpose).sections)
    ensures TV.ColumnsKnown(RC.AddSection(d, now, title, kind).sections)
    ensures TV.ColumnsKnown(RC.RemoveSection(d, id).sections)
    ensures TV.ColumnsKnown(RC.AddItemToSection(d, id, item).sections)
    ensures TV.ColumnsKnown(RC.UpdateSectionTitle(d, id, title).sections)
    ensures TV.ColumnsKnown(RC.UpdateSectionType(d, id, kind).sections)
    ensures TV.ColumnsKnown(RC.UpdateSectionColumn(d, id, ToggleColumn(column)).sections)
    ensures TV.ColumnsKnown(RC.RemoveSectionItem(d, id, index).sections)
    ensures RC.IndexInRange(d.sections, id, index) ==>
              TV.ColumnsKnown(RC.UpdateSectionItem(d, id, index, field, value).sections)
  {
    PresetColumnsKnown(d, purpose);
    AddSectionKeepsColumnsKnown(d, now, title, kind);
    ColumnsKeptByHeaders(d.sections, RC.AddItemToSection(d, id, item).sections);
    ColumnsKeptByHeaders(d.sections, RC.UpdateSectionTitle(d, id, title).sections);
    ColumnsKeptByHeaders(d.sections, RC.UpdateSectionType(d, id, kind).sections);
    ColumnsKeptByHeaders(d.sections, RC.RemoveSectionItem(d, id, index).sections);
    if RC.IndexInRange(d.sections, id, index) {
      ColumnsKeptByHeaders(d.sections, RC.UpdateSectionItem(d, id, index, field, value).sections);
    }
    ToggleKeepsColumnsKnown(d, id, column);
  }

  /** Every preset places each section in `main` or `sidebar`. */
  lemma PresetColumnsKnown(d: RC.Resume, purpose: string)
    ensures TV.ColumnsKnown(RC.LoadPurposeConfig(d, purpose).sections)
  {
    var known := {Some("main"), Some("sidebar")};
    assert forall s :: s in RC.JobPreset ==> s.column in known;
    assert forall s :: s in RC.ScholarshipPreset ==> s.column in known;
    assert forall s :: s in RC.CreativePreset ==> s.column in known;
    assert forall s :: s in RC.CvPreset ==> s.column in known;
  }

  lemma AddSectionKeepsColumnsKnown(d: RC.Resume, now: nat, title: string, kind: string)
    requires TV.ColumnsKnown(d.sections)
    ensures TV.ColumnsKnown(RC.AddSection(d, now, title, kind).sections)
  {
    var a := RC.AddSection(d, now, title, kind).sections;
    assert a == d.sections + [a[|d.sections|]];
  }

  lemma ToggleKeepsColumnsKnown(d: RC.Resume, id: string, column: Option<string>)
    requires TV.ColumnsKnown(d.sections)
    ensures TV.ColumnsKnown(RC.UpdateSectionColumn(d, id, ToggleColumn(column)).sections)
  {
    var c := RC.UpdateSectionColumn(d, id, ToggleColumn(column)).sections;
    forall s | s in c ensures TV.KnownColumn(s) {
      var k :| 0 <= k < |c| && c[k] == s;
      assert d.sections[k] in d.sections;
    }
  }

  /** A list whose sections keep their columns position by position keeps the columns known. */
  lemma ColumnsKeptByHeaders(before: seq<RC.Section>, after: seq<RC.Section>)
    requires TV.ColumnsKnown(before) && |after| == |before|
    requires forall k :: 0 <= k < |before| ==> after[k].column == before[k].column
    ensures TV.ColumnsKnown(after)
  {
    forall s | s in after ensures TV.KnownColumn(s) {
      var k :| 0 <= k < |after| && after[k] == s;
      assert before[k] in before;
    }
  }

  /** A drag permutes the sections, so it keeps the columns known. */
  lemma DragKeepsColumnsKnown(d: RC.Resume, active: string, over: Option<string>)
    requires over.Some? && active != over.value ==> active in RC.Ids(d.sections) && over.value in RC.Ids(d.sections)
    requires TV.ColumnsKnown(d.sections)
    ensures TV.ColumnsKnown(HandleDragEnd(d, active, over).sections)
  {
    if over.Some? && active != over.value {
      DragEndPermutes(d, active, over.value);
      var r := HandleDragEnd(d, active, over).sections;
      forall s | s in r ensures TV.KnownColumn(s) {
        assert s in multiset(r);
      }
    }
  }

  // ----- Photo feedback colour -----

  /** The four styles `getFeedbackColor` returns. */
  datatype Tone = Gray | Green | Yellow | Red

  /** The style's class list as written in the page. */
  function ToneClasses(t: Tone): string
  {
    match t
    case Gray => "border-gray-200 text-gray-500"
    case Green => "border-green-500 text-green-600 bg-green-50"
    case Yellow => "border-yellow-500 text-yellow-600 bg-yellow-50"
    case Red => "border-red-500 text-red-600 bg-red-50"
  }

  /** `getFeedbackColor(status)`. */
  function FeedbackColor(status: Option<string>): (r: Tone)
    ensures r == Green <==> Truthy(status) && AsciiLower(status.value) == "green"
    ensures r == Yellow <==> Truthy(status) && AsciiLower(status.value) == "yellow"
    ensures r == Red <==> Truthy(status) && AsciiLower(status.value) == "red"
    ensures !Truthy(status) ==> r == Gray
  {
    if !Truthy(status) then Gray
    else
      var s := AsciiLower(status.value);
      if s == "green" then Green
      else if s == "yellow" then Yellow
      else if s == "red" then Red
      else Gray
  }

  /** The colour ignores letter case. */
  lemma FeedbackColorIgnoresCase(status: string)
    ensures FeedbackColor(Some(status)) == FeedbackColor(Some(AsciiLower(status)))
  {
    AsciiLowerIdempotent(status);
    assert status == "" <==> AsciiLower(status) == "";
  }

  // ----- Paragraph sections -----

  /** The textarea's text: `section.items[0] || ''`; a record item shows as `[object Object]`. */
  function ParagraphText(items: seq<RC.Item>): string
  {
    if |items| == 0 then ""
    else match items[0]
      case Str(t) => t
      case Obj(_) => "[object Object]"
  }

  /**
   * A paragraph edit: append the text when the section (as the form saw it)
   * has no items, otherwise replace item 0 with the bare text.
   */
  function ParagraphEdit(d: RC.Resume, s: RC.Section, text: string): RC.Resume
    requires |s.items| > 0 ==> RC.IndexInRange(d.sections, s.id, 0)
  {
    if |s.items| == 0 then RC.AddItemToSection(d, s.id, RC.Str(text))
    else RC.UpdateSectionItem(d, s.id, 0, None, text)
  }

  /**
   * Editing a paragraph section shows the typed text back, and the section
   * ends up with one item if it had none and otherwise keeps its count, so a
   * section only ever edited this way never holds more than one item.
   */
  lemma ParagraphEditRoundTrip(d: RC.Resume, k: nat, text: string)
    requires k < |d.sections|
    requires |d.sections[k].items| > 0 ==> RC.IndexInRange(d.sections, d.sections[k].id, 0)
    ensures var s := d.sections[k];
      var after := ParagraphEdit(d, s, text).sections[k];
      && |after.items| == (if |s.items| == 0 then 1 else |s.items|)
      && after.items[0] == RC.Str(text)
      && ParagraphText(after.items) == text
      && RC.SameHeader(after, s)
  {
    var s := d.sections[k];
    var r := ParagraphEdit(d, s, text);
    if |s.items| == 0 {
      assert r.sections[k].items == s.items + [RC.Str(text)];
    } else {
      assert r.sections[k].items[0] == RC.WriteItem(s.items[0], None, text);
    }
  }

  /** The paragraph write path on the store: it picks the append or the replace call. */
  method EditParagraph(store: RP.Store, s: RC.Section, text: string)
    requires |s.items| > 0 ==> RC.IndexInRange(store.resume.sections, s.id, 0)
    modifies store`resume
    ensures store.resume == ParagraphEdit(old(store.resume), s, text)
  {
    if |s.items| == 0 {
      store.AddItemToSection(s.id, RC.Str(text));
    } else {
      store.UpdateSectionItem(s.id, 0, None, text);
    }
  }

  // ----- List and skills items -----

  /** The list input's text: `typeof item === 'string' ? item : item.text || ''`. */
  function ListText(item: RC.Item): string
  {
    match item
    case Str(t) => t
    case Obj(_) => OrElse(TV.Get(item, "text"), None)
  }

  /** A list or skills edit writes the bare string, with no field. */
  function ListEdit(d: RC.Resume, id: string, index: int, text: string): RC.Resume
    requires RC.IndexInRange(d.sections, id, index)
  {
    RC.UpdateSectionItem(d, id, index, None, text)
  }

  /**
   * After a list edit the item is the typed string, whatever it was before,
   * and the editor and every template show the same text for it.
   */
  lemma ListEditRoundTrip(d: RC.Resume, k: nat, index: nat, text: string)
    requires k < |d.sections| && index < |d.sections[k].items|
    requires RC.IndexInRange(d.sections, d.sections[k].id, index)
    ensures var after := ListEdit(d, d.sections[k].id, index, text).sections[k];
      && |after.items| == |d.sections[k].items|
      && after.items[index] == RC.Str(text)
      && ListText(after.items[index]) == text
      && TV.Label(after.items[index]) == text
  {
    var r := ListEdit(d, d.sections[k].id, index, text);
    assert r.sections[k].items[index] == RC.WriteItem(d.sections[k].items[index], None, text);
  }

  /**
   * The editor and the templates read record items differently: a `{name}`
   * record shows its name in a template but an empty input in the editor.
   */
  lemma NamedRecordReadsDiffer(name: string)
    requires name != ""
    ensures ListText(RC.Obj(map["name" := name])) == ""
    ensures TV.Label(RC.Obj(map["name" := name])) == name
  {
    assert "text" !in map["name" := name];
  }

  // ----- Add buttons and custom fields -----

  /** The item an "Add" button inserts: an empty record for experience and education, "New Item" for lists and skills. */
  function AddButtonItem(kind: string): (r: Option<RC.Item>)
    ensures r.Some? <==> TV.ShowsEntries(kind) || TV.ShowsLabels(kind)
    ensures TV.ShowsEntries(kind) ==> r == Some(RC.Obj(map[]))
    ensures TV.ShowsLabels(kind) ==> r == Some(RC.Str("New Item"))
  {
    if kind == "experience" || kind == "education" then Some(RC.Obj(map[]))
    else if kind == "list" || kind == "skills" then Some(RC.Str("New Item"))
    else None
  }

  /**
   * A freshly added item shows in every template as a blank row for
   * experience and education, and as "New Item" for lists and skills.
   */
  lemma AddedItemRenders(d: RC.Resume, k: nat)
    requires k < |d.sections| && AddButtonItem(d.sections[k].kind).Some?
    ensures var s := d.sections[k];
      var after := RC.AddItemToSection(d, s.id, AddButtonItem(s.kind).value).sections[k];
      var shown := TV.RenderItems(after);
      && |after.items| == |s.items| + 1
      && (TV.ShowsEntries(s.kind) ==> shown.Entries? && shown.rows[|s.items|] == TV.Entry("", "", "", ""))
      && (TV.ShowsLabels(s.kind) ==> shown.Labels? && shown.labels[|s.items|] == "New Item")
  {
    var s := d.sections[k];
    var after := RC.AddItemToSection(d, s.id, AddButtonItem(s.kind).value).sections[k];
    assert after.items == s.items + [AddButtonItem(s.kind).value];
    assert after.kind == s.kind;
    assert after.items[|s.items|] == AddButtonItem(s.kind).value;
  }

  /** `handleAddCustomField`: a non-empty answer to the prompt adds that key with the text "Value". */
  function AddCustomField(d: RC.Resume, id: string, index: int, key: Option<string>): RC.Resume
    requires Truthy(key) ==> RC.IndexInRange(d.sections, id, index)
  {
    if Truthy(key) then RC.UpdateSectionItem(d, id, index, key, "Value") else d
  }

  /**
   * A custom field lands in the item with the value "Value", every other key
   * stays; a cancelled or empty prompt changes nothing.
   */
  lemma CustomFieldAdded(d: RC.Resume, k: nat, index: nat, key: Option<string>)
    requires k < |d.sections| && index < |d.sections[k].items|
    requires Truthy(key) ==> RC.IndexInRange(d.sections, d.sections[k].id, index)
    ensures !Truthy(key) ==> AddCustomField(d, d.sections[k].id, index, key) == d
    ensures Truthy(key) ==>
      var item := AddCustomField(d, d.sections[k].id, index, key).sections[k].items[index];
      && item.Obj? && key.value in item.fields && item.fields[key.value] == "Value"
      && forall f :: f != key.value && f in RC.Spread(d.sections[k].items[index]) ==>
           f in item.fields && item.fields[f] == RC.Spread(d.sections[k].items[index])[f]
  {
    if Truthy(key) {
      var r := AddCustomField(d, d.sections[k].id, index, key);
      assert r.sections[k].items[index] == RC.WriteItem(d.sections[k].items[index], key, "Value");
    }
  }
}
