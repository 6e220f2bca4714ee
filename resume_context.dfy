/**
 * The résumé document store (client/src/context/ResumeContext.js): the
 * document with its personal details, summary and ordered sections of items,
 * the separate cover-letter record, the purpose presets, and every store
 * operation as a pure `before -> after` transform, the way the provider applies
 * them through `setResumeData(prev => ...)` and `setCoverLetterData(prev => ...)`.
 */
module ResumeContext {
  import opened Wrappers
  import opened Seqs
  import opened Strings

  /**
   * One entry of a section: a bare string (skills, list and paragraph text) or
   * a flat record (experience and education entries). An item does not say
   * which shape it has; the owning section's kind decides how it is read.
   */
  datatype Item = Str(text: string) | Obj(fields: map<string, string>)

  /** A section; `kind` is the source's `type` field, `column` is unset (None) or a placement hint. */
  datatype Section = Section(id: string, kind: string, title: string, column: Option<string>, items: seq<Item>)

  /** A personal-details value: null, a text, or the photo-quality feedback record. */
  datatype InfoValue = Null | Text(text: string) | Feedback(score: int, status: Option<string>, feedback: string)

  /**
   * `resumeData`. `meta` holds the top-level keys other than `personalInfo`,
   * `summary` and `sections` that a call to `updateMeta` may add.
   */
  datatype Resume = Resume(
    personalInfo: map<string, InfoValue>,
    summary: string,
    meta: map<string, string>,
    sections: seq<Section>)

  /** `coverLetterData`: a flat record of text fields. */
  type CoverLetter = map<string, string>

  // ----- Section ids -----

  function Ids(ss: seq<Section>): (r: seq<string>)
    ensures |r| == |ss|
    ensures forall k :: 0 <= k < |ss| ==> r[k] == ss[k].id
  {
    seq(|ss|, k requires 0 <= k < |ss| => ss[k].id)
  }

  predicate IdsDistinct(ss: seq<Section>)
  {
    forall i, j :: 0 <= i < j < |ss| ==> ss[i].id != ss[j].id
  }

  /** Everything but the section list is as it was. */
  predicate OnlySectionsChanged(before: Resume, after: Resume)
  {
    && after.personalInfo == before.personalInfo
    && after.summary == before.summary
    && after.meta == before.meta
  }

  /** Two sections agree on everything but their items. */
  predicate SameHeader(a: Section, b: Section)
  {
    a.id == b.id && a.kind == b.kind && a.title == b.title && a.column == b.column
  }

  /** `after` is `before` with `key` set to `value` and every other key as it was. */
  ghost predicate OnlyKeyChanged<V>(before: map<string, V>, after: map<string, V>, key: string, value: V)
  {
    && key in after && after[key] == value
    && forall k :: k != key ==> (k in after <==> k in before) && (k in before ==> after[k] == before[k])
  }

  // ----- Presets and initial state -----

  function Preset(id: string, kind: string, title: string, column: string): Section
  {
    Section(id, kind, title, Some(column), [])
  }

  const JobPreset: seq<Section> := [
    Preset("exp", "experience", "Work Experience", "main"),
    Preset("edu", "education", "Education", "main"),
    Preset("skills", "skills", "Skills", "sidebar")
  ]

  const ScholarshipPreset: seq<Section> := [
    Preset("edu", "education", "Education", "main"),
    Preset("awards", "list", "Awards & Honors", "main"),
    Preset("research", "list", "Research Experience", "main")
  ]

  const CreativePreset: seq<Section> := [
    Preset("portfolio", "list", "Portfolio Projects", "main"),
    Preset("skills", "skills", "Technical Skills", "sidebar"),
    Preset("exp", "experience", "Experience", "main")
  ]

  const CvPreset: seq<Section> := [
    Preset("edu", "education", "Education", "main"),
    Preset("research", "list", "Research Experience", "main"),
    Preset("publications", "list", "Publications", "main"),
    Preset("grants", "list", "Grants & Awards", "sidebar"),
    Preset("teaching", "experience", "Teaching Experience", "main")
  ]

  /** `INITIAL_SECTIONS[purpose]`, None for a purpose that has no preset. */
  function PurposePreset(purpose: string): (r: Option<seq<Section>>)
    ensures r.Some? <==> purpose in {"job", "scholarship", "creative", "cv"}
  {
    if purpose == "job" then Some(JobPreset)
    else if purpose == "scholarship" then Some(ScholarshipPreset)
    else if purpose == "creative" then Some(CreativePreset)
    else if purpose == "cv" then Some(CvPreset)
    else None
  }

  /**
   * Every preset section starts empty and in a column, with an id that starts
   * with a letter and so never equals a clock-reading id.
   */
  predicate FreshPreset(ss: seq<Section>)
  {
    && IdsDistinct(ss)
    && forall s :: s in ss ==> s.items == [] && s.column.Some? && |s.id| > 0 && !('0' <= s.id[0] <= '9')
  }

  lemma PresetsAreFresh()
    ensures FreshPreset(JobPreset) && FreshPreset(ScholarshipPreset)
    ensures FreshPreset(CreativePreset) && FreshPreset(CvPreset)
  {
    PresetFresh(JobPreset);
    PresetFresh(ScholarshipPreset);
    PresetFresh(CreativePreset);
    PresetFresh(CvPreset);
  }

  /** Checks a preset pair by pair. */
  lemma PresetFresh(ss: seq<Section>)
    requires forall k :: 0 <= k < |ss| ==> ss[k].items == [] && ss[k].column.Some? && |ss[k].id| > 0 && 'a' <= ss[k].id[0] <= 'z'
    requires forall i, j :: 0 <= i < j < |ss| ==> ss[i].id[0] != ss[j].id[0] || ss[i].id[1..] != ss[j].id[1..]
    ensures FreshPreset(ss)
  {
    forall i, j | 0 <= i < j < |ss| ensures ss[i].id != ss[j].id {
      assert ss[i].id[0] != ss[j].id[0] || ss[i].id[1..] != ss[j].id[1..];
    }
  }

  function InitialPersonalInfo(): map<string, InfoValue>
  {
    map["fullName" := Text(""), "email" := Text(""), "phone" := Text(""), "linkedin" := Text(""),
        "role" := Text(""), "location" := Text(""), "photo" := Null, "photoFeedback" := Null]
  }

  /** The document a session starts with: blank details and the job preset. */
  function InitialResume(): (r: Resume)
    ensures r.summary == "" && r.meta == map[] && r.sections == JobPreset
    ensures forall k :: k in r.personalInfo ==> r.personalInfo[k] in {Text(""), Null}
  {
    Resume(InitialPersonalInfo(), "", map[], JobPreset)
  }

  /** The cover letter a session starts with: blank except for the greeting and the sign-off. */
  function InitialCoverLetter(): (c: CoverLetter)
    ensures "greeting" in c && c["greeting"] == "Dear Hiring Manager,"
    ensures "signOff" in c && c["signOff"] == "Sincerely,"
    ensures forall k :: k in c && k != "greeting" && k != "signOff" ==> c[k] == ""
  {
    map["recipientName" := "", "recipientTitle" := "", "companyName" := "", "companyAddress" := "",
        "greeting" := "Dear Hiring Manager,", "body" := "", "signOff" := "Sincerely,"]
  }

  // ----- Record-field updates -----

  /** `updateCoverLetter(field, value)`. */
  function UpdateCoverLetter(c: CoverLetter, field: string, value: string): (r: CoverLetter)
    ensures OnlyKeyChanged(c, r, field, value)
  {
    c[field := value]
  }

  /**
   * `loadPurposeConfig(purpose)`: the purpose's preset replaces the sections,
   * the job preset when the purpose has none; the rest of the document stays.
   */
  function LoadPurposeConfig(d: Resume, purpose: string): (r: Resume)
    ensures OnlySectionsChanged(d, r)
    ensures PurposePreset(purpose).Some? ==> r.sections == PurposePreset(purpose).value
    ensures PurposePreset(purpose).None? ==> r.sections == JobPreset
    ensures FreshPreset(r.sections)
  {
    PresetsAreFresh();
    var ss := match PurposePreset(purpose) case Some(p) => p case None => JobPreset;
    d.(sections := ss)
  }

  /**
   * `updateMeta(field, value)`: sets one top-level text field. The source
   * would also let `personalInfo` or `sections` be overwritten by a string;
   * the only caller sets `summary`.
   */
  function UpdateMeta(d: Resume, field: string, value: string): (r: Resume)
    requires field != "personalInfo" && field != "sections"
    ensures r.personalInfo == d.personalInfo && r.sections == d.sections
    ensures field == "summary" ==> r.summary == value && r.meta == d.meta
    ensures field != "summary" ==> r.summary == d.summary && OnlyKeyChanged(d.meta, r.meta, field, value)
  {
    if field == "summary" then d.(summary := value) else d.(meta := d.meta[field := value])
  }

  /** `updatePersonalInfo(field, value)`. */
  function UpdatePersonalInfo(d: Resume, field: string, value: InfoValue): (r: Resume)
    ensures r.summary == d.summary && r.meta == d.meta && r.sections == d.sections
    ensures OnlyKeyChanged(d.personalInfo, r.personalInfo, field, value)
  {
    d.(personalInfo := d.personalInfo[field := value])
  }

  // ----- Section list operations -----

  /** `sections.map(s => s.id === id ? f(s) : s)`. */
  function MapById(ss: seq<Section>, id: string, f: Section -> Section): (r: seq<Section>)
    ensures |r| == |ss|
    ensures forall k :: 0 <= k < |ss| ==> r[k] == if ss[k].id == id then f(ss[k]) else ss[k]
  {
    seq(|ss|, k requires 0 <= k < |ss| => if ss[k].id == id then f(ss[k]) else ss[k])
  }

  /** The section `addSection` creates: its id is the clock reading `Date.now()` in decimal, and it has no column. */
  function NewSection(now: nat, title: string, kind: string): Section
  {
    Section(NatToString(now), kind, title, None, [])
  }

  /** `addSection(title, type)` with `now` standing for `Date.now()`. */
  function AddSection(d: Resume, now: nat, title: string, kind: string): (r: Resume)
    ensures OnlySectionsChanged(d, r)
    ensures |r.sections| == |d.sections| + 1
    ensures r.sections[..|d.sections|] == d.sections
    ensures var s := r.sections[|d.sections|];
            s.id == NatToString(now) && s.kind == kind && s.title == title && s.column == None && s.items == []
  {
    d.(sections := d.sections + [NewSection(now, title, kind)])
  }

  /** `removeSection(id)`: drops every section with that id and keeps the others in order. */
  function RemoveSection(d: Resume, id: string): (r: Resume)
    ensures OnlySectionsChanged(d, r)
    ensures forall s :: s in r.sections <==> s in d.sections && s.id != id
    ensures IsSubseq(r.sections, d.sections)
    ensures forall s :: multiset(r.sections)[s] == if s.id != id then multiset(d.sections)[s] else 0
  {
    var keep := (s: Section) => s.id != id;
    FilterCounts(keep, d.sections);
    FilterMembers(keep, d.sections);
    FilterIsSubseq(keep, d.sections);
    d.(sections := Filter(keep, d.sections))
  }

  /** `addItemToSection(id, item)`: appends the item to the section(s) with that id. */
  function AddItemToSection(d: Resume, id: string, item: Item): (r: Resume)
    ensures OnlySectionsChanged(d, r)
    ensures |r.sections| == |d.sections|
    ensures forall k :: 0 <= k < |d.sections| ==> SameHeader(r.sections[k], d.sections[k])
    ensures forall k :: 0 <= k < |d.sections| ==>
              r.sections[k].items == if d.sections[k].id == id then d.sections[k].items + [item] else d.sections[k].items
  {
    d.(sections := MapById(d.sections, id, (s: Section) => s.(items := s.items + [item])))
  }

  /** `updateSectionTitle(id, title)`. */
  function UpdateSectionTitle(d: Resume, id: string, title: string): (r: Resume)
    ensures OnlySectionsChanged(d, r)
    ensures |r.sections| == |d.sections|
    ensures forall k :: 0 <= k < |d.sections| ==>
              var a, b := d.sections[k], r.sections[k];
              && b.id == a.id && b.kind == a.kind && b.column == a.column && b.items == a.items
              && b.title == if a.id == id then title else a.title
  {
    d.(sections := MapById(d.sections, id, (s: Section) => s.(title := title)))
  }

  /** `updateSectionType(id, type)`: the items keep whatever shape they had. */
  function UpdateSectionType(d: Resume, id: string, kind: string): (r: Resume)
    ensures OnlySectionsChanged(d, r)
    ensures |r.sections| == |d.sections|
    ensures forall k :: 0 <= k < |d.sections| ==>
              var a, b := d.sections[k], r.sections[k];
              && b.id == a.id && b.title == a.title && b.column == a.column && b.items == a.items
              && b.kind == if a.id == id then kind else a.kind
  {
    d.(sections := MapById(d.sections, id, (s: Section) => s.(kind := kind)))
  }

  /** `updateSectionColumn(id, column)`. */
  function UpdateSectionColumn(d: Resume, id: string, column: Option<string>): (r: Resume)
    ensures OnlySectionsChanged(d, r)
    ensures |r.sections| == |d.sections|
    ensures forall k :: 0 <= k < |d.sections| ==>
              var a, b := d.sections[k], r.sections[k];
              && b.id == a.id && b.kind == a.kind && b.title == a.title && b.items == a.items
              && b.column == if a.id == id then column else a.column
  {
    d.(sections := MapById(d.sections, id, (s: Section) => s.(column := column)))
  }

  /** `reorderSections(newSections)`: takes the caller's list as it is, without checking it. */
  function ReorderSections(d: Resume, newSections: seq<Section>): (r: Resume)
    ensures OnlySectionsChanged(d, r)
    ensures r.sections == newSections
  {
    d.(sections := newSections)
  }

  // ----- Item operations -----

  /** `{ ...item }`: an object's own keys, or a string's characters under the keys "0", "1", .... */
  function Spread(item: Item): (r: map<string, string>)
    ensures item.Obj? ==> r == item.fields
    ensures item.Str? ==> r.Keys == IndexKeys(|item.text|)
  {
    match item
    case Obj(m) => m
    case Str(s) => SpreadCharsKeys(s); SpreadChars(s)
  }

  /** The characters of `s` under the decimal keys "0", "1", ..., "|s| - 1". */
  function SpreadChars(s: string): map<string, string>
    decreases |s|
  {
    if s == [] then map[] else SpreadChars(s[..|s| - 1])[NatToString(|s| - 1) := [s[|s| - 1]]]
  }

  /** Spreading a string puts its i-th character under the key `i`. */
  lemma {:induction false} SpreadCharsAt(s: string, i: nat)
    requires i < |s|
    ensures NatToString(i) in SpreadChars(s)
    ensures SpreadChars(s)[NatToString(i)] == [s[i]]
    decreases |s|
  {
    var n := |s| - 1;
    var init := SpreadChars(s[..n]);
    var ki, kn := NatToString(i), NatToString(n);
    assert SpreadChars(s) == init[kn := [s[n]]];
    if i < n {
      SpreadCharsAt(s[..n], i);
      assert ki in init && init[ki] == [s[..n][i]];
      NatToStringInjective(i, n);
      assert ki != kn;
    }
  }

  /** The decimal keys "0" ... "n - 1". */
  function IndexKeys(n: nat): (r: set<string>)
    ensures forall i: nat :: i < n ==> NatToString(i) in r
  {
    if n == 0 then {} else IndexKeys(n - 1) + {NatToString(n - 1)}
  }

  /** Every key in `IndexKeys(n)` is the decimal form of a number below `n`. */
  lemma {:induction false} IndexKeysOnly(n: nat, k: string)
    requires k in IndexKeys(n)
    ensures exists i: nat :: i < n && k == NatToString(i)
  {
    if n > 0 {
      var last: nat := n - 1;
      if k == NatToString(last) {
        assert last < n;
      } else {
        IndexKeysOnly(last, k);
      }
    }
  }

  /** A spread string has exactly the keys "0" ... "|s| - 1". */
  lemma {:induction false} SpreadCharsKeys(s: string)
    ensures SpreadChars(s).Keys == IndexKeys(|s|)
    decreases |s|
  {
    if s != [] {
      var n := |s| - 1;
      SpreadCharsKeys(s[..n]);
      assert SpreadChars(s).Keys == SpreadChars(s[..n]).Keys + {NatToString(n)};
    }
  }

  /**
   * One slot of `updateSectionItem`: with no field (null, undefined or "") the
   * value replaces the item; with a field, `{ ...item, [field]: value }`.
   */
  function WriteItem(item: Item, field: Option<string>, value: string): (r: Item)
    ensures !Truthy(field) ==> r == Str(value)
    ensures Truthy(field) ==> r.Obj? && OnlyKeyChanged(Spread(item), r.fields, field.value, value)
  {
    if !Truthy(field) then Str(value) else Obj(Spread(item)[field.value := value])
  }

  /**
   * `newItems[index] = ...` on a copy of the items. A negative index only sets
   * a non-element property of the JS array, so the item list is unchanged.
   */
  function SetItem(items: seq<Item>, index: int, field: Option<string>, value: string): (r: seq<Item>)
    requires index < |items|
    ensures |r| == |items|
    ensures forall j :: 0 <= j < |items| && j != index ==> r[j] == items[j]
    ensures 0 <= index ==> r[index] == WriteItem(items[index], field, value)
  {
    if index < 0 then items else items[index := WriteItem(items[index], field, value)]
  }

  /** Every section carrying `id` has an item at `index` (or the index is negative). */
  predicate IndexInRange(ss: seq<Section>, id: string, index: int)
  {
    forall k :: 0 <= k < |ss| && ss[k].id == id ==> index < |ss[k].items|
  }

  /** `updateSectionItem(id, index, field, value)`. */
  function UpdateSectionItem(d: Resume, id: string, index: int, field: Option<string>, value: string): (r: Resume)
    requires IndexInRange(d.sections, id, index)
    ensures OnlySectionsChanged(d, r)
    ensures |r.sections| == |d.sections|
    ensures forall k :: 0 <= k < |d.sections| ==>
              SameHeader(r.sections[k], d.sections[k]) && |r.sections[k].items| == |d.sections[k].items|
    ensures forall k :: 0 <= k < |d.sections| && d.sections[k].id != id ==> r.sections[k] == d.sections[k]
    ensures forall k, j :: 0 <= k < |d.sections| && 0 <= j < |d.sections[k].items| && j != index ==>
              r.sections[k].items[j] == d.sections[k].items[j]
    ensures forall k :: 0 <= k < |d.sections| && d.sections[k].id == id && 0 <= index ==>
              r.sections[k].items[index] == WriteItem(d.sections[k].items[index], field, value)
  {
    var ss := d.sections;
    d.(sections := seq(|ss|, k requires 0 <= k < |ss| =>
      if ss[k].id == id then ss[k].(items := SetItem(ss[k].items, index, field, value)) else ss[k]))
  }

  /** `items.filter((_, i) => i !== index)`: removes the item at `index`, or nothing when it is out of range. */
  function RemoveItemAt(items: seq<Item>, index: int): (r: seq<Item>)
    ensures 0 <= index < |items| ==> r == items[..index] + items[index + 1..]
    ensures !(0 <= index < |items|) ==> r == items
  {
    DropIndexSlices(items, index, 0);
    DropIndex(items, index, 0)
  }

  /** `removeSectionItem(id, index)`. */
  function RemoveSectionItem(d: Resume, id: string, index: int): (r: Resume)
    ensures OnlySectionsChanged(d, r)
    ensures |r.sections| == |d.sections|
    ensures forall k :: 0 <= k < |d.sections| ==> SameHeader(r.sections[k], d.sections[k])
    ensures forall k :: 0 <= k < |d.sections| && d.sections[k].id != id ==> r.sections[k] == d.sections[k]
    ensures forall k :: 0 <= k < |d.sections| && d.sections[k].id == id ==>
              var items := d.sections[k].items;
              r.sections[k].items == if 0 <= index < |items| then items[..index] + items[index + 1..] else items
  {
    d.(sections := MapById(d.sections, id, (s: Section) => s.(items := RemoveItemAt(s.items, index))))
  }

  // ----- Properties relating several operations -----

  /** No preset section id can clash with a clock-reading id. */
  lemma PresetIdsAreNotTimestamps(d: Resume, purpose: string, now: nat)
    ensures NatToString(now) !in Ids(LoadPurposeConfig(d, purpose).sections)
  {
    var ss := LoadPurposeConfig(d, purpose).sections;
    var id := NatToString(now);
    assert id[0] in id;
    assert Absent(ss, id) by {
      forall k | 0 <= k < |ss| ensures ss[k].id != id {
        assert ss[k] in ss;
      }
    }
    AbsentIff(ss, id);
  }

  /** No section carries `id`. */
  predicate Absent(ss: seq<Section>, id: string)
  {
    forall k :: 0 <= k < |ss| ==> ss[k].id != id
  }

  lemma AbsentIff(ss: seq<Section>, id: string)
    ensures Absent(ss, id) <==> id !in Ids(ss)
  {
    if !Absent(ss, id) {
      var k :| 0 <= k < |ss| && ss[k].id == id;
      assert Ids(ss)[k] == id;
    }
  }

  lemma MapByAbsentId(ss: seq<Section>, id: string, f: Section -> Section)
    requires Absent(ss, id)
    ensures MapById(ss, id, f) == ss
  {
  }

  /** A missing section id leaves the whole document as it was, for every id-addressed operation. */
  lemma MissingIdIsNoop(d: Resume, id: string, item: Item, title: string, kind: string, column: Option<string>, index: int)
    requires id !in Ids(d.sections)
    ensures RemoveSection(d, id) == d
    ensures AddItemToSection(d, id, item) == d
    ensures UpdateSectionTitle(d, id, title) == d
    ensures UpdateSectionType(d, id, kind) == d
    ensures UpdateSectionColumn(d, id, column) == d
    ensures RemoveSectionItem(d, id, index) == d
  {
    AbsentIff(d.sections, id);
    var keep := (s: Section) => s.id != id;
    assert forall s :: s in d.sections ==> keep(s);
    FilterKeepsAll(keep, d.sections);
    assert RemoveSection(d, id).sections == Filter(keep, d.sections);
    MapByAbsentId(d.sections, id, (s: Section) => s.(items := s.items + [item]));
    MapByAbsentId(d.sections, id, (s: Section) => s.(title := title));
    MapByAbsentId(d.sections, id, (s: Section) => s.(kind := kind));
    MapByAbsentId(d.sections, id, (s: Section) => s.(column := column));
    MapByAbsentId(d.sections, id, (s: Section) => s.(items := RemoveItemAt(s.items, index)));
  }

  /** With a missing id `updateSectionItem` changes nothing, whatever the index. */
  lemma UpdateItemMissingIdIsNoop(d: Resume, id: string, index: int, field: Option<string>, value: string)
    requires id !in Ids(d.sections)
    ensures IndexInRange(d.sections, id, index)
    ensures UpdateSectionItem(d, id, index, field, value) == d
  {
    AbsentIff(d.sections, id);
  }

  /** Filtering a list of sections with distinct ids leaves the ids distinct. */
  lemma {:induction false} FilterKeepsIdsDistinct(p: Section -> bool, ss: seq<Section>)
    requires IdsDistinct(ss)
    ensures IdsDistinct(Filter(p, ss))
    decreases |ss|
  {
    if ss != [] {
      var rest := ss[1..];
      assert IdsDistinct(rest) by {
        forall i, j | 0 <= i < j < |rest| ensures rest[i].id != rest[j].id {
          assert rest[i] == ss[i + 1] && rest[j] == ss[j + 1];
        }
      }
      FilterKeepsIdsDistinct(p, rest);
      if p(ss[0]) {
        var r := Filter(p, ss);
        var t := Filter(p, rest);
        assert r == [ss[0]] + t;
        forall i, j | 0 <= i < j < |r| ensures r[i].id != r[j].id {
          if i == 0 {
            assert r[j] == t[j - 1];
            assert t[j - 1] in rest;
            var m :| 0 <= m < |rest| && rest[m] == t[j - 1];
            assert rest[m] == ss[m + 1];
          } else {
            assert r[i] == t[i - 1] && r[j] == t[j - 1];
          }
        }
      }
    }
  }

  /**
   * Removing a present id from a list with distinct ids removes exactly one
   * section, and the ids stay distinct.
   */
  lemma {:induction false} RemoveSectionCount(d: Resume, id: string)
    requires IdsDistinct(d.sections)
    ensures IdsDistinct(RemoveSection(d, id).sections)
    ensures id in Ids(d.sections) ==> |RemoveSection(d, id).sections| == |d.sections| - 1
    ensures id !in Ids(d.sections) ==> RemoveSection(d, id) == d
    decreases |d.sections|
  {
    var keep := (s: Section) => s.id != id;
    FilterKeepsIdsDistinct(keep, d.sections);
    if id !in Ids(d.sections) {
      MissingIdIsNoop(d, id, Str(""), "", "", None, 0);
    } else {
      var ss := d.sections;
      var rest := ss[1..];
      assert Ids(rest) == Ids(ss)[1..];
      if ss[0].id == id {
        assert forall s :: s in rest ==> keep(s) by {
          forall s | s in rest ensures keep(s) {
            var m :| 0 <= m < |rest| && rest[m] == s;
            assert rest[m] == ss[m + 1];
          }
        }
        FilterKeepsAll(keep, rest);
      } else {
        assert IdsDistinct(rest) by {
          forall i, j | 0 <= i < j < |rest| ensures rest[i].id != rest[j].id {
            assert rest[i] == ss[i + 1] && rest[j] == ss[j + 1];
          }
        }
        RemoveSectionCount(d.(sections := rest), id);
      }
    }
  }

  /** Adding a section whose clock-reading id is not in use keeps the ids distinct. */
  lemma AddSectionKeepsIdsDistinct(d: Resume, now: nat, title: string, kind: string)
    requires IdsDistinct(d.sections)
    requires NatToString(now) !in Ids(d.sections)
    ensures IdsDistinct(AddSection(d, now, title, kind).sections)
  {
    var ss := AddSection(d, now, title, kind).sections;
    forall i, j | 0 <= i < j < |ss| ensures ss[i].id != ss[j].id {
      if j == |d.sections| {
        assert ss[i] == d.sections[i];
        assert Ids(d.sections)[i] == d.sections[i].id;
      } else {
        assert ss[i] == d.sections[i] && ss[j] == d.sections[j];
      }
    }
  }

  /** Two sections added at different clock readings get different ids. */
  lemma AddSectionsAtDistinctTimes(d: Resume, t1: nat, t2: nat, title1: string, kind1: string, title2: string, kind2: string)
    requires IdsDistinct(d.sections)
    requires NatToString(t1) !in Ids(d.sections) && NatToString(t2) !in Ids(d.sections)
    requires t1 != t2
    ensures IdsDistinct(AddSection(AddSection(d, t1, title1, kind1), t2, title2, kind2).sections)
  {
    var d1 := AddSection(d, t1, title1, kind1);
    AddSectionKeepsIdsDistinct(d, t1, title1, kind1);
    NatToStringInjective(t1, t2);
    AbsentIff(d.sections, NatToString(t2));
    assert Absent(d1.sections, NatToString(t2)) by {
      forall k | 0 <= k < |d1.sections| ensures d1.sections[k].id != NatToString(t2) {
        if k < |d.sections| {
          assert d1.sections[k] == d.sections[k];
        }
      }
    }
    AbsentIff(d1.sections, NatToString(t2));
    AddSectionKeepsIdsDistinct(d1, t2, title2, kind2);
  }

  /** Two sections added within the same clock reading share an id: `addSection` does not guarantee uniqueness. */
  lemma AddSectionsInSameMillisecond(d: Resume, now: nat, title1: string, kind1: string, title2: string, kind2: string)
    ensures !IdsDistinct(AddSection(AddSection(d, now, title1, kind1), now, title2, kind2).sections)
  {
    var ss := AddSection(AddSection(d, now, title1, kind1), now, title2, kind2).sections;
    var n := |d.sections|;
    assert ss[n] == AddSection(d, now, title1, kind1).sections[n];
    assert ss[n].id == ss[n + 1].id;
  }

  /** Removing the item just appended undoes the append, when ids are distinct. */
  lemma AppendThenRemoveIsIdentity(d: Resume, k: nat, item: Item)
    requires IdsDistinct(d.sections) && k < |d.sections|
    ensures var id := d.sections[k].id;
      RemoveSectionItem(AddItemToSection(d, id, item), id, |d.sections[k].items|) == d
  {
    var id, n := d.sections[k].id, |d.sections[k].items|;
    var a := AddItemToSection(d, id, item);
    var r := RemoveSectionItem(a, id, n);
    forall j | 0 <= j < |d.sections|
      ensures r.sections[j] == d.sections[j]
    {
      if j == k {
        var its := a.sections[k].items;
        assert its == d.sections[k].items + [item];
        assert its[..n] + its[n + 1..] == d.sections[k].items;
      } else if j < k {
        assert d.sections[j].id != id;
      } else {
        assert d.sections[k].id != d.sections[j].id;
      }
    }
    assert r.sections == d.sections;
  }

  /** Changing a section's kind never reshapes its items: they are exactly the items it had. */
  lemma RetypeKeepsItems(d: Resume, id: string, kind: string, k: nat)
    requires k < |d.sections|
    ensures UpdateSectionType(d, id, kind).sections[k].items == d.sections[k].items
    ensures d.sections[k].id == id ==> UpdateSectionType(d, id, kind).sections[k].kind == kind
  {
  }

  /** Merging a field into an object item keeps every other key and the item count. */
  lemma MergeKeepsOtherKeys(d: Resume, id: string, k: nat, index: nat, field: string, value: string)
    requires k < |d.sections| && d.sections[k].id == id
    requires IndexInRange(d.sections, id, index)
    requires field != "" && d.sections[k].items[index].Obj?
    ensures var before := d.sections[k].items[index].fields;
            var after := UpdateSectionItem(d, id, index, Some(field), value).sections[k].items[index];
            && |UpdateSectionItem(d, id, index, Some(field), value).sections[k].items| == |d.sections[k].items|
            && after.Obj? && after.fields.Keys == before.Keys + {field}
            && after.fields[field] == value
            && forall key :: key in before && key != field ==> after.fields[key] == before[key]
  {
    var before := d.sections[k].items[index].fields;
    var after := UpdateSectionItem(d, id, index, Some(field), value).sections[k].items[index];
    assert after == WriteItem(d.sections[k].items[index], Some(field), value);
    assert after.fields == before[field := value];
  }

  /** Merging into a string item spreads the string: its i-th character lands under the key `i`, and there are no other keys. */
  lemma MergeIntoStringItem(s: string, field: string, value: string)
    requires field != ""
    ensures var r := WriteItem(Str(s), Some(field), value);
            && r.Obj?
            && r.fields.Keys == IndexKeys(|s|) + {field}
            && r.fields[field] == value
            && forall i: nat :: i < |s| && NatToString(i) != field ==> r.fields[NatToString(i)] == [s[i]]
  {
    var r := WriteItem(Str(s), Some(field), value);
    assert r.fields == SpreadChars(s)[field := value];
    SpreadCharsKeys(s);
    forall i: nat | i < |s| && NatToString(i) != field
      ensures r.fields[NatToString(i)] == [s[i]]
    {
      SpreadCharsAt(s, i);
    }
  }
}

/** The provider's state cells; each operation replaces one cell wholesale with the transform's result. */
module ResumeProvider {
  import opened Wrappers
  import RC = ResumeContext

  class Store {
    var purpose: string
    var jobDescription: string
    var selectedDesign: string
    var activeDocument: string
    var coverLetter: RC.CoverLetter
    var resume: RC.Resume

    constructor ()
      ensures purpose == "job" && jobDescription == "" && selectedDesign == "modern" && activeDocument == "resume"
      ensures coverLetter == RC.InitialCoverLetter() && resume == RC.InitialResume()
    {
      purpose := "job";
      jobDescription := "";
      selectedDesign := "modern";
      activeDocument := "resume";
      coverLetter := RC.InitialCoverLetter();
      resume := RC.InitialResume();
    }

    method UpdateCoverLetter(field: string, value: string)
      modifies this`coverLetter
      ensures coverLetter == RC.UpdateCoverLetter(old(coverLetter), field, value)
    {
      coverLetter := RC.UpdateCoverLetter(coverLetter, field, value);
    }

    /** Records the purpose as given, even one without a preset, and loads its sections. */
    method LoadPurposeConfig(selectedPurpose: string)
      modifies this`purpose, this`resume
      ensures purpose == selectedPurpose
      ensures resume == RC.LoadPurposeConfig(old(resume), selectedPurpose)
    {
      purpose := selectedPurpose;
      resume := RC.LoadPurposeConfig(resume, selectedPurpose);
    }

    method SetDesign(designId: string)
      modifies this`selectedDesign
      ensures selectedDesign == designId
    {
      selectedDesign := designId;
    }

    method SetJobDescription(text: string)
      modifies this`jobDescription
      ensures jobDescription == text
    {
      jobDescription := text;
    }

    method SetActiveDocument(which: string)
      modifies this`activeDocument
      ensures activeDocument == which
    {
      activeDocument := which;
    }

    method UpdateMeta(field: string, value: string)
      requires field != "personalInfo" && field != "sections"
      modifies this`resume
      ensures resume == RC.UpdateMeta(old(resume), field, value)
    {
      resume := RC.UpdateMeta(resume, field, value);
    }

    method UpdatePersonalInfo(field: string, value: RC.InfoValue)
      modifies this`resume
      ensures resume == RC.UpdatePersonalInfo(old(resume), field, value)
    {
      resume := RC.UpdatePersonalInfo(resume, field, value);
    }

    /** `now` is the clock reading the source takes from `Date.now()`. */
    method AddSection(now: nat, title: string, kind: string)
      modifies this`resume
      ensures resume == RC.AddSection(old(resume), now, title, kind)
    {
      resume := RC.AddSection(resume, now, title, kind);
    }

    method RemoveSection(id: string)
      modifies this`resume
      ensures resume == RC.RemoveSection(old(resume), id)
    {
      resume := RC.RemoveSection(resume, id);
    }

    method AddItemToSection(id: string, item: RC.Item)
      modifies this`resume
      ensures resume == RC.AddItemToSection(old(resume), id, item)
    {
      resume := RC.AddItemToSection(resume, id, item);
    }

    method UpdateSectionTitle(id: string, title: string)
      modifies this`resume
      ensures resume == RC.UpdateSectionTitle(old(resume), id, title)
    {
      resume := RC.UpdateSectionTitle(resume, id, title);
    }

    method UpdateSectionType(id: string, kind: string)
      modifies this`resume
      ensures resume == RC.UpdateSectionType(old(resume), id, kind)
    {
      resume := RC.UpdateSectionType(resume, id, kind);
    }

    method UpdateSectionColumn(id: string, column: Option<string>)
      modifies this`resume
      ensures resume == RC.UpdateSectionColumn(old(resume), id, column)
    {
      resume := RC.UpdateSectionColumn(resume, id, column);
    }

    method ReorderSections(newSections: seq<RC.Section>)
      modifies this`resume
      ensures resume == RC.ReorderSections(old(resume), newSections)
    {
      resume := RC.ReorderSections(resume, newSections);
    }

    method UpdateSectionItem(id: string, index: int, field: Option<string>, value: string)
      requires RC.IndexInRange(resume.sections, id, index)
      modifies this`resume
      ensures resume == RC.UpdateSectionItem(old(resume), id, index, field, value)
    {
      resume := RC.UpdateSectionItem(resume, id, index, field, value);
    }

    method RemoveSectionItem(id: string, index: int)
      modifies this`resume
      ensures resume == RC.RemoveSectionItem(old(resume), id, index)
    {
      resume := RC.RemoveSectionItem(resume, id, index);
    }
  }
}
