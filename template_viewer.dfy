/**
 * The résumé renderer (`TemplateViewer`): which template a template id selects,
 * how each template splits the section list into its two page regions, and
 * what text a section's items display. Markup, styling and icons are not modelled.
 */
module TemplateViewer {
  import opened Wrappers
  import opened Seqs
  import opened Strings
  import RC = ResumeContext

  // ----- Reading items -----

  /** `item.key`: a string item has no such property; a record has it when the key is present. */
  function Get(item: RC.Item, key: string): (r: Option<string>)
    ensures r.Some? <==> item.Obj? && key in item.fields
    ensures r.Some? ==> r.value == item.fields[key]
  {
    match item
    case Str(_) => None
    case Obj(m) => if key in m then Some(m[key]) else None
  }

  /** The chip text of a skills or list item: the string itself, or else the record's `name`. */
  function Label(item: RC.Item): string
  {
    match item
    case Str(s) => s
    case Obj(_) => Display(Get(item, "name"))
  }

  /** One experience or education row as displayed. */
  datatype Entry = Entry(heading: string, dates: string, org: string, description: string)

  /** The row of an item: `position || degree`, `duration || year`, `company || institution`, `description`. */
  function EntryOf(item: RC.Item): Entry
  {
    Entry(OrElse(Get(item, "position"), Get(item, "degree")),
          OrElse(Get(item, "duration"), Get(item, "year")),
          OrElse(Get(item, "company"), Get(item, "institution")),
          Display(Get(item, "description")))
  }

  /** What `renderItems` produces for a section. */
  datatype Rendered = Nothing | Entries(rows: seq<Entry>) | Labels(labels: seq<string>)

  predicate ShowsEntries(kind: string)
  {
    kind == "experience" || kind == "education"
  }

  predicate ShowsLabels(kind: string)
  {
    kind == "skills" || kind == "list"
  }

  /**
   * `renderItems(section)`: nothing for an empty section or for a kind it does
   * not know (a paragraph, say); one row per item for experience and education;
   * one label per item for skills and lists.
   */
  function RenderItems(s: RC.Section): (r: Rendered)
    ensures r.Nothing? <==> |s.items| == 0 || !(ShowsEntries(s.kind) || ShowsLabels(s.kind))
    ensures r.Entries? ==> ShowsEntries(s.kind) && |r.rows| == |s.items|
    ensures r.Entries? ==> forall i :: 0 <= i < |s.items| ==> r.rows[i] == EntryOf(s.items[i])
    ensures r.Labels? ==> ShowsLabels(s.kind) && |r.labels| == |s.items|
    ensures r.Labels? ==> forall i :: 0 <= i < |s.items| ==> r.labels[i] == Label(s.items[i])
  {
    if |s.items| == 0 then Nothing
    else if ShowsEntries(s.kind) then Entries(seq(|s.items|, i requires 0 <= i < |s.items| => EntryOf(s.items[i])))
    else if ShowsLabels(s.kind) then Labels(seq(|s.items|, i requires 0 <= i < |s.items| => Label(s.items[i])))
    else Nothing
  }

  /** The keys the editor's experience form writes. */
  const ExperienceFormKeys: set<string> := {"title", "company", "startDate", "endDate", "description"}

  /** The keys the editor's education form writes. */
  const EducationFormKeys: set<string> := {"school", "degree", "year"}

  /**
   * An experience entry as the editor writes it shows no heading and no dates:
   * the renderer reads `position` and `duration`, which the form never sets.
   */
  lemma ExperienceFormShowsNoHeading(m: map<string, string>)
    requires m.Keys <= ExperienceFormKeys
    ensures EntryOf(RC.Obj(m)).heading == ""
    ensures EntryOf(RC.Obj(m)).dates == ""
    ensures EntryOf(RC.Obj(m)).org == Display(Get(RC.Obj(m), "company"))
    ensures EntryOf(RC.Obj(m)).description == Display(Get(RC.Obj(m), "description"))
  {
    assert "position" !in m && "degree" !in m && "duration" !in m && "year" !in m;
  }

  /** An education entry as the editor writes it shows no school: the renderer reads `institution`. */
  lemma EducationFormShowsNoSchool(m: map<string, string>)
    requires m.Keys <= EducationFormKeys
    ensures EntryOf(RC.Obj(m)).org == ""
    ensures EntryOf(RC.Obj(m)).heading == Display(Get(RC.Obj(m), "degree"))
    ensures EntryOf(RC.Obj(m)).dates == Display(Get(RC.Obj(m), "year"))
  {
    assert "position" !in m && "duration" !in m && "company" !in m && "institution" !in m;
  }

  /** A string item shows as itself and has no row fields. */
  lemma StringItemRow(s: string)
    ensures Label(RC.Str(s)) == s
    ensures EntryOf(RC.Str(s)) == Entry("", "", "", "")
  {
  }

  // ----- Region predicates -----

  /** `!s.column`: no column, or the empty one. */
  predicate ColumnUnset(s: RC.Section)
  {
    !Truthy(s.column)
  }

  /** ModernClean's main column: placed there, or unplaced experience. */
  predicate InModernMain(s: RC.Section)
  {
    s.column == Some("main") || (ColumnUnset(s) && s.kind == "experience")
  }

  /** ModernClean's sidebar: placed there, or unplaced and not experience. */
  predicate InModernSidebar(s: RC.Section)
  {
    s.column == Some("sidebar") || (ColumnUnset(s) && s.kind != "experience")
  }

  /** A column value ModernClean knows how to place. */
  predicate KnownColumn(s: RC.Section)
  {
    ColumnUnset(s) || s.column == Some("main") || s.column == Some("sidebar")
  }

  /** Every section's column is one ModernClean knows how to place. */
  predicate ColumnsKnown(ss: seq<RC.Section>)
  {
    forall s :: s in ss ==> KnownColumn(s)
  }

  /** `s.type === 'experience' || s.column === 'main'`. */
  predicate ExperienceOrMainColumn(s: RC.Section)
  {
    s.kind == "experience" || s.column == Some("main")
  }

  /** `s.type !== 'experience' && s.column !== 'main'`. */
  predicate NeitherExperienceNorMain(s: RC.Section)
  {
    s.kind != "experience" && s.column != Some("main")
  }

  /** `s.type === k1 || s.type === k2 || ...`. */
  function KindIn(kinds: set<string>): RC.Section -> bool
  {
    (s: RC.Section) => s.kind in kinds
  }

  /** `s.type !== k1 && s.type !== k2 && ...`. */
  function KindNotIn(kinds: set<string>): RC.Section -> bool
  {
    (s: RC.Section) => s.kind !in kinds
  }

  // ----- Layouts -----

  /** The ways a template splits the section list. */
  datatype Split = Whole | ColumnFallback | ExperienceOrMain | KindSet(kinds: set<string>) | Parity

  /** A template's split, and whether the complement region comes first on the page. */
  datatype Layout = Layout(split: Split, complementFirst: bool)

  /** The two regions of a page, in page order; a one-region page has an empty second region. */
  datatype Regions = Regions(first: seq<RC.Section>, second: seq<RC.Section>)

  /** The region a split selects, and its complement. */
  function SplitRegions(split: Split, ss: seq<RC.Section>): Regions
  {
    match split
    case Whole => Regions(ss, [])
    case ColumnFallback => Regions(Filter(InModernMain, ss), Filter(InModernSidebar, ss))
    case ExperienceOrMain => Regions(Filter(ExperienceOrMainColumn, ss), Filter(NeitherExperienceNorMain, ss))
    case KindSet(kinds) => Regions(Filter(KindIn(kinds), ss), Filter(KindNotIn(kinds), ss))
    case Parity => Regions(ParityFilter(ss, 0, 0), ParityFilter(ss, 0, 1))
  }

  function LayoutRegions(layout: Layout, ss: seq<RC.Section>): Regions
  {
    var r := SplitRegions(layout.split, ss);
    if layout.complementFirst then Regions(r.second, r.first) else r
  }

  /**
   * Every split puts each section in exactly one region and keeps the list
   * order inside each region; ModernClean's only when every column is one it
   * knows.
   */
  lemma SplitPartitions(split: Split, ss: seq<RC.Section>)
    requires split.ColumnFallback? ==> ColumnsKnown(ss)
    ensures Partitions(ss, SplitRegions(split, ss).first, SplitRegions(split, ss).second)
  {
    match split
    case Whole =>
      SubseqWhole(ss);
    case ColumnFallback =>
      assert forall i :: 0 <= i < |ss| ==> ss[i] in ss;
      FilterComplementPartitions(InModernMain, InModernSidebar, ss);
    case ExperienceOrMain =>
      FilterComplementPartitions(ExperienceOrMainColumn, NeitherExperienceNorMain, ss);
    case KindSet(kinds) =>
      FilterComplementPartitions(KindIn(kinds), KindNotIn(kinds), ss);
    case Parity =>
      ParityFilterPartitions(ss, 0);
  }

  /**
   * ModernClean's placement: a known column puts a section in exactly one
   * region, an unset column sends experience to the main column and all else to
   * the sidebar, and any other column hides the section.
   */
  lemma ColumnFallbackPlacement(ss: seq<RC.Section>)
    ensures var r := SplitRegions(ColumnFallback, ss);
      forall s :: s in ss && KnownColumn(s) ==> (s in r.first <==> s !in r.second)
    ensures var r := SplitRegions(ColumnFallback, ss);
      forall s :: s in ss && ColumnUnset(s) ==> (s in r.first <==> s.kind == "experience")
    ensures var r := SplitRegions(ColumnFallback, ss);
      forall s :: s in ss && !KnownColumn(s) ==> s !in r.first && s !in r.second
  {
    FilterMembers(InModernMain, ss);
    FilterMembers(InModernSidebar, ss);
  }

  /** The parity split sends even positions to the first region and odd ones to the second. */
  lemma ParitySizes(ss: seq<RC.Section>)
    ensures var r := SplitRegions(Parity, ss);
      && |r.first| == (|ss| + 1) / 2 && |r.second| == |ss| / 2
      && (forall k :: 0 <= k < |r.first| ==> r.first[k] == ss[2 * k])
      && (forall k :: 0 <= k < |r.second| ==> r.second[k] == ss[2 * k + 1])
  {
    ParityFilterAt(ss, 0, 0);
    ParityFilterAt(ss, 0, 1);
  }

  // ----- Templates and dispatch -----

  datatype Template = ModernClean | Professional | Creative | Executive | Minimal | Chicago | TajMahal | Windsor
                    | Numbered(n: nat)

  /** The layout of `Template<n>`, for `n` in 1..50. */
  function NumberedLayout(n: nat): Layout
  {
    match n
    case 1 => Layout(Whole, false)
    case 2 => Layout(KindSet({"experience"}), true)
    case 3 => Layout(Whole, false)
    case 4 => Layout(ExperienceOrMain, false)
    case 5 => Layout(ExperienceOrMain, true)
    case 6 => Layout(KindSet({"skills", "education"}), false)
    case 7 => Layout(ExperienceOrMain, false)
    case 8 => Layout(KindSet({"skills", "education"}), false)
    case 9 => Layout(Whole, false)
    case 10 => Layout(KindSet({"skills", "education", "list"}), false)
    case 11 => Layout(KindSet({"skills", "education"}), false)
    case 12 => Layout(Whole, false)
    case 13 => Layout(ExperienceOrMain, false)
    case 14 => Layout(Whole, false)
    case 15 => Layout(ExperienceOrMain, false)
    case 16 => Layout(KindSet({"skills", "education"}), false)
    case 17 => Layout(KindSet({"skills", "list"}), false)
    case 18 => Layout(ExperienceOrMain, false)
    case 19 => Layout(ExperienceOrMain, false)
    case 20 => Layout(ExperienceOrMain, false)
    case 21 => Layout(KindSet({"skills", "education"}), false)
    case 22 => Layout(ExperienceOrMain, false)
    case 23 => Layout(Parity, false)
    case 24 => Layout(KindSet({"skills", "links", "education"}), false)
    case 25 => Layout(ExperienceOrMain, false)
    case 26 => Layout(KindSet({"skills", "links"}), false)
    case 27 => Layout(KindSet({"skills", "education", "links"}), false)
    case 28 => Layout(ExperienceOrMain, false)
    case 29 => Layout(ExperienceOrMain, false)
    case 30 => Layout(ExperienceOrMain, false)
    case 31 => Layout(ExperienceOrMain, false)
    case 32 => Layout(ExperienceOrMain, false)
    case 33 => Layout(ExperienceOrMain, false)
    case 34 => Layout(Parity, false)
    case 35 => Layout(ExperienceOrMain, false)
    case 36 => Layout(ExperienceOrMain, false)
    case 37 => Layout(ExperienceOrMain, false)
    case 38 => Layout(ExperienceOrMain, true)
    case 39 => Layout(ExperienceOrMain, true)
    case 40 => Layout(Whole, false)
    case 41 => Layout(Whole, false)
    case 42 => Layout(ExperienceOrMain, true)
    case 43 => Layout(ExperienceOrMain, false)
    case 44 => Layout(Whole, false)
    case 45 => Layout(ExperienceOrMain, true)
    case 46 => Layout(ExperienceOrMain, false)
    case 47 => Layout(Whole, false)
    case 48 => Layout(ExperienceOrMain, false)
    case 49 => Layout(Whole, false)
    case 50 => Layout(Parity, false)
    case _ => Layout(Whole, false)
  }

  /**
   * The layout of a template. `RenderTemplate` only produces `Numbered(n)` for
   * `n` in 1..50; the whole-list layout `NumberedLayout` gives other numbers is
   * never reached.
   */
  function LayoutOf(t: Template): Layout
  {
    match t
    case ModernClean => Layout(ColumnFallback, false)
    case Professional => Layout(Whole, false)
    case Creative => Layout(KindSet({"skills", "list", "education"}), false)
    case Executive => Layout(Whole, false)
    case Minimal => Layout(Whole, false)
    case Chicago => Layout(Whole, false)
    case TajMahal => Layout(KindSet({"skills", "education"}), false)
    case Windsor => Layout(KindSet({"experience"}), false)
    case Numbered(n) => NumberedLayout(n)
  }

  /**
   * Every template shows each section exactly once, keeping the list order in
   * each region; ModernClean needs every column to be one it knows, and no
   * other template looks at unknown columns.
   */
  lemma TemplateShowsEachSectionOnce(t: Template, ss: seq<RC.Section>)
    requires t == ModernClean ==> ColumnsKnown(ss)
    ensures Partitions(ss, LayoutRegions(LayoutOf(t), ss).first, LayoutRegions(LayoutOf(t), ss).second)
  {
    if t.Numbered? {
      NumberedLayoutsSplitWithoutColumns(t.n);
    }
    SplitPartitions(LayoutOf(t).split, ss);
  }

  /** No numbered template uses ModernClean's column fallback. */
  lemma NumberedLayoutsSplitWithoutColumns(n: nat)
    ensures !NumberedLayout(n).split.ColumnFallback?
  {
  }

  function NumberedId(n: nat): string
  {
    "template" + NatToString(n)
  }

  /** The number `n` in `from..50` with `id == "template" + n`, if any. */
  function FindNumbered(id: string, from: nat): (r: Option<nat>)
    ensures r.Some? ==> from <= r.value <= 50 && id == NumberedId(r.value)
    ensures r.None? ==> forall k :: from <= k <= 50 ==> id != NumberedId(k)
    decreases 51 - from
  {
    if from > 50 then None
    else if id == NumberedId(from) then Some(from)
    else FindNumbered(id, from + 1)
  }

  /** The template ids `renderTemplate` names outside the numbered family. */
  const NamedIds: set<string> :=
    {"modern", "professional", "creative", "executive", "minimal", "chicago", "tajmahal", "windsor"}

  /** `renderTemplate()`: the named cases, then `template1` ... `template50`, and ModernClean otherwise. */
  function RenderTemplate(templateId: string): (t: Template)
    ensures templateId == "modern" ==> t == ModernClean
    ensures templateId == "professional" ==> t == Professional
    ensures templateId == "creative" ==> t == Creative
    ensures templateId == "executive" ==> t == Executive
    ensures templateId == "minimal" ==> t == Minimal
    ensures templateId == "chicago" ==> t == Chicago
    ensures templateId == "tajmahal" ==> t == TajMahal
    ensures templateId == "windsor" ==> t == Windsor
    ensures t.Numbered? ==> 1 <= t.n <= 50 && templateId == NumberedId(t.n)
  {
    if templateId == "modern" then ModernClean
    else if templateId == "professional" then Professional
    else if templateId == "creative" then Creative
    else if templateId == "executive" then Executive
    else if templateId == "minimal" then Minimal
    else if templateId == "chicago" then Chicago
    else if templateId == "tajmahal" then TajMahal
    else if templateId == "windsor" then Windsor
    else match FindNumbered(templateId, 1)
      case Some(n) => Numbered(n)
      case None => ModernClean
  }

  /** `template1` ... `template50` select their own template; `template0` and `template51` on fall back. */
  lemma NumberedIdsDispatch(n: nat)
    ensures 1 <= n <= 50 ==> RenderTemplate(NumberedId(n)) == Numbered(n)
    ensures (n == 0 || n > 50) ==> RenderTemplate(NumberedId(n)) == ModernClean
  {
    var id := NumberedId(n);
    assert id[0] == 't' && id[1] == 'e';
    var r := FindNumbered(id, 1);
    if r.Some? {
      var k := r.value;
      assert NatToString(k) == NumberedId(k)[8..] == id[8..] == NatToString(n);
      NatToStringInjective(k, n);
    }
  }

  /**
   * The default case: an id that is neither a named case nor `template1` ...
   * `template50` renders ModernClean.
   */
  lemma UnknownIdFallsBack(templateId: string)
    requires templateId !in NamedIds
    requires forall n :: 1 <= n <= 50 ==> templateId != NumberedId(n)
    ensures RenderTemplate(templateId) == ModernClean
  {
  }

  /** The gallery's `compact` is such an id: no case names it, so it renders ModernClean. */
  lemma CompactFallsBack()
    ensures RenderTemplate("compact") == ModernClean
  {
    forall k | 1 <= k <= 50
      ensures "compact" != NumberedId(k)
    {
      assert NumberedId(k)[0] == 't';
    }
    UnknownIdFallsBack("compact");
  }

  // ----- The viewer -----

  /** The cover letter as displayed. */
  datatype Letter = Letter(
    name: string, date: string,
    recipient: string, recipientTitle: string, company: string, address: string,
    greeting: string, body: string, signOff: string, signature: string)

  /** What the viewer shows: the cover letter, or a template with its two regions. */
  datatype Page = LetterPage(letter: Letter) | ResumePage(template: Template, regions: Regions)

  /** A personal-details value as text; only a text value has one. */
  function InfoText(info: map<string, RC.InfoValue>, key: string): Option<string>
  {
    if key in info && info[key].Text? then Some(info[key].text) else None
  }

  /** `coverLetterData?.key`. */
  function LetterField(c: Option<RC.CoverLetter>, key: string): Option<string>
  {
    if c.Some? && key in c.value then Some(c.value[key]) else None
  }

  /** The text shown in place of an empty cover-letter field, for the fields that have one. */
  function LetterDefault(key: string): Option<string>
  {
    if key == "recipientName" then Some("Hiring Manager")
    else if key == "greeting" then Some("Dear Hiring Manager,")
    else if key == "body" then Some("I am writing to express my strong interest in...")
    else if key == "signOff" then Some("Sincerely,")
    else None
  }

  /** A cover-letter field as shown: its value when non-empty, else its default. */
  function LetterText(c: Option<RC.CoverLetter>, key: string): string
  {
    OrElse(LetterField(c, key), LetterDefault(key))
  }

  function RenderLetter(d: RC.Resume, c: Option<RC.CoverLetter>, today: string): Letter
  {
    Letter(OrElse(InfoText(d.personalInfo, "fullName"), Some("Your Name")), today,
           LetterText(c, "recipientName"), LetterText(c, "recipientTitle"),
           LetterText(c, "companyName"), LetterText(c, "companyAddress"),
           LetterText(c, "greeting"), LetterText(c, "body"), LetterText(c, "signOff"),
           Display(InfoText(d.personalInfo, "fullName")))
  }

  /**
   * The viewer: cover-letter mode is decided before any template is looked up;
   * a missing template id means `modern`. `today` stands for the browser's date.
   */
  function Viewer(d: RC.Resume, templateId: Option<string>, activeDocument: Option<string>,
                coverLetter: Option<RC.CoverLetter>, today: string): (v: Page)
    ensures activeDocument == Some("coverLetter") <==> v.LetterPage?
  {
    if activeDocument == Some("coverLetter") then LetterPage(RenderLetter(d, coverLetter, today))
    else
      var t := RenderTemplate(if templateId.Some? then templateId.value else "modern");
      ResumePage(t, LayoutRegions(LayoutOf(t), d.sections))
  }

  /**
   * A field edited through the store shows the new text, or its default once
   * it is cleared.
   */
  lemma EditedLetterFieldShows(c: RC.CoverLetter, field: string, value: string)
    ensures value != "" ==> LetterText(Some(RC.UpdateCoverLetter(c, field, value)), field) == value
    ensures value == "" && LetterDefault(field).Some? ==>
              LetterText(Some(RC.UpdateCoverLetter(c, field, value)), field) == LetterDefault(field).value
  {
    var r := RC.UpdateCoverLetter(c, field, value);
    assert field in r && r[field] == value;
  }

  /** A fresh session's letter addresses the hiring manager and shows the placeholder body. */
  lemma InitialLetterShowsDefaults(d: RC.Resume, today: string)
    ensures var l := RenderLetter(d, Some(RC.InitialCoverLetter()), today);
      && l.recipient == "Hiring Manager" && l.greeting == "Dear Hiring Manager,"
      && l.body == "I am writing to express my strong interest in..." && l.signOff == "Sincerely,"
  {
    var c := RC.InitialCoverLetter();
    assert "recipientName" in c && c["recipientName"] == "";
    assert "body" in c && c["body"] == "";
  }

  /** Outside cover-letter mode, a viewer with no template id shows ModernClean. */
  lemma DefaultTemplateIsModernClean(d: RC.Resume, activeDocument: Option<string>, c: Option<RC.CoverLetter>, today: string)
    requires activeDocument != Some("coverLetter")
    ensures Viewer(d, None, activeDocument, c, today) == ResumePage(ModernClean, SplitRegions(ColumnFallback, d.sections))
  {
  }
}
