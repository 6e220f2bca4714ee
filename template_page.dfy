/**
 * The template gallery: the category filter over the catalogue, the ATS badge
 * and the empty-result message, with the shipped catalogue as a fixture.
 */
module TemplatePage {
  import opened Wrappers
  import opened Seqs
  import TV = TemplateViewer

  /** One gallery card; `tags` may be missing. */
  datatype TemplateCard = TemplateCard(
    id: string, name: string, description: string, category: string, color: string,
    tags: Option<seq<string>>)

  /** `t.category === category`. */
  function InCategory(category: string): TemplateCard -> bool
  {
    (t: TemplateCard) => t.category == category
  }

  /** `filteredTemplates`: everything for `all`, otherwise the cards of that category. */
  function FilteredTemplates(ts: seq<TemplateCard>, category: string): (r: seq<TemplateCard>)
    ensures |r| <= |ts|
    ensures category == "all" ==> r == ts
    ensures category != "all" ==> forall t :: t in r <==> t in ts && t.category == category
    ensures category != "all" ==>
              forall t :: multiset(r)[t] == if t.category == category then multiset(ts)[t] else 0
  {
    if category == "all" then ts
    else
      FilterCounts(InCategory(category), ts);
      FilterMembers(InCategory(category), ts);
      Filter(InCategory(category), ts)
  }

  /** A filtered gallery keeps the catalogue's order. */
  lemma FilteredKeepsOrder(ts: seq<TemplateCard>, category: string)
    ensures IsSubseq(FilteredTemplates(ts, category), ts)
  {
    if category == "all" {
      SubseqWhole(ts);
    } else {
      FilterIsSubseq(InCategory(category), ts);
    }
  }

  /** The ATS badge: `t.tags && t.tags.includes('ats-friendly')`. */
  predicate ShowAtsBadge(t: TemplateCard)
  {
    t.tags.Some? && "ats-friendly" in t.tags.value
  }

  /** The "no templates" message shows exactly when the filter leaves nothing. */
  predicate ShowNoTemplatesMessage(ts: seq<TemplateCard>, category: string)
  {
    |FilteredTemplates(ts, category)| == 0
  }

  /** The message shows exactly when no card has the category (and never for `all` over a non-empty catalogue). */
  lemma NoTemplatesMessageIff(ts: seq<TemplateCard>, category: string)
    ensures category != "all" ==>
      (ShowNoTemplatesMessage(ts, category) <==> forall i :: 0 <= i < |ts| ==> ts[i].category != category)
    ensures category == "all" ==> (ShowNoTemplatesMessage(ts, category) <==> ts == [])
  {
    if category != "all" {
      var r := FilteredTemplates(ts, category);
      if r != [] {
        assert r[0] in r;
      }
      if exists i :: 0 <= i < |ts| && ts[i].category == category {
        var i :| 0 <= i < |ts| && ts[i].category == category;
        assert ts[i] in r;
      }
    }
  }

  /** The shipped catalogue. */
  function Catalogue(): seq<TemplateCard>
  {
    [ TemplateCard("modern", "Modern Professional",
        "A clean, balanced design suitable for most corporate roles.",
        "corporate", "bg-blue-100", Some(["professional", "ats-friendly"])),
      TemplateCard("minimal", "Clean Minimalist",
        "Simple and elegant, perfect for highlighting content without distraction.",
        "minimalist", "bg-gray-100", Some(["clean", "simple"])),
      TemplateCard("creative", "Artistic Portfolio",
        "Bold headers and unique layout for creative professionals.",
        "creative", "bg-pink-100", Some(["designer", "portfolio"])),
      TemplateCard("compact", "Compact Executive",
        "Dense layout designed to fit extensive experience on fewer pages.",
        "corporate", "bg-indigo-100", Some(["executive", "dense"])),
      TemplateCard("template1", "Corporate Grid",
        "Professional grid layout with dark header and clear skill separation.",
        "corporate", "bg-slate-800", Some(["modern", "grid"])),
      TemplateCard("template2", "Modern Sidebar",
        "Clean design with a distinct right sidebar and teal accents.",
        "creative", "bg-teal-700", Some(["sidebar", "modern", "teal"])) ]
  }

  /** No shipped card is academic, so that category shows the "no templates" message. */
  lemma AcademicCategoryIsEmpty()
    ensures ShowNoTemplatesMessage(Catalogue(), "academic")
  {
    var c := Catalogue();
    assert forall i :: 0 <= i < |c| ==> c[i].category in {"corporate", "minimalist", "creative"};
    NoTemplatesMessageIff(c, "academic");
  }

  /** Only the first shipped card carries the ATS badge. */
  lemma OnlyModernCardIsAtsFriendly()
    ensures forall i :: 0 <= i < |Catalogue()| ==> (ShowAtsBadge(Catalogue()[i]) <==> i == 0)
  {
    var c := Catalogue();
    assert ShowAtsBadge(c[0]);
    assert !ShowAtsBadge(c[1]) && !ShowAtsBadge(c[2]);
    assert !ShowAtsBadge(c[3]) && !ShowAtsBadge(c[4]) && !ShowAtsBadge(c[5]);
  }

  /** Every shipped card's id selects a template; `compact` gets ModernClean by the fallback. */
  lemma CatalogueIdsDispatch()
    ensures forall i :: 0 <= i < |Catalogue()| ==> TV.RenderTemplate(Catalogue()[i].id) == CatalogueTemplates()[i]
  {
    var c, ts := Catalogue(), CatalogueTemplates();
    assert TV.RenderTemplate(c[0].id) == ts[0];
    assert TV.RenderTemplate(c[1].id) == ts[1];
    assert TV.RenderTemplate(c[2].id) == ts[2];
    assert TV.RenderTemplate(c[3].id) == ts[3] by {
      TV.CompactFallsBack();
    }
    assert TV.RenderTemplate(c[4].id) == ts[4] by {
      assert c[4].id == TV.NumberedId(1) == "template" + "1";
      TV.NumberedIdsDispatch(1);
    }
    assert TV.RenderTemplate(c[5].id) == ts[5] by {
      assert c[5].id == TV.NumberedId(2) == "template" + "2";
      TV.NumberedIdsDispatch(2);
    }
  }

  /** The templates the shipped cards select, in catalogue order. */
  function CatalogueTemplates(): seq<TV.Template>
  {
    [TV.ModernClean, TV.Minimal, TV.Creative, TV.ModernClean, TV.Numbered(1), TV.Numbered(2)]
  }
}
