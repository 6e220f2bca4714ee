# Resume Generator: document store, section layout and editor rules in Dafny

This project models the core of the Resume Generator web client: the résumé
document store, the rules that decide where each section is rendered, the
editor's write rules and the template gallery's filter. All four are stated
as Dafny definitions, and the properties the code promises are proved about them.

- `wrappers.dfy`: `Option`.
- `seqs.dfy` (module `Seqs`): the list operations the store and the templates
  are built from. These are `filter` by element and by index parity, removal
  by index, insertion, and the order-preserving sub-sequence relation. It also
  defines `Partitions`: every element lands in exactly one of two lists, and
  each list keeps the original order.
- `strings.dfy` (module `Strings`): decimal printing of clock readings,
  JavaScript truthiness of optional strings, `a || b`, and ASCII lower-casing.
- `resume_context.dfy`:
  - module `ResumeContext` holds the document (`Resume`, `Section`, `Item`,
    `InfoValue`, the cover letter), the purpose presets and every store
    operation as a pure `Resume -> Resume` function;
  - module `ResumeProvider` holds the provider's state cells as the class
    `Store`; each method replaces one cell with the operation's result.
- `template_viewer.dfy` (module `TemplateViewer`):
  - what `renderItems` shows;
  - the five ways a template splits the section list (ModernClean's column
    fallback, experience-or-main, type sets, index parity, and the whole list);
  - the layout of each of the 58 templates;
  - the `templateId` dispatch with its ModernClean default;
  - the cover-letter page with its fallback texts.
- `editor_page.dfy` (module `EditorPage`): drag-and-drop reordering
  (`findIndex` + `arrayMove`), the column toggle, the photo-feedback colour,
  and the write rules of the section forms.
- `template_page.dfy` (module `TemplatePage`): the gallery's category filter,
  the ATS badge, the empty-result message, and the shipped catalogue as a fixture.

Section `type` is called `kind`. An item is a bare string (`Str`) or a flat
record (`Obj`).

The editor's forms and the renderer use different item keys, and the model
keeps each side as written:
- the experience form writes `title`, `startDate` and `endDate`, but the
  renderer reads `position` and `duration`;
- the education form writes `school`, but the renderer reads `institution`.

`TemplateViewer.ExperienceFormShowsNoHeading` and
`TemplateViewer.EducationFormShowsNoSchool` state what the renderer then shows.

`Date.now()` is the parameter `now`. The browser's date string is the
parameter `today`. The answer to the custom-field prompt is the parameter `key`.

## Model

| member | source | states |
|---|---|---|
| ResumeContext.PresetsAreFresh | client/src/context/ResumeContext.js:7-30 | each of the four presets has pairwise distinct ids, empty items, a column, and ids whose first character is not a digit |
| ResumeContext.InitialResume | client/src/context/ResumeContext.js:49-53 | a session starts with blank personal details, an empty summary and the job preset |
| ResumeContext.InitialCoverLetter | client/src/context/ResumeContext.js:39-47 | the cover letter starts blank except for the greeting "Dear Hiring Manager," and the sign-off "Sincerely," |
| ResumeContext.UpdateCoverLetter | client/src/context/ResumeContext.js:55-57 | exactly the named field gets the value; every other field is as it was |
| ResumeContext.LoadPurposeConfig | client/src/context/ResumeContext.js:59-65 | sections become the purpose's preset, or the job preset for an unknown purpose; personal details, summary and other fields are unchanged; the result has distinct ids |
| ResumeContext.UpdateMeta | client/src/context/ResumeContext.js:72-77 | sets the summary or one other top-level field; personal details, sections and all other fields are unchanged |
| ResumeContext.UpdatePersonalInfo | client/src/context/ResumeContext.js:79-84 | exactly one personal-details key changes; summary, sections and the other keys are unchanged |
| ResumeContext.AddSection | client/src/context/ResumeContext.js:87-93 | appends exactly one section at the end, with the clock reading as id and the given title and type, no items and no column; earlier sections are unchanged and in order |
| ResumeContext.RemoveSection | client/src/context/ResumeContext.js:95-100 | a section survives iff its id differs from the given one, every copy of a surviving section is kept and none of a removed one, and the survivors keep their relative order |
| ResumeContext.AddItemToSection | client/src/context/ResumeContext.js:102-109 | the item is appended to each section with that id; every other section, and every id, title, type and column, is unchanged |
| ResumeContext.UpdateSectionTitle | client/src/context/ResumeContext.js:111-116 | only the title of matching sections changes; their items and all other sections are unchanged |
| ResumeContext.UpdateSectionType | client/src/context/ResumeContext.js:118-123 | only the type of matching sections changes; their items and all other sections are unchanged |
| ResumeContext.UpdateSectionColumn | client/src/context/ResumeContext.js:125-130 | only the column of matching sections changes; their items and all other sections are unchanged |
| ResumeContext.ReorderSections | client/src/context/ResumeContext.js:132-137 | the section list becomes the caller's list, unchecked; nothing else changes |
| ResumeContext.SpreadCharsAt | client/src/context/ResumeContext.js:147-148 | spreading a string item into an object puts its i-th character under the key "i" |
| ResumeContext.WriteItem | client/src/context/ResumeContext.js:145-149 | with no field (null, undefined or "") the value replaces the item; with a field it is merged into the item's keys and every other key is kept |
| ResumeContext.SetItem | client/src/context/ResumeContext.js:144-150 | only the slot at the index is rewritten and the length stays; a negative index changes no item |
| ResumeContext.UpdateSectionItem | client/src/context/ResumeContext.js:139-154 | the item at the index in each matching section is rewritten; item counts, section headers, all other items and all other sections are unchanged |
| ResumeContext.RemoveItemAt | client/src/context/ResumeContext.js:161 | an in-range index removes exactly that item and closes the gap; an out-of-range index removes nothing |
| ResumeContext.RemoveSectionItem | client/src/context/ResumeContext.js:156-164 | matching sections lose exactly the item at an in-range index and keep their items otherwise; other sections and all headers are unchanged |
| ResumeContext.PresetIdsAreNotTimestamps | client/src/context/ResumeContext.js:59-65 | no section loaded from a preset can share an id with a section added later |
| ResumeContext.MissingIdIsNoop | client/src/context/ResumeContext.js:95-164 | with an id no section has, remove, add item, retitle, retype, re-column and remove item all leave the document as it was |
| ResumeContext.UpdateItemMissingIdIsNoop | client/src/context/ResumeContext.js:139-154 | with an id no section has, updating an item leaves the document as it was, whatever the index |
| ResumeContext.FilterKeepsIdsDistinct | client/src/context/ResumeContext.js:98 | filtering a section list with distinct ids keeps them distinct |
| ResumeContext.RemoveSectionCount | client/src/context/ResumeContext.js:95-100 | with distinct ids, removing a present id removes exactly one section and removing an absent id changes nothing |
| ResumeContext.AddSectionKeepsIdsDistinct | client/src/context/ResumeContext.js:87-93 | adding a section whose clock-reading id is unused keeps ids distinct |
| ResumeContext.AddSectionsAtDistinctTimes | client/src/context/ResumeContext.js:88 | two sections added at different clock readings get different ids |
| ResumeContext.AddSectionsInSameMillisecond | client/src/context/ResumeContext.js:88 | two sections added at the same clock reading share an id, so uniqueness is not guaranteed |
| ResumeContext.RetypeKeepsItems | client/src/context/ResumeContext.js:118-123 | changing a section's type never reshapes its items |
| ResumeContext.MergeKeepsOtherKeys | client/src/context/ResumeContext.js:147-148 | merging a field into a record item keeps the section's item count; the record's keys become its old keys plus the field, the field gets the value and every other key keeps its value |
| ResumeContext.MergeIntoStringItem | client/src/context/ResumeContext.js:147-148 | merging a field into a string item gives a record whose keys are exactly "0" to "n-1" and the field; the field holds the value and every other key holds its character |
| ResumeContext.SpreadCharsKeys | client/src/context/ResumeContext.js:148 | a spread string has exactly the keys "0" to "n-1", one per character |
| ResumeContext.IndexKeysOnly | client/src/context/ResumeContext.js:148 | every such key is the decimal form of a position in the string |
| ResumeContext.Spread | client/src/context/ResumeContext.js:148 | spreading a record gives its own keys; spreading a string gives exactly its position keys |
| ResumeContext.PurposePreset | client/src/context/ResumeContext.js:7-30 | a preset exists exactly for the purposes job, scholarship, creative and cv |
| ResumeContext.MapById | client/src/context/ResumeContext.js:111-116 | the per-id map behind the section updates; its property for an absent id is carried by `MapByAbsentId` and `MissingIdIsNoop` |
| ResumeContext.MapByAbsentId | client/src/context/ResumeContext.js:111-116 | mapping by an id no section carries leaves the list as it was |
| ResumeContext.AppendThenRemoveIsIdentity | client/src/context/ResumeContext.js:102-164 | with distinct ids, removing the item just appended restores the document |
| ResumeProvider.Store.constructor | client/src/context/ResumeContext.js:34-53 | the provider starts with purpose job, design modern, the résumé document shown, the initial cover letter and the initial document |
| ResumeProvider.Store.UpdateCoverLetter | client/src/context/ResumeContext.js:55-57 | the cover-letter cell is replaced by the operation's result |
| ResumeProvider.Store.LoadPurposeConfig | client/src/context/ResumeContext.js:59-65 | records the purpose and replaces the document by the operation's result |
| ResumeProvider.Store.SetDesign | client/src/context/ResumeContext.js:67-69 | sets the selected design |
| ResumeProvider.Store.SetJobDescription | client/src/context/ResumeContext.js:35 | sets the job-description text |
| ResumeProvider.Store.SetActiveDocument | client/src/context/ResumeContext.js:38 | sets which document, the résumé or the cover letter, is active |
| ResumeProvider.Store.UpdateMeta | client/src/context/ResumeContext.js:72-77 | the document cell is replaced by the operation's result |
| ResumeProvider.Store.UpdatePersonalInfo | client/src/context/ResumeContext.js:79-84 | the document cell is replaced by the operation's result |
| ResumeProvider.Store.AddSection | client/src/context/ResumeContext.js:87-93 | the document cell is replaced by the operation's result |
| ResumeProvider.Store.RemoveSection | client/src/context/ResumeContext.js:95-100 | the document cell is replaced by the operation's result |
| ResumeProvider.Store.AddItemToSection | client/src/context/ResumeContext.js:102-109 | the document cell is replaced by the operation's result |
| ResumeProvider.Store.UpdateSectionTitle | client/src/context/ResumeContext.js:111-116 | the document cell is replaced by the operation's result |
| ResumeProvider.Store.UpdateSectionType | client/src/context/ResumeContext.js:118-123 | the document cell is replaced by the operation's result |
| ResumeProvider.Store.UpdateSectionColumn | client/src/context/ResumeContext.js:125-130 | the document cell is replaced by the operation's result |
| ResumeProvider.Store.ReorderSections | client/src/context/ResumeContext.js:132-137 | the document cell is replaced by the operation's result |
| ResumeProvider.Store.UpdateSectionItem | client/src/context/ResumeContext.js:139-154 | the document cell is replaced by the operation's result |
| ResumeProvider.Store.RemoveSectionItem | client/src/context/ResumeContext.js:156-164 | the document cell is replaced by the operation's result |
| Strings.NatToStringInjective | client/src/context/ResumeContext.js:88 | different clock readings print as different ids |
| Strings.NatToString | client/src/context/ResumeContext.js:88 | a clock reading prints as a non-empty string of decimal digits, with at least two digits from 10 on |
| Strings.AsciiLower | client/src/pages/EditorPage.js:115 | ASCII lower-casing; its properties are carried by `AsciiLowerIdempotent` and `EditorPage.FeedbackColorIgnoresCase` |
| Strings.AsciiLowerIdempotent | client/src/pages/EditorPage.js:115 | lower-casing twice is lower-casing once |
| TemplateViewer.RenderItems | client/src/components/TemplateViewer.js:55-94 | nothing iff the section has no items or a type other than experience, education, skills or list; otherwise one row, or one label, per item, in order |
| TemplateViewer.Label | client/src/components/TemplateViewer.js:88 | a chip shows a string item itself and a record item's `name`, or nothing; proved about in `StringItemRow` and `NamedRecordReadsDiffer` |
| TemplateViewer.EntryOf | client/src/components/TemplateViewer.js:63-75 | a row shows `position` or else `degree`, `duration` or else `year`, `company` or else `institution`, and `description`; proved about in the two form lemmas below |
| TemplateViewer.StringItemRow | client/src/components/TemplateViewer.js:88 | a string item's label is the string itself, and as a row it shows no fields |
| TemplateViewer.ExperienceFormShowsNoHeading | client/src/components/TemplateViewer.js:63-75 | an item holding only the keys the experience form writes shows an empty heading and empty dates, with the company and description as written |
| TemplateViewer.EducationFormShowsNoSchool | client/src/components/TemplateViewer.js:63-75 | an item holding only the keys the education form writes shows the degree and year but an empty school line |
| TemplateViewer.InModernMain | client/src/components/TemplateViewer.js:126 | ModernClean's main column: placed in main, or unplaced experience; placement proved in `ColumnFallbackPlacement` |
| TemplateViewer.InModernSidebar | client/src/components/TemplateViewer.js:136 | ModernClean's sidebar: placed in the sidebar, or unplaced and not experience |
| TemplateViewer.ExperienceOrMainColumn | client/src/components/TemplateViewer.js:677 | the main region of the experience-or-main family |
| TemplateViewer.NeitherExperienceNorMain | client/src/components/TemplateViewer.js:689 | its exact negation, the other region; together they partition by `SplitPartitions` |
| TemplateViewer.KindIn | client/src/components/TemplateViewer.js:210 | the type-set region: the section's type is one of the set |
| TemplateViewer.KindNotIn | client/src/components/TemplateViewer.js:244 | its complement: the type is none of the set |
| TemplateViewer.SplitPartitions | client/src/components/TemplateViewer.js:677-689 | each split puts every section in exactly one of its two regions and keeps list order in each; ModernClean's split needs every column to be unset, main or sidebar |
| TemplateViewer.ColumnFallbackPlacement | client/src/components/TemplateViewer.js:126-136 | in ModernClean a known column puts a section in exactly one region, an unset column sends experience to main and everything else to the sidebar, and any other column hides the section |
| TemplateViewer.ParitySizes | client/src/components/TemplateViewer.js:1589-1600 | the parity split puts even positions first and odd positions second, in order, with ceil(n/2) and floor(n/2) sections |
| TemplateViewer.NumberedLayout | client/src/components/TemplateViewer.js:554-2858 | the split of each of Template1 to Template50, read off its filter expressions; none uses the column fallback (`NumberedLayoutsSplitWithoutColumns`) |
| TemplateViewer.NumberedLayoutsSplitWithoutColumns | client/src/components/TemplateViewer.js:554-2858 | no numbered template looks at columns the way ModernClean does |
| TemplateViewer.LayoutOf | client/src/components/TemplateViewer.js:97-553 | the split of each named template; only ModernClean uses the column fallback |
| TemplateViewer.TemplateShowsEachSectionOnce | client/src/components/TemplateViewer.js:97-2858 | every template shows each section exactly once, in list order within each region; for ModernClean this holds when every column is unset, main or sidebar, which the store keeps true (`EditorPage.StoreKeepsColumnsKnown`) |
| TemplateViewer.FindNumbered | client/src/components/TemplateViewer.js:2870-2919 | returns the number n in range whose "template"+n equals the id, or reports that none does |
| TemplateViewer.RenderTemplate | client/src/components/TemplateViewer.js:2860-2922 | each of the eight named ids selects its own template, and a numbered template is chosen only for an id "template1" to "template50" that names it |
| TemplateViewer.NumberedIdsDispatch | client/src/components/TemplateViewer.js:2870-2921 | "template1" to "template50" select their own template; "template0" and numbers above 50 fall back to ModernClean |
| TemplateViewer.UnknownIdFallsBack | client/src/components/TemplateViewer.js:2860-2922 | every id that is neither one of the eight names nor "template1" to "template50" renders ModernClean |
| TemplateViewer.CompactFallsBack | client/src/components/TemplateViewer.js:2920 | the gallery's "compact" is such an id and renders ModernClean |
| TemplateViewer.Viewer | client/src/components/TemplateViewer.js:4-52 | the cover letter is shown iff the active document is the cover letter, before any template is looked up |
| TemplateViewer.RenderLetter | client/src/components/TemplateViewer.js:7-52 | the letter page: each field's text, or its default once empty; proved about in the two letter lemmas below |
| TemplateViewer.EditedLetterFieldShows | client/src/components/TemplateViewer.js:30-47 | a cover-letter field set through the store shows the new text, or its default text once cleared |
| TemplateViewer.InitialLetterShowsDefaults | client/src/components/TemplateViewer.js:30-47 | a fresh session's letter shows "Hiring Manager", the default greeting, the placeholder body and "Sincerely," |
| TemplateViewer.DefaultTemplateIsModernClean | client/src/components/TemplateViewer.js:4 | with no template id the résumé page uses ModernClean's column-fallback split |
| EditorPage.FindIndex | client/src/pages/EditorPage.js:74-75 | -1 only when no section carries the id; otherwise a position carrying it with none before it |
| EditorPage.FindIndexFound | client/src/pages/EditorPage.js:74-75 | an id carried by some section is found at a non-negative index |
| EditorPage.ArrayMove | client/src/pages/EditorPage.js:76 | `arrayMove` keeps the length; its permutation property is `ArrayMovePermutes` |
| EditorPage.ArrayMovePermutes | client/src/pages/EditorPage.js:76 | moving keeps the same elements, puts the moved one at the target, and keeps the others in relative order |
| EditorPage.HandleDragEnd | client/src/pages/EditorPage.js:71-78 | a drop on another section hands `reorderSections` the moved list; proved about in `DragEndPermutes` |
| EditorPage.DragEndPermutes | client/src/pages/EditorPage.js:71-78 | a drop on another section reorders by a permutation: the dragged section lands at the target's position, the others keep their order, nothing else changes, and distinct ids stay distinct |
| EditorPage.DragEndWithoutTargetIsNoop | client/src/pages/EditorPage.js:73 | dropping a section on itself, or outside the list, changes nothing |
| EditorPage.DragEnd | client/src/pages/EditorPage.js:71-78 | the handler leaves the document as the drag-end function says |
| EditorPage.ToggleColumn | client/src/pages/EditorPage.js:32 | sidebar becomes main; any other column, including unset, becomes sidebar |
| EditorPage.ToggleMovesRegion | client/src/pages/EditorPage.js:32 | after a toggle ModernClean shows the section in main iff it had been placed in the sidebar, and toggling a placed section twice restores it |
| EditorPage.StoreKeepsColumnsKnown | client/src/context/ResumeContext.js:59-164 | from columns that are all unset, main or sidebar, loading a preset, adding, removing, retitling, retyping, toggling a column, writing an item with or without a field, and removing items keep them so |
| EditorPage.PresetColumnsKnown | client/src/context/ResumeContext.js:7-30 | every preset places each section in main or the sidebar |
| EditorPage.AddSectionKeepsColumnsKnown | client/src/context/ResumeContext.js:87-93 | a new section has no column, which ModernClean can place |
| EditorPage.ToggleKeepsColumnsKnown | client/src/pages/EditorPage.js:32 | the column toggle only ever writes main or sidebar |
| EditorPage.DragKeepsColumnsKnown | client/src/pages/EditorPage.js:71-78 | a drag permutes the sections, so their columns stay known |
| EditorPage.FeedbackColor | client/src/pages/EditorPage.js:113-121 | green, yellow and red styles iff the status lower-cases to that word; a missing or empty status and any other word give gray |
| EditorPage.FeedbackColorIgnoresCase | client/src/pages/EditorPage.js:115 | the colour is the same for a status and its lower-case form |
| EditorPage.ParagraphText | client/src/pages/EditorPage.js:296 | the textarea shows item 0, or nothing for an empty section; proved about in `ParagraphEditRoundTrip` |
| EditorPage.ParagraphEdit | client/src/pages/EditorPage.js:297-300 | the append-or-replace choice of the paragraph form; proved about in `ParagraphEditRoundTrip` |
| EditorPage.ParagraphEditRoundTrip | client/src/pages/EditorPage.js:294-300 | a paragraph edit shows the typed text back; the section gets one item if it had none and otherwise keeps its count |
| EditorPage.EditParagraph | client/src/pages/EditorPage.js:297-300 | the handler appends when the section has no items and replaces item 0 otherwise |
| EditorPage.ListText | client/src/pages/EditorPage.js:280 | the list input shows a string item itself, or a record's `text`, or nothing |
| EditorPage.ListEdit | client/src/pages/EditorPage.js:281 | a list edit writes the bare typed string; proved about in `ListEditRoundTrip` |
| EditorPage.ListEditRoundTrip | client/src/pages/EditorPage.js:280-281 | a list or skills edit makes the item the bare typed string, and the editor and the templates then show the same text |
| EditorPage.NamedRecordReadsDiffer | client/src/pages/EditorPage.js:280 | a record item with only a name shows an empty input in the editor but its name in a template |
| EditorPage.AddButtonItem | client/src/pages/EditorPage.js:249-288 | experience and education add an empty record, list and skills add "New Item", and other types have no add button |
| EditorPage.AddedItemRenders | client/src/pages/EditorPage.js:249-288 | a freshly added item shows in a template as a blank row, or as the label "New Item" |
| EditorPage.AddCustomField | client/src/pages/EditorPage.js:186-191 | a non-empty prompt answer merges that key with "Value"; proved about in `CustomFieldAdded` |
| EditorPage.CustomFieldAdded | client/src/pages/EditorPage.js:186-191 | a non-empty key adds that field with the text "Value" and keeps the item's other keys; an empty or cancelled prompt changes nothing |
| TemplatePage.FilteredTemplates | client/src/pages/TemplatePage.js:16-18 | "all" gives every template; any other category gives exactly the templates of that category, each as many times as it occurs in the catalogue, never more than the catalogue |
| TemplatePage.ShowAtsBadge | client/src/pages/TemplatePage.js:54 | the badge shows iff the card has tags and they include "ats-friendly" |
| TemplatePage.ShowNoTemplatesMessage | client/src/pages/TemplatePage.js:71 | the message shows iff the filtered list is empty; characterised in `NoTemplatesMessageIff` |
| TemplatePage.FilteredKeepsOrder | client/src/pages/TemplatePage.js:16-18 | the filtered gallery is an order-preserving sub-sequence of the catalogue |
| TemplatePage.NoTemplatesMessageIff | client/src/pages/TemplatePage.js:71 | the empty message shows iff no template has the category, or for "all" iff the catalogue is empty |
| TemplatePage.AcademicCategoryIsEmpty | client/src/pages/TemplatePage.js:71 | on the shipped catalogue the academic category shows the empty message |
| TemplatePage.OnlyModernCardIsAtsFriendly | client/src/pages/TemplatePage.js:54 | on the shipped catalogue only the first card carries the ATS badge |
| TemplatePage.CatalogueIdsDispatch | client/src/pages/TemplatePage.js:11-14 | every shipped card's id selects a template, and "compact" gets ModernClean by the fallback |

## Left out

- JSX markup, Tailwind classes, icons and each template's own item markup are presentational. Some templates print item fields directly instead of calling `renderItems`: `degree`, `institution` and `year` of education items, and `position`, `company` and `duration` of experience items (client/src/components/TemplateViewer.js:253-254 and :498-501). The page header (name, contact details, photo, summary) is not modelled either.
- `downloadPDF` is left out: it uses html2canvas, jsPDF, DOM watermark toggling and floating-point page arithmetic.
- Photo upload and analysis, the ATS score, the AI rewrite and generate calls, `FileReader`, `prompt` and `alert` are I/O or network calls. An AI result would reach the store as an ordinary value.
- The dnd-kit sensors and React's state batching and re-rendering are not modelled. `arrayMove` follows its usual meaning: remove at one index, insert at the other.
- The raw `setResumeData` setter, which replaces the whole document with any value, is not modelled. The design page and the routing are outside this model.
- ResumeContext.UpdateSectionItem: an index at or past the end of a matching section's items is excluded by the precondition. At an index equal to the length JavaScript appends a new item (no holes); past it, the array grows with holes. This case is reachable and the model drops it: the AI rewrite and generate write-backs (client/src/pages/EditorPage.js:231 and :236) use the index captured before the request, so an item removed while the request is pending leaves that index out of range and the write re-creates an item.
- ResumeContext.UpdateMeta: the fields `personalInfo` and `sections` are excluded by the precondition. JavaScript would overwrite them with a string, and the only caller sets `summary`.
- ResumeContext.LoadPurposeConfig: a purpose naming an inherited object key, such as `toString`, would load a function as the section list. Such a purpose is treated as unknown, so it loads the job preset.
- A section always has an `items` list. A section without one, which `renderItems` tolerates, is not represented.
- ResumeContext.SpreadChars: a spread string gets one key per Dafny character, that is per Unicode code point. JavaScript keys UTF-16 code units, so a character outside the Basic Multilingual Plane, such as an emoji, gets two keys in JavaScript and one in the model. This matters when a field is merged into a string item, for example after a skills section is retyped to experience.
- Personal details that are not text, such as the photo-feedback record, show as the empty string when used as a name.
- Strings.AsciiLower: only ASCII letters are lowered, where `toLowerCase` also lowers other scripts. The only non-ASCII characters that lower into ASCII letters are the Kelvin sign (to "k") and the dotted capital I (to "i" plus a combining dot); neither letter occurs in "green", "yellow" or "red", so `EditorPage.FeedbackColor` is exact for every status.
- EditorPage.HandleDragEnd: both ids must be present. The dragged and target sections always come from the rendered list, so an index of -1 is not modelled.
- EditorPage.ParagraphEdit: when the form's section has items, every section with that id must have an item 0.
- TemplateViewer.RenderTemplate: each numbered template is given its section split from its filter expressions. What it draws inside each region is not modelled.
- TemplatePage.ShowAtsBadge: `tags` is a list of strings when present. A `tags` value of another shape, such as a string, is not represented.
