/**
 * The note templates: a constant table, the category filter over it, the
 * category buttons and the content preview. The date each template embeds
 * is the parameter `today` (the locale rendering of the current date).
 */
module NoteTemplates {
  import opened Text
  import opened Seqs

  datatype Template = Template(id: string, name: string, icon: string, category: string, content: string)

  function MeetingContent(today: string): string {
    "# Meeting Notes\n\n**Date:** " + today + "\n**Attendees:** \n**Agenda:**\n\n## Discussion Points\n- \n\n## Action Items\n- [ ] \n- [ ] \n\n## Next Steps\n- \n\n## Notes\n"
  }

  function DailyJournalContent(today: string): string {
    "# Daily Journal - " + today + "\n\n## Today's Highlights\n- \n\n## Mood: \U{1F60A}\n\n## Gratitude\n- \n- \n- \n\n## Tomorrow's Goals\n- \n- \n\n## Reflection\n"
  }

  function ProjectPlanContent(today: string): string {
    "# Project Plan\n\n**Project Name:** \n**Start Date:** " + today + "\n**Deadline:** \n\n## Objectives\n- \n\n## Milestones\n- [ ] \n- [ ] \n- [ ] \n\n## Resources Needed\n- \n\n## Risks & Mitigation\n- \n\n## Success Criteria\n- \n"
  }

  function BookReviewContent(today: string): string {
    "# Book Review\n\n**Title:** \n**Author:** \n**Rating:** \U{2B50}\U{2B50}\U{2B50}\U{2B50}\U{2B50}\n**Date Finished:** " + today + "\n\n## Summary\n\n\n## Key Takeaways\n- \n- \n- \n\n## Favorite Quotes\n> \n\n## Would I Recommend?\nYes/No - \n\n## Notes\n"
  }

  function RecipeContent(today: string): string {
    "# Recipe Name\n\n**Prep Time:** \n**Cook Time:** \n**Servings:** \n**Difficulty:** Easy/Medium/Hard\n\n## Ingredients\n- \n- \n- \n\n## Instructions\n1. \n2. \n3. \n\n## Notes\n- \n\n## Rating: \U{2B50}\U{2B50}\U{2B50}\U{2B50}\U{2B50}\n"
  }

  function TravelPlanContent(today: string): string {
    "# Travel Plan\n\n**Destination:** \n**Dates:** \n**Budget:** \n\n## Itinerary\n### Day 1\n- \n\n### Day 2\n- \n\n## Packing List\n- [ ] \n- [ ] \n- [ ] \n\n## Important Info\n- **Hotel:** \n- **Flight:** \n- **Emergency Contacts:** \n\n## Places to Visit\n- \n- \n\n## Local Food to Try\n- \n"
  }

  function WorkoutContent(today: string): string {
    "# Workout Log - " + today + "\n\n**Duration:** \n**Type:** Cardio/Strength/Mixed\n\n## Exercises\n### Exercise 1\n- Sets: \n- Reps: \n- Weight: \n\n### Exercise 2\n- Sets: \n- Reps: \n- Weight: \n\n## Notes\n- How I felt: \n- Energy level: \n- Next time: \n\n## Progress Photos\n(Add photos here)\n"
  }

  function IdeaBrainstormContent(today: string): string {
    "# Brainstorming Session\n\n**Topic:** \n**Date:** " + today + "\n\n## Initial Thoughts\n- \n\n## Ideas\n1. \n2. \n3. \n4. \n5. \n\n## Best Ideas \U{2B50}\n- \n\n## Next Steps\n- [ ] \n- [ ] \n\n## Resources/Research Needed\n- \n"
  }

  /** The contents of the eight templates, in table order. */
  function Contents(today: string): seq<string> {
    [MeetingContent(today), DailyJournalContent(today), ProjectPlanContent(today), BookReviewContent(today),
     RecipeContent(today), TravelPlanContent(today), WorkoutContent(today), IdeaBrainstormContent(today)]
  }

  /** The template table around some contents. */
  function Table(contents: seq<string>): seq<Template>
    requires |contents| == 8
  {
    [
      Template("meeting", "Meeting Notes", "\U{1F465}", "Work", contents[0]),
      Template("daily-journal", "Daily Journal", "\U{1F4D4}", "Personal", contents[1]),
      Template("project-plan", "Project Planning", "\U{1F4CB}", "Work", contents[2]),
      Template("book-review", "Book Review", "\U{1F4DA}", "Personal", contents[3]),
      Template("recipe", "Recipe", "\U{1F373}", "Personal", contents[4]),
      Template("travel-plan", "Travel Planning", "\U{2708}\U{FE0F}", "Personal", contents[5]),
      Template("workout", "Workout Log", "\U{1F4AA}", "Personal", contents[6]),
      Template("idea-brainstorm", "Idea Brainstorming", "\U{1F4A1}", "Ideas", contents[7])
    ]
  }

  /** `templates`, with `today` for the locale date the contents embed. */
  function Templates(today: string): seq<Template> {
    Table(Contents(today))
  }

  /** The ids of the templates, in table order. */
  function TemplateIds(ts: seq<Template>): seq<string> {
    Map(ts, (t: Template) => t.id)
  }

  /**
   * The table has eight templates with distinct ids, and every name and
   * category is neither empty nor blank. None of this depends on the
   * contents, so it is stated for the table around any contents.
   */
  lemma TemplateTable(contents: seq<string>)
    requires |contents| == 8
    ensures |Table(contents)| == 8
    ensures NoDuplicates(TemplateIds(Table(contents)))
    ensures forall i :: 0 <= i < 8 ==> Trim(Table(contents)[i].name) != "" && Trim(Table(contents)[i].category) != ""
  {
    TableIdsDistinct(contents);
    TableNamesNotBlank(contents);
  }

  /** The id of the template at `i`. */
  lemma TemplateIdsAt(ts: seq<Template>, i: nat)
    requires i < |ts|
    ensures |TemplateIds(ts)| == |ts| && TemplateIds(ts)[i] == ts[i].id
  {
  }

  lemma TableIdsDistinct(contents: seq<string>)
    requires |contents| == 8
    ensures NoDuplicates(TemplateIds(Table(contents)))
  {
    var ts := Table(contents);
    var ids := TemplateIds(ts);
    // The ids already differ in their first letters.
    var initials := "mdpbrtwi";
    forall i | 0 <= i < 8 ensures |ids[i]| > 0 && ids[i][0] == initials[i] {
      TemplateIdsAt(ts, i);
    }
    assert NoDuplicates(initials);
  }

  lemma TableNamesNotBlank(contents: seq<string>)
    requires |contents| == 8
    ensures forall i :: 0 <= i < 8 ==> Trim(Table(contents)[i].name) != "" && Trim(Table(contents)[i].category) != ""
  {
    var ts := Table(contents);
    forall i | 0 <= i < 8 ensures Trim(ts[i].name) != "" && Trim(ts[i].category) != "" {
      NotBlank(ts[i].name, 0);
      NotBlank(ts[i].category, 0);
    }
  }

  /** A string with a non-space character does not trim to nothing. */
  lemma NotBlank(s: string, k: nat)
    requires k < |s| && !IsSpace(s[k])
    ensures Trim(s) != ""
  {
    TrimEmptyIff(s);
  }

  /** The category filter: "all", or the template's category ignoring case. */
  predicate InCategory(t: Template, selected: string) {
    selected == "all" || ToLower(t.category) == ToLower(selected)
  }

  function InCategoryOf(selected: string): Template -> bool {
    t => InCategory(t, selected)
  }

  /** `filteredTemplates`, over the table `templates`. */
  function FilteredTemplates(templates: seq<Template>, selected: string): seq<Template> {
    Filter(templates, InCategoryOf(selected))
  }

  /**
   * "all" lists every template in table order; any other selection lists,
   * in table order, exactly the templates of that category ignoring case.
   */
  lemma FilteredTemplatesSpec(templates: seq<Template>, selected: string, t: Template)
    ensures FilteredTemplates(templates, "all") == templates
    ensures t in FilteredTemplates(templates, selected) <==>
      t in templates && (selected == "all" || ToLower(t.category) == ToLower(selected))
    ensures IsSubsequence(FilteredTemplates(templates, selected), templates)
  {
    FilterKeepsAll(templates, InCategoryOf("all"));
    FilterMembership(templates, InCategoryOf(selected), t);
    FilterIsSubsequence(templates, InCategoryOf(selected));
  }

  /** The lowercased categories of the templates, in table order. */
  function TemplateCategories(ts: seq<Template>): seq<string> {
    Map(ts, (t: Template) => ToLower(t.category))
  }

  /** The lowercased category of the template at `i`. */
  lemma TemplateCategoriesAt(ts: seq<Template>, i: nat)
    requires i < |ts|
    ensures |TemplateCategories(ts)| == |ts| && TemplateCategories(ts)[i] == ToLower(ts[i].category)
  {
  }

  /** `["all", ...new Set(templates.map(t => t.category.toLowerCase()))]`. */
  function CategoryButtons(templates: seq<Template>): seq<string> {
    ["all"] + Distinct(TemplateCategories(templates))
  }

  /** The categories of the table, as written in it. */
  const TableCategoryNames := ["Work", "Personal", "Work", "Personal", "Personal", "Personal", "Personal", "Ideas"]

  /** The lowercased categories of the table: work, personal, work, four times personal, ideas. */
  lemma TableCategories(contents: seq<string>)
    requires |contents| == 8
    ensures TemplateCategories(Table(contents))
      == ["work", "personal", "work", "personal", "personal", "personal", "personal", "ideas"]
  {
    var table := Table(contents);
    assert forall i :: 0 <= i < 8 ==> table[i].category == TableCategoryNames[i];
    LowerTableCategories(table);
  }

  /** Templates carrying the table's categories lowercase to work, personal, work, four times personal, ideas. */
  lemma LowerTableCategories(ts: seq<Template>)
    requires |ts| == 8 && forall i :: 0 <= i < 8 ==> ts[i].category == TableCategoryNames[i]
    ensures TemplateCategories(ts)
      == ["work", "personal", "work", "personal", "personal", "personal", "personal", "ideas"]
  {
    assert ToLower("Work") == "work";
    assert ToLower("Personal") == "personal";
    assert ToLower("Ideas") == "ideas";
    var lower := TemplateCategories(ts);
    forall i | 0 <= i < 8 ensures lower[i] == ToLower(TableCategoryNames[i]) {
      TemplateCategoriesAt(ts, i);
    }
  }

  /** The buttons of the table read "all", then work, personal and ideas, in the order they first occur. */
  lemma CategoryButtonsSpec(contents: seq<string>)
    requires |contents| == 8
    ensures CategoryButtons(Table(contents)) == ["all", "work", "personal", "ideas"]
  {
    TableCategories(contents);
    CategoryRun(TemplateCategories(Table(contents)));
  }

  lemma CategoryRun(lower: seq<string>)
    requires lower == ["work", "personal", "work", "personal", "personal", "personal", "personal", "ideas"]
    ensures Distinct(lower) == ["work", "personal", "ideas"]
  {
    assert lower[..1] == ["work"];
    assert lower[..1][..0] == [];
    assert Distinct(lower[..1]) == ["work"];
    assert lower[..2][..1] == lower[..1];
    assert Distinct(lower[..2]) == ["work", "personal"];
    assert lower[..3][..2] == lower[..2];
    assert Distinct(lower[..3]) == ["work", "personal"];
    assert lower[..4][..3] == lower[..3];
    assert Distinct(lower[..4]) == ["work", "personal"];
    assert lower[..5][..4] == lower[..4];
    assert Distinct(lower[..5]) == ["work", "personal"];
    assert lower[..6][..5] == lower[..5];
    assert Distinct(lower[..6]) == ["work", "personal"];
    assert lower[..7][..6] == lower[..6];
    assert Distinct(lower[..7]) == ["work", "personal"];
    assert lower[..7] == lower[..|lower| - 1];
  }

  /** The preview length: at most 150 characters of the content. */
  const PreviewLength := 150

  /** `template.content.substring(0, 150)`: the text shown, before the trailing "...". */
  function Preview(t: Template): string {
    t.content[..if |t.content| < PreviewLength then |t.content| else PreviewLength]
  }

  /** The preview is the longest prefix of the content of at most 150 characters. */
  lemma PreviewSpec(t: Template)
    ensures |Preview(t)| <= PreviewLength
    ensures Preview(t) <= t.content
    ensures |Preview(t)| == PreviewLength || Preview(t) == t.content
  {
  }

  /** A chosen template, the one `onSelectTemplate` receives, is one of the listed ones, so one of the table's. */
  lemma ChosenFromTable(templates: seq<Template>, selected: string, i: nat)
    requires i < |FilteredTemplates(templates, selected)|
    ensures FilteredTemplates(templates, selected)[i] in templates
    ensures InCategory(FilteredTemplates(templates, selected)[i], selected)
  {
    FilterMembership(templates, InCategoryOf(selected), FilteredTemplates(templates, selected)[i]);
  }
}
