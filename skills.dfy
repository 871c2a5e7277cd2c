/** The skills section: proficiency bars, grouping by category and the load-more / show-less
    paging over the skill categories. */
module Skills {

  /** A skill as the skills endpoint returns it. */
  datatype Skill = Skill(name: string, category: string, proficiency: string, order: int)

  /** A category card: its heading and the category it lists. */
  datatype Category = Category(title: string, category: string)

  const CATEGORIES: seq<Category> := [
    Category("Machine Learning", "other"),
    Category("Programming Languages", "backend"),
    Category("Web Technologies", "frontend"),
    Category("Data & ML Tools", "database"),
    Category("Cloud & DevOps", "devops")
  ]

  const INITIAL_VISIBLE: nat := 3
  const PAGE_STEP: nat := 2

  /** The width of a proficiency bar, in percent. */
  function ProficiencyLevel(proficiency: string): (percent: int)
    ensures 25 <= percent <= 95
    ensures percent == 50 <==> proficiency !in {"beginner", "advanced", "expert"}
  {
    match proficiency
    case "beginner" => 25
    case "intermediate" => 50
    case "advanced" => 75
    case "expert" => 95
    case _ => 50
  }

  /** The four named levels give strictly increasing bars. */
  lemma ProficiencyIncreasing()
    ensures ProficiencyLevel("beginner") < ProficiencyLevel("intermediate")
              < ProficiencyLevel("advanced") < ProficiencyLevel("expert")
  {
  }

  /** The skills of one category, in the order received. */
  function SkillsByCategory(skills: seq<Skill>, category: string): (r: seq<Skill>)
    ensures |r| <= |skills|
    ensures forall s :: s in r <==> s in skills && s.category == category
  {
    if skills == [] then []
    else
      assert skills == [skills[0]] + skills[1..];
      (if skills[0].category == category then [skills[0]] else []) + SkillsByCategory(skills[1..], category)
  }

  /** Grouping keeps the received order: it distributes over concatenation. */
  lemma {:induction false} SkillsByCategoryDistributes(a: seq<Skill>, b: seq<Skill>, category: string)
    ensures SkillsByCategory(a + b, category) == SkillsByCategory(a, category) + SkillsByCategory(b, category)
    decreases |a|
  {
    if a == [] {
      assert a + b == b;
    } else {
      assert (a + b)[1..] == a[1..] + b;
      SkillsByCategoryDistributes(a[1..], b, category);
    }
  }

  /** `Math.min(prev + 2, skillCategories.length)`. */
  function LoadMore(visible: nat): (next: nat)
    ensures next <= |CATEGORIES|
    ensures visible <= |CATEGORIES| ==> visible <= next
    ensures next == |CATEGORIES| || next == visible + PAGE_STEP
  {
    if visible + PAGE_STEP < |CATEGORIES| then visible + PAGE_STEP else |CATEGORIES|
  }

  /** `setVisibleCount(3)`: back to the initial view, whatever was shown. */
  function ShowLess(): (next: nat)
    ensures next == INITIAL_VISIBLE && next < |CATEGORIES|
  {
    INITIAL_VISIBLE
  }

  /** The cards shown: `skillCategories.slice(0, visibleCount)`. */
  function Visible(visible: nat): (cards: seq<Category>)
    ensures |cards| == if visible < |CATEGORIES| then visible else |CATEGORIES|
    ensures cards <= CATEGORIES
  {
    if visible < |CATEGORIES| then CATEGORIES[..visible] else CATEGORIES
  }

  datatype Button = NoButton | LoadMoreButton | ShowLessButton

  /** The paging button: hidden until the skills were fetched; then load-more while some
      category is hidden, show-less once all are shown. */
  function PagingButton(visible: nat, showLoadMore: bool): (b: Button)
    ensures b == LoadMoreButton <==> showLoadMore && |Visible(visible)| < |CATEGORIES|
    ensures b == ShowLessButton <==> showLoadMore && |Visible(visible)| == |CATEGORIES|
  {
    if !showLoadMore then NoButton
    else if visible < |CATEGORIES| then LoadMoreButton
    else ShowLessButton
  }

  /** The flag that enables the paging button, after the skills fetch. */
  function ShowLoadMoreAfterFetch(fetchOk: bool, before: bool): (shown: bool)
    ensures shown <==> fetchOk || before
  {
    if fetchOk then |CATEGORIES| > INITIAL_VISIBLE else before
  }

  datatype Action = PressLoadMore | PressShowLess

  function Run(visible: nat, actions: seq<Action>): nat
    decreases |actions|
  {
    if actions == [] then visible
    else
      var next := if actions[0] == PressLoadMore then LoadMore(visible) else ShowLess();
      Run(next, actions[1..])
  }

  /** From the initial three cards, any sequence of presses shows either three cards or all
      five, and the button then offers load-more or show-less accordingly. */
  lemma {:induction false} PagingReachable(visible: nat, actions: seq<Action>)
    requires visible == INITIAL_VISIBLE || visible == |CATEGORIES|
    ensures Run(visible, actions) == INITIAL_VISIBLE || Run(visible, actions) == |CATEGORIES|
    ensures PagingButton(Run(visible, actions), true) ==
              if Run(visible, actions) == INITIAL_VISIBLE then LoadMoreButton else ShowLessButton
    decreases |actions|
  {
    if actions != [] {
      var next := if actions[0] == PressLoadMore then LoadMore(visible) else ShowLess();
      PagingReachable(next, actions[1..]);
    }
  }

  /** After the fetch succeeds the button is shown, and load-more from the initial view reveals
      every card at once. */
  lemma LoadMoreFromInitial()
    ensures ShowLoadMoreAfterFetch(true, false)
    ensures Visible(LoadMore(INITIAL_VISIBLE)) == CATEGORIES
  {
  }
}
