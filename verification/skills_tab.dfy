/** The skills section: a static list of skills, a row of category tabs
    with the extra tab "all", and the list filtered by the active tab. */
module SkillsTab {

  datatype Skill = Skill(name: string, category: string, proficiency: nat)

  const Skills: seq<Skill> := [
    Skill("Spring Boot", "backend", 80),
    Skill("MongoDB", "backend", 70),
    Skill("API Development (REST)", "backend", 75),
    Skill("Python (ML/AI)", "ai-ml", 85),
    Skill("PyTorch / TensorFlow", "ai-ml", 75),
    Skill("HuggingFace Transformers", "ai-ml", 70),
    Skill("LLM Fine-tuning (LoRA/PEFT)", "ai-ml", 68),
    Skill("Whisper ASR / Speech", "ai-ml", 62),
    Skill("LangChain / OpenAI API", "ai-ml", 60),
    Skill("Raspberry Pi / ESP32", "iot", 75),
    Skill("Computer Vision for IoT", "iot", 70),
    Skill("RFID / Face Recognition", "iot", 65),
    Skill("HTML/CSS", "frontend", 90),
    Skill("JavaScript", "frontend", 80),
    Skill("React", "frontend", 70),
    Skill("Tailwind CSS", "frontend", 70),
    Skill("Git/GitHub", "tools", 85),
    Skill("VS Code", "tools", 95),
    Skill("Figma", "tools", 90),
    Skill("Docker", "tools", 65)
  ]

  /** The tab that shows every skill. */
  const AllTab := "all"

  const Tabs: seq<string> := [AllTab, "backend", "ai-ml", "iot", "frontend", "tools"]

  const TabLabels: map<string, string> := map[
    AllTab := "All",
    "backend" := "Backend",
    "ai-ml" := "AI/ML & NLP",
    "iot" := "IoT & Embedded",
    "frontend" := "Frontend",
    "tools" := "Tools"
  ]

  /** `b` with some elements deleted: `a` keeps a selection of `b`'s
      elements in their original order. */
  predicate IsSubsequence<T(==)>(a: seq<T>, b: seq<T>)
    decreases |b|
  {
    if |b| == 0 then |a| == 0
    else (|a| > 0 && a[0] == b[0] && IsSubsequence(a[1..], b[1..])) || IsSubsequence(a, b[1..])
  }

  /** The skills of one category, in list order. The result keeps every
      skill of that category (each as often as it occurs) and nothing else. */
  function OfCategory(xs: seq<Skill>, category: string): (r: seq<Skill>)
    ensures |r| <= |xs|
    ensures forall k :: 0 <= k < |r| ==> r[k].category == category
    ensures forall x: Skill :: x.category == category ==> multiset(r)[x] == multiset(xs)[x]
    ensures forall x: Skill :: x.category != category ==> multiset(r)[x] == 0
    ensures IsSubsequence(r, xs)
    decreases |xs|
  {
    if |xs| == 0 then []
    else
      var rest := OfCategory(xs[1..], category);
      assert xs == [xs[0]] + xs[1..];
      if xs[0].category == category then [xs[0]] + rest else rest
  }

  /** `filteredSkills` over the list `skills` (the section passes its own
      static list): every skill under "all", otherwise the skills whose
      category is the active tab, in list order, each as often as it occurs. */
  function FilteredSkills(skills: seq<Skill>, activeTab: string): (r: seq<Skill>)
    ensures activeTab == AllTab ==> r == skills
    ensures |r| <= |skills|
    ensures IsSubsequence(r, skills)
    ensures activeTab != AllTab ==> forall k :: 0 <= k < |r| ==> r[k].category == activeTab
    ensures activeTab != AllTab ==>
              forall k :: 0 <= k < |skills| && skills[k].category == activeTab ==> skills[k] in r
    ensures activeTab != AllTab ==>
              forall x: Skill :: multiset(r)[x] == (if x.category == activeTab then multiset(skills)[x] else 0)
  {
    if activeTab == AllTab then
      SubsequenceOfItself(skills);
      skills
    else
      var r := OfCategory(skills, activeTab);
      assert forall k :: 0 <= k < |skills| ==> skills[k] in multiset(skills);
      r
  }

  /** Every sequence is a subsequence of itself. */
  lemma {:induction false} SubsequenceOfItself<T>(a: seq<T>)
    ensures IsSubsequence(a, a)
    decreases |a|
  {
    if |a| > 0 {
      SubsequenceOfItself(a[1..]);
    }
  }

  /** The tab data is consistent: the first tab is "all", every tab has a
      label, and every skill's category is one of the other tabs. */
  lemma TabsCoverCategories()
    ensures Tabs[0] == AllTab
    ensures forall t :: t in Tabs ==> t in TabLabels
    ensures forall k :: 0 <= k < |Skills| ==> Skills[k].category in Tabs[1..]
  {
  }

  /** How many skills the five category tabs show between them. */
  function TabShares(xs: seq<Skill>): nat {
    |OfCategory(xs, "backend")| + |OfCategory(xs, "ai-ml")| + |OfCategory(xs, "iot")|
      + |OfCategory(xs, "frontend")| + |OfCategory(xs, "tools")|
  }

  /** When every category is one of the tabs, each skill is shown under
      exactly one category tab: the tabs' shares add up to the list. */
  lemma {:induction false} CategoryTabsPartition(xs: seq<Skill>)
    requires forall k :: 0 <= k < |xs| ==> xs[k].category in Tabs[1..]
    ensures TabShares(xs) == |xs|
    decreases |xs|
  {
    if |xs| > 0 {
      assert forall k :: 0 <= k < |xs[1..]| ==> xs[1..][k].category in Tabs[1..];
      CategoryTabsPartition(xs[1..]);
      TabSharesStep(xs);
    }
  }

  /** The first skill, whose category is a tab, adds exactly one to the shares. */
  lemma TabSharesStep(xs: seq<Skill>)
    requires |xs| > 0 && xs[0].category in Tabs[1..]
    ensures TabShares(xs) == TabShares(xs[1..]) + 1
  {
    var c := xs[0].category;
    assert c == "backend" || c == "ai-ml" || c == "iot" || c == "frontend" || c == "tools";
    OfCategoryStep(xs, "backend");
    OfCategoryStep(xs, "ai-ml");
    OfCategoryStep(xs, "iot");
    OfCategoryStep(xs, "frontend");
    OfCategoryStep(xs, "tools");
  }

  /** The first skill adds one to its own category's share and nothing to another's. */
  lemma OfCategoryStep(xs: seq<Skill>, category: string)
    requires |xs| > 0
    ensures |OfCategory(xs, category)| == |OfCategory(xs[1..], category)| + (if xs[0].category == category then 1 else 0)
  {
  }

  /** The live list: the five category tabs together show all twenty skills once. */
  lemma LiveTabsPartitionSkills()
    ensures TabShares(Skills) == |Skills| == 20
  {
    TabsCoverCategories();
    CategoryTabsPartition(Skills);
  }
}
