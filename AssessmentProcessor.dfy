/** The assessment processor: tags questions with cognitive skills and
    knowledge components found by substring matching against a curriculum
    taxonomy, estimates their difficulty, judges answers, and turns one
    answer into a trace of Bayesian knowledge updates. */
module AssessmentProcessor {
  import opened Wrappers
  import opened Text
  import opened OrderedDict
  import opened KnowledgeTracing
  import opened AssessmentTypes

  // ---------------------------------------------------------------------
  // Curriculum taxonomy and processor configuration
  // ---------------------------------------------------------------------

  /** category -> skill names, in dictionary order */
  type Categories = seq<(string, seq<string>)>

  /** `subjects`: subject -> categories; `cognitiveSkills`: cognitive level ->
      indicator phrases.  Both are ordered dictionaries. */
  datatype Curriculum = Curriculum(subjects: seq<(string, Categories)>, cognitiveSkills: seq<(string, seq<string>)>)

  /** The built-in taxonomy used when none is supplied. */
  function DefaultCurriculum(): Curriculum {
    Curriculum(
      [ ("mathematics",
          [ ("number_sense", ["counting", "place_value", "number_recognition"]),
            ("operations", ["addition", "subtraction", "multiplication", "division"]),
            ("fractions", ["fraction_concepts", "fraction_operations", "decimals"]),
            ("geometry", ["shapes", "measurement", "spatial_reasoning"]) ]),
        ("reading",
          [ ("phonics", ["letter_recognition", "phonemic_awareness", "decoding"]),
            ("fluency", ["reading_rate", "accuracy", "expression"]),
            ("comprehension", ["main_idea", "details", "inference", "prediction"]),
            ("vocabulary", ["word_meaning", "context_clues", "word_relationships"]) ]) ],
      [ ("remember", ["identify", "recall", "recognize", "list"]),
        ("understand", ["explain", "summarize", "describe", "compare"]),
        ("apply", ["use", "solve", "demonstrate", "calculate"]),
        ("analyze", ["analyze", "examine", "categorize", "differentiate"]),
        ("evaluate", ["evaluate", "judge", "critique", "assess"]),
        ("create", ["create", "design", "develop", "compose"]) ])
  }

  /** The processor's fixed state: the taxonomy it was given, or the
      built-in one when given none.  Its tracer always has the default
      parameters, so the model uses `DefaultTracer()` directly. */
  datatype Processor = Processor(curriculum: Curriculum)

  function NewProcessor(curriculum: Option<Curriculum>): Processor {
    Processor(curriculum.GetOr(DefaultCurriculum()))
  }

  // ---------------------------------------------------------------------
  // Cognitive skills
  // ---------------------------------------------------------------------

  /** Some indicator of the list occurs in `text`. */
  predicate AnyIndicator(indicators: seq<string>, text: string) {
    exists k :: 0 <= k < |indicators| && Contains(text, indicators[k])
  }

  /** The levels, in taxonomy order, that have an indicator in `text`. */
  function DetectedSkills(levels: seq<(string, seq<string>)>, text: string): seq<string> {
    if levels == [] then []
    else
      var last := levels[|levels| - 1];
      DetectedSkills(levels[..|levels| - 1], text) + (if AnyIndicator(last.1, text) then [last.0] else [])
  }

  /** What `_identify_cognitive_skills` returns: the detected levels of the
      lower-cased text, or `["remember"]` when none is detected. */
  function CognitiveSkillsOf(levels: seq<(string, seq<string>)>, text: string): seq<string> {
    var detected := DetectedSkills(levels, Lower(text));
    if detected == [] then ["remember"] else detected
  }

  /** `_identify_cognitive_skills(text)` */
  method IdentifyCognitiveSkills(p: Processor, text: string) returns (skills: seq<string>)
    ensures skills == CognitiveSkillsOf(p.curriculum.cognitiveSkills, text)
  {
    var levels := p.curriculum.cognitiveSkills;
    var lowered := Lower(text);
    skills := [];
    var i := 0;
    while i < |levels|
      invariant 0 <= i <= |levels|
      invariant skills == DetectedSkills(levels[..i], lowered)
    {
      var name, indicators := levels[i].0, levels[i].1;
      assert levels[..i + 1][..i] == levels[..i];
      var j := 0;
      while j < |indicators|
        invariant 0 <= j <= |indicators|
        invariant forall k :: 0 <= k < j ==> !Contains(lowered, indicators[k])
      {
        if Contains(lowered, indicators[j]) {
          skills := skills + [name];
          break;
        }
        j := j + 1;
      }
      i := i + 1;
    }
    assert levels[..|levels|] == levels;
    if skills == [] {
      skills := skills + ["remember"];
    }
  }

  /** A level is detected exactly when one of its indicators occurs. */
  lemma {:induction false} DetectedSkillsMembers(levels: seq<(string, seq<string>)>, text: string)
    ensures forall name :: name in DetectedSkills(levels, text) <==>
      exists i :: 0 <= i < |levels| && levels[i].0 == name && AnyIndicator(levels[i].1, text)
    decreases |levels|
  {
    if levels != [] {
      var front, last := levels[..|levels| - 1], levels[|levels| - 1];
      DetectedSkillsMembers(front, text);
      var d, df := DetectedSkills(levels, text), DetectedSkills(front, text);
      assert d == df + (if AnyIndicator(last.1, text) then [last.0] else []);
      forall name
        ensures name in d <==> exists i :: 0 <= i < |levels| && levels[i].0 == name && AnyIndicator(levels[i].1, text)
      {
        if name in df {
          var i :| 0 <= i < |front| && front[i].0 == name && AnyIndicator(front[i].1, text);
          assert levels[i] == front[i];
        }
        if exists i :: 0 <= i < |levels| && levels[i].0 == name && AnyIndicator(levels[i].1, text) {
          var i :| 0 <= i < |levels| && levels[i].0 == name && AnyIndicator(levels[i].1, text);
          if i < |front| {
            assert front[i] == levels[i];
          } else {
            assert i == |levels| - 1;
          }
        }
      }
    }
  }

  /** The names in `names` occur in `levels` in the same order. */
  ghost predicate InTaxonomyOrder(names: seq<string>, levels: seq<(string, seq<string>)>) {
    forall a, b :: 0 <= a < b < |names| ==> Find(levels, names[a]) < Find(levels, names[b])
  }

  /** With distinct level names, the detected levels keep taxonomy order
      (and so contain no duplicates). */
  lemma {:induction false} DetectedSkillsOrdered(levels: seq<(string, seq<string>)>, text: string)
    requires DistinctKeys(levels)
    ensures InTaxonomyOrder(DetectedSkills(levels, text), levels)
    decreases |levels|
  {
    if levels != [] {
      var front, last := levels[..|levels| - 1], levels[|levels| - 1];
      assert DistinctKeys(front);
      DetectedSkillsOrdered(front, text);
      DetectedSkillsMembers(front, text);
      var d, df := DetectedSkills(levels, text), DetectedSkills(front, text);
      assert d == df + (if AnyIndicator(last.1, text) then [last.0] else []);
      forall x | x in df ensures x in Keys(front) && Find(levels, x) == Find(front, x) {
        var i :| 0 <= i < |front| && front[i].0 == x && AnyIndicator(front[i].1, text);
        assert Keys(front)[i] == x;
        FindFront(levels, x);
      }
      if AnyIndicator(last.1, text) {
        LastKeyFresh(levels);
        FindAt(levels, last.0, |levels| - 1);
      }
      forall a, b | 0 <= a < b < |d| ensures Find(levels, d[a]) < Find(levels, d[b]) {
        assert d[a] == df[a] && df[a] in df;
        if b < |df| {
          assert d[b] == df[b] && df[b] in df;
        }
      }
    }
  }

  /** `_identify_cognitive_skills` never returns an empty list; it returns
      `["remember"]` exactly when no indicator occurs in the lower-cased text;
      otherwise a level is listed exactly when one of its indicators occurs,
      and, for a taxonomy with distinct level names, each level at most once
      and in taxonomy order. */
  lemma CognitiveSkillsSpec(levels: seq<(string, seq<string>)>, text: string)
    ensures var r := CognitiveSkillsOf(levels, text);
      && |r| > 0
      && ((forall i :: 0 <= i < |levels| ==> !AnyIndicator(levels[i].1, Lower(text))) ==> r == ["remember"])
      && ((exists i :: 0 <= i < |levels| && AnyIndicator(levels[i].1, Lower(text))) ==>
            && r == DetectedSkills(levels, Lower(text))
            && (forall name :: name in r <==>
                  exists i :: 0 <= i < |levels| && levels[i].0 == name && AnyIndicator(levels[i].1, Lower(text)))
            && (DistinctKeys(levels) ==> InTaxonomyOrder(r, levels)))
  {
    DetectedSkillsMembers(levels, Lower(text));
    if DistinctKeys(levels) {
      DetectedSkillsOrdered(levels, Lower(text));
    }
    var d := DetectedSkills(levels, Lower(text));
    if d != [] {
      assert d[0] in d;
    }
    if exists i :: 0 <= i < |levels| && AnyIndicator(levels[i].1, Lower(text)) {
      var i :| 0 <= i < |levels| && AnyIndicator(levels[i].1, Lower(text));
      assert levels[i].0 in d;
    }
  }

  // ---------------------------------------------------------------------
  // Knowledge components
  // ---------------------------------------------------------------------

  /** `skill.replace("_", " ")`: the phrase looked for in the text. */
  function SkillPhrase(skill: string): string {
    ReplaceAll(skill, "_", " ")
  }

  /** `f"kc_{subject}_{category}_{skill}"` */
  function KcId(subject: string, category: string, skill: string): string {
    "kc_" + subject + "_" + category + "_" + skill
  }

  /** The component record built for a detected skill. */
  function MakeComponent(subject: string, category: string, skill: string): Component {
    Component(KcId(subject, category, skill), Some(Title(SkillPhrase(skill))), category, subject)
  }

  /** `any(c["id"] == id for c in cs)` */
  predicate HasId(cs: seq<Component>, id: string) {
    exists i :: 0 <= i < |cs| && cs[i].id == id
  }

  ghost predicate DistinctIds(cs: seq<Component>) {
    forall a, b :: 0 <= a < b < |cs| ==> cs[a].id != cs[b].id
  }

  /** One pass of the inner loop body: a mentioned skill whose id is not yet
      listed is appended. */
  function ConsiderSkill(cs: seq<Component>, subject: string, category: string, skill: string, text: string): seq<Component> {
    if Contains(text, SkillPhrase(skill)) && !HasId(cs, KcId(subject, category, skill)) then
      cs + [MakeComponent(subject, category, skill)]
    else cs
  }

  /** The inner loop over the skills of one category. */
  function ScanSkills(cs: seq<Component>, subject: string, category: string, skills: seq<string>, text: string): seq<Component> {
    if skills == [] then cs
    else ConsiderSkill(ScanSkills(cs, subject, category, skills[..|skills| - 1], text), subject, category, skills[|skills| - 1], text)
  }

  /** The outer loop over the categories of one subject. */
  function ScanCategories(cs: seq<Component>, subject: string, categories: Categories, text: string): seq<Component> {
    if categories == [] then cs
    else
      var last := categories[|categories| - 1];
      ScanSkills(ScanCategories(cs, subject, categories[..|categories| - 1], text), subject, last.0, last.1, text)
  }

  /** What `_identify_knowledge_components(text, subject)` returns: nothing
      for a subject missing from the taxonomy, otherwise the components of
      the skills of that subject mentioned in the lower-cased text. */
  function KnowledgeComponentsOf(subjects: seq<(string, Categories)>, text: string, subject: string): seq<Component> {
    var s := Lower(subject);
    var i := Find(subjects, s);
    if i < 0 then [] else ScanCategories([], s, subjects[i].1, Lower(text))
  }

  /** `_identify_knowledge_components(text, subject)` */
  method IdentifyKnowledgeComponents(p: Processor, text: string, subject: string) returns (components: seq<Component>)
    ensures components == KnowledgeComponentsOf(p.curriculum.subjects, text, subject)
  {
    var lowered := Lower(text);
    var s := Lower(subject);
    components := [];
    var index := Find(p.curriculum.subjects, s);
    if index < 0 {
      return;
    }
    var categories := p.curriculum.subjects[index].1;
    var i := 0;
    while i < |categories|
      invariant 0 <= i <= |categories|
      invariant components == ScanCategories([], s, categories[..i], lowered)
    {
      var category, skills := categories[i].0, categories[i].1;
      assert categories[..i + 1][..i] == categories[..i];
      ghost var before := components;
      var j := 0;
      while j < |skills|
        invariant 0 <= j <= |skills|
        invariant components == ScanSkills(before, s, category, skills[..j], lowered)
      {
        assert skills[..j + 1][..j] == skills[..j];
        var skill := skills[j];
        if Contains(lowered, SkillPhrase(skill)) {
          var id := KcId(s, category, skill);
          if !HasId(components, id) {
            components := components + [MakeComponent(s, category, skill)];
          }
        }
        j := j + 1;
      }
      assert skills[..|skills|] == skills;
      i := i + 1;
    }
    assert categories[..|categories|] == categories;
  }

  /** `c` is the component of a skill of `skills` that the text mentions. */
  ghost predicate MentionedSkill(c: Component, subject: string, category: string, skills: seq<string>, text: string) {
    exists k :: 0 <= k < |skills| && c == MakeComponent(subject, category, skills[k]) && Contains(text, SkillPhrase(skills[k]))
  }

  /** `c` is the component of a skill of some category that the text mentions. */
  ghost predicate MentionedInTaxonomy(c: Component, subject: string, categories: Categories, text: string) {
    exists k :: 0 <= k < |categories| && MentionedSkill(c, subject, categories[k].0, categories[k].1, text)
  }

  /** Every mentioned skill of `skills` has its id in `cs`. */
  ghost predicate CoversSkills(cs: seq<Component>, subject: string, category: string, skills: seq<string>, text: string) {
    forall k :: 0 <= k < |skills| && Contains(text, SkillPhrase(skills[k])) ==> HasId(cs, KcId(subject, category, skills[k]))
  }

  /** Scanning only appends: what was listed before stays, in place. */
  lemma {:induction false} ScanSkillsExtends(cs: seq<Component>, subject: string, category: string, skills: seq<string>, text: string)
    ensures cs <= ScanSkills(cs, subject, category, skills, text)
    decreases |skills|
  {
    if skills != [] {
      ScanSkillsExtends(cs, subject, category, skills[..|skills| - 1], text);
    }
  }

  lemma {:induction false} ScanCategoriesExtends(cs: seq<Component>, subject: string, categories: Categories, text: string)
    ensures cs <= ScanCategories(cs, subject, categories, text)
    decreases |categories|
  {
    if categories != [] {
      var front, last := categories[..|categories| - 1], categories[|categories| - 1];
      ScanCategoriesExtends(cs, subject, front, text);
      ScanSkillsExtends(ScanCategories(cs, subject, front, text), subject, last.0, last.1, text);
    }
  }

  /** An id is appended only when it is not yet listed. */
  lemma {:induction false} ScanSkillsDistinct(cs: seq<Component>, subject: string, category: string, skills: seq<string>, text: string)
    requires DistinctIds(cs)
    ensures DistinctIds(ScanSkills(cs, subject, category, skills, text))
    decreases |skills|
  {
    if skills != [] {
      var front := ScanSkills(cs, subject, category, skills[..|skills| - 1], text);
      ScanSkillsDistinct(cs, subject, category, skills[..|skills| - 1], text);
      var r := ConsiderSkill(front, subject, category, skills[|skills| - 1], text);
      if r != front {
        forall a, b | 0 <= a < b < |r| ensures r[a].id != r[b].id {
          if b == |front| {
            assert r[a] == front[a];
          }
        }
      }
    }
  }

  lemma {:induction false} ScanCategoriesDistinct(cs: seq<Component>, subject: string, categories: Categories, text: string)
    requires DistinctIds(cs)
    ensures DistinctIds(ScanCategories(cs, subject, categories, text))
    decreases |categories|
  {
    if categories != [] {
      var front, last := categories[..|categories| - 1], categories[|categories| - 1];
      ScanCategoriesDistinct(cs, subject, front, text);
      ScanSkillsDistinct(ScanCategories(cs, subject, front, text), subject, last.0, last.1, text);
    }
  }

  /** Everything a scan appends comes from a mentioned skill. */
  lemma {:induction false} ScanSkillsSound(cs: seq<Component>, subject: string, category: string, skills: seq<string>, text: string)
    ensures var r := ScanSkills(cs, subject, category, skills, text);
      forall k :: |cs| <= k < |r| ==> MentionedSkill(r[k], subject, category, skills, text)
    decreases |skills|
  {
    if skills != [] {
      var init, skill := skills[..|skills| - 1], skills[|skills| - 1];
      ScanSkillsSound(cs, subject, category, init, text);
      ScanSkillsExtends(cs, subject, category, init, text);
      var front := ScanSkills(cs, subject, category, init, text);
      var r := ConsiderSkill(front, subject, category, skill, text);
      forall k | |cs| <= k < |r| ensures MentionedSkill(r[k], subject, category, skills, text) {
        if k < |front| {
          assert r[k] == front[k];
          var m :| 0 <= m < |init| && front[k] == MakeComponent(subject, category, init[m]) && Contains(text, SkillPhrase(init[m]));
          assert skills[m] == init[m];
        } else {
          assert r[k] == MakeComponent(subject, category, skills[|skills| - 1]);
        }
      }
    }
  }

  lemma {:induction false} ScanCategoriesSound(cs: seq<Component>, subject: string, categories: Categories, text: string)
    ensures var r := ScanCategories(cs, subject, categories, text);
      forall k :: |cs| <= k < |r| ==> MentionedInTaxonomy(r[k], subject, categories, text)
    decreases |categories|
  {
    if categories != [] {
      var front, last := categories[..|categories| - 1], categories[|categories| - 1];
      ScanCategoriesSound(cs, subject, front, text);
      ScanCategoriesExtends(cs, subject, front, text);
      var mid := ScanCategories(cs, subject, front, text);
      ScanSkillsSound(mid, subject, last.0, last.1, text);
      var r := ScanSkills(mid, subject, last.0, last.1, text);
      ScanSkillsExtends(mid, subject, last.0, last.1, text);
      forall k | |cs| <= k < |r| ensures MentionedInTaxonomy(r[k], subject, categories, text) {
        if k < |mid| {
          assert r[k] == mid[k];
          var m :| 0 <= m < |front| && MentionedSkill(mid[k], subject, front[m].0, front[m].1, text);
          assert categories[m] == front[m];
        } else {
          assert MentionedSkill(r[k], subject, categories[|categories| - 1].0, categories[|categories| - 1].1, text);
        }
      }
    }
  }

  /** A listed id stays listed when the list is extended. */
  lemma HasIdExtends(cs: seq<Component>, r: seq<Component>, id: string)
    requires cs <= r && HasId(cs, id)
    ensures HasId(r, id)
  {
    var i :| 0 <= i < |cs| && cs[i].id == id;
    assert r[i] == cs[i];
  }

  /** Every mentioned skill ends up listed. */
  lemma {:induction false} ScanSkillsComplete(cs: seq<Component>, subject: string, category: string, skills: seq<string>, text: string)
    ensures CoversSkills(ScanSkills(cs, subject, category, skills, text), subject, category, skills, text)
    decreases |skills|
  {
    if skills != [] {
      var init, skill := skills[..|skills| - 1], skills[|skills| - 1];
      ScanSkillsComplete(cs, subject, category, init, text);
      var front := ScanSkills(cs, subject, category, init, text);
      var r := ConsiderSkill(front, subject, category, skill, text);
      assert front <= r;
      forall k | 0 <= k < |skills| && Contains(text, SkillPhrase(skills[k]))
        ensures HasId(r, KcId(subject, category, skills[k]))
      {
        if k < |init| {
          assert init[k] == skills[k];
          HasIdExtends(front, r, KcId(subject, category, skills[k]));
        } else if r != front {
          assert r[|front|].id == KcId(subject, category, skill);
        }
      }
    }
  }

  /** Coverage of one category survives scanning further categories. */
  lemma {:induction false} CoversExtends(cs: seq<Component>, r: seq<Component>, subject: string, category: string, skills: seq<string>, text: string)
    requires cs <= r && CoversSkills(cs, subject, category, skills, text)
    ensures CoversSkills(r, subject, category, skills, text)
  {
    forall k | 0 <= k < |skills| && Contains(text, SkillPhrase(skills[k]))
      ensures HasId(r, KcId(subject, category, skills[k]))
    {
      HasIdExtends(cs, r, KcId(subject, category, skills[k]));
    }
  }

  lemma {:induction false} ScanCategoriesComplete(cs: seq<Component>, subject: string, categories: Categories, text: string)
    ensures var r := ScanCategories(cs, subject, categories, text);
      forall k :: 0 <= k < |categories| ==> CoversSkills(r, subject, categories[k].0, categories[k].1, text)
    decreases |categories|
  {
    if categories != [] {
      var front, last := categories[..|categories| - 1], categories[|categories| - 1];
      ScanCategoriesComplete(cs, subject, front, text);
      var mid := ScanCategories(cs, subject, front, text);
      var r := ScanSkills(mid, subject, last.0, last.1, text);
      ScanSkillsExtends(mid, subject, last.0, last.1, text);
      ScanSkillsComplete(mid, subject, last.0, last.1, text);
      forall k | 0 <= k < |categories| ensures CoversSkills(r, subject, categories[k].0, categories[k].1, text) {
        if k < |front| {
          assert categories[k] == front[k];
          CoversExtends(mid, r, subject, front[k].0, front[k].1, text);
        } else {
          assert k == |categories| - 1;
        }
      }
    }
  }

  /** `_identify_knowledge_components` returns nothing for a subject missing
      from the taxonomy.  Otherwise its components have pairwise distinct ids;
      each is the record `kc_<subject>_<category>_<skill>` of a skill of the
      subject whose phrase occurs in the lower-cased text; and every such skill
      has its id listed. */
  lemma KnowledgeComponentsSpec(subjects: seq<(string, Categories)>, text: string, subject: string)
    ensures Find(subjects, Lower(subject)) < 0 ==> KnowledgeComponentsOf(subjects, text, subject) == []
    ensures DistinctIds(KnowledgeComponentsOf(subjects, text, subject))
    ensures Find(subjects, Lower(subject)) >= 0 ==>
      var categories := subjects[Find(subjects, Lower(subject))].1;
      var r := KnowledgeComponentsOf(subjects, text, subject);
      && (forall k :: 0 <= k < |r| ==> MentionedInTaxonomy(r[k], Lower(subject), categories, Lower(text)))
      && (forall k :: 0 <= k < |categories| ==> CoversSkills(r, Lower(subject), categories[k].0, categories[k].1, Lower(text)))
  {
    var i := Find(subjects, Lower(subject));
    if i >= 0 {
      ScanCategoriesDistinct([], Lower(subject), subjects[i].1, Lower(text));
      ScanCategoriesSound([], Lower(subject), subjects[i].1, Lower(text));
      ScanCategoriesComplete([], Lower(subject), subjects[i].1, Lower(text));
    }
  }

  // ---------------------------------------------------------------------
  // Difficulty
  // ---------------------------------------------------------------------

  /** The difficulty table of `_estimate_difficulty`; unlisted skills count 0.5. */
  function SkillDifficulty(skill: string): real {
    if skill == "remember" then 0.2
    else if skill == "understand" then 0.4
    else if skill == "apply" then 0.6
    else if skill == "analyze" then 0.7
    else if skill == "evaluate" then 0.8
    else if skill == "create" then 0.9
    else 0.5
  }

  function DifficultySum(skills: seq<string>): real {
    if skills == [] then 0.0 else DifficultySum(skills[..|skills| - 1]) + SkillDifficulty(skills[|skills| - 1])
  }

  /** `min(1.0, 0.1 * count)` */
  function Complexity(count: nat): real {
    var x := 0.1 * count as real;
    if 1.0 < x then 1.0 else x
  }

  /** `_estimate_difficulty(skills, components)`: 70% the mean table value of
      the skills, 30% the complexity of the component count, clamped to
      [0.1, 0.9]. */
  function EstimateDifficulty(skills: seq<string>, components: seq<Component>): (d: real)
    ensures 0.1 <= d <= 0.9
  {
    var average := DifficultySum(skills) / (if |skills| > 0 then |skills| else 1) as real;
    Clamp(0.7 * average + 0.3 * Complexity(|components|), 0.1, 0.9)
  }

  /** Every table value lies in [0.2, 0.9], so the sum is between those
      multiples of the count. */
  lemma {:induction false} DifficultySumBounds(skills: seq<string>)
    ensures 0.2 * |skills| as real <= DifficultySum(skills) <= 0.9 * |skills| as real
    decreases |skills|
  {
    if skills != [] {
      DifficultySumBounds(skills[..|skills| - 1]);
    }
  }

  /** With at least one skill the mean is at least 0.2, so the estimate is at
      least 0.14 whatever the components. */
  lemma DifficultyWithSkills(skills: seq<string>, components: seq<Component>)
    requires |skills| > 0
    ensures EstimateDifficulty(skills, components) >= 0.14
  {
    DifficultySumBounds(skills);
    var n := |skills| as real;
    var sum := DifficultySum(skills);
    var average := sum / n;
    var excess := sum - 0.2 * n;
    assert excess / n >= 0.0;
    assert (0.2 * n) / n == 0.2;
    assert average == excess / n + (0.2 * n) / n;
    assert average >= 0.2;
    assert 0.3 * Complexity(|components|) >= 0.0;
    assert 0.7 * average + 0.3 * Complexity(|components|) >= 0.14;
  }

  /** More components never make a question easier; from ten components on
      the count no longer matters. */
  lemma DifficultyComponentsMonotone(skills: seq<string>, c1: seq<Component>, c2: seq<Component>)
    requires |c1| <= |c2|
    ensures EstimateDifficulty(skills, c1) <= EstimateDifficulty(skills, c2)
    ensures |c1| >= 10 ==> EstimateDifficulty(skills, c1) == EstimateDifficulty(skills, c2)
  {
    var average := DifficultySum(skills) / (if |skills| > 0 then |skills| else 1) as real;
    ClampMonotone(0.7 * average + 0.3 * Complexity(|c1|), 0.7 * average + 0.3 * Complexity(|c2|), 0.1, 0.9);
  }

  /** Worked values of the formula. */
  lemma DifficultyExamples(c: Component)
    ensures EstimateDifficulty(["remember"], []) == 0.14
    ensures EstimateDifficulty(["apply", "analyze"], [c, c]) == 0.515
    ensures EstimateDifficulty(["create"], seq(10, _ => c)) == 0.9
    ensures EstimateDifficulty([], []) == 0.1
  {
    assert DifficultySum(["apply", "analyze"]) == 1.3 by {
      assert ["apply", "analyze"][..1] == ["apply"];
    }
  }

  // ---------------------------------------------------------------------
  // Correctness
  // ---------------------------------------------------------------------

  /** Python's `==` between two values (a bool equals the number 1 or 0). */
  predicate PyEquals(a: Value, b: Value) {
    match (a, b)
    case (VNone, VNone) => true
    case (VBool(x), VBool(y)) => x == y
    case (VBool(x), VNum(y, _)) => (if x then 1.0 else 0.0) == y
    case (VNum(x, _), VBool(y)) => x == (if y then 1.0 else 0.0)
    case (VNum(x, _), VNum(y, _)) => x == y
    case (VStr(x), VStr(y)) => x == y
    case _ => false
  }

  /** `str(v)` */
  function PyStr(v: Value): string {
    match v
    case VNone => "None"
    case VBool(b) => if b then "True" else "False"
    case VNum(_, text) => text
    case VStr(s) => s
  }

  /** `bool(v)` */
  predicate Truthy(v: Value) {
    match v
    case VNone => false
    case VBool(b) => b
    case VNum(x, _) => x != 0.0
    case VStr(s) => s != ""
  }

  /** `float(v)`; `None` where Python raises. */
  function PyFloat(v: Value): Option<real> {
    match v
    case VNone => None
    case VBool(b) => Some(if b then 1.0 else 0.0)
    case VNum(x, _) => Some(x)
    case VStr(s) => ParseDecimal(s)
  }

  function Abs(x: real): real { if x < 0.0 then -x else x }

  /** `_evaluate_correctness(question, response)`: the rule table per
      question type; a raised conversion error counts as incorrect. */
  function EvaluateCorrectness(q: Question, response: Value): (correct: bool)
    ensures q.correctAnswer.VNone? ==> !correct
    ensures q.questionType !in ["multiple_choice", "true_false", "fill_in", "numeric"] ==> !correct
    ensures q.questionType == "numeric" && (PyFloat(response).None? || PyFloat(q.correctAnswer).None?) ==> !correct
  {
    var answer := q.correctAnswer;
    if answer.VNone? then false
    else if q.questionType == "multiple_choice" then PyEquals(response, answer)
    else if q.questionType == "true_false" then
      if response.VStr? then Lower(response.s) == Lower(PyStr(answer))
      else Truthy(response) == Truthy(answer)
    else if q.questionType == "fill_in" then
      Lower(Strip(PyStr(response))) == Lower(Strip(PyStr(answer)))
    else if q.questionType == "numeric" then
      match (PyFloat(response), PyFloat(answer))
      case (Some(x), Some(y)) => Abs(x - y) <= q.tolerance.GetOr(0.001)
      case _ => false
    else false
  }

  /** Answering with the answer key itself is judged correct (for a numeric
      question: when the key is a number and the tolerance is not negative). */
  lemma KeyIsCorrect(q: Question)
    requires !q.correctAnswer.VNone?
    requires q.questionType in ["multiple_choice", "true_false", "fill_in"] ||
      (q.questionType == "numeric" && PyFloat(q.correctAnswer).Some? && q.tolerance.GetOr(0.001) >= 0.0)
    ensures EvaluateCorrectness(q, q.correctAnswer)
  {
  }

  /** Exchanging the response and the answer key does not change the verdict
      of a multiple-choice or numeric question. */
  lemma VerdictSymmetric(q: Question, a: Value, b: Value)
    requires q.questionType in ["multiple_choice", "numeric"]
    requires !a.VNone? && !b.VNone?
    ensures EvaluateCorrectness(q.(correctAnswer := b), a) == EvaluateCorrectness(q.(correctAnswer := a), b)
  {
    if q.questionType == "numeric" && PyFloat(a).Some? && PyFloat(b).Some? {
      assert Abs(PyFloat(a).value - PyFloat(b).value) == Abs(PyFloat(b).value - PyFloat(a).value);
    }
  }

  /** True/false and fill-in questions ignore the case of a string response. */
  lemma StringResponseIgnoresCase(q: Question, s: string)
    requires q.questionType in ["true_false", "fill_in"]
    ensures EvaluateCorrectness(q, VStr(Lower(s))) == EvaluateCorrectness(q, VStr(s))
  {
    LowerIdempotent(s);
    StripLower(s);
    LowerIdempotent(Strip(s));
  }

  /** Fill-in questions ignore blanks around the response. */
  lemma FillInIgnoresPadding(q: Question, s: string)
    requires q.questionType == "fill_in"
    ensures EvaluateCorrectness(q, VStr(" " + s + " ")) == EvaluateCorrectness(q, VStr(s))
  {
    StripPadding(s);
  }

  /** Worked verdicts for true/false and multiple-choice questions. */
  lemma ChoiceExamples(q: Question)
    ensures EvaluateCorrectness(q.(questionType := "true_false", correctAnswer := VBool(true)), VStr("TRUE"))
    ensures !EvaluateCorrectness(q.(questionType := "true_false", correctAnswer := VBool(true)), VStr("yes"))
    ensures EvaluateCorrectness(q.(questionType := "true_false", correctAnswer := VBool(true)), VNum(1.0, "1"))
    ensures EvaluateCorrectness(q.(questionType := "multiple_choice", correctAnswer := VNum(1.0, "1")), VBool(true))
    ensures !EvaluateCorrectness(q.(questionType := "multiple_choice", correctAnswer := VStr("1")), VNum(1.0, "1"))
    ensures !EvaluateCorrectness(q.(questionType := "essay", correctAnswer := VStr("x")), VStr("x"))
  {
    assert Lower("TRUE") == "true";
    assert Lower("True") == "true";
    assert Lower("yes") == "yes";
  }

  /** A fill-in answer is compared without case and surrounding blanks. */
  lemma FillInExample(q: Question)
    ensures EvaluateCorrectness(q.(questionType := "fill_in", correctAnswer := VStr("Paris")), VStr(" paris "))
  {
    assert Strip(" paris ") == "paris" by {
      StripPadding("paris");
    }
    StripUnpadded("Paris");
    assert Lower("paris") == "paris";
    assert Lower("Paris") == "paris";
  }

  /** A numeric question compares the parsed response with the parsed key
      within the tolerance, 0.001 when none is given. */
  lemma NumericVerdict(q: Question, response: Value, x: real, y: real)
    requires q.questionType == "numeric" && !q.correctAnswer.VNone?
    requires PyFloat(response) == Some(x) && PyFloat(q.correctAnswer) == Some(y)
    ensures EvaluateCorrectness(q, response) == (Abs(x - y) <= q.tolerance.GetOr(0.001))
  {
    assert q.questionType != "multiple_choice" && q.questionType != "true_false" && q.questionType != "fill_in";
  }

  /** Worked verdicts for a numeric question with key 10 and tolerance 0.01. */
  lemma NumericToleranceExamples(q: Question)
    requires q.questionType == "numeric" && q.correctAnswer == VNum(10.0, "10.0") && q.tolerance == Some(0.01)
    ensures EvaluateCorrectness(q, VStr("10.005"))
    ensures !EvaluateCorrectness(q, VStr("10.02"))
    ensures !EvaluateCorrectness(q, VStr("ten"))
  {
    ParseDecimalExample();
    NumericVerdict(q, VStr("10.005"), 10.005, 10.0);
    ParseDecimalExample2();
    NumericVerdict(q, VStr("10.02"), 10.02, 10.0);
    ParseDecimalRejectsWords();
  }

  /** Worked verdicts for a numeric question with key 10 and the default
      tolerance 0.001. */
  lemma NumericDefaultToleranceExamples(q: Question)
    requires q.questionType == "numeric" && q.correctAnswer == VNum(10.0, "10.0") && q.tolerance == None
    ensures EvaluateCorrectness(q, VNum(10.0005, "10.0005"))
    ensures !EvaluateCorrectness(q, VNum(10.002, "10.002"))
  {
    NumericVerdict(q, VNum(10.0005, "10.0005"), 10.0005, 10.0);
    NumericVerdict(q, VNum(10.002, "10.002"), 10.002, 10.0);
  }

  // ---------------------------------------------------------------------
  // Questions and assessments
  // ---------------------------------------------------------------------

  /** What `_process_question(question, subject, _)` returns, `freshId`
      standing for the uuid drawn when the question has no id. */
  function ProcessedQuestion(p: Processor, q: Question, subject: string, freshId: string): (r: Question)
    ensures r.questionId == Some(q.questionId.GetOr(freshId))
    ensures r.text == q.text && r.questionType == q.questionType
    ensures r.correctAnswer == q.correctAnswer && r.tolerance == q.tolerance
    ensures r.cognitiveSkills.Some? && r.knowledgeComponents.Some?
    ensures q.difficulty.Some? ==> r.difficulty == q.difficulty
  {
    var withId := q.(questionId := Some(q.questionId.GetOr(freshId)));
    if q.cognitiveSkills.Some? && q.knowledgeComponents.Some? then withId
    else if q.text == "" then withId.(cognitiveSkills := Some([]), knowledgeComponents := Some([]))
    else
      var skills := CognitiveSkillsOf(p.curriculum.cognitiveSkills, q.text);
      var components := KnowledgeComponentsOf(p.curriculum.subjects, q.text, subject);
      withId.(
        cognitiveSkills := Some(skills),
        knowledgeComponents := Some(components),
        difficulty := if q.difficulty.Some? then q.difficulty else Some(EstimateDifficulty(skills, components)))
  }

  /** `_process_question(question, subject, grade_level)` */
  method ProcessQuestion(p: Processor, q: Question, subject: string, freshId: string) returns (r: Question)
    ensures r == ProcessedQuestion(p, q, subject, freshId)
  {
    r := q;
    if r.questionId.None? {
      r := r.(questionId := Some(freshId));
    }
    if r.cognitiveSkills.Some? && r.knowledgeComponents.Some? {
      return;
    }
    if r.text == "" {
      r := r.(cognitiveSkills := Some([]), knowledgeComponents := Some([]));
      return;
    }
    var skills := IdentifyCognitiveSkills(p, r.text);
    r := r.(cognitiveSkills := Some(skills));
    var components := IdentifyKnowledgeComponents(p, r.text, subject);
    r := r.(knowledgeComponents := Some(components));
    if r.difficulty.None? {
      r := r.(difficulty := Some(EstimateDifficulty(skills, components)));
    }
  }

  /** A question that already has both lists is returned as it is, apart from
      an added id; so processing twice is processing once, whatever subject
      and fresh id the second pass is given. */
  lemma ProcessQuestionIdempotent(p: Processor, q: Question, subject: string, subject2: string, id1: string, id2: string)
    ensures q.cognitiveSkills.Some? && q.knowledgeComponents.Some? ==>
      ProcessedQuestion(p, q, subject, id1) == q.(questionId := Some(q.questionId.GetOr(id1)))
    ensures var once := ProcessedQuestion(p, q, subject, id1);
      ProcessedQuestion(p, once, subject2, id2) == once
  {
  }

  /** An unprocessed question without text gets two empty lists and no
      difficulty estimate. */
  lemma ProcessQuestionEmptyText(p: Processor, q: Question, subject: string, freshId: string)
    requires !(q.cognitiveSkills.Some? && q.knowledgeComponents.Some?) && q.text == ""
    ensures ProcessedQuestion(p, q, subject, freshId).cognitiveSkills == Some([])
    ensures ProcessedQuestion(p, q, subject, freshId).knowledgeComponents == Some([])
    ensures ProcessedQuestion(p, q, subject, freshId).difficulty == q.difficulty
  {
  }

  /** An unprocessed question with text gets a non-empty skill list, components
      with distinct ids, and a difficulty in [0.14, 0.9] unless it had one. */
  lemma ProcessQuestionWithText(p: Processor, q: Question, subject: string, freshId: string)
    requires !(q.cognitiveSkills.Some? && q.knowledgeComponents.Some?) && q.text != ""
    ensures var r := ProcessedQuestion(p, q, subject, freshId);
      && |r.cognitiveSkills.value| > 0
      && DistinctIds(r.knowledgeComponents.value)
      && r.difficulty.Some?
      && (q.difficulty.None? ==> 0.14 <= r.difficulty.value <= 0.9)
  {
    CognitiveSkillsSpec(p.curriculum.cognitiveSkills, q.text);
    KnowledgeComponentsSpec(p.curriculum.subjects, q.text, subject);
    var skills := CognitiveSkillsOf(p.curriculum.cognitiveSkills, q.text);
    DifficultyWithSkills(skills, KnowledgeComponentsOf(p.curriculum.subjects, q.text, subject));
  }

  /** What `process_assessment(assessment)` returns, the fresh ids and the
      clock reading given as inputs. */
  function ProcessedAssessment(p: Processor, a: Assessment, freshId: string, questionIds: nat -> string, now: string): (r: Assessment)
    ensures r.assessmentId == Some(a.assessmentId.GetOr(freshId))
    ensures r.title == a.title && r.subject == a.subject && r.gradeLevel == a.gradeLevel
    ensures r.questions.Some? <==> a.questions.Some?
    ensures a.questions.Some? ==> |r.questions.value| == |a.questions.value|
    ensures a.questions.Some? ==> forall k :: 0 <= k < |a.questions.value| ==>
      r.questions.value[k] == ProcessedQuestion(p, a.questions.value[k], a.subject, questionIds(k))
    ensures r.processedAt == Some(now)
  {
    var questions :=
      if a.questions.None? then None
      else Some(seq(|a.questions.value|, i requires 0 <= i < |a.questions.value| =>
                   ProcessedQuestion(p, a.questions.value[i], a.subject, questionIds(i))));
    a.(assessmentId := Some(a.assessmentId.GetOr(freshId)), questions := questions, processedAt := Some(now))
  }

  /** `process_assessment(assessment)` */
  method ProcessAssessment(p: Processor, a: Assessment, freshId: string, questionIds: nat -> string, now: string) returns (r: Assessment)
    ensures r == ProcessedAssessment(p, a, freshId, questionIds, now)
  {
    r := a;
    if r.assessmentId.None? {
      r := r.(assessmentId := Some(freshId));
    }
    if r.questions.Some? {
      var questions := r.questions.value;
      var processed: seq<Question> := [];
      var i := 0;
      while i < |questions|
        invariant 0 <= i <= |questions|
        invariant |processed| == i
        invariant forall k :: 0 <= k < i ==> processed[k] == ProcessedQuestion(p, questions[k], a.subject, questionIds(k))
      {
        var pq := ProcessQuestion(p, questions[i], r.subject, questionIds(i));
        processed := processed + [pq];
        i := i + 1;
      }
      assert processed == ProcessedAssessment(p, a, freshId, questionIds, now).questions.value;
      r := r.(questions := Some(processed));
    }
    r := r.(processedAt := Some(now));
  }

  /** Processing an assessment twice gives the first result with the second
      time stamp: ids, questions and their tags are kept. */
  lemma ProcessAssessmentIdempotent(p: Processor, a: Assessment, id1: string, ids1: nat -> string, now1: string,
                                    id2: string, ids2: nat -> string, now2: string)
    ensures var once := ProcessedAssessment(p, a, id1, ids1, now1);
      ProcessedAssessment(p, once, id2, ids2, now2) == once.(processedAt := Some(now2))
  {
    var once := ProcessedAssessment(p, a, id1, ids1, now1);
    var twice := ProcessedAssessment(p, once, id2, ids2, now2);
    if a.questions.Some? {
      var qs := once.questions.value;
      forall i | 0 <= i < |qs| ensures twice.questions.value[i] == qs[i] {
        ProcessQuestionIdempotent(p, a.questions.value[i], a.subject, a.subject, ids1(i), ids2(i));
      }
      assert twice.questions.value == qs;
    }
  }

  // ---------------------------------------------------------------------
  // Student responses
  // ---------------------------------------------------------------------

  /** The update recorded for every component: the fixed prior 0.5 passed
      through the tracer. */
  function FixedPriorUpdate(isCorrect: bool, difficulty: Option<real>): (u: KnowledgeUpdate)
    ensures u.prior == 0.5 && u.confidence == 0.5
    ensures 0.01 <= u.newValue <= 0.99
    ensures isCorrect ==> u.newValue >= 0.5
    ensures !isCorrect ==> u.newValue <= 0.5
  {
    var t := DefaultTracer();
    OutcomeDirection(t, 0.5, isCorrect, difficulty);
    var e := UpdateKnowledge(t, 0.5, isCorrect, difficulty);
    KnowledgeUpdate(0.5, e.value, e.confidence)
  }

  /** The loop filling `knowledge_updates`: components without an id are
      skipped, a repeated id overwrites its entry in place. */
  function ComponentUpdates(components: seq<Component>, u: KnowledgeUpdate): seq<(string, KnowledgeUpdate)> {
    if components == [] then []
    else
      var front := ComponentUpdates(components[..|components| - 1], u);
      var id := components[|components| - 1].id;
      if id == "" then front else Put(front, id, u)
  }

  /** What `process_student_response(student_id, question, response)` returns,
      `now` standing for the clock. */
  function StudentResponseTrace(p: Processor, studentId: string, q: Question, response: Value, now: string): Trace {
    if studentId == "" || q.questionId.None? then TraceError("Invalid inputs")
    else
      var correct := EvaluateCorrectness(q, response);
      Trace(
        Some(Interaction(now, studentId, q.questionId.value, correct, response)),
        ComponentUpdates(q.knowledgeComponents.GetOr([]), FixedPriorUpdate(correct, Some(q.difficulty.GetOr(0.5)))))
  }

  /** `process_student_response(student_id, question, response)` */
  method ProcessStudentResponse(p: Processor, studentId: string, q: Question, response: Value, now: string) returns (trace: Trace)
    ensures trace == StudentResponseTrace(p, studentId, q, response, now)
  {
    if studentId == "" || q.questionId.None? {
      return TraceError("Invalid inputs");
    }
    var correct := EvaluateCorrectness(q, response);
    var interaction := Interaction(now, studentId, q.questionId.value, correct, response);
    var components := q.knowledgeComponents.GetOr([]);
    var u := FixedPriorUpdate(correct, Some(q.difficulty.GetOr(0.5)));
    var updates: seq<(string, KnowledgeUpdate)> := [];
    var i := 0;
    while i < |components|
      invariant 0 <= i <= |components|
      invariant updates == ComponentUpdates(components[..i], u)
    {
      assert components[..i + 1][..i] == components[..i];
      var id := components[i].id;
      if id != "" {
        updates := Put(updates, id, u);
      }
      i := i + 1;
    }
    assert components[..|components|] == components;
    trace := Trace(Some(interaction), updates);
  }

  /** The update keys are distinct, ...*/
  lemma {:induction false} ComponentUpdatesDistinct(components: seq<Component>, u: KnowledgeUpdate)
    ensures DistinctKeys(ComponentUpdates(components, u))
    decreases |components|
  {
    if components != [] {
      var init := components[..|components| - 1];
      ComponentUpdatesDistinct(init, u);
      var id := components[|components| - 1].id;
      if id != "" {
        PutDistinct(ComponentUpdates(init, u), id, u);
      }
    }
  }

  /** ... they are exactly the non-empty component ids ... */
  lemma ComponentUpdatesKeys(components: seq<Component>, u: KnowledgeUpdate)
    ensures forall id :: id in Keys(ComponentUpdates(components, u)) <==>
      id != "" && exists k :: 0 <= k < |components| && components[k].id == id
  {
    ComponentUpdatesKeysFrom(components, u);
    ComponentUpdatesKeysCover(components, u);
  }

  /** Every key is the id of some component, and not empty. */
  lemma {:induction false} ComponentUpdatesKeysFrom(components: seq<Component>, u: KnowledgeUpdate)
    ensures forall id :: id in Keys(ComponentUpdates(components, u)) ==>
      id != "" && exists k :: 0 <= k < |components| && components[k].id == id
    decreases |components|
  {
    if components != [] {
      var init := components[..|components| - 1];
      ComponentUpdatesKeysFrom(init, u);
      forall x | x in Keys(ComponentUpdates(components, u))
        ensures x != "" && exists k :: 0 <= k < |components| && components[k].id == x
      {
        ComponentUpdatesKeysSnoc(components, u, x);
        if x in Keys(ComponentUpdates(init, u)) {
          var k :| 0 <= k < |init| && init[k].id == x;
          assert components[k] == init[k];
        } else {
          assert components[|components| - 1].id == x;
        }
      }
    }
  }

  /** Every non-empty component id is a key. */
  lemma {:induction false} ComponentUpdatesKeysCover(components: seq<Component>, u: KnowledgeUpdate)
    ensures forall k :: 0 <= k < |components| && components[k].id != "" ==> components[k].id in Keys(ComponentUpdates(components, u))
    decreases |components|
  {
    if components != [] {
      var init := components[..|components| - 1];
      ComponentUpdatesKeysCover(init, u);
      forall k | 0 <= k < |components| && components[k].id != ""
        ensures components[k].id in Keys(ComponentUpdates(components, u))
      {
        ComponentUpdatesKeysSnoc(components, u, components[k].id);
        if k < |init| {
          assert init[k] == components[k];
        } else {
          assert k == |components| - 1;
        }
      }
    }
  }

  /** One more component adds its id, when not empty, to the keys. */
  lemma ComponentUpdatesKeysSnoc(components: seq<Component>, u: KnowledgeUpdate, x: string)
    requires components != []
    ensures var last := components[|components| - 1].id;
      x in Keys(ComponentUpdates(components, u)) <==>
        x in Keys(ComponentUpdates(components[..|components| - 1], u)) || (last != "" && x == last)
  {
    var last := components[|components| - 1].id;
    if last != "" {
      InKeysPut(ComponentUpdates(components[..|components| - 1], u), last, u, x);
    }
  }

  /** Every entry of `d` holds `u`. */
  ghost predicate AllValues<K, V>(d: seq<(K, V)>, u: V) {
    forall i :: 0 <= i < |d| ==> d[i].1 == u
  }

  /** ... and every entry holds the same update. */
  lemma {:induction false} ComponentUpdatesValues(components: seq<Component>, u: KnowledgeUpdate)
    ensures AllValues(ComponentUpdates(components, u), u)
    decreases |components|
  {
    if components != [] {
      var init := components[..|components| - 1];
      ComponentUpdatesValues(init, u);
      ComponentUpdatesDistinct(init, u);
      var front := ComponentUpdates(init, u);
      var id := components[|components| - 1].id;
      var r := ComponentUpdates(components, u);
      if id != "" {
        assert r == Put(front, id, u);
        PutDistinct(front, id, u);
        forall i | 0 <= i < |r| ensures r[i].1 == u {
          GetAt(r, i);
          var k := r[i].0;
          assert Get(r, k) == r[i].1;
          if k != id {
            assert k in Keys(r);
            assert k in Keys(front);
            var j :| 0 <= j < |front| && Keys(front)[j] == k;
            GetAt(front, j);
            assert Get(front, k) == front[j].1;
            assert Get(r, k) == Get(front, k);
          } else {
            assert Get(r, id) == u;
          }
        }
      }
    }
  }

  /** `process_student_response` reports "Invalid inputs" exactly when the
      student id is empty or the question has no id.  Otherwise the
      interaction records the question's id and the judged outcome, the
      update keys are exactly the question's non-empty component ids, each
      once, and every update has prior 0.5, confidence 0.5 and a new value
      that moves in the direction of the outcome. */
  lemma StudentResponseSpec(p: Processor, studentId: string, q: Question, response: Value, now: string)
    ensures StudentResponseTrace(p, studentId, q, response, now).TraceError? <==> studentId == "" || q.questionId.None?
    ensures studentId != "" && q.questionId.Some? ==>
      var t := StudentResponseTrace(p, studentId, q, response, now);
      var components := q.knowledgeComponents.GetOr([]);
      var correct := EvaluateCorrectness(q, response);
      && t.interaction.Some?
      && t.interaction.value.questionId == q.questionId.value
      && t.interaction.value.studentId == studentId
      && t.interaction.value.isCorrect == correct
      && DistinctKeys(t.knowledgeUpdates)
      && (forall id :: id in Keys(t.knowledgeUpdates) <==>
            id != "" && exists k :: 0 <= k < |components| && components[k].id == id)
      && (forall i :: 0 <= i < |t.knowledgeUpdates| ==>
            && t.knowledgeUpdates[i].1.prior == 0.5
            && t.knowledgeUpdates[i].1.confidence == 0.5
            && (correct ==> t.knowledgeUpdates[i].1.newValue >= 0.5)
            && (!correct ==> t.knowledgeUpdates[i].1.newValue <= 0.5))
  {
    if studentId != "" && q.questionId.Some? {
      var correct := EvaluateCorrectness(q, response);
      var u := FixedPriorUpdate(correct, Some(q.difficulty.GetOr(0.5)));
      ComponentUpdatesDistinct(q.knowledgeComponents.GetOr([]), u);
      ComponentUpdatesKeys(q.knowledgeComponents.GetOr([]), u);
      ComponentUpdatesValues(q.knowledgeComponents.GetOr([]), u);
    }
  }
}
