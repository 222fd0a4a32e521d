/**
 * The resume-builder page's section editing: the experience, education and
 * skill lists, the form state that decides whether a save edits or appends,
 * and the set of sections with unsaved changes. Each handler replaces state
 * fields; new ids, which the page takes from `Date.now()`, are parameters.
 */
module ResumeBuilder {
  import opened Wrappers
  import opened Seqs
  import opened Resume
  import opened IdLists

  const ExperienceSection := "experience"
  const EducationSection := "education"
  const SkillsSection := "skills"

  /** The experience form submits only with a company and a position. */
  predicate ExperienceFormSubmits(d: ExperienceData) {
    d.company != "" && d.position != ""
  }

  /** The education form submits only with an institution and a degree. */
  predicate EducationFormSubmits(d: EducationData) {
    d.institution != "" && d.degree != ""
  }

  /** The skill form submits only with a name. */
  predicate SkillFormSubmits(d: SkillData) {
    d.name != ""
  }

  /** The "I currently work here" checkbox: ticking clears the end date, unticking keeps the form's end date. */
  function SetCurrent(d: ExperienceData, checked: bool): (r: ExperienceData)
    ensures r.current == checked
    ensures checked ==> r.endDate == ""
    ensures !checked ==> r.endDate == d.endDate
    ensures r.company == d.company && r.position == d.position && r.startDate == d.startDate
         && r.description == d.description
  {
    d.(current := checked, endDate := if checked then "" else d.endDate)
  }

  /** Unticking does not bring back the end date a tick cleared: it is gone from the form. */
  lemma TickThenUntickClearsEndDate(d: ExperienceData)
    ensures SetCurrent(SetCurrent(d, true), false) == d.(current := false, endDate := "")
  {
  }

  /** The names of the skills, in skill order. */
  function NamesOf(skills: seq<Skill>): (r: seq<string>)
    ensures |r| == |skills|
    ensures forall i :: 0 <= i < |skills| ==> r[i] == skills[i].data.name
  {
    seq(|skills|, i requires 0 <= i < |skills| => skills[i].data.name)
  }

  /** Whether a skill is at `level`. */
  function AtLevel(level: Level): Skill -> bool {
    (s: Skill) => s.data.level == level
  }

  /** Names of the skills at one level, in skill order. */
  function NamesAt(skills: seq<Skill>, level: Level): (r: seq<string>)
    ensures |r| <= |skills|
    ensures forall n :: n in r ==> exists s :: s in skills && s.data.level == level && s.data.name == n
    ensures Subsequence(r, NamesOf(skills))
  {
    if skills == [] then []
    else
      var init, last := skills[..|skills| - 1], skills[|skills| - 1];
      var rest := NamesAt(init, level);
      assert NamesOf(skills) == NamesOf(init) + [last.data.name];
      if last.data.level == level then
        SubsequenceSnoc(rest, NamesOf(init), last.data.name);
        rest + [last.data.name]
      else
        SubsequenceSnocRight(rest, NamesOf(init), last.data.name);
        rest
  }

  /** A level's group is the names of exactly that level's skills, in skill order. */
  lemma {:induction false} NamesAtIsFilteredNames(skills: seq<Skill>, level: Level)
    ensures NamesAt(skills, level) == NamesOf(Filter(skills, AtLevel(level)))
  {
    if skills != [] {
      var init, last := skills[..|skills| - 1], skills[|skills| - 1];
      var kept := Filter(init, AtLevel(level));
      NamesAtIsFilteredNames(init, level);
      assert NamesOf(kept + [last]) == NamesOf(kept) + [last.data.name];
    }
  }

  /** The levels of the skills, in skill order. */
  function LevelsOf(skills: seq<Skill>): (r: seq<Level>)
    ensures |r| == |skills|
    ensures forall i :: 0 <= i < |skills| ==> r[i] == skills[i].data.level
  {
    seq(|skills|, i requires 0 <= i < |skills| => skills[i].data.level)
  }

  /** Every skill lands in exactly one group: the group sizes add up to the number of skills. */
  lemma {:induction false} GroupSizesSum(skills: seq<Skill>)
    ensures |NamesAt(skills, Beginner)| + |NamesAt(skills, Intermediate)| + |NamesAt(skills, Advanced)|
            + |NamesAt(skills, Expert)| == |skills|
  {
    if skills != [] {
      GroupSizesSum(skills[..|skills| - 1]);
    }
  }

  /** A skill's name is in its own level's group. */
  lemma {:induction false} NameInOwnGroup(skills: seq<Skill>, k: nat)
    requires k < |skills|
    ensures skills[k].data.name in NamesAt(skills, skills[k].data.level)
  {
    var init := skills[..|skills| - 1];
    if k < |skills| - 1 {
      assert init[k] == skills[k];
      NameInOwnGroup(init, k);
    }
  }

  /** A level no skill has yet has an empty group. */
  lemma {:induction false} NoNamesAtAbsentLevel(skills: seq<Skill>, level: Level)
    requires level !in LevelsOf(skills)
    ensures NamesAt(skills, level) == []
  {
    if skills != [] {
      var init := skills[..|skills| - 1];
      assert LevelsOf(skills)[|skills| - 1] == skills[|skills| - 1].data.level;
      assert forall k :: 0 <= k < |init| ==> LevelsOf(init)[k] == LevelsOf(skills)[k];
      NoNamesAtAbsentLevel(init, level);
    }
  }

  /** One more skill appends its level to the level list. */
  lemma LevelsPrefixStep(skills: seq<Skill>, i: nat)
    requires i < |skills|
    ensures LevelsOf(skills[..i + 1]) == LevelsOf(skills[..i]) + [skills[i].data.level]
  {
    assert skills[..i + 1][..i] == skills[..i];
  }

  /** One more skill appends its name to its own level's group and leaves the other groups alone. */
  lemma NamesPrefixStep(skills: seq<Skill>, i: nat)
    requires i < |skills|
    ensures forall l :: NamesAt(skills[..i + 1], l)
                     == NamesAt(skills[..i], l) + (if skills[i].data.level == l then [skills[i].data.name] else [])
  {
    assert skills[..i + 1][..i] == skills[..i];
  }

  /** `keys` lists values in the order of their first appearance in `seen`. */
  predicate InFirstAppearanceOrder<T(==)>(keys: seq<T>, seen: seq<T>) {
    forall a, b :: 0 <= a < b < |keys| ==> IndexOf(seen, keys[a]) < IndexOf(seen, keys[b])
  }

  /**
   * Keys kept in first-appearance order stay so when one more value is seen,
   * with that value added at the end when it is new.
   */
  lemma FirstAppearanceStep<T>(seen: seq<T>, keys: seq<T>, x: T)
    requires forall k :: k in keys ==> k in seen
    requires InFirstAppearanceOrder(keys, seen)
    ensures x in seen ==> InFirstAppearanceOrder(keys, seen + [x])
    ensures x !in seen ==> InFirstAppearanceOrder(keys + [x], seen + [x])
  {
    forall k | k in seen ensures IndexOf(seen + [x], k) == IndexOf(seen, k) {
      IndexOfSnoc(seen, x, k);
    }
    if x !in seen {
      IndexOfSnoc(seen, x, x);
      var keys' := keys + [x];
      forall a, b | 0 <= a < b < |keys'| ensures IndexOf(seen + [x], keys'[a]) < IndexOf(seen + [x], keys'[b]) {
        assert keys'[a] == keys[a] && keys[a] in seen;
        if b < |keys| {
          assert keys'[b] == keys[b] && keys[b] in seen;
        }
      }
    }
  }

  /** The groups exist for exactly the levels seen. */
  ghost predicate KeysAre(groups: map<Level, seq<string>>, seen: seq<Level>) {
    forall l :: l in groups <==> l in seen
  }

  /** Each group holds the names at its level, in order. */
  ghost predicate GroupsHoldNames(skills: seq<Skill>, groups: map<Level, seq<string>>) {
    forall l :: l in groups ==> groups[l] == NamesAt(skills, l)
  }

  /** `levels` lists the keys of `groups` once each. */
  ghost predicate ListsKeys(levels: seq<Level>, groups: map<Level, seq<string>>) {
    Distinct(levels) && forall l :: l in levels <==> l in groups
  }

  /**
   * `groups` holds, for each level present in `skills`, the names at that
   * level in order, and `levels` lists those levels once each in the order
   * they first appear.
   */
  ghost predicate GroupedByLevel(skills: seq<Skill>, groups: map<Level, seq<string>>, levels: seq<Level>) {
    && KeysAre(groups, LevelsOf(skills))
    && GroupsHoldNames(skills, groups)
    && ListsKeys(levels, groups)
    && InFirstAppearanceOrder(levels, LevelsOf(skills))
  }

  /** The group for `level` with `name` pushed onto it, created empty first when the level is new. */
  function PushName(groups: map<Level, seq<string>>, level: Level, name: string): (r: map<Level, seq<string>>)
    ensures r.Keys == groups.Keys + {level}
    ensures r[level] == (if level in groups then groups[level] else []) + [name]
    ensures forall l :: l in groups && l != level ==> r[l] == groups[l]
  {
    groups[level := (if level in groups then groups[level] else []) + [name]]
  }

  /** Pushing the next skill adds a group exactly for its level. */
  lemma GroupKeysStep(skills: seq<Skill>, i: nat, groups: map<Level, seq<string>>)
    requires i < |skills| && KeysAre(groups, LevelsOf(skills[..i]))
    ensures KeysAre(PushName(groups, skills[i].data.level, skills[i].data.name), LevelsOf(skills[..i + 1]))
  {
    LevelsPrefixStep(skills, i);
  }

  /** Pushing the next skill keeps each group equal to the names at its level. */
  lemma GroupNamesStep(skills: seq<Skill>, i: nat, groups: map<Level, seq<string>>)
    requires i < |skills|
    requires KeysAre(groups, LevelsOf(skills[..i])) && GroupsHoldNames(skills[..i], groups)
    ensures GroupsHoldNames(skills[..i + 1], PushName(groups, skills[i].data.level, skills[i].data.name))
  {
    var level := skills[i].data.level;
    NamesPrefixStep(skills, i);
    if level !in groups {
      NoNamesAtAbsentLevel(skills[..i], level);
    }
  }

  /** A level added at the end only when it has no group yet keeps the level list duplicate-free and in step with the groups. */
  lemma LevelListStep(levels: seq<Level>, groups: map<Level, seq<string>>, level: Level, name: string)
    requires ListsKeys(levels, groups)
    ensures ListsKeys(if level in groups then levels else levels + [level], PushName(groups, level, name))
  {
    if level !in groups {
      var r := levels + [level];
      assert forall a :: 0 <= a < |levels| ==> r[a] == levels[a] && levels[a] in levels;
    }
  }

  /** One step of the reduce: push the next skill's name, creating its group when its level is new. */
  lemma GroupStep(skills: seq<Skill>, i: nat, groups: map<Level, seq<string>>, levels: seq<Level>)
    requires i < |skills| && GroupedByLevel(skills[..i], groups, levels)
    ensures var level := skills[i].data.level;
            GroupedByLevel(skills[..i + 1],
                           PushName(groups, level, skills[i].data.name),
                           if level in groups then levels else levels + [level])
  {
    var level := skills[i].data.level;
    GroupKeysStep(skills, i, groups);
    GroupNamesStep(skills, i, groups);
    LevelListStep(levels, groups, level, skills[i].data.name);
    LevelsPrefixStep(skills, i);
    FirstAppearanceStep(LevelsOf(skills[..i]), levels, level);
  }

  /**
   * The `skillsByLevel` reduce: a group is created for a level the first time
   * it is seen and each name is pushed onto its level's group. `levels` is the
   * key order `Object.entries` then reports (insertion order).
   */
  method GroupSkillsByLevel(skills: seq<Skill>) returns (groups: map<Level, seq<string>>, levels: seq<Level>)
    ensures forall l :: l in groups <==> l in LevelsOf(skills)
    ensures forall l :: l in groups ==> groups[l] == NamesAt(skills, l)
    ensures forall l :: l in groups ==> groups[l] == NamesOf(Filter(skills, AtLevel(l)))
    ensures Distinct(levels)
    ensures forall l :: l in levels <==> l in LevelsOf(skills)
    ensures InFirstAppearanceOrder(levels, LevelsOf(skills))
  {
    groups := map[];
    levels := [];
    for i := 0 to |skills|
      invariant GroupedByLevel(skills[..i], groups, levels)
    {
      var level, name := skills[i].data.level, skills[i].data.name;
      GroupStep(skills, i, groups, levels);
      var group: seq<string>;
      if level in groups {
        group := groups[level];
      } else {
        group := [];
        levels := levels + [level];
      }
      groups := groups[level := group + [name]];
    }
    assert skills[..|skills|] == skills;
    forall l | l in groups ensures groups[l] == NamesOf(Filter(skills, AtLevel(l))) {
      NamesAtIsFilteredNames(skills, l);
    }
  }

  /**
   * The page's editing state. `editingX` is the entry whose form is open for
   * editing (None while adding), `showXForm` whether that section's form is open.
   */
  class ResumeBuilder {
    var experiences: seq<Experience>
    var education: seq<Education>
    var skills: seq<Skill>
    var unsavedChanges: set<string>
    var showExperienceForm: bool
    var editingExperience: Option<Experience>
    var showEducationForm: bool
    var editingEducation: Option<Education>
    var showSkillForm: bool
    var editingSkill: Option<Skill>

    /** Ids are unique within each list. */
    predicate Valid()
      reads this
    {
      UniqueIds(experiences, ExperienceId) && UniqueIds(education, EducationId) && UniqueIds(skills, SkillId)
    }

    constructor()
      ensures experiences == [] && education == [] && skills == [] && unsavedChanges == {}
      ensures !showExperienceForm && editingExperience.None?
      ensures !showEducationForm && editingEducation.None?
      ensures !showSkillForm && editingSkill.None?
      ensures Valid()
    {
      experiences := [];
      education := [];
      skills := [];
      unsavedChanges := {};
      showExperienceForm := false;
      editingExperience := None;
      showEducationForm := false;
      editingEducation := None;
      showSkillForm := false;
      editingSkill := None;
    }

    /** `markSectionAsChanged`: the section joins the unsaved set. */
    method MarkSectionAsChanged(section: string)
      modifies this
      ensures unsavedChanges == old(unsavedChanges) + {section}
      ensures experiences == old(experiences) && education == old(education) && skills == old(skills)
      ensures showExperienceForm == old(showExperienceForm) && editingExperience == old(editingExperience)
      ensures showEducationForm == old(showEducationForm) && editingEducation == old(editingEducation)
      ensures showSkillForm == old(showSkillForm) && editingSkill == old(editingSkill)
    {
      unsavedChanges := unsavedChanges + {section};
    }

    /** `markSectionAsSaved`: only that section leaves the unsaved set. */
    method MarkSectionAsSaved(section: string)
      modifies this
      ensures unsavedChanges == old(unsavedChanges) - {section}
      ensures experiences == old(experiences) && education == old(education) && skills == old(skills)
      ensures showExperienceForm == old(showExperienceForm) && editingExperience == old(editingExperience)
      ensures showEducationForm == old(showEducationForm) && editingEducation == old(editingEducation)
      ensures showSkillForm == old(showSkillForm) && editingSkill == old(editingSkill)
    {
      unsavedChanges := unsavedChanges - {section};
    }

    /** `addExperience`: opens an empty form. */
    method AddExperience()
      modifies this
      ensures showExperienceForm && editingExperience.None?
      ensures experiences == old(experiences) && education == old(education) && skills == old(skills)
      ensures unsavedChanges == old(unsavedChanges)
      ensures showEducationForm == old(showEducationForm) && editingEducation == old(editingEducation)
      ensures showSkillForm == old(showSkillForm) && editingSkill == old(editingSkill)
    {
      showExperienceForm := true;
      editingExperience := None;
    }

    /** `editExperience`: opens the form on an existing entry. */
    method EditExperience(e: Experience)
      modifies this
      ensures showExperienceForm && editingExperience == Some(e)
      ensures experiences == old(experiences) && education == old(education) && skills == old(skills)
      ensures unsavedChanges == old(unsavedChanges)
      ensures showEducationForm == old(showEducationForm) && editingEducation == old(editingEducation)
      ensures showSkillForm == old(showSkillForm) && editingSkill == old(editingSkill)
    {
      editingExperience := Some(e);
      showExperienceForm := true;
    }

    /** `cancelExperienceForm`: closes the form, the list stays as it was. */
    method CancelExperienceForm()
      modifies this
      ensures !showExperienceForm && editingExperience.None?
      ensures experiences == old(experiences) && education == old(education) && skills == old(skills)
      ensures unsavedChanges == old(unsavedChanges)
      ensures showEducationForm == old(showEducationForm) && editingEducation == old(editingEducation)
      ensures showSkillForm == old(showSkillForm) && editingSkill == old(editingSkill)
    {
      showExperienceForm := false;
      editingExperience := None;
    }

    /** `deleteExperience`: every entry with that id goes, the rest keep their order; the section is marked changed. */
    method DeleteExperience(id: string)
      modifies this
      ensures experiences == RemoveId(old(experiences), ExperienceId, id)
      ensures unsavedChanges == old(unsavedChanges) + {ExperienceSection}
      ensures education == old(education) && skills == old(skills)
      ensures showExperienceForm == old(showExperienceForm) && editingExperience == old(editingExperience)
      ensures showEducationForm == old(showEducationForm) && editingEducation == old(editingEducation)
      ensures showSkillForm == old(showSkillForm) && editingSkill == old(editingSkill)
      ensures old(Valid()) ==> Valid()
    {
      if Valid() {
        RemoveIdKeepsUnique(experiences, ExperienceId, id);
      }
      experiences := RemoveId(experiences, ExperienceId, id);
      MarkSectionAsChanged(ExperienceSection);
    }

    /**
     * `saveExperience`: while editing, the entry with the edited id takes the
     * form's data and keeps its id; otherwise a new entry with `newId` is
     * appended. The form closes and the section is marked changed.
     */
    method SaveExperience(data: ExperienceData, newId: string)
      modifies this
      ensures old(editingExperience).Some? ==>
                experiences == ReplaceId(old(experiences), ExperienceId, old(editingExperience).value.id,
                                         Experience(old(editingExperience).value.id, data))
      ensures old(editingExperience).None? ==> experiences == old(experiences) + [Experience(newId, data)]
      ensures !showExperienceForm && editingExperience.None?
      ensures unsavedChanges == old(unsavedChanges) + {ExperienceSection}
      ensures education == old(education) && skills == old(skills)
      ensures showEducationForm == old(showEducationForm) && editingEducation == old(editingEducation)
      ensures showSkillForm == old(showSkillForm) && editingSkill == old(editingSkill)
      ensures old(Valid()) && (old(editingExperience).None? ==> newId !in Ids(old(experiences), ExperienceId)) ==> Valid()
    {
      if editingExperience.Some? {
        var id := editingExperience.value.id;
        ReplaceIdKeepsIds(experiences, ExperienceId, Experience(id, data));
        experiences := ReplaceId(experiences, ExperienceId, id, Experience(id, data));
      } else {
        if Valid() && newId !in Ids(experiences, ExperienceId) {
          AppendKeepsUnique(experiences, ExperienceId, Experience(newId, data));
        }
        experiences := experiences + [Experience(newId, data)];
      }
      showExperienceForm := false;
      editingExperience := None;
      MarkSectionAsChanged(ExperienceSection);
    }

    /** The experience form's submit handler: saves only a form with company and position. */
    method SubmitExperienceForm(data: ExperienceData, newId: string)
      modifies this
      ensures !ExperienceFormSubmits(data) ==>
                experiences == old(experiences) && unsavedChanges == old(unsavedChanges)
                && showExperienceForm == old(showExperienceForm) && editingExperience == old(editingExperience)
      ensures ExperienceFormSubmits(data) && old(editingExperience).None? ==>
                experiences == old(experiences) + [Experience(newId, data)] && !showExperienceForm
      ensures ExperienceFormSubmits(data) && old(editingExperience).Some? ==>
                experiences == ReplaceId(old(experiences), ExperienceId, old(editingExperience).value.id,
                                         Experience(old(editingExperience).value.id, data))
                && !showExperienceForm
      ensures ExperienceFormSubmits(data) ==> unsavedChanges == old(unsavedChanges) + {ExperienceSection}
      ensures ExperienceFormSubmits(data) ==> editingExperience.None?
      ensures old(Valid()) && (old(editingExperience).None? ==> newId !in Ids(old(experiences), ExperienceId)) ==> Valid()
      ensures education == old(education) && skills == old(skills)
      ensures showEducationForm == old(showEducationForm) && editingEducation == old(editingEducation)
      ensures showSkillForm == old(showSkillForm) && editingSkill == old(editingSkill)
    {
      if data.company != "" && data.position != "" {
        SaveExperience(data, newId);
      }
    }

    /** `addEducation`: opens an empty form. */
    method AddEducation()
      modifies this
      ensures showEducationForm && editingEducation.None?
      ensures experiences == old(experiences) && education == old(education) && skills == old(skills)
      ensures unsavedChanges == old(unsavedChanges)
      ensures showExperienceForm == old(showExperienceForm) && editingExperience == old(editingExperience)
      ensures showSkillForm == old(showSkillForm) && editingSkill == old(editingSkill)
    {
      showEducationForm := true;
      editingEducation := None;
    }

    /** `editEducation`: opens the form on an existing entry. */
    method EditEducation(e: Education)
      modifies this
      ensures showEducationForm && editingEducation == Some(e)
      ensures experiences == old(experiences) && education == old(education) && skills == old(skills)
      ensures unsavedChanges == old(unsavedChanges)
      ensures showExperienceForm == old(showExperienceForm) && editingExperience == old(editingExperience)
      ensures showSkillForm == old(showSkillForm) && editingSkill == old(editingSkill)
    {
      editingEducation := Some(e);
      showEducationForm := true;
    }

    /** `cancelEducationForm`: closes the form, the list stays as it was. */
    method CancelEducationForm()
      modifies this
      ensures !showEducationForm && editingEducation.None?
      ensures experiences == old(experiences) && education == old(education) && skills == old(skills)
      ensures unsavedChanges == old(unsavedChanges)
      ensures showExperienceForm == old(showExperienceForm) && editingExperience == old(editingExperience)
      ensures showSkillForm == old(showSkillForm) && editingSkill == old(editingSkill)
    {
      showEducationForm := false;
      editingEducation := None;
    }

    /** `deleteEducation`: every entry with that id goes, the rest keep their order; the section is marked changed. */
    method DeleteEducation(id: string)
      modifies this
      ensures education == RemoveId(old(education), EducationId, id)
      ensures unsavedChanges == old(unsavedChanges) + {EducationSection}
      ensures experiences == old(experiences) && skills == old(skills)
      ensures showExperienceForm == old(showExperienceForm) && editingExperience == old(editingExperience)
      ensures showEducationForm == old(showEducationForm) && editingEducation == old(editingEducation)
      ensures showSkillForm == old(showSkillForm) && editingSkill == old(editingSkill)
      ensures old(Valid()) ==> Valid()
    {
      if Valid() {
        RemoveIdKeepsUnique(education, EducationId, id);
      }
      education := RemoveId(education, EducationId, id);
      MarkSectionAsChanged(EducationSection);
    }

    /**
     * `saveEducation`: while editing, the entry with the edited id takes the
     * form's data and keeps its id; otherwise a new entry with `newId` is
     * appended. The form closes and the section is marked changed.
     */
    method SaveEducation(data: EducationData, newId: string)
      modifies this
      ensures old(editingEducation).Some? ==>
                education == ReplaceId(old(education), EducationId, old(editingEducation).value.id,
                                       Education(old(editingEducation).value.id, data))
      ensures old(editingEducation).None? ==> education == old(education) + [Education(newId, data)]
      ensures !showEducationForm && editingEducation.None?
      ensures unsavedChanges == old(unsavedChanges) + {EducationSection}
      ensures experiences == old(experiences) && skills == old(skills)
      ensures showExperienceForm == old(showExperienceForm) && editingExperience == old(editingExperience)
      ensures showSkillForm == old(showSkillForm) && editingSkill == old(editingSkill)
      ensures old(Valid()) && (old(editingEducation).None? ==> newId !in Ids(old(education), EducationId)) ==> Valid()
    {
      if editingEducation.Some? {
        var id := editingEducation.value.id;
        ReplaceIdKeepsIds(education, EducationId, Education(id, data));
        education := ReplaceId(education, EducationId, id, Education(id, data));
      } else {
        if Valid() && newId !in Ids(education, EducationId) {
          AppendKeepsUnique(education, EducationId, Education(newId, data));
        }
        education := education + [Education(newId, data)];
      }
      showEducationForm := false;
      editingEducation := None;
      MarkSectionAsChanged(EducationSection);
    }

    /** The education form's submit handler: saves only a form with institution and degree. */
    method SubmitEducationForm(data: EducationData, newId: string)
      modifies this
      ensures !EducationFormSubmits(data) ==>
                education == old(education) && unsavedChanges == old(unsavedChanges)
                && showEducationForm == old(showEducationForm) && editingEducation == old(editingEducation)
      ensures EducationFormSubmits(data) && old(editingEducation).None? ==>
                education == old(education) + [Education(newId, data)] && !showEducationForm
      ensures EducationFormSubmits(data) && old(editingEducation).Some? ==>
                education == ReplaceId(old(education), EducationId, old(editingEducation).value.id,
                                       Education(old(editingEducation).value.id, data))
                && !showEducationForm
      ensures EducationFormSubmits(data) ==> unsavedChanges == old(unsavedChanges) + {EducationSection}
      ensures EducationFormSubmits(data) ==> editingEducation.None?
      ensures old(Valid()) && (old(editingEducation).None? ==> newId !in Ids(old(education), EducationId)) ==> Valid()
      ensures experiences == old(experiences) && skills == old(skills)
      ensures showExperienceForm == old(showExperienceForm) && editingExperience == old(editingExperience)
      ensures showSkillForm == old(showSkillForm) && editingSkill == old(editingSkill)
    {
      if data.institution != "" && data.degree != "" {
        SaveEducation(data, newId);
      }
    }

    /** `addSkill`: opens an empty form. */
    method AddSkill()
      modifies this
      ensures showSkillForm && editingSkill.None?
      ensures experiences == old(experiences) && education == old(education) && skills == old(skills)
      ensures unsavedChanges == old(unsavedChanges)
      ensures showExperienceForm == old(showExperienceForm) && editingExperience == old(editingExperience)
      ensures showEducationForm == old(showEducationForm) && editingEducation == old(editingEducation)
    {
      showSkillForm := true;
      editingSkill := None;
    }

    /** `editSkill`: opens the form on an existing skill. */
    method EditSkill(s: Skill)
      modifies this
      ensures showSkillForm && editingSkill == Some(s)
      ensures experiences == old(experiences) && education == old(education) && skills == old(skills)
      ensures unsavedChanges == old(unsavedChanges)
      ensures showExperienceForm == old(showExperienceForm) && editingExperience == old(editingExperience)
      ensures showEducationForm == old(showEducationForm) && editingEducation == old(editingEducation)
    {
      editingSkill := Some(s);
      showSkillForm := true;
    }

    /** `cancelSkillForm`: closes the form, the list stays as it was. */
    method CancelSkillForm()
      modifies this
      ensures !showSkillForm && editingSkill.None?
      ensures experiences == old(experiences) && education == old(education) && skills == old(skills)
      ensures unsavedChanges == old(unsavedChanges)
      ensures showExperienceForm == old(showExperienceForm) && editingExperience == old(editingExperience)
      ensures showEducationForm == old(showEducationForm) && editingEducation == old(editingEducation)
    {
      showSkillForm := false;
      editingSkill := None;
    }

    /** `deleteSkill`: every skill with that id goes, the rest keep their order; the section is marked changed. */
    method DeleteSkill(id: string)
      modifies this
      ensures skills == RemoveId(old(skills), SkillId, id)
      ensures unsavedChanges == old(unsavedChanges) + {SkillsSection}
      ensures experiences == old(experiences) && education == old(education)
      ensures showExperienceForm == old(showExperienceForm) && editingExperience == old(editingExperience)
      ensures showEducationForm == old(showEducationForm) && editingEducation == old(editingEducation)
      ensures showSkillForm == old(showSkillForm) && editingSkill == old(editingSkill)
      ensures old(Valid()) ==> Valid()
    {
      if Valid() {
        RemoveIdKeepsUnique(skills, SkillId, id);
      }
      skills := RemoveId(skills, SkillId, id);
      MarkSectionAsChanged(SkillsSection);
    }

    /**
     * `saveSkill`: while editing, the skill with the edited id takes the form's
     * data and keeps its id; otherwise a new skill with `newId` is appended.
     * The form closes and the section is marked changed.
     */
    method SaveSkill(data: SkillData, newId: string)
      modifies this
      ensures old(editingSkill).Some? ==>
                skills == ReplaceId(old(skills), SkillId, old(editingSkill).value.id, Skill(old(editingSkill).value.id, data))
      ensures old(editingSkill).None? ==> skills == old(skills) + [Skill(newId, data)]
      ensures !showSkillForm && editingSkill.None?
      ensures unsavedChanges == old(unsavedChanges) + {SkillsSection}
      ensures experiences == old(experiences) && education == old(education)
      ensures showExperienceForm == old(showExperienceForm) && editingExperience == old(editingExperience)
      ensures showEducationForm == old(showEducationForm) && editingEducation == old(editingEducation)
      ensures old(Valid()) && (old(editingSkill).None? ==> newId !in Ids(old(skills), SkillId)) ==> Valid()
    {
      if editingSkill.Some? {
        var id := editingSkill.value.id;
        ReplaceIdKeepsIds(skills, SkillId, Skill(id, data));
        skills := ReplaceId(skills, SkillId, id, Skill(id, data));
      } else {
        if Valid() && newId !in Ids(skills, SkillId) {
          AppendKeepsUnique(skills, SkillId, Skill(newId, data));
        }
        skills := skills + [Skill(newId, data)];
      }
      showSkillForm := false;
      editingSkill := None;
      MarkSectionAsChanged(SkillsSection);
    }

    /** The skill form's submit handler: saves only a form with a name. */
    method SubmitSkillForm(data: SkillData, newId: string)
      modifies this
      ensures !SkillFormSubmits(data) ==>
                skills == old(skills) && unsavedChanges == old(unsavedChanges)
                && showSkillForm == old(showSkillForm) && editingSkill == old(editingSkill)
      ensures SkillFormSubmits(data) && old(editingSkill).None? ==>
                skills == old(skills) + [Skill(newId, data)] && !showSkillForm
      ensures SkillFormSubmits(data) && old(editingSkill).Some? ==>
                skills == ReplaceId(old(skills), SkillId, old(editingSkill).value.id, Skill(old(editingSkill).value.id, data))
                && !showSkillForm
      ensures SkillFormSubmits(data) ==> unsavedChanges == old(unsavedChanges) + {SkillsSection}
      ensures SkillFormSubmits(data) ==> editingSkill.None?
      ensures old(Valid()) && (old(editingSkill).None? ==> newId !in Ids(old(skills), SkillId)) ==> Valid()
      ensures experiences == old(experiences) && education == old(education)
      ensures showExperienceForm == old(showExperienceForm) && editingExperience == old(editingExperience)
      ensures showEducationForm == old(showEducationForm) && editingEducation == old(editingEducation)
    {
      if data.name != "" {
        SaveSkill(data, newId);
      }
    }
  }
}
