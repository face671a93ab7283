/** The skill-tag input: the list of skills and the text being typed, and
    how adding, removing and the Enter and Backspace keys change them. */
module SkillsInput {
  import opened Seqs
  import Strings

  datatype TagEditor = TagEditor(skills: seq<string>, input: string)

  datatype Key = Enter | Backspace | OtherKey

  /** `addSkill`: the trimmed text is appended, and the input cleared, only
      when it is non-empty and not already a skill (exact, case-sensitive
      comparison); otherwise nothing changes. */
  function AddSkill(st: TagEditor, skill: string): (r: TagEditor)
    ensures var t := Strings.Trim(skill);
      t != "" && t !in st.skills ==> r == TagEditor(st.skills + [t], "")
    ensures var t := Strings.Trim(skill);
      t == "" || t in st.skills ==> r == st
  {
    var trimmed := Strings.Trim(skill);
    if trimmed != "" && trimmed !in st.skills then TagEditor(st.skills + [trimmed], "") else st
  }

  /** `removeSkill`: drops the skill at `index`, keeping the others in order. */
  function RemoveSkill(st: TagEditor, index: int): (r: TagEditor)
    ensures 0 <= index < |st.skills| ==>
      && |r.skills| == |st.skills| - 1
      && (forall k :: 0 <= k < index ==> r.skills[k] == st.skills[k])
      && (forall k :: index <= k < |r.skills| ==> r.skills[k] == st.skills[k + 1])
    ensures !(0 <= index < |st.skills|) ==> r == st
    ensures r.input == st.input
  {
    st.(skills := RemoveAt(st.skills, index))
  }

  /** `handleKeyDown`: Enter adds the typed text; Backspace on an empty
      input removes the last skill; anything else changes nothing. */
  function KeyDown(st: TagEditor, key: Key): (r: TagEditor)
    ensures key == Enter ==> r == AddSkill(st, st.input)
    ensures key == Backspace && st.input == "" && |st.skills| > 0 ==>
      r == TagEditor(st.skills[..|st.skills| - 1], "")
    ensures key == OtherKey || (key == Backspace && (st.input != "" || |st.skills| == 0)) ==> r == st
  {
    match key
    case Enter => AddSkill(st, st.input)
    case Backspace =>
      if st.input == "" && |st.skills| > 0 then RemoveSkill(st, |st.skills| - 1) else st
    case OtherKey => st
  }

  /** Every tag is trimmed, non-empty and distinct from the others. */
  predicate WellFormed(skills: seq<string>) {
    NoDuplicates(skills) && forall i :: 0 <= i < |skills| ==> skills[i] != "" && Strings.IsTrimmed(skills[i])
  }

  /** Adding a skill keeps the list well formed. */
  lemma AddSkillKeepsWellFormed(st: TagEditor, skill: string)
    requires WellFormed(st.skills)
    ensures WellFormed(AddSkill(st, skill).skills)
  {
    var t := Strings.Trim(skill);
    if t != "" && t !in st.skills {
      var r := st.skills + [t];
      assert Strings.IsTrimmed(t);
      assert forall i :: 0 <= i < |st.skills| ==> st.skills[i] != t;
      assert forall i :: 0 <= i < |st.skills| ==> r[i] == st.skills[i];
      assert r[|st.skills|] == t;
      assert NoDuplicates(r);
    }
  }

  /** Removing a skill keeps the list well formed. */
  lemma RemoveSkillKeepsWellFormed(st: TagEditor, index: int)
    requires WellFormed(st.skills)
    ensures WellFormed(RemoveSkill(st, index).skills)
  {
    var r := RemoveSkill(st, index).skills;
    if 0 <= index < |st.skills| {
      forall i, j | 0 <= i < j < |r|
        ensures r[i] != r[j]
      {
        var i' := if i < index then i else i + 1;
        var j' := if j < index then j else j + 1;
        assert r[i] == st.skills[i'] && r[j] == st.skills[j'];
      }
      forall i | 0 <= i < |r|
        ensures r[i] != "" && Strings.IsTrimmed(r[i])
      {
        var i' := if i < index then i else i + 1;
        assert r[i] == st.skills[i'];
      }
    }
  }

  /** Every key press keeps the list well formed. */
  lemma KeyDownKeepsWellFormed(st: TagEditor, key: Key)
    requires WellFormed(st.skills)
    ensures WellFormed(KeyDown(st, key).skills)
  {
    if key == Enter {
      AddSkillKeepsWellFormed(st, st.input);
    } else if key == Backspace {
      RemoveSkillKeepsWellFormed(st, |st.skills| - 1);
    }
  }

  /** A text of spaces only adds nothing. */
  lemma BlankInputAddsNothing(st: TagEditor, skill: string)
    requires forall i :: 0 <= i < |skill| ==> Strings.IsSpace(skill[i])
    ensures AddSkill(st, skill) == st
  {
    var t := Strings.Trim(skill);
    var lo :| Strings.SpacesAround(skill, t, lo);
  }
}
