/** The editor for a profile's work or education entries: add a blank
    entry, remove one, edit one field of one, and which entry is expanded. */
module ExperienceForm {
  import opened Wrappers
  import opened Seqs

  /** Work entries carry a company, education entries an institution. */
  datatype Kind = Work | Education

  datatype ExperienceItem = ExperienceItem(
    title: string,
    company: Option<string>,
    institution: Option<string>,
    startDate: string,
    endDate: string,
    current: bool,
    description: string)

  datatype Field = Title | Company | Institution | StartDate | EndDate | Current | Description

  datatype FieldValue = Text(text: string) | MaybeText(maybe: Option<string>) | Flag(flag: bool)

  /** One `updateItem(index, field, value)` call's field and value. */
  datatype Edit =
    | SetTitle(text: string)
    | SetCompany(text: string)
    | SetInstitution(text: string)
    | SetStartDate(text: string)
    | SetEndDate(text: string)
    | SetCurrent(flag: bool)
    | SetDescription(text: string)

  /** The list being edited and the index of the expanded entry, if any. */
  datatype Editor = Editor(items: seq<ExperienceItem>, expanded: Option<int>)

  function Get(item: ExperienceItem, f: Field): FieldValue {
    match f
    case Title => Text(item.title)
    case Company => MaybeText(item.company)
    case Institution => MaybeText(item.institution)
    case StartDate => Text(item.startDate)
    case EndDate => Text(item.endDate)
    case Current => Flag(item.current)
    case Description => Text(item.description)
  }

  function FieldOf(e: Edit): Field {
    match e
    case SetTitle(_) => Title
    case SetCompany(_) => Company
    case SetInstitution(_) => Institution
    case SetStartDate(_) => StartDate
    case SetEndDate(_) => EndDate
    case SetCurrent(_) => Current
    case SetDescription(_) => Description
  }

  function ValueOf(e: Edit): FieldValue {
    match e
    case SetTitle(t) => Text(t)
    case SetCompany(t) => MaybeText(Some(t))
    case SetInstitution(t) => MaybeText(Some(t))
    case SetStartDate(t) => Text(t)
    case SetEndDate(t) => Text(t)
    case SetCurrent(b) => Flag(b)
    case SetDescription(t) => Text(t)
  }

  /** `{ ...item, [field]: value }`: the edited field takes the new value
      and every other field keeps its old one. */
  function Apply(item: ExperienceItem, e: Edit): (r: ExperienceItem)
    ensures Get(r, FieldOf(e)) == ValueOf(e)
    ensures forall f :: f != FieldOf(e) ==> Get(r, f) == Get(item, f)
  {
    match e
    case SetTitle(t) => item.(title := t)
    case SetCompany(t) => item.(company := Some(t))
    case SetInstitution(t) => item.(institution := Some(t))
    case SetStartDate(t) => item.(startDate := t)
    case SetEndDate(t) => item.(endDate := t)
    case SetCurrent(b) => item.(current := b)
    case SetDescription(t) => item.(description := t)
  }

  /** A new entry: every text empty, not current, and only the organisation
      field of its kind present. */
  function BlankItem(kind: Kind): (r: ExperienceItem)
    ensures r.title == "" && r.startDate == "" && r.endDate == "" && r.description == "" && !r.current
    ensures r.company.Some? <==> kind == Work
    ensures r.institution.Some? <==> kind == Education
  {
    ExperienceItem("", if kind == Work then Some("") else None,
      if kind == Education then Some("") else None, "", "", false, "")
  }

  /** `addItem`: appends a blank entry and expands it. */
  function AddItem(ed: Editor, kind: Kind): (r: Editor)
    ensures |r.items| == |ed.items| + 1
    ensures r.items[..|ed.items|] == ed.items
    ensures r.items[|ed.items|] == BlankItem(kind)
    ensures r.expanded == Some(|ed.items|)
  {
    Editor(ed.items + [BlankItem(kind)], Some(|ed.items|))
  }

  /** `removeItem`: drops the entry at `index`; removing the expanded entry
      collapses the view, and any other expanded index is kept as it was. */
  function RemoveItem(ed: Editor, index: int): (r: Editor)
    ensures r.items == RemoveAt(ed.items, index)
    ensures ed.expanded == Some(index) ==> r.expanded.None?
    ensures ed.expanded != Some(index) ==> r.expanded == ed.expanded
  {
    Editor(RemoveAt(ed.items, index), if ed.expanded == Some(index) then None else ed.expanded)
  }

  /** Removing an entry shortens the list by one and keeps the others in order. */
  lemma RemoveItemKeepsOthers(ed: Editor, index: int)
    requires 0 <= index < |ed.items|
    ensures var r := RemoveItem(ed, index).items;
      && |r| == |ed.items| - 1
      && (forall k :: 0 <= k < index ==> r[k] == ed.items[k])
      && (forall k :: index <= k < |r| ==> r[k] == ed.items[k + 1])
  {
  }

  /** The expanded index is not shifted: after removing an earlier entry it
      designates the entry that followed the one expanded before. */
  lemma ExpandedIndexNotShifted(ed: Editor, index: int)
    requires 0 <= index && ed.expanded.Some? && index < ed.expanded.value < |ed.items|
    ensures RemoveItem(ed, index).expanded == ed.expanded
    ensures ed.expanded.value < |ed.items| - 1 ==>
      RemoveItem(ed, index).items[ed.expanded.value] == ed.items[ed.expanded.value + 1]
  {
  }

  /** `updateItem`: applies one field edit to the entry at `index`; the
      form only edits entries it renders, so the index is in range. */
  function UpdateItem(ed: Editor, index: int, e: Edit): (r: Editor)
    requires 0 <= index < |ed.items|
    ensures |r.items| == |ed.items|
    ensures r.items[index] == Apply(ed.items[index], e)
    ensures forall k :: 0 <= k < |ed.items| && k != index ==> r.items[k] == ed.items[k]
    ensures r.expanded == ed.expanded
  {
    ed.(items := ed.items[index := Apply(ed.items[index], e)])
  }

  /** Clicking an entry's header expands it, or collapses it when it is
      the expanded one. */
  function ToggleExpanded(ed: Editor, index: int): (r: Editor)
    ensures r.items == ed.items
    ensures r.expanded == if ed.expanded == Some(index) then None else Some(index)
  {
    ed.(expanded := if ed.expanded == Some(index) then None else Some(index))
  }

  /** Clicking the same header twice restores the view, unless a different
      entry was expanded before (then the second click collapses all). */
  lemma ToggleTwice(ed: Editor, index: int)
    ensures ed.expanded.None? || ed.expanded == Some(index) ==>
      ToggleExpanded(ToggleExpanded(ed, index), index) == ed
    ensures ed.expanded.Some? && ed.expanded != Some(index) ==>
      ToggleExpanded(ToggleExpanded(ed, index), index).expanded.None?
  {
  }
}
