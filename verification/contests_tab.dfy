/** The admin contests tab (src/modules/admin/ContestsTab.tsx): the contest
    form, the request body it saves, and the form filled from a stored
    contest. */
module ContestsTab {
  import opened Wrappers
  import opened Domain
  import Nullish

  const LoadFailed := "Nao foi possivel carregar contests."
  const UpdateFailed := "Erro ao atualizar contest."
  const CreateFailed := "Erro ao criar contest."

  datatype ContestForm = ContestForm(
    id: Option<string>,
    name: string,
    description: string,
    startAt: string,
    endAt: string,
    revealAt: string,
    isActive: bool)

  /** A blank form, active by default. */
  const EmptyForm := ContestForm(None, "", "", "", "", "", true)

  datatype ContestPayload = ContestPayload(
    name: string,
    description: Option<string>,
    startAt: Option<string>,
    endAt: Option<string>,
    revealAt: Option<string>,
    isActive: bool)

  /** The request body: every empty text field becomes null; the name and
      the active flag are copied. No field is validated, dates included. */
  function Payload(f: ContestForm): (p: ContestPayload)
    ensures p.name == f.name && p.isActive == f.isActive
    ensures p.description.None? <==> f.description == ""
    ensures p.startAt.None? <==> f.startAt == ""
    ensures p.endAt.None? <==> f.endAt == ""
    ensures p.revealAt.None? <==> f.revealAt == ""
    ensures p.description.Some? ==> p.description.value == f.description
    ensures p.startAt.Some? ==> p.startAt.value == f.startAt
    ensures p.endAt.Some? ==> p.endAt.value == f.endAt
    ensures p.revealAt.Some? ==> p.revealAt.value == f.revealAt
  {
    ContestPayload(f.name, Nullish.OrNull(f.description), Nullish.OrNull(f.startAt),
      Nullish.OrNull(f.endAt), Nullish.OrNull(f.revealAt), f.isActive)
  }

  /** `handleEdit`: the form filled from a stored contest, nulls as `""`. */
  function Edit(c: Contest): (f: ContestForm)
    ensures f.id == Some(c.id) && f.name == c.name && f.isActive == c.isActive
    ensures f.startAt == c.startAt && f.endAt == c.endAt
    ensures f.description == Nullish.OrEmpty(c.description)
    ensures f.revealAt == Nullish.OrEmpty(c.revealAt)
  {
    ContestForm(Some(c.id), c.name, Nullish.OrEmpty(c.description), c.startAt, c.endAt,
      Nullish.OrEmpty(c.revealAt), c.isActive)
  }

  /** Editing a stored contest and saving it unchanged writes back its own
      fields, provided its dates are non-empty and its description and reveal
      date are null or non-empty (a stored `""` comes back as null). */
  lemma EditPayloadRoundTrip(c: Contest)
    requires c.startAt != "" && c.endAt != ""
    requires Nullish.Canonical(c.description) && Nullish.Canonical(c.revealAt)
    ensures Payload(Edit(c)) == ContestPayload(c.name, c.description, Some(c.startAt), Some(c.endAt), c.revealAt, c.isActive)
  {
    Nullish.OrNullOrEmpty(c.description);
    Nullish.OrNullOrEmpty(c.revealAt);
  }

  /** Filling the form from the payload it produced gives the form back, for
      a form with an id (the payload carries no id). */
  lemma PayloadEditRoundTrip(f: ContestForm, id: string, createdAt: string)
    requires f.id == Some(id) && f.startAt != "" && f.endAt != ""
    ensures var p := Payload(f);
      Edit(Contest(id, p.name, p.description, p.startAt.value, p.endAt.value, p.revealAt, p.isActive, createdAt)) == f
  {
    Nullish.OrEmptyOrNull(f.description);
    Nullish.OrEmptyOrNull(f.revealAt);
  }

  datatype Call = UpdateContest(id: string, contest: ContestPayload) | InsertContest(contest: ContestPayload) | ListContests

  datatype Tab = Tab(contests: seq<Contest>, form: ContestForm, error: Option<string>)

  datatype Step = Step(tab: Tab, calls: seq<Call>)

  /** `handleSave`: a form with an id updates that row, any other inserts. A
      failed write keeps the form; a successful one reloads the list and
      resets the form to the blank, active one. */
  function Save(t: Tab, write: bool, list: Fetch<seq<Contest>>): (r: Step)
    ensures var p := Payload(t.form);
      var w := if Nullish.Truthy(t.form.id) then UpdateContest(t.form.id.value, p) else InsertContest(p);
      && |r.calls| >= 1 && r.calls[0] == w
      && (!write ==> r == Step(t.(error := Some(if w.UpdateContest? then UpdateFailed else CreateFailed)), [w]))
      && (write ==> r.calls == [w, ListContests] && r.tab.form == EmptyForm && r.tab.form.isActive)
      && (write && list.Ok? ==> r.tab == Tab(list.value, EmptyForm, None))
      && (write && list.Err? ==> r.tab == Tab(t.contests, EmptyForm, Some(LoadFailed)))
  {
    var p := Payload(t.form);
    var isUpdate := Nullish.Truthy(t.form.id);
    var w := if isUpdate then UpdateContest(t.form.id.value, p) else InsertContest(p);
    if !write then Step(t.(error := Some(if isUpdate then UpdateFailed else CreateFailed)), [w])
    else
      var contests := if list.Ok? then list.value else t.contests;
      var error := if list.Ok? then None else Some(LoadFailed);
      Step(Tab(contests, EmptyForm, error), [w, ListContests])
  }

  /** Saving an edited stored contest updates that same row with its own
      fields. */
  lemma EditThenSave(t: Tab, c: Contest, write: bool, list: Fetch<seq<Contest>>)
    requires c.id != "" && c.startAt != "" && c.endAt != ""
    requires Nullish.Canonical(c.description) && Nullish.Canonical(c.revealAt)
    ensures Save(t.(form := Edit(c)), write, list).calls[0] ==
      UpdateContest(c.id, ContestPayload(c.name, c.description, Some(c.startAt), Some(c.endAt), c.revealAt, c.isActive))
  {
    EditPayloadRoundTrip(c);
  }
}
