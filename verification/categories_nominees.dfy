/** The admin categories-and-nominees tab
    (src/modules/admin/CategoriesNomineesTab.tsx): loading a contest's
    categories and nominees, saving a category, validating and saving a
    nominee (at most six per category), and the reset and delete-contest
    sequences. Every backend request is an input outcome; each handler
    returns the resulting tab state and the requests it issued, in order. */
module CategoriesNominees {
  import opened Wrappers
  import opened Domain
  import Nullish

  const MaxNomineesPerCategory := 6

  const CategoriesLoadFailed := "Erro ao carregar categorias."
  const NomineesLoadFailed := "Erro ao carregar indicados."
  const SelectContest := "Selecione um concurso."
  const CategoryUpdateFailed := "Erro ao atualizar categoria."
  const CategoryCreateFailed := "Erro ao criar categoria."
  const ResetDisabled := "Reset desabilitado. Defina VITE_ALLOW_ADMIN_RESET=true para habilitar."
  const ResetLoadFailed := "Erro ao carregar categorias para reset."
  const VotesClearFailed := "Erro ao limpar votos."
  const NomineesClearFailed := "Erro ao limpar indicados."
  const CategoriesClearFailed := "Erro ao limpar categorias."
  const DeleteDisabled := "Exclusao desabilitada. Defina VITE_ALLOW_ADMIN_RESET=true para habilitar."
  const ContestDeleteFailed := "Erro ao excluir concurso."
  const SelectCategory := "Selecione uma categoria para o indicado."
  const CapReached := "Limite de 6 indicados por categoria atingido."
  const NameRequired := "Nome do indicado é obrigatório."
  const SortOrderNotNumber := "Ordem de exibição deve ser um número."
  const UploadFailed := "Erro ao subir imagem do indicado."
  const NomineeUpdateFailed := "Erro ao atualizar indicado."
  const NomineeCreateFailed := "Erro ao criar indicado."

  /** A number read from a form field: `Number(...)` of a non-numeric text is
      NaN. */
  datatype Num = Finite(n: int) | NaN

  datatype CategoryForm = CategoryForm(id: Option<string>, name: string, description: string, sortOrder: int)

  datatype NomineeForm = NomineeForm(
    id: Option<string>,
    categoryId: string,
    name: string,
    description: string,
    imageUrl: string,
    sortOrder: Num)

  const EmptyCategory := CategoryForm(None, "", "", 0)
  const EmptyNominee := NomineeForm(None, "", "", "", "", Finite(0))

  datatype CategoryPayload = CategoryPayload(contestId: string, name: string, description: Option<string>, sortOrder: int)

  datatype NomineePayload = NomineePayload(
    categoryId: string,
    name: string,
    description: Option<string>,
    imageUrl: Option<string>,
    sortOrder: int)

  /** The backend requests the tab issues. */
  datatype Call =
    | CategoriesOf(contestId: string)
    | NomineesIn(categoryIds: seq<string>)
    | UpdateCategory(id: string, category: CategoryPayload)
    | InsertCategory(category: CategoryPayload)
    | UploadImage
    | UpdateNominee(id: string, nominee: NomineePayload)
    | InsertNominee(nominee: NomineePayload)
    | CategoryIdsOf(contestId: string)
    | DeleteVotes(contestId: string)
    | DeleteVoters(contestId: string)
    | DeleteNominees(categoryIds: seq<string>)
    | DeleteCategories(contestId: string)
    | DeleteContestRow(id: string)
    | ListContests

  /** The outcome of every request whose outcome is read; a `bool` means the
      request reported no error. The voters delete of a reset is issued but
      its outcome is never read, so it has no entry here. */
  datatype Backend = Backend(
    categoriesOf: string -> Fetch<seq<Category>>,
    nomineesIn: seq<string> -> Fetch<seq<Nominee>>,
    categoryWrite: bool,
    upload: bool,
    publicUrl: Option<string>,
    nomineeWrite: bool,
    categoryIdsOf: string -> Fetch<seq<string>>,
    votesDeleted: bool,
    nomineesDeleted: bool,
    categoriesDeleted: bool,
    contestDeleted: bool,
    remaining: Fetch<seq<Contest>>)

  datatype Tab = Tab(
    contests: seq<Contest>,
    selectedContestId: string,
    resetContestId: string,
    categories: seq<Category>,
    nominees: seq<Nominee>,
    categoryForm: CategoryForm,
    nomineeForm: NomineeForm,
    hasImageFile: bool,
    modalOpen: bool,
    error: Option<string>)

  datatype Step = Step(tab: Tab, calls: seq<Call>)

  /** `loadCategoriesAndNominees`: only the category list, the nominee list
      and the error message can change. */
  function LoadLists(t: Tab, contestId: string, b: Backend): (r: Step)
    ensures r.tab.(categories := t.categories, nominees := t.nominees, error := t.error) == t
    ensures contestId == "" <==> r.calls == []
    ensures contestId == "" ==> r.tab == t.(categories := [], nominees := [])
    ensures contestId != "" ==> r.calls[0] == CategoriesOf(contestId)
    ensures contestId != "" && b.categoriesOf(contestId).Err? ==>
      r.tab == t.(error := Some(CategoriesLoadFailed)) && |r.calls| == 1
    ensures contestId != "" && b.categoriesOf(contestId).Ok? ==>
      var cats := b.categoriesOf(contestId).value;
      var ids := CategoryIds(cats);
      && r.tab.categories == cats
      && (ids == [] ==> r.tab == t.(categories := cats, nominees := []) && |r.calls| == 1)
      && (ids != [] ==> r.calls == [CategoriesOf(contestId), NomineesIn(ids)])
      && (ids != [] && b.nomineesIn(ids).Err? ==>
            r.tab == t.(categories := cats, error := Some(NomineesLoadFailed)))
      && (ids != [] && b.nomineesIn(ids).Ok? ==>
            r.tab == t.(categories := cats, nominees := b.nomineesIn(ids).value))
  {
    if contestId == "" then Step(t.(categories := [], nominees := []), [])
    else
      match b.categoriesOf(contestId)
      case Err => Step(t.(error := Some(CategoriesLoadFailed)), [CategoriesOf(contestId)])
      case Ok(cats) =>
        var ids := CategoryIds(cats);
        if ids == [] then Step(t.(categories := cats, nominees := []), [CategoriesOf(contestId)])
        else
          var calls := [CategoriesOf(contestId), NomineesIn(ids)];
          match b.nomineesIn(ids)
          case Err => Step(t.(categories := cats, error := Some(NomineesLoadFailed)), calls)
          case Ok(noms) => Step(t.(categories := cats, nominees := noms), calls)
  }

  /** The request body `handleSaveCategory` sends. */
  function CategoryPayloadOf(contestId: string, f: CategoryForm): (p: CategoryPayload)
    ensures p.contestId == contestId && p.name == f.name && p.sortOrder == f.sortOrder
    ensures p.description == Nullish.OrNull(f.description)
  {
    CategoryPayload(contestId, f.name, Nullish.OrNull(f.description), f.sortOrder)
  }

  /** `handleEditCategory`: the form filled from a stored category. */
  function EditCategory(cat: Category): (f: CategoryForm)
    ensures f.id == Some(cat.id) && f.name == cat.name && f.sortOrder == cat.sortOrder
    ensures f.description == Nullish.OrEmpty(cat.description)
  {
    CategoryForm(Some(cat.id), cat.name, Nullish.OrEmpty(cat.description), cat.sortOrder)
  }

  /** `handleSaveCategory`: no request without a selected contest; a form with
      an id updates that row, any other inserts; only success reloads the
      lists and clears the form. */
  function SaveCategory(t: Tab, b: Backend): (r: Step)
    ensures t.selectedContestId == "" ==> r == Step(t.(error := Some(SelectContest)), [])
    ensures t.selectedContestId != "" ==>
      var p := CategoryPayloadOf(t.selectedContestId, t.categoryForm);
      var write := if Nullish.Truthy(t.categoryForm.id) then UpdateCategory(t.categoryForm.id.value, p) else InsertCategory(p);
      && |r.calls| >= 1 && r.calls[0] == write
      && (!b.categoryWrite ==>
            r.calls == [write] && r.tab.categoryForm == t.categoryForm &&
            r.tab.error == Some(if write.UpdateCategory? then CategoryUpdateFailed else CategoryCreateFailed))
      && (b.categoryWrite ==>
            var l := LoadLists(t.(error := None), t.selectedContestId, b);
            r.calls == [write] + l.calls && r.tab == l.tab.(categoryForm := EmptyCategory))
  {
    if t.selectedContestId == "" then Step(t.(error := Some(SelectContest)), [])
    else
      var p := CategoryPayloadOf(t.selectedContestId, t.categoryForm);
      var isUpdate := Nullish.Truthy(t.categoryForm.id);
      var write := if isUpdate then UpdateCategory(t.categoryForm.id.value, p) else InsertCategory(p);
      if !b.categoryWrite then
        Step(t.(error := Some(if isUpdate then CategoryUpdateFailed else CategoryCreateFailed)), [write])
      else
        var l := LoadLists(t.(error := None), t.selectedContestId, b);
        Step(l.tab.(categoryForm := EmptyCategory), [write] + l.calls)
  }

  /** Editing a category and saving it unchanged writes that same row back
      with the same name, description and order, when its stored
      description is null or non-empty. */
  lemma EditThenSaveCategory(t: Tab, cat: Category, b: Backend)
    requires t.selectedContestId == cat.contestId != "" && cat.id != ""
    requires Nullish.Canonical(cat.description)
    ensures SaveCategory(t.(categoryForm := EditCategory(cat)), b).calls[0] ==
      UpdateCategory(cat.id, CategoryPayload(cat.contestId, cat.name, cat.description, cat.sortOrder))
  {
    Nullish.OrNullOrEmpty(cat.description);
  }

  /** The characters `String.prototype.trim` strips: ECMAScript white space
      and line terminators. */
  predicate IsSpace(ch: char)
  {
    || ch == '\t' || ch == '\n' || ch == '\U{000B}' || ch == '\U{000C}' || ch == '\r'
    || ch == ' ' || ch == '\U{00A0}' || ch == '\U{1680}'
    || ('\U{2000}' <= ch <= '\U{200A}')
    || ch == '\U{2028}' || ch == '\U{2029}' || ch == '\U{202F}' || ch == '\U{205F}'
    || ch == '\U{3000}' || ch == '\U{FEFF}'
  }

  function TrimStart(s: string): (r: string)
    ensures |r| <= |s| && r == s[|s| - |r|..]
    ensures r != [] ==> !IsSpace(r[0])
    ensures forall i :: 0 <= i < |s| - |r| ==> IsSpace(s[i])
  {
    if s != [] && IsSpace(s[0]) then TrimStart(s[1..]) else s
  }

  function TrimEnd(s: string): (r: string)
    ensures |r| <= |s| && r == s[..|r|]
    ensures r != [] ==> !IsSpace(r[|r| - 1])
    ensures forall i :: |r| <= i < |s| ==> IsSpace(s[i])
  {
    if s != [] && IsSpace(s[|s| - 1]) then TrimEnd(s[..|s| - 1]) else s
  }

  /** `s.trim()`. */
  function Trim(s: string): string
  {
    TrimEnd(TrimStart(s))
  }

  /** `!s.trim()`: the name is empty after trimming exactly when every one of
      its characters is white space. */
  lemma BlankIffAllSpace(s: string)
    ensures Trim(s) == "" <==> forall i :: 0 <= i < |s| ==> IsSpace(s[i])
  {
    var a := TrimStart(s);
    assert forall i :: 0 <= i < |a| ==> a[i] == s[|s| - |a| + i];
  }

  /** `handleSaveNominee`'s checks, in order; the first that fails gives its
      message. Only a new nominee is held to the cap, counted over the
      nominees currently loaded. */
  function ValidateNominee(f: NomineeForm, noms: seq<Nominee>): (r: Option<string>)
    ensures f.categoryId == "" ==> r == Some(SelectCategory)
    ensures r == Some(CapReached) <==>
      f.categoryId != "" && !Nullish.Truthy(f.id) && |InCategory(noms, f.categoryId)| >= MaxNomineesPerCategory
    ensures r.None? <==>
      && f.categoryId != ""
      && (Nullish.Truthy(f.id) || |InCategory(noms, f.categoryId)| < MaxNomineesPerCategory)
      && Trim(f.name) != ""
      && f.sortOrder.Finite?
    ensures r.Some? ==> r.value in {SelectCategory, CapReached, NameRequired, SortOrderNotNumber}
    ensures f.categoryId != "" && (Nullish.Truthy(f.id) || |InCategory(noms, f.categoryId)| < MaxNomineesPerCategory) ==>
      && (Trim(f.name) == "" ==> r == Some(NameRequired))
      && (Trim(f.name) != "" && f.sortOrder.NaN? ==> r == Some(SortOrderNotNumber))
  {
    if f.categoryId == "" then Some(SelectCategory)
    else if !Nullish.Truthy(f.id) && |InCategory(noms, f.categoryId)| >= MaxNomineesPerCategory then Some(CapReached)
    else if Trim(f.name) == "" then Some(NameRequired)
    else if f.sortOrder.NaN? then Some(SortOrderNotNumber)
    else None
  }

  /** Editing an existing nominee is never refused for the cap. */
  lemma EditsNeverCapped(f: NomineeForm, noms: seq<Nominee>)
    requires Nullish.Truthy(f.id)
    ensures ValidateNominee(f, noms) != Some(CapReached)
  {
  }

  /** A new nominee passes only while its category holds fewer than six, so
      adding it leaves at most six there and every other category as it
      was. */
  lemma {:induction false} CapPreserved(f: NomineeForm, noms: seq<Nominee>, added: Nominee, c: string)
    requires ValidateNominee(f, noms).None? && !Nullish.Truthy(f.id)
    requires added.categoryId == f.categoryId
    ensures |InCategory(noms + [added], f.categoryId)| <= MaxNomineesPerCategory
    ensures c != f.categoryId ==> InCategory(noms + [added], c) == InCategory(noms, c)
  {
    var all := noms + [added];
    assert all[..|all| - 1] == noms;
  }

  /** The "Adicionar indicado" button of a category. */
  predicate AddNomineeEnabled(noms: seq<Nominee>, cat: Category)
  {
    |InCategory(noms, cat.id)| < MaxNomineesPerCategory
  }

  /** `openNomineeModal`: an existing nominee's fields, nulls as `""`, or an
      empty form for the given category. */
  function OpenNomineeModal(t: Tab, categoryId: string, nominee: Option<Nominee>): (r: Tab)
    ensures r.modalOpen && !r.hasImageFile && r.error.None?
    ensures r.(nomineeForm := t.nomineeForm, hasImageFile := t.hasImageFile, modalOpen := t.modalOpen, error := t.error) == t
    ensures nominee.None? ==> r.nomineeForm == EmptyNominee.(categoryId := categoryId)
    ensures nominee.Some? ==>
      var n := nominee.value;
      r.nomineeForm == NomineeForm(Some(n.id), n.categoryId, n.name,
        Nullish.OrEmpty(n.description), Nullish.OrEmpty(n.imageUrl), Finite(n.sortOrder))
  {
    var f := match nominee
      case None => EmptyNominee.(categoryId := categoryId)
      case Some(n) => NomineeForm(Some(n.id), n.categoryId, n.name,
        Nullish.OrEmpty(n.description), Nullish.OrEmpty(n.imageUrl), Finite(n.sortOrder));
    t.(nomineeForm := f, hasImageFile := false, modalOpen := true, error := None)
  }

  /** The button and the handler agree: a category's add button is enabled
      exactly when a fresh nominee form for it would pass the cap check. */
  lemma AddButtonMatchesCap(t: Tab, cat: Category)
    requires cat.id != ""
    ensures AddNomineeEnabled(t.nominees, cat) <==>
      ValidateNominee(OpenNomineeModal(t, cat.id, None).nomineeForm, t.nominees) != Some(CapReached)
  {
    var f := OpenNomineeModal(t, cat.id, None).nomineeForm;
    assert f.categoryId == cat.id && f.id.None?;
    assert !Nullish.Truthy(f.id);
  }

  /** `resetNomineeForm`: an empty form whose category id is set to the
      selected contest id. */
  function ResetNomineeForm(t: Tab): (r: Tab)
    ensures r.nomineeForm.categoryId == t.selectedContestId
    ensures r.nomineeForm.(categoryId := "") == EmptyNominee && !r.hasImageFile
    ensures r.(nomineeForm := t.nomineeForm, hasImageFile := t.hasImageFile) == t
  {
    t.(nomineeForm := EmptyNominee.(categoryId := t.selectedContestId), hasImageFile := false)
  }

  /** `closeNomineeModal`. */
  function CloseNomineeModal(t: Tab): (r: Tab)
    ensures !r.modalOpen && r.nomineeForm.categoryId == t.selectedContestId
    ensures r.nomineeForm == EmptyNominee.(categoryId := t.selectedContestId) && !r.hasImageFile
    ensures r.(nomineeForm := t.nomineeForm, hasImageFile := t.hasImageFile, modalOpen := t.modalOpen) == t
  {
    ResetNomineeForm(t.(modalOpen := false))
  }

  /** The request body `handleSaveNominee` sends, given the image URL it
      settled on. */
  function NomineePayloadOf(f: NomineeForm, imageUrl: Option<string>): (p: NomineePayload)
    requires f.sortOrder.Finite?
    ensures p.categoryId == f.categoryId && p.name == f.name && p.sortOrder == f.sortOrder.n
    ensures p.description == Nullish.OrNull(f.description) && p.imageUrl == imageUrl
  {
    NomineePayload(f.categoryId, f.name, Nullish.OrNull(f.description), imageUrl, f.sortOrder.n)
  }

  /** The image URL saved: the uploaded file's public URL when a file was
      chosen and the storage returns one, the typed URL (or null) otherwise. */
  function ImageUrlToSave(f: NomineeForm, hasFile: bool, publicUrl: Option<string>): (r: Option<string>)
    ensures !hasFile || publicUrl.None? ==> r == Nullish.OrNull(f.imageUrl)
    ensures hasFile && publicUrl.Some? ==> r == publicUrl
  {
    if hasFile && publicUrl.Some? then publicUrl else Nullish.OrNull(f.imageUrl)
  }

  /** The write `handleSaveNominee` issues once the checks and any upload
      have passed: a form with an id updates that row, any other inserts;
      success reloads the lists, resets the form and closes the modal, and a
      failure keeps the form and the modal as they were. */
  function WriteNominee(t: Tab, b: Backend, pre: seq<Call>): (r: Step)
    requires t.nomineeForm.sortOrder.Finite?
    ensures var f := t.nomineeForm;
      var p := NomineePayloadOf(f, ImageUrlToSave(f, t.hasImageFile, b.publicUrl));
      var write := if Nullish.Truthy(f.id) then UpdateNominee(f.id.value, p) else InsertNominee(p);
      && |r.calls| > |pre| && r.calls[..|pre| + 1] == pre + [write]
      && (!b.nomineeWrite ==>
            r == Step(t.(error := Some(if write.UpdateNominee? then NomineeUpdateFailed else NomineeCreateFailed)), pre + [write]))
      && (b.nomineeWrite ==>
            var l := LoadLists(t.(error := None), t.selectedContestId, b);
            r == Step(ResetNomineeForm(l.tab).(modalOpen := false), pre + [write] + l.calls))
  {
    var f := t.nomineeForm;
    var p := NomineePayloadOf(f, ImageUrlToSave(f, t.hasImageFile, b.publicUrl));
    var isUpdate := Nullish.Truthy(f.id);
    var write := if isUpdate then UpdateNominee(f.id.value, p) else InsertNominee(p);
    if !b.nomineeWrite then
      Step(t.(error := Some(if isUpdate then NomineeUpdateFailed else NomineeCreateFailed)), pre + [write])
    else
      var l := LoadLists(t.(error := None), t.selectedContestId, b);
      var calls := pre + [write] + l.calls;
      assert calls[..|pre| + 1] == pre + [write];
      Step(ResetNomineeForm(l.tab).(modalOpen := false), calls)
  }

  /** `handleSaveNominee`: a rejected form issues no request; with a file
      chosen the upload comes first, and its failure stops before the write. */
  function SaveNominee(t: Tab, b: Backend): (r: Step)
    ensures ValidateNominee(t.nomineeForm, t.nominees).Some? ==>
      r == Step(t.(error := ValidateNominee(t.nomineeForm, t.nominees)), [])
    ensures ValidateNominee(t.nomineeForm, t.nominees).None? && t.hasImageFile && !b.upload ==>
      r == Step(t.(error := Some(UploadFailed)), [UploadImage])
    ensures ValidateNominee(t.nomineeForm, t.nominees).None? && (!t.hasImageFile || b.upload) ==>
      r == WriteNominee(t, b, if t.hasImageFile then [UploadImage] else [])
  {
    match ValidateNominee(t.nomineeForm, t.nominees)
    case Some(message) => Step(t.(error := Some(message)), [])
    case None =>
      if t.hasImageFile && !b.upload then Step(t.(error := Some(UploadFailed)), [UploadImage])
      else
        WriteNominee(t, b, if t.hasImageFile then [UploadImage] else [])
  }

  /** No nominee request of any kind, upload included, precedes a failed
      check; a chosen file is uploaded before anything is written; and after
      a successful save the form carries the contest id in its category
      field. */
  lemma SaveNomineeOrder(t: Tab, b: Backend)
    ensures ValidateNominee(t.nomineeForm, t.nominees).Some? ==> SaveNominee(t, b).calls == []
    ensures ValidateNominee(t.nomineeForm, t.nominees).None? && t.hasImageFile ==>
      |SaveNominee(t, b).calls| > 0 && SaveNominee(t, b).calls[0] == UploadImage
    ensures ValidateNominee(t.nomineeForm, t.nominees).None? && (!t.hasImageFile || b.upload) && b.nomineeWrite ==>
      var r := SaveNominee(t, b).tab;
      !r.modalOpen && r.nomineeForm.categoryId == t.selectedContestId && r.nomineeForm.id.None?
  {
    if ValidateNominee(t.nomineeForm, t.nominees).None? && t.hasImageFile && b.upload {
      var r := SaveNominee(t, b);
      assert r.calls[..1] == [UploadImage];
    }
  }

  /** The requests a complete reset issues, in order: load the category ids,
      delete votes, delete voters, delete nominees (only when there are
      categories), delete categories. */
  function ResetCalls(contestId: string, ids: seq<string>): (r: seq<Call>)
    ensures |r| == if ids == [] then 4 else 5
    ensures r[0] == CategoryIdsOf(contestId) && r[1] == DeleteVotes(contestId) && r[2] == DeleteVoters(contestId)
    ensures r[|r| - 1] == DeleteCategories(contestId)
    ensures DeleteNominees(ids) in r <==> ids != []
  {
    [CategoryIdsOf(contestId), DeleteVotes(contestId), DeleteVoters(contestId)]
      + (if ids == [] then [] else [DeleteNominees(ids)])
      + [DeleteCategories(contestId)]
  }

  datatype ResetStep = ResetStep(ok: bool, tab: Tab, calls: seq<Call>)

  /** The steps of a reset after its gates, for contest `id`. */
  function ResetRequests(t: Tab, b: Backend, id: string): (r: ResetStep)
    requires id != ""
    ensures b.categoryIdsOf(id).Err? ==>
      r == ResetStep(false, t.(error := Some(ResetLoadFailed)), [CategoryIdsOf(id)])
    ensures b.categoryIdsOf(id).Ok? ==>
      var ids := b.categoryIdsOf(id).value;
      var all := ResetCalls(id, ids);
      && (r.ok <==> b.votesDeleted && (ids == [] || b.nomineesDeleted) && b.categoriesDeleted)
      && (!b.votesDeleted ==> r == ResetStep(false, t.(error := Some(VotesClearFailed)), all[..2]))
      && (b.votesDeleted && ids != [] && !b.nomineesDeleted ==>
            r == ResetStep(false, t.(error := Some(NomineesClearFailed)), all[..4]))
      && (b.votesDeleted && (ids == [] || b.nomineesDeleted) && !b.categoriesDeleted ==>
            r == ResetStep(false, t.(error := Some(CategoriesClearFailed)), all))
      && (r.ok && id != t.selectedContestId ==> r == ResetStep(true, t, all))
      && (r.ok && id == t.selectedContestId ==>
            var l := LoadLists(t, id, b);
            r == ResetStep(true, l.tab, all + l.calls))
  {
    match b.categoryIdsOf(id)
    case Err => ResetStep(false, t.(error := Some(ResetLoadFailed)), [CategoryIdsOf(id)])
    case Ok(ids) =>
      var all := ResetCalls(id, ids);
      if !b.votesDeleted then ResetStep(false, t.(error := Some(VotesClearFailed)), all[..2])
      // the voters delete is issued but its outcome is not consulted
      else if ids != [] && !b.nomineesDeleted then ResetStep(false, t.(error := Some(NomineesClearFailed)), all[..4])
      else if !b.categoriesDeleted then ResetStep(false, t.(error := Some(CategoriesClearFailed)), all)
      else if id == t.selectedContestId then
        var l := LoadLists(t, id, b);
        ResetStep(true, l.tab, all + l.calls)
      else ResetStep(true, t, all)
  }

  /** `handleResetContest`: refused without a request when resets are
      switched off, no contest is chosen, or the prompt (when shown) is
      declined; otherwise the reset requests run with the message cleared. */
  function ResetContest(t: Tab, b: Backend, allowReset: bool, skipConfirm: bool, confirmed: bool): (r: ResetStep)
    ensures !allowReset ==> r == ResetStep(false, t.(error := Some(ResetDisabled)), [])
    ensures allowReset && t.resetContestId == "" ==> r == ResetStep(false, t.(error := Some(SelectContest)), [])
    ensures allowReset && t.resetContestId != "" && !skipConfirm && !confirmed ==> r == ResetStep(false, t, [])
    ensures allowReset && t.resetContestId != "" && (skipConfirm || confirmed) ==>
      r == ResetRequests(t.(error := None), b, t.resetContestId)
  {
    if !allowReset then ResetStep(false, t.(error := Some(ResetDisabled)), [])
    else if t.resetContestId == "" then ResetStep(false, t.(error := Some(SelectContest)), [])
    else if !skipConfirm && !confirmed then ResetStep(false, t, [])
    else ResetRequests(t.(error := None), b, t.resetContestId)
  }

  /** The category ids a reset works with: those loaded, or none when the
      load failed. */
  function LoadedIds(b: Backend, id: string): seq<string>
  {
    if b.categoryIdsOf(id).Ok? then b.categoryIdsOf(id).value else []
  }

  /** A reset reports success exactly when its gates pass and every checked
      request succeeded. */
  lemma ResetOutcome(t: Tab, b: Backend, allowReset: bool, skipConfirm: bool, confirmed: bool)
    ensures var id := t.resetContestId;
      ResetContest(t, b, allowReset, skipConfirm, confirmed).ok <==>
        && allowReset && id != "" && (skipConfirm || confirmed) && b.categoryIdsOf(id).Ok?
        && b.votesDeleted && (LoadedIds(b, id) == [] || b.nomineesDeleted) && b.categoriesDeleted
  {
    var id := t.resetContestId;
    if allowReset && id != "" && (skipConfirm || confirmed) {
      var r := ResetRequests(t.(error := None), b, id);
      assert ResetContest(t, b, allowReset, skipConfirm, confirmed) == r;
      if b.categoryIdsOf(id).Ok? {
        assert LoadedIds(b, id) == b.categoryIdsOf(id).value;
      }
    }
  }

  /** A reset's requests always follow the fixed order: a failed reset issued
      a prefix of the complete sequence, a successful one all of it (followed
      only by the reload of the lists). */
  lemma ResetOrder(t: Tab, b: Backend, allowReset: bool, skipConfirm: bool, confirmed: bool)
    ensures var r := ResetContest(t, b, allowReset, skipConfirm, confirmed);
      var all := ResetCalls(t.resetContestId, LoadedIds(b, t.resetContestId));
      && (!r.ok ==> r.calls <= all)
      && (r.ok ==> all <= r.calls)
  {
    var r := ResetContest(t, b, allowReset, skipConfirm, confirmed);
    var all := ResetCalls(t.resetContestId, LoadedIds(b, t.resetContestId));
    if r.ok {
      assert r.calls[..|all|] == all;
    } else if allowReset && t.resetContestId != "" && (skipConfirm || confirmed) && b.categoryIdsOf(t.resetContestId).Err? {
      assert r.calls == all[..1];
    }
  }

  /** The reset and delete buttons (the in-progress flags are left out). */
  predicate ResetButtonsEnabled(allowReset: bool, t: Tab)
  {
    allowReset && t.resetContestId != ""
  }

  /** The buttons are enabled exactly when pressing reset and accepting the
      prompt reaches the backend. */
  lemma ResetButtonsMatchGates(t: Tab, b: Backend, allowReset: bool)
    ensures ResetButtonsEnabled(allowReset, t) <==> ResetContest(t, b, allowReset, false, true).calls != []
  {
  }

  /** The contest to select after a delete: the first remaining one, or none. */
  function Fallback(remaining: Fetch<seq<Contest>>): (id: string)
    ensures remaining.Ok? && remaining.value != [] ==> id == remaining.value[0].id
    ensures remaining.Err? || remaining.value == [] ==> id == ""
  {
    if remaining.Ok? && remaining.value != [] then remaining.value[0].id else ""
  }

  /** What `handleDeleteContest` does after the contest row is gone: list the
      remaining contests, point the reset selector at the first, and, when the
      deleted contest was also the selected one, select it too and reload its
      lists (or clear them when nothing is left). */
  function AfterDelete(t: Tab, b: Backend, deleted: string): (r: Step)
    ensures |r.calls| > 0 && r.calls[0] == ListContests
    ensures r.tab.contests == (if b.remaining.Ok? then b.remaining.value else [])
    ensures r.tab.resetContestId == Fallback(b.remaining)
    ensures deleted == t.selectedContestId ==> r.tab.selectedContestId == Fallback(b.remaining)
    ensures deleted != t.selectedContestId ==> r.tab.selectedContestId == t.selectedContestId && |r.calls| == 1
    ensures deleted == t.selectedContestId && Fallback(b.remaining) == "" ==>
      r.tab.categories == [] && r.tab.nominees == [] && |r.calls| == 1
  {
    var fallback := Fallback(b.remaining);
    var t1 := t.(contests := if b.remaining.Ok? then b.remaining.value else [], resetContestId := fallback);
    if deleted != t.selectedContestId then Step(t1, [ListContests])
    else
      var t2 := t1.(selectedContestId := fallback);
      if fallback != "" then
        var l := LoadLists(t2, fallback, b);
        Step(l.tab, [ListContests] + l.calls)
      else Step(t2.(categories := [], nominees := []), [ListContests])
  }

  /** `handleDeleteContest`: the same gates as a reset, its own prompt, then a
      reset without a second prompt; the contest row is deleted only when the
      reset succeeded. */
  function DeleteContest(t: Tab, b: Backend, allowReset: bool, confirmed: bool): (r: Step)
    ensures !allowReset ==> r == Step(t.(error := Some(DeleteDisabled)), [])
    ensures allowReset && t.resetContestId == "" ==> r == Step(t.(error := Some(SelectContest)), [])
    ensures allowReset && t.resetContestId != "" && !confirmed ==> r == Step(t, [])
    ensures allowReset && t.resetContestId != "" && confirmed ==>
      var id := t.resetContestId;
      var reset := ResetContest(t.(error := None), b, true, true, true);
      && |r.calls| >= |reset.calls| && r.calls[..|reset.calls|] == reset.calls
      && (!reset.ok ==> r == Step(reset.tab, reset.calls))
      && (reset.ok ==> |r.calls| > |reset.calls| && r.calls[|reset.calls|] == DeleteContestRow(id))
      && (reset.ok && !b.contestDeleted ==>
            r == Step(reset.tab.(error := Some(ContestDeleteFailed)), reset.calls + [DeleteContestRow(id)]))
      && (reset.ok && b.contestDeleted ==>
            var after := AfterDelete(reset.tab, b, id);
            r == Step(after.tab, reset.calls + [DeleteContestRow(id)] + after.calls))
  {
    if !allowReset then Step(t.(error := Some(DeleteDisabled)), [])
    else if t.resetContestId == "" then Step(t.(error := Some(SelectContest)), [])
    else if !confirmed then Step(t, [])
    else
      var id := t.resetContestId;
      var reset := ResetContest(t.(error := None), b, true, true, true);
      if !reset.ok then Step(reset.tab, reset.calls)
      else
        var pre := reset.calls + [DeleteContestRow(id)];
        if !b.contestDeleted then Step(reset.tab.(error := Some(ContestDeleteFailed)), pre)
        else
          var after := AfterDelete(reset.tab, b, id);
          assert (pre + after.calls)[..|reset.calls|] == reset.calls;
          assert (pre + after.calls)[|reset.calls|] == DeleteContestRow(id);
          Step(after.tab, pre + after.calls)
  }

  /** The contest row is deleted only after every checked reset request
      succeeded: a delete request in the trace means votes, nominees and
      categories were all cleared first. */
  lemma DeleteOnlyAfterReset(t: Tab, b: Backend, allowReset: bool, confirmed: bool)
    ensures DeleteContestRow(t.resetContestId) in DeleteContest(t, b, allowReset, confirmed).calls <==>
      && allowReset && t.resetContestId != "" && confirmed
      && ResetContest(t.(error := None), b, true, true, true).ok
  {
    var r := DeleteContest(t, b, allowReset, confirmed);
    if allowReset && t.resetContestId != "" && confirmed {
      var reset := ResetContest(t.(error := None), b, true, true, true);
      if !reset.ok {
        NoDeleteInReset(t.(error := None), b, t.resetContestId);
      }
    }
  }

  /** A reset never issues a contest delete. */
  lemma NoDeleteInReset(t: Tab, b: Backend, id: string)
    requires t.resetContestId == id != ""
    ensures DeleteContestRow(id) !in ResetContest(t, b, true, true, true).calls
  {
    var r := ResetContest(t, b, true, true, true);
    if b.categoryIdsOf(id).Ok? {
      var all := ResetCalls(id, b.categoryIdsOf(id).value);
      assert forall i :: 0 <= i < |all| ==> !all[i].DeleteContestRow?;
      if r.ok && id == t.selectedContestId {
        var l := LoadLists(t.(error := None), id, b);
        assert forall i :: 0 <= i < |l.calls| ==> !l.calls[i].DeleteContestRow?;
      }
    }
  }
}
