/** The voter-link loader (src/hooks/useContestData.ts): a gate chain over the
    voter token that ends in exactly one of six outcomes. Backend replies are
    inputs; the sequence of lookups the chain issues is returned alongside the
    view so that skipped lookups are visible. */
module ContestData {
  import opened Wrappers
  import opened Domain
  import Nullish

  datatype LinkStatus = Loading | InvalidLink | InactiveLink | OutOfPeriod | AlreadyVoted | Ready | Error

  /** The message shown with each non-ready outcome. */
  datatype LinkMessage =
    | TokenMissing          // "Token de votação não encontrado. Use o link enviado."
    | TokenCheckFailed      // "Erro ao validar token."
    | TokenUnknown          // "Token inválido ou expirado."
    | LinkInactive          // "Link inativo. Solicite um novo token."
    | ContestLoadFailed     // "Erro ao carregar concurso."
    | ContestMissing        // "Concurso não encontrado para este token."
    | NotStarted            // "A votação ainda não começou. Volte em breve."
    | Ended                 // "Período de votação encerrado."
    | VoteCheckFailed       // "Erro ao verificar votos anteriores."
    | VotesAlreadyCast      // "Você já registrou seus votos para este concurso."
    | CategoriesLoadFailed  // "Erro ao carregar categorias."
    | NomineesLoadFailed    // "Erro ao carregar indicados."

  /** The lookups the chain can issue. */
  datatype Query =
    | VoterByCode(code: string)
    | ContestById(contestId: string)
    | VotesOf(voterId: string, contestId: string)
    | CategoriesOf(contestId: string)
    | NomineesIn(categoryIds: seq<string>)

  /** Backend replies, by lookup key. `votesOf` answers with the ids of the
      voter's vote rows in the contest (the source asks for at most one). */
  datatype LinkBackend = LinkBackend(
    voterByCode: string -> Fetch<Option<Voter>>,
    contestById: string -> Fetch<Option<Contest>>,
    votesOf: (string, string) -> Fetch<seq<string>>,
    categoriesOf: string -> Fetch<seq<Category>>,
    nomineesIn: seq<string> -> Fetch<seq<Nominee>>)

  datatype LinkView = LinkView(
    status: LinkStatus,
    contest: Option<Contest>,
    categories: seq<Category>,
    nominees: seq<Nominee>,
    voter: Option<Voter>,
    message: Option<LinkMessage>)

  datatype LinkLoad = LinkLoad(view: LinkView, queries: seq<Query>)

  const Initial := LinkView(Loading, None, [], [], None, None)

  // The gates, stated one condition at a time.

  predicate VoterFound(token: Option<string>, b: LinkBackend)
  {
    Nullish.Truthy(token) && b.voterByCode(token.value).Ok? && b.voterByCode(token.value).value.Some?
  }

  function TheVoter(token: Option<string>, b: LinkBackend): Voter
    requires VoterFound(token, b)
  {
    b.voterByCode(token.value).value.value
  }

  predicate VoterAdmitted(token: Option<string>, b: LinkBackend)
  {
    VoterFound(token, b) && TheVoter(token, b).isActive
  }

  predicate ContestFound(token: Option<string>, b: LinkBackend)
  {
    && VoterAdmitted(token, b)
    && b.contestById(TheVoter(token, b).contestId).Ok?
    && b.contestById(TheVoter(token, b).contestId).value.Some?
  }

  function TheContest(token: Option<string>, b: LinkBackend): Contest
    requires ContestFound(token, b)
  {
    b.contestById(TheVoter(token, b).contestId).value.value
  }

  /** Both period bounds are inclusive. */
  predicate InPeriod(c: Contest, now: int, timeOf: string -> int)
  {
    timeOf(c.startAt) <= now <= timeOf(c.endAt)
  }

  predicate PeriodOpen(token: Option<string>, b: LinkBackend, now: int, timeOf: string -> int)
  {
    ContestFound(token, b) && InPeriod(TheContest(token, b), now, timeOf)
  }

  /** The already-voted lookup is keyed by voter and contest only. */
  function PriorVotes(token: Option<string>, b: LinkBackend): Fetch<seq<string>>
    requires VoterFound(token, b)
  {
    b.votesOf(TheVoter(token, b).id, TheVoter(token, b).contestId)
  }

  predicate FirstBallot(token: Option<string>, b: LinkBackend, now: int, timeOf: string -> int)
  {
    PeriodOpen(token, b, now, timeOf) && PriorVotes(token, b) == Ok([])
  }

  function Fail(prev: LinkView, status: LinkStatus, m: LinkMessage, qs: seq<Query>): LinkLoad
  {
    LinkLoad(prev.(status := status, message := Some(m)), qs)
  }

  /** The effect run for a token. Every non-ready outcome changes only the
      status and message of the previous view. */
  function Load(prev: LinkView, token: Option<string>, b: LinkBackend, now: int, timeOf: string -> int): (r: LinkLoad)
    // a missing or empty token is rejected before any lookup
    ensures !Nullish.Truthy(token) ==> r.queries == [] && r.view.message == Some(TokenMissing)
    ensures Nullish.Truthy(token) ==> |r.queries| > 0 && r.queries[0] == VoterByCode(token.value)
    // the six outcomes, each characterised by the gates it passed
    ensures r.view.status == InvalidLink <==>
      || !Nullish.Truthy(token)
      || b.voterByCode(token.value) == Ok(None)
      || (VoterAdmitted(token, b) && b.contestById(TheVoter(token, b).contestId) == Ok(None))
    ensures r.view.status == InactiveLink <==> VoterFound(token, b) && !TheVoter(token, b).isActive
    ensures r.view.status == OutOfPeriod <==> ContestFound(token, b) && !InPeriod(TheContest(token, b), now, timeOf)
    ensures r.view.status == AlreadyVoted <==>
      PeriodOpen(token, b, now, timeOf) && PriorVotes(token, b).Ok? && |PriorVotes(token, b).value| > 0
    ensures r.view.status == Ready <==>
      && FirstBallot(token, b, now, timeOf)
      && b.categoriesOf(TheContest(token, b).id).Ok?
      && (|b.categoriesOf(TheContest(token, b).id).value| == 0
          || b.nomineesIn(CategoryIds(b.categoriesOf(TheContest(token, b).id).value)).Ok?)
    ensures r.view.status == Error <==>
      || (Nullish.Truthy(token) && b.voterByCode(token.value).Err?)
      || (VoterAdmitted(token, b) && b.contestById(TheVoter(token, b).contestId).Err?)
      || (PeriodOpen(token, b, now, timeOf) && PriorVotes(token, b).Err?)
      || (FirstBallot(token, b, now, timeOf) && b.categoriesOf(TheContest(token, b).id).Err?)
      || (&& FirstBallot(token, b, now, timeOf)
          && b.categoriesOf(TheContest(token, b).id).Ok?
          && |b.categoriesOf(TheContest(token, b).id).value| > 0
          && b.nomineesIn(CategoryIds(b.categoriesOf(TheContest(token, b).id).value)).Err?)
    // the "not started" message is chosen exactly when now precedes the start
    ensures r.view.status == OutOfPeriod ==>
      (r.view.message == Some(NotStarted) <==> now < timeOf(TheContest(token, b).startAt))
    ensures r.view.status == OutOfPeriod ==> r.view.message in {Some(NotStarted), Some(Ended)}
    // the duplicate-vote check is contest-scoped
    ensures PeriodOpen(token, b, now, timeOf) ==>
      VotesOf(TheVoter(token, b).id, TheVoter(token, b).contestId) in r.queries
    // the ready payload; no nominee lookup without categories
    ensures r.view.status == Ready ==>
      var cats := b.categoriesOf(TheContest(token, b).id).value;
      && r.view.contest == Some(TheContest(token, b))
      && r.view.voter == Some(TheVoter(token, b))
      && r.view.categories == cats
      && r.view.message.None?
      && (|cats| == 0 ==> r.view.nominees == [] && forall q :: q in r.queries ==> !q.NomineesIn?)
      && (|cats| > 0 ==> r.view.nominees == b.nomineesIn(CategoryIds(cats)).value)
    ensures r.view.status != Ready ==>
      r.view == prev.(status := r.view.status, message := r.view.message)
    ensures r.view.status != Loading
  {
    if !Nullish.Truthy(token) then Fail(prev, InvalidLink, TokenMissing, [])
    else
      var q1 := [VoterByCode(token.value)];
      match b.voterByCode(token.value)
      case Err => Fail(prev, Error, TokenCheckFailed, q1)
      case Ok(None) => Fail(prev, InvalidLink, TokenUnknown, q1)
      case Ok(Some(voter)) =>
        if !voter.isActive then Fail(prev, InactiveLink, LinkInactive, q1)
        else
          var q2 := q1 + [ContestById(voter.contestId)];
          match b.contestById(voter.contestId)
          case Err => Fail(prev, Error, ContestLoadFailed, q2)
          case Ok(None) => Fail(prev, InvalidLink, ContestMissing, q2)
          case Ok(Some(contest)) =>
            if now < timeOf(contest.startAt) || now > timeOf(contest.endAt) then
              Fail(prev, OutOfPeriod, if now < timeOf(contest.startAt) then NotStarted else Ended, q2)
            else
              var q3 := q2 + [VotesOf(voter.id, voter.contestId)];
              match b.votesOf(voter.id, voter.contestId)
              case Err => Fail(prev, Error, VoteCheckFailed, q3)
              case Ok(existing) =>
                if |existing| > 0 then Fail(prev, AlreadyVoted, VotesAlreadyCast, q3)
                else
                  var q4 := q3 + [CategoriesOf(contest.id)];
                  match b.categoriesOf(contest.id)
                  case Err => Fail(prev, Error, CategoriesLoadFailed, q4)
                  case Ok(cats) =>
                    var ids := CategoryIds(cats);
                    if |ids| == 0 then
                      LinkLoad(LinkView(Ready, Some(contest), cats, [], Some(voter), None), q4)
                    else
                      var q5 := q4 + [NomineesIn(ids)];
                      match b.nomineesIn(ids)
                      case Err => Fail(prev, Error, NomineesLoadFailed, q5)
                      case Ok(noms) => LinkLoad(LinkView(Ready, Some(contest), cats, noms, Some(voter), None), q5)
  }

  /** The backend with every contest row's `is_active` flag replaced. */
  function WithContestFlag(b: LinkBackend, flag: bool): (b': LinkBackend)
    ensures b'.voterByCode == b.voterByCode && b'.votesOf == b.votesOf
    ensures b'.categoriesOf == b.categoriesOf && b'.nomineesIn == b.nomineesIn
  {
    b.(contestById := (id: string) =>
      match b.contestById(id)
      case Ok(Some(c)) => Ok(Some(c.(isActive := flag)))
      case other => other)
  }

  /** The contest's own `is_active` flag is never consulted: flipping it on
      every contest row leaves the outcome unchanged. */
  lemma ContestFlagIgnored(prev: LinkView, token: Option<string>, b: LinkBackend, now: int, timeOf: string -> int, flag: bool)
    ensures Load(prev, token, WithContestFlag(b, flag), now, timeOf).view.status
         == Load(prev, token, b, now, timeOf).view.status
  {
  }
}
