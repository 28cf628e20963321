/** The one-category-at-a-time ballot (src/modules/public/vote/components/
    VoteCarousel.tsx). Pressing confirm starts an insert (`Confirm`); the
    backend's reply later settles it (`Settle`). `Ballot` follows one voter
    session, recording the insert in flight and every insert that succeeded. */
module VoteCarousel {
  import opened Wrappers
  import opened Domain
  import Nullish

  datatype CarouselStatus = Idle | Saving | Finished | Error

  datatype Carousel = Carousel(index: nat, selected: Option<string>, status: CarouselStatus)

  /** The row handed to the votes insert. */
  datatype VoteRow = VoteRow(
    contestId: string,
    categoryId: string,
    nomineeId: string,
    voterId: string,
    ipAddress: Option<string>,
    userAgent: Option<string>)

  /** The view after pressing confirm and the insert it issued, if any. */
  datatype Begun = Begun(view: Carousel, insert: Option<VoteRow>)

  const Start := Carousel(0, None, Idle)

  /** `onSelectNominee`. */
  function Select(s: Carousel, nomineeId: Option<string>): (r: Carousel)
    ensures r.index == s.index && r.status == s.status && r.selected == nomineeId
  {
    s.(selected := nomineeId)
  }

  /** `handleConfirm` up to the awaited insert. */
  function Confirm(s: Carousel, cats: seq<Category>, contest: Contest, voter: Voter, userAgent: Option<string>): (r: Begun)
    // no current category, no selection, or a save already running/finished: nothing happens
    ensures (s.index >= |cats| || !Nullish.Truthy(s.selected) || s.status in {Saving, Finished})
        <==> r == Begun(s, None)
    ensures !(s.index >= |cats| || !Nullish.Truthy(s.selected) || s.status in {Saving, Finished}) ==>
      r.insert.Some?
    ensures r.insert.Some? ==>
      && s.index < |cats|
      && r.view == s.(status := Saving)
      && r.insert.value == VoteRow(contest.id, cats[s.index].id, s.selected.value, voter.id, None, userAgent)
  {
    if s.index >= |cats| || !Nullish.Truthy(s.selected) then Begun(s, None)
    else if s.status == Saving || s.status == Finished then Begun(s, None)
    else
      Begun(s.(status := Saving),
            Some(VoteRow(contest.id, cats[s.index].id, s.selected.value, voter.id, None, userAgent)))
  }

  /** The rest of `handleConfirm`, once the insert replied. */
  function Settle(s: Carousel, cats: seq<Category>, ok: bool): (r: Carousel)
    requires s.status == Saving && s.index < |cats|
    ensures r.index < |cats|
    ensures !ok ==> r.status == Error && r.index == s.index && r.selected == s.selected
    ensures ok && s.index + 1 == |cats| ==> r.status == Finished && r.index == s.index
    ensures ok && s.index + 1 < |cats| ==> r == Carousel(s.index + 1, None, Idle)
  {
    if !ok then s.(status := Error)
    else if s.index == |cats| - 1 then s.(status := Finished)
    else Carousel(s.index + 1, None, Idle)
  }

  /** One voter session: the view, the insert awaiting its reply, and the
      inserts that succeeded, in order. */
  datatype Ballot = Ballot(view: Carousel, pending: Option<VoteRow>, written: seq<VoteRow>)

  datatype Event = Pick(nomineeId: Option<string>) | Press | Reply(ok: bool)

  const Fresh := Ballot(Start, None, [])

  function Step(b: Ballot, cats: seq<Category>, contest: Contest, voter: Voter, ua: Option<string>, e: Event): Ballot
  {
    match e
    case Pick(id) => b.(view := Select(b.view, id))
    case Press =>
      var r := Confirm(b.view, cats, contest, voter, ua);
      if r.insert.Some? then b.(view := r.view, pending := r.insert) else b
    case Reply(ok) =>
      if b.pending.Some? && b.view.status == Saving && b.view.index < |cats| then
        Ballot(Settle(b.view, cats, ok), None, b.written + (if ok then [b.pending.value] else []))
      else b
  }

  /** A press that passes the gates starts a save whose vote row awaits the
      reply. */
  lemma PressSaves(b: Ballot, cats: seq<Category>, contest: Contest, voter: Voter, ua: Option<string>)
    requires b.view.index < |cats| && Nullish.Truthy(b.view.selected)
    requires b.view.status !in {Saving, Finished}
    ensures var r := Step(b, cats, contest, voter, ua, Press);
      && r.view == b.view.(status := Saving)
      && r.pending == Some(VoteRow(contest.id, cats[b.view.index].id, b.view.selected.value, voter.id, None, ua))
      && r.written == b.written
  {
  }

  function Run(b: Ballot, cats: seq<Category>, contest: Contest, voter: Voter, ua: Option<string>, es: seq<Event>): Ballot
    decreases |es|
  {
    if es == [] then b else Run(Step(b, cats, contest, voter, ua, es[0]), cats, contest, voter, ua, es[1..])
  }

  /** What holds of every reachable session: the index stays within the
      categories, the written votes are one per category for exactly the
      categories already passed, and an insert is pending iff saving. */
  predicate Inv(b: Ballot, cats: seq<Category>, contest: Contest, voter: Voter)
  {
    && (|cats| == 0 ==> b.view.index == 0 && b.written == [] && b.pending.None?)
    && (|cats| > 0 ==> b.view.index < |cats|)
    && (b.view.status == Finished ==> b.view.index == |cats| - 1)
    && |b.written| == b.view.index + (if b.view.status == Finished then 1 else 0)
    && (forall i :: 0 <= i < |b.written| ==>
          && b.written[i].categoryId == cats[i].id
          && b.written[i].contestId == contest.id
          && b.written[i].voterId == voter.id
          && b.written[i].ipAddress.None?)
    && (b.pending.Some? <==> b.view.status == Saving)
    && (b.pending.Some? ==>
          && b.pending.value.categoryId == cats[b.view.index].id
          && b.pending.value.contestId == contest.id
          && b.pending.value.voterId == voter.id
          && b.pending.value.ipAddress.None?)
  }

  lemma StepInv(b: Ballot, cats: seq<Category>, contest: Contest, voter: Voter, ua: Option<string>, e: Event)
    requires Inv(b, cats, contest, voter)
    ensures Inv(Step(b, cats, contest, voter, ua, e), cats, contest, voter)
    ensures Step(b, cats, contest, voter, ua, e).view.index >= b.view.index
    ensures b.written <= Step(b, cats, contest, voter, ua, e).written
  {
    var b' := Step(b, cats, contest, voter, ua, e);
    match e
    case Pick(id) =>
    case Press =>
    case Reply(ok) =>
      if b.pending.Some? && b.view.status == Saving && b.view.index < |cats| {
        assert b'.written == b.written + (if ok then [b.pending.value] else []);
      }
  }

  /** Every session started fresh keeps the invariant, never moves backwards,
      and only ever appends to the written votes. */
  lemma {:induction false} RunInv(b: Ballot, cats: seq<Category>, contest: Contest, voter: Voter, ua: Option<string>, es: seq<Event>)
    requires Inv(b, cats, contest, voter)
    ensures Inv(Run(b, cats, contest, voter, ua, es), cats, contest, voter)
    ensures Run(b, cats, contest, voter, ua, es).view.index >= b.view.index
    ensures b.written <= Run(b, cats, contest, voter, ua, es).written
    decreases |es|
  {
    if es != [] {
      StepInv(b, cats, contest, voter, ua, es[0]);
      RunInv(Step(b, cats, contest, voter, ua, es[0]), cats, contest, voter, ua, es[1..]);
    }
  }

  /** Whatever the voter does and however the backend replies, the votes
      written are for `categories[0..k]`, in order, one each; with no
      categories nothing is ever written. */
  lemma WrittenFollowCategories(cats: seq<Category>, contest: Contest, voter: Voter, ua: Option<string>, es: seq<Event>)
    ensures var w := Run(Fresh, cats, contest, voter, ua, es).written;
      && |w| <= |cats|
      && (forall i :: 0 <= i < |w| ==> w[i].categoryId == cats[i].id && w[i].voterId == voter.id)
      && (|cats| == 0 ==> w == [])
  {
    RunInv(Fresh, cats, contest, voter, ua, es);
  }
}
