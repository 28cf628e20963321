/** The stored record shapes: contests, categories, nominees, voters, votes. */
module Domain {
  import opened Wrappers

  /** Dates are kept as the stored text; the gates interpret them through a
      caller-supplied clock reading (see `ContestData` and `ResultsData`). */
  datatype Contest = Contest(
    id: string,
    name: string,
    description: Option<string>,
    startAt: string,
    endAt: string,
    revealAt: Option<string>,
    isActive: bool,
    createdAt: string)

  datatype Category = Category(
    id: string,
    contestId: string,
    name: string,
    description: Option<string>,
    sortOrder: int)

  datatype Nominee = Nominee(
    id: string,
    categoryId: string,
    name: string,
    description: Option<string>,
    imageUrl: Option<string>,
    sortOrder: int)

  datatype Voter = Voter(
    id: string,
    contestId: string,
    code: string,
    isActive: bool,
    createdAt: string)

  datatype Vote = Vote(
    id: string,
    contestId: string,
    categoryId: string,
    nomineeId: string,
    voterId: string,
    ipAddress: Option<string>,
    userAgent: Option<string>,
    createdAt: string)

  /** The ids of a row sequence, in order. */
  function CategoryIds(cs: seq<Category>): (r: seq<string>)
    ensures |r| == |cs|
    ensures forall i :: 0 <= i < |cs| ==> r[i] == cs[i].id
  {
    if cs == [] then [] else [cs[0].id] + CategoryIds(cs[1..])
  }

  /** `nominees.filter((n) => n.category_id === k)`: the nominees of category `k`, in input order. */
  function InCategory(noms: seq<Nominee>, k: string): seq<Nominee>
  {
    if noms == [] then []
    else InCategory(noms[..|noms| - 1], k) + (if noms[|noms| - 1].categoryId == k then [noms[|noms| - 1]] else [])
  }
}
