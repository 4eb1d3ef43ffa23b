/**
 * The record shapes the REST API returns (services/api.ts), and the outcome of
 * a request. The pages only read these records; nothing here computes on them.
 *
 * The JavaScript `number` fields are modelled as `int` where they are counts
 * and as `real` where they are money. The field the source calls `type` is
 * called `kind` here, because `type` is a keyword of Dafny.
 */
module Api {

  datatype Option<T> = None | Some(value: T)

  datatype Member = Member(
    id: string,
    firstName: string,
    lastName: string,
    email: string,
    phone: string,
    address: string,
    birthDate: string,
    gender: string,
    baptismDate: string,
    confirmationDate: string,
    // Declared as a string, but the JSON may omit it; the members page
    // guards against that, so the model keeps the absent case.
    status: Option<string>,
    createdAt: string)

  datatype Event = Event(
    id: string,
    title: string,
    description: string,
    date: string,
    time: string,
    location: string,
    kind: string,
    maxCapacity: int,
    rsvpCount: int)

  datatype DashboardStats = DashboardStats(
    totalMembers: int,
    upcomingEvents: int,
    recentAttendance: int,
    totalDonations: real)

  datatype Donation = Donation(
    id: string,
    memberId: string,
    amount: real,
    kind: string,
    date: string,
    description: string,
    createdAt: string,
    firstName: Option<string>,
    lastName: Option<string>,
    email: Option<string>)

  /** One row of the finance breakdown: donations of one kind this month. */
  datatype TypeTotal = TypeTotal(kind: string, count: int, total: real)

  datatype FinanceStats = FinanceStats(
    monthlyTotal: real,
    yearlyTotal: real,
    typeBreakdown: seq<TypeTotal>)

  /**
   * What an awaited request gives the page: the decoded body, or a rejection
   * (network error, non-2xx status), which the pages catch and log.
   */
  datatype Fetched<T> = Received(value: T) | Failed

  /** `Promise.all` over two requests: it resolves only when both resolve. */
  function AllOf2<A, B>(a: Fetched<A>, b: Fetched<B>): (r: Fetched<(A, B)>)
    ensures r.Received? <==> a.Received? && b.Received?
    ensures r.Received? ==> r.value.0 == a.value && r.value.1 == b.value
  {
    match (a, b)
    case (Received(x), Received(y)) => Received((x, y))
    case _ => Failed
  }

  /** `Promise.all` over three requests: it resolves only when all three resolve. */
  function AllOf3<A, B, C>(a: Fetched<A>, b: Fetched<B>, c: Fetched<C>): (r: Fetched<(A, B, C)>)
    ensures r.Received? <==> a.Received? && b.Received? && c.Received?
    ensures r.Received? ==> r.value.0 == a.value && r.value.1 == b.value && r.value.2 == c.value
  {
    match (a, b, c)
    case (Received(x), Received(y), Received(z)) => Received((x, y, z))
    case _ => Failed
  }
}
