/**
 * The dashboard (app/page.tsx): the counters shown as the server computed
 * them, and short previews of the member and event lists.
 */
module Dashboard {
  import opened Api

  /** How many entries a preview shows. */
  const PreviewSize := 3

  function Min(a: int, b: int): int {
    if a <= b then a else b
  }

  /** `slice(0, 3)`: the first three entries, in the order received. */
  function Preview<T>(s: seq<T>): (p: seq<T>)
    ensures |p| == Min(PreviewSize, |s|)
    ensures p <= s
  {
    if |s| <= PreviewSize then s else s[..PreviewSize]
  }

  /** A prefix of the right length is the preview: nothing is sorted or skipped. */
  lemma PreviewUnique<T>(s: seq<T>, p: seq<T>)
    requires p <= s && |p| == Min(PreviewSize, |s|)
    ensures Preview(s) == p
  {
  }

  /** Previewing a preview changes nothing. */
  lemma PreviewIdempotent<T>(s: seq<T>)
    ensures Preview(Preview(s)) == Preview(s)
  {
  }

  const ZeroStats := DashboardStats(0, 0, 0, 0.0)

  class DashboardPage {
    var stats: DashboardStats
    var recentMembers: seq<Member>
    var upcomingEvents: seq<Event>
    var loading: bool

    /** The previews never hold more than three entries. */
    predicate Valid()
      reads this
    {
      |recentMembers| <= PreviewSize && |upcomingEvents| <= PreviewSize
    }

    constructor ()
      ensures Valid()
      ensures stats == ZeroStats && recentMembers == [] && upcomingEvents == [] && loading
    {
      stats := ZeroStats;
      recentMembers := [];
      upcomingEvents := [];
      loading := true;
    }

    /**
     * `loadData`: the three requests go out together. If all succeed, the
     * counters are the server's figures as sent and the previews are the first
     * entries of each list; if any fails, nothing is updated. Loading ends
     * either way.
     */
    method LoadData(statsF: Fetched<DashboardStats>, membersF: Fetched<seq<Member>>, eventsF: Fetched<seq<Event>>)
      requires Valid()
      modifies this
      ensures Valid()
      ensures statsF.Received? && membersF.Received? && eventsF.Received? ==>
        && stats == statsF.value
        && recentMembers == Preview(membersF.value)
        && upcomingEvents == Preview(eventsF.value)
      ensures !(statsF.Received? && membersF.Received? && eventsF.Received?) ==>
        stats == old(stats) && recentMembers == old(recentMembers) && upcomingEvents == old(upcomingEvents)
      ensures !loading
    {
      var all := AllOf3(statsF, membersF, eventsF);
      if all.Received? {
        var (s, ms, es) := all.value;
        stats := s;
        recentMembers := Preview(ms);
        upcomingEvents := Preview(es);
      }
      loading := false;
    }
  }
}
