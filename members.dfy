/**
 * The members page (app/members/page.tsx): the search filter over the loaded
 * member list, the status badge, and the page's state with its transitions.
 */
module Members {
  import opened Api
  import opened Text

  /**
   * The search predicate: the lower-cased first name, last name or email
   * contains the lower-cased query.
   */
  predicate Matches(m: Member, query: string) {
    var q := Lower(query);
    Contains(Lower(m.firstName), q) || Contains(Lower(m.lastName), q) || Contains(Lower(m.email), q)
  }

  /**
   * `members.filter(...)` with the search predicate: only matching members
   * are kept, and the list never grows. FilterKeepsAllMatches shows that no
   * matching member is dropped.
   */
  function FilterMembers(members: seq<Member>, query: string): (r: seq<Member>)
    ensures |r| <= |members|
    ensures forall m :: m in r ==> Matches(m, query)
  {
    if members == [] then
      []
    else
      var rest := FilterMembers(members[1..], query);
      if Matches(members[0], query) then [members[0]] + rest else rest
  }

  /**
   * No false negatives: each matching member is kept as many times as it
   * occurs in the input, and each other member not at all.
   */
  lemma {:induction false} FilterKeepsAllMatches(members: seq<Member>, query: string)
    ensures forall m ::
      multiset(FilterMembers(members, query))[m] == if Matches(m, query) then multiset(members)[m] else 0
    ensures forall m :: m in members && Matches(m, query) ==> m in FilterMembers(members, query)
  {
    if members != [] {
      FilterKeepsAllMatches(members[1..], query);
      assert members == [members[0]] + members[1..];
    }
  }

  /** `a` can be obtained from `b` by deleting elements: same relative order. */
  predicate IsSubsequence<T(==)>(a: seq<T>, b: seq<T>)
    decreases |b|
  {
    a == [] || (b != [] && ((a[0] == b[0] && IsSubsequence(a[1..], b[1..])) || IsSubsequence(a, b[1..])))
  }

  /** The filter is stable: the result keeps the input's relative order. */
  lemma {:induction false} FilterIsSubsequence(members: seq<Member>, query: string)
    ensures IsSubsequence(FilterMembers(members, query), members)
  {
    if members != [] {
      FilterIsSubsequence(members[1..], query);
      var rest := FilterMembers(members[1..], query);
      if Matches(members[0], query) {
        var r := [members[0]] + rest;
        assert r[0] == members[0] && r[1..] == rest;
      }
    }
  }

  /** An empty search box shows the whole list, unchanged. */
  lemma {:induction false} FilterEmptyQuery(members: seq<Member>)
    ensures FilterMembers(members, "") == members
  {
    if members != [] {
      FilterEmptyQuery(members[1..]);
      assert Matches(members[0], "");
      assert members == [members[0]] + members[1..];
    }
  }

  /** Queries that lower-case to the same string select the same members. */
  lemma {:induction false} FilterCaseInsensitive(members: seq<Member>, q1: string, q2: string)
    requires Lower(q1) == Lower(q2)
    ensures FilterMembers(members, q1) == FilterMembers(members, q2)
  {
    if members != [] {
      FilterCaseInsensitive(members[1..], q1, q2);
    }
  }

  /** In particular, typing the query in upper case changes nothing. */
  lemma FilterLowerQuery(members: seq<Member>, query: string)
    ensures FilterMembers(members, Lower(query)) == FilterMembers(members, query)
  {
    LowerIdempotent(query);
    FilterCaseInsensitive(members, Lower(query), query);
  }

  /** "AL" finds Alice by her first name. */
  lemma SearchExampleName()
    ensures Matches(Member("1", "Alice", "Smith", "a@x.com", "", "", "", "", "", "", None, ""), "AL")
  {
    assert Lower("AL") == "al";
    assert OccursAt(Lower("Alice"), "al", 0);
  }

  /** "AL" finds al@x.com by the email address. */
  lemma SearchExampleEmail()
    ensures Matches(Member("2", "Carl", "Jones", "al@x.com", "", "", "", "", "", "", None, ""), "AL")
  {
    assert Lower("AL") == "al";
    assert OccursAt(Lower("al@x.com"), "al", 0);
  }

  /** "AL" does not find Bob. */
  lemma SearchExampleMiss()
    ensures !Matches(Member("3", "Bob", "Brown", "bob@x.com", "", "", "", "", "", "", None, ""), "AL")
  {
    assert Lower("AL") == "al";
    LowerAvoids("Bob", 'l');
    LowerAvoids("Brown", 'l');
    LowerAvoids("bob@x.com", 'l');
    ContainsNeedsChar(Lower("Bob"), "al", 1);
    ContainsNeedsChar(Lower("Brown"), "al", 1);
    ContainsNeedsChar(Lower("bob@x.com"), "al", 1);
  }

  /** The three fields the search looks at agree. */
  predicate SameSearchFields(a: Member, b: Member) {
    a.firstName == b.firstName && a.lastName == b.lastName && a.email == b.email
  }

  /** Two lists agree position by position on the searched fields. */
  predicate SameSearchFieldsAll(ms: seq<Member>, ns: seq<Member>) {
    |ms| == |ns| && forall i :: 0 <= i < |ms| ==> SameSearchFields(ms[i], ns[i])
  }

  lemma SameSearchFieldsCons(m: Member, n: Member, ms: seq<Member>, ns: seq<Member>)
    requires SameSearchFields(m, n) && SameSearchFieldsAll(ms, ns)
    ensures SameSearchFieldsAll([m] + ms, [n] + ns)
  {
  }

  /**
   * Phone, address, status and the other fields never decide whether a member
   * is kept: when two lists agree position by position on the searched
   * fields, so do their results.
   */
  lemma {:induction false} FilterIgnoresOtherFields(ms: seq<Member>, ns: seq<Member>, query: string)
    requires SameSearchFieldsAll(ms, ns)
    ensures SameSearchFieldsAll(FilterMembers(ms, query), FilterMembers(ns, query))
  {
    if ms != [] {
      assert SameSearchFields(ms[0], ns[0]);
      assert SameSearchFieldsAll(ms[1..], ns[1..]);
      FilterIgnoresOtherFields(ms[1..], ns[1..], query);
      if Matches(ms[0], query) {
        SameSearchFieldsCons(ms[0], ns[0], FilterMembers(ms[1..], query), FilterMembers(ns[1..], query));
      }
    }
  }

  /** The text of the status badge: `member.status || 'active'`. */
  function DisplayStatus(status: Option<string>): (caption: string)
    ensures status == None || status == Some("") ==> caption == "active"
    ensures status.Some? && status.value != "" ==> caption == status.value
    ensures caption != ""
  {
    match status
    case Some(s) => if s != "" then s else "active"
    case None => "active"
  }

  datatype StatusBadge = StatusBadge(caption: string, background: string, foreground: string)

  const ActiveBackground := "#d4edda"
  const ActiveForeground := "#155724"
  const InactiveBackground := "#f8d7da"
  const InactiveForeground := "#721c24"

  /** The badge as the page draws it: the colours test the raw status. */
  function StatusBadgeAsWritten(status: Option<string>): (b: StatusBadge)
    ensures b.caption == DisplayStatus(status)
    ensures b.background == ActiveBackground <==> status == Some("active")
    ensures b.foreground == ActiveForeground <==> status == Some("active")
    ensures status != Some("active") ==> b.background == InactiveBackground && b.foreground == InactiveForeground
  {
    var active := status == Some("active");
    StatusBadge(DisplayStatus(status),
                if active then ActiveBackground else InactiveBackground,
                if active then ActiveForeground else InactiveForeground)
  }

  /** A member without a status is labelled "active" but drawn in the inactive colours. */
  lemma StatusBadgeAsWrittenMismatch()
    ensures StatusBadgeAsWritten(None).caption == "active"
    ensures StatusBadgeAsWritten(None).background == InactiveBackground
    ensures StatusBadgeAsWritten(Some("")).caption == "active"
    ensures StatusBadgeAsWritten(Some("")).background == InactiveBackground
  {
  }

  /** The badge with the colours chosen from the label it shows. */
  function StatusBadgeFor(status: Option<string>): (b: StatusBadge)
    ensures b.caption == DisplayStatus(status)
    ensures b.background == ActiveBackground <==> b.caption == "active"
    ensures b.foreground == ActiveForeground <==> b.caption == "active"
    ensures b.caption != "active" ==> b.background == InactiveBackground && b.foreground == InactiveForeground
    ensures status.Some? && status.value != "" ==> b == StatusBadgeAsWritten(status)
  {
    var caption := DisplayStatus(status);
    var active := caption == "active";
    StatusBadge(caption,
                if active then ActiveBackground else InactiveBackground,
                if active then ActiveForeground else InactiveForeground)
  }

  /** The add-member form's fields. */
  datatype MemberDraft = MemberDraft(
    firstName: string,
    lastName: string,
    email: string,
    phone: string,
    address: string,
    birthDate: string,
    gender: string,
    baptismDate: string,
    confirmationDate: string)

  const EmptyMemberDraft := MemberDraft("", "", "", "", "", "", "", "", "")

  /**
   * The page's state. React runs the search effect after every change of
   * `members` or `searchQuery`; here that is the method SearchEffect, which
   * the caller runs after LoadMembers and SetSearchQuery.
   */
  class MembersPage {
    var members: seq<Member>
    var filteredMembers: seq<Member>
    var searchQuery: string
    var loading: bool
    var showAddForm: bool
    var newMember: MemberDraft

    /** The rows on screen are the search result over the loaded list. */
    predicate FilterCurrent()
      reads this
    {
      filteredMembers == FilterMembers(members, searchQuery)
    }

    constructor ()
      ensures members == [] && filteredMembers == [] && searchQuery == ""
      ensures loading && !showAddForm && newMember == EmptyMemberDraft
      ensures FilterCurrent()
    {
      members := [];
      filteredMembers := [];
      searchQuery := "";
      loading := true;
      showAddForm := false;
      newMember := EmptyMemberDraft;
    }

    /**
     * `loadMembers`: on success both lists become the fetched list; on failure
     * neither changes. Loading ends either way.
     */
    method LoadMembers(fetched: Fetched<seq<Member>>)
      modifies this
      ensures fetched.Received? ==> members == fetched.value && filteredMembers == fetched.value
      ensures fetched.Failed? ==> members == old(members) && filteredMembers == old(filteredMembers)
      ensures !loading
      ensures searchQuery == old(searchQuery) && showAddForm == old(showAddForm) && newMember == old(newMember)
      // With an empty search box the list is already filtered before the effect runs.
      ensures searchQuery == "" && (fetched.Received? || old(FilterCurrent())) ==> FilterCurrent()
    {
      if fetched.Received? {
        members := fetched.value;
        filteredMembers := fetched.value;
      }
      loading := false;
      if searchQuery == "" && fetched.Received? {
        FilterEmptyQuery(members);
      }
    }

    /** The search box's onChange. */
    method SetSearchQuery(query: string)
      modifies this
      ensures searchQuery == query
      ensures members == old(members) && filteredMembers == old(filteredMembers)
      ensures loading == old(loading) && showAddForm == old(showAddForm) && newMember == old(newMember)
    {
      searchQuery := query;
    }

    /** The effect on `[searchQuery, members]`: recompute the visible rows. */
    method SearchEffect()
      modifies this
      ensures FilterCurrent()
      ensures members == old(members) && searchQuery == old(searchQuery)
      ensures loading == old(loading) && showAddForm == old(showAddForm) && newMember == old(newMember)
    {
      filteredMembers := FilterMembers(members, searchQuery);
    }

    method OpenAddForm()
      modifies this
      ensures showAddForm
      ensures members == old(members) && filteredMembers == old(filteredMembers) && searchQuery == old(searchQuery)
      ensures loading == old(loading) && newMember == old(newMember)
    {
      showAddForm := true;
    }

    method CloseAddForm()
      modifies this
      ensures !showAddForm
      ensures members == old(members) && filteredMembers == old(filteredMembers) && searchQuery == old(searchQuery)
      ensures loading == old(loading) && newMember == old(newMember)
    {
      showAddForm := false;
    }

    /**
     * `handleAddMember`, once the create request has settled (`created` tells
     * whether it succeeded). The request sends the draft as it stands. On
     * success the form closes, the draft is cleared and a reload is started
     * (`refresh`); on failure nothing changes.
     */
    method HandleAddMember(created: bool) returns (request: MemberDraft, refresh: bool)
      modifies this
      ensures request == old(newMember)
      ensures refresh == created
      ensures created ==> !showAddForm && newMember == EmptyMemberDraft
      ensures !created ==> showAddForm == old(showAddForm) && newMember == old(newMember)
      ensures members == old(members) && filteredMembers == old(filteredMembers) && searchQuery == old(searchQuery)
      ensures loading == old(loading)
    {
      request := newMember;
      if created {
        showAddForm := false;
        newMember := EmptyMemberDraft;
      }
      refresh := created;
    }
  }
}
