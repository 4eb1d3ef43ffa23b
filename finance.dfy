/**
 * The finance page (app/finance/page.tsx): the colour of each donation type
 * and the page's state with its transitions.
 */
module Finance {
  import opened Api
  import opened Text

  /** The colour of each donation type the form offers. */
  const DonationTypeColors: map<string, string> :=
    map["tithe" := "#3498db", "offering" := "#2ecc71", "donation" := "#e74c3c"]

  /** The colour of any other type. */
  const OtherColor := "#95a5a6"

  /** `getTypeColor`: total over all strings; unknown types fall back to grey. */
  function TypeColor(kind: string): (c: string)
    ensures kind in DonationTypeColors ==> c == DonationTypeColors[kind]
    ensures kind !in DonationTypeColors ==> c == OtherColor
  {
    if kind == "tithe" then "#3498db"
    else if kind == "offering" then "#2ecc71"
    else if kind == "donation" then "#e74c3c"
    else OtherColor
  }

  /** Distinct known types get distinct colours, none of them the fallback. */
  lemma TypeColorsDistinct(k1: string, k2: string)
    requires k1 in DonationTypeColors && k2 in DonationTypeColors && k1 != k2
    ensures TypeColor(k1) != TypeColor(k2)
    ensures TypeColor(k1) != OtherColor
  {
  }

  const ZeroFinanceStats := FinanceStats(0.0, 0.0, [])

  /** The record-donation form's fields; the amount is the text typed in. */
  datatype DonationDraft = DonationDraft(
    memberId: string,
    amount: string,
    kind: string,
    date: string,
    description: string)

  /**
   * `new Date().toISOString().split('T')[0]`: the calendar date of the moment
   * `nowIso`, given as its ISO-8601 text.
   */
  function Today(nowIso: string): (d: string)
    ensures d <= nowIso && 'T' !in d
    ensures |d| < |nowIso| ==> nowIso[|d|] == 'T'
  {
    SplitFirst(nowIso, 'T')
  }

  /** The draft the form starts from, and returns to after each recorded donation. */
  function InitialDonationDraft(nowIso: string): (d: DonationDraft)
    ensures d.memberId == "" && d.amount == "" && d.description == ""
    ensures d.kind == "tithe"
    ensures d.date == Today(nowIso)
  {
    DonationDraft("", "", "tithe", Today(nowIso), "")
  }

  /**
   * The page's state. The clock the page reads is the parameter `nowIso` of
   * the constructor and of HandleRecordDonation.
   */
  class FinancePage {
    var donations: seq<Donation>
    var stats: FinanceStats
    var loading: bool
    var showAddForm: bool
    var newDonation: DonationDraft

    constructor (nowIso: string)
      ensures donations == [] && stats == ZeroFinanceStats
      ensures loading && !showAddForm && newDonation == InitialDonationDraft(nowIso)
    {
      donations := [];
      stats := ZeroFinanceStats;
      loading := true;
      showAddForm := false;
      newDonation := InitialDonationDraft(nowIso);
    }

    /**
     * `loadFinanceData`: the two requests go out together. If both succeed,
     * donations and stats are replaced by what the server sent; if either
     * fails, neither changes. Loading ends either way.
     */
    method LoadFinanceData(donationsF: Fetched<seq<Donation>>, statsF: Fetched<FinanceStats>)
      modifies this
      ensures donationsF.Received? && statsF.Received? ==>
        donations == donationsF.value && stats == statsF.value
      ensures !(donationsF.Received? && statsF.Received?) ==>
        donations == old(donations) && stats == old(stats)
      ensures !loading
      ensures showAddForm == old(showAddForm) && newDonation == old(newDonation)
    {
      var both := AllOf2(donationsF, statsF);
      if both.Received? {
        donations := both.value.0;
        stats := both.value.1;
      }
      loading := false;
    }

    method OpenAddForm()
      modifies this
      ensures showAddForm
      ensures donations == old(donations) && stats == old(stats)
      ensures loading == old(loading) && newDonation == old(newDonation)
    {
      showAddForm := true;
    }

    method CloseAddForm()
      modifies this
      ensures !showAddForm
      ensures donations == old(donations) && stats == old(stats)
      ensures loading == old(loading) && newDonation == old(newDonation)
    {
      showAddForm := false;
    }

    /**
     * `handleRecordDonation`, once the request has settled. On success the
     * form closes, the draft goes back to its initial values (dated at
     * `nowIso`) and a reload is started (`refresh`); on failure nothing
     * changes.
     */
    method HandleRecordDonation(recorded: bool, nowIso: string) returns (refresh: bool)
      modifies this
      ensures refresh == recorded
      ensures recorded ==> !showAddForm && newDonation == InitialDonationDraft(nowIso)
      ensures !recorded ==> showAddForm == old(showAddForm) && newDonation == old(newDonation)
      ensures donations == old(donations) && stats == old(stats) && loading == old(loading)
    {
      if recorded {
        showAddForm := false;
        newDonation := InitialDonationDraft(nowIso);
      }
      refresh := recorded;
    }
  }
}
