/** The tab strip of a tournament page (src/components/Tournaments/TournamentTabs.tsx):
    the three tabs with their counts, the selected tab, and the content
    drawn for it. */
module TournamentTabs {
  import opened Common
  import opened Tournament
  import BracketTab

  /** `TabType` */
  datatype TabType = Participants | Bracket | Matches

  /** One tab button: its id, the translation key of its label, its count. */
  datatype Tab = Tab(id: TabType, labelKey: string, count: nat)

  /** `tabs`: participants, bracket and matches, in that order. The bracket
      tab counts every match of the tournament, as the matches tab does. */
  function TabsOf(t: TournamentDetail): (tabs: seq<Tab>)
    ensures |tabs| == 3
    ensures tabs[0].id == Participants && tabs[1].id == Bracket && tabs[2].id == Matches
    ensures tabs[0].count == |t.participants|
    ensures tabs[1].count == |t.matches| && tabs[2].count == |t.matches|
  {
    [Tab(Participants, "participants", |t.participants|),
     Tab(Bracket, "bracket", |t.matches|),
     Tab(Matches, "matches", |t.matches|)]
  }

  /** `tab.count > 0 && <span>`: the count badge. */
  predicate ShowsBadge(tab: Tab)
  {
    tab.count > 0
  }

  /** What `renderTabContent` draws. */
  datatype Content =
    | ParticipantsContent(participants: seq<Participant>)
    | BracketContent(brackets: Brackets)
    | MatchesContent(matches: seq<TournamentMatch>)

  function ContentOf(t: TournamentDetail, active: TabType): (c: Content)
    ensures c.ParticipantsContent? <==> active == Participants
    ensures c.BracketContent? <==> active == Bracket
    ensures c.MatchesContent? <==> active == Matches
    ensures c.ParticipantsContent? ==> c.participants == t.participants
    ensures c.BracketContent? ==> c.brackets == t.brackets
    ensures c.MatchesContent? ==> c.matches == t.matches
  {
    match active
    case Participants => ParticipantsContent(t.participants)
    case Bracket => BracketContent(t.brackets)
    case Matches => MatchesContent(t.matches)
  }

  /** The bracket badge counts the tournament's matches, not the bracket's:
      a tournament with matches but empty rounds shows a count on the
      bracket tab whose content is the empty state. */
  lemma BracketBadgeOverEmptyBracket(t: TournamentDetail)
    requires |t.matches| > 0
    requires t.brackets.quarterFinals == [] && t.brackets.semiFinals == [] && t.brackets.final == []
    ensures ShowsBadge(TabsOf(t)[1]) && TabsOf(t)[1].count == |t.matches|
    ensures BracketTab.ViewOf(ContentOf(t, Bracket).brackets).emptyState
  {
    BracketTab.EmptyStateIffNoSection(t.brackets);
  }

  /** The tab strip's state. */
  class TabsView {
    const tournament: TournamentDetail
    var activeTab: TabType

    /** The participants tab is selected first. */
    constructor (tournament: TournamentDetail)
      ensures this.tournament == tournament && activeTab == Participants
    {
      this.tournament := tournament;
      activeTab := Participants;
    }

    /** A tab button: `setActiveTab(tab.id)`. */
    method Click(tab: Tab)
      modifies this
      ensures activeTab == tab.id
    {
      activeTab := tab.id;
    }

    /** A tab button is drawn active exactly for the selected tab. */
    predicate Active(tab: Tab)
      reads this
    {
      activeTab == tab.id
    }

    /** The content drawn below the strip. */
    function Content(): Content
      reads this
    {
      ContentOf(tournament, activeTab)
    }
  }

  /** Clicking any button of the strip selects exactly that button. */
  method ClickSelectsOne(t: TournamentDetail, k: nat) returns (view: TabsView)
    requires k < 3
    ensures view.Active(TabsOf(t)[k])
    ensures forall j :: 0 <= j < 3 && j != k ==> !view.Active(TabsOf(t)[j])
  {
    view := new TabsView(t);
    view.Click(TabsOf(t)[k]);
  }
}
