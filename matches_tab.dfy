/** The matches tab of a tournament (src/components/Tournaments/Tabs/MatchesTab.tsx):
    the status filter, the sort of the filtered copy, the per-status counts
    on the filter buttons, and what each match card shows. */
module MatchesTab {
  import opened Common
  import opened Tournament

  /** The look (icon, colour and text) of a status: `completed` and `live`
      have their own, anything else looks scheduled. */
  datatype StatusLook = CompletedLook | LiveLook | ScheduledLook
  {
    /** The translation key of the status text. */
    function TextKey(): string
    {
      match this
      case CompletedLook => "matchCompleted"
      case LiveLook => "matchLive"
      case ScheduledLook => "matchScheduled"
    }
  }

  /** The `switch (status)` of `getMatchStatusIcon`, `getMatchStatusColor`
      and `getMatchStatusText`. */
  function StatusLookOf(status: string): (look: StatusLook)
    ensures look == CompletedLook <==> status == Completed
    ensures look == LiveLook <==> status == Live
    ensures look == ScheduledLook <==> status != Completed && status != Live
  {
    if status == Completed then CompletedLook
    else if status == Live then LiveLook
    else ScheduledLook
  }

  /** A declared status is shown as itself; only an undeclared one is
      drawn as if it were scheduled. */
  lemma KnownStatusShownAsItself(status: string)
    requires KnownStatus(status)
    ensures StatusLookOf(status) == StatusLookOf(Scheduled) <==> status == Scheduled
  {
  }

  /** The text of the stage: a translation key for the four known stages,
      the raw stage string otherwise. */
  datatype StageText = Translated(key: string) | Raw(text: string)

  predicate KnownStage(stage: string)
  {
    stage == "quarter_finals" || stage == "semi_finals" || stage == "final" || stage == "group_stage"
  }

  /** `getStageText` */
  function StageTextOf(stage: string): (t: StageText)
    ensures t.Raw? <==> !KnownStage(stage)
    ensures t.Raw? ==> t.text == stage
  {
    if stage == "quarter_finals" then Translated("quarterFinals")
    else if stage == "semi_finals" then Translated("semiFinals")
    else if stage == "final" then Translated("grandFinal")
    else if stage == "group_stage" then Translated("groupStage")
    else Raw(stage)
  }

  /** Different stages never get the same text. */
  lemma StageTextInjective(a: string, b: string)
    ensures StageTextOf(a) == StageTextOf(b) ==> a == b
  {
  }

  /** `match.winner === side.id`: the side is drawn as the winner. */
  predicate Highlighted(m: TournamentMatch, side: MatchTeam)
  {
    m.winner == Some(side.id)
  }

  /** What the winner slot below the teams draws. `match.winner && (...)`
      yields the number itself when the winner id is 0, and React draws
      that number as the text "0". */
  datatype WinnerSlot = NoWinner | StrayZero | WinnerLine(name: string)

  /** `match.winner && (match.winner === match.team1.id ? team1.name : team2.name)`:
      nothing without a winner, a stray "0" for the falsy id 0, otherwise
      the line naming team 1 when it won and team 2 in every other case. */
  function WinnerLabel(m: TournamentMatch): (shown: WinnerSlot)
    ensures shown.NoWinner? <==> m.winner.None?
    ensures shown.StrayZero? <==> m.winner == Some(0)
    ensures shown.WinnerLine? <==> m.winner.Some? && m.winner.value != 0
    ensures shown.WinnerLine? && Highlighted(m, m.team1) ==> shown.name == m.team1.name
    ensures shown.WinnerLine? && !Highlighted(m, m.team1) ==> shown.name == m.team2.name
  {
    if m.winner.None? then NoWinner
    else if m.winner.value == 0 then StrayZero
    else if m.winner.value == m.team1.id then WinnerLine(m.team1.name)
    else WinnerLine(m.team2.name)
  }

  /** The label names the highlighted side when the winner is one of two
      distinct teams, and team 2 when it is neither, although then neither
      side is highlighted. */
  lemma WinnerLabelAgreesWithHighlight(m: TournamentMatch)
    requires m.team1.id != m.team2.id && m.winner.Some? && m.winner.value != 0
    ensures Highlighted(m, m.team1) ==> WinnerLabel(m) == WinnerLine(m.team1.name) && !Highlighted(m, m.team2)
    ensures Highlighted(m, m.team2) ==> WinnerLabel(m) == WinnerLine(m.team2.name) && !Highlighted(m, m.team1)
    ensures !Highlighted(m, m.team1) && !Highlighted(m, m.team2) ==> WinnerLabel(m) == WinnerLine(m.team2.name)
  {
  }

  /** A team whose id is 0 can be highlighted as the winner, yet its card
      shows the stray "0" instead of the winner line naming it. */
  lemma ZeroIdWinnerHighlightedWithoutLine(m: TournamentMatch)
    requires m.team1.id == 0 && m.winner == Some(0)
    ensures Highlighted(m, m.team1)
    ensures WinnerLabel(m) == StrayZero && !WinnerLabel(m).WinnerLine?
  {
  }

  /** What one match card of the grid shows. */
  datatype Card = Card(
    look: StatusLook,
    stage: StageText,
    matchDate: int,
    team1Winner: bool,
    team2Winner: bool,
    winnerLabel: WinnerSlot)

  function CardOf(m: TournamentMatch): (c: Card)
    ensures c.look == StatusLookOf(m.status) && c.stage == StageTextOf(m.stage)
    ensures c.team1Winner == Highlighted(m, m.team1) && c.team2Winner == Highlighted(m, m.team2)
    ensures c.winnerLabel == WinnerLabel(m)
  {
    Card(StatusLookOf(m.status), StageTextOf(m.stage), m.matchDate,
         Highlighted(m, m.team1), Highlighted(m, m.team2), WinnerLabel(m))
  }

  /** `filterStatus`: every match, or one status. */
  datatype StatusFilter = AllStatuses | CompletedOnly | LiveOnly | ScheduledOnly
  {
    /** The status a filter other than `all` keeps. */
    function Status(): string
      requires !AllStatuses?
    {
      match this
      case CompletedOnly => Completed
      case LiveOnly => Live
      case ScheduledOnly => Scheduled
    }
  }

  /** The filter buttons, in display order. */
  const FilterButtons: seq<StatusFilter> := [AllStatuses, CompletedOnly, LiveOnly, ScheduledOnly]

  /** `matches.filter(m => m.status === status)`: the matches of one status,
      in their order, each as often as it occurs. */
  function WithStatus(ms: seq<TournamentMatch>, status: string): (r: seq<TournamentMatch>)
    ensures |r| <= |ms|
    ensures forall i :: 0 <= i < |r| ==> r[i].status == status
    ensures forall m :: multiset(r)[m] == if m.status == status then multiset(ms)[m] else 0
  {
    if |ms| == 0 then []
    else
      var rest := WithStatus(ms[1..], status);
      assert ms == [ms[0]] + ms[1..];
      assert multiset(ms) == multiset{ms[0]} + multiset(ms[1..]);
      if ms[0].status == status then [ms[0]] + rest else rest
  }

  /** Filtering keeps the order: the filter of a concatenation is the
      concatenation of the filters. */
  lemma {:induction false} WithStatusAppend(a: seq<TournamentMatch>, b: seq<TournamentMatch>, status: string)
    ensures WithStatus(a + b, status) == WithStatus(a, status) + WithStatus(b, status)
    decreases |a|
  {
    if |a| > 0 {
      assert (a + b)[1..] == a[1..] + b;
      WithStatusAppend(a[1..], b, status);
    } else {
      assert a + b == b;
    }
  }

  /** `filteredMatches` */
  function FilterMatches(ms: seq<TournamentMatch>, f: StatusFilter): (r: seq<TournamentMatch>)
    ensures f.AllStatuses? ==> r == ms
    ensures !f.AllStatuses? ==> forall i :: 0 <= i < |r| ==> r[i].status == f.Status()
    ensures !f.AllStatuses? ==> forall m :: multiset(r)[m] == if m.status == f.Status() then multiset(ms)[m] else 0
  {
    if f.AllStatuses? then ms else WithStatus(ms, f.Status())
  }

  /** `sortBy` */
  datatype SortKey = ByDate | ByStage

  /** `a.localeCompare(b) <= 0`, with the locale's collation replaced by
      lexicographic order of the characters. */
  predicate LexLe(a: string, b: string)
  {
    if |a| == 0 then true
    else if |b| == 0 then false
    else if a[0] != b[0] then a[0] < b[0]
    else LexLe(a[1..], b[1..])
  }

  lemma {:induction false} LexLeTotal(a: string, b: string)
    ensures LexLe(a, b) || LexLe(b, a)
    decreases |a|
  {
    if |a| > 0 && |b| > 0 && a[0] == b[0] {
      LexLeTotal(a[1..], b[1..]);
    }
  }

  lemma {:induction false} LexLeTransitive(a: string, b: string, c: string)
    requires LexLe(a, b) && LexLe(b, c)
    ensures LexLe(a, c)
    decreases |a|
  {
    if |a| > 0 && |b| > 0 && |c| > 0 && a[0] == b[0] && b[0] == c[0] {
      LexLeTransitive(a[1..], b[1..], c[1..]);
    }
  }

  /** The comparator returns at most 0 for `(a, b)`: `a` may stay in front
      of `b`. By date the latest comes first, by stage the stage strings
      ascend. */
  predicate InOrder(key: SortKey, a: TournamentMatch, b: TournamentMatch)
  {
    match key
    case ByDate => b.matchDate - a.matchDate <= 0
    case ByStage => LexLe(a.stage, b.stage)
  }

  lemma InOrderTotal(key: SortKey, a: TournamentMatch, b: TournamentMatch)
    ensures InOrder(key, a, b) || InOrder(key, b, a)
  {
    if key == ByStage {
      LexLeTotal(a.stage, b.stage);
    }
  }

  lemma InOrderTransitive(key: SortKey, a: TournamentMatch, b: TournamentMatch, c: TournamentMatch)
    requires InOrder(key, a, b) && InOrder(key, b, c)
    ensures InOrder(key, a, c)
  {
    if key == ByStage {
      LexLeTransitive(a.stage, b.stage, c.stage);
    }
  }

  predicate SortedBy(key: SortKey, s: seq<TournamentMatch>)
  {
    forall i, j :: 0 <= i < j < |s| ==> InOrder(key, s[i], s[j])
  }

  /** Puts `x` in front of the first element it may precede: `x` stays in
      front of the equal elements that followed it, as the stable
      `Array.prototype.sort` keeps them. */
  function Insert(key: SortKey, x: TournamentMatch, s: seq<TournamentMatch>): (r: seq<TournamentMatch>)
    ensures multiset(r) == multiset(s) + multiset{x} && |r| == |s| + 1
  {
    if |s| == 0 then [x]
    else if InOrder(key, x, s[0]) then [x] + s
    else
      assert s == [s[0]] + s[1..];
      [s[0]] + Insert(key, x, s[1..])
  }

  /** `x` may precede the head of a sorted list: in front of it the list
      stays sorted. */
  lemma InsertFront(key: SortKey, x: TournamentMatch, s: seq<TournamentMatch>)
    requires SortedBy(key, s) && |s| > 0 && InOrder(key, x, s[0])
    ensures SortedBy(key, [x] + s)
  {
    forall j | 0 < j < |s|
      ensures InOrder(key, x, s[j])
    {
      InOrderTransitive(key, x, s[0], s[j]);
    }
  }

  /** The head of a sorted list may precede `x` and everything else, so it
      stays in front of the rest with `x` put in. */
  lemma InsertBehind(key: SortKey, x: TournamentMatch, s: seq<TournamentMatch>)
    requires SortedBy(key, s) && |s| > 0 && InOrder(key, s[0], x)
    requires SortedBy(key, Insert(key, x, s[1..]))
    ensures SortedBy(key, [s[0]] + Insert(key, x, s[1..]))
  {
    var r := Insert(key, x, s[1..]);
    var t := [s[0]] + r;
    forall a, b | 0 <= a < b < |t|
      ensures InOrder(key, t[a], t[b])
    {
      assert t[b] == r[b - 1];
      if a == 0 {
        assert r[b - 1] in multiset(r);
        HeadPrecedesMember(key, x, s, r[b - 1]);
      } else {
        assert t[a] == r[a - 1];
      }
    }
  }

  /** Every element of the rest with `x` put in may follow the head. */
  lemma HeadPrecedesMember(key: SortKey, x: TournamentMatch, s: seq<TournamentMatch>, y: TournamentMatch)
    requires SortedBy(key, s) && |s| > 0 && InOrder(key, s[0], x)
    requires y in multiset(Insert(key, x, s[1..]))
    ensures InOrder(key, s[0], y)
  {
    if y != x {
      assert y in multiset(s[1..]);
      var k :| 0 <= k < |s[1..]| && s[1..][k] == y;
      assert s[k + 1] == y;
    }
  }

  lemma {:induction false} InsertSorted(key: SortKey, x: TournamentMatch, s: seq<TournamentMatch>)
    requires SortedBy(key, s)
    ensures SortedBy(key, Insert(key, x, s))
    decreases |s|
  {
    if |s| > 0 {
      if InOrder(key, x, s[0]) {
        InsertFront(key, x, s);
      } else {
        InOrderTotal(key, x, s[0]);
        InsertSorted(key, x, s[1..]);
        InsertBehind(key, x, s);
      }
    }
  }

  /** `[...filteredMatches].sort(...)`: a sorted copy; the list it was made
      from is a value and stays as it was. */
  function SortMatches(key: SortKey, s: seq<TournamentMatch>): (r: seq<TournamentMatch>)
    ensures multiset(r) == multiset(s) && |r| == |s|
    ensures SortedBy(key, r)
  {
    if |s| == 0 then []
    else
      var rest := SortMatches(key, s[1..]);
      InsertSortsOne(key, s, rest);
      Insert(key, s[0], rest)
  }

  /** Inserting the first element into the sorted rest sorts the whole. */
  lemma InsertSortsOne(key: SortKey, s: seq<TournamentMatch>, rest: seq<TournamentMatch>)
    requires |s| > 0 && SortedBy(key, rest) && multiset(rest) == multiset(s[1..]) && |rest| == |s| - 1
    ensures multiset(Insert(key, s[0], rest)) == multiset(s) && |Insert(key, s[0], rest)| == |s|
    ensures SortedBy(key, Insert(key, s[0], rest))
  {
    InsertSorted(key, s[0], rest);
    assert s == [s[0]] + s[1..];
  }

  /** Sorted by date, the dates never increase down the list; sorted by
      stage, the stage strings never decrease. */
  lemma SortOrder(key: SortKey, s: seq<TournamentMatch>, i: nat, j: nat)
    requires i < j < |s|
    ensures key == ByDate ==> SortMatches(key, s)[i].matchDate >= SortMatches(key, s)[j].matchDate
    ensures key == ByStage ==> LexLe(SortMatches(key, s)[i].stage, SortMatches(key, s)[j].stage)
  {
  }

  /** `statusCounts` */
  datatype StatusCounts = StatusCounts(all: nat, completed: nat, live: nat, scheduled: nat)
  {
    /** `statusCounts[status]`, the number on a filter button. */
    function Of(f: StatusFilter): nat
    {
      match f
      case AllStatuses => all
      case CompletedOnly => completed
      case LiveOnly => live
      case ScheduledOnly => scheduled
    }
  }

  function CountsOf(ms: seq<TournamentMatch>): StatusCounts
  {
    StatusCounts(|ms|, |WithStatus(ms, Completed)|, |WithStatus(ms, Live)|, |WithStatus(ms, Scheduled)|)
  }

  /** The number on a filter button is the number of cards the grid shows
      once that filter is selected, whichever order it is sorted in. */
  lemma ButtonCountIsCardCount(ms: seq<TournamentMatch>, f: StatusFilter, key: SortKey)
    ensures CountsOf(ms).Of(f) == |SortMatches(key, FilterMatches(ms, f))|
  {
  }

  /** With the three declared statuses only, the three counts add up to
      the total. */
  lemma {:induction false} CountsPartition(ms: seq<TournamentMatch>)
    requires forall i :: 0 <= i < |ms| ==> KnownStatus(ms[i].status)
    ensures CountsOf(ms).completed + CountsOf(ms).live + CountsOf(ms).scheduled == CountsOf(ms).all
    decreases |ms|
  {
    if |ms| > 0 {
      CountsPartition(ms[1..]);
    }
  }

  /** A status outside the three is counted under `all` only, so the
      buttons then add up to less than the total. */
  lemma UndeclaredStatusUncounted(m: TournamentMatch)
    requires m.status == "cancelled"
    ensures CountsOf([m]).all == 1
    ensures CountsOf([m]).completed + CountsOf([m]).live + CountsOf([m]).scheduled == 0
  {
    assert [m][1..] == [];
  }

  /** The filter leaves nothing exactly when it is a status filter and no
      match has that status. */
  lemma NothingPassesIff(ms: seq<TournamentMatch>, f: StatusFilter)
    ensures f.AllStatuses? ==> (FilterMatches(ms, f) == [] <==> ms == [])
    ensures !f.AllStatuses? ==> (FilterMatches(ms, f) == [] <==> forall i :: 0 <= i < |ms| ==> ms[i].status != f.Status())
  {
    var r := FilterMatches(ms, f);
    if !f.AllStatuses? && r == [] {
      forall i | 0 <= i < |ms|
        ensures ms[i].status != f.Status()
      {
        assert ms[i] in multiset(ms);
      }
    }
    if !f.AllStatuses? && r != [] {
      assert r[0] in multiset(r);
      var i :| 0 <= i < |ms| && ms[i] == r[0];
      assert ms[i].status == f.Status();
    }
  }

  /** The tab's state: the filter and the sort chosen. */
  class MatchesView {
    const matches: seq<TournamentMatch>
    var filterStatus: StatusFilter
    var sortBy: SortKey

    constructor (matches: seq<TournamentMatch>)
      ensures this.matches == matches && filterStatus == AllStatuses && sortBy == ByDate
    {
      this.matches := matches;
      filterStatus := AllStatuses;
      sortBy := ByDate;
    }

    /** A filter button: `setFilterStatus(status)`. */
    method SelectFilter(f: StatusFilter)
      modifies this
      ensures filterStatus == f && sortBy == old(sortBy)
    {
      filterStatus := f;
    }

    /** The sort select: `setSortBy(value)`. */
    method SelectSort(key: SortKey)
      modifies this
      ensures sortBy == key && filterStatus == old(filterStatus)
    {
      sortBy := key;
    }

    /** `sortedMatches`: the matches the grid draws, in order. */
    function Shown(): (shown: seq<TournamentMatch>)
      reads this
      ensures multiset(shown) == multiset(FilterMatches(matches, filterStatus))
      ensures SortedBy(sortBy, shown)
    {
      SortMatches(sortBy, FilterMatches(matches, filterStatus))
    }

    /** The cards of the grid. */
    function Cards(): (cards: seq<Card>)
      reads this
      ensures |cards| == |Shown()| && forall i :: 0 <= i < |cards| ==> cards[i] == CardOf(Shown()[i])
    {
      var shown := Shown();
      seq(|shown|, i requires 0 <= i < |shown| => CardOf(shown[i]))
    }

    /** A filter button is drawn active exactly for the selected filter. */
    predicate ButtonActive(f: StatusFilter)
      reads this
    {
      filterStatus == f
    }

    /** The empty state: no match passes the filter. */
    function EmptyState(): (empty: bool)
      reads this
      ensures empty <==> CountsOf(matches).Of(filterStatus) == 0
      ensures filterStatus.AllStatuses? ==> (empty <==> matches == [])
      ensures !filterStatus.AllStatuses? ==> (empty <==> forall i :: 0 <= i < |matches| ==> matches[i].status != filterStatus.Status())
    {
      ButtonCountIsCardCount(matches, filterStatus, sortBy);
      NothingPassesIff(matches, filterStatus);
      |Shown()| == 0
    }
  }
}
