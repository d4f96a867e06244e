/** The bracket tab of a tournament (src/components/Tournaments/Tabs/BracketTab.tsx):
    the quarter-final, semi-final and final sections, each drawn only when
    it has matches, and the empty state when none has. */
module BracketTab {
  import opened Common
  import opened Tournament
  import MatchesTab

  /** What one match card of the bracket shows: the same status look,
      winner highlight and winner slot (a stray "0" for the winner id 0
      included) as the matches tab, and no stage. */
  datatype Card = Card(
    look: MatchesTab.StatusLook,
    matchDate: int,
    team1Winner: bool,
    team2Winner: bool,
    winnerLabel: MatchesTab.WinnerSlot)

  /** `renderMatch` */
  function CardOf(m: TournamentMatch): (c: Card)
    ensures c.look == MatchesTab.StatusLookOf(m.status)
    ensures c.team1Winner <==> m.winner == Some(m.team1.id)
    ensures c.team2Winner <==> m.winner == Some(m.team2.id)
    ensures c.winnerLabel.NoWinner? <==> m.winner.None?
    ensures c.winnerLabel.StrayZero? <==> m.winner == Some(0)
    ensures c.winnerLabel.WinnerLine? <==> m.winner.Some? && m.winner.value != 0
    ensures c.winnerLabel.WinnerLine? && m.winner == Some(m.team1.id) ==> c.winnerLabel.name == m.team1.name
    ensures c.winnerLabel.WinnerLine? && m.winner != Some(m.team1.id) ==> c.winnerLabel.name == m.team2.name
  {
    Card(MatchesTab.StatusLookOf(m.status), m.matchDate,
         MatchesTab.Highlighted(m, m.team1), MatchesTab.Highlighted(m, m.team2), MatchesTab.WinnerLabel(m))
  }

  function CardsOf(ms: seq<TournamentMatch>): (cards: seq<Card>)
    ensures |cards| == |ms| && forall i :: 0 <= i < |ms| ==> cards[i] == CardOf(ms[i])
  {
    if |ms| == 0 then [] else [CardOf(ms[0])] + CardsOf(ms[1..])
  }

  lemma {:induction false} CardsOfAppend(a: seq<TournamentMatch>, b: seq<TournamentMatch>)
    ensures CardsOf(a + b) == CardsOf(a) + CardsOf(b)
  {
  }

  /** A drawn stage: its title key, the match count beside the title, and
      its cards in order. */
  datatype Section = Section(titleKey: string, count: nat, cards: seq<Card>)

  /** `renderBracketStage`: nothing for an empty round. */
  function StageSection(ms: seq<TournamentMatch>, titleKey: string): (s: Option<Section>)
    ensures s.None? <==> ms == []
    ensures s.Some? ==> s.value.titleKey == titleKey && s.value.count == |ms| && s.value.cards == CardsOf(ms)
  {
    if |ms| == 0 then None else Some(Section(titleKey, |ms|, CardsOf(ms)))
  }

  /** The section, if drawn, as a list of zero or one. */
  function Drawn(s: Option<Section>): (r: seq<Section>)
    ensures |r| <= 1 && (r == [] <==> s.None?)
  {
    if s.Some? then [s.value] else []
  }

  /** What the tab draws below its header. */
  datatype BracketView = BracketView(sections: seq<Section>, emptyState: bool)

  function ViewOf(b: Brackets): BracketView
  {
    BracketView(
      Drawn(StageSection(b.quarterFinals, "quarterFinals"))
      + Drawn(StageSection(b.semiFinals, "semiFinals"))
      + Drawn(StageSection(b.final, "grandFinal")),
      |b.quarterFinals| == 0 && |b.semiFinals| == 0 && |b.final| == 0)
  }

  /** The cards of every drawn section, in the order drawn. */
  function AllCards(sections: seq<Section>): seq<Card>
  {
    if |sections| == 0 then [] else sections[0].cards + AllCards(sections[1..])
  }

  lemma {:induction false} AllCardsAppend(a: seq<Section>, b: seq<Section>)
    ensures AllCards(a + b) == AllCards(a) + AllCards(b)
    decreases |a|
  {
    if |a| > 0 {
      assert (a + b)[1..] == a[1..] + b;
      AllCardsAppend(a[1..], b);
    } else {
      assert a + b == b;
    }
  }

  lemma DrawnCards(ms: seq<TournamentMatch>, titleKey: string)
    ensures AllCards(Drawn(StageSection(ms, titleKey))) == CardsOf(ms)
  {
    if |ms| > 0 {
      assert AllCards([Section(titleKey, |ms|, CardsOf(ms))]) == CardsOf(ms) + AllCards([]);
    }
  }

  /** Every bracket match is drawn exactly once: the cards, read section by
      section, are the quarter-finals, then the semi-finals, then the final,
      each in its own order. */
  lemma CardsInStageOrder(b: Brackets)
    ensures AllCards(ViewOf(b).sections) == CardsOf(b.quarterFinals + b.semiFinals + b.final)
  {
    var q := Drawn(StageSection(b.quarterFinals, "quarterFinals"));
    var s := Drawn(StageSection(b.semiFinals, "semiFinals"));
    var f := Drawn(StageSection(b.final, "grandFinal"));
    AllCardsAppend(q + s, f);
    AllCardsAppend(q, s);
    DrawnCards(b.quarterFinals, "quarterFinals");
    DrawnCards(b.semiFinals, "semiFinals");
    DrawnCards(b.final, "grandFinal");
    CardsOfAppend(b.quarterFinals + b.semiFinals, b.final);
    CardsOfAppend(b.quarterFinals, b.semiFinals);
  }

  /** The empty state is drawn exactly when no section is, and there is a
      section per non-empty round. */
  lemma EmptyStateIffNoSection(b: Brackets)
    ensures ViewOf(b).emptyState <==> ViewOf(b).sections == []
    ensures |ViewOf(b).sections| ==
      (if b.quarterFinals != [] then 1 else 0) + (if b.semiFinals != [] then 1 else 0) + (if b.final != [] then 1 else 0)
  {
  }

  /** With only a final, the one section drawn is the grand final. */
  lemma FinalOnly(b: Brackets)
    requires b.quarterFinals == [] && b.semiFinals == [] && b.final != []
    ensures ViewOf(b).sections == [Section("grandFinal", |b.final|, CardsOf(b.final))]
    ensures !ViewOf(b).emptyState
  {
  }
}
