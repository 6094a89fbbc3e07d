/** The public viewer of a live draw (components/public-live-draw.tsx): a
    local replica of the draw that two store notifications keep up to date.
    The notifications and the rows the viewer fetches in reply are inputs. */
module PublicDraw {
  import opened RaffleTypes
  import opened PrizeBook

  /** The first row of the viewer's prize query (rows with a unit left, by
      value, highest first): a prize with a unit left and the highest value
      among those, or none when no prize has a unit left. The store leaves the
      order of equal values open; this model takes the earliest such row. */
  function TopPrize(ps: seq<Prize>): (r: Option<Prize>)
    ensures r.None? <==> forall i :: 0 <= i < |ps| ==> ps[i].remaining <= 0
    ensures r.Some? ==> r.value in ps && r.value.remaining > 0
    ensures r.Some? ==> forall i :: 0 <= i < |ps| && ps[i].remaining > 0 ==> ps[i].value <= r.value.value
  {
    if ps == [] then None
    else
      var rest := TopPrize(ps[1..]);
      if ps[0].remaining <= 0 then rest
      else if rest.Some? && rest.value.value > ps[0].value then rest
      else Some(ps[0])
  }

  /** Prizes listed by value, highest first, as the live page loads them. */
  predicate ByValueDescending(ps: seq<Prize>) {
    forall i, j :: 0 <= i < j < |ps| ==> ps[i].value >= ps[j].value
  }

  /** `p` is a prize of the list with a unit left and no prize with a unit
      left is worth more: a valid first row of the prize query. */
  predicate IsTopChoice(ps: seq<Prize>, p: Prize) {
    && p in ps && p.remaining > 0
    && forall i :: 0 <= i < |ps| && ps[i].remaining > 0 ==> ps[i].value <= p.value
  }

  /** Two valid first rows of the prize query have the same value. */
  lemma TopChoicesShareValue(ps: seq<Prize>, p: Prize, q: Prize)
    requires IsTopChoice(ps, p) && IsTopChoice(ps, q)
    ensures p.value == q.value
  {
    var i :| 0 <= i < |ps| && ps[i] == p;
    var j :| 0 <= j < |ps| && ps[j] == q;
  }

  /** On prizes listed by value, highest first, the initial choice (the first
      prize with a unit left) meets everything a prize-update notification
      promises of its choice, whatever order the store gives equal values:
      there is none exactly when no prize has a unit left, and otherwise it is
      a prize of the list with a unit left and the highest value among those,
      the value of the prize the notification would pick. */
  lemma InitialPrizeIsTop(ps: seq<Prize>)
    requires ByValueDescending(ps)
    ensures var c := FirstOf(Available(ps));
      && (c.None? <==> forall i :: 0 <= i < |ps| ==> ps[i].remaining <= 0)
      && (c.Some? ==> IsTopChoice(ps, c.value))
      && (c.Some? ==> TopPrize(ps).Some? && TopPrize(ps).value.value == c.value.value)
  {
    var avail := Available(ps);
    if avail == [] {
      forall i | 0 <= i < |ps| ensures ps[i].remaining <= 0 {
        assert ps[i] in ps;
      }
    } else {
      var c := avail[0];
      assert c in avail;
      FirstAvailableIsFirst(ps);
      var k :| 0 <= k < |ps| && ps[k] == c && forall j :: 0 <= j < k ==> ps[j].remaining <= 0;
      forall i | 0 <= i < |ps| && ps[i].remaining > 0 ensures ps[i].value <= c.value {
        assert k <= i;
      }
      assert IsTopChoice(ps, c);
      assert c.remaining > 0;
      var t := TopPrize(ps);
      assert t.Some? && IsTopChoice(ps, t.value);
      TopChoicesShareValue(ps, c, t.value);
    }
  }

  class Viewer {
    var winners: seq<WinnerRecord>
    var currentPrize: Option<Prize>
    var isSpinning: bool
    var currentWinner: Option<Participant>

    /** The state before any effect ran: the winners the page loaded (newest
        first), no prize, no spinner, no winner shown. */
    constructor (initialWinners: seq<WinnerRecord>)
      ensures winners == initialWinners
      ensures currentPrize == None && !isSpinning && currentWinner == None
    {
      winners := initialWinners;
      currentPrize := None;
      isSpinning := false;
      currentWinner := None;
    }

    /** The initial-prize effect: the first given prize with a unit left
        becomes the current prize; with none, the current prize is left alone. */
    method SetInitialPrize(prizes: seq<Prize>)
      modifies this`currentPrize
      ensures Available(prizes) != [] ==>
        currentPrize.Some? && currentPrize.value.remaining > 0
        && exists i ::
             && 0 <= i < |prizes| && prizes[i] == currentPrize.value
             && forall j :: 0 <= j < i ==> prizes[j].remaining <= 0
      ensures Available(prizes) == [] ==> currentPrize == old(currentPrize)
    {
      var availablePrizes := Available(prizes);
      if |availablePrizes| > 0 {
        currentPrize := Some(availablePrizes[0]);
        FirstAvailableIsFirst(prizes);
      }
    }

    /** A winner-insert notification, after the joined row was fetched
        (`None` when the fetch returned no row). A row is put in front of the
        list, newest first, with no check for a row already shown; when it
        carries its participant, that participant is shown and the spinner
        stops. */
    method OnWinnerInsert(data: Option<WinnerRecord>)
      modifies this`winners, this`currentWinner, this`isSpinning
      ensures data.None? ==>
        winners == old(winners) && currentWinner == old(currentWinner) && isSpinning == old(isSpinning)
      ensures data.Some? ==> winners == [data.value] + old(winners) && |winners| == |old(winners)| + 1
      ensures data.Some? && data.value.participant.Some? ==>
        currentWinner == data.value.participant && !isSpinning
      ensures data.Some? && data.value.participant.None? ==>
        currentWinner == old(currentWinner) && isSpinning == old(isSpinning)
    {
      if data.Some? {
        winners := [data.value] + winners;
        if data.value.participant.Some? {
          currentWinner := data.value.participant;
          isSpinning := false;
        }
      }
    }

    /** A prize-update notification, after the raffle's prizes were queried
        again (`rows` are the rows the query runs over, `None` when it
        returned no data). With a prize left, one of the highest value is up
        for draw, the spinner starts and the shown winner is cleared; with
        none, there is no current prize and nothing else changes. */
    method OnPrizeUpdate(rows: Option<seq<Prize>>)
      modifies this`currentPrize, this`isSpinning, this`currentWinner
      ensures rows.None? ==>
        currentPrize == None && isSpinning == old(isSpinning) && currentWinner == old(currentWinner)
      ensures rows.Some? && (exists i :: 0 <= i < |rows.value| && rows.value[i].remaining > 0) ==>
        && currentPrize.Some? && currentPrize.value in rows.value && currentPrize.value.remaining > 0
        && (forall i :: 0 <= i < |rows.value| && rows.value[i].remaining > 0 ==> rows.value[i].value <= currentPrize.value.value)
        && isSpinning && currentWinner == None
      ensures rows.Some? && (forall i :: 0 <= i < |rows.value| ==> rows.value[i].remaining <= 0) ==>
        currentPrize == None && isSpinning == old(isSpinning) && currentWinner == old(currentWinner)
    {
      var top := if rows.Some? then TopPrize(rows.value) else None;
      if top.Some? {
        currentPrize := top;
        isSpinning := true;
        currentWinner := None;
      } else {
        currentPrize := None;
      }
    }
  }

  /** The head of the filtered list is the first prize of the list with a unit left. */
  lemma {:induction false} FirstAvailableIsFirst(ps: seq<Prize>)
    requires Available(ps) != []
    ensures exists i ::
      && 0 <= i < |ps| && ps[i] == Available(ps)[0]
      && forall j :: 0 <= j < i ==> ps[j].remaining <= 0
  {
    if ps[0].remaining <= 0 {
      FirstAvailableIsFirst(ps[1..]);
      var i :| 0 <= i < |ps[1..]| && ps[1..][i] == Available(ps[1..])[0]
        && forall j :: 0 <= j < i ==> ps[1..][j].remaining <= 0;
      assert ps[i + 1] == Available(ps)[0];
      forall j | 0 <= j < i + 1 ensures ps[j].remaining <= 0 {
        if j > 0 { assert ps[1..][j - 1] == ps[j]; }
      }
    }
  }

  /** A notification delivered twice shows its winner twice: the viewer does
      not deduplicate. */
  method DeliverWinnerTwice(v: Viewer, w: WinnerRecord)
    modifies v
    ensures v.winners == [w, w] + old(v.winners)
  {
    v.OnWinnerInsert(Some(w));
    v.OnWinnerInsert(Some(w));
  }
}
