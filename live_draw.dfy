/** The operator's draw screen (components/admin/live-draw-interface.tsx):
    the state it keeps, the go-live trigger, the draw with its spinning
    animation, the bookkeeping of a win, and the completion branch. The store
    and the random number generator are outside: every reply from the store
    and every sample of `Math.random()` is an input, and every write the
    screen issues is returned so the two separate writes of a win are visible. */
module LiveDraw {
  import opened RaffleTypes
  import opened PrizeBook
  import opened Randomness

  /** A write the operator screen sends to the store. */
  datatype StoreWrite =
    | InsertWinner(raffleId: string, participantId: string, prizeId: string)
    | SetRemaining(prizeId: string, remaining: int)
    | SetStatus(raffleId: string, status: RaffleStatus)

  /** The reply to the go-live request: from the `startRaffle` server action
      when the page supplies one, otherwise from the screen's own update of the
      raffle row (`error` is the message of the error object, if any). */
  datatype GoLiveReply =
    | ActionReply(error: Option<string>, success: bool)
    | UpdateReply(updateError: Option<string>, hasRow: bool)

  /** The reply to the completion request, by the same two routes. */
  datatype CompleteReply =
    | CompleteActionReply(error: Option<string>)
    | CompleteUpdateReply(updateError: Option<string>)

  /** What the operator sees after asking to complete the draw. */
  datatype CompleteOutcome =
    | Alerted(message: string)
    | ServerRedirect
    | Navigated(path: string)

  /** A JavaScript string in a condition: present and not empty. */
  predicate Truthy(s: Option<string>) {
    s.Some? && |s.value| > 0
  }

  /** The number of animation ticks: the interval stops once its counter exceeds 30. */
  const SpinTicks: nat := 31

  /** Every participant is eligible on every draw, past winners included:
      nobody is excluded and nobody is added. */
  function EligibleParticipants(participants: seq<Participant>, winners: seq<WinnerRecord>): (r: seq<Participant>)
    ensures |r| == |participants|
    ensures forall p :: p in r <==> p in participants
  {
    participants
  }

  /** A participant who already won is eligible again. */
  lemma PastWinnerEligible(participants: seq<Participant>, winners: seq<WinnerRecord>, w: WinnerRecord)
    requires w in winners && w.participant.Some? && w.participant.value in participants
    ensures w.participant.value in EligibleParticipants(participants, winners)
  {
  }

  class DrawSession {
    const raffle: Raffle
    const participants: seq<Participant>
    /** Whether the page passed the `startRaffle` and `completeRaffle` server actions. */
    const hasStartAction: bool
    const hasCompleteAction: bool

    var isSpinning: bool
    var currentPrize: Option<Prize>
    var displayedName: string
    var winner: Option<Participant>
    var winners: seq<WinnerRecord>
    var availablePrizes: seq<Prize>
    var isRaffleLive: bool

    /** Whether the prizes given at start had unique ids and a unit each, as
        the draw page's query (remaining > 0) delivers them; and, then, the
        units left plus the winners recorded, which every win keeps. */
    ghost const tracked: bool
    ghost const budget: int

    ghost predicate Valid()
      reads this
    {
      && currentPrize == FirstOf(availablePrizes)
      && (tracked ==>
            && UniqueIds(availablePrizes)
            && AllPositive(availablePrizes)
            && TotalRemaining(availablePrizes) + |winners| == budget)
    }

    /** The component's initial state: the first prize given is up for draw,
        the prize list is taken as given, and the screen counts as live
        exactly when the raffle already is. */
    constructor (raffle: Raffle, prizes: seq<Prize>, participants: seq<Participant>,
                 existingWinners: seq<WinnerRecord>, hasStartAction: bool, hasCompleteAction: bool)
      ensures Valid()
      ensures this.raffle == raffle && this.participants == participants
      ensures this.hasStartAction == hasStartAction && this.hasCompleteAction == hasCompleteAction
      ensures currentPrize == FirstOf(prizes) && availablePrizes == prizes
      ensures winners == existingWinners
      ensures isRaffleLive == (raffle.status == Live)
      ensures !isSpinning && winner == None && displayedName == ""
      ensures tracked == (UniqueIds(prizes) && AllPositive(prizes))
    {
      this.raffle := raffle;
      this.participants := participants;
      this.hasStartAction := hasStartAction;
      this.hasCompleteAction := hasCompleteAction;
      isSpinning := false;
      currentPrize := FirstOf(prizes);
      displayedName := "";
      winner := None;
      winners := existingWinners;
      availablePrizes := prizes;
      isRaffleLive := raffle.status == Live;
      tracked := UniqueIds(prizes) && AllPositive(prizes);
      budget := TotalRemaining(prizes) + |existingWinners|;
    }

    /** The effect that asks for the `upcoming -> live` transition: it fires
        only for an upcoming raffle, on a screen not yet live, when the page
        supplied the server action. */
    method GoLiveEffect(reply: GoLiveReply) returns (fired: bool, writes: seq<StoreWrite>, alert: Option<string>)
      requires Valid()
      requires reply.ActionReply? == hasStartAction
      modifies this`isRaffleLive
      ensures Valid()
      ensures fired == (raffle.status == Upcoming && !old(isRaffleLive) && hasStartAction)
      ensures !fired ==> isRaffleLive == old(isRaffleLive) && writes == [] && alert == None
      ensures fired ==> writes == [] && isRaffleLive == (old(isRaffleLive) || (reply.success && !Truthy(reply.error)))
      ensures fired ==> alert == if Truthy(reply.error) then Some("Failed to start raffle: " + reply.error.value) else None
    {
      fired := raffle.status == Upcoming && !isRaffleLive && hasStartAction;
      writes, alert := [], None;
      if fired {
        writes, alert := SetRaffleToLive(reply);
      }
    }

    /** The go-live request. Through the server action the screen becomes live
        only on a reply that reports success and no error; through its own
        update it becomes live only when a row came back without error. An
        error is shown and leaves the screen as it was. */
    method SetRaffleToLive(reply: GoLiveReply) returns (writes: seq<StoreWrite>, alert: Option<string>)
      requires Valid()
      requires reply.ActionReply? == hasStartAction
      modifies this`isRaffleLive
      ensures Valid()
      ensures writes == if hasStartAction then [] else [SetStatus(raffle.id, Live)]
      ensures reply.ActionReply? ==>
        && (Truthy(reply.error) ==> isRaffleLive == old(isRaffleLive) && alert == Some("Failed to start raffle: " + reply.error.value))
        && (!Truthy(reply.error) ==> isRaffleLive == (old(isRaffleLive) || reply.success) && alert == None)
      ensures reply.UpdateReply? ==>
        && (reply.updateError.Some? ==> isRaffleLive == old(isRaffleLive) && alert == Some("Failed to start raffle: " + reply.updateError.value))
        && (reply.updateError.None? ==> isRaffleLive == (old(isRaffleLive) || reply.hasRow) && alert == None)
    {
      alert := None;
      if !hasStartAction {
        writes := [SetStatus(raffle.id, Live)];
        if reply.updateError.Some? {
          alert := Some("Failed to start raffle: " + reply.updateError.value);
          return;
        }
        if reply.hasRow {
          isRaffleLive := true;
        }
        return;
      }
      writes := [];
      if Truthy(reply.error) {
        alert := Some("Failed to start raffle: " + reply.error.value);
        return;
      }
      if reply.success {
        isRaffleLive := true;
      }
    }

    /** The guard of a draw: it starts only with a prize up for draw, no draw
        spinning, and someone eligible; otherwise nothing changes. */
    method BeginSpin() returns (started: bool, alert: Option<string>)
      requires Valid()
      modifies this`isSpinning, this`winner
      ensures Valid()
      ensures started == (old(currentPrize).Some? && !old(isSpinning) && |EligibleParticipants(participants, winners)| > 0)
      ensures started ==> isSpinning && winner == None
      ensures !started ==> isSpinning == old(isSpinning) && winner == old(winner)
      ensures alert == if old(currentPrize).Some? && !old(isSpinning) && participants == []
                       then Some("No more eligible participants!") else None
    {
      started, alert := false, None;
      if currentPrize.None? || isSpinning {
        return;
      }
      var eligible := EligibleParticipants(participants, winners);
      if |eligible| == 0 {
        alert := Some("No more eligible participants!");
        return;
      }
      isSpinning := true;
      winner := None;
      started := true;
    }

    /** The spinning animation: one random name per tick until the counter
        passes 30, so it runs exactly 31 ticks and shows the last pick. */
    method SpinAnimation(samples: seq<real>) returns (ticks: nat)
      requires participants != [] && |samples| >= SpinTicks
      requires forall i :: 0 <= i < |samples| ==> IsUnitSample(samples[i])
      modifies this`displayedName
      ensures ticks == SpinTicks
      ensures displayedName == participants[PickIndex(samples[SpinTicks - 1], |participants|)].name
    {
      var eligible := EligibleParticipants(participants, winners);
      var spinCount := 0;
      var stopped := false;
      while !stopped
        invariant 0 <= spinCount <= SpinTicks
        invariant stopped <==> spinCount == SpinTicks
        invariant 0 < spinCount ==>
          displayedName == eligible[PickIndex(samples[spinCount - 1], |eligible|)].name
        decreases SpinTicks - spinCount
      {
        displayedName := eligible[PickIndex(samples[spinCount], |eligible|)].name;
        spinCount := spinCount + 1;
        if spinCount > 30 {
          stopped := true;
        }
      }
      ticks := spinCount;
    }

    /** Picking and recording a winner. The pick is `floor(r * n)` over the
        eligible list, so the winner is always one of the participants. With
        a prize up for draw the winner row is inserted; only when the insert
        returns the row is it appended, is the prize's new count written (a
        second, separate write), and does the prize list move on: the won
        prize loses one unit, depleted prizes are dropped, and the first
        survivor is up next. The spinning flag is cleared in every case. */
    method SelectWinner(r: real, inserted: Option<WinnerRecord>) returns (selected: Participant, writes: seq<StoreWrite>)
      requires Valid()
      requires IsUnitSample(r) && participants != []
      modifies this`displayedName, this`winner, this`winners, this`availablePrizes, this`currentPrize, this`isSpinning
      ensures Valid()
      ensures selected in participants
      ensures selected == participants[PickIndex(r, |participants|)]
      ensures displayedName == selected.name && winner == Some(selected) && !isSpinning
      ensures old(currentPrize).None? ==> writes == []
      ensures old(currentPrize).Some? ==>
        var prize := old(currentPrize).value;
        writes == [InsertWinner(raffle.id, selected.id, prize.id)]
                  + (if inserted.Some? then [SetRemaining(prize.id, prize.remaining - 1)] else [])
      ensures old(currentPrize).Some? && inserted.Some? ==>
        && winners == old(winners) + [inserted.value]
        && availablePrizes == AfterWin(old(availablePrizes), old(currentPrize).value.id)
      ensures old(currentPrize).None? || inserted.None? ==>
        winners == old(winners) && availablePrizes == old(availablePrizes) && currentPrize == old(currentPrize)
    {
      var eligible := EligibleParticipants(participants, winners);
      selected := eligible[PickIndex(r, |eligible|)];
      displayedName := selected.name;
      winner := Some(selected);
      writes := [];
      if currentPrize.Some? {
        var prize := currentPrize.value;
        writes := [InsertWinner(raffle.id, selected.id, prize.id)];
        if inserted.Some? {
          ghost var before := availablePrizes;
          winners := winners + [inserted.value];
          writes := writes + [SetRemaining(prize.id, prize.remaining - 1)];
          var stillAvailable := AfterWin(availablePrizes, prize.id);
          availablePrizes := stillAvailable;
          if |stillAvailable| > 0 {
            currentPrize := Some(stillAvailable[0]);
          } else {
            currentPrize := None;
          }
          if tracked {
            AfterWinBookkeeping(before, 0);
          }
        }
      }
      isSpinning := false;
    }

    /** The whole draw behind the "Draw Winner" button: the guard, 31 ticks of
        animation and the pick. A refused draw changes nothing; an accepted one
        picks a participant, ends with the spinner stopped, and records at
        most one winner, each one costing exactly one unit of prize. */
    method StartDraw(samples: seq<real>, r: real, inserted: Option<WinnerRecord>)
      returns (started: bool, alert: Option<string>, selected: Option<Participant>, writes: seq<StoreWrite>)
      requires Valid()
      requires |samples| >= SpinTicks && forall i :: 0 <= i < |samples| ==> IsUnitSample(samples[i])
      requires IsUnitSample(r)
      modifies this
      ensures Valid()
      ensures started == (old(currentPrize).Some? && !old(isSpinning) && participants != [])
      ensures !started ==>
        && isSpinning == old(isSpinning) && winner == old(winner) && displayedName == old(displayedName)
        && winners == old(winners) && availablePrizes == old(availablePrizes)
        && currentPrize == old(currentPrize) && isRaffleLive == old(isRaffleLive)
        && selected == None && writes == []
      ensures started ==> selected.Some? && selected.value in participants && !isSpinning && winner == selected
      ensures started ==>
        && selected == Some(participants[PickIndex(r, |participants|)])
        && displayedName == selected.value.name
        && var prize := old(currentPrize).value;
           writes == [InsertWinner(raffle.id, selected.value.id, prize.id)]
                     + (if inserted.Some? then [SetRemaining(prize.id, prize.remaining - 1)] else [])
      ensures started && inserted.Some? ==>
        && winners == old(winners) + [inserted.value]
        && availablePrizes == AfterWin(old(availablePrizes), old(currentPrize).value.id)
        && currentPrize == FirstOf(availablePrizes)
      ensures started && inserted.None? ==>
        winners == old(winners) && availablePrizes == old(availablePrizes) && currentPrize == old(currentPrize)
      ensures |winners| == |old(winners)| + (if started && inserted.Some? then 1 else 0)
      ensures tracked ==> TotalRemaining(availablePrizes) == TotalRemaining(old(availablePrizes)) - (|winners| - |old(winners)|)
      ensures alert == if old(currentPrize).Some? && !old(isSpinning) && participants == []
                       then Some("No more eligible participants!") else None
      ensures isRaffleLive == old(isRaffleLive)
    {
      selected, writes := None, [];
      started, alert := BeginSpin();
      if started {
        var _ := SpinAnimation(samples);
        var s;
        s, writes := SelectWinner(r, inserted);
        selected := Some(s);
      }
    }

    /** "Complete Draw", offered only once no prize is up for draw. Through the
        server action an error is shown and otherwise the action redirects;
        through the screen's own update the status write is sent, an error is
        shown, and otherwise the screen navigates to the raffle's page. */
    method CompleteDraw(reply: CompleteReply) returns (writes: seq<StoreWrite>, outcome: CompleteOutcome)
      requires currentPrize.None?
      requires reply.CompleteActionReply? == hasCompleteAction
      ensures hasCompleteAction ==> writes == []
      ensures !hasCompleteAction ==> writes == [SetStatus(raffle.id, Completed)]
      ensures outcome.ServerRedirect? <==> hasCompleteAction && !Truthy(reply.error)
      ensures outcome.Navigated? <==> !hasCompleteAction && reply.updateError.None?
      ensures outcome.Navigated? ==> outcome.path == "/admin/raffles/" + raffle.id
      ensures outcome.Alerted? ==>
        outcome.message == "Failed to complete raffle: " + (if hasCompleteAction then reply.error.value else reply.updateError.value)
    {
      if hasCompleteAction {
        writes := [];
        if Truthy(reply.error) {
          outcome := Alerted("Failed to complete raffle: " + reply.error.value);
        } else {
          outcome := ServerRedirect;
        }
        return;
      }
      writes := [SetStatus(raffle.id, Completed)];
      if reply.updateError.Some? {
        outcome := Alerted("Failed to complete raffle: " + reply.updateError.value);
        return;
      }
      outcome := Navigated("/admin/raffles/" + raffle.id);
    }
  }
}
