/**
  * The comparison page (App.jsx with components/compare/ComparePlayerTable.jsx):
  * two drop-downs each choose a player, and the table appears only once
  * both have a choice.
  */
module Compare {
  import opened Text
  import opened Errors

  datatype CandidatePlayer = CandidatePlayer(id: int, name: string, position: string)

  /** The two drop-downs, by their `name` attribute. */
  datatype SlotName = Player1 | Player2

  /** `Number(player.id) === Number(value)`: a value that is no number matches nothing. */
  predicate HasId(p: CandidatePlayer, value: string): (b: bool)
    ensures b ==> AllDigits(value) && p.id >= 0
  {
    ToNumber(value) == Finite(p.id)
  }

  /** `players.find(...)`: the first player whose id is the value. */
  function FindById(players: seq<CandidatePlayer>, value: string): (r: Option<CandidatePlayer>)
    ensures r.None? <==> forall i :: 0 <= i < |players| ==> !HasId(players[i], value)
    ensures r.Some? ==> exists i :: 0 <= i < |players| && players[i] == r.value && HasId(r.value, value)
                                    && forall j :: 0 <= j < i ==> !HasId(players[j], value)
    decreases |players|
  {
    if players == [] then None
    else if HasId(players[0], value) then Some(players[0])
    else
      var rest := FindById(players[1..], value);
      assert forall i :: 1 <= i < |players| ==> players[i] == players[1..][i - 1];
      rest
  }

  /** `String(id)` for an option's value finds that player unless an earlier one has the same id. */
  lemma {:induction false} OptionValueFindsPlayer(players: seq<CandidatePlayer>, k: nat)
    requires k < |players| && players[k].id >= 0
    requires forall j :: 0 <= j < k ==> players[j].id != players[k].id
    ensures FindById(players, DecimalString(players[k].id)) == Some(players[k])
  {
    ToNumberOfDecimal(players[k].id);
    var r := FindById(players, DecimalString(players[k].id));
    assert HasId(players[k], DecimalString(players[k].id));
    var i :| 0 <= i < |players| && players[i] == r.value && HasId(r.value, DecimalString(players[k].id))
             && forall j :: 0 <= j < i ==> !HasId(players[j], DecimalString(players[k].id));
    assert players[i].id == players[k].id;
    assert i == k;
  }

  /** The `selectedPlayers` state, `{ player1: null, player2: null }` at first. */
  class Selection {
    var player1: Option<CandidatePlayer>
    var player2: Option<CandidatePlayer>

    constructor ()
      ensures player1.None? && player2.None?
    {
      player1, player2 := None, None;
    }

    function Get(slot: SlotName): Option<CandidatePlayer>
      reads this
    {
      if slot.Player1? then player1 else player2
    }

    /**
      * `handleSelectChange`: the empty choice clears the drop-down's slot, a
      * known id fills it with that player, and an unknown value changes
      * nothing. The other slot never changes.
      */
    method HandleSelectChange(players: seq<CandidatePlayer>, slot: SlotName, value: string)
      modifies this
      ensures value == "" ==> Get(slot).None?
      ensures value != "" && FindById(players, value).Some? ==> Get(slot) == FindById(players, value)
      ensures value != "" && FindById(players, value).None? ==> Get(slot) == old(Get(slot))
      ensures slot.Player1? ==> player2 == old(player2)
      ensures slot.Player2? ==> player1 == old(player1)
    {
      if value == "" {
        if slot.Player1? { player1 := None; } else { player2 := None; }
        return;
      }
      var selected := FindById(players, value);
      if selected.Some? {
        if slot.Player1? { player1 := selected; } else { player2 := selected; }
      }
    }

    /** `Object.values(selectedPlayers).filter(Boolean)`: the chosen players, player 1 first. */
    function SelectedPlayers(): (r: seq<CandidatePlayer>)
      reads this
      ensures |r| <= 2
      ensures |r| == 2 <==> player1.Some? && player2.Some?
      ensures |r| == 2 ==> r == [player1.value, player2.value]
      ensures player1.Some? && player2.None? ==> r == [player1.value]
      ensures player1.None? && player2.Some? ==> r == [player2.value]
      ensures player1.None? && player2.None? ==> r == []
    {
      (if player1.Some? then [player1.value] else []) + (if player2.Some? then [player2.value] else [])
    }
  }

  /** What `ComparePlayerTable` receives: not an array, or an array whose entries may be `null`. */
  datatype Input<P> = NotAnArray | Items(entries: seq<Option<P>>)

  const ChooseTwoMessage := "Please choose 2 players"

  datatype CompareView<P> = Message(text: string) | Rows(rows: seq<P>)

  /** The table is drawn only for an array of exactly two non-null players, one row each, in order. */
  function ComparePlayerTable<P>(input: Input<P>): (r: CompareView<P>)
    ensures r.Message? ==> r.text == ChooseTwoMessage
    ensures r.Rows? <==> input.Items? && |input.entries| == 2
                         && forall i :: 0 <= i < |input.entries| ==> input.entries[i].Some?
    ensures r.Rows? ==> |r.rows| == 2 && forall i :: 0 <= i < 2 ==> r.rows[i] == input.entries[i].value
  {
    if !input.Items? || |input.entries| != 2 || exists i :: 0 <= i < |input.entries| && input.entries[i].None?
    then Message(ChooseTwoMessage)
    else Rows([input.entries[0].value, input.entries[1].value])
  }

  function AsEntries<P>(players: seq<P>): (r: seq<Option<P>>)
    ensures |r| == |players| && forall i :: 0 <= i < |players| ==> r[i] == Some(players[i])
  {
    seq(|players|, i requires 0 <= i < |players| => Some(players[i]))
  }

  /** The comparison shows player 1 and then player 2 exactly when both drop-downs have a choice. */
  lemma TableNeedsBothChoices(s: Selection)
    ensures var view := ComparePlayerTable(Items(AsEntries(s.SelectedPlayers())));
            && (view.Rows? <==> s.player1.Some? && s.player2.Some?)
            && (view.Rows? ==> view.rows == [s.player1.value, s.player2.value])
  {
  }
}
