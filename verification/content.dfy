/** The content script of the battle page: it reads the active Pokémon's name
    and the move buttons, reports the battle state to the background script,
    and clicks the move the background script recommends.

    The page is plain data. `querySelector('.active .pokename')` becomes an
    optional raw text, `querySelectorAll('button[name="chooseMove"]')` the
    sequence of the buttons' raw texts in document order, a click the index
    of the clicked button, and `chrome.runtime.sendMessage` an optional
    outgoing message. */
module Content {
  import opened Wrappers
  import opened JsString

  /** What the content script reads from the page. `activeName` is the
      `textContent` of the active Pokémon's name element, None when there is
      no such element; `moveButtons` holds the `textContent` of each move
      button, in document order. */
  datatype Page = Page(activeName: Option<string>, moveButtons: seq<string>)

  /** The object `{activePokemon, moves}`; None stands for `null`. */
  datatype BattleState = BattleState(activePokemon: Option<string>, moves: seq<string>)

  /** A message sent to the background script: `{type, state}`. */
  datatype Outgoing = Outgoing(kind: string, state: BattleState)

  /** A message received from the background script: `{type, move}`. A field
      that is missing or is not a string is None; it is never `===` to a
      string. */
  datatype Incoming = Incoming(kind: Option<string>, move: Option<string>)

  const BattleStateKind: string := "battle_state"
  const RecommendedMoveKind: string := "recommended_move"

  /** JavaScript's `!x` for a string-or-null value: true for `null` and for
      the empty string. */
  predicate Falsy(x: Option<string>) {
    x.None? || x.value == []
  }

  /** The page offers nothing to report: no name element, or one whose text
      is all whitespace, and no move buttons. */
  predicate NothingToReport(page: Page) {
    && (page.activeName.None? || AllSpace(page.activeName.value))
    && page.moveButtons == []
  }

  /** `getActivePokemon()`: null without a name element, otherwise the
      element's text with the surrounding whitespace cut off. */
  function GetActivePokemon(page: Page): (name: Option<string>)
    ensures name.None? <==> page.activeName.None?
    ensures name.Some? ==> (name.value == [] <==> AllSpace(page.activeName.value))
    ensures name.Some? && name.value != [] ==>
      !IsWhitespace(name.value[0]) && !IsWhitespace(name.value[|name.value| - 1])
    ensures name.Some? ==> |name.value| <= |page.activeName.value|
    ensures name.Some? ==>
      var t := page.activeName.value;
      && LeadingSpace(t) + |name.value| <= |t|
      && name.value == t[LeadingSpace(t)..LeadingSpace(t) + |name.value|]
      && SpaceOutside(t, LeadingSpace(t), LeadingSpace(t) + |name.value|)
  {
    match page.activeName
    case None => None
    case Some(text) => Some(Trim(text))
  }

  /** `getAvailableMoves()`: one label per move button, in the same order. */
  function GetAvailableMoves(buttons: seq<string>): (moves: seq<string>)
    ensures |moves| == |buttons|
    ensures forall i :: 0 <= i < |buttons| ==> moves[i] == Label(buttons[i])
  {
    if buttons == [] then []
    else [Label(buttons[0])] + GetAvailableMoves(buttons[1..])
  }

  /** `Array.prototype.find` from position `from` on, returning the
      position found: the first element at or after `from` that satisfies
      `p`, or None when there is none. */
  function Find<T>(xs: seq<T>, p: T -> bool, from: nat): (r: Option<nat>)
    requires from <= |xs|
    ensures r.Some? ==> from <= r.value < |xs| && p(xs[r.value])
    ensures r.Some? ==> forall j :: from <= j < r.value ==> !p(xs[j])
    ensures r.None? ==> forall j :: from <= j < |xs| ==> !p(xs[j])
    decreases |xs| - from
  {
    if from == |xs| then None
    else if p(xs[from]) then Some(from)
    else Find(xs, p, from + 1)
  }

  /** `selectMove(moveName)`: the index of the button it clicks, or None when
      it clicks nothing. It clicks at most one button: the first whose label
      is `moveName`. A name no label equals, or a name that is not a string,
      clicks nothing and is not an error. */
  function SelectMove(buttons: seq<string>, moveName: Option<string>): (click: Option<nat>)
    ensures click.Some? ==> && moveName.Some?
                            && click.value < |buttons|
                            && Label(buttons[click.value]) == moveName.value
    ensures click.Some? ==> forall j :: 0 <= j < click.value ==> Some(Label(buttons[j])) != moveName
    ensures click.None? ==> forall j :: 0 <= j < |buttons| ==> Some(Label(buttons[j])) != moveName
  {
    match moveName
    case None => None
    case Some(m) => Find(buttons, btn => Label(btn) == m, 0)
  }

  /** `selectMove(m)` clicks a button exactly when `m` is one of the moves
      `getAvailableMoves()` lists, and then the button at the position where
      `m` first appears in that list. */
  lemma SelectMoveIffListed(buttons: seq<string>, m: string)
    ensures SelectMove(buttons, Some(m)).Some? <==> m in GetAvailableMoves(buttons)
    ensures SelectMove(buttons, Some(m)).Some? ==>
      var i := SelectMove(buttons, Some(m)).value;
      && i < |GetAvailableMoves(buttons)|
      && GetAvailableMoves(buttons)[i] == m
      && m !in GetAvailableMoves(buttons)[..i]
  {
    var moves := GetAvailableMoves(buttons);
    var click := SelectMove(buttons, Some(m));
    if click.Some? {
      var i := click.value;
      assert moves[i] == m;
      assert m !in moves[..i] by {
        forall j | 0 <= j < i ensures moves[..i][j] != m {
          assert Label(buttons[j]) != m;
        }
      }
    } else {
      assert m !in moves by {
        forall j | 0 <= j < |moves| ensures moves[j] != m {
          assert Label(buttons[j]) != m;
        }
      }
    }
  }

  /** `parseBattleState()`: null when the name is absent or blank and there
      are no move buttons; otherwise the active name and the move list as
      the two readers return them. */
  function ParseBattleState(page: Page): (st: Option<BattleState>)
    ensures st.None? <==> NothingToReport(page)
    ensures st.Some? ==> && st.value.activePokemon == GetActivePokemon(page)
                         && st.value.moves == GetAvailableMoves(page.moveButtons)
  {
    var activePokemon := GetActivePokemon(page);
    var moves := GetAvailableMoves(page.moveButtons);
    if Falsy(activePokemon) && |moves| == 0 then None
    else Some(BattleState(activePokemon, moves))
  }

  /** `reportBattleState()`: the message sent to the background script, if
      any. Exactly one `battle_state` message is sent when the page has
      something to report, carrying the name and one label per move button;
      nothing is sent otherwise. */
  function ReportBattleState(page: Page): (out: Option<Outgoing>)
    ensures out.None? <==> NothingToReport(page)
    ensures out.Some? ==> && out.value.kind == BattleStateKind
                          && out.value.state.activePokemon == GetActivePokemon(page)
                          && |out.value.state.moves| == |page.moveButtons|
                          && forall i :: 0 <= i < |page.moveButtons| ==>
                               out.value.state.moves[i] == Label(page.moveButtons[i])
  {
    match ParseBattleState(page)
    case None => None
    case Some(state) => Some(Outgoing(BattleStateKind, state))
  }

  /** The `chrome.runtime.onMessage` listener: the index of the button it
      clicks, if any. Only a `recommended_move` message can click; it clicks
      exactly when its move is one of the available moves, and then the
      first button carrying that label. */
  function OnMessage(msg: Incoming, page: Page): (click: Option<nat>)
    ensures msg.kind != Some(RecommendedMoveKind) ==> click.None?
    ensures click.Some? ==> && msg.move.Some?
                            && click.value < |page.moveButtons|
                            && GetAvailableMoves(page.moveButtons)[click.value] == msg.move.value
    ensures msg.kind == Some(RecommendedMoveKind) ==> click == SelectMove(page.moveButtons, msg.move)
    ensures msg.kind == Some(RecommendedMoveKind) && msg.move.Some? ==>
      (click.Some? <==> msg.move.value in GetAvailableMoves(page.moveButtons))
  {
    if msg.kind == Some(RecommendedMoveKind) then
      var click := SelectMove(page.moveButtons, msg.move);
      if msg.move.Some? then
        SelectMoveIffListed(page.moveButtons, msg.move.value);
        click
      else
        click
    else None
  }

  /** Reporting and selecting agree: on the same page, a recommendation
      clicks a button exactly when it names one of the reported moves; the
      clicked button's label is that move, at its first reported position. */
  lemma ReportedMovesAreSelectable(page: Page, m: string)
    requires ReportBattleState(page).Some?
    ensures var click := OnMessage(Incoming(Some(RecommendedMoveKind), Some(m)), page);
      && (click.Some? <==> m in ReportBattleState(page).value.state.moves)
      && (click.Some? ==> Label(page.moveButtons[click.value]) == m)
      && (click.Some? ==> m !in ReportBattleState(page).value.state.moves[..click.value])
  {
    assert ReportBattleState(page).value.state.moves == GetAvailableMoves(page.moveButtons);
    SelectMoveIffListed(page.moveButtons, m);
  }

  /** When there is nothing to report there is nothing to click either,
      whatever message arrives. */
  lemma NoReportNoClick(page: Page, msg: Incoming)
    requires ReportBattleState(page).None?
    ensures OnMessage(msg, page).None?
  {
    assert page.moveButtons == [];
  }
}
