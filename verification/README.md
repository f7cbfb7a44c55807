# PokemonGPT content script, modelled in Dafny

PokemonGPT is a browser extension for Pokémon Showdown. Its content script
reads the battle page, sends the battle state to the extension's background
script, and clicks the move the background script recommends. This project
models that content script as pure functions over plain data:

- the page is a `Content.Page`: the raw text of the active Pokémon's name
  element (`None` when the element is missing) and the raw texts of the move
  buttons, in document order;
- a click is the index of the clicked button, `Option<nat>`;
- a report to the background script is an optional `Content.Outgoing`
  message;
- an incoming message is a `Content.Incoming` whose `type` and `move` fields
  are `None` when missing or not strings.

`JsString` models the two JavaScript string operations the script calls:
`trim` (with ECMAScript's WhiteSpace and LineTerminator code points) and
`split('\n')`. `indexOf` and `join('\n')` appear only as modelling helpers:
`IndexOf` defines `Split`, and `Join` states its round trip. A move label is
`text.trim().split('\n')[0]`, written `Label` and defined once. Both move
listing and move selection use it.

Files: `wrappers.dfy` (`Option`), `jsstring.dfy` (module `JsString`),
`content.dfy` (module `Content`).

`parseBattleState` tests `!activePokemon` (content.js:47). That test is true
for `""` as well as for `null`, so a name element whose text is all
whitespace counts as absent (`Content.NothingToReport`). In that case, when
there are move buttons, the reported state carries `""` as the name.

## Model

| member | source | states |
|---|---|---|
| JsString.Trim | content.js:11 | `trim` returns a slice of the text whose surroundings are all whitespace; the slice neither starts nor ends with whitespace; it is empty exactly when the text is all whitespace |
| JsString.TrimUnique | content.js:11 | any split of the text into whitespace, a middle part without whitespace at its ends, and whitespace again has `trim`'s result as its middle part, so the trimmed text is determined by the text alone |
| JsString.TrimIdempotent | content.js:11 | trimming an already trimmed text changes nothing |
| JsString.FirstLine | content.js:21 | the first line is a prefix of the text with no newline in it, and it stops at a newline or at the end of the text |
| JsString.FirstLineUnique | content.js:21 | those three properties single out the first line: any string that has them is the first line |
| JsString.Split | content.js:21 | `split('\n')` returns at least one piece; no piece contains a newline; joining the pieces with newlines gives back the text |
| JsString.FirstLineIsFirstPiece | content.js:21 | the first line is exactly element 0 of `split('\n')` |
| JsString.LabelShape | content.js:21 | a move label never contains a newline and never starts with whitespace; it is empty exactly when the button text is all whitespace; it is the whole trimmed text exactly when that text is one line |
| Content.GetActivePokemon | content.js:9-12 | the name is null exactly when the element is missing; otherwise it is the slice of the element's text that starts after the leading whitespace and has only whitespace around it, with no whitespace at either end, and empty exactly when the element's text is all whitespace |
| Content.GetAvailableMoves | content.js:17-22 | one move per button, in order: the list is as long as the button list, and element i is the label of button i |
| Content.Find | content.js:31-33 | `find` returns the first position at or after its start whose element satisfies the predicate; if there is none, no element from the start onward satisfies it |
| Content.SelectMove | content.js:27-38 | at most one button is clicked; a clicked button's label equals the requested name and no earlier button has that label; if nothing is clicked, no button has that label (a missing or non-string name clicks nothing) |
| Content.SelectMoveIffListed | content.js:17-38 | `selectMove(m)` clicks exactly when `m` is in `getAvailableMoves()`; the clicked index is the first position of `m` in that list |
| Content.ParseBattleState | content.js:43-52 | the result is null exactly when the name element is missing or blank and there are no move buttons; otherwise it holds the name and the move list as the two readers return them |
| Content.ReportBattleState | content.js:57-63 | one `battle_state` message is sent exactly when the page has something to report; it carries the trimmed name and one label per button in order; nothing is sent otherwise |
| Content.OnMessage | content.js:66-70 | a message whose type is not `recommended_move` clicks nothing; a `recommended_move` message makes exactly the click `selectMove` makes, so only the first button with that label, and it clicks exactly when its move is an available move, whose label the clicked button carries |
| Content.ReportedMovesAreSelectable | content.js:17-70 | on the same page, a recommendation clicks exactly when it names a move in the reported list; the clicked button carries that label and sits at the move's first position in the reported list |
| Content.NoReportNoClick | content.js:43-70 | when nothing is reported there are no move buttons, so no incoming message can click anything |

## Left out

- The `MutationObserver` on `#battle` and the initial report (content.js:74-80) are event wiring. Each mutation simply calls `reportBattleState`, which the model covers as a function of the page at that moment.
- `chrome.runtime.sendMessage` and `chrome.runtime.onMessage` are the browser's transport. A send is the `Outgoing` value returned; a received message is the `Incoming` argument.
- `console.log` calls are logging only and have no effect on behaviour.
- The DOM queries (`querySelector`, `querySelectorAll`, `textContent`, `click`) are browser calls. They are replaced by the `Page` value and the returned click index. The page could change between a report and a later recommendation; the lemmas relating the two assume the same page.
- `options.js` is a settings form backed by browser storage with `alert` and floating-point parsing. It is not part of this model.
- `background.js` only logs the messages it receives. It is not part of this model.
- Strings are sequences of Unicode code points (`char`). A JavaScript string is a sequence of UTF-16 code units and can hold a lone surrogate, which a Dafny `char` cannot represent. For strings without lone surrogates, `trim`, `split` and `===` give the same results in both views. `trim` removes ECMAScript's WhiteSpace and LineTerminator characters, listed explicitly in `JsString.IsWhitespace`. A Unicode version that adds new space separators would change that list.
