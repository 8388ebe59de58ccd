# Auxiliary windows, banner toolbar, webview editor and log server — a Dafny model

This project models the window-related core of a VS Code based workbench:

- **The auxiliary window service** opens a popup at a requested offset and keeps the live `AuxWindow`s in a set. Closing or disposing it disposes them (`AuxiliaryWindowService`).
- **The auxiliary window** (`AuxTitlebar`) does several things:
  - copies the main window's charset and Content-Security-Policy meta tags and its style sheets;
  - mirrors new `<style>` elements while running out of sources;
  - draws a title bar or a drag region;
  - forbids `createElement` in the child window;
  - runs a close handshake with the main window: `beforeunload` → `postMessage` → `message` → a 100 ms timer → `close`.
- **The banner part** (`Banner`) shows a banner item or, when none is shown, a toolbar:
  - it sorts the product's toolbar buttons by group (stable);
  - it turns them into menu or command actions, with a separator wherever the group changes;
  - it registers the menu actions by id;
  - it walks keyboard focus round the banner's actions;
  - it removes empty submenus from the context menu.
- **The webview editor pane** (`WebviewEditorPane`) claims an overlay webview and lays it out over its placeholder element. When the element lives in another window's document, it finds the layout root in that document through the `data-parent-flow-to-element-id` attribute.
- **The main process's window table** (`WindowsMain`) tracks the open windows and finds the focused one. It updates the title bar overlay and the menu of auxiliary windows, and builds the default `BrowserWindow` options.
- **The `vscode-webview` protocol handler** (`WebviewProtocol`) serves only three fixed files, answering `-10` or `-2` otherwise.
- **The named-pipe log server** (`LogServer`) counts the non-blank lines of each connection under the name its first chunk gave.

The modelling follows each source file's form:

- State that the source updates in place is a `class` whose methods carry `modifies` clauses and state the whole new state. Examples are the window, the service, the banner part, the editor pane, the window table and the log collector.
- Pure computations are functions with lemmas about them. Examples are the offsets, the features string, the request handler, the focus arithmetic, the sort, the action list and the options record.
- Loops in the source are `while`/`for` loops with invariants. Examples are `updateCSS`, `dispose`, `GetActions`, the reverse splice loop of the context menu, `getActiveBrowserWindow` and the two auxiliary-window updates.
- Events are methods the environment calls: mutation-observer callbacks, messages, timers, socket data.
- Services and DOM queries the core only calls become parameters: colour darkness, `path.join`, URI resolution, the theme's colours and the main editor part's container.

`Common` holds `Option`, `Result`, JavaScript truthiness and a sequence filter with its algebra. `Decimal` holds the `${n}` rendering of integers and its inverse, which is used for the features string and for window ids in messages.

## Model

| member | source | states |
|---|---|---|
| AuxiliaryWindowService.OffsetLeft | src/vs/workbench/services/auxiliaryWindow/browser/auxiliaryWindowService.ts:60 | `left` is `bounds.x` exactly when the caller gave a number, otherwise 40 |
| AuxiliaryWindowService.OffsetTop | src/vs/workbench/services/auxiliaryWindow/browser/auxiliaryWindowService.ts:61 | `top` is `bounds.y` exactly when the caller gave a number, otherwise 40 |
| AuxiliaryWindowService.FeaturesRoundTrip | src/vs/workbench/services/auxiliaryWindow/browser/auxiliaryWindowService.ts:64 | parsing the features string `popup=yes,left=…,top=…` gives back exactly the two offsets, negative ones included |
| AuxiliaryWindowService.FeaturesExampleWithBounds | src/vs/workbench/services/auxiliaryWindow/browser/auxiliaryWindowService.ts:60-64 | example: bounds (10, 20) ask for `popup=yes,left=10,top=20` |
| AuxiliaryWindowService.FeaturesExampleDefault | src/vs/workbench/services/auxiliaryWindow/browser/auxiliaryWindowService.ts:60-64 | example: options without bounds ask for `popup=yes,left=40,top=40` |
| AuxiliaryWindowService.Service.constructor | src/vs/workbench/services/auxiliaryWindow/browser/auxiliaryWindowService.ts:46-51 | the service starts with no live windows |
| AuxiliaryWindowService.Service.Open | src/vs/workbench/services/auxiliaryWindow/browser/auxiliaryWindowService.ts:58-71 | without a popup the call fails (`assertIsDefined`) and nothing changes. Otherwise a fresh window joins the live set and is registered, with an id above every live one, the counter advanced by one, the head and state a new window has (no size yet, no pending timers, the unload handshake live, the title bar in the container exactly when one is drawn) and the build flag given. The features string is the one computed from the offsets |
| AuxiliaryWindowService.Service.Close | src/vs/workbench/services/auxiliaryWindow/browser/auxiliaryWindowService.ts:72-75 | the window leaves the live set and no other window does. A window not disposed before becomes disposed and unregistered and closes natively once; an already disposed one keeps its state. Nothing but those three fields of the window changes |
| AuxiliaryWindowService.Service.Dispose | src/vs/workbench/services/auxiliaryWindow/browser/auxiliaryWindowService.ts:53-56 | every live window is disposed; each one not disposed before ends unregistered and closes natively once, the others keep their state; the set ends empty (loop invariants) |
| AuxiliaryWindowService.OpenTwo | src/vs/workbench/services/auxiliaryWindow/browser/auxiliaryWindowService.ts:67-68 | example: two windows opened in turn get strictly increasing ids and both are live |
| AuxTitlebar.HasTitleDefaultsToTrue | src/vs/workbench/services/auxiliaryWindow/browser/auxiliaryWindowService.ts:33-38 | example: an unset `window.auxWindow.hasTitle` reads as its registered default, true |
| AuxTitlebar.DrawsTitleBar | src/vs/workbench/browser/parts/titlebar/auxTitlebarPart.ts:112-113 | a title bar is drawn only in the custom title style; a `hasTitle` of false never draws one; otherwise one is drawn exactly in the custom style |
| AuxTitlebar.MirrorIsExact | src/vs/workbench/browser/parts/titlebar/auxTitlebarPart.ts:162-173 | after `updateCSS` the child head's style sheets are exactly the main head's, in order, and its other nodes are untouched |
| AuxTitlebar.MirrorIdempotent | src/vs/workbench/browser/parts/titlebar/auxTitlebarPart.ts:162-173 | mirroring twice from the same main head is the same as mirroring once |
| AuxTitlebar.RemovingStyleKeepsOthers | src/vs/workbench/browser/parts/titlebar/auxTitlebarPart.ts:164-167 | removing one style node from a head leaves its sequence of non-style nodes unchanged |
| AuxTitlebar.MirroringAfterMeta | src/vs/workbench/browser/parts/titlebar/auxTitlebarPart.ts:94-97 | a fresh child head holds the meta tags followed by the main head's style sheets |
| AuxTitlebar.CopiedAreStyleElements | src/vs/workbench/browser/parts/titlebar/auxTitlebarPart.ts:182-191 | the observer copies only `<style>` elements |
| AuxTitlebar.AddedStyleElementsAreCopied | src/vs/workbench/browser/parts/titlebar/auxTitlebarPart.ts:182-191 | every `<style>` element added in a `childList` mutation is copied |
| AuxTitlebar.UnloadMessageAddressing | src/vs/workbench/browser/parts/titlebar/auxTitlebarPart.ts:219-239 | the unload message a window posts is accepted by a window exactly when the ids are equal |
| AuxTitlebar.UnloadMessage | src/vs/workbench/browser/parts/titlebar/auxTitlebarPart.ts:239 | the message `beforeunload` posts for a window passes that window's own `message` test (type and `${id}` content) |
| AuxTitlebar.FirstCsp | src/vs/workbench/browser/parts/titlebar/auxTitlebarPart.ts:154 | the query finds nothing exactly when no CSP meta tag exists, and otherwise the position of the first one in document order |
| AuxTitlebar.MetaTags | src/vs/workbench/browser/parts/titlebar/auxTitlebarPart.ts:150-159 | the child head gets a charset meta tag, then a copy of the CSP tag's attributes exactly when the main document has one |
| AuxTitlebar.AuxWindow.CreateElement | src/vs/workbench/browser/parts/titlebar/auxTitlebarPart.ts:266-270 | `createElement` in the child window fails with the same error for every tag and in every state of the window, and changes nothing |
| AuxTitlebar.IdCounter.constructor | src/vs/workbench/browser/parts/titlebar/auxTitlebarPart.ts:33 | the id counter starts at 0 |
| AuxTitlebar.IdCounter.Take | src/vs/workbench/browser/parts/titlebar/auxTitlebarPart.ts:147 | `counter++` returns the old value and increments it |
| AuxTitlebar.AuxWindow.constructor | src/vs/workbench/browser/parts/titlebar/auxTitlebarPart.ts:73-148 | the window takes the next id and is registered, live and not exiting. Its head is the meta tags, the style sheets, and the drag style when no title bar is drawn. Its container holds the title bar part when one is drawn |
| AuxTitlebar.AuxWindow.BuildDocument | src/vs/workbench/browser/parts/titlebar/auxTitlebarPart.ts:93-141 | on an empty head and container, `applyMeta`, `applyCSS` and the title-bar branch leave the meta tags, then the main head's style sheets, then the drag style exactly when no title bar is drawn; the container holds the title bar exactly when one is drawn |
| AuxTitlebar.AuxWindow.CopyHead | src/vs/workbench/browser/parts/titlebar/auxTitlebarPart.ts:93-96 | on an empty head, `applyMeta` then `applyCSS` leave the meta tags followed by the main head's style sheets, in order |
| AuxTitlebar.AuxWindow.ApplyMeta | src/vs/workbench/browser/parts/titlebar/auxTitlebarPart.ts:150-159 | the head gains exactly the meta tags `MetaTags` describes, after what it held |
| AuxTitlebar.AuxWindow.ApplyTitleBarChoice | src/vs/workbench/browser/parts/titlebar/auxTitlebarPart.ts:111-141 | drawing a title bar puts it first in the container and leaves the head; otherwise the drag style is appended to the head and the container is left |
| AuxTitlebar.AuxWindow.UpdateCSS | src/vs/workbench/browser/parts/titlebar/auxTitlebarPart.ts:162-173 | the head becomes the mirror of the main head: its other nodes, then copies of the main head's style sheets |
| AuxTitlebar.AuxWindow.RemoveStyles | src/vs/workbench/browser/parts/titlebar/auxTitlebarPart.ts:164-168 | removing the old style sheets one by one leaves exactly the head's other nodes, in order (loop invariants) |
| AuxTitlebar.AuxWindow.AppendClones | src/vs/workbench/browser/parts/titlebar/auxTitlebarPart.ts:170-173 | cloning the main head's style sheets appends exactly those nodes, in order (loop invariant) |
| AuxTitlebar.AuxWindow.OnMainHeadMutations | src/vs/workbench/browser/parts/titlebar/auxTitlebarPart.ts:181-196 | while observing (out of sources, not disposed), the copied style elements are appended; otherwise the head is unchanged |
| AuxTitlebar.AuxWindow.AppendStyleElements | src/vs/workbench/browser/parts/titlebar/auxTitlebarPart.ts:185-189 | for one child-list mutation, the head gains the added `<style>` elements, in order, and nothing else |
| AuxTitlebar.AuxWindow.Dispose | src/vs/workbench/browser/parts/titlebar/auxTitlebarPart.ts:54-58 | the first dispose unregisters the window and closes it natively; a later one changes nothing |
| AuxTitlebar.AuxWindow.OnShutdown | src/vs/workbench/browser/parts/titlebar/auxTitlebarPart.ts:106 | shutdown disposes the window once |
| AuxTitlebar.AuxWindow.OnBeforeUnload | src/vs/workbench/browser/parts/titlebar/auxTitlebarPart.ts:229-240 | once the window is exiting, the handshake listeners are removed and the unload goes through. Before that, the unload is prevented with an empty return value and the window's unload message is posted |
| AuxTitlebar.AuxWindow.OnMessage | src/vs/workbench/browser/parts/titlebar/auxTitlebarPart.ts:218-227 | only this window's unload message fires `onDidClose` and schedules the close timer |
| AuxTitlebar.AuxWindow.OnTimer | src/vs/workbench/browser/parts/titlebar/auxTitlebarPart.ts:221-225 | the timer marks the window exiting and closes it natively |
| AuxTitlebar.AuxWindow.OnResize | src/vs/workbench/browser/parts/titlebar/auxTitlebarPart.ts:247-254 | a live window sizes its container to the body's client area and fires `onDidResize`; a disposed one ignores the event |
| AuxTitlebar.AuxWindow.OnUnhandledRejection | src/vs/workbench/browser/parts/titlebar/auxTitlebarPart.ts:242-245 | a live window reports the reason and prevents the default; a disposed one does nothing |
| AuxTitlebar.CloseHandshake | src/vs/workbench/browser/parts/titlebar/auxTitlebarPart.ts:215-240 | example: the first close attempt is prevented and the second goes through. In between come the posted unload message, the `onDidClose` event and the native close, in that order |
| Banner.NextFocusIndex | src/vs/workbench/browser/parts/banner/bannerPart.ts:359-364 | from any index in [-1, length] the next one stays in [0, length], and it wraps from the last to 0 |
| Banner.PreviousFocusIndex | src/vs/workbench/browser/parts/banner/bannerPart.ts:366-371 | from any index in [-1, length] the previous one stays in [0, length], and it wraps from 0 (or -1) to the last |
| Banner.FocusStepsAreInverse | src/vs/workbench/browser/parts/banner/bannerPart.ts:359-371 | on [0, length], moving next then previous, or previous then next, returns to the same action |
| Banner.NextFocusWalks | src/vs/workbench/browser/parts/banner/bannerPart.ts:359-364 | k presses of next from index i reach i + k while they stay within the actions |
| Banner.NextFocusTimesCompose | src/vs/workbench/browser/parts/banner/bannerPart.ts:359-364 | a + b presses are a presses followed by b presses |
| Banner.NextFocusCycles | src/vs/workbench/browser/parts/banner/bannerPart.ts:359-364 | length + 1 presses of next bring focus back to where it started |
| Banner.AriaLabel | src/vs/workbench/browser/parts/banner/bannerPart.ts:323-332 | a truthy `ariaLabel` wins; otherwise a plain-text message is its own label; there is no label exactly when the label is falsy and the message is markdown |
| Banner.LexLessTransitive | src/vs/workbench/browser/parts/banner/bannerPart.ts:505-508 | JavaScript's `<` on strings is transitive; with the irreflexivity, asymmetry and totality lemmas beside it, it is a strict total order, so the sort is well defined |
| Banner.SortByGroupCorrect | src/vs/workbench/browser/parts/banner/bannerPart.ts:505-509 | the buttons come out ordered by `group ?? ''` and are a permutation of the input |
| Banner.SortByGroupStable | src/vs/workbench/browser/parts/banner/bannerPart.ts:505-509 | the sort is stable: buttons of the same group keep their relative order |
| Banner.SortByGroupIdempotent | src/vs/workbench/browser/parts/banner/bannerPart.ts:505-509 | sorting an already sorted list changes nothing, so a second `GetActions` sees the same order |
| Banner.SortByGroup | src/vs/workbench/browser/parts/banner/bannerPart.ts:505-509 | sorting keeps the number of buttons |
| Banner.ActionsFor | src/vs/workbench/browser/parts/banner/bannerPart.ts:511-525 | each button contributes at most two actions, a separator and its own action |
| Banner.ButtonAction | src/vs/workbench/browser/parts/banner/bannerPart.ts:517-524 | a button with a menu id yields a menu action holding the looked-up menu; otherwise one with a command id yields a command action; otherwise it yields none |
| Banner.ActionsWithoutSeparators | src/vs/workbench/browser/parts/banner/bannerPart.ts:511-525 | without separators, the actions are the buttons' actions in sorted order |
| Banner.SeparatorPerGroupChange | src/vs/workbench/browser/parts/banner/bannerPart.ts:511-516 | there are exactly as many separators as places where the raw `group` of consecutive buttons differs |
| Banner.NoLeadingSeparatorBeforeFirstButton | src/vs/workbench/browser/parts/banner/bannerPart.ts:511-516 | the first button never gets a separator before it |
| Banner.SeparatorCanLead | src/vs/workbench/browser/parts/banner/bannerPart.ts:511-525 | if the first button yields no action and the second has another group, the list starts with a separator |
| Banner.MenuButtonsRegistered | src/vs/workbench/browser/parts/banner/bannerPart.ts:79-93 | after the actions are built, every button with a menu id has a menu action registered under its id |
| Banner.RegisteredMenuIsLookedUp | src/vs/workbench/browser/parts/banner/bannerPart.ts:517-519 | the entry under a menu button's id, when no later menu button has that id, is that button's action, carrying the menu that `MenuId.getMenuIdbyId` gave for its menu id, possibly `undefined` |
| Banner.OtherIdsUntouched | src/vs/workbench/browser/parts/banner/bannerPart.ts:79-93 | ids of no menu button keep whatever the registry held before |
| Banner.RemoveEmptySubmenus | src/vs/workbench/browser/parts/banner/bannerPart.ts:134-145 | the reverse splice loop yields the non-empty entries in their original order, each relabelled |
| Banner.BannerPart.constructor | src/vs/workbench/browser/parts/banner/bannerPart.ts:225-248 | the part starts visible, 60 pixels high, with no item and no focused action |
| Banner.BannerPart.MinimumHeight | src/vs/workbench/browser/parts/banner/bannerPart.ts:229-231 | the height while visible, 0 while hidden |
| Banner.BannerPart.MaximumHeight | src/vs/workbench/browser/parts/banner/bannerPart.ts:233-235 | always equal to the minimum height |
| Banner.BannerPart.SetVisibility | src/vs/workbench/browser/parts/banner/bannerPart.ts:344-352 | the visibility becomes `v`; only a change hides or shows the part and fires a size change |
| Banner.BannerPart.Focus | src/vs/workbench/browser/parts/banner/bannerPart.ts:354-357 | focusing the part resets the focused action to -1 |
| Banner.BannerPart.FocusNextAction | src/vs/workbench/browser/parts/banner/bannerPart.ts:359-364 | the focus moves by `NextFocusIndex` over the item's action count and stays in range |
| Banner.BannerPart.FocusPreviousAction | src/vs/workbench/browser/parts/banner/bannerPart.ts:366-371 | the focus moves by `PreviousFocusIndex` and stays in range |
| Banner.BannerPart.Hide | src/vs/workbench/browser/parts/banner/bannerPart.ts:373-379 | only hiding the shown item's id makes the part invisible; if it was visible, focus resets, the part is hidden and one size change fires, and if it was already hidden nothing else changes. Any other id changes nothing |
| Banner.BannerPart.GetActions | src/vs/workbench/browser/parts/banner/bannerPart.ts:499-529 | the buttons are sorted in place by group. The result is the action list with separators at group changes. Every menu action is registered (the loop's invariants tie the prefix built so far to `ActionsFor` and `Registered`) |
| Banner.BannerPart.MakeAction | src/vs/workbench/browser/parts/banner/bannerPart.ts:517-524 | a button yields `ButtonAction`'s action, and only a button with a menu id registers it under its id, with the looked-up menu |
| Banner.BannerPart.GetMenuId | src/vs/workbench/browser/parts/banner/bannerPart.ts:83-86 | a menu comes back exactly for an id registered with a menu action, and it is the menu that action holds (`undefined` when the lookup gave none); an unregistered id or a command action gives none |
| Banner.BannerPart.ShowToolbar | src/vs/workbench/browser/parts/banner/bannerPart.ts:445-468 | the part becomes a visible 33-pixel toolbar holding `GetActions`' list. A hidden part is shown, has its focus reset and fires one size change |
| Banner.BannerPart.CreateContentArea | src/vs/workbench/browser/parts/banner/bannerPart.ts:269-291 | the content area starts as the toolbar: height 33, visible, buttons sorted, toolbar and registry rebuilt; a hidden part is shown, has its focus reset and fires exactly one size change, a visible one keeps focus and fires none |
| Banner.BannerPart.Show | src/vs/workbench/browser/parts/banner/bannerPart.ts:381-443 | showing the item already shown only makes the part visible, firing one size change if it was hidden. A new item rebuilds the toolbar, becomes the shown item and sets the height to 33 + 26 = 59, firing one more size change than the visibility change does |
| Banner.BannerPart.Close | src/vs/workbench/browser/parts/banner/bannerPart.ts:293-307 | closing records the item's `onClose` call if it has one, drops the item and goes back to the 33-pixel toolbar, rebuilt; one size change fires, plus one if the part was hidden, whose focus also resets |
| WebviewEditorPane.FirstWithId | src/vs/workbench/contrib/webviewPanel/browser/webviewEditor.ts:213 | `querySelector` by id finds the first element with that id, or reports that none has it |
| WebviewEditorPane.LayoutRoot | src/vs/workbench/contrib/webviewPanel/browser/webviewEditor.ts:207-214 | with no main root, or one in the editor's own document, the root is unchanged. Across documents it is the parent of the first element whose id is the flow-to attribute's text. A new root always lies in the editor's document |
| WebviewEditorPane.CrossDocumentRootIsParentOfTarget | src/vs/workbench/contrib/webviewPanel/browser/webviewEditor.ts:208-214 | in a document with unique ids, the cross-document root is exactly the parent of the flow-to element |
| WebviewEditorPane.NoWebviewLooksUpUndefined | src/vs/workbench/contrib/webviewPanel/browser/webviewEditor.ts:213 | without a webview the selector looks for the id `undefined` and, when no element has that id, yields no root |
| WebviewEditorPane.OverlayWebview.Claim | src/vs/workbench/contrib/webviewPanel/browser/webviewEditor.ts:181 | the claiming pane becomes the owner and the claim is recorded |
| WebviewEditorPane.OverlayWebview.Release | src/vs/workbench/contrib/webviewPanel/browser/webviewEditor.ts:153 | a release clears the owner only when the releasing pane owns it, and is recorded |
| WebviewEditorPane.OverlayWebview.LayoutOverElement | src/vs/workbench/contrib/webviewPanel/browser/webviewEditor.ts:216 | the layout request, with its root and dimension, is recorded |
| WebviewEditorPane.WebviewEditor.constructor | src/vs/workbench/contrib/webviewPanel/browser/webviewEditor.ts:78-86 | the pane's element gets the id `webview-editor-element-<uuid>`; it starts invisible, without input or dimension |
| WebviewEditorPane.WebviewEditor.SynchronizeDimensions | src/vs/workbench/contrib/webviewPanel/browser/webviewEditor.ts:202-217 | without an element nothing happens. Otherwise the webview is laid out over the element against `LayoutRoot`, and a cross-document root moves the webview to the element's window |
| WebviewEditorPane.WebviewEditor.ClaimWebview | src/vs/workbench/contrib/webviewPanel/browser/webviewEditor.ts:179-200 | the pane owns the webview, which lives in the element's window. Its calls gain exactly the claim and then one layout over the element when there is one. The flow-to attributes link the element and the webview both ways. The three visible disposables are installed. Other overlays move to the element's window only across documents |
| WebviewEditorPane.WebviewEditor.SetEditorVisible | src/vs/workbench/contrib/webviewPanel/browser/webviewEditor.ts:124-134 | becoming visible claims the current webview, installs the visible disposables and lays it out over the element: the webview moves to the element's window when the layout crosses documents and points its flow-to links at the pane. Becoming hidden only releases it: the owner is cleared if it was this pane, and window and flow-to links stay. Without a webview only the flag changes |
| WebviewEditorPane.WebviewEditor.ClearInput | src/vs/workbench/contrib/webviewPanel/browser/webviewEditor.ts:136-143 | the input is cleared, the webview released (its owner cleared if it was this pane, its window and flow-to parent kept) and the visible disposables dropped |
| WebviewEditorPane.WebviewEditor.Dispose | src/vs/workbench/contrib/webviewPanel/browser/webviewEditor.ts:88-95 | the pane is marked disposed and its element removed |
| WebviewEditorPane.WebviewEditor.Layout | src/vs/workbench/contrib/webviewPanel/browser/webviewEditor.ts:97-109 | the dimension is stored; a visible pane with a webview and an element lays it out with that dimension. Overlays move to the element's window only for a visible pane across documents, and no overlay changes otherwise |
| WebviewEditorPane.WebviewEditor.OnGroupEvent | src/vs/workbench/contrib/webviewPanel/browser/webviewEditor.ts:58-67 | a scroll or a group change re-lays out the webview of a visible pane without a dimension, moving overlays to the element's window across documents; otherwise nothing changes |
| WebviewEditorPane.WebviewEditor.BeginSetInput | src/vs/workbench/contrib/webviewPanel/browser/webviewEditor.ts:145-156 | the same input returns early with nothing changed. Otherwise the old webview is released unless the new input carries it (owner cleared if it was this pane, window and flow-to parent kept), and the new input is set |
| WebviewEditorPane.WebviewEditor.ResumeSetInput | src/vs/workbench/contrib/webviewPanel/browser/webviewEditor.ts:157-177 | after the await, a cancelled or disposed pane, or a non-webview input, changes nothing. Otherwise the group update is recorded. The resumed input's webview is claimed unless the pane owned it at the start, even when a newer input has replaced it since; its calls gain exactly the claim, the layout and, while it is still the current webview, the relayout, and its owner, window and flow-to links are the pane's. The relayout always acts on the current webview, whose window follows the element's when the layout crosses documents |
| WebviewEditorPane.StaleResumeClaims | src/vs/workbench/contrib/webviewPanel/browser/webviewEditor.ts:145-177 | example: when input A's resume completes after input B was set, the pane claims A's webview while B's stays unowned |
| WebviewEditorPane.ClearInputGivesUpClaim | src/vs/workbench/contrib/webviewPanel/browser/webviewEditor.ts:136-143 | example: after a webview input is set, clearing it releases the claim: the webview has no owner but keeps the window and flow-to parent the claim gave it |
| WebviewEditorPane.WebviewEditor.ResumeWebview | src/vs/workbench/contrib/webviewPanel/browser/webviewEditor.ts:163-176 | for any webview input, the group update is recorded; a webview not yet owned is claimed with exactly the claim and layout calls, and then belongs to the pane, sits in the element's window when the layout crosses documents and points its flow-to links at the pane; the current webview is relaid out when a dimension is stored and the pane is visible |
| WebviewEditorPane.WebviewEditor.Relayout | src/vs/workbench/contrib/webviewPanel/browser/webviewEditor.ts:173-175 | a stored dimension lays the current webview out again: every overlay keeps its owner and flow-to link, its calls gain exactly the relayout calls, and it moves window only across documents |
| WindowsMain.WindowTable.constructor | src/vs/platform/windows/electron-main/windows.ts:115 | the table starts empty |
| WindowsMain.WindowTable.UpdateWindow | src/vs/platform/windows/electron-main/windows.ts:126-138 | `Create` maps the window's id to it, a new id going last in iteration order, and takes the menu from a window with id above 2. `Close` deletes the id. The ids stay distinct and the map and order agree |
| WindowsMain.WindowTable.FirstFocused | src/vs/platform/windows/electron-main/windows.ts:117-124 | the first focused window in iteration order from `from` on, or none when no later window is focused |
| WindowsMain.WindowTable.GetActiveBrowserWindow | src/vs/platform/windows/electron-main/windows.ts:117-124 | a window is returned exactly when some window is focused, and it is the first focused one in insertion order |
| WindowsMain.WindowTable.UpdateAuxWindowsTitleControl | src/vs/platform/windows/electron-main/windows.ts:140-153 | every window with id above 2 gets the overlay colours and loses its menu; the main windows are untouched |
| WindowsMain.WindowTable.UpdateAuxWindowsMenu | src/vs/platform/windows/electron-main/windows.ts:157-164 | every window with id above 2 loses its menu; the others keep theirs |
| WindowsMain.Basics | src/vs/platform/windows/electron-main/windows.ts:181-186 | the title, background colour and minimum width and height are the caller's when given, else the product's, the theme's and `WindowMinimumSize`; every other key is exactly the caller's |
| WindowsMain.InitialOptions | src/vs/platform/windows/electron-main/windows.ts:181-214 | the record agrees with those basics on every key except `webPreferences`, which is the merged preferences record, and `experimentalDarkMode`, which is true |
| WindowsMain.WebPreferencesRecord | src/vs/platform/windows/electron-main/windows.ts:187-212 | every entry of the caller's `webPreferences` is kept as given, applied after the defaults |
| WindowsMain.WebPreferencesDefaults | src/vs/platform/windows/electron-main/windows.ts:187-212 | for each key the caller's `webPreferences` does not name: the preload script is the sandbox one, the V8 code cache bypasses the heat check only when the code cache is on, WebSQL and spellcheck are off, the zoom factor is the configured one, the `HighlightAPI` Blink feature is enabled, node integration is on and context isolation off |
| WindowsMain.TitleBarOverlayRecord | src/vs/platform/windows/electron-main/windows.ts:240-248 | every entry of the caller's `titleBarOverlay` wins; otherwise the height is 30, the colour the title bar colour and the symbol colour white on a dark colour and black on a light one |
| WindowsMain.WithIcon | src/vs/platform/windows/electron-main/windows.ts:216-220 | the icon is set on Linux and on Windows out of sources; nothing else changes, and elsewhere the record is left as it was |
| WindowsMain.WithFirstMouse | src/vs/platform/windows/electron-main/windows.ts:222-228 | on macOS `acceptFirstMouse` is set, false only for a `clickThroughInactive` of false; no other key changes |
| WindowsMain.WithTitleBar | src/vs/platform/windows/electron-main/windows.ts:230-253 | the custom style sets `titleBarStyle`, `frame` (except on macOS) and `titleBarOverlay`; no other key changes, and the native style changes nothing |
| WindowsMain.WithGeometry | src/vs/platform/windows/electron-main/windows.ts:254-259 | the main window gets the four geometry entries from the window state; no other key changes |
| WindowsMain.UntouchedKey | src/vs/platform/windows/electron-main/windows.ts:181-260 | a key none of the later assignments names keeps the value the first record gave it |
| WindowsMain.WebPreferencesRule | src/vs/platform/windows/electron-main/windows.ts:187-211 | `webPreferences` holds every entry the caller gave. Node integration is on and context isolation off unless the caller overrides them |
| WindowsMain.DefaultBrowserWindowOptions | src/vs/platform/windows/electron-main/windows.ts:166-261 | `experimentalDarkMode` is true whatever the caller gave; the rules below state the other keys the function sets or passes on |
| WindowsMain.TitleRule | src/vs/platform/windows/electron-main/windows.ts:181-186 | the caller's title wins over the product name |
| WindowsMain.BackgroundColorRule | src/vs/platform/windows/electron-main/windows.ts:181-186 | the caller's background colour wins over the theme's |
| WindowsMain.MinimumSizeRule | src/vs/platform/windows/electron-main/windows.ts:181-186 | the minimum width and height are `WindowMinimumSize` unless the caller gives its own |
| WindowsMain.IconRule | src/vs/platform/windows/electron-main/windows.ts:216-220 | the icon is forced on Linux and on Windows out of sources; elsewhere it is whatever the caller gave, if anything |
| WindowsMain.FirstMouseRule | src/vs/platform/windows/electron-main/windows.ts:222-228 | on macOS a first click goes through unless `clickThroughInactive` is exactly false |
| WindowsMain.CustomTitleBarRule | src/vs/platform/windows/electron-main/windows.ts:230-253 | the custom title style hides the title bar and drops the frame except on macOS. It installs the 30-pixel controls overlay, or `false` when the overlay is off |
| WindowsMain.NativeTitleBarRule | src/vs/platform/windows/electron-main/windows.ts:230-253 | any other title style leaves `titleBarStyle`, `frame` and `titleBarOverlay` to the caller |
| WindowsMain.CallerKeyRule | src/vs/platform/windows/electron-main/windows.ts:222-253 | off macOS `acceptFirstMouse`, and on macOS `frame`, are exactly what the caller gave, present or absent |
| WindowsMain.CallerKeyThroughTitleBar | src/vs/platform/windows/electron-main/windows.ts:181-253 | up to the title bar step, a key none of the assignments sets is exactly the caller's |
| WindowsMain.MainWindowGeometryRule | src/vs/platform/windows/electron-main/windows.ts:254-259 | the main window's size and position are the window state's, `undefined` where missing |
| WindowsMain.SecondaryWindowGeometryRule | src/vs/platform/windows/electron-main/windows.ts:254-259 | a window other than the main one keeps the caller's width, height, x and y, present or absent |
| WindowsMain.OverlaySymbolColor | src/vs/platform/windows/electron-main/windows.ts:239-248 | the overlay's symbol colour is white exactly when the title bar colour is dark, unless the caller overrides it |
| WebviewProtocol.AllowListShape | src/vs/platform/webview/electron-main/webviewProtocolProvider.ts:14-18 | example: exactly three paths are served, each naming the file of the same name |
| WebviewProtocol.HandleWebviewRequest | src/vs/platform/webview/electron-main/webviewProtocolProvider.ts:30-65 | a file path is answered exactly when the URL parses, its path is listed and the file resolves. `-10` comes exactly for an unlisted path, and `-2` exactly when parsing or resolving throws |
| WebviewProtocol.OnlyPathMatters | src/vs/platform/webview/electron-main/webviewProtocolProvider.ts:51-52 | two URIs with the same path get the same response, whatever their scheme, authority, query or fragment |
| WebviewProtocol.QueryInPathIsRefused | src/vs/platform/webview/electron-main/webviewProtocolProvider.ts:51-58 | example: a decoded path holding a `?` (an escaped `%3F`) is refused, while a real query or fragment beside an accepted path is ignored |
| LogServer.TrimEnd | logserver.js:22 | `trimEnd` keeps the longest prefix that does not end in white space; everything cut is white space |
| LogServer.BlankIffAllSpace | logserver.js:22-23 | a chunk is skipped exactly when all its characters are white space |
| LogServer.Step | logserver.js:19-27 | the first chunk names the session and starts the count at -1. A non-blank chunk adds one and a blank one adds nothing; the name never changes afterwards |
| LogServer.ReplaySession | logserver.js:18-28 | over any chunks, a session's count grows by the number of non-blank chunks and its name stays |
| LogServer.ReplayFromConnection | logserver.js:17-28 | after a connection's chunks the entry is named by the first chunk, and its count is the number of non-blank chunks minus one |
| LogServer.Collector.constructor | logserver.js:12 | the socket map starts empty |
| LogServer.Collector.OnConnection | logserver.js:17 | a new connection is recorded as pending |
| LogServer.Collector.OnData | logserver.js:18-28 | data on a known socket steps its entry. On an unknown socket, a TypeError is thrown exactly when the chunk is non-blank, and nothing changes |
| LogServer.Collector.OnEnd | logserver.js:29-33 | the end of a known socket removes it; an unknown one throws a TypeError |

## Left out

- DOM rendering, theming and styles are not modelled. That covers `updateStyles` (`auxTitlebarPart.ts` 60-71), the banner's markdown rendering, icons, the action bar's view-item provider and `toJSON`. They have no observable logic beyond what is modelled.
- The web-only drag, drop and wheel listeners (`auxTitlebarPart.ts` 256-263), `applyHTML`, `trackAttributes` and the `onfocus` stub are left out, because they only forward browser events.
- `MutationObserver`, `setTimeout`, `postMessage`, socket and group events are step methods the environment calls. Their timing and interleavings, including the 100 ms delay, are not modelled.
- `IOverlayWebview` is not part of this model. `OverlayWebview` records only `claim`, `release` and `layoutWebviewOverElement`. `release` clears the owner only when the caller owns it.
- Services become parameters:
  - `Color.isDarker`, `path.join`, `URI.parse` and `FileAccess`/`decodeURIComponent` are functions the caller supplies;
  - so are `zoomLevelToZoomFactor`, `WindowMinimumSize` and `mnemonicMenuLabel`;
  - `MenuId.getMenuIdbyId` is the banner part's `menus` lookup, a fixed function from menu-id strings to an optional menu: the menu registry is global and outside the part, and the part never changes it;
  - so are the configuration values (`getTitleBarStyle`, `useWindowControlsOverlay`).
- DOM nodes are values. A clone is a copy of the value. The tag and attribute names the core tests are constructors of `Tag` and `Attr`; any other name is `OtherTag` or `OtherAttr`, which is taken never to spell one of those. The main document is represented by its head.
- Byte decoding of socket data in `logserver.js` is not modelled: a chunk is the string `${data}` already gives. Console output and the named pipe are left out.
- `contextMenuHandler.ts` is not part of this model. The context menu's actions are entries with a caption and a child count.
- Banner.RemoveEmptySubmenus: it returns the new list instead of splicing the shared array in place, so aliasing of the action objects is not captured. The discarded `actions.filter` call at line 146 has no effect and is not modelled.
- Banner.BannerPart.GetMenuId: `ToolbarActions.actionMenuMap` is a static map shared by every part, and `product.mainToolbarActions` is a global list the sort reorders for everyone. The model keeps both as fields of one part, so sharing between parts is not captured.
- AuxiliaryWindowService.OffsetLeft and AuxiliaryWindowService.OffsetTop: offsets are integers. A fractional, `NaN` or infinite `bounds.x`/`bounds.y` passes `typeof … === 'number'` and would print as `1.5`, `NaN` or `Infinity`; those values are not modelled.
- Banner.LexLessTransitive: strings are sequences of Dafny characters. JavaScript compares UTF-16 code units, which agree for characters of the Basic Multilingual Plane.
- WindowsMain.DefaultBrowserWindowOptions: the options record is a map, so the property order of the JavaScript object is not captured. Property names are constructors of `Key`; any name the core does not set is `OtherKey`. Numbers are integers. Spreading a non-record value yields nothing.
- WindowsMain.WindowTable.GetActiveBrowserWindow: iteration order is the map's insertion order, kept as a sequence beside it. Re-adding an existing id keeps its place, as `Map.set` does.
- AuxiliaryWindowService.Service.Dispose: JavaScript `Set.forEach` disposes in insertion order; the model disposes in an unspecified order. The resulting state is the same.
- WebviewEditorPane.WebviewEditor.BeginSetInput: `input.matches` is taken to be identity of inputs. `input.resolve()` is the await between the two phases and is otherwise not modelled.
- WebviewEditorPane.LayoutRoot: an id containing `"` would make the selector malformed. This is not modelled.
- The editor's `focus()` and `trackFocus` are left out: they forward focus events to the webview.
- The banner's `focusActionLink` (DOM focus of a link) and the rendering of `item.actions` are left out. Only their count matters to the focus arithmetic.
- AuxTitlebar.IsStyleSheetOrStyle and AuxTitlebar.IsCspMeta: HTML matches the `rel` and `http-equiv` values ignoring ASCII case, and `querySelector`/`querySelectorAll` search every descendant (the CSP tag anywhere in the document). The model compares the values exactly, and its nodes have no children, so only the head's direct children are searched.
- WebviewEditorPane.WebviewEditor: the pane's element is created in the main document and adopted by the editor group's document when it is appended. The model fixes the pane's document for its whole life, so an element that later moves to another window is not captured.
